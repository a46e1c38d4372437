/**
 Revision strings (cache/cache.go:558-597). The digest is a parameter `hash`: a function
 of the bytes fed to it, so only the order of feeding matters.
 */
module Revisions {
  import opened Folds
  import opened StringOrder

  function Concat(s: seq<string>): string {
    if s == [] then "" else s[0] + Concat(s[1..])
  }

  lemma {:induction false} ConcatSnoc(s: seq<string>, x: string)
    ensures Concat(s + [x]) == Concat(s) + x
  {
    if s == [] {
      assert s + [x] == [x];
    } else {
      ConcatSnoc(s[1..], x);
      assert (s + [x])[1..] == s[1..] + [x];
    }
  }

  /** Some enumeration of a multiset, as a map iteration would give it. */
  ghost function Enumerate(b: multiset<string>): (s: seq<string>)
    ensures multiset(s) == b
    decreases |b|
  {
    if b == multiset{} then []
    else
      var x :| x in b;
      [x] + Enumerate(b - multiset{x})
  }

  /** The digest of a multiset of revisions, fed in sorted order after `prefix`. */
  ghost function SortedDigest(hash: string -> string, prefix: string, b: multiset<string>): string {
    hash(prefix + Concat(SortStrings(Enumerate(b))))
  }

  /** Whatever order the revisions were collected in, sorting them gives the digest of the multiset. */
  lemma DigestOfAny(hash: string -> string, prefix: string, revisions: seq<string>)
    ensures hash(prefix + Concat(SortStrings(revisions))) == SortedDigest(hash, prefix, multiset(revisions))
  {
    SortStringsCanonical(revisions, Enumerate(multiset(revisions)));
  }

  /** Feeds the revisions one by one, as `hash.Hash.Write` does. */
  method ComputeRevisionBySlice(hash: string -> string, written: string, slice: seq<string>) returns (r: string)
    ensures r == hash(written + Concat(slice))
  {
    var fed := written;
    for i := 0 to |slice|
      invariant fed == written + Concat(slice[..i])
    {
      ConcatSnoc(slice[..i], slice[i]);
      assert slice[..i + 1] == slice[..i] + [slice[i]];
      fed := fed + slice[i];
    }
    assert slice[..|slice|] == slice;
    r := hash(fed);
  }

  /** The service revision first, then the instance revisions sorted: the order in which
      the instances are listed does not show in the result. */
  method ComputeRevision(hash: string -> string, serviceRevision: string, instances: seq<string>) returns (r: string)
    ensures r == SortedDigest(hash, serviceRevision, multiset(instances))
  {
    var slice := SortStrings(instances);
    DigestOfAny(hash, serviceRevision, instances);
    r := ComputeRevisionBySlice(hash, serviceRevision, slice);
  }

  /** `CompositeComputeRevision` sorts its argument in place: the caller's slice ends up sorted. */
  method CompositeComputeRevision(hash: string -> string, revisions: array<string>) returns (r: string)
    modifies revisions
    ensures r == SortedDigest(hash, "", multiset(old(revisions[..])))
    ensures revisions[..] == SortStrings(old(revisions[..]))
  {
    var sorted := SortStrings(revisions[..]);
    assert |sorted| == |multiset(sorted)| == |multiset(revisions[..])| == revisions.Length;
    forall i | 0 <= i < revisions.Length { revisions[i] := sorted[i]; }
    assert revisions[..] == sorted;
    DigestOfAny(hash, "", old(revisions[..]));
    r := ComputeRevisionBySlice(hash, "", revisions[..]);
    assert "" + Concat(sorted) == Concat(sorted);
  }

  /** The revisions of a map's entries, in whatever order the map yields them. */
  method CollectRevisions<V>(entries: map<string, V>, revision: V -> string) returns (revisions: seq<string>)
    ensures multiset(revisions) == Bag(entries, revision)
  {
    revisions := [];
    var rest := entries;
    while rest.Keys != {}
      invariant multiset(revisions) + Bag(rest, revision) == Bag(entries, revision)
      decreases rest.Keys
    {
      var id :| id in rest.Keys;
      BagRemove(rest, revision, id);
      revisions := revisions + [revision(rest[id])];
      rest := rest - {id};
    }
  }
}
