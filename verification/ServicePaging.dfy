/**
 Paging of service queries (cache/service_query.go): collect the matching services in map
 order, sort by modification time and id, cut out a page. Offsets are 32-bit and wrap.
 */
module ServicePaging {
  import opened Sorting
  import StringOrder

  const UINT32 := 0x1_0000_0000

  newtype uint32 = x: int | 0 <= x < 0x1_0000_0000

  datatype Service = Service(id: string, mtime: int, alias: bool)

  /** Newest first, ties by id. */
  predicate Leq(a: Service, b: Service) {
    a.mtime > b.mtime || (a.mtime == b.mtime && StringOrder.Leq(a.id, b.id))
  }

  lemma LeqIsOrder()
    ensures TotalPreorder(Leq)
  {
    forall a, b ensures Leq(a, b) || Leq(b, a) { StringOrder.LeqTotal(a.id, b.id); }
    forall a, b, c | Leq(a, b) && Leq(b, c) ensures Leq(a, c) {
      if a.mtime == b.mtime == c.mtime { StringOrder.LeqTransitive(a.id, b.id, c.id); }
    }
  }

  ghost predicate IdsIdentify(s: multiset<Service>) {
    forall a, b :: a in s && b in s && a.id == b.id ==> a == b
  }

  lemma LeqSeparates(s: multiset<Service>)
    requires IdsIdentify(s)
    ensures AntisymmetricOn(Leq, s)
  {
    forall a, b | a in s && b in s && Leq(a, b) && Leq(b, a) ensures a == b {
      StringOrder.LeqAntisymmetric(a.id, b.id);
    }
  }

  function SortServices(s: seq<Service>): (r: seq<Service>)
    ensures SortedPermutation(Leq, s, r)
  {
    LeqIsOrder();
    SortSorts(Leq, s);
    Sort(Leq, s)
  }

  // ---------------------------------------------------------------- one page

  /** Slicing with the end before the start panics. */
  datatype Outcome = Page(amount: uint32, services: seq<Service>) | Panic

  function Amount(s: seq<Service>): uint32 { (|s| % UINT32) as uint32 }

  function Wrap(n: int): uint32 { (n % UINT32) as uint32 }

  function Trim(sorted: seq<Service>, offset: uint32, limit: uint32): Outcome {
    var amount := Amount(sorted);
    if offset >= amount || limit == 0 then Page(amount, [])
    else
      var endIdx := Wrap(offset as int + limit as int);
      var end := if endIdx > amount then amount else endIdx;
      if end < offset then Panic else Page(amount, sorted[offset as int..end as int])
  }

  method SortInPlace(services: array<Service>)
    modifies services
    ensures SortedPermutation(Leq, old(services[..]), services[..])
  {
    var sorted := SortServices(services[..]);
    assert |sorted| == |multiset(sorted)| == |multiset(services[..])| == services.Length;
    hide SortedPermutation;
    forall i | 0 <= i < services.Length { services[i] := sorted[i]; }
    assert services[..] == sorted;
  }

  /** `sortBeforeTrim`: sorts the slice in place, unless the page is empty anyway, and cuts. */
  method SortBeforeTrim(services: array<Service>, offset: uint32, limit: uint32) returns (o: Outcome)
    modifies services
    ensures o == Trim(services[..], offset, limit)
    ensures if offset >= Amount(old(services[..])) || limit == 0 then services[..] == old(services[..])
            else SortedPermutation(Leq, old(services[..]), services[..])
  {
    var amount := Amount(services[..]);
    if offset >= amount || limit == 0 {
      return Page(amount, []);
    }
    SortInPlace(services);
    hide SortedPermutation;
    var endIdx := Wrap(offset as int + limit as int);
    if endIdx > amount {
      endIdx := amount;
    }
    if endIdx < offset {
      return Panic;
    }
    return Page(amount, services[offset as int..endIdx as int]);
  }

  /** A request inside the list panics if and only if offset plus limit overflows 32 bits. */
  lemma PanicsIff(sorted: seq<Service>, offset: uint32, limit: uint32)
    requires offset < Amount(sorted) && limit > 0
    ensures Trim(sorted, offset, limit).Panic? <==> offset as int + limit as int >= UINT32
  {
  }

  /** The same services in any two orders, sorted in any two ways, give the same page. */
  lemma PageIsDeterministic(s: seq<Service>, t: seq<Service>, s': seq<Service>, t': seq<Service>,
                            offset: uint32, limit: uint32)
    requires multiset(s) == multiset(t) && IdsIdentify(multiset(s))
    requires SortedPermutation(Leq, s, s') && SortedPermutation(Leq, t, t')
    ensures Trim(s', offset, limit) == Trim(t', offset, limit)
  {
    LeqSeparates(multiset(s'));
    SortedUnique(Leq, s', t');
  }

  // ---------------------------------------------------------------- all pages

  /** The pages at offset, offset + limit, offset + 2 * limit, ... put together. */
  function Pages(sorted: seq<Service>, offset: nat, limit: uint32): seq<Service>
    requires limit > 0
    decreases |sorted| - offset
  {
    if offset >= |sorted| || offset >= UINT32 then []
    else
      var o := Trim(sorted, offset as uint32, limit);
      (if o.Page? then o.services else []) + Pages(sorted, offset + limit as nat, limit)
  }

  function Remainder(x: nat, d: nat): nat
    requires d > 0
  {
    x % d
  }

  /** Where the last page starts: the last service of the list is on it. */
  function LastStart(n: nat, offset: nat, limit: uint32): int
    requires limit > 0 && offset < n
  {
    n - 1 - Remainder(n - 1 - offset, limit as nat)
  }

  lemma {:induction false} ProductGrows(a: nat, b: nat, d: nat)
    requires a < b
    ensures a * d + d <= b * d
  {
    assert b * d == (b - 1) * d + d;
    if a < b - 1 { ProductGrows(a, b - 1, d); }
  }

  lemma RemainderUnique(d: nat, p: nat, x: nat, q: nat, y: nat)
    requires x < d && y < d && p * d + x == q * d + y
    ensures x == y
  {
    if p < q { ProductGrows(p, q, d); }
    if q < p { ProductGrows(q, p, d); }
  }

  lemma RemainderStep(x: nat, d: nat)
    requires d > 0
    ensures Remainder(x, d) == if x < d then x else Remainder(x - d, d)
  {
    if x >= d {
      var p, q := x / d, (x - d) / d;
      assert x == p * d + x % d;
      assert x - d == q * d + (x - d) % d;
      assert (q + 1) * d == q * d + d;
      RemainderUnique(d, p, x % d, q + 1, (x - d) % d);
    }
  }

  lemma LastStartStep(n: nat, offset: nat, limit: uint32)
    requires limit > 0 && offset < n
    ensures var next := offset + limit as nat;
            LastStart(n, offset, limit) == if next < n then LastStart(n, next, limit) else offset
  {
    hide Remainder;
    RemainderStep(n - 1 - offset, limit as nat);
  }

  /** The last page ends within 32 bits. */
  predicate Fits(n: nat, offset: nat, limit: uint32)
    requires limit > 0
  {
    offset < n ==> LastStart(n, offset, limit) + limit as int < UINT32
  }

  lemma PageInside(sorted: seq<Service>, offset: nat, limit: uint32)
    requires limit > 0 && |sorted| < UINT32 && offset < |sorted|
    ensures var end := if offset + limit as nat > |sorted| then |sorted| else offset + limit as nat;
            Trim(sorted, offset as uint32, limit) ==
              if offset + limit as int >= UINT32 then Panic else Page(|sorted| as uint32, sorted[offset..end])
  {
  }

  /** One page, then the others. */
  lemma PagesStep(sorted: seq<Service>, offset: nat, limit: uint32)
    requires limit > 0 && |sorted| < UINT32 && offset < |sorted|
    ensures var next := offset + limit as nat;
            Pages(sorted, offset, limit) ==
              if next <= |sorted| then sorted[offset..next] + Pages(sorted, next, limit)
              else if next < UINT32 then sorted[offset..]
              else []
  {
    PageInside(sorted, offset, limit);
    hide Trim;
    var next := offset + limit as nat;
    if next > |sorted| {
      assert Pages(sorted, next, limit) == [];
      assert sorted[offset..|sorted|] == sorted[offset..];
    }
  }

  lemma SameRest<T>(p: seq<T>, a: seq<T>, b: seq<T>)
    ensures p + a == p + b <==> a == b
  {
    assert (p + a)[|p|..] == a && (p + b)[|p|..] == b;
  }

  /** The pages, put together, are the list from the first offset on, nothing repeated and
      nothing skipped, if and only if the last page does not overflow; else it is missing. */
  lemma {:induction false} PagesTileIff(sorted: seq<Service>, offset: nat, limit: uint32)
    requires limit > 0 && |sorted| < UINT32 && offset <= |sorted|
    ensures Pages(sorted, offset, limit) == sorted[offset..] <==> Fits(|sorted|, offset, limit)
    decreases |sorted| - offset
  {
    if offset < |sorted| {
      PagesStep(sorted, offset, limit);
      LastStartStep(|sorted|, offset, limit);
      hide LastStart, Pages;
      var next := offset + limit as nat;
      if next <= |sorted| {
        PagesTileIff(sorted, next, limit);
        assert sorted[offset..] == sorted[offset..next] + sorted[next..];
        SameRest(sorted[offset..next], Pages(sorted, next, limit), sorted[next..]);
      } else {
        assert |sorted[offset..]| > 0;
      }
    }
  }

  // ---------------------------------------------------------------- from the cache to a page

  /** `list` holds, once each, the services of the pool that match and are no alias. */
  ghost predicate Collects(list: seq<Service>, pool: set<Service>, matches: Service -> bool) {
    && (forall v :: v in list <==> v in pool && !v.alias && matches(v))
    && (forall i, j :: 0 <= i < j < |list| ==> list[i].id != list[j].id)
  }

  /** The loop over a map of services: all of them by id, or those of one namespace by name. */
  method CollectServices(services: map<string, Service>, matches: Service -> bool) returns (res: seq<Service>)
    requires forall k, j :: k in services && j in services && services[k].id == services[j].id ==> k == j
    ensures Collects(res, services.Values, matches)
  {
    res := [];
    var rest := services.Keys;
    while rest != {}
      invariant rest <= services.Keys
      invariant forall v :: v in res <==>
                  !v.alias && matches(v) && exists k :: k in services.Keys - rest && services[k] == v
      invariant forall i, j :: 0 <= i < j < |res| ==> res[i].id != res[j].id
      decreases rest
    {
      var k :| k in rest;
      var svc := services[k];
      assert forall i :: 0 <= i < |res| ==> res[i] in res;
      assert k in services.Keys - (rest - {k});
      if !svc.alias && matches(svc) {
        res := res + [svc];
      }
      rest := rest - {k};
    }
  }

  /** The services of one name, in one namespace or, where none is given, in all of them. */
  function Named(names: map<string, map<string, Service>>, name: string, namespace: string): set<Service> {
    set n | n in names && name != "" && n != "" && name in names[n] && (namespace == "" || n == namespace) ::
      names[n][name]
  }

  /** `getServicesFromCacheByName`. */
  method CollectByName(names: map<string, map<string, Service>>, name: string, namespace: string,
                       matches: Service -> bool)
    returns (res: seq<Service>)
    requires forall n, m :: n in names && m in names && n != m && name in names[n] && name in names[m] ==>
               names[n][name].id != names[m][name].id
    ensures Collects(res, Named(names, name, namespace), matches)
  {
    var found: map<string, Service> := map[];
    var rest := if namespace != "" then {namespace} else names.Keys;
    while rest != {}
      invariant forall n :: n in found ==> n in names && name in names[n] && found[n] == names[n][name]
      invariant forall n :: n in found <==>
                  && n !in rest && n in names && name != "" && n != "" && name in names[n]
                  && (namespace == "" || n == namespace)
      decreases rest
    {
      var n :| n in rest;
      if name != "" && n != "" && n in names && name in names[n] {
        found := found[n := names[n][name]];
      }
      rest := rest - {n};
    }
    res := CollectServices(found, matches);
    assert found.Values == Named(names, name, namespace);
  }

  lemma {:induction false} OccursOnce(list: seq<Service>, v: Service)
    requires forall i, j :: 0 <= i < j < |list| ==> list[i].id != list[j].id
    ensures multiset(list)[v] == if v in list then 1 else 0
  {
    if list != [] {
      var n := |list| - 1;
      OccursOnce(list[..n], v);
      assert list == list[..n] + [list[n]];
      assert forall i :: 0 <= i < n ==> list[..n][i] == list[i];
    }
  }

  lemma CollectedMultiset(list: seq<Service>, pool: set<Service>, matches: Service -> bool)
    requires Collects(list, pool, matches)
    ensures forall v :: multiset(list)[v] == if v in pool && !v.alias && matches(v) then 1 else 0
    ensures IdsIdentify(multiset(list))
  {
    forall v ensures multiset(list)[v] == if v in list then 1 else 0 {
      OccursOnce(list, v);
    }
  }

  /** `sorted` is what a query sorts its result into, in whatever order it was collected. */
  ghost predicate Answers(sorted: seq<Service>, pool: set<Service>, matches: Service -> bool) {
    exists list :: Collects(list, pool, matches) && SortedPermutation(Leq, list, sorted)
  }

  /** What a query sorts its result into depends on the cached services and the request
      alone, not on the order in which maps were iterated. */
  lemma QueryIsDeterministic(a: seq<Service>, b: seq<Service>, pool: set<Service>, matches: Service -> bool)
    requires Answers(a, pool, matches) && Answers(b, pool, matches)
    ensures a == b
  {
    var x :| Collects(x, pool, matches) && SortedPermutation(Leq, x, a);
    var y :| Collects(y, pool, matches) && SortedPermutation(Leq, y, b);
    CollectedMultiset(x, pool, matches);
    CollectedMultiset(y, pool, matches);
    assert multiset(x) == multiset(y);
    LeqSeparates(multiset(a));
    SortedUnique(Leq, a, b);
  }

  /** The first page cut from the first answer, the second from the second, and so on. */
  function CutPages(answers: seq<seq<Service>>, offset: nat, limit: uint32): seq<Service> {
    if answers == [] || offset >= UINT32 then []
    else
      var o := Trim(answers[0], offset as uint32, limit);
      (if o.Page? then o.services else []) + CutPages(answers[1..], offset + limit as nat, limit)
  }

  lemma {:induction false} CutPagesArePages(answers: seq<seq<Service>>, sorted: seq<Service>,
                                            offset: nat, limit: uint32)
    requires limit > 0 && |sorted| < UINT32 && forall i :: 0 <= i < |answers| ==> answers[i] == sorted
    requires |sorted| <= offset + |answers| * limit as nat
    ensures CutPages(answers, offset, limit) == Pages(sorted, offset, limit)
  {
    if answers != [] {
      var next := offset + limit as nat;
      assert |answers| * limit as nat == limit as nat + |answers[1..]| * limit as nat;
      CutPagesArePages(answers[1..], sorted, next, limit);
      if |sorted| <= offset {
        assert Pages(sorted, next, limit) == [];
      }
    }
  }

  /** A client that pages through a result asks once per page, and every answer is collected
      and sorted anew. Its pages tile the one sorted list if and only if the last page does
      not overflow. */
  lemma QueriesTileIff(answers: seq<seq<Service>>, pool: set<Service>, matches: Service -> bool, limit: uint32)
    requires limit > 0 && answers != [] && forall i :: 0 <= i < |answers| ==> Answers(answers[i], pool, matches)
    requires |answers[0]| < UINT32 && |answers[0]| <= |answers| * limit as nat
    ensures CutPages(answers, 0, limit) == answers[0] <==> Fits(|answers[0]|, 0, limit)
  {
    hide Answers, Fits;
    forall i | 0 <= i < |answers| ensures answers[i] == answers[0] {
      QueryIsDeterministic(answers[i], answers[0], pool, matches);
    }
    CutPagesArePages(answers, answers[0], 0, limit);
    PagesTileIff(answers[0], 0, limit);
    assert answers[0][0..] == answers[0];
  }
}
