/**
 Tags of a configuration file (config/config_file_tag.go): the stored pairs of one file are
 brought to the requested ones by creating what is missing and then deleting what is no
 longer wanted. What inserting a row does that is there already depends on the store: MySQL
 has a unique key over file, key and value and refuses, BoltDB overwrites. Any call may fail
 for reasons of its own as well.
 */
module ConfigTags {
  import opened Wrappers

  /** Namespace, group and file name. */
  type File = (string, string, string)
  type Pair = (string, string)
  datatype Row = Row(file: File, pair: Pair)

  /** A key may have several values. */
  type TagMap = map<string, set<string>>

  // ---------------------------------------------------------------- pairs

  /** The pairs of a list k1, v1, k2, v2, ...; a key left over at the end is no pair. */
  function Pairs(tags: seq<string>): seq<Pair> {
    seq(|tags| / 2, i requires 0 <= i < |tags| / 2 => (tags[2 * i], tags[2 * i + 1]))
  }

  function Members(pairs: seq<Pair>): set<Pair> { set p | p in pairs }

  ghost predicate Distinct(pairs: seq<Pair>) {
    forall i, j :: 0 <= i < j < |pairs| ==> pairs[i] != pairs[j]
  }

  function Filed(file: File, pairs: set<Pair>): set<Row> { set p | p in pairs :: Row(file, p) }

  function TagsOf(rows: set<Row>, file: File): set<Pair> { set r | r in rows && r.file == file :: r.pair }

  function Elsewhere(rows: set<Row>, file: File): set<Row> { set r | r in rows && r.file != file }

  ghost predicate Holds(m: TagMap, p: Pair) { p.0 in m && p.1 in m[p.0] }

  ghost predicate Represents(m: TagMap, pairs: set<Pair>) { forall p :: Holds(m, p) <==> p in pairs }

  lemma PairsSnoc(tags: seq<string>, k: string, v: string)
    requires |tags| % 2 == 0
    ensures Pairs(tags + [k, v]) == Pairs(tags) + [(k, v)]
  {
  }

  // ---------------------------------------------------------------- the nested maps

  function Put(m: TagMap, k: string, v: string): TagMap {
    m[k := (if k in m then m[k] else {}) + {v}]
  }

  lemma PutAdds(m: TagMap, k: string, v: string, pairs: set<Pair>)
    requires Represents(m, pairs)
    ensures Represents(Put(m, k, v), pairs + {(k, v)})
  {
  }

  /** The requested tags, by key. */
  method CollectTags(tags: seq<string>) returns (m: TagMap)
    ensures Represents(m, Members(Pairs(tags)))
  {
    m := map[];
    var i := 0;
    while i < |tags| - 1
      invariant i % 2 == 0 && 0 <= i <= |tags|
      invariant Represents(m, Members(Pairs(tags)[..i / 2]))
      decreases |tags| - i
    {
      var pairs := Pairs(tags);
      ghost var done := Members(pairs[..i / 2]);
      PutAdds(m, tags[i], tags[i + 1], done);
      m := Put(m, tags[i], tags[i + 1]);
      assert pairs[..i / 2 + 1] == pairs[..i / 2] + [(tags[i], tags[i + 1])];
      assert Members(pairs[..i / 2 + 1]) == done + {(tags[i], tags[i + 1])};
      i := i + 2;
    }
    assert Pairs(tags)[..i / 2] == Pairs(tags);
  }

  /** The stored tags, by key. */
  method CollectRows(rows: seq<Row>) returns (m: TagMap)
    ensures Represents(m, set r | r in rows :: r.pair)
  {
    m := map[];
    for i := 0 to |rows|
      invariant Represents(m, set r | r in rows[..i] :: r.pair)
    {
      ghost var done := set r | r in rows[..i] :: r.pair;
      PutAdds(m, rows[i].pair.0, rows[i].pair.1, done);
      m := Put(m, rows[i].pair.0, rows[i].pair.1);
      assert rows[..i + 1] == rows[..i] + [rows[i]];
      assert (set r | r in rows[..i + 1] :: r.pair) == done + {rows[i].pair};
    }
    assert rows[..|rows|] == rows;
  }

  // ---------------------------------------------------------------- the difference

  /** The values of one key that the other side lacks. */
  method LackingValues(values: set<string>, existing: set<string>) returns (missing: set<string>)
    ensures missing == values - existing
  {
    missing := {};
    var rest := values;
    while rest != {}
      invariant rest <= values && missing == (values - rest) - existing
      decreases rest
    {
      var v :| v in rest;
      rest := rest - {v};
      if v !in existing {
        missing := missing + {v};
      }
    }
  }

  /** The pairs of `a` that are not in `b`, by key. */
  method DiffMaps(a: TagMap, b: TagMap) returns (diff: TagMap)
    ensures forall p: Pair :: Holds(diff, p) <==> Holds(a, p) && !Holds(b, p)
  {
    diff := map[];
    var rest := a.Keys;
    while rest != {}
      invariant rest <= a.Keys && diff.Keys == a.Keys - rest
      invariant forall p: Pair :: p.0 in diff ==> (Holds(diff, p) <==> Holds(a, p) && !Holds(b, p))
      decreases rest
    {
      var key :| key in rest;
      rest := rest - {key};
      var existing := if key in b then b[key] else {};
      if existing == {} {
        diff := diff[key := a[key]];
      } else {
        var missing := LackingValues(a[key], existing);
        diff := diff[key := missing];
      }
    }
    assert diff.Keys == a.Keys;
  }

  /** Appends the values of one key to the flat list. */
  method AppendValues(flat: seq<string>, key: string, values: set<string>) returns (ret: seq<string>)
    requires |flat| % 2 == 0 && Distinct(Pairs(flat))
    requires forall p :: p in Pairs(flat) ==> p.0 != key
    ensures |ret| % 2 == 0 && Distinct(Pairs(ret))
    ensures forall p :: p in Pairs(ret) <==> p in Pairs(flat) || (p.0 == key && p.1 in values)
  {
    ret := flat;
    var rest := values;
    while rest != {}
      invariant rest <= values
      invariant |ret| % 2 == 0 && Distinct(Pairs(ret))
      invariant forall p :: p in Pairs(ret) <==> p in Pairs(flat) || (p.0 == key && p.1 in values - rest)
      decreases rest
    {
      var v :| v in rest;
      PairsSnoc(ret, key, v);
      ghost var before := Pairs(ret);
      assert (key, v) !in before;
      ret := ret + [key, v];
      rest := rest - {v};
      assert Pairs(ret) == before + [(key, v)];
    }
  }

  method Flatten(m: TagMap) returns (ret: seq<string>)
    ensures |ret| % 2 == 0 && Distinct(Pairs(ret))
    ensures forall p :: p in Pairs(ret) <==> Holds(m, p)
  {
    hide Pairs;
    ret := [];
    assert Pairs([]) == [] by { NoPairs(); }
    var rest := m.Keys;
    while rest != {}
      invariant rest <= m.Keys
      invariant |ret| % 2 == 0 && Distinct(Pairs(ret))
      invariant forall p :: p in Pairs(ret) <==> Holds(m, p) && p.0 !in rest
      decreases rest
    {
      var key :| key in rest;
      ret := AppendValues(ret, key, m[key]);
      rest := rest - {key};
    }
  }

  lemma NoPairs()
    ensures Pairs([]) == []
  {
  }

  /** `diffTags`: a flat list of exactly the pairs of `a` that `b` lacks, each once. */
  method DiffTags(a: TagMap, b: TagMap) returns (ret: seq<string>)
    ensures |ret| % 2 == 0 && Distinct(Pairs(ret))
    ensures forall p :: p in Pairs(ret) <==> Holds(a, p) && !Holds(b, p)
  {
    hide Pairs, Holds;
    var diff := DiffMaps(a, b);
    ret := Flatten(diff);
  }

  lemma DiffMembers(a: TagMap, b: TagMap, left: set<Pair>, right: set<Pair>, pairs: seq<Pair>)
    requires Represents(a, left) && Represents(b, right)
    requires forall p :: p in pairs <==> Holds(a, p) && !Holds(b, p)
    ensures Members(pairs) == left - right
  {
  }

  // ---------------------------------------------------------------- the store

  class TagStore {
    /** Which of the calls fail for reasons of their own. */
    const fails: nat -> bool
    /** Inserting a row that is there is refused. */
    const unique: bool
    var calls: nat
    var rows: set<Row>
    /** How many rows were written that were there already. */
    ghost var overwrites: nat

    constructor (fails: nat -> bool, unique: bool, rows: set<Row>)
      ensures this.fails == fails && this.unique == unique && this.rows == rows && overwrites == 0
    {
      this.fails := fails;
      this.unique := unique;
      this.rows := rows;
      calls, overwrites := 0, 0;
    }

    ghost predicate Reliable() { forall n :: !fails(n) }

    /** `QueryTagByConfigFile`: the rows of a file, in some order. */
    method QueryTagByConfigFile(file: File) returns (found: Option<seq<Row>>)
      modifies this`calls
      ensures found.Some? ==> (set r | r in found.value) == set r | r in rows && r.file == file
      ensures Reliable() ==> found.Some?
    {
      var n := calls;
      calls := calls + 1;
      if fails(n) {
        return None;
      }
      var out: seq<Row> := [];
      var rest := rows;
      while rest != {}
        invariant rest <= rows && rows == old(rows)
        invariant forall r :: r in out <==> r in rows - rest && r.file == file
        decreases rest
      {
        var r :| r in rest;
        rest := rest - {r};
        if r.file == file {
          out := out + [r];
        }
      }
      return Some(out);
    }

    /** `CreateConfigFileTag`: a unique key refuses a row that is there, else it is written again. */
    method CreateConfigFileTag(row: Row) returns (ok: bool)
      modifies this
      ensures rows == old(rows) + if ok then {row} else {}
      ensures unique && row in old(rows) ==> !ok
      ensures Reliable() && !(unique && row in old(rows)) ==> ok
      ensures overwrites == old(overwrites) + if ok && row in old(rows) then 1 else 0
    {
      ok := !fails(calls) && !(unique && row in rows);
      calls := calls + 1;
      if ok {
        if row in rows { overwrites := overwrites + 1; }
        rows := rows + {row};
      }
    }

    method DeleteConfigFileTag(row: Row) returns (ok: bool)
      modifies this`rows, this`calls
      ensures rows == old(rows) - if ok then {row} else {}
      ensures Reliable() ==> ok
    {
      ok := !fails(calls);
      calls := calls + 1;
      if ok {
        rows := rows - {row};
      }
    }
  }

  // ---------------------------------------------------------------- applying the difference

  /** The pairs are listed once each and none is there already. */
  ghost predicate AllNew(was: set<Row>, file: File, pairs: seq<Pair>) {
    Distinct(pairs) && Filed(file, Members(pairs)) !! was
  }

  /** `doCreateConfigFileTags`: when it succeeds, exactly the listed pairs are new; when it
      fails, it may have got part of the way. On a reliable store it succeeds unless the store
      refuses a pair that is there already or listed twice; a store that does not refuse
      writes such a pair again. */
  method DoCreateConfigFileTags(store: TagStore, file: File, tags: seq<string>) returns (ok: bool)
    modifies store
    ensures ok ==> store.rows == old(store.rows) + Filed(file, Members(Pairs(tags)))
    ensures old(store.rows) <= store.rows <= old(store.rows) + Filed(file, Members(Pairs(tags)))
    ensures store.Reliable() ==> (ok <==> !store.unique || AllNew(old(store.rows), file, Pairs(tags)))
    ensures ok ==> (store.overwrites == old(store.overwrites) <==> AllNew(old(store.rows), file, Pairs(tags)))
    ensures AllNew(old(store.rows), file, Pairs(tags)) ==> store.overwrites == old(store.overwrites)
  {
    ghost var pairs, was := Pairs(tags), store.rows;
    assert Filed(file, Members([])) == {} && AllNew(was, file, []);
    if |tags| == 0 {
      NoPairs();
      return true;
    }
    var key := "";
    assert pairs[..0] == [];
    hide Filed, Members, Distinct, AllNew;
    for idx := 0 to |tags|
      invariant idx % 2 == 1 ==> key == tags[idx - 1]
      invariant store.rows == was + Filed(file, Members(pairs[..idx / 2]))
      invariant store.overwrites >= old(store.overwrites)
      invariant store.overwrites == old(store.overwrites) <==> AllNew(was, file, pairs[..idx / 2])
      invariant store.unique ==> AllNew(was, file, pairs[..idx / 2])
    {
      if idx % 2 == 0 {
        key := tags[idx];
      } else {
        ghost var n := idx / 2;
        assert (key, tags[idx]) == pairs[n] && (idx + 1) / 2 == n + 1;
        ghost var before := store.rows;
        var done := store.CreateConfigFileTag(Row(file, (key, tags[idx])));
        CreateStep(was, before, file, pairs, n);
        if !done {
          return false;
        }
      }
    }
    assert pairs[..|tags| / 2] == pairs;
    return true;
  }

  lemma CreateStep(was: set<Row>, before: set<Row>, file: File, pairs: seq<Pair>, n: nat)
    requires n < |pairs| && before == was + Filed(file, Members(pairs[..n]))
    ensures before <= was + Filed(file, Members(pairs))
    ensures before + {Row(file, pairs[n])} == was + Filed(file, Members(pairs[..n + 1]))
    ensures AllNew(was, file, pairs[..n + 1]) <==> AllNew(was, file, pairs[..n]) && Row(file, pairs[n]) !in before
    ensures AllNew(was, file, pairs) ==> AllNew(was, file, pairs[..n + 1])
  {
    assert pairs[..n + 1] == pairs[..n] + [pairs[n]];
    assert Members(pairs[..n + 1]) == Members(pairs[..n]) + {pairs[n]};
    assert Members(pairs[..n + 1]) <= Members(pairs);
    assert Filed(file, Members(pairs[..n + 1])) == Filed(file, Members(pairs[..n])) + {Row(file, pairs[n])};
    assert Row(file, pairs[n]) in Filed(file, Members(pairs[..n])) <==> pairs[n] in Members(pairs[..n]);
  }

  /** `doDeleteConfigFileTags`: only listed pairs go, and all of them when it succeeds. */
  method DoDeleteConfigFileTags(store: TagStore, file: File, tags: seq<string>) returns (ok: bool)
    modifies store`rows, store`calls
    ensures ok ==> store.rows == old(store.rows) - Filed(file, Members(Pairs(tags)))
    ensures old(store.rows) - Filed(file, Members(Pairs(tags))) <= store.rows <= old(store.rows)
    ensures store.Reliable() ==> ok
  {
    if |tags| == 0 {
      NoPairs();
      return true;
    }
    ghost var pairs, was := Pairs(tags), store.rows;
    var key := "";
    for idx := 0 to |tags|
      invariant idx % 2 == 1 ==> key == tags[idx - 1]
      invariant store.rows == was - Filed(file, Members(pairs[..idx / 2]))
    {
      if idx % 2 == 0 {
        key := tags[idx];
      } else {
        ghost var n := idx / 2;
        assert (key, tags[idx]) == pairs[n] && (idx + 1) / 2 == n + 1;
        ghost var before := store.rows;
        var done := store.DeleteConfigFileTag(Row(file, (key, tags[idx])));
        DeleteStep(was, before, file, pairs, n);
        if !done {
          return false;
        }
      }
    }
    assert pairs[..|tags| / 2] == pairs;
    return true;
  }

  lemma DeleteStep(was: set<Row>, before: set<Row>, file: File, pairs: seq<Pair>, n: nat)
    requires n < |pairs|
    requires before == was - Filed(file, Members(pairs[..n]))
    ensures was - Filed(file, Members(pairs)) <= before
    ensures before - {Row(file, pairs[n])} == was - Filed(file, Members(pairs[..n + 1]))
  {
  }

  // ---------------------------------------------------------------- the whole operation

  /** What `createConfigFileTags` leaves, as sets of pairs of the file: the requested ones on
      success; on failure nothing that is both stored and requested is gone, and nothing is
      there that was neither. */
  ghost predicate Between(was: set<Pair>, requested: set<Pair>, now: set<Pair>, ok: bool) {
    && was * requested <= now <= was + requested
    && (ok ==> now == requested)
  }

  lemma FiledTags(rows: set<Row>, more: set<Row>, less: set<Row>, file: File, pairs: set<Pair>)
    ensures rows <= more <= rows + Filed(file, pairs) ==>
              && TagsOf(rows, file) <= TagsOf(more, file) <= TagsOf(rows, file) + pairs
              && Elsewhere(more, file) == Elsewhere(rows, file)
    ensures rows - Filed(file, pairs) <= less <= rows ==>
              && TagsOf(rows, file) - pairs <= TagsOf(less, file) <= TagsOf(rows, file)
              && Elsewhere(less, file) == Elsewhere(rows, file)
    ensures TagsOf(rows + Filed(file, pairs), file) == TagsOf(rows, file) + pairs
    ensures TagsOf(rows - Filed(file, pairs), file) == TagsOf(rows, file) - pairs
    ensures Filed(file, pairs) !! rows <==> pairs !! TagsOf(rows, file)
  {
  }

  /** `createConfigFileTags`. On a reliable store it succeeds for every list of even length,
      except that a first write of a list with a repeated pair runs into a unique key. No pair
      that is there is written again, except by such a write where there is no unique key. */
  method CreateConfigFileTags(store: TagStore, file: File, tags: seq<string>) returns (ok: bool)
    modifies store
    ensures |tags| % 2 != 0 ==> !ok && store.rows == old(store.rows)
    ensures Between(old(TagsOf(store.rows, file)), Members(Pairs(tags)), TagsOf(store.rows, file), ok)
    ensures Elsewhere(store.rows, file) == old(Elsewhere(store.rows, file))
    ensures store.Reliable() && |tags| % 2 == 0 ==>
              (ok <==> !store.unique || old(TagsOf(store.rows, file)) != {} || Distinct(Pairs(tags)))
    ensures ok ==> (store.overwrites == old(store.overwrites) <==>
                      old(TagsOf(store.rows, file)) != {} || Distinct(Pairs(tags)))
  {
    hide Pairs, Distinct, Filed, TagsOf, Elsewhere, Represents;
    ghost var was, requested := store.rows, Members(Pairs(tags));
    ghost var had := TagsOf(was, file);
    if |tags| % 2 != 0 {
      return false;
    }
    var stored := store.QueryTagByConfigFile(file);
    if stored.None? {
      return false;
    }
    FoundTags(was, file, stored.value);
    if |stored.value| == 0 {
      ok := DoCreateConfigFileTags(store, file, tags);
      FiledTags(was, store.rows, was, file, requested);
      return;
    }
    var storedMap := CollectRows(stored.value);
    var newMap := CollectTags(tags);
    var toCreate := DiffTags(newMap, storedMap);
    DiffMembers(newMap, storedMap, requested, had, Pairs(toCreate));
    ok := DoCreateConfigFileTags(store, file, toCreate);
    ghost var mid := store.rows;
    FiledTags(was, mid, was, file, requested - had);
    if !ok {
      return;
    }
    var toDelete := DiffTags(storedMap, newMap);
    DiffMembers(storedMap, newMap, had, requested, Pairs(toDelete));
    ok := DoDeleteConfigFileTags(store, file, toDelete);
    FiledTags(mid, mid, store.rows, file, had - requested);
  }

  lemma FoundTags(rows: set<Row>, file: File, found: seq<Row>)
    requires (set r | r in found) == set r | r in rows && r.file == file
    ensures TagsOf(rows, file) == set r | r in found :: r.pair
    ensures found == [] <==> TagsOf(rows, file) == {}
  {
    var all, mine := set r | r in found, set r | r in rows && r.file == file;
    assert forall r :: r in found <==> r in all;
    assert forall r :: r in mine <==> r in rows && r.file == file;
    assert TagsOf(rows, file) == set r | r in mine :: r.pair;
    if found != [] {
      assert found[0] in mine;
      assert found[0].pair in TagsOf(rows, file);
    }
  }
}
