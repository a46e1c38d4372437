/**
 The rule bucket itself (cache/routing_config_bucket.go): the loops that file and unfile a
 rule, and the query with its record of rules already listed.
 */
module RoutingBucket {
  import opened Keys
  import opened RoutingRules

  method FileScopes(l: Levels, b: Bound, scopes: seq<Scope>, id: string, ghost before: seq<Slot>, ghost l0: Levels)
    returns (r: Levels)
    requires l == FileAll(l0, before, id)
    ensures r == FileAll(l0, before + ScopeSlots(b, scopes), id)
  {
    hide File, SlotOf;
    r := l;
    ghost var slots := ScopeSlots(b, scopes);
    assert before + slots[..0] == before;
    for i := 0 to |scopes|
      invariant r == FileAll(l0, before + slots[..i], id)
    {
      ghost var more := before + slots[..i + 1];
      assert more[..|more| - 1] == before + slots[..i] && more[|more| - 1] == slots[i];
      r := File(r, SlotOf(b, scopes[i]), id);
    }
    assert slots[..|scopes|] == slots;
  }

  method UnfileSource(l: Levels, s: Scope, id: string, ghost before: seq<Slot>, ghost l0: Levels) returns (r: Levels)
    requires l == UnfileAll(l0, before, id)
    ensures r == UnfileAll(l0, before + SourceSlots(s), id)
  {
    hide Unfile;
    if s.service == MATCH_ALL && s.namespace == MATCH_ALL {
      UnfileTwo(l0, before, id, Level3(OutBound), Level3(InBound));
      r := Unfile(l, Level3(OutBound), id);
      r := Unfile(r, Level3(InBound), id);
    } else if s.service == MATCH_ALL && s.namespace != MATCH_ALL {
      UnfileTwo(l0, before, id, Level2(OutBound, s.namespace), Level2(InBound, s.namespace));
      r := Unfile(l, Level2(OutBound, s.namespace), id);
      r := Unfile(r, Level2(InBound, s.namespace), id);
    } else if s.service != MATCH_ALL && s.namespace != MATCH_ALL {
      ghost var q := Level1(ServiceKey(s.namespace, s.service));
      assert (before + [q])[..|before|] == before;
      r := Unfile(l, Level1(ServiceKey(s.namespace, s.service)), id);
    } else {
      assert before + [] == before;
      r := l;
    }
  }

  lemma UnfileTwo(l: Levels, before: seq<Slot>, id: string, p: Slot, q: Slot)
    ensures UnfileAll(l, before + [p, q], id) == Unfile(Unfile(UnfileAll(l, before, id), p, id), q, id)
  {
    hide Unfile;
    assert (before + [p, q])[..|before| + 1] == before + [p];
    assert (before + [p])[..|before|] == before;
  }

  method UnfileSources(l: Levels, scopes: seq<Scope>, id: string, ghost before: seq<Slot>, ghost l0: Levels)
    returns (r: Levels)
    requires l == UnfileAll(l0, before, id)
    ensures r == UnfileAll(l0, before + SourcesSlots(scopes), id)
  {
    hide UnfileAll, SourceSlots;
    r := l;
    assert before + [] == before;
    for i := 0 to |scopes|
      invariant r == UnfileAll(l0, before + SourcesSlots(scopes[..i]), id)
    {
      assert scopes[..i + 1][..i] == scopes[..i];
      assert before + SourcesSlots(scopes[..i + 1]) == before + SourcesSlots(scopes[..i]) + SourceSlots(scopes[i]);
      r := UnfileSource(r, scopes[i], id, before + SourcesSlots(scopes[..i]), l0);
    }
    assert scopes[..|scopes|] == scopes;
  }

  predicate Distinct(rules: seq<Rule>) {
    forall i, j :: 0 <= i < j < |rules| ==> rules[i].id != rules[j].id
  }

  class RouteRuleBucket {
    var rules: map<string, Rule>
    var levels: Levels

    ghost predicate Valid()
      reads this
    {
      forall id :: id in rules ==> rules[id].id == id
    }

    ghost function View(): State
      reads this
    {
      State(rules, levels)
    }

    constructor ()
      ensures Valid() && View() == Empty
    {
      rules, levels := map[], NoLevels;
    }

    method SaveV2(conf: Rule)
      requires Valid()
      modifies this
      ensures Valid() && View() == Save(old(View()), conf)
    {
      hide FileAll, ScopeSlots;
      rules := rules[conf.id := conf];
      if !conf.rulePolicy {
        NothingToFile(levels, conf.id);
        return;
      }
      ghost var l0 := levels;
      var subs := conf.subRules;
      NothingToFile(levels, conf.id);
      for i := 0 to |subs|
        invariant levels == FileAll(l0, SubSlots(subs[..i]), conf.id)
        invariant rules == old(rules)[conf.id := conf]
      {
        ghost var done := SubSlots(subs[..i]);
        assert subs[..i + 1][..i] == subs[..i];
        levels := FileScopes(levels, OutBound, subs[i].sources, conf.id, done, l0);
        levels := FileScopes(levels, InBound, subs[i].destinations, conf.id,
                             done + ScopeSlots(OutBound, subs[i].sources), l0);
      }
      assert subs[..|subs|] == subs;
    }

    method DeleteV2(id: string)
      requires Valid()
      modifies this
      ensures Valid() && View() == Delete(old(View()), id)
    {
      hide UnfileAll, SourcesSlots;
      if id !in rules { return; }
      var rule := rules[id];
      rules := rules - {id};
      NothingToUnfile(levels, id);
      if !rule.rulePolicy { return; }
      ghost var l0 := levels;
      var subs := rule.subRules;
      for i := 0 to |subs|
        invariant levels == UnfileAll(l0, SubCleared(subs[..i]), id)
        invariant rules == old(rules) - {id}
      {
        assert subs[..i + 1][..i] == subs[..i];
        levels := UnfileSources(levels, subs[i].sources, id, SubCleared(subs[..i]), l0);
      }
      assert subs[..|subs|] == subs;
    }

    /** The enabled rules among `ids` that were not recorded yet. */
    method ListLevel(ids: set<string>, tmpRecord: set<string>) returns (r: seq<Rule>, record: set<string>)
      requires Valid()
      ensures Lists(r, rules, ids - tmpRecord) && record == tmpRecord + IdSet(r)
    {
      r, record := [], tmpRecord;
      var rest := ids;
      while rest != {}
        invariant rest <= ids && record == tmpRecord + IdSet(r)
        invariant Lists(r, rules, ids - tmpRecord - rest)
        decreases rest
      {
        var k :| k in rest;
        rest := rest - {k};
        if k in rules && k !in record && rules[k].enable {
          ghost var more := r + [rules[k]];
          assert forall i :: 0 <= i < |r| ==> more[i] == r[i] && r[i] in r;
          assert more[|r|] == rules[k];
          r, record := r + [rules[k]], record + {k};
        }
      }
    }

    /** Both directions of a wildcard level. */
    method ListBoth(out: set<string>, inb: set<string>, tmpRecord: set<string>)
      returns (r: seq<Rule>, record: set<string>)
      requires Valid()
      ensures Lists(r, rules, out + inb - tmpRecord) && record == tmpRecord + IdSet(r)
    {
      hide Lists, IdSet;
      var first, second;
      first, record := ListLevel(out, tmpRecord);
      ghost var mid := record;
      second, record := ListLevel(inb, record);
      r := first + second;
      ListsJoin(first, second, rules, out - tmpRecord, inb - mid, inb - tmpRecord);
      assert (out - tmpRecord) + (inb - tmpRecord) == out + inb - tmpRecord;
    }

    /** `listEnableRules`: every enabled rule that is found, once, at the first level at which
        it is found. */
    method ListEnableRules(service: string, namespace: string) returns (l1: seq<Rule>, l2: seq<Rule>, l3: seq<Rule>)
      requires Valid()
      ensures Distinct(l1) && Distinct(l2) && Distinct(l3)
      ensures forall v :: v in l1 <==>
                v.id in rules && rules[v.id] == v && ListedAt(View(), namespace, service, v.id) == 1
      ensures forall v :: v in l2 <==>
                v.id in rules && rules[v.id] == v && ListedAt(View(), namespace, service, v.id) == 2
      ensures forall v :: v in l3 <==>
                v.id in rules && rules[v.id] == v && ListedAt(View(), namespace, service, v.id) == 3
    {
      hide Ids, Distinct, IdSet, Found;
      var seen: set<string>;
      var key := ServiceKey(namespace, service);
      l1, seen := ListLevel(Ids(levels, Level1(key)), {});
      ghost var c1, seen1 := Ids(levels, Level1(key)), seen;
      var out2, in2 := Ids(levels, Level2(OutBound, namespace)), Ids(levels, Level2(InBound, namespace));
      l2, seen := ListBoth(out2, in2, seen);
      var out3, in3 := Ids(levels, Level3(OutBound)), Ids(levels, Level3(InBound));
      ghost var seen2 := seen;
      l3, seen := ListBoth(out3, in3, seen);
      assert c1 - {} == c1;
      forall v: Rule
        ensures v.id in rules && rules[v.id] == v ==>
                  (v in l1 <==> Found(View(), 1, namespace, service, v.id)) &&
                  (v in l2 <==> !(v in l1) && Found(View(), 2, namespace, service, v.id)) &&
                  (v in l3 <==> !(v in l1) && !(v in l2) && Found(View(), 3, namespace, service, v.id))
      {
        if v.id in rules && rules[v.id] == v {
          FoundByIds(View(), namespace, service, v.id);
          RecordedIff(l1, rules, c1, v);
          RecordedIff(l2, rules, out2 + in2 - seen1, v);
        }
      }
    }
  }

  function IdSet(r: seq<Rule>): set<string> { set i | 0 <= i < |r| :: r[i].id }

  /** `r` lists, once each, the enabled rules with an id in `ids`. */
  ghost predicate Lists(r: seq<Rule>, rules: map<string, Rule>, ids: set<string>) {
    && Distinct(r)
    && forall v :: v in r <==> v.id in ids && v.id in rules && rules[v.id] == v && v.enable
  }

  lemma ListsJoin(a: seq<Rule>, b: seq<Rule>, rules: map<string, Rule>, x: set<string>, y: set<string>, z: set<string>)
    requires Lists(a, rules, x) && Lists(b, rules, y) && y == z - IdSet(a)
    ensures Lists(a + b, rules, x + z) && IdSet(a + b) == IdSet(a) + IdSet(b)
  {
  }

  lemma RecordedIff(r: seq<Rule>, rules: map<string, Rule>, ids: set<string>, v: Rule)
    requires Lists(r, rules, ids) && v.id in rules && rules[v.id] == v
    ensures v.id in IdSet(r) <==> v in r
  {
  }

  lemma FoundByIds(s: State, namespace: string, service: string, id: string)
    requires id in s.rules
    ensures Found(s, 1, namespace, service, id) <==>
            s.rules[id].enable && id in Ids(s.levels, Level1(ServiceKey(namespace, service)))
    ensures Found(s, 2, namespace, service, id) <==>
            s.rules[id].enable &&
            id in Ids(s.levels, Level2(OutBound, namespace)) + Ids(s.levels, Level2(InBound, namespace))
    ensures Found(s, 3, namespace, service, id) <==>
            s.rules[id].enable && id in Ids(s.levels, Level3(OutBound)) + Ids(s.levels, Level3(InBound))
  {
    hide Ids;
    if id in Ids(s.levels, Level1(ServiceKey(namespace, service))) {
      assert Level1(ServiceKey(namespace, service)) in Looked(1, namespace, service);
    }
    if b :| id in Ids(s.levels, Level2(b, namespace)) {
      assert b == InBound || b == OutBound;
      assert Level2(b, namespace) in Looked(2, namespace, service);
    }
    if b :| id in Ids(s.levels, Level3(b)) {
      assert b == InBound || b == OutBound;
      assert Level3(b) in Looked(3, namespace, service);
    }
  }

  lemma NothingToFile(l: Levels, id: string)
    ensures FileAll(l, [], id) == l
  {
  }

  lemma NothingToUnfile(l: Levels, id: string)
    ensures UnfileAll(l, [], id) == l
  {
  }
}
