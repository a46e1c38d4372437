/**
 The rate-limit bucket itself (cache/ratelimit_bucket.go) and `setRateLimit`
 (cache/ratelimit_config.go), over rules whose service is known.
 */
module RateLimitBucket {
  import opened Folds
  import opened Keys
  import opened Revisions
  import opened StringOrder
  import opened RateLimitRules

  predicate Distinct(r: seq<Rule>) {
    forall i, j :: 0 <= i < j < |r| ==> r[i].id != r[j].id
  }

  /** Lists a sub-bucket in whatever order the map yields it. */
  method ToSlice(rules: RuleMap) returns (r: seq<Rule>)
    requires forall id :: id in rules ==> rules[id].id == id
    ensures Distinct(r) && forall v :: v in r <==> v.id in rules && rules[v.id] == v
  {
    r := [];
    var rest := rules.Keys;
    while rest != {}
      invariant rest <= rules.Keys && Distinct(r)
      invariant forall v :: v in r <==> v.id in rules && v.id !in rest && rules[v.id] == v
      decreases rest
    {
      var id :| id in rest;
      assert forall i :: 0 <= i < |r| ==> r[i] in r;
      r := r + [rules[id]];
      rest := rest - {id};
    }
  }

  class Bucket {
    const hash: string -> string
    var ids: RuleMap
    var rules: map<string, SubBucket>

    ghost function View(): State
      reads this
    {
      State(ids, rules)
    }

    constructor (hash: string -> string)
      ensures this.hash == hash && View() == Empty && Inv(View())
    {
      this.hash := hash;
      ids, rules := map[], map[];
      new;
      EmptyInv();
    }

    method DropFrom(key: string, id: string)
      modifies this`rules
      ensures rules == TakeOut(old(rules), key, id)
    {
      if key !in rules { return; }
      var left := rules[key].rules - {id};
      rules := rules[key := rules[key].(rules := left)];
      if left == map[] {
        rules := rules - {key};
        assert rules == old(rules) - {key};
      }
    }

    method CleanOldSvcRule(rule: Rule)
      modifies this`rules
      ensures rules == CleanOld(old(View()), rule.id)
    {
      if rule.id !in ids { return; }
      DropFrom(KeyOf(ids[rule.id]), rule.id);
    }

    method SaveRule(rule: Rule)
      requires Inv(View())
      modifies this
      ensures View() == Save(old(View()), rule) && Inv(View())
    {
      hide Inv, CleanOld;
      SaveKeepsInv(View(), rule);
      CleanOldSvcRule(rule);
      ids := ids[rule.id := rule];
      var key := KeyOf(rule);
      if key !in rules {
        rules := rules[key := SubBucket(map[], "")];
      }
      rules := rules[key := rules[key].(rules := rules[key].rules[rule.id := rule])];
    }

    method DelRule(rule: Rule)
      requires Inv(View())
      modifies this
      ensures View() == Del(old(View()), rule) && Inv(View())
    {
      hide Inv, CleanOld, TakeOut;
      DelKeepsInv(View(), rule);
      CleanOldSvcRule(rule);
      ids := ids - {rule.id};
      DropFrom(KeyOf(rule), rule.id);
    }

    /** The sizes of the sub-buckets add up to the number of rules. */
    method Count() returns (count: int)
      requires Inv(View())
      ensures count == |ids|
    {
      hide Inv;
      count := 0;
      ghost var groups := Groups(View());
      var rest := rules;
      ghost var left := groups;
      while rest.Keys != {}
        invariant left.Keys == rest.Keys && forall k :: k in rest ==> left[k] == rest[k].rules
        invariant count + Sum(left, Size) == Sum(groups, Size)
        decreases rest.Keys
      {
        var k :| k in rest.Keys;
        SumRemove(left, Size, k);
        count := count + |rest[k].rules|;
        rest, left := rest - {k}, left - {k};
      }
      CountIsSize(View());
    }

    /** What a client of the service gets: its rules, each once, and their revision. */
    method GetRules(namespace: string, service: string) returns (r: seq<Rule>, revision: string)
      requires Inv(View())
      ensures Distinct(r)
      ensures forall v :: v in r <==> v.id in ids && ids[v.id] == v && KeyOf(v) == ServiceKey(namespace, service)
      ensures var key := ServiceKey(namespace, service); revision == if key in rules then rules[key].revision else ""
    {
      var key := ServiceKey(namespace, service);
      assert forall k :: k in rules ==> Groups(View())[k] == rules[k].rules;
      if key !in rules {
        return [], "";
      }
      SubBucketIsService(View(), key);
      r := ToSlice(rules[key].rules);
      revision := rules[key].revision;
    }

    method ReloadRevision(key: string)
      modifies this`rules
      ensures View() == Reload(hash, old(View()), {key})
    {
      if key !in rules { return; }
      var revisions := CollectRevisions(rules[key].rules, RevisionField);
      DigestOfAny(hash, "", revisions);
      var revision := ComputeRevisionBySlice(hash, "", SortStrings(revisions));
      rules := rules[key := rules[key].(revision := revision)];
    }

    /** `setRateLimit`: the rules one by one, then the revisions of the services they came under. */
    method SetRateLimit(items: seq<Rule>)
      requires Inv(View())
      modifies this
      ensures Inv(View()) && View() == SetBatch(hash, old(View()), items)
    {
      hide Inv, Save, Del, Reload;
      ghost var before := View();
      var updated: set<string> := {};
      for i := 0 to |items|
        invariant Inv(View()) && View() == DeliverAll(before, items[..i])
        invariant updated == KeysOf(items[..i])
      {
        assert items[..i + 1][..i] == items[..i];
        BatchSnoc(items, i);
        updated := updated + {KeyOf(items[i])};
        if !items[i].valid {
          DelRule(items[i]);
        } else {
          SaveRule(items[i]);
        }
      }
      assert items[..|items|] == items;
      ReloadKeeps(hash, View(), updated);
      ReloadAll(updated);
    }

    method ReloadAll(keys: set<string>)
      modifies this`rules
      ensures View() == Reload(hash, old(View()), keys)
    {
      ghost var before := View();
      ReloadNothing(hash, before);
      hide Reload;
      var rest := keys;
      assert keys - rest == {};
      while rest != {}
        invariant rest <= keys && View() == Reload(hash, before, keys - rest)
        decreases rest
      {
        var k :| k in rest;
        ReloadMore(hash, before, keys - rest, k);
        ReloadRevision(k);
        assert keys - (rest - {k}) == keys - rest + {k};
        rest := rest - {k};
      }
      assert keys - {} == keys;
    }
  }

  lemma ReloadNothing(hash: string -> string, s: State)
    ensures Reload(hash, s, {}) == s
  {
  }

  lemma ReloadMore(hash: string -> string, s: State, done: set<string>, k: string)
    ensures Reload(hash, Reload(hash, s, done), {k}) == Reload(hash, s, done + {k})
  {
    hide Digest;
  }

  lemma SubBucketIsService(s: State, key: string)
    requires Inv(s) && key in s.rules
    ensures var own := s.rules[key].rules;
            && (forall id :: id in own ==> own[id].id == id)
            && forall v: Rule :: v.id in own && own[v.id] == v <==> v.id in s.ids && s.ids[v.id] == v && KeyOf(v) == key
  {
    hide ServiceKey;
    assert Groups(s)[key] == s.rules[key].rules;
    forall id | id in s.rules[key].rules
      ensures id in s.ids && s.rules[key].rules[id] == s.ids[id] && KeyOf(s.ids[id]) == key
    {
      assert id in Groups(s)[key];
    }
    forall v: Rule | v.id in s.ids && s.ids[v.id] == v && KeyOf(v) == key
      ensures v.id in s.rules[key].rules && s.rules[key].rules[v.id] == v
    {
      assert KeyOf(s.ids[v.id]) == key && v.id in Groups(s)[key];
    }
  }
}
