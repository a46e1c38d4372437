/**
 The rate-limit rule bucket (cache/ratelimit_bucket.go) and the batch that feeds it
 (cache/ratelimit_config.go:140-175): rules by id, and sub-buckets per service key that
 come and go as rules are bound, re-bound and deleted.
 */
module RateLimitRules {
  import opened Folds
  import opened Keys
  import opened Revisions
  import StringOrder

  datatype Rule = Rule(id: string, namespace: string, service: string, revision: string, valid: bool)

  type RuleMap = map<string, Rule>

  datatype SubBucket = SubBucket(rules: RuleMap, revision: string)

  datatype State = State(ids: RuleMap, rules: map<string, SubBucket>)

  const Empty := State(map[], map[])

  function KeyOf(r: Rule): string { ServiceKey(r.namespace, r.service) }

  function RevisionField(r: Rule): string { r.revision }

  function Groups(s: State): map<string, RuleMap> {
    map k | k in s.rules :: s.rules[k].rules
  }

  // ---------------------------------------------------------------- operations

  /** Takes an id out of one sub-bucket, and the sub-bucket away once it is empty. */
  function TakeOut(rules: map<string, SubBucket>, key: string, id: string): map<string, SubBucket> {
    if key !in rules then rules
    else
      var left := rules[key].rules - {id};
      if left == map[] then rules - {key} else rules[key := rules[key].(rules := left)]
  }

  /** `cleanOldSvcRule`. */
  function CleanOld(s: State, id: string): map<string, SubBucket> {
    if id in s.ids then TakeOut(s.rules, KeyOf(s.ids[id]), id) else s.rules
  }

  function Save(s: State, r: Rule): State {
    var rules := CleanOld(s, r.id);
    var sub := if KeyOf(r) in rules then rules[KeyOf(r)] else SubBucket(map[], "");
    State(s.ids[r.id := r], rules[KeyOf(r) := sub.(rules := sub.rules[r.id := r])])
  }

  function Del(s: State, r: Rule): State {
    State(s.ids - {r.id}, TakeOut(CleanOld(s, r.id), KeyOf(r), r.id))
  }

  function Deliver(s: State, r: Rule): State {
    if r.valid then Save(s, r) else Del(s, r)
  }

  // ---------------------------------------------------------------- every rule in one place

  /** Each rule lies in exactly the sub-bucket of its own service, and none is empty. */
  ghost predicate Inv(s: State) {
    && Partitions(Groups(s), s.ids, KeyOf)
    && (forall k :: k in s.rules ==> s.rules[k].rules != map[])
    && (forall id :: id in s.ids ==> s.ids[id].id == id)
  }

  lemma PruneEmpty(parts: map<string, RuleMap>, whole: RuleMap, k: string)
    requires Partitions(parts, whole, KeyOf) && k in parts && parts[k] == map[]
    ensures Partitions(parts - {k}, whole, KeyOf)
  {
  }

  lemma TakeOutGroups(s: State, key: string, id: string)
    ensures var parts := Groups(s);
            var dropped := if key in parts then parts[key := parts[key] - {id}] else parts;
            Groups(s.(rules := TakeOut(s.rules, key, id))) ==
            if key in dropped && dropped[key] == map[] then dropped - {key} else dropped
  {
  }

  /** Taking an id out of its own group keeps the grouping of the rest. */
  lemma TakeOutKeeps(s: State, key: string, id: string)
    requires Inv(s) && (id in s.ids ==> KeyOf(s.ids[id]) == key)
    ensures Inv(State(s.ids - {id}, TakeOut(s.rules, key, id)))
  {
    var after := State(s.ids - {id}, TakeOut(s.rules, key, id));
    var parts := Groups(s);
    var dropped := if key in parts then parts[key := parts[key] - {id}] else parts;
    PartitionDrop(parts, s.ids, KeyOf, id, key);
    TakeOutGroups(s, key, id);
    assert Groups(after) == if key in dropped && dropped[key] == map[] then dropped - {key} else dropped;
    hide Partitions, KeyOf;
    if key in dropped && dropped[key] == map[] {
      PruneEmpty(dropped, s.ids - {id}, key);
    }
  }

  lemma CleanOldKeeps(s: State, id: string)
    requires Inv(s)
    ensures Inv(State(s.ids - {id}, CleanOld(s, id)))
  {
    hide TakeOut, Partitions, KeyOf;
    if id in s.ids {
      TakeOutKeeps(s, KeyOf(s.ids[id]), id);
    } else {
      assert s.ids - {id} == s.ids;
    }
  }

  lemma SaveKeepsInv(s: State, r: Rule)
    requires Inv(s)
    ensures Inv(Save(s, r))
  {
    hide Partitions, KeyOf, CleanOld;
    var cleaned := State(s.ids - {r.id}, CleanOld(s, r.id));
    CleanOldKeeps(s, r.id);
    PartitionPut(Groups(cleaned), cleaned.ids, KeyOf, r.id, r);
    assert cleaned.ids[r.id := r] == s.ids[r.id := r];
    var group := if KeyOf(r) in Groups(cleaned) then Groups(cleaned)[KeyOf(r)] else map[];
    assert Groups(Save(s, r)) == Groups(cleaned)[KeyOf(r) := group[r.id := r]];
    assert r.id in group[r.id := r];
  }

  lemma DelKeepsInv(s: State, r: Rule)
    requires Inv(s)
    ensures Inv(Del(s, r))
  {
    hide Partitions, KeyOf, CleanOld, TakeOut;
    var cleaned := State(s.ids - {r.id}, CleanOld(s, r.id));
    CleanOldKeeps(s, r.id);
    TakeOutKeeps(cleaned, KeyOf(r), r.id);
    assert cleaned.ids - {r.id} == s.ids - {r.id};
  }

  function DeliverAll(s: State, batch: seq<Rule>): State {
    if batch == [] then s else Deliver(DeliverAll(s, batch[..|batch| - 1]), batch[|batch| - 1])
  }

  lemma {:induction false} DeliverAllKeepsInv(s: State, batch: seq<Rule>)
    requires Inv(s)
    ensures Inv(DeliverAll(s, batch))
  {
    hide Inv, Save, Del;
    if batch != [] {
      var before, r := DeliverAll(s, batch[..|batch| - 1]), batch[|batch| - 1];
      DeliverAllKeepsInv(s, batch[..|batch| - 1]);
      SaveKeepsInv(before, r);
      DelKeepsInv(before, r);
    }
  }

  /** After any run of saves and deletes, re-bindings included. */
  lemma RunKeepsInv(batch: seq<Rule>)
    ensures Inv(DeliverAll(Empty, batch))
  {
    hide Inv, DeliverAll;
    EmptyInv();
    DeliverAllKeepsInv(Empty, batch);
  }

  lemma EmptyInv()
    ensures Inv(Empty)
  {
  }

  /** `count()` is the number of rules. */
  lemma CountIsSize(s: State)
    requires Inv(s)
    ensures Sum(Groups(s), Size) == |s.ids|
  {
    PartitionSize(Groups(s), s.ids, KeyOf);
  }

  /** The rules served for a service are exactly the cached rules bound to it, wherever they
      were bound before, among separable namespaces. */
  lemma ServedExactly(s: State, namespace: string, service: string, id: string)
    requires Inv(s) && Separable(namespace) && forall i :: i in s.ids ==> Separable(s.ids[i].namespace)
    ensures (ServiceKey(namespace, service) in s.rules && id in s.rules[ServiceKey(namespace, service)].rules)
            <==> id in s.ids && s.ids[id].namespace == namespace && s.ids[id].service == service
  {
    hide ServiceKey;
    var k := ServiceKey(namespace, service);
    if id in s.ids {
      ServiceKeyInjective(s.ids[id].namespace, s.ids[id].service, namespace, service);
    }
    assert k in s.rules ==> Groups(s)[k] == s.rules[k].rules;
    assert id in s.ids ==> KeyOf(s.ids[id]) in Groups(s) && id in Groups(s)[KeyOf(s.ids[id])];
  }

  // ---------------------------------------------------------------- revisions

  ghost function Digest(hash: string -> string, rules: RuleMap): string {
    SortedDigest(hash, "", Bag(rules, RevisionField))
  }

  ghost predicate Fits(hash: string -> string, s: State, key: string) {
    key in s.rules ==> s.rules[key].revision == Digest(hash, s.rules[key].rules)
  }

  ghost predicate AllFit(hash: string -> string, s: State) {
    forall key :: Fits(hash, s, key)
  }

  /** New revisions for the services of some keys. */
  ghost function Reload(hash: string -> string, s: State, keys: set<string>): State {
    s.(rules := map k | k in s.rules ::
                  if k in keys then s.rules[k].(revision := Digest(hash, s.rules[k].rules)) else s.rules[k])
  }

  function KeysOf(items: seq<Rule>): set<string> {
    set i | 0 <= i < |items| :: KeyOf(items[i])
  }

  function IdsOf(items: seq<Rule>): set<string> {
    set i | 0 <= i < |items| :: items[i].id
  }

  lemma BatchSnoc(items: seq<Rule>, n: nat)
    requires n < |items|
    ensures KeysOf(items[..n + 1]) == KeysOf(items[..n]) + {KeyOf(items[n])}
    ensures IdsOf(items[..n + 1]) == IdsOf(items[..n]) + {items[n].id}
  {
    hide KeyOf;
    assert forall i :: 0 <= i < n ==> items[..n + 1][i] == items[..n][i];
    assert items[..n + 1][n] == items[n];
  }

  /** `setRateLimit`: the rules one by one, then the revisions of the services they came under. */
  ghost function SetBatch(hash: string -> string, s: State, items: seq<Rule>): State {
    Reload(hash, DeliverAll(s, items), KeysOf(items))
  }

  /** What a batch leaves of a sub-bucket that it does not name. */
  function Left(s: State, items: seq<Rule>, key: string): RuleMap
    requires key in s.rules
  {
    s.rules[key].rules - IdsOf(items)
  }

  lemma OtherBucketsUntouched(s: State, r: Rule, key: string)
    requires Inv(s) && key != KeyOf(r)
    ensures key in Deliver(s, r).rules <==> key in s.rules && s.rules[key].rules - {r.id} != map[]
    ensures key in Deliver(s, r).rules ==>
              && Deliver(s, r).rules[key].revision == s.rules[key].revision
              && Deliver(s, r).rules[key].rules == s.rules[key].rules - {r.id}
  {
    if key in s.rules {
      NotBound(s, key, r.id);
      assert s.rules[key].rules != map[];
    }
    hide Inv, KeyOf;
  }

  lemma NotBound(s: State, key: string, id: string)
    requires Inv(s) && key in s.rules
    ensures !(id in s.ids && KeyOf(s.ids[id]) == key) ==> s.rules[key].rules - {id} == s.rules[key].rules
  {
    hide KeyOf;
    assert Groups(s)[key] == s.rules[key].rules;
  }

  lemma LeftSnoc(s: State, items: seq<Rule>, n: nat, key: string)
    requires n < |items| && key in s.rules
    ensures Left(s, items[..n + 1], key) == Left(s, items[..n], key) - {items[n].id}
  {
    BatchSnoc(items, n);
    hide IdsOf;
  }

  lemma {:induction false} BatchElsewhere(s: State, items: seq<Rule>, n: nat, key: string)
    requires Inv(s) && n <= |items| && key !in KeysOf(items[..n])
    ensures var after := DeliverAll(s, items[..n]);
            && (key in after.rules <==> key in s.rules && Left(s, items[..n], key) != map[])
            && (key in after.rules ==>
                  after.rules[key] == s.rules[key].(rules := Left(s, items[..n], key)))
  {
    hide Deliver, KeyOf;
    if n == 0 {
      assert items[..0] == [];
      assert key in s.rules ==> s.rules[key].rules - {} == s.rules[key].rules;
    } else {
      BatchSnoc(items, n - 1);
      assert items[..n][..n - 1] == items[..n - 1];
      BatchElsewhere(s, items, n - 1, key);
      DeliverAllKeepsInv(s, items[..n - 1]);
      hide Inv;
      OtherBucketsUntouched(DeliverAll(s, items[..n - 1]), items[n - 1], key);
      if key in s.rules { LeftSnoc(s, items, n - 1, key); }
    }
  }

  /** A batch gives new revisions to the services it names. Any other sub-bucket survives if it
      has rules that the batch does not mention, and keeps its revision. That fits if and only
      if the rules that left do not show in the digest. */
  lemma RevisionFitsIff(hash: string -> string, s: State, items: seq<Rule>, key: string)
    requires Inv(s) && Fits(hash, s, key)
    ensures Fits(hash, SetBatch(hash, s, items), key) <==>
            || key in KeysOf(items)
            || key !in s.rules
            || Left(s, items, key) == map[]
            || Digest(hash, s.rules[key].rules) == Digest(hash, Left(s, items, key))
  {
    hide Digest, DeliverAll, KeysOf, IdsOf, Inv;
    if key !in KeysOf(items) {
      assert items[..|items|] == items;
      BatchElsewhere(s, items, |items|, key);
    }
  }

  /** No batch takes rules away from a sub-bucket that it does not name, visibly. */
  ghost predicate NamesWhatItChanges(hash: string -> string, s: State, items: seq<Rule>) {
    forall key :: key in s.rules && key !in KeysOf(items) && Left(s, items, key) != map[] ==>
      Digest(hash, s.rules[key].rules) == Digest(hash, Left(s, items, key))
  }

  ghost function RunBatches(hash: string -> string, batches: seq<seq<Rule>>): State {
    if batches == [] then Empty
    else SetBatch(hash, RunBatches(hash, batches[..|batches| - 1]), batches[|batches| - 1])
  }

  lemma ReloadKeeps(hash: string -> string, s: State, keys: set<string>)
    requires Inv(s)
    ensures Inv(Reload(hash, s, keys)) && Groups(Reload(hash, s, keys)) == Groups(s)
  {
    hide Digest, Partitions;
    assert Groups(Reload(hash, s, keys)) == Groups(s);
  }

  lemma {:induction false} BatchesKeepInv(hash: string -> string, batches: seq<seq<Rule>>)
    ensures Inv(RunBatches(hash, batches))
  {
    hide Inv, DeliverAll, Reload;
    if batches == [] {
      EmptyInv();
    } else {
      var before, items := RunBatches(hash, batches[..|batches| - 1]), batches[|batches| - 1];
      BatchesKeepInv(hash, batches[..|batches| - 1]);
      DeliverAllKeepsInv(before, items);
      ReloadKeeps(hash, DeliverAll(before, items), KeysOf(items));
    }
  }

  lemma BatchFitsIff(hash: string -> string, s: State, items: seq<Rule>)
    requires Inv(s) && AllFit(hash, s)
    ensures AllFit(hash, SetBatch(hash, s, items)) <==> NamesWhatItChanges(hash, s, items)
  {
    hide Fits, Inv, SetBatch, Digest, KeysOf, Left;
    forall key
      ensures Fits(hash, SetBatch(hash, s, items), key) <==>
              (key in s.rules && key !in KeysOf(items) && Left(s, items, key) != map[] ==>
                 Digest(hash, s.rules[key].rules) == Digest(hash, Left(s, items, key)))
    {
      assert Fits(hash, s, key);
      RevisionFitsIff(hash, s, items, key);
    }
  }

  /** Along any run of batches every revision fits after every batch if and only if every
      batch names what it visibly changes. */
  lemma AlwaysFitIff(hash: string -> string, batches: seq<seq<Rule>>)
    ensures (forall i :: 0 <= i <= |batches| ==> AllFit(hash, RunBatches(hash, batches[..i])))
            <==> forall i :: 0 <= i < |batches| ==>
                   NamesWhatItChanges(hash, RunBatches(hash, batches[..i]), batches[i])
  {
    hide AllFit, NamesWhatItChanges, RunBatches;
    if forall i :: 0 <= i <= |batches| ==> AllFit(hash, RunBatches(hash, batches[..i])) {
      forall i | 0 <= i < |batches| ensures NamesWhatItChanges(hash, RunBatches(hash, batches[..i]), batches[i]) {
        BatchStepFitsIff(hash, batches, i);
      }
    }
    if forall i :: 0 <= i < |batches| ==> NamesWhatItChanges(hash, RunBatches(hash, batches[..i]), batches[i]) {
      forall i | 0 <= i <= |batches| ensures AllFit(hash, RunBatches(hash, batches[..i])) {
        NamingFits(hash, batches, i);
      }
    }
  }

  lemma BatchStepFitsIff(hash: string -> string, batches: seq<seq<Rule>>, i: nat)
    requires i < |batches| && AllFit(hash, RunBatches(hash, batches[..i]))
    ensures AllFit(hash, RunBatches(hash, batches[..i + 1])) <==>
            NamesWhatItChanges(hash, RunBatches(hash, batches[..i]), batches[i])
  {
    hide AllFit, NamesWhatItChanges, SetBatch, Inv;
    assert batches[..i + 1][..i] == batches[..i];
    BatchesKeepInv(hash, batches[..i]);
    BatchFitsIff(hash, RunBatches(hash, batches[..i]), batches[i]);
  }

  lemma {:induction false} NamingFits(hash: string -> string, batches: seq<seq<Rule>>, n: nat)
    requires n <= |batches|
    requires forall i :: 0 <= i < n ==> NamesWhatItChanges(hash, RunBatches(hash, batches[..i]), batches[i])
    ensures AllFit(hash, RunBatches(hash, batches[..n]))
  {
    hide NamesWhatItChanges, SetBatch;
    if n == 0 {
      assert batches[..0] == [];
    } else {
      hide RunBatches, AllFit;
      NamingFits(hash, batches, n - 1);
      BatchStepFitsIff(hash, batches, n - 1);
    }
  }

  // ---------------------------------------------------------------- collision-free hashes

  ghost predicate CollisionFree(hash: string -> string) {
    forall x, y :: hash(x) == hash(y) ==> x == y
  }

  function RevisionLength(r: Rule): int { |r.revision| }

  lemma {:induction false} ConcatSplit(s: seq<string>, t: seq<string>)
    ensures Concat(s + t) == Concat(s) + Concat(t)
  {
    if s == [] {
      assert s + t == t;
    } else {
      assert (s + t)[1..] == s[1..] + t;
      ConcatSplit(s[1..], t);
    }
  }

  lemma ConcatWithout(s: seq<string>, i: nat)
    requires i < |s|
    ensures |Concat(s)| == |Concat(s[..i] + s[i + 1..])| + |s[i]|
  {
    assert s == s[..i] + (s[i..i + 1] + s[i + 1..]);
    ConcatSplit(s[..i], s[i..i + 1] + s[i + 1..]);
    ConcatSplit(s[i..i + 1], s[i + 1..]);
    ConcatSplit(s[..i], s[i + 1..]);
    assert s[i..i + 1] == [s[i]] && Concat([s[i]]) == s[i] + Concat([]);
  }

  lemma ListedWithout(s: seq<string>, i: nat, b: multiset<string>)
    requires i < |s| && multiset(s) == b + multiset{s[i]}
    ensures multiset(s[..i] + s[i + 1..]) == b
  {
    var rest := s[..i] + s[i + 1..];
    assert s == s[..i] + [s[i]] + s[i + 1..];
    assert multiset(s) == multiset(rest) + multiset{s[i]};
    assert multiset(rest) == multiset(s) - multiset{s[i]} == b;
  }

  lemma NoLength(s: seq<string>)
    requires multiset(s) == multiset{}
    ensures Concat(s) == ""
  {
    assert |s| == |multiset(s)|;
  }

  lemma NothingToSum(rules: RuleMap)
    requires rules.Keys == {}
    ensures Bag(rules, RevisionField) == multiset{} && Sum(rules, RevisionLength) == 0
  {
  }

  /** However the revisions of some rules are listed, together they are as long. */
  lemma {:induction false} ListedLength(rules: RuleMap, s: seq<string>)
    requires multiset(s) == Bag(rules, RevisionField)
    ensures |Concat(s)| == Sum(rules, RevisionLength)
    decreases rules.Keys
  {
    hide Bag, Sum, Concat;
    if rules.Keys == {} {
      NothingToSum(rules);
      NoLength(s);
    } else {
      var k :| k in rules.Keys;
      assert (rules - {k}).Keys == rules.Keys - {k};
      BagRemove(rules, RevisionField, k);
      SumRemove(rules, RevisionLength, k);
      assert rules[k].revision in multiset(s);
      var i :| 0 <= i < |s| && s[i] == rules[k].revision;
      ListedWithout(s, i, Bag(rules - {k}, RevisionField));
      ListedLength(rules - {k}, s[..i] + s[i + 1..]);
      ConcatWithout(s, i);
    }
  }

  predicate AllRevised(rules: RuleMap) {
    forall id :: id in rules ==> rules[id].revision != ""
  }

  lemma {:induction false} LessIsShorter(rules: RuleMap, ids: set<string>)
    requires AllRevised(rules)
    ensures Sum(rules - ids, RevisionLength) <= Sum(rules, RevisionLength)
    ensures Sum(rules - ids, RevisionLength) == Sum(rules, RevisionLength) ==> rules.Keys !! ids
    decreases rules.Keys * ids
  {
    hide Sum;
    if rules.Keys * ids == {} {
      assert forall k :: k in rules ==> k !in rules.Keys * ids;
      assert rules - ids == rules;
    } else {
      var k :| k in rules.Keys * ids;
      var fewer := rules - {k};
      assert fewer.Keys == rules.Keys - {k} && fewer - ids == rules - ids;
      assert fewer.Keys * ids < rules.Keys * ids by { assert k !in fewer.Keys * ids; }
      SumRemove(rules, RevisionLength, k);
      LessIsShorter(fewer, ids);
    }
  }

  lemma DigestLength(hash: string -> string, a: RuleMap, b: RuleMap)
    requires CollisionFree(hash) && Digest(hash, a) == Digest(hash, b)
    ensures Sum(a, RevisionLength) == Sum(b, RevisionLength)
  {
    var s := StringOrder.SortStrings(Enumerate(Bag(a, RevisionField)));
    var t := StringOrder.SortStrings(Enumerate(Bag(b, RevisionField)));
    assert multiset(s) == Bag(a, RevisionField) && multiset(t) == Bag(b, RevisionField);
    assert "" + Concat(s) == "" + Concat(t);
    hide Bag, Sum, Concat;
    ListedLength(a, s);
    ListedLength(b, t);
  }

  /** Rules with revisions that leave a sub-bucket show in the digest of a collision-free hash. */
  lemma DigestShowsIff(hash: string -> string, rules: RuleMap, ids: set<string>)
    requires CollisionFree(hash) && AllRevised(rules)
    ensures Digest(hash, rules) == Digest(hash, rules - ids) <==> rules.Keys !! ids
  {
    hide CollisionFree, Digest, Sum;
    if Digest(hash, rules) == Digest(hash, rules - ids) {
      DigestLength(hash, rules, rules - ids);
      LessIsShorter(rules, ids);
    }
    if rules.Keys !! ids {
      assert rules - ids == rules;
    }
  }

  /** A sub-bucket that a batch does not name loses all of its rules or none. */
  ghost predicate TakesAllOrNone(s: State, items: seq<Rule>) {
    forall key :: key in s.rules && key !in KeysOf(items) ==>
      s.rules[key].rules.Keys <= IdsOf(items) || s.rules[key].rules.Keys !! IdsOf(items)
  }

  ghost predicate Revised(s: State) {
    forall key :: key in s.rules ==> AllRevised(s.rules[key].rules)
  }

  lemma NamesIffTakes(hash: string -> string, s: State, items: seq<Rule>)
    requires CollisionFree(hash) && Revised(s)
    ensures NamesWhatItChanges(hash, s, items) <==> TakesAllOrNone(s, items)
  {
    hide Digest, CollisionFree, KeysOf, IdsOf;
    forall key | key in s.rules
      ensures (Left(s, items, key) != map[] ==> Digest(hash, s.rules[key].rules) == Digest(hash, Left(s, items, key)))
              <==> s.rules[key].rules.Keys <= IdsOf(items) || s.rules[key].rules.Keys !! IdsOf(items)
    {
      DigestShowsIff(hash, s.rules[key].rules, IdsOf(items));
      LeftEmptyIff(s, items, key);
    }
  }

  lemma LeftEmptyIff(s: State, items: seq<Rule>, key: string)
    requires key in s.rules
    ensures Left(s, items, key) == map[] <==> s.rules[key].rules.Keys <= IdsOf(items)
  {
    hide IdsOf;
    var left, keys := Left(s, items, key), s.rules[key].rules.Keys;
    assert forall k :: k in left <==> k in keys && k !in IdsOf(items);
    if keys <= IdsOf(items) {
      assert left.Keys == {};
    }
  }

  /** Every rule of `after` is one of `before`, or the given one. */
  ghost predicate OnlyAdds(before: map<string, SubBucket>, after: map<string, SubBucket>, r: Rule) {
    forall key, id :: key in after && id in after[key].rules ==>
      after[key].rules[id] == r ||
      (key in before && id in before[key].rules && before[key].rules[id] == after[key].rules[id])
  }

  lemma DeliverOnlyAdds(s: State, r: Rule)
    ensures OnlyAdds(s.rules, Deliver(s, r).rules, r)
  {
    hide KeyOf;
  }

  lemma {:induction false} DeliveredAreRevised(s: State, items: seq<Rule>)
    requires Revised(s) && forall r :: r in items ==> r.revision != ""
    ensures Revised(DeliverAll(s, items))
  {
    hide Deliver;
    if items != [] {
      DeliveredAreRevised(s, items[..|items| - 1]);
      assert items[|items| - 1] in items;
      DeliverOnlyAdds(DeliverAll(s, items[..|items| - 1]), items[|items| - 1]);
    }
  }

  lemma {:induction false} RunIsRevised(hash: string -> string, batches: seq<seq<Rule>>, n: nat)
    requires n <= |batches| && forall b, r :: b in batches && r in b ==> r.revision != ""
    ensures Revised(RunBatches(hash, batches[..n]))
  {
    hide Digest, DeliverAll;
    if n > 0 {
      assert batches[..n][..n - 1] == batches[..n - 1];
      assert batches[n - 1] in batches;
      RunIsRevised(hash, batches, n - 1);
      DeliveredAreRevised(RunBatches(hash, batches[..n - 1]), batches[n - 1]);
    }
  }

  /** With a collision-free hash and rules that have revisions: along any run of batches every
      revision fits after every batch if and only if every service that a batch does not name
      loses all of its rules to it or none. */
  lemma AlwaysFitIffAllOrNone(hash: string -> string, batches: seq<seq<Rule>>)
    requires CollisionFree(hash) && forall b, r :: b in batches && r in b ==> r.revision != ""
    ensures (forall i :: 0 <= i <= |batches| ==> AllFit(hash, RunBatches(hash, batches[..i])))
            <==> forall i :: 0 <= i < |batches| ==> TakesAllOrNone(RunBatches(hash, batches[..i]), batches[i])
  {
    AlwaysFitIff(hash, batches);
    hide AllFit, RunBatches, NamesWhatItChanges, TakesAllOrNone, CollisionFree, Revised;
    forall i | 0 <= i < |batches|
      ensures NamesWhatItChanges(hash, RunBatches(hash, batches[..i]), batches[i])
              <==> TakesAllOrNone(RunBatches(hash, batches[..i]), batches[i])
    {
      RunIsRevised(hash, batches, i);
      NamesIffTakes(hash, RunBatches(hash, batches[..i]), batches[i]);
    }
  }

  // ---------------------------------------------------------------- a rule that moved

  lemma OneRule(r: Rule)
    ensures KeysOf([r]) == {KeyOf(r)} && IdsOf([r]) == {r.id}
  {
    hide KeyOf;
    assert [r][0] == r;
  }

  lemma TwoRevisions(hash: string -> string, a: Rule, b: Rule)
    requires CollisionFree(hash) && a.revision != "" && b.revision != ""
    ensures Digest(hash, map["a" := a, "b" := b]) != Digest(hash, map["b" := b])
  {
    hide Digest, CollisionFree;
    var both := map["a" := a, "b" := b];
    DigestShowsIff(hash, both, {"a"});
    assert both - {"a"} == map["b" := b];
    assert "a" in both.Keys * {"a"};
  }

  lemma BothBound(hash: string -> string, a: Rule, b: Rule)
    requires a.id == "a" && b.id == "b" && a.valid && b.valid && KeyOf(a) == KeyOf(b)
    ensures var s := RunBatches(hash, [[a, b]]);
            && KeyOf(b) in s.rules && s.rules[KeyOf(b)].rules == map["a" := a, "b" := b]
            && Fits(hash, s, KeyOf(b))
  {
    hide KeyOf, Digest;
    assert [[a, b]][..0] == [];
    assert [a, b][..1] == [a] && [a][..0] == [];
    assert DeliverAll(Empty, [a]) == Save(Empty, a);
    assert DeliverAll(Empty, [a, b]) == Save(Save(Empty, a), b);
    assert [a, b][1] == b;
    assert KeyOf(b) in KeysOf([a, b]);
  }

  lemma MovedAway(hash: string -> string, s: State, moved: Rule, key: string)
    requires Inv(s) && key in s.rules && key != KeyOf(moved) && Left(s, [moved], key) != map[]
    ensures var after := SetBatch(hash, s, [moved]);
            key in after.rules && after.rules[key].rules == Left(s, [moved], key)
  {
    hide Inv, Digest, KeyOf, DeliverAll, KeysOf, IdsOf;
    OneRule(moved);
    assert [moved][..1] == [moved];
    BatchElsewhere(s, [moved], 1, key);
  }

  lemma RunTwo(hash: string -> string, x: seq<Rule>, y: seq<Rule>)
    ensures RunBatches(hash, [x, y]) == SetBatch(hash, RunBatches(hash, [x]), y)
  {
    hide SetBatch;
    assert [x, y][..1] == [x];
  }

  lemma RevisionLeftBehind(hash: string -> string, a: Rule, b: Rule, moved: Rule)
    requires CollisionFree(hash) && a.revision != "" && b.revision != ""
    requires a.id == moved.id == "a" && b.id == "b" && a.valid && b.valid && KeyOf(a) == KeyOf(b) != KeyOf(moved)
    ensures var s := RunBatches(hash, [[a, b], [moved]]);
            KeyOf(b) in s.rules && s.rules[KeyOf(b)].rules == map["b" := b] && !Fits(hash, s, KeyOf(b))
  {
    hide *;
    var key, first := KeyOf(b), RunBatches(hash, [[a, b]]);
    BothBound(hash, a, b);
    BatchesKeepInv(hash, [[a, b]]);
    RunTwo(hash, [a, b], [moved]);
    OneRule(moved);
    LeftOfTwo(first, a, b, moved, key);
    TwoRevisions(hash, a, b);
    RevisionFitsIff(hash, first, [moved], key);
    MovedAway(hash, first, moved, key);
  }

  lemma LeftOfTwo(s: State, a: Rule, b: Rule, moved: Rule, key: string)
    requires key in s.rules && s.rules[key].rules == map["a" := a, "b" := b] && moved.id == "a"
    ensures Left(s, [moved], key) == map["b" := b] && map["b" := b] != map[]
  {
    OneRule(moved);
    hide IdsOf;
    assert "b" in map["b" := b];
  }

  /** Two rules of one service; then one of them is bound to another service. The first
      service goes on announcing the revision of the two. */
  lemma MovedRuleLeavesRevision(hash: string -> string)
    requires CollisionFree(hash)
    ensures var a, b := Rule("a", "n", "old", "1", true), Rule("b", "n", "old", "2", true);
            var moved := Rule("a", "n", "new", "3", true);
            var s := RunBatches(hash, [[a, b], [moved]]);
            KeyOf(b) in s.rules && s.rules[KeyOf(b)].rules == map["b" := b] && !Fits(hash, s, KeyOf(b))
  {
    ServiceKeyInjective("n", "new", "n", "old");
    hide RunBatches, Fits, CollisionFree, ServiceKey;
    RevisionLeftBehind(hash, Rule("a", "n", "old", "1", true), Rule("b", "n", "old", "2", true),
                       Rule("a", "n", "new", "3", true));
  }
}
