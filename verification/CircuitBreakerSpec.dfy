/**
 The three-tier wildcard index of cache/circuitbreaker_config.go, on values.

 A rule lives in the bucket of every service it concerns: one bucket for all services,
 one per namespace, one per service. Narrow buckets are created on demand and seeded from
 the wider ones. The theorems compare a lookup through the tiers with the obvious
 definition, "all live rules whose destination matches".
 */
module CircuitBreakerSpec {

  const ALL_MATCHED := "*"

  datatype ServiceKey = ServiceKey(namespace: string, name: string)

  datatype Rule = Rule(id: string, dstNamespace: string, dstService: string,
                       revision: string, valid: bool, modifyTime: int)

  type RuleMap = map<string, Rule>

  /** The rules held by each bucket; `all` always exists, the others once created. */
  datatype Tiers = Tiers(all: RuleMap, ns: map<string, RuleMap>, svc: map<ServiceKey, RuleMap>)

  const EmptyTiers := Tiers(map[], map[], map[])

  // ---------------------------------------------------------------- reference definition

  /** Both parts empty, or both wildcards: the rule concerns every service. */
  predicate AllDestinations(r: Rule) {
    || (r.dstService == "" && r.dstNamespace == "")
    || (r.dstService == ALL_MATCHED && r.dstNamespace == ALL_MATCHED)
  }

  predicate Matches(r: Rule, k: ServiceKey) {
    || AllDestinations(r)
    || (r.dstNamespace == k.namespace && (r.dstService == ALL_MATCHED || r.dstService == k.name))
  }

  /** What a lookup should hold: the live rules that match. */
  function Matching(live: RuleMap, k: ServiceKey): RuleMap {
    map id | id in live && Matches(live[id], k) :: live[id]
  }

  /** The live rules after one more record from the store. */
  function LiveAfter(live: RuleMap, r: Rule): RuleMap {
    if r.valid then live[r.id := r] else live - {r.id}
  }

  // ---------------------------------------------------------------- the index

  function ServicesInvolved(r: Rule): set<ServiceKey> {
    if AllDestinations(r) then {} else {ServiceKey(r.dstNamespace, r.dstService)}
  }

  function WildNamespaces(keys: set<ServiceKey>): set<string> {
    set k | k in keys && k.name == ALL_MATCHED :: k.namespace
  }

  /** The service buckets that a change to `keys` concerns. */
  function Reloads(existing: set<ServiceKey>, keys: set<ServiceKey>): set<ServiceKey> {
    (set k | k in keys && k.name != ALL_MATCHED) +
    (set k | k in existing && k.namespace in WildNamespaces(keys))
  }

  function StoredNs(t: Tiers, r: Rule, keys: set<ServiceKey>): map<string, RuleMap> {
    map n | n in t.ns.Keys + WildNamespaces(keys) ::
      if n !in WildNamespaces(keys) then t.ns[n]
      else (if n in t.ns then t.ns[n] else t.all)[r.id := r]
  }

  function SeedService(all: RuleMap, ns: map<string, RuleMap>, k: ServiceKey): RuleMap {
    all + (if k.namespace in ns then ns[k.namespace] else map[])
  }

  function StoredSvc(t: Tiers, r: Rule, ns: map<string, RuleMap>, reloads: set<ServiceKey>): map<ServiceKey, RuleMap> {
    map k | k in t.svc.Keys + reloads ::
      if k !in reloads then t.svc[k]
      else (if k in t.svc then t.svc[k] else SeedService(t.all, ns, k))[r.id := r]
  }

  function Store(t: Tiers, r: Rule, keys: set<ServiceKey>): Tiers {
    if keys == {} then
      Tiers(t.all[r.id := r], map n | n in t.ns :: t.ns[n][r.id := r], map k | k in t.svc :: t.svc[k][r.id := r])
    else
      var ns := StoredNs(t, r, keys);
      Tiers(t.all, ns, StoredSvc(t, r, ns, Reloads(t.svc.Keys, keys)))
  }

  function DeletedNs(t: Tiers, id: string, keys: set<ServiceKey>): map<string, RuleMap> {
    map n | n in t.ns :: if n in WildNamespaces(keys) then t.ns[n] - {id} else t.ns[n]
  }

  function DeletedSvc(t: Tiers, id: string, reloads: set<ServiceKey>): map<ServiceKey, RuleMap> {
    map k | k in t.svc :: if k in reloads then t.svc[k] - {id} else t.svc[k]
  }

  function Delete(t: Tiers, id: string, keys: set<ServiceKey>): Tiers {
    if keys == {} then
      Tiers(t.all - {id}, map n | n in t.ns :: t.ns[n] - {id}, map k | k in t.svc :: t.svc[k] - {id})
    else
      Tiers(t.all, DeletedNs(t, id, keys), DeletedSvc(t, id, Reloads(t.svc.Keys, keys)))
  }

  function Deliver(t: Tiers, r: Rule): Tiers {
    if r.valid then Store(t, r, ServicesInvolved(r)) else Delete(t, r.id, ServicesInvolved(r))
  }

  /** Service bucket, else namespace bucket, else the bucket for all services. */
  function Lookup(t: Tiers, k: ServiceKey): RuleMap {
    if k in t.svc then t.svc[k] else if k.namespace in t.ns then t.ns[k.namespace] else t.all
  }

  // ---------------------------------------------------------------- one delivery

  ghost predicate Exact(t: Tiers, live: RuleMap) {
    forall k :: Lookup(t, k) == Matching(live, k)
  }

  function NsMatching(live: RuleMap, n: string): RuleMap {
    Matching(live, ServiceKey(n, ALL_MATCHED))
  }

  function AllMatching(live: RuleMap): RuleMap {
    map id | id in live && AllDestinations(live[id]) :: live[id]
  }

  ghost predicate IdsAgree(live: RuleMap) {
    forall id :: id in live ==> live[id].id == id
  }

  /** Every bucket is exact, and every narrow rule has its bucket. */
  ghost predicate Inv(t: Tiers, live: RuleMap) {
    && IdsAgree(live)
    && t.all == AllMatching(live)
    && (forall n :: n in t.ns ==> t.ns[n] == NsMatching(live, n))
    && (forall k :: k in t.svc ==> k.name != ALL_MATCHED && t.svc[k] == Matching(live, k))
    && (forall id :: id in live && !AllDestinations(live[id]) ==>
          if live[id].dstService == ALL_MATCHED then live[id].dstNamespace in t.ns
          else ServiceKey(live[id].dstNamespace, live[id].dstService) in t.svc)
  }

  lemma InvIsExact(t: Tiers, live: RuleMap)
    requires Inv(t, live)
    ensures Exact(t, live)
  {
    forall k ensures Lookup(t, k) == Matching(live, k) {
      if k !in t.svc {
        forall id | id in live && Matches(live[id], k)
          ensures AllDestinations(live[id]) || live[id].dstService == ALL_MATCHED
        {}
        if k.namespace in t.ns {
          assert NsMatching(live, k.namespace) == Matching(live, k);
        } else {
          assert AllMatching(live) == Matching(live, k);
        }
      }
    }
  }

  /** The new destination reaches everything that the old one reached. */
  predicate Covers(r: Rule, was: Rule) {
    || AllDestinations(r)
    || (r.dstNamespace == was.dstNamespace && r.dstService == was.dstService)
    || (!AllDestinations(was) && r.dstService == ALL_MATCHED && r.dstNamespace == was.dstNamespace)
  }

  predicate CoversLive(live: RuleMap, r: Rule) {
    r.id in live ==> Covers(r, live[r.id])
  }

  /** `Covers` is exactly inclusion of the matched services; outside it there is a witness. */
  lemma CoversIsInclusion(r: Rule, was: Rule)
    ensures Covers(r, was) <==> forall k :: Matches(was, k) ==> Matches(r, k)
  {
    if !Covers(r, was) {
      var k :=
        if AllDestinations(was) then ServiceKey(r.dstNamespace + "x", "")
        else if was.dstService == ALL_MATCHED && r.dstNamespace == was.dstNamespace then
          ServiceKey(was.dstNamespace, r.dstService + "x")
        else ServiceKey(was.dstNamespace, was.dstService);
      assert |r.dstNamespace + "x"| > |r.dstNamespace| && |r.dstService + "x"| > |r.dstService|;
      assert Matches(was, k) && !Matches(r, k);
    }
  }

  lemma MatchingAfter(live: RuleMap, r: Rule, k: ServiceKey)
    requires CoversLive(live, r)
    ensures Matching(LiveAfter(live, r), k) ==
            if !Matches(r, k) then Matching(live, k)
            else if r.valid then Matching(live, k)[r.id := r] else Matching(live, k) - {r.id}
  {
  }

  /** A delivery does not touch what a lookup outside its destination sees. */
  lemma Untouched(t: Tiers, r: Rule, k: ServiceKey)
    requires !Matches(r, k)
    ensures Lookup(Deliver(t, r), k) == Lookup(t, k)
  {
  }

  lemma InvolvedShape(r: Rule)
    ensures AllDestinations(r) ==> ServicesInvolved(r) == {}
    ensures !AllDestinations(r) ==>
              && ServicesInvolved(r) == {ServiceKey(r.dstNamespace, r.dstService)}
              && WildNamespaces(ServicesInvolved(r)) == if r.dstService == ALL_MATCHED then {r.dstNamespace} else {}
  {
  }

  lemma AllTierKept(t: Tiers, live: RuleMap, r: Rule)
    requires Inv(t, live) && CoversLive(live, r)
    ensures Deliver(t, r).all == AllMatching(LiveAfter(live, r))
  {
    InvolvedShape(r);
  }

  lemma NsTierKept(t: Tiers, live: RuleMap, r: Rule, n: string)
    requires Inv(t, live) && CoversLive(live, r) && n in Deliver(t, r).ns
    ensures Deliver(t, r).ns[n] == NsMatching(LiveAfter(live, r), n)
  {
    InvolvedShape(r);
    var k := ServiceKey(n, ALL_MATCHED);
    MatchingAfter(live, r, k);
    if n !in t.ns {
      // a new namespace bucket, seeded from the rules for all services
      assert AllMatching(live) == NsMatching(live, n);
    }
  }

  lemma SeedIsExact(t: Tiers, live: RuleMap, ns: map<string, RuleMap>, k: ServiceKey)
    requires Inv(t, live) && k !in t.svc && k.name != ALL_MATCHED
    requires k.namespace in ns <==> k.namespace in t.ns
    requires k.namespace in ns ==> ns[k.namespace] == t.ns[k.namespace]
    ensures SeedService(t.all, ns, k) == Matching(live, k)
  {
    InvIsExact(t, live);
    assert Lookup(t, k) == Matching(live, k);
    if k.namespace in ns {
      assert t.all + ns[k.namespace] == ns[k.namespace];
    } else {
      assert t.all + map[] == t.all;
    }
  }

  lemma SvcTierKept(t: Tiers, live: RuleMap, r: Rule, k: ServiceKey)
    requires Inv(t, live) && CoversLive(live, r) && k in Deliver(t, r).svc
    ensures k.name != ALL_MATCHED && Deliver(t, r).svc[k] == Matching(LiveAfter(live, r), k)
  {
    InvolvedShape(r);
    MatchingAfter(live, r, k);
    if k !in t.svc {
      var ns := StoredNs(t, r, ServicesInvolved(r));
      SeedIsExact(t, live, ns, k);
    }
  }

  lemma BucketsPresent(t: Tiers, live: RuleMap, r: Rule, id: string)
    requires Inv(t, live) && id in LiveAfter(live, r) && !AllDestinations(LiveAfter(live, r)[id])
    ensures var rule := LiveAfter(live, r)[id];
            if rule.dstService == ALL_MATCHED then rule.dstNamespace in Deliver(t, r).ns
            else ServiceKey(rule.dstNamespace, rule.dstService) in Deliver(t, r).svc
  {
  }

  lemma DeliverKeepsInv(t: Tiers, live: RuleMap, r: Rule)
    requires Inv(t, live) && CoversLive(live, r)
    ensures Inv(Deliver(t, r), LiveAfter(live, r))
  {
    AllTierKept(t, live, r);
    forall n | n in Deliver(t, r).ns ensures Deliver(t, r).ns[n] == NsMatching(LiveAfter(live, r), n) {
      NsTierKept(t, live, r, n);
    }
    forall k | k in Deliver(t, r).svc
      ensures k.name != ALL_MATCHED && Deliver(t, r).svc[k] == Matching(LiveAfter(live, r), k)
    {
      SvcTierKept(t, live, r, k);
    }
    forall id | id in LiveAfter(live, r) && !AllDestinations(LiveAfter(live, r)[id])
      ensures var rule := LiveAfter(live, r)[id];
              if rule.dstService == ALL_MATCHED then rule.dstNamespace in Deliver(t, r).ns
              else ServiceKey(rule.dstNamespace, rule.dstService) in Deliver(t, r).svc
    {
      BucketsPresent(t, live, r, id);
    }
  }

  /** One delivery keeps every lookup exact if and only if the delivered destination covers
      the destination of the live rule with that id: `cleanOldCircuitBreakerToServiceCache`
      is empty, so whatever the new destination does not reach keeps the old rule. */
  lemma DeliverExactIff(t: Tiers, live: RuleMap, r: Rule)
    requires Inv(t, live)
    ensures Exact(Deliver(t, r), LiveAfter(live, r)) <==> CoversLive(live, r)
  {
    if CoversLive(live, r) {
      DeliverKeepsInv(t, live, r);
      InvIsExact(Deliver(t, r), LiveAfter(live, r));
    } else {
      CoversIsInclusion(r, live[r.id]);
      var k :| Matches(live[r.id], k) && !Matches(r, k);
      InvIsExact(t, live);
      Untouched(t, r, k);
      assert Lookup(Deliver(t, r), k) == Matching(live, k);
      assert r.id in Matching(live, k) && r.id !in Matching(LiveAfter(live, r), k);
    }
  }

  // ---------------------------------------------------------------- whole runs

  datatype Event = Delivery(rule: Rule) | Clear

  function StepTiers(t: Tiers, e: Event): Tiers {
    match e
    case Delivery(r) => Deliver(t, r)
    case Clear => EmptyTiers
  }

  function StepLive(live: RuleMap, e: Event): RuleMap {
    match e
    case Delivery(r) => LiveAfter(live, r)
    case Clear => map[]
  }

  function RunTiers(es: seq<Event>): Tiers {
    if es == [] then EmptyTiers else StepTiers(RunTiers(es[..|es| - 1]), es[|es| - 1])
  }

  function RunLive(es: seq<Event>): RuleMap {
    if es == [] then map[] else StepLive(RunLive(es[..|es| - 1]), es[|es| - 1])
  }

  ghost predicate CoveringAt(es: seq<Event>, i: nat)
    requires i < |es|
  {
    es[i].Delivery? ==> CoversLive(RunLive(es[..i]), es[i].rule)
  }

  ghost predicate Covering(es: seq<Event>) {
    forall i :: 0 <= i < |es| ==> CoveringAt(es, i)
  }

  ghost predicate ExactAt(es: seq<Event>, i: nat)
    requires i <= |es|
  {
    Exact(RunTiers(es[..i]), RunLive(es[..i]))
  }

  lemma RunStep(es: seq<Event>, i: nat)
    requires i < |es|
    ensures RunTiers(es[..i + 1]) == StepTiers(RunTiers(es[..i]), es[i])
    ensures RunLive(es[..i + 1]) == StepLive(RunLive(es[..i]), es[i])
  {
    assert es[..i + 1][..i] == es[..i];
  }

  lemma {:induction false} CoveringKeepsInv(es: seq<Event>, i: nat)
    requires i <= |es| && forall j :: 0 <= j < i ==> CoveringAt(es, j)
    ensures Inv(RunTiers(es[..i]), RunLive(es[..i]))
  {
    if i > 0 {
      CoveringKeepsInv(es, i - 1);
      RunStep(es, i - 1);
      assert CoveringAt(es, i - 1);
      match es[i - 1]
      case Delivery(r) => DeliverKeepsInv(RunTiers(es[..i - 1]), RunLive(es[..i - 1]), r);
      case Clear =>
    }
  }

  /** Along any run of deliveries and clears, every lookup is exact at every moment if and
      only if every delivery covers the destination its rule id had while it was live. */
  lemma AlwaysExactIffCovering(es: seq<Event>)
    ensures (forall i :: 0 <= i <= |es| ==> ExactAt(es, i)) <==> Covering(es)
  {
    if Covering(es) {
      forall i | 0 <= i <= |es| ensures ExactAt(es, i) {
        CoveringKeepsInv(es, i);
        InvIsExact(RunTiers(es[..i]), RunLive(es[..i]));
      }
    }
    if forall i :: 0 <= i <= |es| ==> ExactAt(es, i) {
      ExactImpliesCovering(es, |es|);
    }
  }

  lemma {:induction false} ExactImpliesCovering(es: seq<Event>, n: nat)
    requires n <= |es| && forall i :: 0 <= i <= n ==> ExactAt(es, i)
    ensures forall j :: 0 <= j < n ==> CoveringAt(es, j)
  {
    if n > 0 {
      ExactImpliesCovering(es, n - 1);
      CoveringKeepsInv(es, n - 1);
      RunStep(es, n - 1);
      assert ExactAt(es, n);
      if es[n - 1].Delivery? {
        DeliverExactIff(RunTiers(es[..n - 1]), RunLive(es[..n - 1]), es[n - 1].rule);
      }
    }
  }

  /** A rule edited to another service: the old service goes on being served the old rule. */
  lemma MovedRuleStaysBehind()
    ensures var before := Rule("cb-1", "Production", "orders", "v1", true, 1);
            var after := Rule("cb-1", "Production", "billing", "v2", true, 2);
            var t := Deliver(Deliver(EmptyTiers, before), after);
            Lookup(t, ServiceKey("Production", "orders")) == map["cb-1" := before]
  {
    var before := Rule("cb-1", "Production", "orders", "v1", true, 1);
    var after := Rule("cb-1", "Production", "billing", "v2", true, 2);
    var k := ServiceKey("Production", "orders");
    var t := Deliver(EmptyTiers, before);
    DeliverExactIff(EmptyTiers, map[], before);
    assert Lookup(t, k) == Matching(map["cb-1" := before], k);
    Untouched(t, after, k);
    assert Lookup(Deliver(t, after), k) == map["cb-1" := before];
  }

  ghost predicate KeepsDestinations(es: seq<Event>) {
    forall i, j :: 0 <= i < j < |es| && es[i].Delivery? && es[j].Delivery? && es[i].rule.id == es[j].rule.id ==>
      es[i].rule.dstNamespace == es[j].rule.dstNamespace && es[i].rule.dstService == es[j].rule.dstService
  }

  lemma {:induction false} LiveWasDelivered(es: seq<Event>, n: nat, id: string)
    requires n <= |es| && id in RunLive(es[..n])
    ensures exists j :: 0 <= j < n && es[j] == Delivery(RunLive(es[..n])[id]) && es[j].rule.id == id
  {
    if n > 0 {
      RunStep(es, n - 1);
      if es[n - 1].Delivery? && es[n - 1].rule.id == id {
        assert es[n - 1] == Delivery(RunLive(es[..n])[id]);
      } else if es[n - 1].Delivery? {
        LiveWasDelivered(es, n - 1, id);
      }
    }
  }

  /** With fixed destinations a lookup through the tiers is the naive definition, after any run. */
  lemma FixedDestinationsExact(es: seq<Event>, k: ServiceKey)
    requires KeepsDestinations(es)
    ensures Lookup(RunTiers(es), k) == Matching(RunLive(es), k)
  {
    forall i | 0 <= i < |es| ensures CoveringAt(es, i) {
      if es[i].Delivery? && es[i].rule.id in RunLive(es[..i]) {
        LiveWasDelivered(es, i, es[i].rule.id);
      }
    }
    AlwaysExactIffCovering(es);
    assert ExactAt(es, |es|) && es[..|es|] == es;
  }

  // ---------------------------------------------------------------- order of delivery

  function LiveAfterAll(live: RuleMap, batch: seq<Rule>): RuleMap
    decreases |batch|
  {
    if batch == [] then live else LiveAfterAll(LiveAfter(live, batch[0]), batch[1..])
  }

  ghost predicate DistinctIds(batch: seq<Rule>) {
    forall i, j :: 0 <= i < j < |batch| ==> batch[i].id != batch[j].id
  }

  /** In a batch with distinct ids each id ends as its own record says. */
  lemma {:induction false} BatchAt(live: RuleMap, batch: seq<Rule>, r: Rule)
    requires DistinctIds(batch) && r in batch
    ensures if r.valid then r.id in LiveAfterAll(live, batch) && LiveAfterAll(live, batch)[r.id] == r
            else r.id !in LiveAfterAll(live, batch)
    decreases |batch|
  {
    var rest := LiveAfter(live, batch[0]);
    if r == batch[0] {
      BatchElsewhere(rest, batch[1..], r.id);
    } else {
      BatchAt(rest, batch[1..], r);
    }
  }

  lemma {:induction false} BatchElsewhere(live: RuleMap, batch: seq<Rule>, id: string)
    requires forall r :: r in batch ==> r.id != id
    ensures id in LiveAfterAll(live, batch) <==> id in live
    ensures id in live ==> LiveAfterAll(live, batch)[id] == live[id]
    decreases |batch|
  {
    if batch != [] { BatchElsewhere(LiveAfter(live, batch[0]), batch[1..], id); }
  }

  /** Store rows arrive in no particular order; the order does not show in the live rules. */
  lemma OrderIrrelevant(live: RuleMap, a: seq<Rule>, b: seq<Rule>)
    requires DistinctIds(a) && DistinctIds(b) && multiset(a) == multiset(b)
    ensures LiveAfterAll(live, a) == LiveAfterAll(live, b)
  {
    var x, y := LiveAfterAll(live, a), LiveAfterAll(live, b);
    forall r ensures r in a <==> r in b { assert r in multiset(a) <==> r in multiset(b); }
    forall id ensures (id in x <==> id in y) && (id in x ==> x[id] == y[id]) {
      if r :| r in a && r.id == id {
        BatchAt(live, a, r);
        BatchAt(live, b, r);
      } else {
        BatchElsewhere(live, a, id);
        BatchElsewhere(live, b, id);
      }
    }
  }

  /** Delivering again a record that is already in effect (a fetched overlap) changes no lookup. */
  lemma RedeliveryIrrelevant(t: Tiers, live: RuleMap, r: Rule, k: ServiceKey)
    requires Inv(t, live)
    requires if r.valid then r.id in live && live[r.id] == r else r.id !in live
    ensures Lookup(Deliver(t, r), k) == Lookup(t, k)
  {
    DeliverExactIff(t, live, r);
    InvIsExact(t, live);
    assert LiveAfter(live, r) == live;
  }
}
