/**
 The circuit-breaker cache itself (cache/circuitbreaker_config.go): three maps of buckets
 changed in place, each method proved to be the corresponding step of `CircuitBreakerSpec`,
 with every bucket's Revision kept in step with its rules.
 */
module CircuitBreaker {
  import opened CircuitBreakerSpec
  import opened Folds
  import opened Revisions
  import opened StringOrder
  import opened Wrappers

  /** `model.ServiceWithCircuitBreakerRules`. */
  datatype Bucket = Bucket(rules: RuleMap, revision: string)

  function RevisionField(r: Rule): string { r.revision }

  /** "" for no rules, else the digest of the sorted revisions of the rules. */
  ghost function RevisionOf(hash: string -> string, rules: RuleMap): string {
    if rules == map[] then "" else SortedDigest(hash, "", Bag(rules, RevisionField))
  }

  ghost predicate Consistent(hash: string -> string, b: Bucket) {
    b.revision == RevisionOf(hash, b.rules)
  }

  function RulesOf(m: map<string, Bucket>): map<string, RuleMap> {
    map n | n in m :: m[n].rules
  }

  predicate HasService(cb: map<string, map<string, Bucket>>, k: ServiceKey) {
    k.namespace in cb && k.name in cb[k.namespace]
  }

  function ServiceKeys(cb: map<string, map<string, Bucket>>): (r: set<ServiceKey>)
    ensures forall k :: k in r <==> HasService(cb, k)
  {
    var r := set n, s | n in cb && s in cb[n] :: ServiceKey(n, s);
    assert forall k: ServiceKey :: k == ServiceKey(k.namespace, k.name);
    r
  }

  function Flatten(cb: map<string, map<string, Bucket>>): (r: map<ServiceKey, RuleMap>)
    ensures r.Keys == ServiceKeys(cb)
    ensures forall k :: k in r ==> r[k] == cb[k.namespace][k.name].rules
  {
    map k | k in ServiceKeys(cb) :: cb[k.namespace][k.name].rules
  }

  function PutService(cb: map<string, map<string, Bucket>>, k: ServiceKey, b: Bucket)
    : map<string, map<string, Bucket>>
  {
    cb[k.namespace := (if k.namespace in cb then cb[k.namespace] else map[])[k.name := b]]
  }

  lemma PutAt(cb: map<string, map<string, Bucket>>, k: ServiceKey, b: Bucket, q: ServiceKey)
    ensures var put := PutService(cb, k, b);
            && (HasService(put, q) <==> HasService(cb, q) || q == k)
            && (HasService(put, q) ==>
                  put[q.namespace][q.name] == if q == k then b else cb[q.namespace][q.name])
  {
  }

  lemma FlattenPut(cb: map<string, map<string, Bucket>>, k: ServiceKey, b: Bucket)
    ensures Flatten(PutService(cb, k, b)) == Flatten(cb)[k := b.rules]
  {
    hide PutService;
    var put := PutService(cb, k, b);
    var f, g := Flatten(put), Flatten(cb)[k := b.rules];
    forall q ensures (q in f <==> q in g) && (q in f ==> f[q] == g[q]) {
      PutAt(cb, k, b, q);
    }
    assert f.Keys == g.Keys;
  }

  ghost predicate AllConsistent(hash: string -> string, m: map<string, Bucket>) {
    forall n :: n in m ==> Consistent(hash, m[n])
  }

  ghost predicate ServicesConsistent(hash: string -> string, cb: map<string, map<string, Bucket>>) {
    forall n :: n in cb ==> AllConsistent(hash, cb[n])
  }

  // ---------------------------------------------------------------- single buckets

  method ReloadRevision(hash: string -> string, b: Bucket) returns (r: Bucket)
    ensures r.rules == b.rules && Consistent(hash, r)
  {
    if b.rules == map[] {
      return b.(revision := "");
    }
    var revisions := CollectRevisions(b.rules, RevisionField);
    DigestOfAny(hash, "", revisions);
    var revision := ComputeRevisionBySlice(hash, "", SortStrings(revisions));
    r := b.(revision := revision);
  }

  method StoreAndReload(hash: string -> string, b: Bucket, entry: Rule) returns (r: Bucket)
    ensures r.rules == b.rules[entry.id := entry] && Consistent(hash, r)
  {
    r := ReloadRevision(hash, b.(rules := b.rules[entry.id := entry]));
  }

  method DeleteAndReload(hash: string -> string, b: Bucket, id: string) returns (r: Bucket)
    ensures r.rules == b.rules - {id} && Consistent(hash, r)
  {
    r := ReloadRevision(hash, b.(rules := b.rules - {id}));
  }

  // ---------------------------------------------------------------- every bucket of a map

  function AddToAll<K>(m: map<K, RuleMap>, r: Rule): map<K, RuleMap> {
    map n | n in m :: m[n][r.id := r]
  }

  function RemoveFromAll<K>(m: map<K, RuleMap>, id: string): map<K, RuleMap> {
    map n | n in m :: m[n] - {id}
  }

  method StoreInto(hash: string -> string, m: map<string, Bucket>, entry: Rule) returns (r: map<string, Bucket>)
    ensures AllConsistent(hash, r) && RulesOf(r) == AddToAll(RulesOf(m), entry)
  {
    hide Consistent;
    r := map[];
    var rest := m.Keys;
    while rest != {}
      invariant rest <= m.Keys && r.Keys == m.Keys - rest
      invariant AllConsistent(hash, r)
      invariant forall n :: n in r ==> r[n].rules == m[n].rules[entry.id := entry]
      decreases rest
    {
      var n :| n in rest;
      var b := StoreAndReload(hash, m[n], entry);
      r := r[n := b];
      rest := rest - {n};
    }
    assert r.Keys == m.Keys;
  }

  method DeleteFrom(hash: string -> string, m: map<string, Bucket>, id: string) returns (r: map<string, Bucket>)
    ensures AllConsistent(hash, r) && RulesOf(r) == RemoveFromAll(RulesOf(m), id)
  {
    hide Consistent;
    r := map[];
    var rest := m.Keys;
    while rest != {}
      invariant rest <= m.Keys && r.Keys == m.Keys - rest
      invariant AllConsistent(hash, r)
      invariant forall n :: n in r ==> r[n].rules == m[n].rules - {id}
      decreases rest
    {
      var n :| n in rest;
      var b := DeleteAndReload(hash, m[n], id);
      r := r[n := b];
      rest := rest - {n};
    }
    assert r.Keys == m.Keys;
  }

  // ---------------------------------------------------------------- one step of the loops

  method StoreNamespaceBucket(hash: string -> string, all: RuleMap, ns: map<string, Bucket>, n: string, entry: Rule)
    returns (r: map<string, Bucket>)
    requires AllConsistent(hash, ns)
    ensures AllConsistent(hash, r)
    ensures RulesOf(r) == RulesOf(ns)[n := (if n in RulesOf(ns) then RulesOf(ns)[n] else all)[entry.id := entry]]
  {
    hide Consistent;
    var b := if n in ns then ns[n] else Bucket(all, "");
    b := StoreAndReload(hash, b, entry);
    r := ns[n := b];
  }

  method StoreServiceBucket(hash: string -> string, all: RuleMap, ns: map<string, RuleMap>,
                            cb: map<string, map<string, Bucket>>, k: ServiceKey, entry: Rule)
    returns (r: map<string, map<string, Bucket>>)
    requires ServicesConsistent(hash, cb)
    ensures ServicesConsistent(hash, r)
    ensures Flatten(r) == Flatten(cb)[k :=
              (if k in Flatten(cb) then Flatten(cb)[k] else SeedService(all, ns, k))[entry.id := entry]]
  {
    hide Consistent, SeedService, Flatten, ServicesConsistent, PutService;
    assert k in Flatten(cb) <==> HasService(cb, k);
    var b := if HasService(cb, k) then cb[k.namespace][k.name] else Bucket(SeedService(all, ns, k), "");
    b := StoreAndReload(hash, b, entry);
    r := PutService(cb, k, b);
    FlattenPut(cb, k, b);
    PutConsistent(hash, cb, k, b);
  }

  lemma PutConsistent(hash: string -> string, cb: map<string, map<string, Bucket>>, k: ServiceKey, b: Bucket)
    requires ServicesConsistent(hash, cb) && Consistent(hash, b)
    ensures ServicesConsistent(hash, PutService(cb, k, b))
  {
    hide Consistent;
  }

  method DeleteNamespaceBucket(hash: string -> string, ns: map<string, Bucket>, n: string, id: string)
    returns (r: map<string, Bucket>)
    requires AllConsistent(hash, ns)
    ensures AllConsistent(hash, r)
    ensures RulesOf(r) == if n in RulesOf(ns) then RulesOf(ns)[n := RulesOf(ns)[n] - {id}] else RulesOf(ns)
  {
    hide Consistent;
    r := ns;
    if n in ns {
      var b := DeleteAndReload(hash, ns[n], id);
      r := ns[n := b];
    }
  }

  method DeleteServiceBucket(hash: string -> string, cb: map<string, map<string, Bucket>>, k: ServiceKey, id: string)
    returns (r: map<string, map<string, Bucket>>)
    requires ServicesConsistent(hash, cb)
    ensures ServicesConsistent(hash, r)
    ensures Flatten(r) == if k in Flatten(cb) then Flatten(cb)[k := Flatten(cb)[k] - {id}] else Flatten(cb)
  {
    hide Consistent;
    assert k in Flatten(cb) <==> HasService(cb, k);
    r := cb;
    if HasService(cb, k) {
      var b := DeleteAndReload(hash, cb[k.namespace][k.name], id);
      r := PutService(cb, k, b);
      FlattenPut(cb, k, b);
    }
  }

  /** Every service bucket: the two nested loops of the all-wildcard case. */
  method StoreIntoServices(hash: string -> string, cb: map<string, map<string, Bucket>>, entry: Rule)
    returns (r: map<string, map<string, Bucket>>)
    ensures ServicesConsistent(hash, r) && Flatten(r) == AddToAll(Flatten(cb), entry)
  {
    hide Consistent;
    r := map[];
    var rest := cb.Keys;
    while rest != {}
      invariant rest <= cb.Keys && r.Keys == cb.Keys - rest
      invariant ServicesConsistent(hash, r)
      invariant forall n :: n in r ==> RulesOf(r[n]) == AddToAll(RulesOf(cb[n]), entry)
      decreases rest
    {
      var n :| n in rest;
      var stored := StoreInto(hash, cb[n], entry);
      r := r[n := stored];
      rest := rest - {n};
    }
    FlattenStored(cb, entry, r);
  }

  method DeleteFromServices(hash: string -> string, cb: map<string, map<string, Bucket>>, id: string)
    returns (r: map<string, map<string, Bucket>>)
    ensures ServicesConsistent(hash, r) && Flatten(r) == RemoveFromAll(Flatten(cb), id)
  {
    hide Consistent;
    r := map[];
    var rest := cb.Keys;
    while rest != {}
      invariant rest <= cb.Keys && r.Keys == cb.Keys - rest
      invariant ServicesConsistent(hash, r)
      invariant forall n :: n in r ==> RulesOf(r[n]) == RemoveFromAll(RulesOf(cb[n]), id)
      decreases rest
    {
      var n :| n in rest;
      var stored := DeleteFrom(hash, cb[n], id);
      r := r[n := stored];
      rest := rest - {n};
    }
    FlattenDeleted(cb, id, r);
  }

  lemma FlattenStored(cb: map<string, map<string, Bucket>>, entry: Rule, r: map<string, map<string, Bucket>>)
    requires r.Keys == cb.Keys && forall n :: n in cb ==> RulesOf(r[n]) == AddToAll(RulesOf(cb[n]), entry)
    ensures Flatten(r) == AddToAll(Flatten(cb), entry)
  {
    forall k ensures HasService(r, k) <==> HasService(cb, k) {
      if k.namespace in cb {
        assert k.name in RulesOf(r[k.namespace]) <==> k.name in RulesOf(cb[k.namespace]);
      }
    }
    forall k | k in Flatten(cb) ensures Flatten(r)[k] == Flatten(cb)[k][entry.id := entry] {
      assert Flatten(r)[k] == RulesOf(r[k.namespace])[k.name];
    }
  }

  lemma FlattenDeleted(cb: map<string, map<string, Bucket>>, id: string, r: map<string, map<string, Bucket>>)
    requires r.Keys == cb.Keys && forall n :: n in cb ==> RulesOf(r[n]) == RemoveFromAll(RulesOf(cb[n]), id)
    ensures Flatten(r) == RemoveFromAll(Flatten(cb), id)
  {
    forall k ensures HasService(r, k) <==> HasService(cb, k) {
      if k.namespace in cb {
        assert k.name in RulesOf(r[k.namespace]) <==> k.name in RulesOf(cb[k.namespace]);
      }
    }
    forall k | k in Flatten(cb) ensures Flatten(r)[k] == Flatten(cb)[k] - {id} {
      assert Flatten(r)[k] == RulesOf(r[k.namespace])[k.name];
    }
  }

  lemma WildNamespacesStep(done: set<ServiceKey>, k: ServiceKey)
    ensures WildNamespaces(done + {k}) ==
            if k.name == ALL_MATCHED then WildNamespaces(done) + {k.namespace} else WildNamespaces(done)
    ensures k !in done && k.name == ALL_MATCHED ==> k.namespace !in WildNamespaces(done)
  {
  }

  lemma StoredNsStep(t: Tiers, r: Rule, done: set<ServiceKey>, k: ServiceKey)
    requires k !in done
    ensures var ns := StoredNs(t, r, done);
            StoredNs(t, r, done + {k}) ==
            if k.name != ALL_MATCHED then ns
            else ns[k.namespace := (if k.namespace in ns then ns[k.namespace] else t.all)[r.id := r]]
  {
    WildNamespacesStep(done, k);
  }

  lemma DeletedNsStep(t: Tiers, id: string, done: set<ServiceKey>, k: ServiceKey)
    requires k !in done
    ensures var ns := DeletedNs(t, id, done);
            DeletedNs(t, id, done + {k}) ==
            if k.name == ALL_MATCHED && k.namespace in ns then ns[k.namespace := ns[k.namespace] - {id}] else ns
  {
  }

  lemma ReloadsStep(cb: map<string, map<string, Bucket>>, done: set<ServiceKey>, k: ServiceKey)
    ensures Reloads(ServiceKeys(cb), done + {k}) == Reloads(ServiceKeys(cb), done) +
            if k.name != ALL_MATCHED then {k}
            else if k.namespace in cb then set s | s in cb[k.namespace] :: ServiceKey(k.namespace, s) else {}
  {
  }

  lemma StoredSvcStep(t: Tiers, r: Rule, ns: map<string, RuleMap>, done: set<ServiceKey>, k: ServiceKey)
    requires k !in done
    ensures var svc := StoredSvc(t, r, ns, done);
            StoredSvc(t, r, ns, done + {k}) ==
            svc[k := (if k in svc then svc[k] else SeedService(t.all, ns, k))[r.id := r]]
  {
  }

  lemma DeletedSvcStep(t: Tiers, id: string, done: set<ServiceKey>, k: ServiceKey)
    requires k !in done
    ensures var svc := DeletedSvc(t, id, done);
            DeletedSvc(t, id, done + {k}) == if k in svc then svc[k := svc[k] - {id}] else svc
  {
  }

  // ---------------------------------------------------------------- the cache

  class CircuitBreakerCache {
    const hash: string -> string
    var allWildcardRules: Bucket
    var nsWildcardRules: map<string, Bucket>
    var circuitBreakers: map<string, map<string, Bucket>>

    /** Every bucket's Revision is "" when it is empty and else the digest of its sorted revisions. */
    ghost predicate Valid()
      reads this
    {
      && Consistent(hash, allWildcardRules)
      && AllConsistent(hash, nsWildcardRules)
      && ServicesConsistent(hash, circuitBreakers)
    }

    ghost function View(): Tiers
      reads this
    {
      Tiers(allWildcardRules.rules, RulesOf(nsWildcardRules), Flatten(circuitBreakers))
    }

    constructor (hash: string -> string)
      ensures Valid() && View() == EmptyTiers && this.hash == hash
    {
      this.hash := hash;
      allWildcardRules := Bucket(map[], "");
      nsWildcardRules := map[];
      circuitBreakers := map[];
    }

    method Clear()
      modifies this
      ensures Valid() && View() == EmptyTiers
    {
      allWildcardRules := Bucket(map[], "");
      nsWildcardRules := map[];
      circuitBreakers := map[];
    }

    method CheckServiceSpecific(name: string, namespace: string) returns (b: Option<Bucket>)
      requires Valid()
      ensures b.Some? <==> ServiceKey(namespace, name) in View().svc
      ensures b.Some? ==> b.value.rules == View().svc[ServiceKey(namespace, name)] && Consistent(hash, b.value)
    {
      hide Consistent;
      ghost var k := ServiceKey(namespace, name);
      assert k in Flatten(circuitBreakers) <==> HasService(circuitBreakers, k);
      if namespace in circuitBreakers && name in circuitBreakers[namespace] {
        return Some(circuitBreakers[namespace][name]);
      }
      return None;
    }

    method CheckNamespaceSpecific(namespace: string) returns (b: Option<Bucket>)
      requires Valid()
      ensures b.Some? <==> namespace in View().ns
      ensures b.Some? ==> b.value.rules == View().ns[namespace] && Consistent(hash, b.value)
    {
      hide Consistent;
      if namespace in nsWildcardRules {
        return Some(nsWildcardRules[namespace]);
      }
      return None;
    }

    /** Falls through the three tiers. */
    method GetCircuitBreakerConfig(name: string, namespace: string) returns (b: Bucket)
      requires Valid()
      ensures b.rules == Lookup(View(), ServiceKey(namespace, name))
      ensures Consistent(hash, b)
    {
      hide Consistent;
      var specific := CheckServiceSpecific(name, namespace);
      if specific.Some? {
        return specific.value;
      }
      var wide := CheckNamespaceSpecific(namespace);
      if wide.Some? {
        return wide.value;
      }
      return allWildcardRules;
    }

    /** The namespace buckets of `svcKeys`, created and seeded where missing; returns the
        service buckets left to reload. */
    method StoreNamespaces(entry: Rule, svcKeys: set<ServiceKey>) returns (svcToReloads: set<ServiceKey>)
      requires Valid()
      modifies this`nsWildcardRules
      ensures Valid() && RulesOf(nsWildcardRules) == StoredNs(old(View()), entry, svcKeys)
      ensures svcToReloads == Reloads(ServiceKeys(circuitBreakers), svcKeys)
    {
      hide Consistent, StoredNs, Reloads, Flatten, ServiceKeys;
      svcToReloads := {};
      var rest := svcKeys;
      ghost var t, done := View(), {};
      assert RulesOf(nsWildcardRules) == StoredNs(t, entry, {}) && Reloads(ServiceKeys(circuitBreakers), {}) == {} by {
        NothingDone(t, entry, "", t.ns);
      }
      while rest != {}
        invariant rest !! done && rest + done == svcKeys && Valid()
        invariant RulesOf(nsWildcardRules) == StoredNs(t, entry, done)
        invariant svcToReloads == Reloads(ServiceKeys(circuitBreakers), done)
        decreases rest
      {
        var k :| k in rest;
        StoredNsStep(t, entry, done, k);
        ReloadsStep(circuitBreakers, done, k);
        if k.name == ALL_MATCHED {
          nsWildcardRules := StoreNamespaceBucket(hash, allWildcardRules.rules, nsWildcardRules, k.namespace, entry);
          if k.namespace in circuitBreakers {
            svcToReloads := svcToReloads + set s | s in circuitBreakers[k.namespace] :: ServiceKey(k.namespace, s);
          }
        } else {
          svcToReloads := svcToReloads + {k};
        }
        rest, done := rest - {k}, done + {k};
      }
      assert done == svcKeys;
    }

    /** The service buckets to reload, created and seeded where missing. */
    method StoreServices(entry: Rule, svcToReloads: set<ServiceKey>)
      requires Valid()
      modifies this`circuitBreakers
      ensures Valid()
      ensures Flatten(circuitBreakers) == StoredSvc(old(View()), entry, RulesOf(nsWildcardRules), svcToReloads)
    {
      hide Consistent, StoredSvc, SeedService, Flatten, ServiceKeys, RulesOf;
      var rest := svcToReloads;
      ghost var t, ns, done := View(), RulesOf(nsWildcardRules), {};
      assert Flatten(circuitBreakers) == StoredSvc(t, entry, ns, {}) by { NothingDone(t, entry, "", ns); }
      while rest != {}
        invariant rest !! done && rest + done == svcToReloads && Valid()
        invariant Flatten(circuitBreakers) == StoredSvc(t, entry, ns, done)
        decreases rest
      {
        var k :| k in rest;
        StoredSvcStep(t, entry, ns, done, k);
        circuitBreakers := StoreServiceBucket(hash, allWildcardRules.rules, RulesOf(nsWildcardRules),
                                              circuitBreakers, k, entry);
        rest, done := rest - {k}, done + {k};
      }
      assert done == svcToReloads;
    }

    /** `storeCircuitBreakerToServiceCache`: exactly the step `Store` of the index. */
    method StoreToServiceCache(entry: Rule, svcKeys: set<ServiceKey>)
      requires Valid()
      modifies this
      ensures Valid() && View() == Store(old(View()), entry, svcKeys)
    {
      hide Consistent, StoredNs, StoredSvc, Reloads, RulesOf;
      if svcKeys == {} {
        allWildcardRules := StoreAndReload(hash, allWildcardRules, entry);
        nsWildcardRules := StoreInto(hash, nsWildcardRules, entry);
        circuitBreakers := StoreIntoServices(hash, circuitBreakers, entry);
      } else {
        ghost var t := View();
        var svcToReloads := StoreNamespaces(entry, svcKeys);
        ghost var ns := RulesOf(nsWildcardRules);
        StoreServices(entry, svcToReloads);
        assert StoredSvc(t.(ns := ns), entry, ns, svcToReloads) == StoredSvc(t, entry, ns, svcToReloads) by {
          StoredSvcFrame(t, entry, ns, svcToReloads);
        }
      }
    }

    // -------------------------------------------------------------- deleting

    method DeleteNamespaces(id: string, svcKeys: set<ServiceKey>) returns (svcToReloads: set<ServiceKey>)
      requires Valid()
      modifies this`nsWildcardRules
      ensures Valid() && RulesOf(nsWildcardRules) == DeletedNs(old(View()), id, svcKeys)
      ensures svcToReloads == Reloads(ServiceKeys(circuitBreakers), svcKeys)
    {
      hide Consistent, DeletedNs, Reloads, Flatten, ServiceKeys;
      svcToReloads := {};
      var rest := svcKeys;
      ghost var t, done := View(), {};
      assert RulesOf(nsWildcardRules) == DeletedNs(t, id, {}) && Reloads(ServiceKeys(circuitBreakers), {}) == {} by {
        NothingDone(t, Rule("", "", "", "", true, 0), id, t.ns);
      }
      while rest != {}
        invariant rest !! done && rest + done == svcKeys && Valid()
        invariant RulesOf(nsWildcardRules) == DeletedNs(t, id, done)
        invariant svcToReloads == Reloads(ServiceKeys(circuitBreakers), done)
        decreases rest
      {
        var k :| k in rest;
        DeletedNsStep(t, id, done, k);
        ReloadsStep(circuitBreakers, done, k);
        if k.name == ALL_MATCHED {
          nsWildcardRules := DeleteNamespaceBucket(hash, nsWildcardRules, k.namespace, id);
          if k.namespace in circuitBreakers {
            svcToReloads := svcToReloads + set s | s in circuitBreakers[k.namespace] :: ServiceKey(k.namespace, s);
          }
        } else {
          svcToReloads := svcToReloads + {k};
        }
        rest, done := rest - {k}, done + {k};
      }
      assert done == svcKeys;
    }

    method DeleteServices(id: string, svcToReloads: set<ServiceKey>)
      requires Valid()
      modifies this`circuitBreakers
      ensures Valid() && Flatten(circuitBreakers) == DeletedSvc(old(View()), id, svcToReloads)
    {
      hide Consistent, DeletedSvc, Flatten, ServiceKeys, RulesOf;
      var rest := svcToReloads;
      ghost var t, done := View(), {};
      assert Flatten(circuitBreakers) == DeletedSvc(t, id, {}) by {
        NothingDone(t, Rule("", "", "", "", true, 0), id, t.ns);
      }
      while rest != {}
        invariant rest !! done && rest + done == svcToReloads && Valid()
        invariant Flatten(circuitBreakers) == DeletedSvc(t, id, done)
        decreases rest
      {
        var k :| k in rest;
        DeletedSvcStep(t, id, done, k);
        circuitBreakers := DeleteServiceBucket(hash, circuitBreakers, k, id);
        rest, done := rest - {k}, done + {k};
      }
      assert done == svcToReloads;
    }

    /** `deleteCircuitBreakerFromServiceCache`: exactly the step `Delete` of the index. */
    method DeleteFromServiceCache(id: string, svcKeys: set<ServiceKey>)
      requires Valid()
      modifies this
      ensures Valid() && View() == Delete(old(View()), id, svcKeys)
    {
      hide Consistent, DeletedNs, DeletedSvc, Reloads, RulesOf;
      if svcKeys == {} {
        allWildcardRules := DeleteAndReload(hash, allWildcardRules, id);
        nsWildcardRules := DeleteFrom(hash, nsWildcardRules, id);
        circuitBreakers := DeleteFromServices(hash, circuitBreakers, id);
      } else {
        ghost var t := View();
        var svcToReloads := DeleteNamespaces(id, svcKeys);
        ghost var ns := RulesOf(nsWildcardRules);
        DeleteServices(id, svcToReloads);
        assert DeletedSvc(t.(ns := ns), id, svcToReloads) == DeletedSvc(t, id, svcToReloads) by {
          DeletedSvcFrame(t, id, ns, svcToReloads);
        }
      }
    }

    // -------------------------------------------------------------- a fetched batch

    /** One round of the loop of `setCircuitBreaker`. */
    method Apply(r: Rule)
      requires Valid()
      modifies this
      ensures Valid() && View() == Deliver(old(View()), r)
    {
      hide Consistent, Store, Delete, RulesOf, Flatten, ServicesInvolved;
      if r.valid {
        StoreToServiceCache(r, ServicesInvolved(r));
      } else {
        DeleteFromServiceCache(r.id, ServicesInvolved(r));
      }
    }

    /** `setCircuitBreaker`: the records are applied one by one, in the order of the slice. */
    method SetCircuitBreaker(cbRules: seq<Rule>, lastMtime: int) returns (mtime: int)
      requires Valid()
      modifies this
      ensures Valid() && View() == DeliverAll(old(View()), cbRules)
      ensures Latest(cbRules, lastMtime, mtime)
    {
      hide *;
      mtime := lastMtime;
      ghost var t := View();
      NothingDelivered(t, lastMtime);
      assert cbRules[..0] == [];
      for i := 0 to |cbRules|
        invariant Valid() && View() == DeliverAll(t, cbRules[..i])
        invariant Latest(cbRules[..i], lastMtime, mtime)
      {
        var r := cbRules[i];
        assert cbRules[..i + 1] == cbRules[..i] + [r];
        DeliverAllSnoc(t, cbRules[..i], r);
        LatestSnoc(cbRules[..i], r, lastMtime, mtime);
        if r.modifyTime > mtime {
          mtime := r.modifyTime;
        }
        Apply(r);
      }
      assert cbRules[..|cbRules|] == cbRules;
    }
  }

  /** The latest modify time of a batch, or the one before it. */
  ghost predicate Latest(batch: seq<Rule>, lastMtime: int, mtime: int) {
    && mtime >= lastMtime
    && (forall i :: 0 <= i < |batch| ==> mtime >= batch[i].modifyTime)
    && (mtime == lastMtime || exists i :: 0 <= i < |batch| && mtime == batch[i].modifyTime)
  }

  lemma NothingDelivered(t: Tiers, lastMtime: int)
    ensures DeliverAll(t, []) == t && Latest([], lastMtime, lastMtime)
  {
  }

  lemma LatestSnoc(batch: seq<Rule>, r: Rule, lastMtime: int, mtime: int)
    requires Latest(batch, lastMtime, mtime)
    ensures Latest(batch + [r], lastMtime, if r.modifyTime > mtime then r.modifyTime else mtime)
  {
    var more := batch + [r];
    assert more[|batch|] == r;
    assert forall i :: 0 <= i < |batch| ==> more[i] == batch[i];
    if mtime != lastMtime {
      var i :| 0 <= i < |batch| && mtime == batch[i].modifyTime;
      assert more[i].modifyTime == mtime;
    }
  }

  function DeliverAll(t: Tiers, batch: seq<Rule>): Tiers
    decreases |batch|
  {
    if batch == [] then t else DeliverAll(Deliver(t, batch[0]), batch[1..])
  }

  lemma {:induction false} DeliverAllSnoc(t: Tiers, batch: seq<Rule>, r: Rule)
    ensures DeliverAll(t, batch + [r]) == Deliver(DeliverAll(t, batch), r)
    decreases |batch|
  {
    hide Deliver;
    if batch == [] {
      assert [] + [r] == [r];
    } else {
      assert (batch + [r])[1..] == batch[1..] + [r];
      DeliverAllSnoc(Deliver(t, batch[0]), batch[1..], r);
    }
  }

  ghost predicate CoversAll(live: RuleMap, batch: seq<Rule>)
    decreases |batch|
  {
    batch == [] || (CoversLive(live, batch[0]) && CoversAll(LiveAfter(live, batch[0]), batch[1..]))
  }

  lemma {:induction false} BatchKeepsInv(t: Tiers, live: RuleMap, batch: seq<Rule>)
    requires Inv(t, live) && CoversAll(live, batch)
    ensures Inv(DeliverAll(t, batch), LiveAfterAll(live, batch))
    decreases |batch|
  {
    hide Inv, Deliver;
    if batch != [] {
      DeliverKeepsInv(t, live, batch[0]);
      BatchKeepsInv(Deliver(t, batch[0]), LiveAfter(live, batch[0]), batch[1..]);
    }
  }

  /** What a client sees of a fetched batch, rules and Revision alike, does not depend on the
      order in which the store returned its rows. */
  lemma ObservablyOrderFree(hash: string -> string, t: Tiers, live: RuleMap, a: seq<Rule>, b: seq<Rule>, k: ServiceKey)
    requires Inv(t, live) && CoversAll(live, a) && CoversAll(live, b)
    requires DistinctIds(a) && DistinctIds(b) && multiset(a) == multiset(b)
    ensures Lookup(DeliverAll(t, a), k) == Lookup(DeliverAll(t, b), k) == Matching(LiveAfterAll(live, a), k)
    ensures RevisionOf(hash, Lookup(DeliverAll(t, a), k)) == RevisionOf(hash, Lookup(DeliverAll(t, b), k))
  {
    hide Inv, Deliver, RevisionOf;
    BatchKeepsInv(t, live, a);
    BatchKeepsInv(t, live, b);
    OrderIrrelevant(live, a, b);
    InvIsExact(DeliverAll(t, a), LiveAfterAll(live, a));
    InvIsExact(DeliverAll(t, b), LiveAfterAll(live, b));
  }

  lemma StoredSvcFrame(t: Tiers, r: Rule, ns: map<string, RuleMap>, reloads: set<ServiceKey>)
    ensures StoredSvc(t.(ns := ns), r, ns, reloads) == StoredSvc(t, r, ns, reloads)
  {
  }

  lemma DeletedSvcFrame(t: Tiers, id: string, ns: map<string, RuleMap>, reloads: set<ServiceKey>)
    ensures DeletedSvc(t.(ns := ns), id, reloads) == DeletedSvc(t, id, reloads)
  {
  }

  lemma NothingDone(t: Tiers, r: Rule, id: string, ns: map<string, RuleMap>)
    ensures StoredNs(t, r, {}) == t.ns && DeletedNs(t, id, {}) == t.ns
    ensures StoredSvc(t, r, ns, {}) == t.svc && DeletedSvc(t, id, {}) == t.svc
    ensures Reloads(t.svc.Keys, {}) == {}
  {
  }
}
