/**
 The loops of the service cache (cache/service.go) run without interference: `setServices`
 is a run of the machine in `ServiceCounts`, and its nested recount computes the sums that
 define a namespace's counts.
 */
module ServiceCache {
  import opened ServiceCounts

  /** One fetched row: the service and whether it is still valid. */
  datatype Row = Row(service: Service, valid: bool)

  function ApplyRow(s: State, r: Row): (s': State)
    requires s.updater.Applying?
    ensures s'.updater.Applying?
  {
    if r.valid then Save(s, r.service) else Remove(s, r.service)
  }

  function ApplyRows(s: State, rows: seq<Row>): (s': State)
    requires s.updater.Applying?
    ensures s'.updater.Applying?
  {
    if rows == [] then s else ApplyRow(ApplyRows(s, rows[..|rows| - 1]), rows[|rows| - 1])
  }

  class Cache {
    var ids: map<string, Service>
    var names: map<string, map<string, Service>>
    var pendingServices: set<string>
    var namespaceServiceCnt: map<string, NamespaceCount>

    ghost function View(instances: map<string, InstanceCount>, affect: set<string>): State
      reads this
    {
      State(ids, names, pendingServices, namespaceServiceCnt, instances, {}, Applying(affect), map[])
    }

    constructor ()
      ensures ids == map[] && names == map[] && pendingServices == {} && namespaceServiceCnt == map[]
    {
      ids, names, pendingServices, namespaceServiceCnt := map[], map[], {}, map[];
    }

    /** `notifyServiceCountReload`. */
    method NotifyServiceCountReload(svcIds: set<string>)
      modifies this`pendingServices
      ensures pendingServices == old(pendingServices) + svcIds
    {
      pendingServices := pendingServices + svcIds;
    }

    /** The body of the loop in `setServices`, with `removeServices`. */
    method ApplyService(r: Row, changeNs: set<string>, ghost instances: map<string, InstanceCount>)
      returns (affect: set<string>)
      modifies this
      ensures View(instances, affect) == ApplyRow(old(View(instances, changeNs)), r)
    {
      var v := r.service;
      affect := changeNs + {v.namespace};
      if !r.valid {
        ids := ids - {v.id};
        pendingServices := pendingServices - {v.id};
        if v.namespace in names {
          names := names[v.namespace := names[v.namespace] - {v.name}];
        }
        return;
      }
      ids := ids[v.id := v];
      if v.namespace !in names {
        names := names[v.namespace := map[]];
      }
      names := names[v.namespace := names[v.namespace][v.name := v]];
    }

    /** `appendServiceCountChangeNamespace`: takes the pending services that are known and
        leaves the others waiting. */
    method AppendServiceCountChangeNamespace(changeNs: set<string>, ghost instances: map<string, InstanceCount>)
      returns (affect: set<string>)
      modifies this`pendingServices
      ensures var taken := Take(old(View(instances, changeNs)));
              affect == taken.updater.affect && pendingServices == taken.pending
    {
      affect := changeNs;
      var waitDel: set<string> := {};
      var rest := pendingServices;
      while rest != {}
        invariant rest <= pendingServices
        invariant waitDel == set id | id in pendingServices - rest && id in ids
        invariant affect == changeNs + set id | id in waitDel :: ids[id].namespace
        decreases rest
      {
        var id :| id in rest;
        rest := rest - {id};
        if id in ids {
          affect := affect + {ids[id].namespace};
          waitDel := waitDel + {id};
        }
      }
      assert waitDel == set id | id in pendingServices && id in ids;
      pendingServices := pendingServices - waitDel;
    }

    /** One namespace of `postProcessUpdatedServices`. */
    method Recount(namespace: string, instances: map<string, InstanceCount>)
      modifies this`namespaceServiceCnt
      ensures namespace !in names ==> namespaceServiceCnt == old(namespaceServiceCnt) - {namespace}
      ensures namespace in names ==>
                namespaceServiceCnt == old(namespaceServiceCnt)[namespace := FreshCount(names, instances, namespace)]
    {
      hide Tally, SpaceCounts;
      if namespace !in names {
        namespaceServiceCnt := namespaceServiceCnt - {namespace};
        return;
      }
      var count := CountSpace(names[namespace], instances);
      namespaceServiceCnt := namespaceServiceCnt[namespace := count];
    }

    method PostProcessUpdatedServices(affect: set<string>, instances: map<string, InstanceCount>)
      modifies this`namespaceServiceCnt
      ensures RecountedFor(old(namespaceServiceCnt), namespaceServiceCnt, names, affect, instances)
    {
      hide FreshCount;
      var rest := affect;
      while rest != {}
        invariant rest <= affect
        invariant RecountedFor(old(namespaceServiceCnt), namespaceServiceCnt, names, affect - rest, instances)
        decreases rest
      {
        var n :| n in rest;
        Recount(n, instances);
        assert affect - (rest - {n}) == (affect - rest) + {n};
        rest := rest - {n};
      }
      assert affect - {} == affect;
    }

    /** `setServices` for a batch nobody interferes with. An empty batch leaves even the
        pending services waiting; any other settles the counts of every namespace it touched. */
    method SetServices(services: seq<Row>, instances: map<string, InstanceCount>)
      modifies this
      ensures services == [] ==> unchanged(this)
      ensures services != [] ==>
                var applied := ApplyRows(old(View(instances, {})), services);
                var taken := Take(applied);
                && ids == applied.ids && names == applied.names && pendingServices == taken.pending
                && RecountedFor(old(namespaceServiceCnt), namespaceServiceCnt, names, taken.updater.affect, instances)
    {
      if services == [] { return; }
      var changeNs: set<string> := {};
      for i := 0 to |services|
        invariant View(instances, changeNs) == ApplyRows(old(View(instances, {})), services[..i])
        invariant namespaceServiceCnt == old(namespaceServiceCnt)
      {
        assert services[..i + 1][..i] == services[..i];
        changeNs := ApplyService(services[i], changeNs, instances);
      }
      assert services[..|services|] == services;
      var affect := AppendServiceCountChangeNamespace(changeNs, instances);
      PostProcessUpdatedServices(affect, instances);
    }
  }

  function SpaceCounts(space: map<string, Service>, instances: map<string, InstanceCount>): map<string, InstanceCount> {
    map name | name in space :: CountIn(instances, space[name].id)
  }

  /** Adds up one namespace, service by service in any order. */
  method CountSpace(space: map<string, Service>, instances: map<string, InstanceCount>) returns (count: NamespaceCount)
    ensures count == Tally(SpaceCounts(space, instances))
  {
    hide Tally, CountIn;
    TallyEmpty();
    count := NamespaceCount(0, 0, 0);
    var rest := space.Keys;
    ghost var counts, seen: map<string, InstanceCount> := SpaceCounts(space, instances), map[];
    while rest != {}
      invariant rest <= space.Keys && seen.Keys == space.Keys - rest
      invariant forall name :: name in seen ==> seen[name] == counts[name]
      invariant count == Tally(seen)
      decreases rest
    {
      var name :| name in rest;
      var c := CountIn(instances, space[name].id);
      TallyInsert(seen, name, c);
      count := NamespaceCount(count.services + 1, count.total + c.total, count.healthy + c.healthy);
      seen := seen[name := c];
      rest := rest - {name};
    }
    assert seen == counts;
  }

  /** The counts one would write down for a namespace, from scratch. */
  ghost function FreshCount(names: map<string, map<string, Service>>, instances: map<string, InstanceCount>, n: string)
    : NamespaceCount
    requires n in names
  {
    Tally(SpaceCounts(names[n], instances))
  }

  ghost predicate RecountedFor(before: map<string, NamespaceCount>, after: map<string, NamespaceCount>,
                               names: map<string, map<string, Service>>, affect: set<string>,
                               instances: map<string, InstanceCount>)
  {
    && (forall n :: n in affect && n in names ==> n in after && after[n] == FreshCount(names, instances, n))
    && (forall n :: n in affect && n !in names ==> n !in after)
    && (forall n :: n !in affect ==> (n in after <==> n in before) && (n in before ==> after[n] == before[n]))
  }

  /** A settled namespace is exact in the sense of the machine. */
  lemma RecountedIsExact(s: State, before: map<string, NamespaceCount>, affect: set<string>, n: string)
    requires RecountedFor(before, s.counts, s.names, affect, s.instanceCounts) && n in affect && n in s.names
    ensures Exact(s, n)
  {
    assert CurrentCounts(s, n) == SpaceCounts(s.names[n], s.instanceCounts);
  }
}
