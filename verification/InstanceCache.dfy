/**
 The instance cache (cache/instance.go): instances by id, grouped by service, with counts
 per service and in total, all maintained item by item.
 */
module InstanceCache {
  import opened Folds

  datatype Instance = Instance(id: string, serviceId: string, healthy: bool, isolate: bool, valid: bool, mtime: int)

  type Instances = map<string, Instance>

  datatype Count = Count(total: nat, healthy: int, isolated: int)

  datatype State = State(ids: Instances, services: map<string, Instances>,
                         counts: map<string, Count>, instanceCount: int)

  const Empty := State(map[], map[], map[], 0)

  predicate IsHealthy(i: Instance) { i.healthy && !i.isolate }

  function HealthyBit(i: Instance): int { if IsHealthy(i) then 1 else 0 }

  function IsolatedBit(i: Instance): int { if i.isolate then 1 else 0 }

  function ServiceOf(i: Instance): string { i.serviceId }

  function TotalOf(c: Count): int { c.total }

  /** The reference definition of a service's counts. */
  ghost function CountAll(m: Instances): Count {
    Count(|m|, Sum(m, HealthyBit), Sum(m, IsolatedBit))
  }

  // ---------------------------------------------------------------- one item, one recount

  function ApplyItem(s: State, item: Instance): State {
    var known := item.id in s.ids;
    var group := if item.serviceId in s.services then s.services[item.serviceId] else map[];
    if !item.valid then
      s.(ids := s.ids - {item.id},
         instanceCount := if known then s.instanceCount - 1 else s.instanceCount,
         services := if item.serviceId in s.services then s.services[item.serviceId := group - {item.id}]
                     else s.services)
    else
      s.(ids := s.ids[item.id := item],
         instanceCount := if known then s.instanceCount else s.instanceCount + 1,
         services := s.services[item.serviceId := group[item.id := item]])
  }

  /** The count entries after recounting the services in `done`. */
  ghost function Recounted(s: State, done: set<string>): map<string, Count> {
    map svc | svc in s.counts.Keys + s.services.Keys && HasEntry(s, done, svc) ::
      if svc in done then CountAll(s.services[svc]) else s.counts[svc]
  }

  predicate HasEntry(s: State, done: set<string>, svc: string) {
    if svc in done then svc in s.services && s.services[svc] != map[] else svc in s.counts
  }

  function ApplyItems(s: State, items: seq<Instance>): State {
    if items == [] then s else ApplyItem(ApplyItems(s, items[..|items| - 1]), items[|items| - 1])
  }

  function Affected(items: seq<Instance>): set<string> {
    set i | 0 <= i < |items| :: items[i].serviceId
  }

  /** One fetched batch, as `setInstances` handles it. */
  ghost function ApplyBatch(s: State, items: seq<Instance>): State {
    var applied := ApplyItems(s, items);
    applied.(counts := Recounted(applied, Affected(items)))
  }

  // ---------------------------------------------------------------- conservation

  /** `services` groups exactly `ids`, and the running total is its size. */
  ghost predicate Indexed(s: State) {
    && Partitions(s.services, s.ids, ServiceOf)
    && (forall id :: id in s.ids ==> s.ids[id].id == id)
    && s.instanceCount == |s.ids|
  }

  /** Outside `stale`, a count entry exists exactly for a service with instances, and is exact. */
  ghost predicate CountedExcept(s: State, stale: set<string>) {
    forall svc :: svc !in stale ==>
      if svc in s.services && s.services[svc] != map[]
      then svc in s.counts && s.counts[svc] == CountAll(s.services[svc])
      else svc !in s.counts
  }

  ghost predicate Valid(s: State) {
    Indexed(s) && CountedExcept(s, {})
  }

  /** An instance is delivered under the service it is cached under. */
  predicate KeepsService(s: State, item: Instance) {
    item.id in s.ids ==> s.ids[item.id].serviceId == item.serviceId
  }

  /** The running total follows the number of cached instances whatever is delivered. */
  lemma RunningTotal(s: State, item: Instance)
    requires s.instanceCount == |s.ids|
    ensures ApplyItem(s, item).instanceCount == |ApplyItem(s, item).ids|
  {
  }

  lemma GroupingKept(s: State, item: Instance)
    requires Indexed(s) && KeepsService(s, item)
    ensures Partitions(ApplyItem(s, item).services, ApplyItem(s, item).ids, ServiceOf)
  {
    hide Partitions;
    if item.valid {
      PartitionPut(s.services, s.ids, ServiceOf, item.id, item);
    } else {
      PartitionDrop(s.services, s.ids, ServiceOf, item.id, item.serviceId);
    }
  }

  /** Listed under a service that it does not have. */
  predicate Misfiled(s: State, id: string, svc: string) {
    svc in s.services && id in s.services[svc] && !(id in s.ids && s.ids[id].serviceId == svc)
  }

  lemma MisfiledIsWrong(s: State, id: string, svc: string)
    requires Misfiled(s, id, svc)
    ensures !Indexed(s)
  {
    assert id in s.ids ==> ServiceOf(s.ids[id]) != svc;
  }

  lemma MovedIsMisfiled(s: State, item: Instance)
    requires Indexed(s) && !KeepsService(s, item)
    ensures Misfiled(ApplyItem(s, item), item.id, s.ids[item.id].serviceId)
  {
    var left := s.ids[item.id].serviceId;
    assert ServiceOf(s.ids[item.id]) == left && s.services[left][item.id] == s.ids[item.id];
  }

  /** A delivery keeps the grouping if and only if the instance stays with its service: one
      that moved remains listed under the service it left. */
  lemma GroupingKeptIff(s: State, item: Instance)
    requires Indexed(s)
    ensures Indexed(ApplyItem(s, item)) <==> KeepsService(s, item)
  {
    hide Partitions;
    RunningTotal(s, item);
    if KeepsService(s, item) {
      GroupingKept(s, item);
    } else {
      MovedIsMisfiled(s, item);
      MisfiledIsWrong(ApplyItem(s, item), item.id, s.ids[item.id].serviceId);
    }
  }

  lemma ItemMakesStale(s: State, item: Instance, stale: set<string>)
    requires CountedExcept(s, stale)
    ensures CountedExcept(ApplyItem(s, item), stale + {item.serviceId})
  {
  }

  lemma RecountSettles(s: State, stale: set<string>)
    requires CountedExcept(s, stale)
    ensures CountedExcept(s.(counts := Recounted(s, stale)), {})
  {
  }

  ghost predicate KeepsServices(s: State, items: seq<Instance>) {
    forall i :: 0 <= i < |items| ==> KeepsService(ApplyItems(s, items[..i]), items[i])
  }

  lemma {:induction false} ItemsMakeStale(s: State, items: seq<Instance>)
    requires CountedExcept(s, {})
    ensures CountedExcept(ApplyItems(s, items), Affected(items))
  {
    hide CountedExcept, ApplyItem;
    if items == [] {
      assert Affected(items) == {};
    } else {
      var n := |items| - 1;
      ItemsMakeStale(s, items[..n]);
      ItemMakesStale(ApplyItems(s, items[..n]), items[n], Affected(items[..n]));
      assert Affected(items) == Affected(items[..n]) + {items[n].serviceId};
    }
  }

  lemma {:induction false} ItemsKeepGrouping(s: State, items: seq<Instance>)
    requires Indexed(s) && KeepsServices(s, items)
    ensures Indexed(ApplyItems(s, items))
  {
    hide Indexed, ApplyItem;
    if items != [] {
      var n := |items| - 1;
      forall i | 0 <= i < n ensures KeepsService(ApplyItems(s, items[..n][..i]), items[..n][i]) {
        assert items[..n][..i] == items[..i];
      }
      ItemsKeepGrouping(s, items[..n]);
      GroupingKeptIff(ApplyItems(s, items[..n]), items[n]);
    }
  }

  /** The per-service counts of any batch are exact for the groups as they are listed. */
  lemma BatchCountsExact(s: State, items: seq<Instance>)
    requires CountedExcept(s, {})
    ensures CountedExcept(ApplyBatch(s, items), {})
  {
    hide CountedExcept, ApplyItems;
    ItemsMakeStale(s, items);
    RecountSettles(ApplyItems(s, items), Affected(items));
  }

  lemma BatchKeepsValid(s: State, items: seq<Instance>)
    requires Valid(s) && KeepsServices(s, items)
    ensures Valid(ApplyBatch(s, items))
  {
    hide CountedExcept, ApplyItems, Partitions;
    BatchCountsExact(s, items);
    ItemsKeepGrouping(s, items);
  }

  /** A batch is a map from ids to instances. */
  ghost predicate DistinctIds(items: seq<Instance>) {
    forall i, j :: 0 <= i < j < |items| ==> items[i].id != items[j].id
  }

  lemma {:induction false} MisfiledStays(s: State, items: seq<Instance>, id: string, svc: string)
    requires Misfiled(s, id, svc) && forall i :: 0 <= i < |items| ==> items[i].id != id
    ensures Misfiled(ApplyItems(s, items), id, svc)
  {
    if items != [] { MisfiledStays(s, items[..|items| - 1], id, svc); }
  }

  lemma {:induction false} ItemsSplit(s: State, items: seq<Instance>, k: nat)
    requires k <= |items|
    ensures ApplyItems(s, items) == ApplyItems(ApplyItems(s, items[..k]), items[k..])
  {
    hide ApplyItem;
    if k == |items| {
      assert items[..k] == items && items[k..] == [];
    } else {
      var n := |items| - 1;
      ItemsSplit(s, items[..n], k);
      assert items[..n][..k] == items[..k] && items[..n][k..] == items[k..][..n - k];
    }
  }

  /** The first instance of a batch that changes its service is misfiled for good. */
  lemma {:induction false} FirstMoveShows(s: State, items: seq<Instance>, k: nat)
    requires Indexed(s) && DistinctIds(items) && k < |items|
    requires forall i :: 0 <= i < k ==> KeepsService(ApplyItems(s, items[..i]), items[i])
    requires !KeepsService(ApplyItems(s, items[..k]), items[k])
    ensures !Indexed(ApplyItems(s, items))
  {
    hide Indexed, ApplyItem, Misfiled;
    forall i | 0 <= i < k ensures KeepsService(ApplyItems(s, items[..k][..i]), items[..k][i]) {
      assert items[..k][..i] == items[..i];
    }
    ItemsKeepGrouping(s, items[..k]);
    var before := ApplyItems(s, items[..k]);
    var svc := before.ids[items[k].id].serviceId;
    MovedIsMisfiled(before, items[k]);
    assert items[..k + 1][..k] == items[..k];
    MisfiledStays(ApplyItems(s, items[..k + 1]), items[k + 1..], items[k].id, svc);
    ItemsSplit(s, items, k + 1);
    MisfiledIsWrong(ApplyItems(s, items), items[k].id, svc);
  }

  /** A batch keeps everything right if and only if its instances stay with their services. */
  lemma BatchValidIff(s: State, items: seq<Instance>)
    requires Valid(s) && DistinctIds(items)
    ensures Valid(ApplyBatch(s, items)) <==> KeepsServices(s, items)
  {
    hide CountedExcept, ApplyItems, Partitions, KeepsService;
    if KeepsServices(s, items) {
      BatchKeepsValid(s, items);
    } else {
      var k :| 0 <= k < |items| && !KeepsService(ApplyItems(s, items[..k]), items[k]);
      k := FirstMove(s, items, k);
      FirstMoveShows(s, items, k);
      assert Indexed(ApplyBatch(s, items)) == Indexed(ApplyItems(s, items));
    }
  }

  lemma {:induction false} FirstMove(s: State, items: seq<Instance>, k: nat) returns (first: nat)
    requires k < |items| && !KeepsService(ApplyItems(s, items[..k]), items[k])
    ensures first <= k && !KeepsService(ApplyItems(s, items[..first]), items[first])
    ensures forall i :: 0 <= i < first ==> KeepsService(ApplyItems(s, items[..i]), items[i])
  {
    if i :| 0 <= i < k && !KeepsService(ApplyItems(s, items[..i]), items[i]) {
      first := FirstMove(s, items, i);
    } else {
      first := k;
    }
  }

  datatype Event = Batch(items: seq<Instance>) | Clear

  ghost function Step(s: State, e: Event): State {
    match e
    case Batch(items) => ApplyBatch(s, items)
    case Clear => Empty
  }

  ghost function Run(es: seq<Event>): State {
    if es == [] then Empty else Step(Run(es[..|es| - 1]), es[|es| - 1])
  }

  ghost predicate KeepingAt(es: seq<Event>, i: nat)
    requires i < |es|
  {
    es[i].Batch? ==> KeepsServices(Run(es[..i]), es[i].items)
  }

  /** After any run of batches and clears in which instances keep their service. */
  lemma {:induction false} RunIsValid(es: seq<Event>, n: nat)
    requires n <= |es| && forall i :: 0 <= i < n ==> KeepingAt(es, i)
    ensures Valid(Run(es[..n]))
  {
    hide ApplyBatch, KeepsServices;
    EmptyIsValid();
    if n == 0 {
      assert es[..0] == [];
    } else {
      hide Valid;
      RunIsValid(es, n - 1);
      assert es[..n][..n - 1] == es[..n - 1];
      assert KeepingAt(es, n - 1);
      if es[n - 1].Batch? { BatchKeepsValid(Run(es[..n - 1]), es[n - 1].items); }
    }
  }

  /** Along any run of batches and clears, grouping, total and counts are right after every
      event if and only if every instance is delivered under the service it is cached under. */
  lemma AlwaysValidIff(es: seq<Event>)
    requires forall i :: 0 <= i < |es| && es[i].Batch? ==> DistinctIds(es[i].items)
    ensures (forall i :: 0 <= i <= |es| ==> Valid(Run(es[..i]))) <==> forall i :: 0 <= i < |es| ==> KeepingAt(es, i)
  {
    hide Valid, ApplyBatch, KeepsServices, DistinctIds;
    if forall i :: 0 <= i < |es| ==> KeepingAt(es, i) {
      forall i | 0 <= i <= |es| ensures Valid(Run(es[..i])) { RunIsValid(es, i); }
    }
    if forall i :: 0 <= i <= |es| ==> Valid(Run(es[..i])) {
      forall i | 0 <= i < |es| ensures KeepingAt(es, i) {
        assert es[..i + 1][..i] == es[..i];
        assert Valid(Run(es[..i])) && Valid(Run(es[..i + 1]));
        if es[i].Batch? { BatchValidIff(Run(es[..i]), es[i].items); }
      }
    }
  }

  /** An instance that changes its service is counted under both. */
  lemma MovedInstanceCountsTwice()
    ensures var here, there := Instance("i", "a", true, false, true, 1), Instance("i", "b", true, false, true, 2);
            var s := Run([Batch([here]), Batch([there])]);
            && s.ids == map["i" := there] && s.instanceCount == 1
            && s.services == map["a" := map["i" := here], "b" := map["i" := there]]
            && "a" in s.counts && "b" in s.counts && s.counts["a"].total == s.counts["b"].total == 1
  {
    var here, there := Instance("i", "a", true, false, true, 1), Instance("i", "b", true, false, true, 2);
    hide CountAll;
    assert [Batch([here]), Batch([there])][..1] == [Batch([here])] && [Batch([here])][..0] == [];
    var first := ApplyBatch(Empty, [here]);
    OneItem(Empty, here);
    OneItem(first, there);
    assert Run([Batch([here])]) == first;
    assert first.services == map["a" := map["i" := here]];
    assert first.counts == map["a" := CountAll(map["i" := here])];
    CountOfOne(here);
    CountOfOne(there);
  }

  lemma OneItem(s: State, item: Instance)
    ensures ApplyBatch(s, [item]) == ApplyItem(s, item).(counts := Recounted(ApplyItem(s, item), {item.serviceId}))
  {
    hide ApplyItem, Recounted;
    assert [item][..0] == [] && [item][0] == item;
    assert ApplyItems(s, [item]) == ApplyItem(ApplyItems(s, []), item);
    assert Affected([item]) == {item.serviceId};
  }

  lemma CountOfOne(i: Instance)
    ensures CountAll(map["i" := i]).total == 1
  {
    assert |map["i" := i]| == |map["i" := i].Keys|;
  }

  lemma EmptyIsValid()
    ensures Valid(Empty)
  {
  }

  // ---------------------------------------------------------------- what the counts add up to

  lemma {:induction false} BitsBounded(m: Instances)
    ensures 0 <= Sum(m, HealthyBit) && 0 <= Sum(m, IsolatedBit)
    ensures Sum(m, HealthyBit) + Sum(m, IsolatedBit) <= |m|
    decreases m.Keys
  {
    if m.Keys != {} {
      var k := Pick(m.Keys);
      assert (m - {k}).Keys == m.Keys - {k};
      BitsBounded(m - {k});
      SumRemove(m, HealthyBit, k);
      SumRemove(m, IsolatedBit, k);
    }
  }

  ghost predicate TotalsAgree(counts: map<string, Count>, services: map<string, Instances>) {
    && (forall svc :: svc in services && services[svc] != map[] ==> svc in counts)
    && (forall svc :: svc in counts ==> svc in services && counts[svc].total == |services[svc]|)
  }

  lemma TotalsAgreeRest(counts: map<string, Count>, services: map<string, Instances>, k: string)
    requires TotalsAgree(counts, services) && k in services
    ensures TotalsAgree(counts - {k}, services - {k})
    ensures if k in counts then TotalOf(counts[k]) == Size(services[k])
            else Size(services[k]) == 0 && counts - {k} == counts
  {
  }

  lemma {:induction false} TotalsAddUp(counts: map<string, Count>, services: map<string, Instances>)
    requires TotalsAgree(counts, services)
    ensures Sum(counts, TotalOf) == Sum(services, Size)
    decreases services.Keys
  {
    if services.Keys == {} {
      assert counts.Keys == {};
    } else {
      var k := Pick(services.Keys);
      assert (services - {k}).Keys == services.Keys - {k};
      TotalsAgreeRest(counts, services, k);
      hide TotalsAgree, TotalOf, Size;
      SumRemove(services, Size, k);
      TotalsAddUp(counts - {k}, services - {k});
      if k in counts { SumRemove(counts, TotalOf, k); }
    }
  }

  predicate Bounded(c: Count) {
    0 < c.total && 0 <= c.healthy && 0 <= c.isolated && c.healthy + c.isolated <= c.total
  }

  lemma CountsAgree(s: State)
    requires CountedExcept(s, {})
    ensures TotalsAgree(s.counts, s.services)
    ensures forall svc :: svc in s.counts ==> Bounded(s.counts[svc])
  {
    forall svc | svc in s.counts ensures Bounded(s.counts[svc]) {
      BitsBounded(s.services[svc]);
    }
  }

  /** Nothing is lost and nothing counted twice: the running total, the cached instances and
      the per-service totals agree, and no service counts more healthy and isolated instances
      than it has. */
  lemma Conservation(s: State)
    requires Valid(s)
    ensures s.instanceCount == |s.ids| == Sum(s.services, Size) == Sum(s.counts, TotalOf)
    ensures forall svc :: svc in s.counts ==> Bounded(s.counts[svc])
  {
    hide Partitions, CountedExcept;
    PartitionSize(s.services, s.ids, ServiceOf);
    CountsAgree(s);
    TotalsAddUp(s.counts, s.services);
  }

  // ---------------------------------------------------------------- the cache

  method CountInstances(m: Instances) returns (c: Count)
    ensures c == CountAll(m)
  {
    var total, healthy, isolated := 0, 0, 0;
    var rest := m;
    while rest.Keys != {}
      invariant total + |rest| == |m|
      invariant healthy + Sum(rest, HealthyBit) == Sum(m, HealthyBit)
      invariant isolated + Sum(rest, IsolatedBit) == Sum(m, IsolatedBit)
      decreases rest.Keys
    {
      var id :| id in rest.Keys;
      SumRemove(rest, HealthyBit, id);
      SumRemove(rest, IsolatedBit, id);
      total := total + 1;
      if IsHealthy(rest[id]) { healthy := healthy + 1; }
      if rest[id].isolate { isolated := isolated + 1; }
      assert (rest - {id}).Keys == rest.Keys - {id};
      rest := rest - {id};
    }
    c := Count(total, healthy, isolated);
  }

  class Cache {
    var ids: Instances
    var services: map<string, Instances>
    var instanceCounts: map<string, Count>
    var instanceCount: int

    ghost function View(): State
      reads this
    {
      State(ids, services, instanceCounts, instanceCount)
    }

    constructor ()
      ensures View() == Empty && Valid(View())
    {
      ids, services, instanceCounts, instanceCount := map[], map[], map[], 0;
    }

    method Clear()
      modifies this
      ensures View() == Empty && Valid(View())
    {
      ids, services, instanceCounts, instanceCount := map[], map[], map[], 0;
    }

    /** The body of the loop in `setInstances`. */
    method SetInstance(item: Instance)
      modifies this
      ensures View() == ApplyItem(old(View()), item)
    {
      var itemExist := item.id in ids;
      if !item.valid {
        ids := ids - {item.id};
        if itemExist { instanceCount := instanceCount - 1; }
        if item.serviceId in services {
          services := services[item.serviceId := services[item.serviceId] - {item.id}];
        }
        return;
      }
      ids := ids[item.id := item];
      if !itemExist { instanceCount := instanceCount + 1; }
      if item.serviceId !in services {
        services := services[item.serviceId := map[]];
      }
      services := services[item.serviceId := services[item.serviceId][item.id := item]];
    }

    method PostProcessUpdatedServices(affect: set<string>)
      modifies this`instanceCounts
      ensures instanceCounts == Recounted(old(View()), affect)
    {
      hide CountAll, Recounted;
      ghost var s := View();
      var rest := affect;
      RecountNothing(s);
      assert affect - affect == {};
      while rest != {}
        invariant rest <= affect && instanceCounts == Recounted(s, affect - rest)
        decreases rest
      {
        var svc :| svc in rest;
        RecountOne(s, affect - rest, svc);
        assert affect - (rest - {svc}) == (affect - rest) + {svc};
        if svc !in services || services[svc] == map[] {
          instanceCounts := instanceCounts - {svc};
        } else {
          var count := CountInstances(services[svc]);
          instanceCounts := instanceCounts[svc := count];
        }
        rest := rest - {svc};
      }
      assert affect - {} == affect;
    }

    /** `setInstances`, for any batch. */
    method SetInstances(ins: seq<Instance>)
      modifies this
      ensures View() == ApplyBatch(old(View()), ins)
    {
      hide ApplyItem, Recounted;
      ghost var before := View();
      var affect: set<string> := {};
      assert Affected(ins[..0]) == {};
      for i := 0 to |ins|
        invariant View() == ApplyItems(before, ins[..i]) && affect == Affected(ins[..i])
      {
        assert ins[..i + 1][..i] == ins[..i];
        assert Affected(ins[..i + 1]) == Affected(ins[..i]) + {ins[i].serviceId};
        affect := affect + {ins[i].serviceId};
        SetInstance(ins[i]);
      }
      assert ins[..|ins|] == ins;
      PostProcessUpdatedServices(affect);
    }
  }

  lemma RecountNothing(s: State)
    ensures Recounted(s, {}) == s.counts
  {
  }

  lemma RecountOne(s: State, done: set<string>, svc: string)
    ensures Recounted(s, done + {svc}) ==
            if svc !in s.services || s.services[svc] == map[] then Recounted(s, done) - {svc}
            else Recounted(s, done)[svc := CountAll(s.services[svc])]
  {
    hide CountAll;
  }
}
