/**
 Per-namespace service and instance counts (cache/service.go) and the hand-over from the
 instance cache (cache/instance.go).

 Two updaters run concurrently. The instance updater writes per-service counts and only
 later marks the services as pending; the service updater applies a batch of services,
 takes the pending services it knows, and recounts the namespaces concerned one service at
 a time. The machine below interleaves them at that grain.
 */
module ServiceCounts {
  import opened Folds

  datatype Service = Service(id: string, namespace: string, name: string)

  datatype InstanceCount = InstanceCount(total: nat, healthy: nat)

  datatype NamespaceCount = NamespaceCount(services: nat, total: int, healthy: int)

  const NoInstances := InstanceCount(0, 0)

  function TotalOf(c: InstanceCount): int { c.total }

  function HealthyOf(c: InstanceCount): int { c.healthy }

  /** The reference definition: the sums over the services of one namespace. */
  ghost function Tally(counts: map<string, InstanceCount>): NamespaceCount {
    NamespaceCount(|counts|, Sum(counts, TotalOf), Sum(counts, HealthyOf))
  }

  lemma TallyInsert(m: map<string, InstanceCount>, name: string, c: InstanceCount)
    requires name !in m
    ensures var t := Tally(m);
            Tally(m[name := c]) == NamespaceCount(t.services + 1, t.total + c.total, t.healthy + c.healthy)
  {
    SumInsert(m, TotalOf, name, c);
    SumInsert(m, HealthyOf, name, c);
  }

  lemma TallyEmpty()
    ensures Tally(map[]) == NamespaceCount(0, 0, 0)
  {
  }

  /** Where the service updater is in `setServices` and `postProcessUpdatedServices`. */
  datatype Updater =
    | Idle
    | Applying(affect: set<string>)
    | Recounting(affect: set<string>)
    | Counting(affect: set<string>, namespace: string, left: set<string>)
  {
    function Affected(): set<string> { if Idle? then {} else affect }
  }

  /** `written`: services whose instance count was written but not yet notified.
      `read`: the instance counts that went into `counts`; kept for the theorems only. */
  datatype State = State(
    ids: map<string, Service>,
    names: map<string, map<string, Service>>,
    pending: set<string>,
    counts: map<string, NamespaceCount>,
    instanceCounts: map<string, InstanceCount>,
    written: set<string>,
    updater: Updater,
    read: map<string, map<string, InstanceCount>>)

  const Empty := State(map[], map[], {}, map[], map[], {}, Idle, map[])

  /** `GetInstancesCountByServiceID`. */
  function CountIn(instances: map<string, InstanceCount>, id: string): InstanceCount {
    if id != "" && id in instances then instances[id] else NoInstances
  }

  function CountOf(s: State, id: string): InstanceCount { CountIn(s.instanceCounts, id) }

  datatype Step =
    | BeginBatch
    | SaveService(service: Service)
    | RemoveService(service: Service)
    | TakePending
    | StartNamespace(namespace: string)
    | CountService(name: string)
    | FinishNamespace
    | FinishBatch
    | StoreInstanceCount(id: string, count: InstanceCount)
    | DeleteInstanceCount(id: string)
    | Notify(affect: set<string>)
    | CleanNamespace(namespace: string)
    | Clear

  type Home = string -> Service

  /** A service id keeps its namespace and name. */
  predicate AtHome(home: Home, s: Service) { home(s.id) == s }

  predicate Enabled(home: Home, s: State, step: Step) {
    match step
    case BeginBatch => s.updater.Idle?
    case SaveService(v) => s.updater.Applying? && AtHome(home, v)
    case RemoveService(v) => s.updater.Applying? && AtHome(home, v)
    case TakePending => s.updater.Applying?
    case StartNamespace(n) => s.updater.Recounting? && n in s.updater.affect
    case CountService(name) => s.updater.Counting? && name in s.updater.left
    case FinishNamespace => s.updater.Counting? && s.updater.left == {}
    case FinishBatch => s.updater.Recounting? && s.updater.affect == {}
    case StoreInstanceCount(_, _) => true
    case DeleteInstanceCount(_) => true
    case Notify(affect) => s.written <= affect
    case CleanNamespace(n) => s.updater.Counting? ==> s.updater.namespace != n
    case Clear => s.updater.Idle?
  }

  function Save(s: State, v: Service): State
    requires s.updater.Applying?
  {
    var space := if v.namespace in s.names then s.names[v.namespace] else map[];
    s.(ids := s.ids[v.id := v],
       names := s.names[v.namespace := space[v.name := v]],
       updater := Applying(s.updater.affect + {v.namespace}))
  }

  function Remove(s: State, v: Service): State
    requires s.updater.Applying?
  {
    s.(ids := s.ids - {v.id},
       pending := s.pending - {v.id},
       names := if v.namespace in s.names then s.names[v.namespace := s.names[v.namespace] - {v.name}] else s.names,
       updater := Applying(s.updater.affect + {v.namespace}))
  }

  function Take(s: State): State
    requires s.updater.Applying?
  {
    var known := set id | id in s.pending && id in s.ids;
    s.(pending := s.pending - known,
       updater := Recounting(s.updater.affect + set id | id in known :: s.ids[id].namespace))
  }

  function Start(s: State, n: string): State
    requires s.updater.Recounting?
  {
    if n !in s.names then
      s.(counts := s.counts - {n}, updater := Recounting(s.updater.affect - {n}))
    else
      s.(counts := s.counts[n := NamespaceCount(0, 0, 0)],
         read := s.read[n := map[]],
         updater := Counting(s.updater.affect, n, s.names[n].Keys))
  }

  function CountOne(s: State, name: string): State
    requires s.updater.Counting?
  {
    var n := s.updater.namespace;
    if n !in s.names || name !in s.names[n] || n !in s.counts || n !in s.read then s
    else
      var c, was := CountOf(s, s.names[n][name].id), s.counts[n];
      s.(counts := s.counts[n := NamespaceCount(was.services + 1, was.total + c.total, was.healthy + c.healthy)],
         read := s.read[n := s.read[n][name := c]],
         updater := Counting(s.updater.affect, n, s.updater.left - {name}))
  }

  function Apply(home: Home, s: State, step: Step): State
    requires Enabled(home, s, step)
  {
    match step
    case BeginBatch => s.(updater := Applying({}))
    case SaveService(v) => Save(s, v)
    case RemoveService(v) => Remove(s, v)
    case TakePending => Take(s)
    case StartNamespace(n) => Start(s, n)
    case CountService(name) => CountOne(s, name)
    case FinishNamespace => s.(updater := Recounting(s.updater.affect - {s.updater.namespace}))
    case FinishBatch => s.(updater := Idle)
    case StoreInstanceCount(id, c) =>
      s.(instanceCounts := s.instanceCounts[id := c], written := s.written + {id})
    case DeleteInstanceCount(id) =>
      s.(instanceCounts := s.instanceCounts - {id}, written := s.written + {id})
    case Notify(affect) => s.(pending := s.pending + affect, written := {})
    case CleanNamespace(n) => s.(names := s.names - {n})
    case Clear =>
      State(map[], map[], {}, map[], map[], s.written, Idle, map[])
  }

  // ---------------------------------------------------------------- the promise

  function CurrentCounts(s: State, n: string): map<string, InstanceCount>
    requires n in s.names
  {
    map name | name in s.names[n] :: CountOf(s, s.names[n][name].id)
  }

  ghost predicate Exact(s: State, n: string)
    requires n in s.names
  {
    n in s.counts && s.counts[n] == Tally(CurrentCounts(s, n))
  }

  predicate Awaited(s: State, id: string) { id in s.pending || id in s.written }

  /** Counts are right, or the work that will make them right is queued or under way. */
  ghost predicate Promise(s: State, n: string)
    requires n in s.names
  {
    || n in s.updater.Affected()
    || (exists name :: name in s.names[n] && Awaited(s, s.names[n][name].id))
    || Exact(s, n)
  }

  // ---------------------------------------------------------------- the invariant

  ghost predicate Homes(home: Home, s: State) {
    && (forall id :: id in s.ids ==> s.ids[id].id == id && AtHome(home, s.ids[id]))
    && (forall n, name :: n in s.names && name in s.names[n] ==>
          var v := s.names[n][name];
          v.namespace == n && v.name == name && AtHome(home, v) && v.id in s.ids)
  }

  /** What was read for a service is still current, or its change is on its way. */
  ghost predicate ReadOk(s: State, n: string, name: string)
    requires n in s.names && name in s.names[n] && n in s.read && name in s.read[n]
  {
    s.read[n][name] == CountOf(s, s.names[n][name].id) || Awaited(s, s.names[n][name].id)
  }

  ghost predicate Counted(s: State, n: string, done: set<string>)
    requires n in s.names
  {
    && n in s.counts && n in s.read
    && s.read[n].Keys == done <= s.names[n].Keys
    && s.counts[n] == Tally(s.read[n])
    && (forall name :: name in done ==> ReadOk(s, n, name))
  }

  ghost predicate Inv(home: Home, s: State) {
    && Homes(home, s)
    && (forall n :: n in s.names && n !in s.updater.Affected() ==> Counted(s, n, s.names[n].Keys))
    && (s.updater.Counting? ==>
          var n := s.updater.namespace;
          && n in s.names && n in s.updater.affect && s.updater.left <= s.names[n].Keys
          && Counted(s, n, s.names[n].Keys - s.updater.left))
  }

  lemma PromiseHolds(home: Home, s: State, n: string)
    requires Inv(home, s) && n in s.names
    ensures Promise(s, n)
  {
    if n !in s.updater.Affected() && !exists name :: name in s.names[n] && Awaited(s, s.names[n][name].id) {
      assert Counted(s, n, s.names[n].Keys);
      forall name | name in s.names[n] ensures s.read[n][name] == CurrentCounts(s, n)[name] {
        assert ReadOk(s, n, name);
      }
      assert s.read[n] == CurrentCounts(s, n);
    }
  }

  // ---------------------------------------------------------------- every step keeps it

  /** A step that leaves a namespace alone and forgets none of its pending work. */
  ghost predicate LeavesAlone(s: State, s': State, n: string) {
    && n in s.names && n in s'.names && s'.names[n] == s.names[n]
    && (n in s.counts ==> n in s'.counts && s'.counts[n] == s.counts[n])
    && (n in s.read ==> n in s'.read && s'.read[n] == s.read[n])
    && (forall name :: name in s.names[n] ==>
          var id := s.names[n][name].id;
          && (Awaited(s, id) ==> Awaited(s', id))
          && (CountOf(s', id) == CountOf(s, id) || Awaited(s', id)))
  }

  lemma CountedKept(s: State, s': State, n: string, done: set<string>)
    requires LeavesAlone(s, s', n) && Counted(s, n, done)
    ensures Counted(s', n, done)
  {
  }

  /** Steps of the instance updater, and those that only move the service updater on. */
  lemma QuietStepKeepsInv(home: Home, s: State, step: Step)
    requires Inv(home, s) && Enabled(home, s, step)
    requires step.BeginBatch? || step.FinishNamespace? || step.FinishBatch? || step.Notify? ||
             step.StoreInstanceCount? || step.DeleteInstanceCount?
    ensures Inv(home, Apply(home, s, step))
  {
    hide Tally, Counted;
    var s' := Apply(home, s, step);
    forall n | n in s.names ensures LeavesAlone(s, s', n) {}
    forall n | n in s'.names && n !in s'.updater.Affected() ensures Counted(s', n, s'.names[n].Keys) {
      if n !in s.updater.Affected() {
        CountedKept(s, s', n, s.names[n].Keys);
      } else {
        // just finished counting: nothing of it is left
        CountedKept(s, s', n, s.names[n].Keys - s.updater.left);
        assert s.names[n].Keys - s.updater.left == s'.names[n].Keys;
      }
    }
    if s'.updater.Counting? {
      CountedKept(s, s', s.updater.namespace, s.names[s.updater.namespace].Keys - s.updater.left);
    }
  }

  lemma ApplyServiceKeepsInv(home: Home, s: State, step: Step)
    requires Inv(home, s) && Enabled(home, s, step) && (step.SaveService? || step.RemoveService?)
    ensures Inv(home, Apply(home, s, step))
  {
    hide Tally, Counted;
    var s' := Apply(home, s, step);
    forall n | n in s'.names && n !in s'.updater.Affected() ensures Counted(s', n, s'.names[n].Keys) {
      assert LeavesAlone(s, s', n);
      CountedKept(s, s', n, s.names[n].Keys);
    }
  }

  lemma TakeKeepsInv(home: Home, s: State)
    requires Inv(home, s) && s.updater.Applying?
    ensures Inv(home, Take(s))
  {
    hide Tally, Counted;
    var s' := Take(s);
    forall n | n in s'.names && n !in s'.updater.Affected() ensures Counted(s', n, s'.names[n].Keys) {
      forall name | name in s.names[n] && s.names[n][name].id in s.pending
        ensures s.names[n][name].id in s'.pending
      {
        // were the service known, its namespace would be affected
        var id := s.names[n][name].id;
        assert s.ids[id] == s.names[n][name];
      }
      assert LeavesAlone(s, s', n);
      CountedKept(s, s', n, s.names[n].Keys);
    }
  }

  lemma StartKeepsInv(home: Home, s: State, n: string)
    requires Inv(home, s) && s.updater.Recounting? && n in s.updater.affect
    ensures Inv(home, Start(s, n))
  {
    hide Counted;
    var s' := Start(s, n);
    forall m | m in s'.names && m !in s'.updater.Affected() ensures Counted(s', m, s'.names[m].Keys) {
      assert LeavesAlone(s, s', m);
      CountedKept(s, s', m, s.names[m].Keys);
    }
    if n in s.names {
      assert Counted(s', n, s'.names[n].Keys - s'.updater.left) by { NothingCounted(s', n); }
    }
  }

  lemma NothingCounted(s: State, n: string)
    requires n in s.names && n in s.counts && s.counts[n] == NamespaceCount(0, 0, 0)
    requires n in s.read && s.read[n] == map[]
    ensures Counted(s, n, s.names[n].Keys - s.names[n].Keys)
  {
  }

  lemma CountOneKeepsInv(home: Home, s: State, name: string)
    requires Inv(home, s) && s.updater.Counting? && name in s.updater.left
    ensures Inv(home, CountOne(s, name))
  {
    hide Counted, CountOf, LeavesAlone;
    var s', n := CountOne(s, name), s.updater.namespace;
    var done := s.names[n].Keys - s.updater.left;
    assert Counted(s, n, done);
    OneMoreCounted(s, n, done, name);
    assert done + {name} == s'.names[n].Keys - s'.updater.left;
    forall m | m in s'.names && m !in s'.updater.Affected() ensures Counted(s', m, s'.names[m].Keys) {
      CountOneLeaves(s, name, m);
      CountedKept(s, s', m, s.names[m].Keys);
    }
  }

  lemma CountOneLeaves(s: State, name: string, m: string)
    requires s.updater.Counting? && m in s.names && m != s.updater.namespace
    ensures LeavesAlone(s, CountOne(s, name), m)
  {
  }

  lemma SameCounts(s: State, s': State, id: string)
    requires s'.instanceCounts == s.instanceCounts
    ensures CountOf(s', id) == CountOf(s, id)
  {
  }

  lemma OneMoreCounted(s: State, n: string, done: set<string>, name: string)
    requires s.updater.Counting? && s.updater.namespace == n && n in s.names
    requires Counted(s, n, done) && name in s.names[n] && name !in done
    ensures n in s.counts && n in s.read
    ensures Counted(CountOne(s, name), n, done + {name})
    ensures CountOne(s, name).updater == Counting(s.updater.affect, n, s.updater.left - {name})
  {
    hide Tally, CountOf;
    var s', c := CountOne(s, name), CountOf(s, s.names[n][name].id);
    TallyInsert(s.read[n], name, c);
    assert CountOf(s', s.names[n][name].id) == c by { SameCounts(s, s', s.names[n][name].id); }
    forall other | other in done + {name} ensures ReadOk(s', n, other) {
      if other != name {
        assert ReadOk(s, n, other);
        SameCounts(s, s', s.names[n][other].id);
      }
    }
  }

  lemma CleanKeepsInv(home: Home, s: State, n: string)
    requires Inv(home, s) && Enabled(home, s, CleanNamespace(n))
    ensures Inv(home, Apply(home, s, CleanNamespace(n)))
  {
    hide Tally, Counted;
    var s' := Apply(home, s, CleanNamespace(n));
    forall m | m in s'.names ensures LeavesAlone(s, s', m) {}
    forall m | m in s'.names && m !in s'.updater.Affected() ensures Counted(s', m, s'.names[m].Keys) {
      CountedKept(s, s', m, s.names[m].Keys);
    }
    if s'.updater.Counting? {
      CountedKept(s, s', s.updater.namespace, s.names[s.updater.namespace].Keys - s.updater.left);
    }
  }

  lemma ClearKeepsInv(home: Home, s: State)
    requires s.updater.Idle?
    ensures Inv(home, Apply(home, s, Clear))
  {
  }

  lemma StepKeepsInv(home: Home, s: State, step: Step)
    requires Inv(home, s) && Enabled(home, s, step)
    ensures Inv(home, Apply(home, s, step))
  {
    hide Inv;
    match step
    case SaveService(_) => ApplyServiceKeepsInv(home, s, step);
    case RemoveService(_) => ApplyServiceKeepsInv(home, s, step);
    case TakePending => TakeKeepsInv(home, s);
    case StartNamespace(n) => StartKeepsInv(home, s, n);
    case CountService(name) => CountOneKeepsInv(home, s, name);
    case CleanNamespace(n) => CleanKeepsInv(home, s, n);
    case Clear => ClearKeepsInv(home, s);
    case _ => QuietStepKeepsInv(home, s, step);
  }

  // ---------------------------------------------------------------- whole runs

  /** `states` is the run of `steps` from the empty caches. */
  ghost predicate IsRun(home: Home, steps: seq<Step>, states: seq<State>) {
    && |states| == |steps| + 1
    && states[0] == Empty
    && forall i :: 0 <= i < |steps| ==>
         Enabled(home, states[i], steps[i]) && states[i + 1] == Apply(home, states[i], steps[i])
  }

  lemma {:induction false} RunKeepsInv(home: Home, steps: seq<Step>, states: seq<State>, i: nat)
    requires IsRun(home, steps, states) && i < |states|
    ensures Inv(home, states[i])
  {
    if i > 0 {
      RunKeepsInv(home, steps, states, i - 1);
      assert Enabled(home, states[i - 1], steps[i - 1]);
      StepKeepsInv(home, states[i - 1], steps[i - 1]);
    }
  }

  /** In every interleaving of the two updaters, every namespace is counted right or its
      recount is queued, about to be queued, or under way. */
  lemma PendingProtocol(home: Home, steps: seq<Step>, states: seq<State>, i: nat, n: string)
    requires IsRun(home, steps, states) && i < |states| && n in states[i].names
    ensures Promise(states[i], n)
  {
    RunKeepsInv(home, steps, states, i);
    PromiseHolds(home, states[i], n);
  }

  /** Once the service updater is idle and nothing known is queued, every count is exact. */
  lemma QuiescentIsExact(home: Home, steps: seq<Step>, states: seq<State>, i: nat, n: string)
    requires IsRun(home, steps, states) && i < |states| && n in states[i].names
    requires states[i].updater.Idle? && states[i].written == {} && states[i].pending !! states[i].ids.Keys
    ensures Exact(states[i], n)
  {
    RunKeepsInv(home, steps, states, i);
    PromiseHolds(home, states[i], n);
  }
}
