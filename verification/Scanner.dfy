/**
 The release scanner (config/scanner.go) and the configuration file cache it refreshes
 (cache/config_file.go).

 A scan fetches the releases modified since ten seconds before the newest modification time
 it has seen, and reloads the cached files that lag behind. A failed scan moves nothing.
 Releases are committed, clients load files and cached files expire at any time in between.

 A load holds the lock of its file. It reads the table first and stores the entry later, so
 that commits and scans may pass it. A reload takes the entry out, then loads like a client:
 when it finds the lock taken it waits, and takes what the other load has stored.
 */
module Scanner {
  const SECOND := 1_000_000_000
  const SCAN_OFFSET := 10 * SECOND
  const FIRST_SCAN_OFFSET := 600 * SECOND
  const MESSAGE_EXPIRE := 5 * SECOND

  datatype Release = Release(file: string, version: nat, deleted: bool, mtime: int)

  type Table = map<string, Release>

  datatype Entry = Entry(version: nat, empty: bool)

  type Cache = map<string, Entry>

  /** What `GetOrLoadIfAbsent` stores: the live release, or an empty entry. */
  function Load(rows: Table, f: string): Entry {
    if f in rows && !rows[f].deleted then Entry(rows[f].version, false) else Entry(0, true)
  }

  predicate Expired(r: Release, now: int) { r.mtime < now - MESSAGE_EXPIRE }

  /** The cache is missing the file, has it as empty, or has an older version. */
  predicate Behind(cache: Cache, r: Release) {
    r.file !in cache || cache[r.file].empty || r.version > cache[r.file].version
  }

  /** What handling a release does to the cache before any reload: a file that lags behind is
      taken out, unless the release is a deletion that has expired. */
  function Evict(cache: Cache, r: Release, now: int): Cache {
    if !Behind(cache, r) || (r.deleted && Expired(r, now)) then cache else cache - {r.file}
  }

  /** `lag`: a release is visible at most this long after its modification time.
      `strict`: the store selects `mtime >` the start of the window, as MySQL does, rather
      than `mtime >=`, as BoltDB does. */
  datatype Store = Store(lag: nat, strict: bool)

  /** A strict query loses the first instant of the window. */
  function Slack(e: Store): nat { if e.strict then 1 else 0 }

  predicate Selected(e: Store, r: Release, since: int) { r.mtime >= since + Slack(e) }

  /** `list` is what the query returns, in some order. */
  ghost predicate Lists(e: Store, list: seq<Release>, rows: Table, since: int) {
    forall r :: r in list <==> r.file in rows && rows[r.file] == r && Selected(e, r, since)
  }

  // ---------------------------------------------------------------- the machine

  /** The reload of the release at hand: none, before the lock is taken, or with the lock. */
  datatype Reload = NoReload | Waiting | Loading

  /** A scan in progress: what is left to handle, the newest time seen, when it fetched. */
  datatype Phase = Idle | Scanning(todo: seq<Release>, max: int, at: int, reload: Reload)

  /** Kept for the theorems only, all about the present row of a file: `unseen`, committed and
      not fetched by a scan since; `handled`, when it was first handled; `overtaken`, committed
      while a load that is still in progress had read the row before; `raced`, handled before
      such a load stored its entry. */
  datatype Trace = Trace(unseen: set<string>, handled: map<string, int>, overtaken: set<string>, raced: set<string>)

  /** `loading`: the files whose lock is taken, with the entry read for each. */
  datatype State = State(now: int, rows: Table, cache: Cache, loading: Cache, last: int, phase: Phase, trace: Trace)

  datatype Step =
    | Tick(to: int)
    | Commit(row: Release)
    | ScanFails
    | BeginScan(list: seq<Release>)
    | HandleRelease
    | ReloadFinds
    | ReloadReads
    | ReloadStores
    | ReloadFails
    | EndScan
    | LoadReads(file: string)
    | LoadStores(file: string)
    | LoadFails(file: string)
    | FileExpires(file: string)

  predicate Handling(s: State) { s.phase.Scanning? && s.phase.todo != [] }

  function Head(s: State): Release
    requires Handling(s)
  {
    s.phase.todo[0]
  }

  /** The lock of the file is the scanner's. */
  predicate ScannerLoads(s: State, f: string) {
    Handling(s) && s.phase.reload.Loading? && Head(s).file == f
  }

  ghost predicate Enabled(e: Store, s: State, step: Step) {
    match step
    case Tick(to) => s.now <= to
    case Commit(row) =>
      && row.mtime <= s.now <= row.mtime + e.lag
      && (row.file in s.rows ==> s.rows[row.file].version < row.version)
    case ScanFails => s.phase.Idle?
    case BeginScan(list) => s.phase.Idle? && Lists(e, list, s.rows, s.last - SCAN_OFFSET)
    case HandleRelease => Handling(s) && s.phase.reload.NoReload?
    case ReloadFinds => Handling(s) && s.phase.reload.Waiting? && Head(s).file in s.cache
    case ReloadReads =>
      Handling(s) && s.phase.reload.Waiting? && Head(s).file !in s.cache && Head(s).file !in s.loading
    case ReloadStores => Handling(s) && s.phase.reload.Loading? && Head(s).file in s.loading
    case ReloadFails => Handling(s) && s.phase.reload.Loading? && Head(s).file in s.loading
    case EndScan => s.phase.Scanning? && s.phase.todo == []
    case LoadReads(f) => f !in s.cache && f !in s.loading
    case LoadStores(f) => f in s.loading && !ScannerLoads(s, f)
    case LoadFails(f) => f in s.loading && !ScannerLoads(s, f)
    case FileExpires(_) => true
  }

  function FirstHandled(s: State, r: Release): map<string, int> {
    if r.file in s.rows && s.rows[r.file] == r && r.file !in s.trace.handled
    then s.trace.handled[r.file := s.now] else s.trace.handled
  }

  /** On to the next release. */
  function Pop(s: State): State
    requires Handling(s)
  {
    var r, p := Head(s), s.phase;
    s.(phase := Scanning(p.todo[1..], if r.mtime > p.max then r.mtime else p.max, p.at, NoReload))
  }

  /** The release is marked as handled and a lagging entry taken out. */
  function Marked(s: State): State
    requires Handling(s)
  {
    var r := Head(s);
    var evicted := Evict(s.cache, r, s.now);
    s.(cache := evicted,
       trace := s.trace.(handled := FirstHandled(s, r),
                         raced := if r.file in evicted then s.trace.raced else s.trace.raced - {r.file}))
  }

  function Handle(s: State): State
    requires Handling(s)
  {
    var r, s' := Head(s), Marked(s);
    if Behind(s.cache, r) && !r.deleted then s'.(phase := s'.phase.(reload := Waiting)) else Pop(s')
  }

  function Read(s: State, f: string): State {
    s.(loading := s.loading[f := Load(s.rows, f)])
  }

  function Drop(s: State, f: string): State {
    s.(loading := s.loading - {f}, trace := s.trace.(overtaken := s.trace.overtaken - {f}))
  }

  function Put(s: State, f: string): State
    requires f in s.loading
  {
    var passed := f in s.trace.overtaken && f in s.trace.handled;
    var s' := Drop(s, f).(cache := s.cache[f := s.loading[f]]);
    if passed then s'.(trace := s'.trace.(raced := s'.trace.raced + {f})) else s'
  }

  function CommitRow(s: State, row: Release): State {
    var f, t := row.file, s.trace;
    s.(rows := s.rows[f := row],
       trace := Trace(t.unseen + {f}, t.handled - {f}, if f in s.loading then t.overtaken + {f} else t.overtaken,
                      t.raced - {f}))
  }

  function Apply(s: State, step: Step): State {
    match step
    case Tick(to) => s.(now := to)
    case Commit(row) => CommitRow(s, row)
    case ScanFails => s
    case BeginScan(list) =>
      s.(phase := Scanning(list, s.last, s.now, NoReload),
         trace := s.trace.(unseen := set f | f in s.trace.unseen && !(f in s.rows && s.rows[f] in list)))
    case HandleRelease => if Handling(s) then Handle(s) else s
    case ReloadFinds => if Handling(s) then Pop(s) else s
    case ReloadReads => if Handling(s) then Read(s, Head(s).file).(phase := s.phase.(reload := Loading)) else s
    case ReloadStores => if Handling(s) && Head(s).file in s.loading then Pop(Put(s, Head(s).file)) else s
    case ReloadFails => if Handling(s) then Pop(Drop(s, Head(s).file)) else s
    case EndScan => if s.phase.Scanning? then s.(last := s.phase.max, phase := Idle) else s
    case LoadReads(f) => Read(s, f)
    case LoadStores(f) => if f in s.loading then Put(s, f) else s
    case LoadFails(f) => Drop(s, f)
    case FileExpires(f) => s.(cache := s.cache - {f}, trace := s.trace.(raced := s.trace.raced - {f}))
  }

  // ---------------------------------------------------------------- no release is missed

  /** Every unseen release will be selected by the next scan. */
  ghost predicate Windowed(e: Store, s: State) {
    && (forall f :: f in s.rows ==> s.rows[f].file == f && s.rows[f].mtime <= s.now)
    && s.trace.unseen <= s.rows.Keys
    && s.last <= s.now
    && match s.phase
       case Idle => forall f :: f in s.trace.unseen ==> Selected(e, s.rows[f], s.last - SCAN_OFFSET)
       case Scanning(todo, max, at, _) =>
         && s.last <= max <= at <= s.now
         && (forall r :: r in todo ==> r.mtime <= at)
         && forall f :: f in s.trace.unseen ==> Selected(e, s.rows[f], at - SCAN_OFFSET)
  }

  lemma PopKeepsWindow(e: Store, s: State)
    requires Windowed(e, s) && Handling(s)
    ensures Windowed(e, Pop(s))
  {
    var r := Head(s);
    assert r in s.phase.todo && forall q :: q in s.phase.todo[1..] ==> q in s.phase.todo;
  }

  /** Only the clock, the phase, the table and the unseen files matter to the window. */
  lemma WindowFrame(e: Store, s: State, s': State)
    requires Windowed(e, s) && s'.now == s.now && s'.rows == s.rows && s'.last == s.last
    requires s'.trace.unseen == s.trace.unseen && (s'.phase == s.phase || (s.phase.Scanning? && s'.phase.Scanning?))
    requires s'.phase.Scanning? ==>
               s'.phase.todo == s.phase.todo && s'.phase.max == s.phase.max && s'.phase.at == s.phase.at
    ensures Windowed(e, s')
  {
  }

  lemma ScannerKeepsWindow(e: Store, s: State, step: Step)
    requires Windowed(e, s) && Handling(s)
    requires step.HandleRelease? || step.ReloadFinds? || step.ReloadReads? || step.ReloadStores? || step.ReloadFails?
    ensures Windowed(e, Apply(s, step))
  {
    hide Windowed, Evict, FirstHandled;
    var f := Head(s).file;
    match step {
      case HandleRelease =>
        WindowFrame(e, s, Marked(s));
        PopKeepsWindow(e, Marked(s));
        WindowFrame(e, s, Marked(s).(phase := s.phase.(reload := Waiting)));
      case ReloadFinds =>
        PopKeepsWindow(e, s);
      case ReloadReads =>
        WindowFrame(e, s, Apply(s, step));
      case ReloadStores =>
        if f in s.loading {
          WindowFrame(e, s, Put(s, f));
          PopKeepsWindow(e, Put(s, f));
        }
      case ReloadFails =>
        WindowFrame(e, s, Drop(s, f));
        PopKeepsWindow(e, Drop(s, f));
    }
  }

  lemma StepKeepsWindow(e: Store, s: State, step: Step)
    requires e.lag + Slack(e) <= SCAN_OFFSET && Windowed(e, s) && Enabled(e, s, step)
    ensures Windowed(e, Apply(s, step))
    ensures step.BeginScan? ==> Apply(s, step).trace.unseen == {}
  {
    match step {
      case HandleRelease => ScannerKeepsWindow(e, s, step);
      case ReloadFinds => ScannerKeepsWindow(e, s, step);
      case ReloadReads => ScannerKeepsWindow(e, s, step);
      case ReloadStores => ScannerKeepsWindow(e, s, step);
      case ReloadFails => ScannerKeepsWindow(e, s, step);
      case LoadReads(f) => WindowFrame(e, s, Apply(s, step));
      case LoadStores(f) => WindowFrame(e, s, Apply(s, step));
      case LoadFails(f) => WindowFrame(e, s, Apply(s, step));
      case FileExpires(f) => WindowFrame(e, s, Apply(s, step));
      case _ =>
    }
  }

  ghost predicate IsRun(e: Store, steps: seq<Step>, states: seq<State>) {
    && |states| == |steps| + 1
    && StartState(e, states[0])
    && forall i :: 0 <= i < |steps| ==> StepsTo(e, states[i], steps[i], states[i + 1])
  }

  const NoTrace := Trace({}, map[], {}, {})

  /** `scanAtFirstTime` has fetched, from ten minutes back, over an empty cache. */
  ghost predicate StartState(e: Store, s: State) {
    && s.cache == map[] && s.loading == map[] && s.trace == NoTrace && s.last == s.now - FIRST_SCAN_OFFSET
    && s.phase.Scanning? && s.phase.max == s.last && s.phase.at == s.now && s.phase.reload.NoReload?
    && Lists(e, s.phase.todo, s.rows, s.last)
    && forall f :: f in s.rows ==> s.rows[f].file == f && s.rows[f].mtime <= s.now
  }

  /** Each successful scan fetches every release that became visible since the one before,
      however many scans failed in between. */
  ghost predicate NothingMissed(steps: seq<Step>, states: seq<State>) {
    forall i :: 0 <= i < |steps| && i + 1 < |states| && steps[i].BeginScan? ==> states[i + 1].trace.unseen == {}
  }

  lemma {:induction false} RunKeepsWindow(e: Store, steps: seq<Step>, states: seq<State>, i: nat)
    requires e.lag + Slack(e) <= SCAN_OFFSET && IsRun(e, steps, states) && i < |states|
    ensures Windowed(e, states[i])
  {
    hide Enabled, Apply;
    if i > 0 {
      hide Windowed;
      RunKeepsWindow(e, steps, states, i - 1);
      assert StepsTo(e, states[i - 1], steps[i - 1], states[i]);
      StepKeepsWindow(e, states[i - 1], steps[i - 1]);
    }
  }

  lemma NoMissedRelease(e: Store, steps: seq<Step>, states: seq<State>)
    requires e.lag + Slack(e) <= SCAN_OFFSET && IsRun(e, steps, states)
    ensures NothingMissed(steps, states)
  {
    hide Enabled, Apply, Windowed;
    forall i | 0 <= i < |steps| && i + 1 < |states| && steps[i].BeginScan? ensures states[i + 1].trace.unseen == {} {
      RunKeepsWindow(e, steps, states, i);
      assert StepsTo(e, states[i], steps[i], states[i + 1]);
      StepKeepsWindow(e, states[i], steps[i]);
    }
  }

  ghost predicate StepsTo(e: Store, s: State, step: Step, s': State) {
    Enabled(e, s, step) && s' == Apply(s, step)
  }

  // ---------------------------------------------------------------- runs step by step

  function Begin(now: int): State {
    State(now, map[], map[], map[], now - FIRST_SCAN_OFFSET,
          Scanning([], now - FIRST_SCAN_OFFSET, now, NoReload), NoTrace)
  }

  lemma StartRun(e: Store, now: int) returns (steps: seq<Step>, states: seq<State>)
    ensures IsRun(e, steps, states) && states == [Begin(now)]
  {
    steps, states := [], [Begin(now)];
  }

  /** One step more. */
  lemma Extend(e: Store, steps: seq<Step>, states: seq<State>, step: Step, s: State)
    returns (more: seq<Step>, next: seq<State>)
    requires IsRun(e, steps, states) && StepsTo(e, states[|states| - 1], step, s)
    ensures IsRun(e, more, next) && more == steps + [step] && next == states + [s]
  {
    hide StepsTo, StartState;
    more, next := steps + [step], states + [s];
    forall i | 0 <= i < |more| ensures StepsTo(e, next[i], more[i], next[i + 1]) {
      if i < |steps| { assert StepsTo(e, states[i], steps[i], states[i + 1]); }
    }
  }

  // ---------------------------------------------------------------- a release that is missed

  /** A release is committed and fetched. */
  lemma FetchingSteps(e: Store, a: Release, s: State)
    requires a.file == "a" && a.mtime == s.now && s == Begin(s.now).(phase := Idle)
    ensures var s1 := s.(rows := map["a" := a], trace := s.trace.(unseen := {"a"}));
            var s2 := s.(rows := map["a" := a], phase := Scanning([a], s.last, s.now, NoReload));
            StepsTo(e, s, Commit(a), s1) && StepsTo(e, s1, BeginScan([a]), s2)
  {
    var s1 := s.(rows := map["a" := a], trace := s.trace.(unseen := {"a"}));
    assert CommitRow(s, a) == s1;
    assert Lists(e, [a], s1.rows, s.last - SCAN_OFFSET);
    assert Apply(s1, BeginScan([a])) == s.(rows := map["a" := a], phase := Scanning([a], s.last, s.now, NoReload));
  }

  /** A scan reloads the file of the one release it has fetched. */
  lemma ReloadingSteps(e: Store, a: Release, s: State)
    requires a.file == "a" && !a.deleted && s.rows == map["a" := a] && s.cache == map[] && s.loading == map[]
    requires s.phase == Scanning([a], s.last, s.now, NoReload) && s.trace == NoTrace && s.last < a.mtime
    ensures var s1 := s.(phase := Scanning([a], s.last, s.now, Waiting),
                         trace := NoTrace.(handled := map["a" := s.now]));
            var loaded := map["a" := Entry(a.version, false)];
            var s2 := s1.(phase := Scanning([a], s.last, s.now, Loading), loading := loaded);
            var s3 := s1.(phase := Scanning([], a.mtime, s.now, NoReload), cache := loaded);
            && StepsTo(e, s, HandleRelease, s1) && StepsTo(e, s1, ReloadReads, s2) && StepsTo(e, s2, ReloadStores, s3)
            && StepsTo(e, s3, EndScan, s3.(last := a.mtime, phase := Idle))
  {
    var s1 := s.(phase := Scanning([a], s.last, s.now, Waiting), trace := NoTrace.(handled := map["a" := s.now]));
    assert Evict(s.cache, a, s.now) == map[];
    assert Handle(s) == s1;
    var s2 := s1.(phase := Scanning([a], s.last, s.now, Loading), loading := map["a" := Entry(a.version, false)]);
    assert Apply(s1, ReloadReads) == s2;
    assert [a][1..] == [];
    assert Put(s2, "a") == s2.(loading := map[], cache := map["a" := Entry(a.version, false)]);
  }

  lemma MissingSteps(e: Store, a: Release, b: Release, s: State)
    requires e.lag + Slack(e) > SCAN_OFFSET && a == Release("a", 1, false, e.lag) && b == Release("b", 1, false, 0)
    requires s.now == e.lag && s.rows == map["a" := a] && s.last == e.lag && s.phase.Idle? && s.loading == map[]
    requires s.trace == NoTrace.(handled := map["a" := e.lag])
    ensures var s1 := s.(rows := map["a" := a, "b" := b], trace := s.trace.(unseen := {"b"}));
            var s2 := s1.(phase := Scanning([a], e.lag, e.lag, NoReload));
            StepsTo(e, s, Commit(b), s1) && StepsTo(e, s1, BeginScan([a]), s2)
  {
    assert s.trace.handled - {"b"} == s.trace.handled;
    assert s.trace.raced - {"b"} == {};
    assert CommitRow(s, b) == s.(rows := map["a" := a, "b" := b], trace := s.trace.(unseen := {"b"}));
  }

  lemma LastMissed(steps: seq<Step>, states: seq<State>)
    requires 0 < |steps| < |states| && steps[|steps| - 1].BeginScan? && states[|steps|].trace.unseen != {}
    ensures !NothingMissed(steps, states)
  {
  }

  /** A release committed `lag` late, right after a scan that saw a newer one. */
  lemma MissedRelease(e: Store)
    requires e.lag + Slack(e) > SCAN_OFFSET
    ensures exists steps, states :: IsRun(e, steps, states) && !NothingMissed(steps, states)
  {
    var a, b := Release("a", 1, false, e.lag), Release("b", 1, false, 0);
    var s0 := Begin(e.lag).(phase := Idle);
    var t := s0.trace.(handled := map["a" := e.lag]);
    var s1 := s0.(rows := map["a" := a], trace := s0.trace.(unseen := {"a"}));
    var s2 := s0.(rows := map["a" := a], phase := Scanning([a], s0.last, e.lag, NoReload));
    var s3 := s2.(phase := Scanning([a], s0.last, e.lag, Waiting), trace := t);
    var s4 := s3.(phase := Scanning([a], s0.last, e.lag, Loading), loading := map["a" := Entry(1, false)]);
    var s5 := s3.(phase := Scanning([], e.lag, e.lag, NoReload), cache := map["a" := Entry(1, false)]);
    var s6 := s5.(last := e.lag, phase := Idle);
    var s7 := s6.(rows := map["a" := a, "b" := b], trace := t.(unseen := {"b"}));
    var s8 := s7.(phase := Scanning([a], e.lag, e.lag, NoReload));
    assert StepsTo(e, Begin(e.lag), EndScan, s0);
    FetchingSteps(e, a, s0);
    ReloadingSteps(e, a, s2);
    MissingSteps(e, a, b, s6);
    var steps, states := StartRun(e, e.lag);
    hide *;
    steps, states := Extend(e, steps, states, EndScan, s0);
    steps, states := Extend(e, steps, states, Commit(a), s1);
    steps, states := Extend(e, steps, states, BeginScan([a]), s2);
    steps, states := Extend(e, steps, states, HandleRelease, s3);
    steps, states := Extend(e, steps, states, ReloadReads, s4);
    steps, states := Extend(e, steps, states, ReloadStores, s5);
    steps, states := Extend(e, steps, states, EndScan, s6);
    steps, states := Extend(e, steps, states, Commit(b), s7);
    steps, states := Extend(e, steps, states, BeginScan([a]), s8);
    LastMissed(steps, states);
  }

  /** The ten seconds are exactly what is needed: no run misses a release if and only if
      releases become visible within that, or in less than that where the query is strict. */
  lemma ScanWindowIsTight(e: Store)
    ensures (forall steps, states :: IsRun(e, steps, states) ==> NothingMissed(steps, states))
            <==> e.lag + Slack(e) <= SCAN_OFFSET
  {
    if e.lag + Slack(e) <= SCAN_OFFSET {
      forall steps, states | IsRun(e, steps, states) ensures NothingMissed(steps, states) {
        NoMissedRelease(e, steps, states);
      }
    } else {
      MissedRelease(e);
    }
  }
}
