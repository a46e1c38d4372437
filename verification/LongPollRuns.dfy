/**
 Runs of the machine of `LongPollWatch` in which a client waits in vain, one for each reason that
 `LongPollDelivery` finds, and how promptly releases have to be announced.
 */
module LongPollRuns {
  import Scanner
  import LongPoll
  import ReleaseCache
  import opened LongPollWatch
  import opened LongPollDelivery
  import opened Wrappers

  // ---------------------------------------------------------------- runs step by step

  datatype Trip = Trip(steps: seq<Step>, states: seq<World>)

  /** A run; with a delay given, a calm one. */
  ghost predicate Goes(e: Scanner.Store, calm: Option<nat>, t: Trip) {
    IsRun(e, t.steps, t.states) && (calm.Some? ==> AllCalm(calm.value, t.states))
  }

  ghost predicate IsCalm(calm: Option<nat>, s: World) { calm.Some? ==> Calm(calm.value, s) }

  function End(t: Trip): World
    requires t.states != []
  {
    t.states[|t.states| - 1]
  }

  lemma Go(e: Scanner.Store, calm: Option<nat>, t: Trip, step: Step, s: World) returns (t': Trip)
    requires Goes(e, calm, t) && StepsTo(e, End(t), step, s) && IsCalm(calm, s)
    ensures Goes(e, calm, t') && End(t') == s
  {
    hide StepsTo, Starts, Calm;
    t' := Trip(t.steps + [step], t.states + [s]);
    forall i | 0 <= i < |t'.steps| ensures StepsTo(e, t'.states[i], t'.steps[i], t'.states[i + 1]) {
      if i < |t.steps| { assert StepsTo(e, t.states[i], t.steps[i], t.states[i + 1]); }
    }
  }

  /** A step of the scanner that neither decides nor commits. */
  lemma GoScan(e: Scanner.Store, calm: Option<nat>, t: Trip, step: Scanner.Step, s: Scanner.State) returns (t': Trip)
    requires Goes(e, calm, t) && Scanner.StepsTo(e, End(t).scan, step, s)
    requires !step.Commit? && !step.EndScan? && Decide(End(t), step, End(t).scan.now).None?
    requires IsCalm(calm, End(t).(scan := s))
    ensures Goes(e, calm, t') && End(t') == End(t).(scan := s)
  {
    var w := End(t);
    assert StepsTo(e, w, Scan(step, w.scan.now), w.(scan := s)) by {
      hide Scanner.Enabled, Scanner.Apply, Decide;
      assert Scanner.Enabled(e, w.scan, step) && s == Scanner.Apply(w.scan, step);
    }
    hide *;
    t' := Go(e, calm, t, Scan(step, w.scan.now), w.(scan := s));
  }

  lemma GoEndScan(e: Scanner.Store, calm: Option<nat>, t: Trip, s: Scanner.State) returns (t': Trip)
    requires Goes(e, calm, t) && Scanner.StepsTo(e, End(t).scan, Scanner.EndScan, s)
    requires IsCalm(calm, End(t).(scan := s, first := false))
    ensures Goes(e, calm, t') && End(t') == End(t).(scan := s, first := false)
  {
    var w := End(t);
    assert StepsTo(e, w, Scan(Scanner.EndScan, w.scan.now), w.(scan := s, first := false)) by {
      assert Decide(w, Scanner.EndScan, w.scan.now).None?;
      hide Scanner.Enabled, Scanner.Apply, Decide;
      assert Scanner.Enabled(e, w.scan, Scanner.EndScan) && s == Scanner.Apply(w.scan, Scanner.EndScan);
    }
    hide *;
    t' := Go(e, calm, t, Scan(Scanner.EndScan, w.scan.now), w.(scan := s, first := false));
  }

  // ---------------------------------------------------------------- before anything is released

  /** The first scan has found nothing. */
  function Scan0(): Scanner.State { Scanner.Begin(0).(phase := Scanner.Idle) }

  function World0(): World { World(Scan0(), false, LongPoll.Init(0), [], None, map[], map[], NoNotes) }

  function Asking(version: nat): seq<LongPoll.FileInfo> { [LongPoll.FileInfo("a", version)] }

  lemma Open(e: Scanner.Store, calm: Option<nat>) returns (t: Trip)
    ensures Goes(e, calm, t) && End(t) == World0()
  {
    var w := World0().(scan := Scanner.Begin(0), first := true);
    t := Trip([], [w]);
    assert Goes(e, calm, t);
    assert Scanner.StepsTo(e, w.scan, Scanner.EndScan, Scan0());
    assert IsCalm(calm, World0());
    hide *;
    t := GoEndScan(e, calm, t, Scan0());
    assert End(t) == World0() by { hide Scan0; }
  }

  /** A load caches the file as gone, for the comparison; the entry expires later. */
  function Empty(): Scanner.Cache { map["a" := Scanner.Entry(0, true)] }

  lemma EmptySteps(e: Scanner.Store)
    ensures var s0 := Scan0();
            && Scanner.StepsTo(e, s0, Scanner.LoadReads("a"), s0.(loading := Empty()))
            && Scanner.StepsTo(e, s0.(loading := Empty()), Scanner.LoadStores("a"), s0.(cache := Empty()))
            && Scanner.StepsTo(e, s0.(cache := Empty()), Scanner.FileExpires("a"), s0)
  {
    var s0 := Scan0();
    assert Scanner.Put(s0.(loading := Empty()), "a") == s0.(cache := Empty());
  }

  /** The clients compare their version with the entry: nothing new. */
  lemma CompareEmpty(e: Scanner.Store, calm: Option<nat>, t: Trip, c: string) returns (t': Trip)
    requires Goes(e, calm, t) && End(t).scan == Scan0().(cache := Empty()) && !End(t).first
    requires End(t).notes == NoNotes && c !in End(t).checks && End(t).poll == LongPoll.Init(0)
    ensures Goes(e, calm, t') && End(t') == End(t).(checks := End(t).checks[c := Check(Asking(0), 1)])
  {
    var w := End(t);
    var w1 := w.(checks := w.checks[c := Check(Asking(0), 0)]);
    var w2 := w.(checks := w.checks[c := Check(Asking(0), 1)]);
    assert StepsTo(e, w, BeginCheck(c, Asking(0)), w1);
    assert w1.checks[c := Check(Asking(0), 1)] == w2.checks;
    assert StepsTo(e, w1, CompareNext(c), w2);
    assert IsCalm(calm, w1) && IsCalm(calm, w2);
    hide *;
    t' := Go(e, calm, t, BeginCheck(c, Asking(0)), w1);
    t' := Go(e, calm, t', CompareNext(c), w2);
  }

  lemma Compared(e: Scanner.Store, calm: Option<nat>, both: bool) returns (t: Trip)
    ensures Goes(e, calm, t)
    ensures End(t) == World0().(checks := if both then map["c" := Check(Asking(0), 1), "d" := Check(Asking(0), 1)]
                                          else map["c" := Check(Asking(0), 1)])
  {
    t := Open(e, calm);
    EmptySteps(e);
    var s0 := Scan0();
    t := GoScan(e, calm, t, Scanner.LoadReads("a"), s0.(loading := Empty()));
    t := GoScan(e, calm, t, Scanner.LoadStores("a"), s0.(cache := Empty()));
    t := CompareEmpty(e, calm, t, "c");
    if both { t := CompareEmpty(e, calm, t, "d"); }
    t := GoScan(e, calm, t, Scanner.FileExpires("a"), s0);
  }

  // ---------------------------------------------------------------- registering

  function Connected(w: World, c: string, version: nat): World {
    w.(poll := w.poll.(conns := map[c := LongPoll.Conn(Asking(version), LongPoll.LONG_POLLING_TIMEOUT)],
                       asked := map[c := Asking(version)], watchers := map["a" := map[c := version]]),
       checks := map[])
  }

  lemma JoinSteps(e: Scanner.Store, w: World, c: string, version: nat)
    requires w.checks == map[c := Check(Asking(version), 1)]
    requires w.poll == LongPoll.Init(0) && w.joins == map[] && w.notes.lost == {}
    ensures var w3 := Connected(w, c, version);
            var w1 := w3.(poll := w3.poll.(watchers := map[]), joins := map[c := Join(0, false)]);
            var w2 := w1.(joins := map[c := Join(0, true)]);
            StepsTo(e, w, Connect(c), w1) && StepsTo(e, w1, LookUp(c), w2) && StepsTo(e, w2, Lock(c), w3)
  {
    var w3 := Connected(w, c, version);
    var w1 := w3.(poll := w3.poll.(watchers := map[]), joins := map[c := Join(0, false)]);
    assert ConnectStep(w, c) == w1;
    assert LockStep(w1.(joins := map[c := Join(0, true)]), c) == w3;
  }

  /** The one client is connected and registered. */
  lemma JoinOne(e: Scanner.Store, calm: Option<nat>, t: Trip, c: string, version: nat) returns (t': Trip)
    requires Goes(e, calm, t) && IsCalm(calm, End(t)) && End(t).checks == map[c := Check(Asking(version), 1)]
    requires End(t).poll == LongPoll.Init(0) && End(t).joins == map[] && End(t).notes.lost == {}
    ensures Goes(e, calm, t') && End(t') == Connected(End(t), c, version)
  {
    var w, w3 := End(t), Connected(End(t), c, version);
    var w1 := w3.(poll := w3.poll.(watchers := map[]), joins := map[c := Join(0, false)]);
    var w2 := w1.(joins := map[c := Join(0, true)]);
    assert IsCalm(calm, w1) && IsCalm(calm, w2) && IsCalm(calm, w3);
    hide *;
    JoinSteps(e, w, c, version);
    t' := Go(e, calm, t, Connect(c), w1);
    t' := Go(e, calm, t', LookUp(c), w2);
    t' := Go(e, calm, t', Lock(c), w3);
  }

  // ---------------------------------------------------------------- releasing

  function Row(): Scanner.Release { Scanner.Release("a", 1, false, 0) }

  function Released(delay: nat): Scanner.State {
    Scanner.State(delay, map["a" := Row()], map["a" := Scanner.Entry(1, false)], map[], 0, Scanner.Idle,
                  Scanner.NoTrace.(handled := map["a" := delay]))
  }

  /** Committed, and fetched after a while. */
  lemma FetchSteps(e: Scanner.Store, delay: nat)
    ensures var s0 := Scan0();
            var s1 := s0.(rows := map["a" := Row()], trace := Scanner.NoTrace.(unseen := {"a"}));
            var s2 := s1.(now := delay);
            var s3 := s2.(phase := Scanner.Scanning([Row()], s0.last, delay, Scanner.NoReload),
                          trace := Scanner.NoTrace);
            && Scanner.StepsTo(e, s0, Scanner.Commit(Row()), s1) && Scanner.StepsTo(e, s1, Scanner.Tick(delay), s2)
            && Scanner.StepsTo(e, s2, Scanner.BeginScan([Row()]), s3)
  {
    var s0 := Scan0();
    var s1 := s0.(rows := map["a" := Row()], trace := Scanner.NoTrace.(unseen := {"a"}));
    assert Scanner.CommitRow(s0, Row()) == s1;
    assert Scanner.Lists(e, [Row()], s1.rows, s0.last - Scanner.SCAN_OFFSET);
  }

  /** The verdict after a reload. */
  lemma GoSend(e: Scanner.Store, calm: Option<nat>, t: Trip, step: Scanner.Step, s: Scanner.State) returns (t': Trip)
    requires Goes(e, calm, t) && Scanner.StepsTo(e, End(t).scan, step, s)
    requires Scanner.Handling(End(t).scan) && (step.ReloadStores? || step.ReloadFinds?) && !End(t).first
    requires IsRow(End(t).scan, Scanner.Head(End(t).scan))
    requires var w, r := End(t), Scanner.Head(End(t).scan);
             IsCalm(calm, w.(scan := s, notes := Noted(w.notes, r.file, Send(false, r, w.scan.now))))
    ensures Goes(e, calm, t')
    ensures var w, r := End(t), Scanner.Head(End(t).scan);
            End(t') == w.(scan := s, notes := Noted(w.notes, r.file, Send(false, r, w.scan.now)),
                          queue := QueueAfter(w, Some(Send(false, r, w.scan.now))))
  {
    var w, r := End(t), Scanner.Head(End(t).scan);
    var verdict := Send(false, r, w.scan.now);
    var w' := w.(scan := s, notes := Noted(w.notes, r.file, verdict), queue := QueueAfter(w, Some(verdict)));
    assert StepsTo(e, w, Scan(step, w.scan.now), w') by {
      assert Decide(w, step, w.scan.now) == Some(verdict);
      hide Scanner.Enabled, Scanner.Apply, Decide, Send;
      assert Scanner.Enabled(e, w.scan, step) && s == Scanner.Apply(w.scan, step);
    }
    assert IsCalm(calm, w');
    hide *;
    t' := Go(e, calm, t, Scan(step, w.scan.now), w');
  }

  /** `a` is committed, fetched, reloaded and announced, unless that is too late. */
  function Publication(w: World, delay: nat): World {
    var verdict := Send(false, Row(), delay);
    w.(scan := Released(delay), notes := Noted(w.notes, "a", verdict),
       queue := if verdict.Sent? then w.queue + [Message("a", 1)] else w.queue)
  }

  lemma CommitFirst(e: Scanner.Store, w: World, s: Scanner.State)
    requires Scanner.StepsTo(e, w.scan, Scanner.Commit(Row()), s)
    requires w.notes == NoNotes.(lost := w.notes.lost)
    ensures StepsTo(e, w, Scan(Scanner.Commit(Row()), w.scan.now), w.(scan := s))
  {
    assert Decide(w, Scanner.Commit(Row()), w.scan.now).None?;
    hide Scanner.Enabled, Scanner.Apply, Decide;
    assert Voided(w.notes, "a") == w.notes;
    assert Scanner.Enabled(e, w.scan, Scanner.Commit(Row())) && s == Scanner.Apply(w.scan, Scanner.Commit(Row()));
  }

  function Fetched(delay: nat): Scanner.State {
    Scan0().(now := delay, rows := map["a" := Row()],
             phase := Scanner.Scanning([Row()], -Scanner.FIRST_SCAN_OFFSET, delay, Scanner.NoReload))
  }

  lemma Fetch(e: Scanner.Store, calm: Option<nat>, t: Trip, delay: nat) returns (t': Trip)
    requires Goes(e, calm, t) && End(t).scan == Scan0()
    requires End(t).notes == NoNotes.(lost := End(t).notes.lost) && (calm.Some? ==> End(t).notes == NoNotes)
    ensures Goes(e, calm, t') && End(t') == End(t).(scan := Fetched(delay))
  {
    var w, s0 := End(t), Scan0();
    var s1 := s0.(rows := map["a" := Row()], trace := Scanner.NoTrace.(unseen := {"a"}));
    FetchSteps(e, delay);
    CommitFirst(e, w, s1);
    hide Scanner.StepsTo, StepsTo, Goes;
    t' := Go(e, calm, t, Scan(Scanner.Commit(Row()), w.scan.now), w.(scan := s1));
    t' := GoScan(e, calm, t', Scanner.Tick(delay), s1.(now := delay));
    t' := GoScan(e, calm, t', Scanner.BeginScan([Row()]), Fetched(delay));
  }

  lemma Publish(e: Scanner.Store, calm: Option<nat>, t: Trip, delay: nat) returns (t': Trip)
    requires Goes(e, calm, t) && End(t).scan == Scan0() && !End(t).first
    requires End(t).notes == NoNotes.(lost := End(t).notes.lost)
    requires calm.Some? ==> calm.value == delay && End(t).notes == NoNotes
    ensures Goes(e, calm, t') && End(t') == Publication(End(t), delay)
  {
    t' := Fetch(e, calm, t, delay);
    var s3, last := Fetched(delay), -Scanner.FIRST_SCAN_OFFSET;
    var s4 := s3.(phase := Scanner.Scanning([Row()], last, delay, Scanner.Waiting),
                  trace := Scanner.NoTrace.(handled := map["a" := delay]));
    var loaded := map["a" := Scanner.Entry(1, false)];
    var s5 := s4.(phase := Scanner.Scanning([Row()], last, delay, Scanner.Loading), loading := loaded);
    var s6 := s4.(phase := Scanner.Scanning([], 0, delay, Scanner.NoReload), cache := loaded);
    Scanner.ReloadingSteps(e, Row(), s3);
    hide Scanner.StepsTo, Goes;
    t' := GoScan(e, calm, t', Scanner.HandleRelease, s4);
    t' := GoScan(e, calm, t', Scanner.ReloadReads, s5);
    t' := GoSend(e, calm, t', Scanner.ReloadStores, s6);
    t' := GoEndScan(e, calm, t', Released(delay));
  }

  // ---------------------------------------------------------------- five ways to wait in vain

  predicate InVain(s: World, c: string) {
    Settled(s) && Watching(s, c, "a") && WaitsInVain(s, c, "a")
  }

  lemma VersionAsked(version: nat)
    ensures LongPoll.Watches(Asking(version), "a") && LongPoll.VersionOf(Asking(version), "a") == version
  {
    assert Asking(version)[0].fileId == "a";
  }

  /** The release is handled, reloaded and not announced, because it is older than five seconds. */
  lemma TooLateWaits(e: Scanner.Store, delay: nat)
    requires delay > Scanner.MESSAGE_EXPIRE
    ensures exists steps, states ::
              IsRun(e, steps, states) && AllCalm(delay, states) && InVain(states[|states| - 1], "c")
  {
    var calm := Some(delay);
    var t := Compared(e, calm, false);
    t := JoinOne(e, calm, t, "c", 0);
    t := Publish(e, calm, t, delay);
    VersionAsked(0);
    assert InVain(End(t), "c");
  }

  /** Among the runs in which nobody is passed, misled or lost and no release is cached before
      it is handled, the expiry is exactly what bounds announcements: everybody is told if and
      only if releases are announced within five seconds of their modification time. */
  lemma AnnouncementWindowIsTight(e: Scanner.Store, delay: nat)
    ensures (forall steps, states :: IsRun(e, steps, states) && AllCalm(delay, states) ==> EverybodyTold(states))
            <==> delay <= Scanner.MESSAGE_EXPIRE
  {
    if delay <= Scanner.MESSAGE_EXPIRE {
      forall steps, states | IsRun(e, steps, states) && AllCalm(delay, states) ensures EverybodyTold(states) {
        CalmIsTold(e, delay, steps, states);
      }
    } else {
      TooLateWaits(e, delay);
    }
  }

  /** The announcement is taken from the queue and nobody has to be told. */
  lemma WorkOff(e: Scanner.Store, t: Trip, m: Message, passed: set<Watch>) returns (t': Trip)
    requires Goes(e, None, t) && End(t).queue == [m] && End(t).work.None?
    requires Lower(End(t).poll.watchers, m) == {}
    requires TakeStep(End(t)).notes == End(t).notes.(passed := passed)
    ensures Goes(e, None, t')
    ensures End(t') == End(t).(queue := [], notes := End(t).notes.(passed := passed))
  {
    var w := End(t);
    var w1 := w.(queue := [], work := Some(Work(m, {})), notes := w.notes.(passed := passed));
    assert [m][1..] == [];
    assert StepsTo(e, w, Take, w1) && StepsTo(e, w1, WorkDone, w1.(work := None));
    hide *;
    t' := Go(e, None, t, Take, w1);
    t' := Go(e, None, t', WorkDone, w1.(work := None));
  }

  predicate InVainPassed(s: World) { InVain(s, "c") && Watch("c", "a") in s.notes.passed }

  /** The announcement is worked off after the client was compared and before it is registered. */
  lemma PassedWaits(e: Scanner.Store)
    ensures exists steps, states :: IsRun(e, steps, states) && InVainPassed(states[|states| - 1])
  {
    var t := Compared(e, None, false);
    t := Publish(e, None, t, 0);
    VersionAsked(0);
    assert Overlooked(End(t), Message("a", 1), "c");
    assert TakeStep(End(t)).notes.passed == {Watch("c", "a")};
    t := WorkOff(e, t, Message("a", 1), {Watch("c", "a")});
    t := JoinOne(e, None, t, "c", 0);
    assert InVainPassed(End(t));
  }

  // ---------------------------------------------------------------- cached before

  function Committed(cache: Scanner.Cache): Scanner.State {
    Scan0().(rows := map["a" := Row()], cache := cache, trace := Scanner.NoTrace.(unseen := {"a"}))
  }

  function FetchedLoaded(): Scanner.State { Fetched(0).(cache := Released(0).cache) }

  /** Another client loads the release before the scanner handles it. */
  lemma LoadSteps(e: Scanner.Store)
    ensures var s1, loaded := Committed(map[]), Released(0).cache;
            && Scanner.StepsTo(e, Scan0(), Scanner.Commit(Row()), s1)
            && Scanner.StepsTo(e, s1, Scanner.LoadReads("a"), s1.(loading := loaded))
            && Scanner.StepsTo(e, s1.(loading := loaded), Scanner.LoadStores("a"), Committed(loaded))
            && Scanner.StepsTo(e, Committed(loaded), Scanner.BeginScan([Row()]), FetchedLoaded())
  {
    var s1, loaded := Committed(map[]), Released(0).cache;
    assert Scanner.CommitRow(Scan0(), Row()) == s1;
    assert Scanner.Put(s1.(loading := loaded), "a") == Committed(loaded);
    assert Scanner.Lists(e, [Row()], s1.rows, s1.last - Scanner.SCAN_OFFSET);
    assert Scanner.Apply(Committed(loaded), Scanner.BeginScan([Row()])) == FetchedLoaded();
  }

  lemma SkipSteps(e: Scanner.Store)
    ensures var s5 := Released(0).(phase := Scanner.Scanning([], 0, 0, Scanner.NoReload),
                                   last := -Scanner.FIRST_SCAN_OFFSET);
            && Scanner.StepsTo(e, FetchedLoaded(), Scanner.HandleRelease, s5)
            && Scanner.StepsTo(e, s5, Scanner.EndScan, Released(0))
  {
    assert [Row()][1..] == [];
    assert Scanner.Handle(FetchedLoaded()) ==
           Released(0).(phase := Scanner.Scanning([], 0, 0, Scanner.NoReload), last := -Scanner.FIRST_SCAN_OFFSET);
  }

  predicate InVainLoaded(s: World) {
    InVain(s, "c") && "a" in s.notes.verdicts && s.notes.verdicts["a"].Loaded?
  }

  lemma HandledLoaded(e: Scanner.Store, w: World, s: Scanner.State)
    requires Scanner.StepsTo(e, w.scan, Scanner.HandleRelease, s) && IsRow(w.scan, Scanner.Head(w.scan))
    requires !Scanner.Behind(w.scan.cache, Scanner.Head(w.scan))
    ensures StepsTo(e, w, Scan(Scanner.HandleRelease, w.scan.now),
                    w.(scan := s, notes := Noted(w.notes, Scanner.Head(w.scan).file, Loaded)))
  {
    assert Decide(w, Scanner.HandleRelease, w.scan.now) == Some(Loaded);
    hide Scanner.Apply, Decide;
    assert s == Scanner.Apply(w.scan, Scanner.HandleRelease);
  }

  lemma LoadBefore(e: Scanner.Store, t: Trip) returns (t': Trip)
    requires Goes(e, None, t) && End(t).scan == Scan0() && End(t).notes == NoNotes
    ensures Goes(e, None, t') && End(t') == End(t).(scan := FetchedLoaded())
  {
    var w, s1, loaded := End(t), Committed(map[]), Released(0).cache;
    LoadSteps(e);
    CommitFirst(e, w, s1);
    hide Scanner.StepsTo, StepsTo, Goes;
    t' := Go(e, None, t, Scan(Scanner.Commit(Row()), w.scan.now), w.(scan := s1));
    t' := GoScan(e, None, t', Scanner.LoadReads("a"), s1.(loading := loaded));
    t' := GoScan(e, None, t', Scanner.LoadStores("a"), Committed(loaded));
    t' := GoScan(e, None, t', Scanner.BeginScan([Row()]), FetchedLoaded());
  }

  /** The scanner finds the release cached already, and says nothing. */
  lemma LoadedWaits(e: Scanner.Store)
    ensures exists steps, states :: IsRun(e, steps, states) && InVainLoaded(states[|states| - 1])
  {
    var t := Compared(e, None, false);
    t := JoinOne(e, None, t, "c", 0);
    t := LoadBefore(e, t);
    var w := End(t);
    var s5 := Released(0).(phase := Scanner.Scanning([], 0, 0, Scanner.NoReload), last := -Scanner.FIRST_SCAN_OFFSET);
    var w5 := w.(scan := s5, notes := Noted(w.notes, "a", Loaded));
    SkipSteps(e);
    HandledLoaded(e, w, s5);
    VersionAsked(0);
    assert InVainLoaded(w5.(scan := Released(0), first := false));
    hide Scanner.StepsTo, StepsTo, InVainLoaded;
    t := Go(e, None, t, Scan(Scanner.HandleRelease, 0), w5);
    t := GoEndScan(e, None, t, Released(0));
  }

  // ---------------------------------------------------------------- lost

  function TwoConns(): LongPoll.State {
    var conn := LongPoll.Conn(Asking(0), LongPoll.LONG_POLLING_TIMEOUT);
    LongPoll.Init(0).(conns := map["c" := conn, "d" := conn], asked := map["c" := Asking(0), "d" := Asking(0)])
  }

  /** Both clients look for watchers before either has made the list. */
  lemma LosingSteps(e: Scanner.Store, w: World)
    requires w.checks == map["c" := Check(Asking(0), 1), "d" := Check(Asking(0), 1)]
    requires w.poll == LongPoll.Init(0) && w.joins == map[] && w.notes == NoNotes
    ensures var w1 := ConnectStep(w, "c");
            var w2 := w.(poll := TwoConns(), checks := map[],
                         joins := map["c" := Join(0, false), "d" := Join(0, false)]);
            var w3 := w2.(joins := map["c" := Join(0, true), "d" := Join(0, false)]);
            var w4 := w2.(joins := map["c" := Join(0, true), "d" := Join(0, true)]);
            && StepsTo(e, w, Connect("c"), w1) && StepsTo(e, w1, Connect("d"), w2)
            && StepsTo(e, w2, LookUp("c"), w3) && StepsTo(e, w3, LookUp("d"), w4)
  {
    assert ConnectStep(ConnectStep(w, "c"), "d") ==
           w.(poll := TwoConns(), checks := map[], joins := map["c" := Join(0, false), "d" := Join(0, false)]);
  }

  lemma LockingSteps(e: Scanner.Store, w: World)
    requires w.poll == TwoConns() && w.joins == map["c" := Join(0, true), "d" := Join(0, true)] && w.notes == NoNotes
    ensures var poll := w.poll.(watchers := map["a" := map["c" := 0]]);
            var w1 := w.(poll := poll, joins := map["d" := Join(0, true)]);
            var w2 := w1.(joins := map[], notes := NoNotes.(lost := {Watch("d", "a")}));
            StepsTo(e, w, Lock("c"), w1) && StepsTo(e, w1, Lock("d"), w2)
  {
    var w1 := w.(poll := w.poll.(watchers := map["a" := map["c" := 0]]), joins := map["d" := Join(0, true)]);
    assert LockStep(w, "c") == w1;
    assert LockStep(w1, "d") == w1.(joins := map[], notes := NoNotes.(lost := {Watch("d", "a")}));
  }

  predicate InVainLost(s: World) { InVain(s, "d") && Watch("d", "a") in s.notes.lost }

  function BothJoined(): World {
    World0().(poll := TwoConns().(watchers := map["a" := map["c" := 0]]), notes := NoNotes.(lost := {Watch("d", "a")}))
  }

  lemma JoinBoth(e: Scanner.Store) returns (t: Trip)
    ensures Goes(e, None, t) && End(t) == BothJoined()
  {
    t := Compared(e, None, true);
    var w := End(t);
    LosingSteps(e, w);
    var w2 := w.(poll := TwoConns(), checks := map[], joins := map["c" := Join(0, false), "d" := Join(0, false)]);
    var w4 := w2.(joins := map["c" := Join(0, true), "d" := Join(0, true)]);
    LockingSteps(e, w4);
    hide StepsTo, Goes, ConnectStep, TwoConns;
    t := Go(e, None, t, Connect("c"), ConnectStep(w, "c"));
    t := Go(e, None, t, Connect("d"), w2);
    t := Go(e, None, t, LookUp("c"), w2.(joins := map["c" := Join(0, true), "d" := Join(0, false)]));
    t := Go(e, None, t, LookUp("d"), w4);
    var poll := w4.poll.(watchers := map["a" := map["c" := 0]]);
    t := Go(e, None, t, Lock("c"), w4.(poll := poll, joins := map["d" := Join(0, true)]));
    t := Go(e, None, t, Lock("d"), BothJoined());
  }

  lemma TellingSteps(e: Scanner.Store, w: World)
    requires w.poll == BothJoined().poll && w.joins == map[] && w.checks == map[]
    requires w.queue == [Message("a", 1)] && w.work.None? && w.notes.passed == {}
    ensures var w1 := w.(queue := [], work := Some(Work(Message("a", 1), {"c"})));
            var w2 := w1.(poll := LongPoll.Finish(w1.poll, "c", LongPoll.Published("a", 1)));
            && StepsTo(e, w, Take, w1) && StepsTo(e, w1, Visit("c"), w2) && StepsTo(e, w2, WorkDone, w2.(work := None))
  {
    assert Lower(w.poll.watchers, Message("a", 1)) == {"c"};
    var w1 := w.(queue := [], work := Some(Work(Message("a", 1), {"c"})));
    assert TakeStep(w) == w1;
    assert Asking(0)[..0] == [];
    assert LongPoll.RemoveWatcher(w1.poll.watchers, "c", Asking(0)) == map["a" := map[]];
  }

  /** The client that made the list is told, the other one is not. */
  lemma LostWaits(e: Scanner.Store)
    ensures exists steps, states :: IsRun(e, steps, states) && InVainLost(states[|states| - 1])
  {
    var t := JoinBoth(e);
    t := Publish(e, None, t, 0);
    var w := End(t);
    var w1 := w.(queue := [], work := Some(Work(Message("a", 1), {"c"})));
    var w2 := w1.(poll := LongPoll.Finish(w1.poll, "c", LongPoll.Published("a", 1)));
    TellingSteps(e, w);
    VersionAsked(0);
    assert InVainLost(w2.(work := None));
    hide StepsTo, InVainLost;
    t := Go(e, None, t, Take, w1);
    t := Go(e, None, t, Visit("c"), w2);
    t := Go(e, None, t, WorkDone, w2.(work := None));
  }

  // ---------------------------------------------------------------- misled

  function Second(): Scanner.Release { Scanner.Release("a", 2, false, 0) }

  /** The scanner has taken the older entry of a load that raced. */
  function Raced(): Scanner.State {
    Scanner.State(0, map["a" := Second()], map["a" := Scanner.Entry(1, false)], map[], 0, Scanner.Idle,
                  Scanner.Trace({}, map["a" := 0], {}, {"a"}))
  }

  function RacedWorld(): World {
    World0().(scan := Raced(), notes := Noted(NoNotes, "a", Sent(0)))
  }

  lemma CommitSecond(e: Scanner.Store, w: World, s: Scanner.State)
    requires Scanner.StepsTo(e, w.scan, Scanner.Commit(Second()), s) && w.notes == NoNotes
    ensures StepsTo(e, w, Scan(Scanner.Commit(Second()), w.scan.now), w.(scan := s))
  {
    assert Decide(w, Scanner.Commit(Second()), w.scan.now).None?;
    hide Scanner.Enabled, Scanner.Apply, Decide;
    assert Voided(NoNotes, "a") == NoNotes;
    assert Scanner.Enabled(e, w.scan, Scanner.Commit(Second()));
    assert s == Scanner.Apply(w.scan, Scanner.Commit(Second()));
  }

  lemma Race(e: Scanner.Store) returns (t: Trip)
    ensures Goes(e, None, t) && End(t) == RacedWorld().(queue := [Message("a", 2)])
  {
    t := Open(e, None);
    var w, s0 := End(t), Scan0();
    var s1 := s0.(rows := map["a" := Row()], trace := Scanner.NoTrace.(unseen := {"a"}));
    var s2 := s1.(loading := map["a" := Scanner.Entry(1, false)]);
    var s3 := s2.(rows := map["a" := Second()], trace := Scanner.Trace({"a"}, map[], {"a"}, {}));
    var s4 := s3.(phase := Scanner.Scanning([Second()], s0.last, 0, Scanner.NoReload),
                  trace := Scanner.Trace({}, map[], {"a"}, {}));
    var s5 := s4.(phase := Scanner.Scanning([Second()], s0.last, 0, Scanner.Waiting),
                  trace := Scanner.Trace({}, map["a" := 0], {"a"}, {}));
    var s6 := s5.(cache := map["a" := Scanner.Entry(1, false)], loading := map[],
                  trace := Scanner.Trace({}, map["a" := 0], {}, {"a"}));
    var s7 := s6.(phase := Scanner.Scanning([], 0, 0, Scanner.NoReload));
    ReleaseCache.PassingSteps(e, s0, Row(), Second());
    ReleaseCache.WaitingSteps(e, s4, Second());
    CommitFirst(e, w, s1);
    CommitSecond(e, w.(scan := s2), s3);
    hide Scanner.StepsTo, StepsTo, Goes;
    t := Go(e, None, t, Scan(Scanner.Commit(Row()), 0), w.(scan := s1));
    t := GoScan(e, None, t, Scanner.LoadReads("a"), s2);
    t := Go(e, None, t, Scan(Scanner.Commit(Second()), 0), w.(scan := s3));
    t := GoScan(e, None, t, Scanner.BeginScan([Second()]), s4);
    t := GoScan(e, None, t, Scanner.HandleRelease, s5);
    t := GoScan(e, None, t, Scanner.LoadStores("a"), s6);
    t := GoSend(e, None, t, Scanner.ReloadFinds, s7);
    t := GoEndScan(e, None, t, Raced());
  }

  lemma MisledSteps(e: Scanner.Store)
    ensures var w := RacedWorld();
            var w1 := w.(checks := map["c" := Check(Asking(1), 0)]);
            var w2 := w.(checks := map["c" := Check(Asking(1), 1)],
                         notes := w.notes.(misled := {Watch("c", "a")}));
            StepsTo(e, w, BeginCheck("c", Asking(1)), w1) && StepsTo(e, w1, CompareNext("c"), w2)
  {
    VersionAsked(1);
    var w1 := RacedWorld().(checks := map["c" := Check(Asking(1), 0)]);
    assert Below(w1.scan.rows, Asking(1), "a");
    assert Compare(w1, "c").checks == map["c" := Check(Asking(1), 1)];
  }

  predicate InVainMisled(s: World) { InVain(s, "c") && Watch("c", "a") in s.notes.misled }

  /** The client is compared with the older entry after everything is announced. */
  lemma MisledWaits(e: Scanner.Store)
    ensures exists steps, states :: IsRun(e, steps, states) && InVainMisled(states[|states| - 1])
  {
    var t := Race(e);
    t := WorkOff(e, t, Message("a", 2), {});
    var w := RacedWorld();
    assert End(t) == w;
    MisledSteps(e);
    var w2 := w.(checks := map["c" := Check(Asking(1), 1)], notes := w.notes.(misled := {Watch("c", "a")}));
    t := Go(e, None, t, BeginCheck("c", Asking(1)), w.(checks := map["c" := Check(Asking(1), 0)]));
    t := Go(e, None, t, CompareNext("c"), w2);
    t := JoinOne(e, None, t, "c", 1);
    VersionAsked(1);
    assert InVainMisled(End(t));
  }
}
