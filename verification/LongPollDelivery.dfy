/**
 Who is told about a release: the theorems over the machine of `LongPollWatch`.

 A client that waits with an outdated version, once everything committed was fetched and handled
 and every announcement was worked off, has one of four reasons. The release was not announced;
 the client was not registered yet when the announcement was taken; it was compared with an
 entry of a load that raced; or it lost its registration.
 */
module LongPollDelivery {
  import Scanner
  import ReleaseCache
  import ScannerService
  import LongPoll
  import opened LongPollWatch
  import opened Wrappers

  /** The present row is yet to be fetched or handled. */
  predicate Pending(s: Scanner.State, f: string) { f in s.trace.unseen || ReleaseCache.Due(s, f) }

  /** The present row was handled and has not been announced. */
  predicate Unsaid(s: World, f: string) { f in s.scan.trace.handled && f !in s.notes.announced }

  /** And the first scan did not meet it, when there were no clients. */
  predicate Silent(s: World, f: string) {
    Unsaid(s, f) && !(f in s.notes.verdicts && s.notes.verdicts[f].FirstScan?)
  }

  /** Compared, and with a version below the live row. */
  predicate Outdated(s: World, c: string, f: string) { Asks(s, c, f) && Below(s.scan.rows, FilesOf(s, c), f) }

  /** The announcement is being worked off and has to get to the client yet. */
  predicate OnItsWay(s: World, c: string, m: Message) {
    && s.work.Some? && s.work.value.message == m && c in s.work.value.must
    && c in s.poll.conns && c !in s.joins && WaitsLower(s, c, m)
  }

  /** Why a client waits with an outdated version, at the end of the day. */
  predicate Unserved(s: World, c: string, f: string) {
    || Silent(s, f) || Watch(c, f) in s.notes.passed || Watch(c, f) in s.notes.misled
    || (c in s.poll.conns && c !in s.joins && Watch(c, f) in s.notes.lost)
  }

  /** And before. */
  predicate Informed(s: World, c: string, f: string) {
    Outdated(s, c, f) ==>
      var m := Message(f, s.scan.rows[f].version);
      Pending(s.scan, f) || m in s.queue || OnItsWay(s, c, m) || Unserved(s, c, f)
  }

  /** The present row is being reloaded. */
  predicate Reloading(s: Scanner.State, f: string) {
    Scanner.Handling(s) && !s.phase.reload.NoReload? && Scanner.Head(s).file == f && IsRow(s, Scanner.Head(s))
  }

  /** A row that was handled and not announced has a verdict that says why. */
  predicate VerdictKnown(s: World, f: string) {
    && (f in s.notes.announced ==> f in s.scan.trace.handled)
    && (f in s.notes.verdicts ==> f in s.scan.trace.handled && f in s.scan.rows)
    && (f in s.notes.verdicts && s.notes.verdicts[f].Sent? ==> f in s.notes.announced)
    && (f in s.notes.verdicts && s.notes.verdicts[f].TooLate? ==>
          Scanner.Expired(s.scan.rows[f], s.notes.verdicts[f].at))
    && (Unsaid(s, f) ==> Reloading(s.scan, f) || (f in s.notes.verdicts && !s.notes.verdicts[f].Sent?))
  }

  /** Who was passed or misled and is still there is outdated. */
  predicate WatchKnown(s: World, w: Watch) {
    w in s.notes.passed || w in s.notes.misled ==>
      FilesOf(s, w.client) != [] ==> Below(s.scan.rows, FilesOf(s, w.client), w.fileId)
  }

  predicate NotOpen(s: World) { s.first ==> s.checks == map[] && s.poll.conns == map[] }

  ghost predicate Delivered(s: World) {
    && ReleaseCache.Followed(s.scan) && Entered(s) && NotOpen(s)
    && (forall f :: VerdictKnown(s, f))
    && (forall w :: WatchKnown(s, w))
    && (forall c, f :: Informed(s, c, f))
  }

  // ---------------------------------------------------------------- steps of the scanner

  /** A row that is not replaced stays, once handled it stays handled, and it gets handled. */
  lemma PendingStep(e: Scanner.Store, s: Scanner.State, step: Scanner.Step, f: string)
    requires ReleaseCache.Followed(s) && Scanner.Enabled(e, s, step) && f in s.rows
    requires !(step.Commit? && step.row.file == f)
    ensures var s' := Scanner.Apply(s, step);
            && f in s'.rows && s'.rows[f] == s.rows[f]
            && (f in s.trace.handled ==> f in s'.trace.handled)
            && (Pending(s, f) ==> Pending(s', f) || f in s'.trace.handled)
  {
    hide ReleaseCache.LoadsKnown, ReleaseCache.RacesKnown, ReleaseCache.EntriesKnown, Scanner.Evict;
    if Scanner.Handling(s) {
      assert s.phase.todo == [Scanner.Head(s)] + s.phase.todo[1..];
    }
  }

  lemma AnnouncedStep(s: World, step: Scanner.Step, sendAt: int, f: string)
    requires f in s.scan.rows && !(step.Commit? && step.row.file == f)
    ensures var s' := ScanStep(s, step, sendAt);
            && (f in s'.notes.announced ==> f in s.notes.announced || Message(f, s.scan.rows[f].version) in s'.queue)
            && (forall m :: m in s.queue ==> m in s'.queue)
            && (forall c :: Watch(c, f) in s.notes.passed ==> Watch(c, f) in s'.notes.passed)
            && (forall c :: Watch(c, f) in s.notes.misled ==> Watch(c, f) in s'.notes.misled)
  {
    hide Scanner.Apply, Scanner.Behind, Scanner.Expired;
  }

  /** The same clients, the same row. */
  lemma InformedCarries(s: World, s': World, c: string, f: string)
    requires Informed(s, c, f) && f in s.scan.rows && f in s'.scan.rows && s'.scan.rows[f] == s.scan.rows[f]
    requires s'.poll == s.poll && s'.checks == s.checks && s'.joins == s.joins && s'.work == s.work
    requires Pending(s.scan, f) || Silent(s, f) ==>
               Pending(s'.scan, f) || Silent(s', f) || Message(f, s.scan.rows[f].version) in s'.queue
    requires forall m :: m in s.queue ==> m in s'.queue
    requires Watch(c, f) in s.notes.passed ==> Watch(c, f) in s'.notes.passed
    requires Watch(c, f) in s.notes.misled ==> Watch(c, f) in s'.notes.misled
    requires s'.notes.lost == s.notes.lost
    ensures Informed(s', c, f)
  {
    hide Pending, Silent, LongPoll.Watches, LongPoll.VersionOf;
  }

  lemma NobodyInformed(s: World, c: string, f: string)
    requires s.checks == map[] && s.poll.conns == map[]
    ensures Informed(s, c, f)
  {
  }

  lemma ScanKeepsInformed(e: Scanner.Store, s: World, step: Scanner.Step, sendAt: int, c: string, f: string)
    requires ReleaseCache.Followed(s.scan) && Scanner.Enabled(e, s.scan, step)
    requires NotOpen(s) && VerdictKnown(s, f) && Informed(s, c, f)
    ensures Informed(ScanStep(s, step, sendAt), c, f)
  {
    var s' := ScanStep(s, step, sendAt);
    if step.Commit? && step.row.file == f {
      hide Asks, FilesOf, Below;
      assert f in s'.scan.trace.unseen;
    } else if f in s.scan.rows {
      PendingStep(e, s.scan, step, f);
      AnnouncedStep(s, step, sendAt, f);
      assert ReleaseCache.TraceKnown(s.scan);
      assert Pending(s.scan, f) ==> f !in s.scan.trace.handled;
      NotesStep(s, step, sendAt, f);
      assert VerdictOn(s, step, sendAt, f) == Some(FirstScan) ==> s.first;
      hide Scanner.Apply, Scanner.Enabled, Pending, ReleaseCache.Followed, Decide, VerdictOn, Informed;
      if s.first {
        hide ScanStep, LongPoll.Watches, LongPoll.VersionOf;
        NobodyInformed(s', c, f);
      } else {
        InformedCarries(s, s', c, f);
      }
    } else {
      hide ReleaseCache.Followed, Decide, Pending;
      assert f !in s'.scan.rows;
    }
  }

  /** The row at hand, at a step that is done with it. */
  predicate Judges(s: World, step: Scanner.Step, sendAt: int, f: string) {
    Decide(s, step, sendAt).Some? && Scanner.Head(s.scan).file == f && IsRow(s.scan, Scanner.Head(s.scan))
  }

  /** A row gets handled, or its reload goes on, or there is a verdict. */
  lemma HandledStep(e: Scanner.Store, s: World, step: Scanner.Step, sendAt: int, f: string)
    requires ReleaseCache.Followed(s.scan) && Scanner.Enabled(e, s.scan, step)
    requires !(step.Commit? && step.row.file == f)
    ensures var scan' := Scanner.Apply(s.scan, step);
            && (f in scan'.trace.handled && f !in s.scan.trace.handled ==>
                  Reloading(scan', f) || Judges(s, step, sendAt, f))
            && (Reloading(s.scan, f) ==> Reloading(scan', f) || Judges(s, step, sendAt, f))
            && (Judges(s, step, sendAt, f) ==> f in scan'.trace.handled)
  {
    hide ReleaseCache.LoadsKnown, ReleaseCache.RacesKnown, ReleaseCache.EntriesKnown, Scanner.Evict, Scanner.Behind;
    hide Scanner.Expired;
  }

  lemma VerdictExpired(s: World, step: Scanner.Step, sendAt: int)
    requires Decide(s, step, sendAt).Some? && Decide(s, step, sendAt).value.TooLate?
    ensures Scanner.Expired(Scanner.Head(s.scan), Decide(s, step, sendAt).value.at)
  {
  }

  /** A verdict on the row, or none, and how the row comes out of the step. */
  lemma VerdictCarries(s: World, s': World, f: string, v: Option<Verdict>)
    requires VerdictKnown(s, f)
    requires f in s'.notes.announced <==> f in s.notes.announced || (v.Some? && v.value.Sent?)
    requires f in s'.notes.verdicts <==> f in s.notes.verdicts || v.Some?
    requires f in s'.notes.verdicts ==>
               s'.notes.verdicts[f] == if f in s.notes.verdicts then s.notes.verdicts[f] else v.value
    requires f in s.scan.rows ==> f in s'.scan.rows && s'.scan.rows[f] == s.scan.rows[f]
    requires f in s.scan.trace.handled ==> f in s'.scan.trace.handled
    requires f in s'.scan.trace.handled && f !in s.scan.trace.handled ==> Reloading(s'.scan, f) || v.Some?
    requires Reloading(s.scan, f) ==> Reloading(s'.scan, f) || v.Some?
    requires v.Some? ==> f in s'.scan.trace.handled && f in s.scan.rows
    requires v.Some? && v.value.TooLate? ==> Scanner.Expired(s.scan.rows[f], v.value.at)
    ensures VerdictKnown(s', f)
  {
    hide Reloading, Scanner.Expired;
  }

  function VerdictOn(s: World, step: Scanner.Step, sendAt: int, f: string): Option<Verdict> {
    if Judges(s, step, sendAt, f) then Decide(s, step, sendAt) else None
  }

  lemma NotesStep(s: World, step: Scanner.Step, sendAt: int, f: string)
    requires !(step.Commit? && step.row.file == f)
    ensures var n, n', v := s.notes, ScanStep(s, step, sendAt).notes, VerdictOn(s, step, sendAt, f);
            && (f in n'.announced <==> f in n.announced || (v.Some? && v.value.Sent?))
            && (f in n'.verdicts <==> f in n.verdicts || v.Some?)
            && (f in n'.verdicts ==> n'.verdicts[f] == if f in n.verdicts then n.verdicts[f] else v.value)
  {
    assert step.Commit? ==> Decide(s, step, sendAt).None?;
    hide Scanner.Apply, Decide, ForgetFile, IsRow, QueueAfter;
  }

  lemma CommitVoids(s: World, row: Scanner.Release, sendAt: int)
    ensures VerdictKnown(ScanStep(s, Scanner.Commit(row), sendAt), row.file)
  {
    hide ForgetFile;
  }

  lemma ScanKeepsVerdict(e: Scanner.Store, s: World, step: Scanner.Step, sendAt: int, f: string)
    requires ReleaseCache.Followed(s.scan) && Scanner.Enabled(e, s.scan, step) && VerdictKnown(s, f)
    ensures VerdictKnown(ScanStep(s, step, sendAt), f)
  {
    if step.Commit? && step.row.file == f {
      CommitVoids(s, step.row, sendAt);
    } else {
      if f in s.scan.rows { PendingStep(e, s.scan, step, f); }
      HandledStep(e, s, step, sendAt, f);
      NotesStep(s, step, sendAt, f);
      if Decide(s, step, sendAt).Some? && Decide(s, step, sendAt).value.TooLate? { VerdictExpired(s, step, sendAt); }
      assert ReleaseCache.TraceKnown(s.scan);
      assert ScanStep(s, step, sendAt).scan == Scanner.Apply(s.scan, step);
      hide Scanner.Apply, Scanner.Enabled, Decide, ReleaseCache.Followed, Reloading, Pending, Scanner.Expired;
      hide VerdictKnown, ScanStep;
      VerdictCarries(s, ScanStep(s, step, sendAt), f, VerdictOn(s, step, sendAt, f));
    }
  }

  lemma ScanKeepsWatch(s: World, step: Scanner.Step, sendAt: int, w: Watch)
    requires WatchKnown(s, w)
    ensures WatchKnown(ScanStep(s, step, sendAt), w)
  {
    hide Decide, LongPoll.Watches, LongPoll.VersionOf;
  }

  // ---------------------------------------------------------------- steps of clients

  /** A comparison that finds nothing new meets the present version, or one that is about to be
      handled, or an entry that raced. */
  lemma ComparedWith(s: Scanner.State, f: string, version: nat)
    requires ReleaseCache.Followed(s) && f in s.cache && f in s.rows && !s.rows[f].deleted
    requires !IsBehind(s.cache[f], LongPoll.FileInfo(f, version)) && version < s.rows[f].version
    ensures Pending(s, f) || f in s.trace.raced
  {
    assert ReleaseCache.EntriesKnown(s);
  }

  lemma CompareKeepsInformed(s: World, d: string, c: string, f: string)
    requires ReleaseCache.Followed(s.scan) && Entered(s) && Informed(s, c, f)
    requires d in s.checks && s.checks[d].done < |s.checks[d].files| && NextFile(s.checks[d]).fileId in s.scan.cache
    ensures Informed(Compare(s, d), c, f)
  {
    hide ReleaseCache.Followed, LongPoll.Watches, LongPoll.VersionOf, Pending, Entered;
    var s', check := Compare(s, d), s.checks[d];
    var file := NextFile(check);
    if c == d && c in s'.checks && Outdated(s', c, f) && !Outdated(s, c, f) {
      assert d !in s.poll.conns;
      assert check.files[..check.done + 1] == check.files[..check.done] + [file];
      assert file == LongPoll.FileInfo(f, LongPoll.VersionOf(check.files, f));
      ComparedWith(s.scan, f, file.version);
    }
  }

  lemma ConnectKeepsInformed(s: World, d: string, c: string, f: string)
    requires Entered(s) && Informed(s, c, f) && d in s.checks && s.checks[d].done == |s.checks[d].files|
    ensures Informed(ConnectStep(s, d), c, f)
  {
    assert s.poll.conns.Keys <= s.poll.asked.Keys && s.checks.Keys !! s.poll.asked.Keys;
    hide LongPoll.Watches, Pending, Entered;
    var files := s.checks[d].files;
    assert files[..|files|] == files && d !in s.poll.conns;
  }

  lemma JoinKeepsInformed(s: World, d: string, c: string, f: string)
    requires Informed(s, c, f) && Joining(s, d)
    ensures Informed(LookUpStep(s, d), c, f) && Informed(LockStep(s, d), c, f)
  {
    hide LongPoll.Watches, LongPoll.VersionOf, Pending;
  }

  /** Whoever the announcement does not have to get to was not registered yet, or has lost. */
  lemma TakeKeepsInformed(s: World, c: string, f: string)
    requires Entered(s) && Informed(s, c, f) && s.queue != [] && s.work.None?
    ensures Informed(TakeStep(s), c, f)
  {
    assert RegistrationKnown(s, c, f);
    hide Pending, LongPoll.Watches, LongPoll.VersionOf, Entered;
    assert s.queue == [s.queue[0]] + s.queue[1..];
    var s' := TakeStep(s);
    if Outdated(s, c, f) && s.queue[0] == Message(f, s.scan.rows[f].version) {
      if c in s.checks || c in s.joins {
        assert Overlooked(s, s.queue[0], c);
        assert Watch(c, f) in s'.notes.passed;
      }
    }
  }

  lemma FinishKeepsInformed(s: World, d: string, r: LongPoll.Response, c: string, f: string)
    requires Entered(s) && Informed(s, c, f)
    ensures Informed(s.(poll := LongPoll.Finish(s.poll, d, r)), c, f)
  {
    assert s.poll.conns.Keys <= s.poll.asked.Keys && s.checks.Keys !! s.poll.asked.Keys;
    hide Pending, LongPoll.Watches, LongPoll.VersionOf, Entered, LongPoll.RemoveWatcher;
    if d in s.poll.conns {
      LongPoll.RemoveEffect(s.poll.watchers, d, s.poll.conns[d].files, f, c);
    }
  }

  lemma BeginKeepsInformed(s: World, d: string, files: seq<LongPoll.FileInfo>, c: string, f: string)
    requires Informed(s, c, f) && d !in s.poll.conns
    ensures var notes := s.notes.(passed := Forget(s.notes.passed, d), misled := Forget(s.notes.misled, d));
            Informed(s.(checks := s.checks[d := Check(files, 0)], notes := notes), c, f)
  {
    hide Pending, LongPoll.Watches, LongPoll.VersionOf;
  }

  lemma DoneKeepsInformed(s: World, c: string, f: string)
    requires Informed(s, c, f) && s.work.Some?
    requires forall d :: d in s.work.value.must ==> !WaitsLower(s, d, s.work.value.message)
    ensures Informed(s.(work := None), c, f)
  {
    hide Pending, LongPoll.Watches, LongPoll.VersionOf;
  }

  lemma QuietKeepsInformed(s: World, d: string, to: int, c: string, f: string)
    requires Informed(s, c, f)
    ensures Informed(s.(checks := s.checks - {d}), c, f) && Informed(s.(poll := s.poll.(now := to)), c, f)
  {
    hide Pending, LongPoll.Watches, LongPoll.VersionOf;
  }

  lemma ClientKeepsInformed(e: Scanner.Store, s: World, step: Step, c: string, f: string)
    requires ReleaseCache.Followed(s.scan) && Entered(s) && Informed(s, c, f) && Enabled(e, s, step) && !step.Scan?
    ensures Informed(Apply(e, s, step), c, f)
  {
    assert s.poll.conns.Keys <= s.poll.asked.Keys;
    hide LongPoll.Finish, Entered, ReleaseCache.Followed, Informed;
    hide TakeStep, Compare, ConnectStep, LookUpStep, LockStep;
    match step
    case BeginCheck(d, files) => BeginKeepsInformed(s, d, files, c, f);
    case CompareNext(d) => CompareKeepsInformed(s, d, c, f);
    case CheckFails(d) => QuietKeepsInformed(s, d, 0, c, f);
    case Connect(d) => ConnectKeepsInformed(s, d, c, f);
    case LookUp(d) => JoinKeepsInformed(s, d, c, f);
    case Lock(d) => JoinKeepsInformed(s, d, c, f);
    case Take => TakeKeepsInformed(s, c, f);
    case Visit(d) =>
      var m := s.work.value.message;
      FinishKeepsInformed(s, d, LongPoll.Published(m.fileId, m.version), c, f);
    case WorkDone => DoneKeepsInformed(s, c, f);
    case Sweep(d) => FinishKeepsInformed(s, d, LongPoll.NotModified, c, f);
    case Wait(to) => QuietKeepsInformed(s, "", to, c, f);
  }

  lemma FinishKeepsWatch(s: World, d: string, r: LongPoll.Response, w: Watch)
    requires Entered(s) && WatchKnown(s, w)
    ensures WatchKnown(s.(poll := LongPoll.Finish(s.poll, d, r)), w)
  {
    assert s.poll.conns.Keys <= s.poll.asked.Keys && s.checks.Keys !! s.poll.asked.Keys;
    hide LongPoll.Watches, LongPoll.VersionOf, Entered, LongPoll.RemoveWatcher;
  }

  lemma JoinKeepsWatch(s: World, d: string, w: Watch)
    requires WatchKnown(s, w) && Joining(s, d)
    ensures WatchKnown(LookUpStep(s, d), w) && WatchKnown(LockStep(s, d), w)
  {
    hide Below, Enter, Advance;
  }

  lemma TakeKeepsWatch(s: World, w: Watch)
    requires WatchKnown(s, w) && s.queue != []
    ensures WatchKnown(TakeStep(s), w)
  {
    hide Below, Lower, Asks;
  }

  lemma CompareKeepsWatch(s: World, d: string, w: Watch)
    requires WatchKnown(s, w) && d in s.checks && d !in s.poll.conns && s.checks[d].done < |s.checks[d].files|
    requires NextFile(s.checks[d]).fileId in s.scan.cache
    ensures WatchKnown(Compare(s, d), w)
  {
    hide Below;
  }

  lemma ClientKeepsWatch(e: Scanner.Store, s: World, step: Step, w: Watch)
    requires Entered(s) && WatchKnown(s, w) && Enabled(e, s, step) && !step.Scan?
    ensures WatchKnown(Apply(e, s, step), w)
  {
    assert s.poll.conns.Keys <= s.poll.asked.Keys && s.checks.Keys !! s.poll.asked.Keys;
    hide Below, Entered, LongPoll.Finish, TakeStep, Compare, LookUpStep, LockStep, WaitsLower;
    match step
    case Visit(d) =>
      var m := s.work.value.message;
      FinishKeepsWatch(s, d, LongPoll.Published(m.fileId, m.version), w);
    case Sweep(d) => FinishKeepsWatch(s, d, LongPoll.NotModified, w);
    case CompareNext(d) => CompareKeepsWatch(s, d, w);
    case LookUp(d) => JoinKeepsWatch(s, d, w);
    case Lock(d) => JoinKeepsWatch(s, d, w);
    case Take => TakeKeepsWatch(s, w);
    case _ =>
  }

  lemma OpenOnly(e: Scanner.Store, s: World, step: Step)
    requires Entered(s) && NotOpen(s) && Enabled(e, s, step) && !step.Scan?
    ensures NotOpen(Apply(e, s, step))
  {
    hide Entered, Scanner.Enabled, LongPoll.RemoveWatcher;
  }

  // ---------------------------------------------------------------- every step

  lemma StepKeepsDelivered(e: Scanner.Store, s: World, step: Step)
    requires Delivered(s) && Enabled(e, s, step)
    ensures Delivered(Apply(e, s, step))
  {
    hide ReleaseCache.Followed, Entered, VerdictKnown, WatchKnown, Informed;
    var s' := Apply(e, s, step);
    StepKeepsEntered(e, s, step);
    if step.Scan? {
      ReleaseCache.StepKeepsFollowed(e, s.scan, step.step);
      forall f ensures VerdictKnown(s', f) { ScanKeepsVerdict(e, s, step.step, step.sendAt, f); }
      forall w ensures WatchKnown(s', w) { ScanKeepsWatch(s, step.step, step.sendAt, w); }
      forall c, f ensures Informed(s', c, f) { ScanKeepsInformed(e, s, step.step, step.sendAt, c, f); }
    } else {
      forall f ensures VerdictKnown(s', f) { ClientKeepsVerdict(e, s, step, f); }
      forall w ensures WatchKnown(s', w) { ClientKeepsWatch(e, s, step, w); }
      OpenOnly(e, s, step);
      forall c, f ensures Informed(s', c, f) { ClientKeepsInformed(e, s, step, c, f); }
    }
  }

  lemma ClientKeepsVerdict(e: Scanner.Store, s: World, step: Step, f: string)
    requires VerdictKnown(s, f) && Enabled(e, s, step) && !step.Scan?
    ensures VerdictKnown(Apply(e, s, step), f) && Apply(e, s, step).scan == s.scan
  {
    hide LongPoll.Watches, LongPoll.VersionOf, LongPoll.Finish, Reloading, Overlooked, Lower;
  }

  lemma StartIsDelivered(e: Scanner.Store, s: World)
    requires Starts(e, s)
    ensures Delivered(s)
  {
  }

  lemma {:induction false} RunKeepsDelivered(e: Scanner.Store, steps: seq<Step>, states: seq<World>, i: nat)
    requires IsRun(e, steps, states) && i < |states|
    ensures Delivered(states[i])
  {
    hide Enabled, Apply, Delivered, Starts;
    if i == 0 {
      StartIsDelivered(e, states[0]);
    } else {
      RunKeepsDelivered(e, steps, states, i - 1);
      assert StepsTo(e, states[i - 1], steps[i - 1], states[i]);
      StepKeepsDelivered(e, states[i - 1], steps[i - 1]);
    }
  }

  // ---------------------------------------------------------------- at the end of the day

  /** Between scans, with every announcement worked off. */
  predicate Settled(s: World) { s.scan.phase.Idle? && s.queue == [] && s.work.None? }

  /** The client waits, done registering, for a live file whose present row was fetched. */
  predicate Watching(s: World, c: string, f: string) {
    && c in s.poll.conns && c !in s.joins && LongPoll.Watches(s.poll.conns[c].files, f)
    && f in s.scan.rows && !s.scan.rows[f].deleted && f !in s.scan.trace.unseen
  }

  predicate WaitsInVain(s: World, c: string, f: string)
    requires Watching(s, c, f)
  {
    LongPoll.VersionOf(s.poll.conns[c].files, f) < s.scan.rows[f].version
  }

  /** Along every run, once things are settled, a client waits with a version below that of the
      row if and only if it was passed by the announcement, or misled by an entry that raced, or
      asked with a lower version for a release that was never announced or a file it lost. */
  lemma WaitsInVainIff(e: Scanner.Store, steps: seq<Step>, states: seq<World>, i: nat, c: string, f: string)
    requires IsRun(e, steps, states) && i < |states| && Settled(states[i]) && Watching(states[i], c, f)
    ensures var s := states[i];
            WaitsInVain(s, c, f) <==>
            || Watch(c, f) in s.notes.passed || Watch(c, f) in s.notes.misled
            || (LongPoll.VersionOf(s.poll.conns[c].files, f) < s.scan.rows[f].version &&
                (Silent(s, f) || Watch(c, f) in s.notes.lost))
  {
    RunKeepsDelivered(e, steps, states, i);
    assert Informed(states[i], c, f) && WatchKnown(states[i], Watch(c, f));
    hide IsRun, LongPoll.VersionOf, Delivered;
  }

  /** Once things are settled, a release is silent only if it had expired when it was to be
      announced first, or was cached already when it was handled first. */
  lemma SilentVerdict(e: Scanner.Store, steps: seq<Step>, states: seq<World>, i: nat, f: string)
    requires IsRun(e, steps, states) && i < |states| && Settled(states[i]) && Silent(states[i], f)
    ensures var s := states[i];
            && f in s.notes.verdicts && f in s.scan.rows
            && match s.notes.verdicts[f] {
                 case TooLate(at) => s.scan.rows[f].mtime + Scanner.MESSAGE_EXPIRE < at
                 case Loaded => true
                 case _ => false
               }
  {
    RunKeepsDelivered(e, steps, states, i);
    assert VerdictKnown(states[i], f);
  }

  /** The verdict on a release, now or after its reload, is to announce it exactly when the
      scanner's loop announces it. */
  lemma SentIffAnnounces(s: World, t: ScannerService.Turn)
    requires Scanner.Handling(s.scan) && s.scan.phase.reload.NoReload? && t.now == s.scan.now
    ensures var r, verdict := Scanner.Head(s.scan), Decide(s, Scanner.HandleRelease, t.sendAt);
            (if verdict.Some? then verdict.value else Send(s.first, r, t.sendAt)).Sent? <==>
            ScannerService.Announces(s.scan.cache, r, t, s.first)
  {
  }

  // ---------------------------------------------------------------- how late is too late

  /** Nobody was passed, misled or lost, no release was cached before it was handled, and all
      were announced, or turned down, within `delay` of their modification time. */
  ghost predicate Calm(delay: nat, s: World) {
    && s.notes.passed == {} && s.notes.misled == {} && s.notes.lost == {}
    && forall f :: f in s.notes.verdicts && f in s.scan.rows ==> CalmVerdict(delay, s, f)
  }

  predicate CalmVerdict(delay: nat, s: World, f: string)
    requires f in s.notes.verdicts && f in s.scan.rows
  {
    match s.notes.verdicts[f]
    case Sent(at) => at <= s.scan.rows[f].mtime + delay
    case TooLate(at) => at <= s.scan.rows[f].mtime + delay
    case Loaded => false
    case FirstScan => true
  }

  ghost predicate AllCalm(delay: nat, states: seq<World>) {
    forall i :: 0 <= i < |states| ==> Calm(delay, states[i])
  }

  ghost predicate EverybodyTold(states: seq<World>) {
    forall i, c, f :: 0 <= i < |states| && Settled(states[i]) && Watching(states[i], c, f) ==>
      !WaitsInVain(states[i], c, f)
  }

  lemma CalmIsTold(e: Scanner.Store, delay: nat, steps: seq<Step>, states: seq<World>)
    requires delay <= Scanner.MESSAGE_EXPIRE && IsRun(e, steps, states) && AllCalm(delay, states)
    ensures EverybodyTold(states)
  {
    forall i, c, f | 0 <= i < |states| && Settled(states[i]) && Watching(states[i], c, f)
      ensures !WaitsInVain(states[i], c, f)
    {
      var s := states[i];
      assert Calm(delay, s);
      WaitsInVainIff(e, steps, states, i, c, f);
      if Silent(s, f) {
        SilentVerdict(e, steps, states, i, f);
        assert false;
      }
    }
  }
}
