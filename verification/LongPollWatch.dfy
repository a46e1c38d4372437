/**
 Watch requests from end to end (config/client_config_file.go, config/connection_manager.go,
 config/watcher.go, config/scanner.go): from the release in the table to the response.

 A release is committed, fetched and handled by a scan, which refreshes the file cache and
 announces the release, or does not. Announcements are worked off one after the other. A client
 is first compared with the cache, file by file, then connected, then registered, again file by
 file, and then waits. All of this interleaves with the loads of `Scanner`.
 */
module LongPollWatch {
  import Scanner
  import opened LongPoll
  import opened Wrappers

  /** An announcement on its way to the watchers of the file. */
  datatype Message = Message(fileId: string, version: nat)

  /** A request before its connection: the first `done` files have been compared. */
  datatype Check = Check(files: seq<FileInfo>, done: nat)

  /** A connection being registered: the file that is next, and whether the client has looked
      for the watchers of that file and found none, so that it goes for the lock. */
  datatype Join = Join(next: nat, alone: bool)

  /** An announcement being worked off, and those who have to be asked: they were registered with
      a lower version when it was taken. */
  datatype Work = Work(message: Message, must: set<string>)

  /** What the scanner makes of a release: it is announced, or too old by then, or cached
      already, or met by the first scan, which announces nothing. */
  datatype Verdict = Sent(at: int) | TooLate(at: int) | Loaded | FirstScan

  datatype Watch = Watch(client: string, fileId: string)

  /** Kept for the theorems only. About the present row of a file: `announced`, ever; `verdicts`,
      the first one; `passed`, who had been compared but was not registered yet when an
      announcement of it was taken; `misled`, who was compared with an older entry stored by a
      load that raced. And `lost`: registrations that were dropped. */
  datatype Notes = Notes(announced: set<string>, verdicts: map<string, Verdict>,
                         passed: set<Watch>, misled: set<Watch>, lost: set<Watch>)

  /** `first`: during the first scan, before clients are served. The clocks of scanner and
      connections are read apart. */
  datatype World = World(scan: Scanner.State, first: bool, poll: LongPoll.State,
                         queue: seq<Message>, work: Option<Work>,
                         checks: map<string, Check>, joins: map<string, Join>, notes: Notes)

  /** `sendAt`: the clock when the scanner decides about announcing. */
  datatype Step =
    | Scan(step: Scanner.Step, sendAt: int)
    | BeginCheck(client: string, files: seq<FileInfo>)
    | CompareNext(client: string)
    | CheckFails(client: string)
    | Connect(client: string)
    | LookUp(client: string)
    | Lock(client: string)
    | Take
    | Visit(client: string)
    | WorkDone
    | Sweep(client: string)
    | Wait(to: int)

  predicate Joining(s: World, c: string) {
    c in s.joins && c in s.poll.conns && s.joins[c].next < |s.poll.conns[c].files|
  }

  /** Registered on the file of the message with a version below it. */
  predicate WaitsLower(s: World, c: string, m: Message) {
    Registered(s.poll.watchers, m.fileId, c) && s.poll.watchers[m.fileId][c] < m.version
  }

  /** A response is received, by way of an unbuffered channel, once the client is registered.
      Going through the watchers meets everyone who was there when it began, and perhaps others. */
  ghost predicate Enabled(e: Scanner.Store, s: World, step: Step) {
    match step
    case Scan(step, sendAt) => Scanner.Enabled(e, s.scan, step) && s.scan.now <= sendAt
    case BeginCheck(c, files) => !s.first && c !in s.poll.asked && c !in s.checks && files != []
    case CompareNext(c) =>
      c in s.checks && s.checks[c].done < |s.checks[c].files| && NextFile(s.checks[c]).fileId in s.scan.cache
    case CheckFails(c) => c in s.checks
    case Connect(c) => c in s.checks && s.checks[c].done == |s.checks[c].files| > 0
    case LookUp(c) => Joining(s, c) && !s.joins[c].alone
    case Lock(c) => Joining(s, c) && s.joins[c].alone
    case Take => s.queue != [] && s.work.None?
    case Visit(c) => s.work.Some? && c !in s.joins && WaitsLower(s, c, s.work.value.message)
    case WorkDone => s.work.Some? && forall c :: c in s.work.value.must ==> !WaitsLower(s, c, s.work.value.message)
    case Sweep(c) => c in s.poll.conns && c !in s.joins && s.poll.conns[c].finishTime < s.poll.now
    case Wait(to) => s.poll.now <= to
  }

  // ---------------------------------------------------------------- announcing

  /** After the cache was refreshed for the release. */
  function Send(first: bool, r: Scanner.Release, sendAt: int): Verdict {
    if first then FirstScan else if Scanner.Expired(r, sendAt) then TooLate(sendAt) else Sent(sendAt)
  }

  /** The verdict on the release at hand, at the step that is done with it. */
  function Decide(s: World, step: Scanner.Step, sendAt: int): Option<Verdict> {
    if !Scanner.Handling(s.scan) then None
    else
      var r := Scanner.Head(s.scan);
      match step
      case HandleRelease =>
        if !Scanner.Behind(s.scan.cache, r) then Some(Loaded)
        else if !r.deleted then None
        else if Scanner.Expired(r, s.scan.now) then Some(TooLate(s.scan.now))
        else Some(Send(s.first, r, sendAt))
      case ReloadFinds => Some(Send(s.first, r, sendAt))
      case ReloadStores => Some(Send(s.first, r, sendAt))
      case ReloadFails => Some(Send(s.first, r, sendAt))
      case _ => None
  }

  predicate IsRow(s: Scanner.State, r: Scanner.Release) { r.file in s.rows && s.rows[r.file] == r }

  function Forget(watches: set<Watch>, c: string): set<Watch> { set w | w in watches && w.client != c }

  function ForgetFile(watches: set<Watch>, f: string): set<Watch> { set w | w in watches && w.fileId != f }

  function Noted(n: Notes, f: string, v: Verdict): Notes {
    n.(announced := if v.Sent? then n.announced + {f} else n.announced,
       verdicts := if f in n.verdicts then n.verdicts else n.verdicts[f := v])
  }

  /** A new row: what was noted about the one before is void. */
  function Voided(n: Notes, f: string): Notes {
    Notes(n.announced - {f}, n.verdicts - {f}, ForgetFile(n.passed, f), ForgetFile(n.misled, f), n.lost)
  }

  function QueueAfter(s: World, verdict: Option<Verdict>): seq<Message>
    requires verdict.Some? ==> Scanner.Handling(s.scan)
  {
    if verdict.Some? && verdict.value.Sent?
    then s.queue + [Message(Scanner.Head(s.scan).file, Scanner.Head(s.scan).version)] else s.queue
  }

  function NotesAfter(s: World, step: Scanner.Step, verdict: Option<Verdict>): Notes
    requires verdict.Some? ==> Scanner.Handling(s.scan)
  {
    if step.Commit? then Voided(s.notes, step.row.file)
    else if verdict.Some? && IsRow(s.scan, Scanner.Head(s.scan))
    then Noted(s.notes, Scanner.Head(s.scan).file, verdict.value)
    else s.notes
  }

  function ScanStep(s: World, step: Scanner.Step, sendAt: int): World {
    var verdict := Decide(s, step, sendAt);
    s.(scan := Scanner.Apply(s.scan, step), first := s.first && !step.EndScan?,
       queue := QueueAfter(s, verdict), notes := NotesAfter(s, step, verdict))
  }

  // ---------------------------------------------------------------- clients

  function NextFile(check: Check): FileInfo
    requires check.done < |check.files|
  {
    check.files[check.done]
  }

  /** `compareByVersion`: a file that is cached as gone counts as unchanged. */
  predicate IsBehind(entry: Scanner.Entry, file: FileInfo) { !entry.empty && file.version < entry.version }

  /** The version asked with is below that of the live row. */
  predicate Below(rows: Scanner.Table, files: seq<FileInfo>, f: string) {
    f in rows && !rows[f].deleted && Watches(files, f) && VersionOf(files, f) < rows[f].version
  }

  /** A client that is behind is answered at once and never connected. */
  function Compare(s: World, c: string): World
    requires c in s.checks && s.checks[c].done < |s.checks[c].files|
    requires NextFile(s.checks[c]).fileId in s.scan.cache
  {
    var check := s.checks[c];
    var f := NextFile(check).fileId;
    if IsBehind(s.scan.cache[f], NextFile(check)) then s.(checks := s.checks - {c})
    else
      s.(checks := s.checks[c := check.(done := check.done + 1)],
         notes := if f in s.scan.trace.raced && Below(s.scan.rows, check.files, f)
                  then s.notes.(misled := s.notes.misled + {Watch(c, f)}) else s.notes)
  }

  function ConnectStep(s: World, c: string): World
    requires c in s.checks
  {
    var files := s.checks[c].files;
    s.(poll := s.poll.(conns := s.poll.conns[c := Conn(files, s.poll.now + LONG_POLLING_TIMEOUT)],
                       asked := s.poll.asked[c := files]),
       checks := s.checks - {c}, joins := s.joins[c := Join(0, false)])
  }

  function JoinFile(s: World, c: string): FileInfo
    requires Joining(s, c)
  {
    s.poll.conns[c].files[s.joins[c].next]
  }

  /** On to the next file. */
  function Advance(s: World, c: string): map<string, Join>
    requires Joining(s, c)
  {
    if s.joins[c].next + 1 == |s.poll.conns[c].files| then s.joins - {c}
    else s.joins[c := Join(s.joins[c].next + 1, false)]
  }

  function Enter(w: Watchers, c: string, file: FileInfo): Watchers {
    w[file.fileId := (if file.fileId in w then w[file.fileId] else map[])[c := file.version]]
  }

  function Register(s: World, c: string): World
    requires Joining(s, c)
  {
    s.(poll := s.poll.(watchers := Enter(s.poll.watchers, c, JoinFile(s, c))), joins := Advance(s, c),
       notes := s.notes.(lost := s.notes.lost - {Watch(c, JoinFile(s, c).fileId)}))
  }

  function LookUpStep(s: World, c: string): World
    requires Joining(s, c)
  {
    if JoinFile(s, c).fileId in s.poll.watchers then Register(s, c)
    else s.(joins := s.joins[c := s.joins[c].(alone := true)])
  }

  /** The double check: when somebody else was faster, the client is not registered. */
  function LockStep(s: World, c: string): World
    requires Joining(s, c)
  {
    var f := JoinFile(s, c).fileId;
    if f !in s.poll.watchers then Register(s, c)
    else s.(joins := Advance(s, c), notes := s.notes.(lost := s.notes.lost + {Watch(c, f)}))
  }

  // ---------------------------------------------------------------- working off

  /** The client has been compared on the file, as far as the version goes that counts. */
  predicate Asks(s: World, c: string, f: string) {
    if c in s.poll.conns then Watches(s.poll.conns[c].files, f)
    else
      c in s.checks && s.checks[c].done <= |s.checks[c].files| && Watches(s.checks[c].files, f) &&
      FileInfo(f, VersionOf(s.checks[c].files, f)) in s.checks[c].files[..s.checks[c].done]
  }

  function FilesOf(s: World, c: string): seq<FileInfo> {
    if c in s.poll.conns then s.poll.conns[c].files else if c in s.checks then s.checks[c].files else []
  }

  /** Compared, not registered yet, and with a version below the row that is announced. */
  predicate Overlooked(s: World, m: Message, c: string) {
    && c in s.checks.Keys + s.joins.Keys && Asks(s, c, m.fileId)
    && Below(s.scan.rows, FilesOf(s, c), m.fileId) && s.scan.rows[m.fileId].version == m.version
  }

  function Lower(w: Watchers, m: Message): set<string> {
    if m.fileId in w then set c | c in w[m.fileId] && w[m.fileId][c] < m.version else {}
  }

  function TakeStep(s: World): World
    requires s.queue != []
  {
    var m := s.queue[0];
    var passed := set c | c in s.checks.Keys + s.joins.Keys && Overlooked(s, m, c) :: Watch(c, m.fileId);
    s.(queue := s.queue[1..], work := Some(Work(m, Lower(s.poll.watchers, m))),
       notes := s.notes.(passed := s.notes.passed + passed))
  }

  function Apply(e: Scanner.Store, s: World, step: Step): World
    requires Enabled(e, s, step)
  {
    match step
    case Scan(step, sendAt) => ScanStep(s, step, sendAt)
    case BeginCheck(c, files) =>
      s.(checks := s.checks[c := Check(files, 0)],
         notes := s.notes.(passed := Forget(s.notes.passed, c), misled := Forget(s.notes.misled, c)))
    case CompareNext(c) => Compare(s, c)
    case CheckFails(c) => s.(checks := s.checks - {c})
    case Connect(c) => ConnectStep(s, c)
    case LookUp(c) => LookUpStep(s, c)
    case Lock(c) => LockStep(s, c)
    case Take => TakeStep(s)
    case Visit(c) =>
      var m := s.work.value.message;
      s.(poll := Finish(s.poll, c, Published(m.fileId, m.version)))
    case WorkDone => s.(work := None)
    case Sweep(c) => s.(poll := Finish(s.poll, c, NotModified))
    case Wait(to) => s.(poll := s.poll.(now := to))
  }

  // ---------------------------------------------------------------- who is registered

  /** The files that registration is done with. */
  function DoneFiles(s: World, c: string): seq<FileInfo>
    requires c in s.poll.conns
  {
    var files := s.poll.conns[c].files;
    if c in s.joins && s.joins[c].next <= |files| then files[..s.joins[c].next] else files
  }

  /** A client is registered on the files it is done with, except those it lost. */
  predicate RegistrationKnown(s: World, c: string, f: string) {
    var reg, lost := Registered(s.poll.watchers, f, c), Watch(c, f) in s.notes.lost;
    if c !in s.poll.conns then !reg
    else
      && !(reg && lost) && (lost ==> f in s.poll.watchers)
      && (Watches(DoneFiles(s, c), f) <==> reg || lost)
      && (reg ==> s.poll.watchers[f][c] == VersionOf(DoneFiles(s, c), f))
  }

  /** A client goes for the lock on a file only the first time it comes to it. */
  predicate JoinKnown(s: World, c: string) {
    Joining(s, c) && (s.joins[c].alone ==> !Watches(DoneFiles(s, c), JoinFile(s, c).fileId))
  }

  ghost predicate ClientsKnown(s: World) {
    && Responses(s.poll) && s.checks.Keys !! s.poll.asked.Keys
    && (forall c :: c in s.checks ==> s.checks[c].done <= |s.checks[c].files|)
    && (forall w :: w in s.notes.lost ==> w.client in s.poll.asked)
  }

  ghost predicate Entered(s: World) {
    && ClientsKnown(s)
    && (forall c :: c in s.joins ==> JoinKnown(s, c))
    && (forall c, f :: RegistrationKnown(s, c, f))
  }

  lemma WatchesSnoc(files: seq<FileInfo>, n: nat, f: string)
    requires n < |files|
    ensures Watches(files[..n + 1], f) <==> Watches(files[..n], f) || files[n].fileId == f
    ensures Watches(files[..n + 1], f) ==>
              VersionOf(files[..n + 1], f) ==
              if files[n].fileId == f then files[n].version else VersionOf(files[..n], f)
  {
    assert files[..n + 1][..n] == files[..n];
    WatchesLast(files[..n + 1], f);
  }

  lemma AdvanceDone(s: World, c: string, s': World)
    requires Joining(s, c) && s'.joins == Advance(s, c) && s'.poll.conns == s.poll.conns
    ensures DoneFiles(s', c) == s.poll.conns[c].files[..s.joins[c].next + 1]
  {
    var files := s.poll.conns[c].files;
    assert files[..|files|] == files;
  }

  /** `c` moves on; only its own registration on the file at hand changes. */
  lemma AdvanceKeepsEntered(s: World, c: string, s': World)
    requires Entered(s) && Joining(s, c) && s'.joins == Advance(s, c) && s'.checks == s.checks
    requires s'.poll == s.poll.(watchers := s'.poll.watchers)
    requires forall w :: w in s'.notes.lost ==> w.client in s.poll.asked
    requires forall d, f :: Registered(s.poll.watchers, f, d) && (d != c || f != JoinFile(s, c).fileId) ==>
               Registered(s'.poll.watchers, f, d) && s'.poll.watchers[f][d] == s.poll.watchers[f][d]
    requires forall d, f :: Registered(s'.poll.watchers, f, d) && (d != c || f != JoinFile(s, c).fileId) ==>
               Registered(s.poll.watchers, f, d)
    requires forall d, f :: d != c || f != JoinFile(s, c).fileId ==>
               (Watch(d, f) in s'.notes.lost <==> Watch(d, f) in s.notes.lost)
    requires s.poll.watchers.Keys <= s'.poll.watchers.Keys
    requires var f := JoinFile(s, c).fileId;
             && (Registered(s'.poll.watchers, f, c) <==> Watch(c, f) !in s'.notes.lost) && f in s'.poll.watchers
             && (Registered(s'.poll.watchers, f, c) ==> s'.poll.watchers[f][c] == JoinFile(s, c).version)
    ensures Entered(s')
  {
    hide Watches, VersionOf;
    AdvanceDone(s, c, s');
    var files, n := s.poll.conns[c].files, s.joins[c].next;
    forall d, f ensures RegistrationKnown(s', d, f) {
      assert RegistrationKnown(s, d, f);
      if d == c { WatchesSnoc(files, n, f); }
    }
    forall d | d in s'.joins ensures JoinKnown(s', d) {
      if d != c { assert JoinKnown(s, d); }
    }
  }

  lemma LookUpKeepsEntered(s: World, c: string)
    requires Entered(s) && Joining(s, c) && !s.joins[c].alone
    ensures Entered(LookUpStep(s, c))
  {
    hide Watches, VersionOf;
    var s', f := LookUpStep(s, c), JoinFile(s, c).fileId;
    assert c in s.poll.asked;
    if f in s.poll.watchers {
      AdvanceKeepsEntered(s, c, s');
    } else {
      assert RegistrationKnown(s, c, f);
      forall d, g ensures RegistrationKnown(s', d, g) { assert RegistrationKnown(s, d, g); }
      forall d | d in s'.joins ensures JoinKnown(s', d) {
        if d != c { assert JoinKnown(s, d); }
      }
    }
  }

  lemma LockKeepsEntered(s: World, c: string)
    requires Entered(s) && Joining(s, c) && s.joins[c].alone
    ensures Entered(LockStep(s, c))
  {
    hide Watches, VersionOf;
    assert JoinKnown(s, c) && RegistrationKnown(s, c, JoinFile(s, c).fileId);
    AdvanceKeepsEntered(s, c, LockStep(s, c));
  }

  lemma FinishKeepsEntered(s: World, c: string, r: Response)
    requires Entered(s) && c !in s.joins && (c in s.poll.conns ==> Deserved(s.poll.conns[c].files, r))
    ensures Entered(s.(poll := Finish(s.poll, c, r)))
  {
    hide Watches, VersionOf, RemoveWatcher, Deserved;
    var s' := s.(poll := Finish(s.poll, c, r));
    if c in s.poll.conns {
      var files := s.poll.conns[c].files;
      RemoveKeys(s.poll.watchers, c, files);
      forall d, f ensures RegistrationKnown(s', d, f) {
        assert RegistrationKnown(s, d, f);
        RemoveEffect(s.poll.watchers, c, files, f, d);
      }
      forall d | d in s'.joins ensures JoinKnown(s', d) { assert JoinKnown(s, d); }
    }
  }

  lemma VisitDeserved(s: World, c: string, m: Message)
    requires Entered(s) && c !in s.joins && WaitsLower(s, c, m)
    ensures c in s.poll.conns && Deserved(s.poll.conns[c].files, Published(m.fileId, m.version))
  {
    hide Watches, VersionOf;
    assert RegistrationKnown(s, c, m.fileId);
  }

  lemma {:induction false} RemoveKeys(w: Watchers, c: string, files: seq<FileInfo>)
    ensures RemoveWatcher(w, c, files).Keys == w.Keys
  {
    if files != [] { RemoveKeys(w, c, files[..|files| - 1]); }
  }

  lemma ConnectKeepsEntered(s: World, c: string)
    requires Entered(s) && c in s.checks && s.checks[c].files != []
    ensures Entered(ConnectStep(s, c))
  {
    hide VersionOf;
    var s' := ConnectStep(s, c);
    assert s'.poll.asked.Keys == s.poll.asked.Keys + {c} && s'.poll.conns.Keys == s.poll.conns.Keys + {c};
    forall d, f ensures RegistrationKnown(s', d, f) { assert RegistrationKnown(s, d, f); }
    forall d | d in s'.joins ensures JoinKnown(s', d) {
      if d != c { assert JoinKnown(s, d); }
    }
  }

  /** Steps that concern neither connections nor registrations. */
  lemma EnteredFrame(s: World, s': World)
    requires Entered(s) && s'.poll == s.poll.(now := s'.poll.now) && s'.joins == s.joins
    requires s'.notes.lost == s.notes.lost && s'.checks.Keys !! s.poll.asked.Keys
    requires forall c :: c in s'.checks ==> s'.checks[c].done <= |s'.checks[c].files|
    ensures Entered(s')
  {
    hide Watches, VersionOf;
    forall d, f ensures RegistrationKnown(s', d, f) { assert RegistrationKnown(s, d, f); }
    forall d | d in s'.joins ensures JoinKnown(s', d) { assert JoinKnown(s, d); }
  }

  lemma StepKeepsEntered(e: Scanner.Store, s: World, step: Step)
    requires Entered(s) && Enabled(e, s, step)
    ensures Entered(Apply(e, s, step))
  {
    hide Scanner.Enabled, Scanner.Apply, Decide, Overlooked, Lower, Below, Watches, VersionOf, Finish, Responses;
    hide RegistrationKnown, JoinKnown;
    match step
    case Visit(c) =>
      VisitDeserved(s, c, s.work.value.message);
      FinishKeepsEntered(s, c, Published(s.work.value.message.fileId, s.work.value.message.version));
    case Sweep(c) => FinishKeepsEntered(s, c, NotModified);
    case Connect(c) => ConnectKeepsEntered(s, c);
    case LookUp(c) => LookUpKeepsEntered(s, c);
    case Lock(c) => LockKeepsEntered(s, c);
    case _ => EnteredFrame(s, Apply(e, s, step));
  }

  // ---------------------------------------------------------------- whole runs

  const NoNotes := Notes({}, map[], {}, {}, {})

  ghost predicate Starts(e: Scanner.Store, s: World) {
    && Scanner.StartState(e, s.scan) && s.first && s.poll == LongPoll.Init(s.poll.now)
    && s.queue == [] && s.work.None? && s.checks == map[] && s.joins == map[] && s.notes == NoNotes
  }

  ghost predicate StepsTo(e: Scanner.Store, s: World, step: Step, s': World) {
    Enabled(e, s, step) && s' == Apply(e, s, step)
  }

  ghost predicate IsRun(e: Scanner.Store, steps: seq<Step>, states: seq<World>) {
    && |states| == |steps| + 1 && Starts(e, states[0])
    && forall i :: 0 <= i < |steps| ==> StepsTo(e, states[i], steps[i], states[i + 1])
  }

  lemma {:induction false} RunKeepsEntered(e: Scanner.Store, steps: seq<Step>, states: seq<World>, i: nat)
    requires IsRun(e, steps, states) && i < |states|
    ensures Entered(states[i])
  {
    hide Enabled, Apply;
    if i > 0 {
      hide Entered;
      RunKeepsEntered(e, steps, states, i - 1);
      assert StepsTo(e, states[i - 1], steps[i - 1], states[i]);
      StepKeepsEntered(e, states[i - 1], steps[i - 1]);
    }
  }

  /** Along every run: a client that is done registering and waits is registered on a file it
      watches, with the version it asked with, if and only if it did not lose it. A finished one
      is registered nowhere and has exactly one response, and a published version lies above the
      one it asked with. */
  lemma RegisteredIff(e: Scanner.Store, steps: seq<Step>, states: seq<World>, i: nat, c: string, f: string)
    requires IsRun(e, steps, states) && i < |states| && c in states[i].poll.asked && c !in states[i].joins
    ensures var s := states[i];
            if c in s.poll.conns
            then
              && c !in s.poll.sent
              && (Registered(s.poll.watchers, f, c) <==>
                    Watches(s.poll.asked[c], f) && Watch(c, f) !in s.notes.lost)
              && (Registered(s.poll.watchers, f, c) ==> s.poll.watchers[f][c] == VersionOf(s.poll.asked[c], f))
            else
              && !Registered(s.poll.watchers, f, c) && c in s.poll.sent && |s.poll.sent[c]| == 1
              && Deserved(s.poll.asked[c], s.poll.sent[c][0])
  {
    RunKeepsEntered(e, steps, states, i);
    assert RegistrationKnown(states[i], c, f);
  }

  // ---------------------------------------------------------------- who loses

  /** The client has not lost the file and is not about to. */
  predicate Safe(s: World, c: string, f: string) {
    && f in s.poll.watchers && Watch(c, f) !in s.notes.lost
    && (Joining(s, c) && s.joins[c].alone ==> JoinFile(s, c).fileId != f)
  }

  lemma FinishKeepsSafe(s: World, d: string, r: Response, c: string, f: string)
    requires Safe(s, c, f)
    ensures Safe(s.(poll := Finish(s.poll, d, r)), c, f)
  {
    hide RemoveWatcher;
    if d in s.poll.conns { RemoveKeys(s.poll.watchers, d, s.poll.conns[d].files); }
  }

  lemma JoinKeepsSafe(s: World, d: string, c: string, f: string)
    requires Safe(s, c, f) && Joining(s, d)
    ensures !s.joins[d].alone ==> Safe(LookUpStep(s, d), c, f)
    ensures s.joins[d].alone ==> Safe(LockStep(s, d), c, f)
  {
  }

  lemma SafeFrame(s: World, s': World, c: string, f: string)
    requires Safe(s, c, f) && s'.joins == s.joins && s'.poll == s.poll.(now := s'.poll.now)
    requires s'.notes.lost == s.notes.lost
    ensures Safe(s', c, f)
  {
  }

  lemma StepKeepsSafe(e: Scanner.Store, s: World, step: Step, c: string, f: string)
    requires Safe(s, c, f) && Enabled(e, s, step)
    ensures Safe(Apply(e, s, step), c, f)
  {
    hide Scanner.Enabled, Scanner.Apply, Decide, Overlooked, Lower, Below, Finish, WaitsLower;
    match step
    case Visit(d) =>
      FinishKeepsSafe(s, d, Published(s.work.value.message.fileId, s.work.value.message.version), c, f);
    case Sweep(d) => FinishKeepsSafe(s, d, NotModified, c, f);
    case Connect(d) =>
    case LookUp(d) => JoinKeepsSafe(s, d, c, f);
    case Lock(d) => JoinKeepsSafe(s, d, c, f);
    case _ =>
      hide Safe;
      SafeFrame(s, Apply(e, s, step), c, f);
  }

  /** Only the first clients ever to watch a file can lose it: nobody who asks after a file
      once had a watcher does. */
  lemma {:induction false} OnlyTheFirstLose(e: Scanner.Store, steps: seq<Step>, states: seq<World>,
                                            i: nat, j: nat, c: string, f: string)
    requires IsRun(e, steps, states) && i <= j < |states|
    requires f in states[i].poll.watchers && c !in states[i].poll.asked
    ensures Safe(states[j], c, f)
  {
    hide Enabled, Apply;
    if i < j {
      hide Safe;
      OnlyTheFirstLose(e, steps, states, i, j - 1, c, f);
      assert StepsTo(e, states[j - 1], steps[j - 1], states[j]);
      StepKeepsSafe(e, states[j - 1], steps[j - 1], c, f);
    } else {
      RunKeepsEntered(e, steps, states, i);
    }
  }
}
