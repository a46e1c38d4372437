/**
 Long polling for configuration files (config/connection_manager.go, config/watcher.go):
 clients wait on a connection, are registered as watchers of their files, and get one
 response, from a publication or from the timeout sweep.
 */
module LongPoll {

  /** A watched file, by its file id, and the version the client has. */
  datatype FileInfo = FileInfo(fileId: string, version: nat)

  datatype Conn = Conn(files: seq<FileInfo>, finishTime: int)

  datatype Response = Published(fileId: string, version: nat) | NotModified

  /** file id -> client -> the client's version. */
  type Watchers = map<string, map<string, nat>>

  const LONG_POLLING_TIMEOUT := 30000

  /** `sent`: the responses each client got; `asked`: what each client ever asked for. The
      latter is kept for the theorems only. */
  datatype State = State(now: int, conns: map<string, Conn>, watchers: Watchers,
                         sent: map<string, seq<Response>>, asked: map<string, seq<FileInfo>>)

  function Init(now: int): State { State(now, map[], map[], map[], map[]) }

  predicate Watches(files: seq<FileInfo>, f: string) {
    exists i :: 0 <= i < |files| && files[i].fileId == f
  }

  /** A file listed twice: the later version counts. */
  function VersionOf(files: seq<FileInfo>, f: string): (v: nat)
    requires Watches(files, f)
    ensures FileInfo(f, v) in files
  {
    var last := files[|files| - 1];
    if last.fileId == f then last.version
    else
      assert Watches(files[..|files| - 1], f) by {
        var i :| 0 <= i < |files| && files[i].fileId == f;
        assert files[..|files| - 1][i].fileId == f;
      }
      VersionOf(files[..|files| - 1], f)
  }

  predicate Registered(w: Watchers, f: string, client: string) {
    f in w && client in w[f]
  }

  function AddWatcher(w: Watchers, client: string, files: seq<FileInfo>): Watchers {
    if files == [] then w
    else
      var before, file := AddWatcher(w, client, files[..|files| - 1]), files[|files| - 1];
      before[file.fileId := (if file.fileId in before then before[file.fileId] else map[])[client := file.version]]
  }

  function RemoveWatcher(w: Watchers, client: string, files: seq<FileInfo>): Watchers {
    if files == [] then w
    else
      var before, f := RemoveWatcher(w, client, files[..|files| - 1]), files[|files| - 1].fileId;
      if f in before then before[f := before[f] - {client}] else before
  }

  lemma WatchesLast(files: seq<FileInfo>, f: string)
    requires files != []
    ensures Watches(files, f) <==> Watches(files[..|files| - 1], f) || files[|files| - 1].fileId == f
  {
  }

  lemma {:induction false} AddEffect(w: Watchers, client: string, files: seq<FileInfo>, f: string, c: string)
    ensures var w' := AddWatcher(w, client, files);
            && (Registered(w', f, c) <==> Registered(w, f, c) || (c == client && Watches(files, f)))
            && (Registered(w', f, c) ==>
                  w'[f][c] == if c == client && Watches(files, f) then VersionOf(files, f) else w[f][c])
  {
    if files != [] {
      AddEffect(w, client, files[..|files| - 1], f, c);
      WatchesLast(files, f);
    }
  }

  lemma {:induction false} RemoveEffect(w: Watchers, client: string, files: seq<FileInfo>, f: string, c: string)
    ensures var w' := RemoveWatcher(w, client, files);
            && (Registered(w', f, c) <==> Registered(w, f, c) && !(c == client && Watches(files, f)))
            && (Registered(w', f, c) ==> w'[f][c] == w[f][c])
  {
    if files != [] {
      RemoveEffect(w, client, files[..|files| - 1], f, c);
      WatchesLast(files, f);
    }
  }

  // ---------------------------------------------------------------- steps

  datatype Step =
    | Tick(to: int)
    | AddConn(client: string, files: seq<FileInfo>)
    | Callback(client: string, fileId: string, version: nat)
    | Timeout(client: string)

  /** A client id is used once. A callback runs for a watch context that was registered with
      a lower version, possibly after the connection has finished. */
  predicate Enabled(s: State, step: Step) {
    match step
    case Tick(to) => s.now <= to
    case AddConn(client, _) => client !in s.asked
    case Callback(client, f, version) =>
      client in s.asked && Watches(s.asked[client], f) && VersionOf(s.asked[client], f) < version
    case Timeout(client) => client in s.conns && s.conns[client].finishTime < s.now
  }

  /** Answer, unregister, forget; nothing when the connection is gone. */
  function Finish(s: State, client: string, r: Response): State {
    if client !in s.conns then s
    else
      s.(sent := s.sent[client := (if client in s.sent then s.sent[client] else []) + [r]],
         watchers := RemoveWatcher(s.watchers, client, s.conns[client].files),
         conns := s.conns - {client})
  }

  function Open(s: State, client: string, files: seq<FileInfo>): State {
    s.(conns := s.conns[client := Conn(files, s.now + LONG_POLLING_TIMEOUT)],
       watchers := AddWatcher(s.watchers, client, files),
       asked := s.asked[client := files])
  }

  function Apply(s: State, step: Step): State {
    match step
    case Tick(to) => s.(now := to)
    case AddConn(client, files) => Open(s, client, files)
    case Callback(client, f, version) => Finish(s, client, Published(f, version))
    case Timeout(client) => Finish(s, client, NotModified)
  }

  // ---------------------------------------------------------------- the invariant

  /** A client is registered on exactly the files of its live connection, with the version
      it sent for each. */
  ghost predicate Registrations(s: State) {
    forall f, c :: RegisteredRight(s, f, c)
  }

  predicate RegisteredRight(s: State, f: string, c: string) {
    if c in s.conns && Watches(s.conns[c].files, f)
    then Registered(s.watchers, f, c) && s.watchers[f][c] == VersionOf(s.conns[c].files, f)
    else !Registered(s.watchers, f, c)
  }

  /** A response fits what the client asked for. */
  predicate Deserved(files: seq<FileInfo>, r: Response) {
    r.Published? ==> Watches(files, r.fileId) && VersionOf(files, r.fileId) < r.version
  }

  /** Waiting clients have no response, finished ones have exactly one, and it fits. */
  ghost predicate Responses(s: State) {
    && s.conns.Keys <= s.asked.Keys && s.sent.Keys == s.asked.Keys - s.conns.Keys
    && (forall c :: c in s.conns ==> s.conns[c].files == s.asked[c])
    && (forall c :: c in s.sent ==> |s.sent[c]| == 1 && Deserved(s.asked[c], s.sent[c][0]))
  }

  ghost predicate Inv(s: State) { Registrations(s) && Responses(s) }

  lemma OpenKeepsInv(s: State, client: string, files: seq<FileInfo>)
    requires Inv(s) && client !in s.asked
    ensures Inv(Open(s, client, files))
  {
    hide AddWatcher, Watches, VersionOf;
    var s' := Open(s, client, files);
    assert s'.asked.Keys == s.asked.Keys + {client} && s'.conns.Keys == s.conns.Keys + {client};
    assert s'.sent.Keys == s'.asked.Keys - s'.conns.Keys;
    forall f, c ensures RegisteredRight(s', f, c) {
      assert RegisteredRight(s, f, c);
      AddEffect(s.watchers, client, files, f, c);
    }
  }

  lemma FinishKeepsInv(s: State, client: string, r: Response)
    requires Inv(s) && (client in s.asked ==> Deserved(s.asked[client], r))
    ensures Inv(Finish(s, client, r))
  {
    hide RemoveWatcher, Watches, VersionOf, Deserved;
    if client in s.conns {
      var s' := Finish(s, client, r);
      forall f, c ensures RegisteredRight(s', f, c) {
        assert RegisteredRight(s, f, c);
        RemoveEffect(s.watchers, client, s.conns[client].files, f, c);
      }
    }
  }

  lemma StepKeepsInv(s: State, step: Step)
    requires Inv(s) && Enabled(s, step)
    ensures Inv(Apply(s, step))
  {
    hide Open, Finish, Registrations;
    match step
    case Tick(to) => TickKeepsInv(s, to);
    case AddConn(client, files) => OpenKeepsInv(s, client, files);
    case Callback(client, f, version) => FinishKeepsInv(s, client, Published(f, version));
    case Timeout(client) => FinishKeepsInv(s, client, NotModified);
  }

  lemma TickKeepsInv(s: State, to: int)
    requires Inv(s)
    ensures Inv(s.(now := to))
  {
    hide Watches, VersionOf, Registered, Deserved;
    forall f, c ensures RegisteredRight(s.(now := to), f, c) {
      assert RegisteredRight(s, f, c);
    }
  }

  // ---------------------------------------------------------------- whole runs

  ghost predicate IsRun(steps: seq<Step>, states: seq<State>) {
    && |states| == |steps| + 1
    && (exists now :: states[0] == Init(now))
    && forall i :: 0 <= i < |steps| ==> Enabled(states[i], steps[i]) && states[i + 1] == Apply(states[i], steps[i])
  }

  lemma {:induction false} RunKeepsInv(steps: seq<Step>, states: seq<State>, i: nat)
    requires IsRun(steps, states) && i < |states|
    ensures Inv(states[i])
  {
    hide Enabled, Apply;
    if i > 0 {
      hide Inv;
      RunKeepsInv(steps, states, i - 1);
      assert Enabled(states[i - 1], steps[i - 1]);
      StepKeepsInv(states[i - 1], steps[i - 1]);
    }
  }

  /** Along every run: waiting clients are registered on exactly their files, finished ones
      nowhere; nobody gets two responses; and a publication answers a client only with a
      version above the one it asked with. */
  lemma LongPollSafety(steps: seq<Step>, states: seq<State>, i: nat, client: string, f: string)
    requires IsRun(steps, states) && i < |states| && client in states[i].asked
    ensures var s := states[i];
            && (client in s.conns ==>
                  client !in s.sent && (Registered(s.watchers, f, client) <==> Watches(s.asked[client], f)))
            && (client !in s.conns ==> client in s.sent && !Registered(s.watchers, f, client) &&
                                       |s.sent[client]| == 1 && Deserved(s.asked[client], s.sent[client][0]))
  {
    RunKeepsInv(steps, states, i);
    assert RegisteredRight(states[i], f, client);
  }
}
