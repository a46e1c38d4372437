/**
 The connection manager and the watch centre themselves (config/connection_manager.go,
 config/watcher.go), with their loops; every method keeps the invariant of `LongPoll`.
 */
module LongPollServer {
  import opened LongPoll

  method AddWatchers(watchers: Watchers, client: string, files: seq<FileInfo>) returns (r: Watchers)
    ensures r == AddWatcher(watchers, client, files)
  {
    r := watchers;
    for i := 0 to |files|
      invariant r == AddWatcher(watchers, client, files[..i])
    {
      assert files[..i + 1][..i] == files[..i];
      var file := files[i];
      var watcherMap: map<string, nat> := map[];
      if file.fileId in r {
        watcherMap := r[file.fileId];
      }
      watcherMap := watcherMap[client := file.version];
      r := r[file.fileId := watcherMap];
    }
    assert files[..|files|] == files;
  }

  method RemoveWatchers(watchers: Watchers, client: string, files: seq<FileInfo>) returns (r: Watchers)
    ensures r == RemoveWatcher(watchers, client, files)
  {
    r := watchers;
    for i := 0 to |files|
      invariant r == RemoveWatcher(watchers, client, files[..i])
    {
      assert files[..i + 1][..i] == files[..i];
      var f := files[i].fileId;
      if f in r {
        r := r[f := r[f] - {client}];
      }
    }
    assert files[..|files|] == files;
  }

  /** Some waiting clients were answered with `r`, and nobody else noticed. */
  ghost predicate Answered(before: State, after: State, clients: set<string>, r: Response) {
    && clients <= before.conns.Keys
    && after.conns == before.conns - clients
    && after.asked == before.asked && after.now == before.now
    && (forall c :: c in clients ==> c in after.sent && after.sent[c] == [r])
    && (forall c :: c !in clients ==>
          (c in after.sent <==> c in before.sent) && (c in before.sent ==> after.sent[c] == before.sent[c]))
  }

  lemma FinishAnswers(before: State, s: State, done: set<string>, client: string, r: Response)
    requires Responses(s) && Answered(before, s, done, r) && client in s.conns
    ensures Answered(before, Finish(s, client, r), done + {client}, r)
  {
  }

  class ConnManager {
    var conns: map<string, Conn>
    var configFileWatchers: Watchers
    var sent: map<string, seq<Response>>
    ghost var asked: map<string, seq<FileInfo>>

    ghost function View(now: int): State
      reads this
    {
      State(now, conns, configFileWatchers, sent, asked)
    }

    constructor ()
      ensures forall now :: View(now) == Init(now)
    {
      conns, configFileWatchers, sent, asked := map[], map[], map[], map[];
    }

    method AddConn(clientId: string, files: seq<FileInfo>, now: int)
      requires Inv(View(now)) && clientId !in asked
      modifies this
      ensures View(now) == Open(old(View(now)), clientId, files) && Inv(View(now))
    {
      OpenKeepsInv(View(now), clientId, files);
      conns := conns[clientId := Conn(files, now + LONG_POLLING_TIMEOUT)];
      configFileWatchers := AddWatchers(configFileWatchers, clientId, files);
      asked := asked[clientId := files];
    }

    /** Send on the channel, then `removeConn`; nothing when the connection is gone. */
    method Respond(clientId: string, r: Response, ghost now: int)
      modifies this
      ensures View(now) == Finish(old(View(now)), clientId, r)
    {
      if clientId !in conns { return; }
      sent := sent[clientId := (if clientId in sent then sent[clientId] else []) + [r]];
      configFileWatchers := RemoveWatchers(configFileWatchers, clientId, conns[clientId].files);
      conns := conns - {clientId};
    }

    /** `notifyToWatchers`: every client waiting on the file with a lower version, and no other,
        is answered; after it, nobody waits on the file with a lower version. */
    method NotifyToWatchers(fileId: string, version: nat, ghost now: int)
      requires Inv(View(now))
      modifies this
      ensures Inv(View(now))
      ensures Answered(old(View(now)), View(now), LowerVersions(old(configFileWatchers), fileId, version),
                       Published(fileId, version))
      ensures LowerVersions(configFileWatchers, fileId, version) == {}
    {
      hide Finish, Registrations;
      ghost var before := View(now);
      ghost var lower := LowerVersions(configFileWatchers, fileId, version);
      LowerAreWaiting(before, fileId, version);
      NobodyAnswered(before, Published(fileId, version));
      if fileId !in configFileWatchers { return; }
      var watcherMap := configFileWatchers[fileId];
      var rest := watcherMap.Keys;
      while rest != {}
        invariant rest <= watcherMap.Keys && Inv(View(now))
        invariant Answered(before, View(now), lower - rest, Published(fileId, version))
        decreases rest
      {
        var c :| c in rest;
        if watcherMap[c] < version {
          assert c in lower && c in View(now).conns;
          FinishKeepsInv(View(now), c, Published(fileId, version));
          FinishAnswers(before, View(now), lower - rest, c, Published(fileId, version));
          Respond(c, Published(fileId, version), now);
          assert lower - (rest - {c}) == (lower - rest) + {c};
        } else {
          assert lower - (rest - {c}) == lower - rest;
        }
        rest := rest - {c};
      }
      assert lower - {} == lower;
      NobodyLower(before, View(now), fileId, version);
    }

    /** One sweep of `startHandleTimeoutRequestWorker`: exactly the overdue connections. */
    method SweepTimeouts(now: int)
      requires Inv(View(now))
      modifies this
      ensures Inv(View(now))
      ensures Answered(old(View(now)), View(now), Overdue(old(conns), now), NotModified)
      ensures Overdue(conns, now) == {}
    {
      hide Finish, Registrations;
      ghost var before := View(now);
      ghost var overdue := Overdue(conns, now);
      assert Answered(before, before, {}, NotModified) by { NobodyAnswered(before, NotModified); }
      var snapshot := conns;
      var rest := snapshot.Keys;
      assert overdue - rest == {};
      while rest != {}
        invariant rest <= snapshot.Keys && Inv(View(now))
        invariant Answered(before, View(now), overdue - rest, NotModified)
        decreases rest
      {
        var c :| c in rest;
        if snapshot[c].finishTime < now {
          assert c in overdue && c in View(now).conns;
          FinishKeepsInv(View(now), c, NotModified);
          FinishAnswers(before, View(now), overdue - rest, c, NotModified);
          Respond(c, NotModified, now);
          assert overdue - (rest - {c}) == (overdue - rest) + {c};
        } else {
          assert overdue - (rest - {c}) == overdue - rest;
        }
        rest := rest - {c};
      }
      assert overdue - {} == overdue;
    }
  }

  function Overdue(conns: map<string, Conn>, now: int): set<string> {
    set c | c in conns && conns[c].finishTime < now
  }

  /** The clients registered on the file with a version below this one. */
  function LowerVersions(w: Watchers, f: string, version: nat): set<string> {
    if f in w then set c | c in w[f] && w[f][c] < version else {}
  }

  lemma NobodyAnswered(s: State, r: Response)
    ensures Answered(s, s, {}, r)
  {
  }

  lemma LowerAreWaiting(s: State, f: string, version: nat)
    requires Inv(s)
    ensures forall c :: c in LowerVersions(s.watchers, f, version) ==>
              c in s.conns && c in s.asked && Deserved(s.asked[c], Published(f, version))
  {
    hide Watches, VersionOf;
    forall c | c in LowerVersions(s.watchers, f, version)
      ensures c in s.conns && c in s.asked && Deserved(s.asked[c], Published(f, version))
    {
      assert Registered(s.watchers, f, c);
      assert RegisteredRight(s, f, c);
    }
  }

  lemma NobodyLower(before: State, after: State, f: string, version: nat)
    requires Inv(before) && Inv(after)
    requires Answered(before, after, LowerVersions(before.watchers, f, version), Published(f, version))
    ensures LowerVersions(after.watchers, f, version) == {}
  {
    hide Watches, VersionOf, Deserved;
    forall c ensures c !in LowerVersions(after.watchers, f, version) {
      assert RegisteredRight(before, f, c) && RegisteredRight(after, f, c);
    }
  }
}
