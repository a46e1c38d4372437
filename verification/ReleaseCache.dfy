/**
 What the file cache holds while releases are committed, scanned and loaded: the cache half of
 the machine of `Scanner`.

 An entry follows the table up to what the scanner has not fetched or handled yet, with two
 exceptions. A deletion is not acted on when it is handled too late. And a load that read the
 row before a commit may store its entry after that commit was handled.
 */
module ReleaseCache {
  import opened Scanner

  // ---------------------------------------------------------------- the invariant

  /** The entry is what a load would give now. */
  predicate Current(e: Entry, rows: Table, f: string) { e == Load(rows, f) }

  /** The entry was read before the present row was committed. */
  predicate Older(e: Entry, rows: Table, f: string) {
    f in rows && if e.empty then e == Entry(0, true) else e.version < rows[f].version
  }

  /** An entry was what the table said once. */
  predicate Backed(e: Entry, rows: Table, f: string) {
    if e.empty then e == Entry(0, true)
    else
      && f in rows
      && (e.version < rows[f].version || (e.version == rows[f].version && !rows[f].deleted))
  }

  /** The present row is a deletion, and it had expired when it was first handled. */
  predicate HandledLate(s: State, f: string) {
    f in s.rows && s.rows[f].deleted && f in s.trace.handled && Expired(s.rows[f], s.trace.handled[f])
  }

  /** The present row was fetched and is yet to be handled. */
  predicate Due(s: State, f: string) {
    s.phase.Scanning? && f in s.rows && s.rows[f] in s.phase.todo && f !in s.trace.handled
  }

  predicate Excused(s: State, f: string) {
    f in s.trace.unseen || Due(s, f) || HandledLate(s, f) || f in s.trace.raced
  }

  /** A release waiting to be handled is the file's row, fetched, or the row is newer and unseen.
      A release that is being reloaded has been handled. */
  ghost predicate TodoKnown(s: State) {
    s.phase.Scanning? ==>
      && (forall r :: r in s.phase.todo ==>
            && r.file in s.rows
            && if r.file in s.trace.unseen then r.version < s.rows[r.file].version else s.rows[r.file] == r)
      && (s.phase.todo != [] && !s.phase.reload.NoReload? ==> HeadHandled(s))
  }

  predicate HeadHandled(s: State)
    requires Handling(s)
  {
    Head(s).file in s.rows && s.rows[Head(s).file] == Head(s) ==> Head(s).file in s.trace.handled
  }

  ghost predicate TraceKnown(s: State) {
    && (forall f :: f in s.rows ==> s.rows[f].file == f)
    && s.trace.unseen <= s.rows.Keys && s.trace.handled.Keys <= s.rows.Keys
    && s.trace.unseen !! s.trace.handled.Keys
  }

  /** A load in progress has read the present row, or was overtaken by it. */
  ghost predicate LoadsKnown(s: State) {
    && s.cache.Keys !! s.loading.Keys && s.trace.overtaken <= s.loading.Keys
    && (forall f :: f in s.loading ==>
          if f in s.trace.overtaken then Older(s.loading[f], s.rows, f) else Current(s.loading[f], s.rows, f))
    && (forall f :: f in s.trace.overtaken ==> f in s.trace.unseen || f in s.trace.handled || Due(s, f))
  }

  ghost predicate RacesKnown(s: State) {
    forall f :: f in s.trace.raced ==> f in s.cache && f in s.trace.handled && Older(s.cache[f], s.rows, f)
  }

  ghost predicate EntriesKnown(s: State) {
    forall f :: f in s.cache ==> Backed(s.cache[f], s.rows, f) && (Current(s.cache[f], s.rows, f) || Excused(s, f))
  }

  ghost predicate Followed(s: State) {
    TraceKnown(s) && TodoKnown(s) && LoadsKnown(s) && RacesKnown(s) && EntriesKnown(s)
  }

  // ---------------------------------------------------------------- every step keeps it

  lemma PutKeepsFollowed(s: State, f: string)
    requires Followed(s) && f in s.loading
    ensures Followed(Put(s, f))
  {
  }

  lemma DropKeepsFollowed(s: State, f: string)
    requires Followed(s)
    ensures Followed(Drop(s, f))
  {
  }

  lemma ReadKeepsFollowed(s: State, f: string)
    requires Followed(s) && f !in s.cache && f !in s.loading
    ensures Followed(Read(s, f))
  {
  }

  lemma PopKeepsFollowed(s: State)
    requires Followed(s) && Handling(s) && HeadHandled(s)
    ensures Followed(Pop(s))
  {
    var r := Head(s);
    assert s.phase.todo == [r] + s.phase.todo[1..];
  }

  lemma MarkedKeepsFollowed(s: State)
    requires Followed(s) && Handling(s)
    ensures Followed(Marked(s)) && HeadHandled(Marked(s))
  {
    var r := Head(s);
    assert r in s.phase.todo;
  }

  lemma HandleKeepsFollowed(s: State)
    requires Followed(s) && Handling(s)
    ensures Followed(Handle(s))
  {
    MarkedKeepsFollowed(s);
    var s' := Marked(s);
    if Behind(s.cache, Head(s)) && !Head(s).deleted {
      assert Handle(s) == s'.(phase := s'.phase.(reload := Waiting));
      hide Evict, FirstHandled;
    } else {
      assert Handle(s) == Pop(s');
      PopKeepsFollowed(s');
    }
  }

  lemma ReloadKeepsFollowed(e: Store, s: State, step: Step)
    requires Followed(s) && Enabled(e, s, step)
    requires step.ReloadFinds? || step.ReloadReads? || step.ReloadStores? || step.ReloadFails?
    ensures Followed(Apply(s, step))
  {
    var f := Head(s).file;
    match step {
      case ReloadFinds =>
        PopKeepsFollowed(s);
      case ReloadReads =>
        ReadKeepsFollowed(s, f);
      case ReloadStores =>
        PutKeepsFollowed(s, f);
        PopKeepsFollowed(Put(s, f));
      case ReloadFails =>
        DropKeepsFollowed(s, f);
        PopKeepsFollowed(Drop(s, f));
    }
  }

  lemma BeginKeepsFollowed(e: Store, s: State, list: seq<Release>)
    requires Followed(s) && s.phase.Idle? && Lists(e, list, s.rows, s.last - SCAN_OFFSET)
    ensures Followed(Apply(s, BeginScan(list)))
  {
  }

  lemma CommitKeepsEntries(e: Store, s: State, row: Release)
    requires Followed(s) && Enabled(e, s, Commit(row))
    ensures RacesKnown(CommitRow(s, row)) && EntriesKnown(CommitRow(s, row))
  {
    hide LoadsKnown, TodoKnown;
  }

  lemma CommitKeepsLoads(e: Store, s: State, row: Release)
    requires Followed(s) && Enabled(e, s, Commit(row))
    ensures LoadsKnown(CommitRow(s, row))
  {
    hide RacesKnown, EntriesKnown, TodoKnown;
  }

  lemma CommitKeepsFollowed(e: Store, s: State, row: Release)
    requires Followed(s) && Enabled(e, s, Commit(row))
    ensures Followed(CommitRow(s, row))
  {
    CommitKeepsEntries(e, s, row);
    CommitKeepsLoads(e, s, row);
    hide RacesKnown, EntriesKnown, LoadsKnown;
  }

  lemma QuietKeepsFollowed(e: Store, s: State, step: Step)
    requires Followed(s) && Enabled(e, s, step)
    requires step.Tick? || step.ScanFails? || step.EndScan? || step.FileExpires?
    ensures Followed(Apply(s, step))
  {
  }

  lemma StepKeepsFollowed(e: Store, s: State, step: Step)
    requires Followed(s) && Enabled(e, s, step)
    ensures Followed(Apply(s, step))
  {
    hide Followed;
    match step {
      case Commit(row) => CommitKeepsFollowed(e, s, row);
      case BeginScan(list) => BeginKeepsFollowed(e, s, list);
      case HandleRelease => HandleKeepsFollowed(s);
      case LoadReads(f) => ReadKeepsFollowed(s, f);
      case LoadStores(f) => PutKeepsFollowed(s, f);
      case LoadFails(f) => DropKeepsFollowed(s, f);
      case ReloadFinds => ReloadKeepsFollowed(e, s, step);
      case ReloadReads => ReloadKeepsFollowed(e, s, step);
      case ReloadStores => ReloadKeepsFollowed(e, s, step);
      case ReloadFails => ReloadKeepsFollowed(e, s, step);
      case Tick(_) => QuietKeepsFollowed(e, s, step);
      case ScanFails => QuietKeepsFollowed(e, s, step);
      case EndScan => QuietKeepsFollowed(e, s, step);
      case FileExpires(_) => QuietKeepsFollowed(e, s, step);
    }
  }

  lemma {:induction false} RunKeepsFollowed(e: Store, steps: seq<Step>, states: seq<State>, i: nat)
    requires IsRun(e, steps, states) && i < |states|
    ensures Followed(states[i])
  {
    hide Enabled, Apply;
    if i > 0 {
      hide Followed;
      RunKeepsFollowed(e, steps, states, i - 1);
      assert StepsTo(e, states[i - 1], steps[i - 1], states[i]);
      StepKeepsFollowed(e, states[i - 1], steps[i - 1]);
    }
  }

  // ---------------------------------------------------------------- what the cache serves

  /** The file is deleted and cached with content. */
  predicate Stale(s: State, f: string) {
    f in s.rows && s.rows[f].deleted && f in s.cache && !s.cache[f].empty
  }

  /** Between scans, for a file whose release was not committed after the last fetch: a live one
      is cached at the table's current version if and only if no load raced the handling of
      that version; a deleted one is cached as empty, unless a load raced the handling of the
      deletion or it was first handled more than five seconds late. */
  lemma CacheFollowsReleases(e: Store, steps: seq<Step>, states: seq<State>, i: nat, f: string)
    requires IsRun(e, steps, states) && i < |states| && states[i].phase.Idle?
    requires f in states[i].cache && f in states[i].rows && f !in states[i].trace.unseen
    ensures var s := states[i];
            !s.rows[f].deleted ==> (s.cache[f] == Entry(s.rows[f].version, false) <==> f !in s.trace.raced)
    ensures var s := states[i]; Stale(s, f) ==> HandledLate(s, f) || f in s.trace.raced
  {
    RunKeepsFollowed(e, steps, states, i);
  }

  /** Handling the row of a raced entry again takes the entry out, unless the row is an expired
      deletion. */
  lemma HandlingHeals(s: State)
    requires Followed(s) && Handling(s) && Head(s).file in s.trace.raced && s.rows[Head(s).file] == Head(s)
    requires !(Head(s).deleted && Expired(Head(s), s.now))
    ensures Head(s).file !in Handle(s).trace.raced && Head(s).file !in Handle(s).cache
  {
  }

  /** A scan handles the row of a raced entry again if and only if the row is still in its window. */
  lemma RacedRowRefetchedIff(e: Store, s: State, list: seq<Release>, f: string)
    requires Followed(s) && Enabled(e, s, BeginScan(list)) && f in s.trace.raced
    ensures s.rows[f] in list <==> s.last + Slack(e) <= s.rows[f].mtime + SCAN_OFFSET
  {
  }

  /** Nothing else heals a raced entry, apart from a new commit and the expiry of the entry. */
  lemma RacedHealsIff(e: Store, s: State, step: Step, f: string)
    requires Followed(s) && Enabled(e, s, step) && f in s.trace.raced
    ensures f !in Apply(s, step).trace.raced <==>
            || (step.Commit? && step.row.file == f)
            || step == FileExpires(f)
            || (step.HandleRelease? && Head(s).file == f && !(Head(s).deleted && Expired(Head(s), s.now)))
  {
    if step.HandleRelease? {
      assert Head(s) in s.phase.todo;
      if Head(s).file == f { assert s.rows[f] == Head(s); }
    }
  }

  /** One scan, from its fetch to its end. */
  ghost predicate OneScan(steps: seq<Step>, states: seq<State>, i: nat, j: nat) {
    && i < j < |states| && j <= |steps| && steps[i].BeginScan? && states[j].phase.Idle?
    && forall k :: i < k < j ==> states[k].phase.Scanning?
  }

  /** The file is not committed meanwhile. */
  ghost predicate Uncommitted(steps: seq<Step>, i: nat, j: nat, f: string)
    requires j <= |steps|
  {
    forall k :: i <= k < j ==> !(steps[k].Commit? && steps[k].row.file == f)
  }

  predicate HandlesRow(s: State, step: Step, f: string) {
    step.HandleRelease? && Handling(s) && f in s.rows && Head(s) == s.rows[f]
  }

  /** The scan gets to the row. */
  ghost predicate GetsTo(steps: seq<Step>, states: seq<State>, i: nat, j: nat, f: string)
    requires j <= |steps| && j <= |states|
  {
    exists k :: i <= k < j && HandlesRow(states[k], steps[k], f)
  }

  /** The entry is taken out: it expires, or its row is handled and not an expired deletion. */
  predicate TakesOut(s: State, step: Step, f: string) {
    step == FileExpires(f) || (HandlesRow(s, step, f) && !(s.rows[f].deleted && Expired(s.rows[f], s.now)))
  }

  ghost predicate TakenOut(steps: seq<Step>, states: seq<State>, i: nat, j: nat, f: string)
    requires j <= |steps| && j <= |states|
  {
    exists k :: i <= k < j && TakesOut(states[k], steps[k], f)
  }

  lemma RacedStep(e: Store, s: State, step: Step, f: string)
    requires Followed(s) && Enabled(e, s, step) && f in s.rows && f !in s.trace.overtaken && f in s.trace.handled
    requires !(step.Commit? && step.row.file == f)
    ensures var s' := Apply(s, step);
            && f in s'.rows && s'.rows[f] == s.rows[f] && f !in s'.trace.overtaken && f in s'.trace.handled
            && (f in s'.trace.raced <==> f in s.trace.raced && !TakesOut(s, step, f))
  {
    if f in s.trace.raced { RacedHealsIff(e, s, step, f); }
  }

  /** A raced entry stays until it is taken out. */
  lemma {:induction false} RacedUntil(e: Store, steps: seq<Step>, states: seq<State>, i: nat, j: nat, f: string)
    requires IsRun(e, steps, states) && i <= j < |states| && f in states[i].trace.raced && Uncommitted(steps, i, j, f)
    ensures f in states[i].rows && f in states[j].rows && states[j].rows[f] == states[i].rows[f]
    ensures f !in states[j].trace.overtaken && f in states[j].trace.handled
    ensures f in states[j].trace.raced <==> !TakenOut(steps, states, i, j, f)
  {
    hide Enabled, Apply, TakesOut;
    RunKeepsFollowed(e, steps, states, i);
    if i < j {
      hide Followed;
      RacedUntil(e, steps, states, i, j - 1, f);
      RunKeepsFollowed(e, steps, states, j - 1);
      assert StepsTo(e, states[j - 1], steps[j - 1], states[j]);
      RacedStep(e, states[j - 1], steps[j - 1], f);
    }
  }

  /** The row is the release that is being reloaded. */
  predicate ReloadsRow(s: State, f: string) {
    Handling(s) && !s.phase.reload.NoReload? && f in s.rows && Head(s) == s.rows[f]
  }

  predicate InTodo(s: State, f: string) { s.phase.Scanning? && f in s.rows && s.rows[f] in s.phase.todo }

  lemma TodoStep(e: Store, s: State, step: Step, f: string)
    requires Enabled(e, s, step) && f in s.rows && s.phase.Scanning? && Apply(s, step).phase.Scanning?
    requires !(step.Commit? && step.row.file == f)
    ensures var s' := Apply(s, step);
            && (InTodo(s', f) ==> InTodo(s, f))
            && (InTodo(s, f) ==> InTodo(s', f) || HandlesRow(s, step, f) || ReloadsRow(s, f))
            && (ReloadsRow(s', f) ==> HandlesRow(s, step, f) || ReloadsRow(s, f))
  {
    hide Evict, FirstHandled, Expired, Load;
    if Handling(s) { assert s.phase.todo == [Head(s)] + s.phase.todo[1..]; }
  }

  /** In the middle of a scan the row is still to come, or the scan has got to it. */
  lemma {:induction false} ScanComesTo(e: Store, steps: seq<Step>, states: seq<State>,
                                       i: nat, k: nat, j: nat, f: string)
    requires IsRun(e, steps, states) && OneScan(steps, states, i, j) && i < k < j
    requires f in states[i].rows && Uncommitted(steps, i, j, f)
    ensures f in states[k].rows && states[k].rows[f] == states[i].rows[f]
    ensures Selected(e, states[i].rows[f], states[i].last - SCAN_OFFSET) <==>
            InTodo(states[k], f) || GetsTo(steps, states, i, k, f)
    ensures ReloadsRow(states[k], f) ==> GetsTo(steps, states, i, k, f)
  {
    assert StepsTo(e, states[k - 1], steps[k - 1], states[k]);
    if k == i + 1 {
      RunKeepsFollowed(e, steps, states, i);
    } else {
      hide Apply, Enabled, Selected;
      ScanComesTo(e, steps, states, i, k - 1, j, f);
      TodoStep(e, states[k - 1], steps[k - 1], f);
      RowStays(e, states[k - 1], steps[k - 1], f);
    }
  }

  lemma RowStays(e: Store, s: State, step: Step, f: string)
    requires Enabled(e, s, step) && f in s.rows && !(step.Commit? && step.row.file == f)
    ensures f in Apply(s, step).rows && Apply(s, step).rows[f] == s.rows[f]
  {
  }

  lemma ScanGetsToIff(e: Store, steps: seq<Step>, states: seq<State>, i: nat, j: nat, f: string)
    requires IsRun(e, steps, states) && OneScan(steps, states, i, j)
    requires f in states[i].rows && Uncommitted(steps, i, j, f)
    ensures GetsTo(steps, states, i, j, f) <==> Selected(e, states[i].rows[f], states[i].last - SCAN_OFFSET)
  {
    hide Selected;
    assert StepsTo(e, states[i], steps[i], states[i + 1]);
    assert StepsTo(e, states[j - 1], steps[j - 1], states[j]);
    ScanComesTo(e, steps, states, i, j - 1, j, f);
  }

  lemma {:induction false} NowGrows(e: Store, steps: seq<Step>, states: seq<State>, i: nat, j: nat)
    requires IsRun(e, steps, states) && i <= j < |states|
    ensures states[i].now <= states[j].now
  {
    if i < j {
      NowGrows(e, steps, states, i, j - 1);
      assert StepsTo(e, states[j - 1], steps[j - 1], states[j]);
    }
  }

  ghost predicate EntryExpires(steps: seq<Step>, i: nat, j: nat, f: string)
    requires j <= |steps|
  {
    exists k :: i <= k < j && steps[k] == FileExpires(f)
  }

  /** By the end of the next scan a raced entry of a live file is gone if and only if the row was
      still in the window of the scan, or the entry has expired. One of a deleted file is gone if
      the deletion was in the window and has not expired, and stays if it had expired before. */
  lemma NextScanHealsIff(e: Store, steps: seq<Step>, states: seq<State>, i: nat, j: nat, f: string)
    requires IsRun(e, steps, states) && OneScan(steps, states, i, j)
    requires f in states[i].trace.raced && Uncommitted(steps, i, j, f) && f in states[i].rows
    ensures var s, row, gone := states[i], states[i].rows[f], f !in states[j].trace.raced;
            var inWindow := s.last + Slack(e) <= row.mtime + SCAN_OFFSET;
            && (!row.deleted ==> (gone <==> inWindow || EntryExpires(steps, i, j, f)))
            && (row.deleted && inWindow && !Expired(row, states[j].now) ==> gone)
            && (row.deleted && Expired(row, s.now) ==> (gone <==> EntryExpires(steps, i, j, f)))
  {
    RacedUntil(e, steps, states, i, j, f);
    ScanGetsToIff(e, steps, states, i, j, f);
    hide IsRun, OneScan;
    forall k | i <= k < j && HandlesRow(states[k], steps[k], f)
      ensures states[k].rows[f] == states[i].rows[f] && states[i].now <= states[k].now <= states[j].now
    {
      RacedUntil(e, steps, states, i, k, f);
      NowGrows(e, steps, states, i, k);
      NowGrows(e, steps, states, k, j);
    }
    if EntryExpires(steps, i, j, f) {
      var k :| i <= k < j && steps[k] == FileExpires(f);
      assert TakesOut(states[k], steps[k], f);
    }
    if GetsTo(steps, states, i, j, f) {
      var k :| i <= k < j && HandlesRow(states[k], steps[k], f);
      assert !(states[i].rows[f].deleted && Expired(states[i].rows[f], states[k].now)) ==>
          TakesOut(states[k], steps[k], f);
    }
  }

  /** No load is passed both by a commit and by the handling of that commit. */
  ghost predicate Unraced(states: seq<State>) {
    forall i :: 0 <= i < |states| ==> states[i].trace.raced == {}
  }

  /** In particular when no load is passed by a commit. */
  lemma {:induction false} UnpassedIsUnraced(e: Store, steps: seq<Step>, states: seq<State>, i: nat)
    requires IsRun(e, steps, states) && i < |states|
    requires forall j :: 0 <= j < |states| ==> states[j].trace.overtaken == {}
    ensures states[i].trace.raced == {}
  {
    if i > 0 {
      UnpassedIsUnraced(e, steps, states, i - 1);
      assert StepsTo(e, states[i - 1], steps[i - 1], states[i]);
    }
  }

  // ---------------------------------------------------------------- deletions

  /** No release is first handled more than `delay` after its modification time. */
  ghost predicate Prompt(delay: nat, states: seq<State>) {
    forall i :: 0 <= i < |states| ==> HandlesPromptly(delay, states[i])
  }

  ghost predicate HandlesPromptly(delay: nat, s: State) {
    forall f :: f in s.trace.handled && f in s.rows ==> s.trace.handled[f] <= s.rows[f].mtime + delay
  }

  /** Between scans no deleted file is served, unless it was deleted after the last fetch. */
  ghost predicate DeletionsTakeEffect(states: seq<State>) {
    forall i, f :: 0 <= i < |states| && states[i].phase.Idle? && f !in states[i].trace.unseen ==> !Stale(states[i], f)
  }

  lemma PromptDeletionsTakeEffect(e: Store, delay: nat, steps: seq<Step>, states: seq<State>)
    requires delay <= MESSAGE_EXPIRE && IsRun(e, steps, states) && Prompt(delay, states) && Unraced(states)
    ensures DeletionsTakeEffect(states)
  {
    hide IsRun;
    forall i, f | 0 <= i < |states| && states[i].phase.Idle? && f !in states[i].trace.unseen
      ensures !Stale(states[i], f)
    {
      assert HandlesPromptly(delay, states[i]) && states[i].trace.raced == {};
      if f in states[i].cache && f in states[i].rows { CacheFollowsReleases(e, steps, states, i, f); }
    }
  }

  ghost predicate Calm(delay: nat, s: State) { HandlesPromptly(delay, s) && s.trace.raced == {} }

  lemma ExtendCalmly(e: Store, delay: nat, steps: seq<Step>, states: seq<State>, step: Step, s: State)
    returns (more: seq<Step>, next: seq<State>)
    requires IsRun(e, steps, states) && StepsTo(e, states[|states| - 1], step, s)
    requires Prompt(delay, states) && Unraced(states) && Calm(delay, s)
    ensures IsRun(e, more, next) && Prompt(delay, next) && Unraced(next) && next == states + [s]
  {
    hide IsRun, StepsTo, HandlesPromptly;
    more, next := Extend(e, steps, states, step, s);
  }

  lemma LastStale(states: seq<State>, f: string)
    requires states != []
    requires var s := states[|states| - 1]; s.phase.Idle? && f !in s.trace.unseen && Stale(s, f)
    ensures !DeletionsTakeEffect(states)
  {
    hide Stale;
  }

  /** A file is loaded by a client, and then its release is deleted. */
  lemma DeletingSteps(e: Store, s: State, live: Release, gone: Release)
    requires live == Release("a", 1, false, 0) && gone == Release("a", 2, true, 0) && s == Begin(0).(phase := Idle)
    ensures var s1 := s.(rows := map["a" := live], trace := NoTrace.(unseen := {"a"}));
            var s2 := s1.(loading := map["a" := Entry(1, false)]);
            var s3 := s1.(cache := map["a" := Entry(1, false)]);
            && StepsTo(e, s, Commit(live), s1) && StepsTo(e, s1, LoadReads("a"), s2)
            && StepsTo(e, s2, LoadStores("a"), s3) && StepsTo(e, s3, Commit(gone), s3.(rows := map["a" := gone]))
  {
    var s1 := s.(rows := map["a" := live], trace := NoTrace.(unseen := {"a"}));
    assert CommitRow(s, live) == s1;
    var s2 := s1.(loading := map["a" := Entry(1, false)]);
    assert Read(s1, "a") == s2;
    var s3 := s1.(cache := map["a" := Entry(1, false)]);
    assert Put(s2, "a") == s3;
    assert CommitRow(s3, gone) == s3.(rows := map["a" := gone]);
  }

  /** The deletion is handled `delay` late. */
  lemma LateSteps(e: Store, delay: nat, s: State, gone: Release)
    requires delay > MESSAGE_EXPIRE && gone == Release("a", 2, true, 0) && s.now == 0 && s.phase.Idle?
    requires s.rows == map["a" := gone] && s.cache == map["a" := Entry(1, false)] && s.last == -FIRST_SCAN_OFFSET
    requires s.trace == NoTrace.(unseen := {"a"})
    ensures var s1 := s.(now := delay);
            var s2 := s1.(phase := Scanning([gone], s.last, delay, NoReload), trace := NoTrace);
            var s3 := s2.(phase := Scanning([], 0, delay, NoReload), trace := NoTrace.(handled := map["a" := delay]));
            && StepsTo(e, s, Tick(delay), s1) && StepsTo(e, s1, BeginScan([gone]), s2)
            && StepsTo(e, s2, HandleRelease, s3) && StepsTo(e, s3, EndScan, s3.(last := 0, phase := Idle))
  {
    var s1 := s.(now := delay);
    assert Lists(e, [gone], s1.rows, s.last - SCAN_OFFSET);
    var s2 := s1.(phase := Scanning([gone], s.last, delay, NoReload), trace := NoTrace);
    assert Apply(s1, BeginScan([gone])) == s2;
    assert [gone][1..] == [];
    assert Evict(s2.cache, gone, delay) == s2.cache;
  }

  /** A run up to the deletion. */
  lemma DeletedRun(e: Store, delay: nat, live: Release, gone: Release)
    returns (steps: seq<Step>, states: seq<State>)
    requires live == Release("a", 1, false, 0) && gone == Release("a", 2, true, 0)
    ensures IsRun(e, steps, states) && Prompt(delay, states) && Unraced(states)
    ensures states[|states| - 1] ==
            Begin(0).(phase := Idle, rows := map["a" := gone], cache := map["a" := Entry(1, false)],
                      trace := NoTrace.(unseen := {"a"}))
  {
    var s0 := Begin(0).(phase := Idle);
    var s1 := s0.(rows := map["a" := live], trace := NoTrace.(unseen := {"a"}));
    var s2 := s1.(loading := map["a" := Entry(1, false)]);
    var s3 := s1.(cache := map["a" := Entry(1, false)]);
    var s4 := s3.(rows := map["a" := gone]);
    assert StepsTo(e, Begin(0), EndScan, s0);
    DeletingSteps(e, s0, live, gone);
    assert Calm(delay, s0) && Calm(delay, s1) && Calm(delay, s2) && Calm(delay, s3) && Calm(delay, s4);
    steps, states := StartRun(e, 0);
    hide *;
    steps, states := ExtendCalmly(e, delay, steps, states, EndScan, s0);
    steps, states := ExtendCalmly(e, delay, steps, states, Commit(live), s1);
    steps, states := ExtendCalmly(e, delay, steps, states, LoadReads("a"), s2);
    steps, states := ExtendCalmly(e, delay, steps, states, LoadStores("a"), s3);
    steps, states := ExtendCalmly(e, delay, steps, states, Commit(gone), s4);
  }

  /** A run that goes on serving a deleted file because the deletion is handled late. */
  lemma LateDeletion(e: Store, delay: nat)
    requires delay > MESSAGE_EXPIRE
    ensures exists steps, states ::
              IsRun(e, steps, states) && Prompt(delay, states) && Unraced(states) && !DeletionsTakeEffect(states)
  {
    var live, gone := Release("a", 1, false, 0), Release("a", 2, true, 0);
    var steps, states := DeletedRun(e, delay, live, gone);
    var s0 := states[|states| - 1];
    var s1 := s0.(now := delay);
    var s2 := s1.(phase := Scanning([gone], s0.last, delay, NoReload), trace := NoTrace);
    var s3 := s2.(phase := Scanning([], 0, delay, NoReload), trace := NoTrace.(handled := map["a" := delay]));
    var s4 := s3.(last := 0, phase := Idle);
    LateSteps(e, delay, s0, gone);
    assert Calm(delay, s1) && Calm(delay, s2) && Calm(delay, s3) && Calm(delay, s4) && Stale(s4, "a");
    hide *;
    steps, states := ExtendCalmly(e, delay, steps, states, Tick(delay), s1);
    steps, states := ExtendCalmly(e, delay, steps, states, BeginScan([gone]), s2);
    steps, states := ExtendCalmly(e, delay, steps, states, HandleRelease, s3);
    steps, states := ExtendCalmly(e, delay, steps, states, EndScan, s4);
    LastStale(states, "a");
  }

  /** Among the runs without races the expiry is exactly what bounds the handling of deletions:
      every deletion takes effect if and only if releases are first handled within five seconds. */
  lemma DeletionWindowIsTight(e: Store, delay: nat)
    ensures (forall steps, states ::
               IsRun(e, steps, states) && Prompt(delay, states) && Unraced(states) ==> DeletionsTakeEffect(states))
            <==> delay <= MESSAGE_EXPIRE
  {
    if delay <= MESSAGE_EXPIRE {
      forall steps, states | IsRun(e, steps, states) && Prompt(delay, states) && Unraced(states)
        ensures DeletionsTakeEffect(states)
      {
        PromptDeletionsTakeEffect(e, delay, steps, states);
      }
    } else {
      LateDeletion(e, delay);
    }
  }

  // ---------------------------------------------------------------- races

  /** Between scans, and with the row fetched and handled, an older version is cached. */
  predicate ServesOldVersion(s: State, f: string) {
    && s.phase.Idle? && f in s.rows && !s.rows[f].deleted && f !in s.trace.unseen && f in s.trace.handled
    && f in s.cache && !s.cache[f].empty && s.cache[f].version < s.rows[f].version
  }

  /** Between scans, and with the deletion handled the moment it was made, the file is cached. */
  predicate ServesPromptlyDeleted(s: State, f: string) {
    && s.phase.Idle? && f !in s.trace.unseen && Stale(s, f)
    && f in s.trace.handled && s.trace.handled[f] == s.rows[f].mtime
  }

  /** A client reads the first version; the second one is committed and fetched. */
  lemma PassingSteps(e: Store, s: State, first: Release, second: Release)
    requires first == Release("a", 1, false, 0) && second.file == "a" && second.version == 2 && second.mtime == 0
    requires s == Begin(0).(phase := Idle)
    ensures var s1 := s.(rows := map["a" := first], trace := NoTrace.(unseen := {"a"}));
            var s2 := s1.(loading := map["a" := Entry(1, false)]);
            var s3 := s2.(rows := map["a" := second], trace := Trace({"a"}, map[], {"a"}, {}));
            var s4 := s3.(phase := Scanning([second], s.last, 0, NoReload), trace := Trace({}, map[], {"a"}, {}));
            && StepsTo(e, s, Commit(first), s1) && StepsTo(e, s1, LoadReads("a"), s2)
            && StepsTo(e, s2, Commit(second), s3) && StepsTo(e, s3, BeginScan([second]), s4)
  {
    var s1 := s.(rows := map["a" := first], trace := NoTrace.(unseen := {"a"}));
    assert CommitRow(s, first) == s1;
    var s2 := s1.(loading := map["a" := Entry(1, false)]);
    assert Read(s1, "a") == s2;
    var s3 := s2.(rows := map["a" := second], trace := Trace({"a"}, map[], {"a"}, {}));
    assert CommitRow(s2, second) == s3;
    assert Lists(e, [second], s3.rows, s.last - SCAN_OFFSET);
    assert Apply(s3, BeginScan([second])) ==
           s3.(phase := Scanning([second], s.last, 0, NoReload), trace := Trace({}, map[], {"a"}, {}));
  }

  /** The reload waits for the client, and takes its entry. */
  lemma WaitingSteps(e: Store, s: State, second: Release)
    requires second == Release("a", 2, false, 0) && s.now == 0 && s.rows == map["a" := second] && s.cache == map[]
    requires s.loading == map["a" := Entry(1, false)] && s.last == -FIRST_SCAN_OFFSET
    requires s.phase == Scanning([second], s.last, 0, NoReload) && s.trace == Trace({}, map[], {"a"}, {})
    ensures var s1 := s.(phase := Scanning([second], s.last, 0, Waiting), trace := Trace({}, map["a" := 0], {"a"}, {}));
            var s2 := s1.(cache := map["a" := Entry(1, false)], loading := map[],
                          trace := Trace({}, map["a" := 0], {}, {"a"}));
            var s3 := s2.(phase := Scanning([], 0, 0, NoReload));
            && StepsTo(e, s, HandleRelease, s1) && StepsTo(e, s1, LoadStores("a"), s2)
            && StepsTo(e, s2, ReloadFinds, s3) && StepsTo(e, s3, EndScan, s3.(last := 0, phase := Idle))
  {
    var s1 := s.(phase := Scanning([second], s.last, 0, Waiting), trace := Trace({}, map["a" := 0], {"a"}, {}));
    assert Evict(s.cache, second, 0) == map[];
    assert Handle(s) == s1;
    var s2 := s1.(cache := map["a" := Entry(1, false)], loading := map[], trace := Trace({}, map["a" := 0], {}, {"a"}));
    assert Put(s1, "a") == s2;
    assert [second][1..] == [];
  }

  /** A run that leaves an old version cached: a client's load is passed by a commit, and the
      reload for that commit takes the client's entry. */
  lemma RacedReload(e: Store)
    ensures exists steps, states :: IsRun(e, steps, states) && ServesOldVersion(states[|states| - 1], "a")
  {
    var first, second := Release("a", 1, false, 0), Release("a", 2, false, 0);
    var s0 := Begin(0).(phase := Idle);
    var s1 := s0.(rows := map["a" := first], trace := NoTrace.(unseen := {"a"}));
    var s2 := s1.(loading := map["a" := Entry(1, false)]);
    var s3 := s2.(rows := map["a" := second], trace := Trace({"a"}, map[], {"a"}, {}));
    var s4 := s3.(phase := Scanning([second], s0.last, 0, NoReload), trace := Trace({}, map[], {"a"}, {}));
    var s5 := s4.(phase := Scanning([second], s0.last, 0, Waiting), trace := Trace({}, map["a" := 0], {"a"}, {}));
    var s6 := s5.(cache := map["a" := Entry(1, false)], loading := map[], trace := Trace({}, map["a" := 0], {}, {"a"}));
    var s7 := s6.(phase := Scanning([], 0, 0, NoReload));
    var s8 := s7.(last := 0, phase := Idle);
    assert StepsTo(e, Begin(0), EndScan, s0);
    PassingSteps(e, s0, first, second);
    WaitingSteps(e, s4, second);
    assert ServesOldVersion(s8, "a");
    var steps, states := StartRun(e, 0);
    hide *;
    steps, states := Extend(e, steps, states, EndScan, s0);
    steps, states := Extend(e, steps, states, Commit(first), s1);
    steps, states := Extend(e, steps, states, LoadReads("a"), s2);
    steps, states := Extend(e, steps, states, Commit(second), s3);
    steps, states := Extend(e, steps, states, BeginScan([second]), s4);
    steps, states := Extend(e, steps, states, HandleRelease, s5);
    steps, states := Extend(e, steps, states, LoadStores("a"), s6);
    steps, states := Extend(e, steps, states, ReloadFinds, s7);
    steps, states := Extend(e, steps, states, EndScan, s8);
    assert states[|states| - 1] == s8;
  }

  /** The deletion is handled at once, and the client stores its entry afterwards. */
  lemma UndoingSteps(e: Store, s: State, gone: Release)
    requires gone == Release("a", 2, true, 0) && s.now == 0 && s.rows == map["a" := gone] && s.cache == map[]
    requires s.loading == map["a" := Entry(1, false)] && s.last == -FIRST_SCAN_OFFSET
    requires s.phase == Scanning([gone], s.last, 0, NoReload) && s.trace == Trace({}, map[], {"a"}, {})
    ensures var s1 := s.(phase := Scanning([], 0, 0, NoReload), trace := Trace({}, map["a" := 0], {"a"}, {}));
            var s2 := s1.(last := 0, phase := Idle);
            var s3 := s2.(cache := map["a" := Entry(1, false)], loading := map[],
                          trace := Trace({}, map["a" := 0], {}, {"a"}));
            && StepsTo(e, s, HandleRelease, s1) && StepsTo(e, s1, EndScan, s2) && StepsTo(e, s2, LoadStores("a"), s3)
  {
    var s1 := s.(phase := Scanning([], 0, 0, NoReload), trace := Trace({}, map["a" := 0], {"a"}, {}));
    assert [gone][1..] == [];
    assert Evict(s.cache, gone, 0) == map[];
    assert Handle(s) == s1;
    var s2 := s1.(last := 0, phase := Idle);
    var s3 := s2.(cache := map["a" := Entry(1, false)], loading := map[], trace := Trace({}, map["a" := 0], {}, {"a"}));
    assert Put(s2, "a") == s3;
  }

  /** A run that serves a deleted file although the deletion is handled without any delay: the
      client had read the live row before. */
  lemma RacedDeletion(e: Store)
    ensures exists steps, states :: IsRun(e, steps, states) && ServesPromptlyDeleted(states[|states| - 1], "a")
  {
    var first, gone := Release("a", 1, false, 0), Release("a", 2, true, 0);
    var s0 := Begin(0).(phase := Idle);
    var s1 := s0.(rows := map["a" := first], trace := NoTrace.(unseen := {"a"}));
    var s2 := s1.(loading := map["a" := Entry(1, false)]);
    var s3 := s2.(rows := map["a" := gone], trace := Trace({"a"}, map[], {"a"}, {}));
    var s4 := s3.(phase := Scanning([gone], s0.last, 0, NoReload), trace := Trace({}, map[], {"a"}, {}));
    var s5 := s4.(phase := Scanning([], 0, 0, NoReload), trace := Trace({}, map["a" := 0], {"a"}, {}));
    var s6 := s5.(last := 0, phase := Idle);
    var s7 := s6.(cache := map["a" := Entry(1, false)], loading := map[], trace := Trace({}, map["a" := 0], {}, {"a"}));
    assert StepsTo(e, Begin(0), EndScan, s0);
    PassingSteps(e, s0, first, gone);
    UndoingSteps(e, s4, gone);
    assert ServesPromptlyDeleted(s7, "a");
    var steps, states := StartRun(e, 0);
    hide *;
    steps, states := Extend(e, steps, states, EndScan, s0);
    steps, states := Extend(e, steps, states, Commit(first), s1);
    steps, states := Extend(e, steps, states, LoadReads("a"), s2);
    steps, states := Extend(e, steps, states, Commit(gone), s3);
    steps, states := Extend(e, steps, states, BeginScan([gone]), s4);
    steps, states := Extend(e, steps, states, HandleRelease, s5);
    steps, states := Extend(e, steps, states, EndScan, s6);
    steps, states := Extend(e, steps, states, LoadStores("a"), s7);
    assert states[|states| - 1] == s7;
  }
}
