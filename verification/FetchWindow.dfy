/**
 The overlapping fetch window of `baseCache` (cache/cache.go) over an id-keyed cache
 (cache/namespace.go).

 An update reads the store's clock, fetches the rows modified since the window start, and
 in a deferred assignment moves `lastFetchTime` to the clock value it read, also when the
 fetch failed. Rows become visible some time after their modification time. The theorems
 say exactly when no row is ever missed.
 */
module FetchWindow {
  import opened Wrappers

  /** One row of a store table; rows are deleted logically, through `valid`. */
  datatype Record = Record(id: string, valid: bool, mtime: int, payload: string)

  type Table = map<string, Record>

  /** `diff`: how far a window looks back, `-DefaultTimeDiff`, 5 s unless configured.
      `strict`: the query selects `mtime >` rather than `mtime >=` the window start.
      `validFirst`: the first fetch skips logically deleted rows. */
  datatype Config = Config(diff: nat, strict: bool, validFirst: bool)

  /** `LastFetchTime`: no look-back when it would leave Unix time. */
  function WindowStart(c: Config, lastFetchTime: int): int {
    if lastFetchTime - c.diff < 0 then lastFetchTime else lastFetchTime - c.diff
  }

  function Slack(c: Config): nat { if c.strict then 1 else 0 }

  predicate Selected(c: Config, r: Record, since: int) {
    r.mtime >= since + Slack(c)
  }

  function Query(c: Config, table: Table, since: int, first: bool): Table {
    map id | id in table && Selected(c, table[id], since) && (first && c.validFirst ==> table[id].valid) :: table[id]
  }

  /** What the cache should hold: the valid rows that are visible. */
  function ValidRows(table: Table): Table {
    map id | id in table && table[id].valid :: table[id]
  }

  function Merge(cache: Table, fetched: Table): Table {
    map id | id in cache.Keys + fetched.Keys && (id in fetched ==> fetched[id].valid) ::
      if id in fetched then fetched[id] else cache[id]
  }

  // ---------------------------------------------------------------- the step machine

  /** Where the single running update is: between reading the clock and the fetch, or
      between the fetch and the deferred assignment. */
  datatype Phase = Idle | ClockRead(cur: int) | Executed(cur: int)

  /** `synced`: when the last successful fetch ran; kept for the theorems only. */
  datatype State = State(now: int, table: Table, cache: Table, lastFetchTime: int, first: bool,
                         phase: Phase, synced: Option<int>)

  datatype Step =
    | Tick(to: int)
    | Commit(row: Record)
    | ReadClock(clockOk: bool)
    | Execute(fetchOk: bool)
    | Assign
    | Clear

  function Init(now: int): State {
    State(now, map[], map[], 1, true, Idle, None)
  }

  /** A row is committed at most `lag` after its modification time; a failed fetch runs at
      most `gap` after the last successful one. */
  predicate Enabled(c: Config, lag: nat, gap: nat, s: State, step: Step) {
    match step
    case Tick(to) => s.now <= to
    case Commit(row) => 1 < row.mtime <= s.now <= row.mtime + lag
    case ReadClock(_) => s.phase.Idle?
    case Execute(ok) => s.phase.ClockRead? && (ok || FailureInTime(gap, s))
    case Assign => s.phase.Executed?
    case Clear => s.phase.Idle?
  }

  predicate FailureInTime(gap: nat, s: State)
    requires s.phase.ClockRead?
  {
    s.phase.cur == s.lastFetchTime || s.phase.cur - s.synced.GetOr(1) <= gap
  }

  function Apply(c: Config, s: State, step: Step): State {
    match step
    case Tick(to) => s.(now := to)
    case Commit(row) => s.(table := s.table[row.id := row])
    case ReadClock(ok) => s.(phase := ClockRead(if ok then s.now else s.lastFetchTime))
    case Execute(ok) =>
      if !s.phase.ClockRead? then s
      else if !ok then s.(phase := Executed(s.phase.cur))
      else
        var fetched := Query(c, s.table, WindowStart(c, s.lastFetchTime), s.first);
        s.(cache := Merge(s.cache, fetched), first := false, phase := Executed(s.phase.cur), synced := Some(s.now))
    case Assign =>
      if s.phase.Executed? then s.(lastFetchTime := s.phase.cur, phase := Idle) else s
    case Clear => s.(cache := map[], lastFetchTime := 1, first := true, synced := None)
  }

  function Run(c: Config, s: State, steps: seq<Step>): State {
    if steps == [] then s else Apply(c, Run(c, s, steps[..|steps| - 1]), steps[|steps| - 1])
  }

  ghost predicate Legal(c: Config, lag: nat, gap: nat, s: State, steps: seq<Step>) {
    forall i :: 0 <= i < |steps| ==> Enabled(c, lag, gap, Run(c, s, steps[..i]), steps[i])
  }

  /** Every successful fetch leaves the cache equal to the store's visible valid rows. */
  ghost predicate NothingLost(c: Config, s: State, steps: seq<Step>) {
    forall i :: 0 <= i < |steps| && steps[i] == Execute(true) ==>
      var after := Run(c, s, steps[..i + 1]); after.cache == ValidRows(after.table)
  }

  // ---------------------------------------------------------------- why nothing is lost

  predicate Reflected(cache: Table, r: Record) {
    if r.valid then r.id in cache && cache[r.id] == r else r.id !in cache
  }

  /** Rows not yet reflected are at least this recent. */
  function UnseenSince(lag: nat, s: State): int {
    var bound := s.synced.GetOr(2 + lag) - lag;
    if bound < 2 then 2 else bound
  }

  ghost predicate Synced(lag: nat, s: State) {
    && (forall id :: id in s.table ==> s.table[id].id == id && s.table[id].mtime >= 2)
    && s.cache.Keys <= s.table.Keys
    && (forall id :: id in s.table ==> Reflected(s.cache, s.table[id]) || s.table[id].mtime >= UnseenSince(lag, s))
  }

  ghost predicate Clocked(c: Config, s: State) {
    && c.diff <= s.now && 1 <= s.now && s.lastFetchTime <= s.now
    && (s.synced.Some? ==> s.synced.value <= s.now)
    && (s.first ==> s.cache == map[])
    && (!s.phase.Idle? ==> s.phase.cur <= s.now && (s.phase.cur == s.lastFetchTime || c.diff <= s.phase.cur))
  }

  /** The next window, and the one an update in flight will install, reach back far enough. */
  ghost predicate Reaching(c: Config, lag: nat, s: State) {
    && WindowStart(c, s.lastFetchTime) + Slack(c) <= UnseenSince(lag, s)
    && (s.phase.Executed? ==> WindowStart(c, s.phase.cur) + Slack(c) <= UnseenSince(lag, s))
  }

  ghost predicate Inv(c: Config, lag: nat, s: State) {
    Synced(lag, s) && Clocked(c, s) && Reaching(c, lag, s)
  }

  lemma FetchReflectsAll(c: Config, lag: nat, s: State)
    requires Inv(c, lag, s) && s.phase.ClockRead?
    ensures var after := Apply(c, s, Execute(true));
            after.cache == ValidRows(after.table)
  {
  }

  lemma StepKeepsInv(c: Config, lag: nat, gap: nat, s: State, step: Step)
    requires lag + gap + Slack(c) <= c.diff
    requires Inv(c, lag, s) && Enabled(c, lag, gap, s, step)
    ensures Inv(c, lag, Apply(c, s, step))
  {
    if step == Execute(true) { FetchReflectsAll(c, lag, s); }
  }

  lemma {:induction false} RunKeepsInv(c: Config, lag: nat, gap: nat, s: State, steps: seq<Step>)
    requires lag + gap + Slack(c) <= c.diff && Inv(c, lag, s) && Legal(c, lag, gap, s, steps)
    ensures Inv(c, lag, Run(c, s, steps))
  {
    if steps != [] {
      var n := |steps| - 1;
      forall i | 0 <= i < n ensures Enabled(c, lag, gap, Run(c, s, steps[..n][..i]), steps[..n][i]) {
        assert steps[..n][..i] == steps[..i];
      }
      RunKeepsInv(c, lag, gap, s, steps[..n]);
      assert steps[..n] == steps[..|steps| - 1];
      assert Enabled(c, lag, gap, Run(c, s, steps[..n]), steps[n]);
      StepKeepsInv(c, lag, gap, Run(c, s, steps[..n]), steps[n]);
    }
  }

  lemma NoLostUpdate(c: Config, lag: nat, gap: nat, now: int, steps: seq<Step>)
    requires lag + gap + Slack(c) <= c.diff <= now && 1 <= now && Legal(c, lag, gap, Init(now), steps)
    ensures NothingLost(c, Init(now), steps)
  {
    var s := Init(now);
    forall i | 0 <= i < |steps| && steps[i] == Execute(true)
      ensures var after := Run(c, s, steps[..i + 1]); after.cache == ValidRows(after.table)
    {
      forall j | 0 <= j < i ensures Enabled(c, lag, gap, Run(c, s, steps[..i][..j]), steps[..i][j]) {
        assert steps[..i][..j] == steps[..j];
      }
      RunKeepsInv(c, lag, gap, s, steps[..i]);
      assert Enabled(c, lag, gap, Run(c, s, steps[..i]), steps[i]);
      assert steps[..i + 1][..i] == steps[..i];
      FetchReflectsAll(c, lag, Run(c, s, steps[..i]));
    }
  }

  // ---------------------------------------------------------------- and when something is

  /** A good update, a late row, one failed update `gap` later, and a good update again. */
  function LosingRun(row: Record, later: int): seq<Step> {
    [ReadClock(true), Execute(true), Assign, Commit(row), Tick(later),
     ReadClock(true), Execute(false), Assign, ReadClock(true), Execute(true)]
  }

  lemma RunStep(c: Config, s: State, steps: seq<Step>, i: nat)
    requires i < |steps|
    ensures Run(c, s, steps[..i + 1]) == Apply(c, Run(c, s, steps[..i]), steps[i])
  {
    assert steps[..i + 1][..i] == steps[..i];
  }

  ghost predicate LegalAt(c: Config, lag: nat, gap: nat, s: State, steps: seq<Step>, i: nat)
    requires i < |steps|
  {
    Enabled(c, lag, gap, Run(c, s, steps[..i]), steps[i])
  }

  /** Half way along the losing run: the good update is over and the late row is in. */
  lemma LosingStart(c: Config, lag: nat, gap: nat, now: int, row: Record)
    requires c.diff <= now && 1 < row.mtime && row.mtime + lag == now && row.valid
    ensures var steps, s := LosingRun(row, now + gap), Init(now);
            && (forall i :: 0 <= i < 5 ==> LegalAt(c, lag, gap, s, steps, i))
            && Run(c, s, steps[..5]) == State(now + gap, map[row.id := row], map[], now, false, Idle, Some(now))
  {
    hide Query, Merge, WindowStart;
    var steps, s0 := LosingRun(row, now + gap), Init(now);
    assert steps[..0] == [];
    RunStep(c, s0, steps, 0);
    RunStep(c, s0, steps, 1);
    assert Run(c, s0, steps[..2]) == State(now, map[], map[], 1, false, Executed(now), Some(now)) by {
      assert Query(c, map[], WindowStart(c, 1), true) == map[] && Merge(map[], map[]) == map[] by { EmptyFetch(c); }
    }
    RunStep(c, s0, steps, 2);
    RunStep(c, s0, steps, 3);
    RunStep(c, s0, steps, 4);
  }

  /** The states along the losing run, in terms of what matters. */
  lemma LosingStates(c: Config, lag: nat, gap: nat, now: int, row: Record)
    requires c.diff <= now && 1 < row.mtime && row.mtime + lag == now && row.valid
    ensures var steps := LosingRun(row, now + gap);
            && Legal(c, lag, gap, Init(now), steps)
            && Run(c, Init(now), steps[..9]) ==
               State(now + gap, map[row.id := row], map[], now + gap, false, ClockRead(now + gap), Some(now))
  {
    hide Query, Merge, WindowStart, Run;
    var steps, s0 := LosingRun(row, now + gap), Init(now);
    LosingStart(c, lag, gap, now, row);
    RunStep(c, s0, steps, 5);
    RunStep(c, s0, steps, 6);
    RunStep(c, s0, steps, 7);
    RunStep(c, s0, steps, 8);
    assert forall i :: 5 <= i < 10 ==> LegalAt(c, lag, gap, s0, steps, i);
    forall i | 0 <= i < 10 ensures Enabled(c, lag, gap, Run(c, s0, steps[..i]), steps[i]) {
      assert LegalAt(c, lag, gap, s0, steps, i);
    }
  }

  lemma EmptyFetch(c: Config)
    ensures Query(c, map[], WindowStart(c, 1), true) == map[] && Merge(map[], map[]) == map[]
  {
  }

  /** The row is visible and valid, not cached, and out of reach of the next window and of any
      that the clock can still install. */
  ghost predicate Lost(c: Config, s: State, row: Record) {
    && row.valid && row.id in s.table && s.table[row.id] == row && row.id !in s.cache
    && c.diff <= s.now && OutOfReach(c, s.now, row) && OutOfReach(c, s.lastFetchTime, row)
    && (!s.phase.Idle? ==> OutOfReach(c, s.phase.cur, row))
  }

  predicate OutOfReach(c: Config, lastFetchTime: int, row: Record) {
    !Selected(c, row, WindowStart(c, lastFetchTime))
  }

  /** The step neither clears the cache nor commits the row anew. */
  predicate Spares(step: Step, id: string) {
    !step.Clear? && !(step.Commit? && step.row.id == id)
  }

  lemma StepKeepsLost(c: Config, lag: nat, gap: nat, s: State, step: Step, row: Record)
    requires Lost(c, s, row) && Enabled(c, lag, gap, s, step) && Spares(step, row.id)
    ensures Lost(c, Apply(c, s, step), row)
  {
  }

  lemma {:induction false} RunKeepsLost(c: Config, lag: nat, gap: nat, s: State, steps: seq<Step>,
                                        n: nat, k: nat, row: Record)
    requires n <= k <= |steps| && Legal(c, lag, gap, s, steps) && Lost(c, Run(c, s, steps[..n]), row)
    requires forall i :: n <= i < k ==> Spares(steps[i], row.id)
    ensures Lost(c, Run(c, s, steps[..k]), row)
  {
    hide Lost, Enabled, Apply;
    if n < k {
      RunKeepsLost(c, lag, gap, s, steps, n, k - 1, row);
      RunStep(c, s, steps, k - 1);
      assert Enabled(c, lag, gap, Run(c, s, steps[..k - 1]), steps[k - 1]);
      StepKeepsLost(c, lag, gap, Run(c, s, steps[..k - 1]), steps[k - 1], row);
    }
  }

  /** After the run the row is visible, valid and missing from the cache, and it stays so
      however the run goes on, until it is committed anew or the cache is cleared. */
  ghost predicate LostForGood(c: Config, lag: nat, gap: nat, s: State, steps: seq<Step>, row: Record) {
    forall more :: Legal(c, lag, gap, s, steps + more) && (forall step :: step in more ==> Spares(step, row.id)) ==>
      Lost(c, Run(c, s, steps + more), row)
  }

  lemma LostIsForGood(c: Config, lag: nat, gap: nat, s: State, steps: seq<Step>, row: Record)
    requires Lost(c, Run(c, s, steps), row)
    ensures LostForGood(c, lag, gap, s, steps, row)
  {
    hide Lost, Run, Legal;
    forall more | Legal(c, lag, gap, s, steps + more) && forall step :: step in more ==> Spares(step, row.id)
      ensures Lost(c, Run(c, s, steps + more), row)
    {
      var all := steps + more;
      assert all[..|steps|] == steps && all[..|all|] == all;
      assert forall i :: |steps| <= i < |all| ==> all[i] in more;
      RunKeepsLost(c, lag, gap, s, all, |steps|, |all|, row);
    }
  }

  lemma LostUpdate(c: Config, lag: nat, gap: nat)
    requires lag + gap + Slack(c) > c.diff
    ensures exists now, steps, row ::
              && c.diff <= now && 1 <= now && Legal(c, lag, gap, Init(now), steps)
              && !NothingLost(c, Init(now), steps) && LostForGood(c, lag, gap, Init(now), steps, row)
  {
    var now := c.diff + lag + 2;
    var row := Record("ns", true, now - lag, "");
    var steps := LosingRun(row, now + gap);
    LosingStates(c, lag, gap, now, row);
    RunStep(c, Init(now), steps, 9);
    var after := Run(c, Init(now), steps[..10]);
    assert after.table == map[row.id := row] && after.cache == map[];
    assert row.id in ValidRows(after.table);
    assert steps[9] == Execute(true) && !NothingLost(c, Init(now), steps);
    assert steps[..10] == steps;
    assert Lost(c, after, row);
    LostIsForGood(c, lag, gap, Init(now), steps, row);
  }

  /** The window is exactly as wide as it has to be: no run loses a row if and only if commit
      lag plus failure gap (plus one second for a strict query) fits in the look-back. */
  lemma WindowIsTight(c: Config, lag: nat, gap: nat)
    ensures (forall now, steps :: c.diff <= now && 1 <= now && Legal(c, lag, gap, Init(now), steps) ==>
               NothingLost(c, Init(now), steps))
            <==> lag + gap + Slack(c) <= c.diff
  {
    if lag + gap + Slack(c) <= c.diff {
      forall now, steps | c.diff <= now && 1 <= now && Legal(c, lag, gap, Init(now), steps)
        ensures NothingLost(c, Init(now), steps)
      {
        NoLostUpdate(c, lag, gap, now, steps);
      }
    } else {
      LostUpdate(c, lag, gap);
    }
  }

  // ---------------------------------------------------------------- the cache itself

  function ApplyRow(cache: Table, r: Record): Table {
    if r.valid then cache[r.id := r] else cache - {r.id}
  }

  function ApplyRows(cache: Table, rows: seq<Record>): Table {
    if rows == [] then cache else ApplyRow(ApplyRows(cache, rows[..|rows| - 1]), rows[|rows| - 1])
  }

  /** `rows` lists a query result, in any order. */
  ghost predicate Lists(rows: seq<Record>, fetched: Table) {
    && (forall i, j :: 0 <= i < j < |rows| ==> rows[i].id != rows[j].id)
    && (forall r :: r in rows ==> r.id in fetched && fetched[r.id] == r)
    && (forall id :: id in fetched ==> fetched[id].id == id && fetched[id] in rows)
  }

  lemma ListsFewer(rows: seq<Record>, fetched: Table)
    requires rows != [] && Lists(rows, fetched)
    ensures Lists(rows[..|rows| - 1], fetched - {rows[|rows| - 1].id})
  {
  }

  lemma MergeStep(cache: Table, fetched: Table, r: Record)
    requires r.id in fetched && fetched[r.id] == r
    ensures Merge(cache, fetched) == ApplyRow(Merge(cache, fetched - {r.id}), r)
  {
  }

  lemma {:induction false} ApplyRowsIsMerge(cache: Table, rows: seq<Record>, fetched: Table)
    requires Lists(rows, fetched)
    ensures ApplyRows(cache, rows) == Merge(cache, fetched)
  {
    hide Merge;
    if rows == [] {
      assert fetched == map[];
      assert Merge(cache, map[]) == cache by { MergeNothing(cache); }
    } else {
      var r := rows[|rows| - 1];
      assert r in rows;
      MergeStep(cache, fetched, r);
      ListsFewer(rows, fetched);
      hide Lists;
      ApplyRowsIsMerge(cache, rows[..|rows| - 1], fetched - {r.id});
    }
  }

  lemma MergeNothing(cache: Table)
    ensures Merge(cache, map[]) == cache
  {
  }

  class NamespaceCache {
    const config: Config
    var lastFetchTime: int
    var firstUpdate: bool
    var lastMtime: int
    var ids: Table

    constructor (config: Config)
      ensures this.config == config && lastFetchTime == 1 && firstUpdate && lastMtime == 0 && ids == map[]
    {
      this.config := config;
      lastFetchTime, firstUpdate, lastMtime, ids := 1, true, 0, map[];
    }

    method Reset()
      modifies this
      ensures lastFetchTime == 1 && firstUpdate && lastMtime == 0 && ids == map[]
    {
      lastFetchTime, firstUpdate, lastMtime, ids := 1, true, 0, map[];
    }

    method SetNamespaces(rows: seq<Record>) returns (mtime: int)
      modifies this`ids
      ensures ids == ApplyRows(old(ids), rows)
      ensures mtime >= lastMtime && forall r :: r in rows ==> mtime >= r.mtime
      ensures mtime == lastMtime || exists r :: r in rows && mtime == r.mtime
    {
      mtime := lastMtime;
      for i := 0 to |rows|
        invariant ids == ApplyRows(old(ids), rows[..i])
        invariant mtime >= lastMtime && forall r :: r in rows[..i] ==> mtime >= r.mtime
        invariant mtime == lastMtime || exists r :: r in rows && mtime == r.mtime
      {
        var ns := rows[i];
        assert rows[..i + 1] == rows[..i] + [ns];
        if !ns.valid {
          ids := ids - {ns.id};
        } else {
          ids := ids[ns.id := ns];
        }
        if mtime < ns.mtime { mtime := ns.mtime; }
      }
      assert rows[..|rows|] == rows;
    }

    /** `doCacheUpdate`: `clock` is what `GetUnixSecond` answered, `fetch` what the query
        returned, either of which may have failed. It is the steps ReadClock, Execute and
        Assign of the machine, whatever the clock and the store do in between. */
    method DoCacheUpdate(clock: Option<int>, fetch: Option<seq<Record>>,
                         ghost s: State, ghost meanwhile: seq<Step>, ghost later: seq<Step>)
      returns (ok: bool)
      requires s.phase.Idle? && s.cache == ids && s.lastFetchTime == lastFetchTime && s.first == firstUpdate
      requires Outside(meanwhile) && Outside(later)
      requires clock.Some? ==> clock.value == s.now
      requires fetch.Some? ==>
                 Lists(fetch.value, Query(config, Run(config, s, [ReadClock(clock.Some?)] + meanwhile).table,
                                          WindowStart(config, lastFetchTime), firstUpdate))
      modifies this
      ensures ok == fetch.Some?
      ensures var after := Run(config, s, [ReadClock(clock.Some?)] + meanwhile + [Execute(ok)] + later + [Assign]);
              ids == after.cache && lastFetchTime == after.lastFetchTime && firstUpdate == after.first
      ensures !ok ==> lastMtime == old(lastMtime)
    {
      UpdateSteps(config, s, clock.Some?, fetch.Some?, meanwhile, later);
      ghost var fetching := Run(config, s, [ReadClock(clock.Some?)] + meanwhile);
      hide Run;
      var curStoreTime := if clock.Some? then clock.value else lastFetchTime;
      ok := fetch.Some?;
      if ok {
        ApplyRowsIsMerge(ids, fetch.value,
                         Query(config, fetching.table, WindowStart(config, lastFetchTime), firstUpdate));
        var mtime := SetNamespaces(fetch.value);
        lastMtime := mtime;
        firstUpdate := false;
      }
      lastFetchTime := curStoreTime;
    }
  }

  /** Steps of the clock and the store. */
  ghost predicate Outside(steps: seq<Step>) {
    forall i :: 0 <= i < |steps| ==> steps[i].Tick? || steps[i].Commit?
  }

  lemma {:induction false} RunOutside(c: Config, s: State, steps: seq<Step>)
    requires Outside(steps)
    ensures var after := Run(c, s, steps);
            && after.cache == s.cache && after.lastFetchTime == s.lastFetchTime
            && after.first == s.first && after.phase == s.phase
  {
    if steps != [] { RunOutside(c, s, steps[..|steps| - 1]); }
  }

  lemma {:induction false} RunAppend(c: Config, s: State, a: seq<Step>, b: seq<Step>)
    ensures Run(c, s, a + b) == Run(c, Run(c, s, a), b)
  {
    hide Apply;
    if b == [] {
      assert a + b == a;
    } else {
      RunAppend(c, s, a, b[..|b| - 1]);
      assert (a + b)[..|a + b| - 1] == a + b[..|b| - 1];
    }
  }

  lemma RunOne(c: Config, s: State, step: Step)
    ensures Run(c, s, [step]) == Apply(c, s, step)
  {
    hide Apply;
    assert [step][..0] == [];
  }

  /** What an update leaves, with the store at work between its steps. */
  lemma UpdateSteps(c: Config, s: State, clockOk: bool, fetchOk: bool, meanwhile: seq<Step>, later: seq<Step>)
    requires s.phase.Idle? && Outside(meanwhile) && Outside(later)
    ensures var fetching := Run(c, s, [ReadClock(clockOk)] + meanwhile);
            var after := Run(c, s, [ReadClock(clockOk)] + meanwhile + [Execute(fetchOk)] + later + [Assign]);
            && after.cache == (if fetchOk
                               then Merge(s.cache, Query(c, fetching.table, WindowStart(c, s.lastFetchTime), s.first))
                               else s.cache)
            && after.lastFetchTime == (if clockOk then s.now else s.lastFetchTime)
            && after.first == (if fetchOk then false else s.first)
  {
    hide Run, Merge, Query, WindowStart;
    var read := Apply(c, s, ReadClock(clockOk));
    RunOne(c, s, ReadClock(clockOk));
    RunAppend(c, s, [ReadClock(clockOk)], meanwhile);
    RunOutside(c, read, meanwhile);
    var fetching := Run(c, read, meanwhile);
    RunAppend(c, s, [ReadClock(clockOk)] + meanwhile, [Execute(fetchOk)]);
    RunOne(c, fetching, Execute(fetchOk));
    var done := Apply(c, fetching, Execute(fetchOk));
    RunAppend(c, s, [ReadClock(clockOk)] + meanwhile + [Execute(fetchOk)], later);
    RunOutside(c, done, later);
    RunAppend(c, s, [ReadClock(clockOk)] + meanwhile + [Execute(fetchOk)] + later, [Assign]);
    RunOne(c, Run(c, done, later), Assign);
  }
}
