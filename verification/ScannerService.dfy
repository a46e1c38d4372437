/**
 The loop of `handlerReleases` (config/scanner.go) over the file cache (cache/config_file.go).
 Between its turns time passes and the table changes, loads may fail, and a reload may find
 that another load has stored an entry in the meantime.
 */
module ScannerService {
  import opened Scanner
  import opened Wrappers

  /** What one turn of the loop meets. For a reload: what another load stores before this one
      gets the lock, the table as it is read, and whether reading works. And the clock, which
      is read for a deletion and again before announcing. */
  datatype Turn = Turn(meanwhile: Option<Entry>, rows: Table, loadOk: bool, now: int, sendAt: int)

  /** The entry that a reload leaves. */
  function Reloaded(t: Turn, f: string): Option<Entry> {
    if t.meanwhile.Some? then t.meanwhile else if t.loadOk then Some(Load(t.rows, f)) else None
  }

  function WithEntry(cache: Cache, f: string, entry: Option<Entry>): Cache {
    if entry.Some? then cache[f := entry.value] else cache - {f}
  }

  /** The file part of one turn. */
  function Refresh(cache: Cache, r: Release, t: Turn): Cache {
    if Behind(cache, r) && !r.deleted then WithEntry(cache, r.file, Reloaded(t, r.file)) else Evict(cache, r, t.now)
  }

  function RefreshAll(cache: Cache, list: seq<Release>, turns: seq<Turn>): Cache
    requires |turns| == |list|
  {
    if list == [] then cache
    else
      var n := |list| - 1;
      Refresh(RefreshAll(cache, list[..n], turns[..n]), list[n], turns[n])
  }

  /** A release turns into a publication event when the cache is behind it, unless it is the
      first scan or the release is too old. */
  predicate Announces(cache: Cache, r: Release, t: Turn, firstTime: bool) {
    Behind(cache, r) && !(r.deleted && Expired(r, t.now)) && !firstTime && !Expired(r, t.sendAt)
  }

  function Announced(cache: Cache, list: seq<Release>, turns: seq<Turn>, firstTime: bool): seq<Release>
    requires |turns| == |list|
  {
    if list == [] then []
    else
      var n := |list| - 1;
      Announced(cache, list[..n], turns[..n], firstTime) +
      if Announces(RefreshAll(cache, list[..n], turns[..n]), list[n], turns[n], firstTime) then [list[n]] else []
  }

  // ---------------------------------------------------------------- catching up

  /** The table holds this release of the file or a later one. */
  predicate NotAhead(rows: Table, r: Release) {
    r.file in rows && r.version <= rows[r.file].version
  }

  /** Not cached, cached as gone, or cached at this version or later. */
  predicate CaughtUp(cache: Cache, r: Release) {
    r.file !in cache || cache[r.file].empty || r.version <= cache[r.file].version
  }

  /** The reload finds an entry that was read before the release. */
  predicate FindsOlder(t: Turn, r: Release) {
    t.meanwhile.Some? && !t.meanwhile.value.empty && t.meanwhile.value.version < r.version
  }

  lemma RefreshCatchesUpIff(cache: Cache, r: Release, t: Turn)
    requires NotAhead(t.rows, r) && !r.deleted
    ensures CaughtUp(Refresh(cache, r, t), r) <==> !(Behind(cache, r) && FindsOlder(t, r))
  {
  }

  lemma OtherFileUntouched(cache: Cache, q: Release, t: Turn, f: string)
    requires f != q.file
    ensures f in Refresh(cache, q, t) <==> f in cache
    ensures f in cache ==> Refresh(cache, q, t)[f] == cache[f]
  {
  }

  lemma {:induction false} OtherFilesUntouched(cache: Cache, list: seq<Release>, turns: seq<Turn>, f: string)
    requires |turns| == |list| && forall q :: q in list ==> q.file != f
    ensures var after := RefreshAll(cache, list, turns);
            (f in after <==> f in cache) && (f in cache ==> after[f] == cache[f])
  {
    hide Refresh;
    if list != [] {
      var n := |list| - 1;
      OtherFilesUntouched(cache, list[..n], turns[..n], f);
      OtherFileUntouched(RefreshAll(cache, list[..n], turns[..n]), list[n], turns[n], f);
    }
  }

  /** The query returns each file once. */
  ghost predicate DistinctFiles(list: seq<Release>) {
    forall i, j :: 0 <= i < j < |list| ==> list[i].file != list[j].file
  }

  /** After the loop the cache has caught up with a live release it was given, or leaves the
      file to be loaded on demand, if and only if the cache was up to date or the reload did
      not find an entry that another load had read before the release. */
  lemma {:induction false} HandledReleaseIff(cache: Cache, list: seq<Release>, turns: seq<Turn>, i: nat)
    requires |turns| == |list| && i < |list| && DistinctFiles(list)
    requires !list[i].deleted && NotAhead(turns[i].rows, list[i])
    ensures CaughtUp(RefreshAll(cache, list, turns), list[i]) <==>
            !(Behind(cache, list[i]) && FindsOlder(turns[i], list[i]))
  {
    hide Refresh, FindsOlder, NotAhead;
    var n := |list| - 1;
    var before := RefreshAll(cache, list[..n], turns[..n]);
    if i == n {
      OtherFilesUntouched(cache, list[..n], turns[..n], list[n].file);
      RefreshCatchesUpIff(before, list[n], turns[n]);
    } else {
      HandledReleaseIff(cache, list[..n], turns[..n], i);
      OtherFileUntouched(before, list[n], turns[n], list[i].file);
    }
  }

  // ---------------------------------------------------------------- the same rows again

  /** A fetched row. */
  predicate Fetched(rows: Table, r: Release) { r.file in rows && rows[r.file] == r }

  function Expected(rows: Table, f: string, broken: set<string>): Option<Entry> {
    if f in broken then None else Some(Load(rows, f))
  }

  /** The table stands still, the clock stays within bounds, and `broken` are the files whose
      load fails. Entries that other loads store are as the table says. */
  ghost predicate Steady(list: seq<Release>, turns: seq<Turn>, rows: Table, broken: set<string>,
                         since: int, until: int)
  {
    && |turns| == |list|
    && forall i :: 0 <= i < |list| ==>
         && Fetched(rows, list[i]) && since <= turns[i].now <= until
         && Reloaded(turns[i], list[i].file) == Expected(rows, list[i].file, broken)
  }

  /** Handling this release would change nothing. */
  predicate Settled(cache: Cache, r: Release, t: Turn) {
    Refresh(cache, r, t) == cache
  }

  predicate Alike(rows: Table, broken: set<string>, r: Release, t: Turn) {
    Fetched(rows, r) && Reloaded(t, r.file) == Expected(rows, r.file, broken)
  }

  lemma RefreshSettles(cache: Cache, rows: Table, broken: set<string>, r: Release, t: Turn, later: Turn)
    requires Alike(rows, broken, r, t) && Alike(rows, broken, r, later) && t.now <= later.now
    ensures Settled(Refresh(cache, r, t), r, later)
  {
    hide Reloaded;
  }

  lemma StaysSettled(cache: Cache, rows: Table, broken: set<string>, r: Release, later: Turn, q: Release, t: Turn)
    requires Alike(rows, broken, r, later) && Alike(rows, broken, q, t) && t.now <= later.now
    requires Settled(cache, r, later)
    ensures Settled(Refresh(cache, q, t), r, later)
  {
    if q.file == r.file {
      RefreshSettles(cache, rows, broken, r, t, later);
    } else {
      OtherFileUntouched(cache, q, t, r.file);
    }
  }

  lemma SteadyFewer(list: seq<Release>, turns: seq<Turn>, rows: Table, broken: set<string>, since: int, until: int)
    requires list != [] && Steady(list, turns, rows, broken, since, until)
    ensures var n := |list| - 1; Steady(list[..n], turns[..n], rows, broken, since, until)
  {
  }

  lemma {:induction false} LoopSettles(cache: Cache, rows: Table, list: seq<Release>, turns: seq<Turn>,
                                       broken: set<string>, since: int, until: int, later: Turn, i: nat)
    requires Steady(list, turns, rows, broken, since, until) && i < |list|
    requires until <= later.now && Alike(rows, broken, list[i], later)
    ensures Settled(RefreshAll(cache, list, turns), list[i], later)
  {
    hide Refresh, Settled, Reloaded;
    var n := |list| - 1;
    var before := RefreshAll(cache, list[..n], turns[..n]);
    if i == n {
      RefreshSettles(before, rows, broken, list[n], turns[n], later);
    } else {
      SteadyFewer(list, turns, rows, broken, since, until);
      LoopSettles(cache, rows, list[..n], turns[..n], broken, since, until, later, i);
      StaysSettled(before, rows, broken, list[i], later, list[n], turns[n]);
    }
  }

  ghost predicate AllSettled(cache: Cache, list: seq<Release>, turns: seq<Turn>) {
    |turns| == |list| && forall i :: 0 <= i < |list| ==> Settled(cache, list[i], turns[i])
  }

  lemma {:induction false} SettledLoop(cache: Cache, list: seq<Release>, turns: seq<Turn>)
    requires AllSettled(cache, list, turns)
    ensures RefreshAll(cache, list, turns) == cache
  {
    hide Refresh;
    if list != [] {
      var n := |list| - 1;
      SettledLoop(cache, list[..n], turns[..n]);
      assert Settled(cache, list[n], turns[n]);
    }
  }

  /** Fetching the same rows again, as the overlapping windows do, leaves the cache as it is,
      at any later time and whatever loads fail, as long as the same ones do. */
  lemma LoopIdempotent(cache: Cache, rows: Table, list: seq<Release>, turns: seq<Turn>, again: seq<Turn>,
                       broken: set<string>, since: int, between: int, until: int)
    requires Steady(list, turns, rows, broken, since, between) && Steady(list, again, rows, broken, between, until)
    ensures var once := RefreshAll(cache, list, turns);
            RefreshAll(once, list, again) == once && AllSettled(once, list, again)
  {
    hide Refresh, Settled, Reloaded;
    var once := RefreshAll(cache, list, turns);
    forall i | 0 <= i < |list| ensures Settled(once, list[i], again[i]) {
      LoopSettles(cache, rows, list, turns, broken, since, between, again[i], i);
    }
    SettledLoop(once, list, again);
  }

  lemma {:induction false} LoadedIsCurrent(cache: Cache, rows: Table, list: seq<Release>, turns: seq<Turn>,
                                           broken: set<string>, since: int, until: int, i: nat)
    requires Steady(list, turns, rows, broken, since, until) && i < |list|
    requires !list[i].deleted && list[i].file !in broken
    ensures !Behind(RefreshAll(cache, list, turns), list[i])
  {
    hide Reloaded;
    var n := |list| - 1;
    if i < n {
      SteadyFewer(list, turns, rows, broken, since, until);
      LoadedIsCurrent(cache, rows, list[..n], turns[..n], broken, since, until, i);
    }
  }

  lemma {:induction false} NotAnnounced(cache: Cache, list: seq<Release>, turns: seq<Turn>, firstTime: bool, r: Release)
    requires AllSettled(cache, list, turns) && !Behind(cache, r)
    ensures r !in Announced(cache, list, turns, firstTime)
  {
    hide Refresh;
    if list != [] {
      var n := |list| - 1;
      assert AllSettled(cache, list[..n], turns[..n]);
      NotAnnounced(cache, list[..n], turns[..n], firstTime, r);
      SettledLoop(cache, list[..n], turns[..n]);
    }
  }

  /** The second time round nobody is told again about a live release that was loaded. Only
      deletions not yet expired, and files that could not be loaded, are announced once more. */
  lemma RedeliveryIsQuiet(cache: Cache, rows: Table, list: seq<Release>, turns: seq<Turn>, again: seq<Turn>,
                          broken: set<string>, since: int, between: int, until: int, firstTime: bool, i: nat)
    requires Steady(list, turns, rows, broken, since, between) && Steady(list, again, rows, broken, between, until)
    requires i < |list| && !list[i].deleted && list[i].file !in broken
    ensures list[i] !in Announced(RefreshAll(cache, list, turns), list, again, firstTime)
  {
    hide Settled, Behind, Reloaded;
    LoadedIsCurrent(cache, rows, list, turns, broken, since, between, i);
    LoopIdempotent(cache, rows, list, turns, again, broken, since, between, until);
    NotAnnounced(RefreshAll(cache, list, turns), list, again, firstTime, list[i]);
  }

  // ---------------------------------------------------------------- the scanner

  class ReleaseScanner {
    var lastScannerTime: int
    var files: Cache
    var events: seq<Release>

    constructor (now: int)
      ensures lastScannerTime == now - FIRST_SCAN_OFFSET && files == map[] && events == []
    {
      lastScannerTime, files, events := now - FIRST_SCAN_OFFSET, map[], [];
    }

    /** `GetOrLoadIfAbsent`. While it waits for the lock of the file another load may store an
        entry, which the double check finds; else it reads the table and stores what it read.
        A failed load leaves the file uncached. */
    method GetOrLoadIfAbsent(f: string, t: Turn) returns (entry: Option<Entry>)
      modifies this`files
      ensures entry == if f in old(files) then Some(old(files)[f]) else Reloaded(t, f)
      ensures files == WithEntry(old(files), f, entry)
    {
      if f in files {
        assert files == files[f := files[f]];
        return Some(files[f]);
      }
      if t.meanwhile.Some? {
        files := files[f := t.meanwhile.value];
      }
      if f in files {
        return Some(files[f]);
      }
      if !t.loadOk {
        assert files == files - {f};
        return None;
      }
      var newEntry := Load(t.rows, f);
      files := files[f := newEntry];
      return Some(newEntry);
    }

    method Remove(f: string)
      modifies this`files
      ensures files == old(files) - {f}
    {
      files := files - {f};
    }

    /** `ReLoad`: takes the entry out, and may be left with one that another load stores. */
    method ReLoad(f: string, t: Turn) returns (entry: Option<Entry>)
      modifies this`files
      ensures entry == Reloaded(t, f) && files == WithEntry(old(files), f, entry)
    {
      Remove(f);
      entry := GetOrLoadIfAbsent(f, t);
      assert files == WithEntry(old(files), f, entry);
    }

    /** One turn of the loop. */
    method HandleRelease(firstTime: bool, release: Release, t: Turn)
      modifies this`files, this`events
      ensures files == Refresh(old(files), release, t)
      ensures events == old(events) + if Announces(old(files), release, t, firstTime) then [release] else []
    {
      hide Reloaded, WithEntry;
      if release.file in files && !files[release.file].empty && release.version <= files[release.file].version {
        return;
      }
      if release.deleted {
        if Expired(release, t.now) { return; }
        Remove(release.file);
      } else {
        var _ := ReLoad(release.file, t);
      }
      if !firstTime && !Expired(release, t.sendAt) {
        events := events + [release];
      }
    }

    /** `handlerReleases`. */
    method HandlerReleases(firstTime: bool, releases: seq<Release>, turns: seq<Turn>)
      requires |turns| == |releases|
      modifies this
      ensures files == RefreshAll(old(files), releases, turns)
      ensures events == old(events) + Announced(old(files), releases, turns, firstTime)
      ensures Newest(releases, old(lastScannerTime), lastScannerTime)
    {
      hide *;
      ghost var start := Loop(releases, turns, firstTime, files, events, lastScannerTime);
      var maxModifyTime := lastScannerTime;
      LoopStarts(start);
      for i := 0 to |releases|
        invariant lastScannerTime == old(lastScannerTime) && Done(start, i, files, events, maxModifyTime)
      {
        var release := releases[i];
        LoopStep(start, i, files, events, maxModifyTime);
        if release.mtime > maxModifyTime {
          maxModifyTime := release.mtime;
        }
        HandleRelease(firstTime, release, turns[i]);
      }
      LoopEnds(start, files, events, maxModifyTime);
      lastScannerTime := maxModifyTime;
    }
  }

  /** A loop over releases and the state it starts from. */
  datatype Loop = Loop(list: seq<Release>, turns: seq<Turn>, firstTime: bool,
                       cache: Cache, events: seq<Release>, last: int)

  /** What the first `i` turns of a loop have done. */
  ghost predicate Done(l: Loop, i: nat, cache: Cache, events: seq<Release>, newest: int) {
    && i <= |l.list| == |l.turns|
    && cache == RefreshAll(l.cache, l.list[..i], l.turns[..i])
    && events == l.events + Announced(l.cache, l.list[..i], l.turns[..i], l.firstTime)
    && Newest(l.list[..i], l.last, newest)
  }

  lemma LoopStarts(l: Loop)
    requires |l.turns| == |l.list|
    ensures Done(l, 0, l.cache, l.events, l.last)
  {
  }

  lemma TurnSnoc(l: Loop, i: nat)
    requires i < |l.list| == |l.turns|
    ensures var cache, r, t := RefreshAll(l.cache, l.list[..i], l.turns[..i]), l.list[i], l.turns[i];
            && RefreshAll(l.cache, l.list[..i + 1], l.turns[..i + 1]) == Refresh(cache, r, t)
            && Announced(l.cache, l.list[..i + 1], l.turns[..i + 1], l.firstTime) ==
               Announced(l.cache, l.list[..i], l.turns[..i], l.firstTime) +
               if Announces(cache, r, t, l.firstTime) then [r] else []
  {
    hide Refresh, Announces;
    assert l.list[..i + 1][..i] == l.list[..i] && l.turns[..i + 1][..i] == l.turns[..i];
  }

  lemma LoopStep(l: Loop, i: nat, cache: Cache, events: seq<Release>, newest: int)
    requires i < |l.list| && Done(l, i, cache, events, newest)
    ensures var r, t := l.list[i], l.turns[i];
            Done(l, i + 1, Refresh(cache, r, t),
                 events + (if Announces(cache, r, t, l.firstTime) then [r] else []),
                 if r.mtime > newest then r.mtime else newest)
  {
    hide Refresh, RefreshAll, Announces, Announced, Newest;
    TurnSnoc(l, i);
    assert l.list[..i + 1] == l.list[..i] + [l.list[i]];
    NewestSnoc(l.list[..i], l.list[i], l.last, newest);
  }

  lemma LoopEnds(l: Loop, cache: Cache, events: seq<Release>, newest: int)
    requires Done(l, |l.list|, cache, events, newest)
    ensures |l.turns| == |l.list| && cache == RefreshAll(l.cache, l.list, l.turns)
    ensures events == l.events + Announced(l.cache, l.list, l.turns, l.firstTime) && Newest(l.list, l.last, newest)
  {
    hide RefreshAll, Announced, Newest;
    assert l.list[..|l.list|] == l.list && l.turns[..|l.list|] == l.turns;
  }

  /** The newest modification time of some releases, or the one before. */
  ghost predicate Newest(list: seq<Release>, before: int, newest: int) {
    && newest >= before
    && (forall i :: 0 <= i < |list| ==> newest >= list[i].mtime)
    && (newest == before || exists i :: 0 <= i < |list| && newest == list[i].mtime)
  }

  lemma NewestSnoc(list: seq<Release>, r: Release, before: int, newest: int)
    requires Newest(list, before, newest)
    ensures Newest(list + [r], before, if r.mtime > newest then r.mtime else newest)
  {
    var more := list + [r];
    assert more[|list|] == r;
    assert forall i :: 0 <= i < |list| ==> more[i] == list[i];
    if newest != before {
      var i :| 0 <= i < |list| && newest == list[i].mtime;
      assert more[i].mtime == newest;
    }
  }
}
