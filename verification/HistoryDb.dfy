/**
 `AppHistoryDb` and its life with a loader thread, a FIFO channel, the writer
 thread and the disk.

 The operations are functions from the old database to the new one and to what
 they send; the class `AppHistoryDb` performs them in place. A `System` runs any
 interleaving of user-interface calls, loader and writer steps.
 */
module HistoryDb {
  import opened Common
  import opened History
  import W = Writers

  /** The persisted file: tracking start and the totals. */
  datatype DbFile = DbFile(since: int, entries: Entries)

  /** What the loader thread read: no usable text, text that is not a database, or a database. */
  datatype Loaded = NoFile | Corrupt | Parsed(file: DbFile)

  /** What `try_recv` on the loader channel gives. */
  datatype Poll = Arrived(text: Loaded) | Empty(timedOut: bool) | Gone

  datatype Db = Db(
    since: int,
    totals: Totals,
    loading: bool,
    observing: bool,
    receiving: bool,
    saveAfterLoad: bool,
    generation: nat,
    writing: bool)
  {
    function Snapshot(): DbFile {
      DbFile(since, totals.entries)
    }
  }

  type Send = W.Cmd<DbFile>

  function EnqueueSave(db: Db): (Db, seq<Send>) {
    if db.loading then (db.(saveAfterLoad := true), [])
    else
      var next := db.(generation := db.generation + 1);
      (next, if db.writing then [W.Save(next.generation, next.Snapshot())] else [])
  }

  function FinishLoad(db: Db): (Db, seq<Send>) {
    var ready := db.(loading := false, receiving := false, saveAfterLoad := false);
    if db.saveAfterLoad then EnqueueSave(ready) else (ready, [])
  }

  function ApplyLoaded(db: Db, text: Loaded): Db {
    if !text.Parsed? then db
    else
      var base := Normalize(text.file.entries);
      db.(since := text.file.since,
          totals := db.totals.(entries := if db.observing then Merge(base, db.totals.entries) else base))
  }

  function PollLoad(db: Db, poll: Poll): (Db, seq<Send>, bool) {
    if !db.loading then (db, [], false)
    else if !db.receiving then var r := FinishLoad(db); (r.0, r.1, true)
    else match poll
      case Arrived(text) => var r := FinishLoad(ApplyLoaded(db, text)); (r.0, r.1, true)
      case Empty(timedOut) => if timedOut then (db.(observing := true), [], !db.observing) else (db, [], false)
      case Gone => var r := FinishLoad(db); (r.0, r.1, true)
  }

  function Clear(db: Db, now: int): (Db, seq<Send>) {
    EnqueueSave(db.(loading := false, receiving := false, saveAfterLoad := false, totals := EMPTY, since := now))
  }

  function SaveBlocking(db: Db): (Db, seq<Send>) {
    var r := EnqueueSave(db);
    (r.0, if r.0.loading || !r.0.writing then r.1 else r.1 + [W.Flush])
  }

  function ObserveDb(db: Db, t: Tick): Db {
    if db.loading && !db.observing then db else db.(totals := Observe(db.totals, t))
  }

  function ObserveTicks(db: Db, ticks: seq<Tick>): Db {
    if ticks == [] then db else ObserveDb(ObserveTicks(db, ticks[..|ticks| - 1]), ticks[|ticks| - 1])
  }

  /** `open_deferred` with a running loader. */
  function Deferred(now: int): Db {
    Db(now, EMPTY, true, false, true, false, 0, true)
  }

  function Without(e: Entries, rest: set<string>): Entries {
    map k | k in e && k !in rest :: e[k]
  }

  /** One round of the merge loop. */
  lemma MergeOneMore(base: Entries, e: Entries, rest: set<string>, key: string)
    requires key in rest && key in e
    ensures var loaded := Merge(base, Without(e, rest));
            Merge(base, Without(e, rest - {key})) == loaded[key := AddUsage(Get(loaded, key), e[key])]
  {
    MergeUpdate(base, Without(e, rest), key, e[key]);
    assert Without(e, rest - {key}) == Without(e, rest)[key := e[key]];
  }

  /** The loop of `observe`: one pass over the snapshot, crediting totals and collecting the next baselines. */
  method FoldProcesses(start: Entries, prev: PrevMap, t: Tick) returns (entries: Entries, nextPrev: PrevMap)
    ensures entries == ObserveEntries(start, prev, t.processes, t)
    ensures nextPrev == NextPrev(t.processes, t.windows)
  {
    entries, nextPrev := start, map[];
    for i := 0 to |t.processes|
      invariant entries == ObserveEntries(start, prev, t.processes[..i], t)
      invariant nextPrev == NextPrev(t.processes[..i], t.windows)
    {
      assert t.processes[..i + 1][..i] == t.processes[..i];
      var p := t.processes[i];
      if HistoryEligible(p.category, t.windows) {
        var key := EntryKey(p);
        var dCpu, dNet := CpuDelta(prev, p, t), NetDelta(prev, p, t);
        var e := Get(entries, key);
        ghost var was := e;
        e := e.(available := e.available || NetworkAvailable(p));
        if dCpu > 0.000001 || dNet > 0 {
          e := e.(cpu := e.cpu + dCpu, net := e.net + dNet);
        }
        assert e == Credit(was, NetworkAvailable(p), dCpu, dNet);
        entries := entries[key := e];
        nextPrev := nextPrev[p.pid := Remember(p)];
      }
    }
    assert t.processes[..|t.processes|] == t.processes;
  }

  /** The merge loop of `apply_loaded_file`: add every observed application to the baseline, in any order. */
  method AddAll(base: Entries, current: Entries) returns (loaded: Entries)
    ensures loaded == Merge(base, current)
  {
    loaded := base;
    var rest := current.Keys;
    assert Merge(base, Without(current, rest)) == base;
    while rest != {}
      invariant rest <= current.Keys
      invariant loaded == Merge(base, Without(current, rest))
      decreases |rest|
    {
      var key :| key in rest;
      MergeOneMore(base, current, rest, key);
      loaded := loaded[key := AddUsage(Get(loaded, key), current[key])];
      rest := rest - {key};
    }
    assert Without(current, rest) == current;
  }

  // --------------------------------------------------- the object itself

  /** The database object; `sent` is everything put into the writer's channel so far. */
  class AppHistoryDb {
    var since: int
    var entries: Entries
    var prev: PrevMap
    var loading: bool
    var observing: bool
    var receiving: bool
    var saveAfterLoad: bool
    var generation: nat
    const writing: bool
    var sent: seq<Send>

    function View(): Db
      reads this
    {
      Db(since, Totals(entries, prev), loading, observing, receiving, saveAfterLoad, generation, writing)
    }

    constructor OpenDeferred(now: int)
      ensures View() == Deferred(now) && sent == []
    {
      since, entries, prev, loading, observing := now, map[], map[], true, false;
      receiving, saveAfterLoad, generation, writing, sent := true, false, 0, true, [];
    }

    method Observe(t: Tick)
      modifies this`entries, this`prev
      ensures View() == ObserveDb(old(View()), t)
    {
      if loading && !observing {
        return;
      }
      entries, prev := FoldProcesses(entries, prev, t);
    }

    method ApplyLoadedFile(text: Loaded)
      modifies this`since, this`entries
      ensures View() == ApplyLoaded(old(View()), text)
    {
      if text.Parsed? {
        since := text.file.since;
        var loaded := Normalize(text.file.entries);
        if observing {
          loaded := AddAll(loaded, entries);
        }
        entries := loaded;
      }
    }

    method Enqueue()
      modifies this`saveAfterLoad, this`generation, this`sent
      ensures View() == EnqueueSave(old(View())).0
      ensures sent == old(sent) + EnqueueSave(old(View())).1
    {
      if loading {
        saveAfterLoad := true;
        return;
      }
      generation := generation + 1;
      if writing {
        sent := sent + [W.Save(generation, DbFile(since, entries))];
      }
    }

    /** The exit path: queue a save, then wait for the writer. */
    method SaveAndFlush()
      modifies this`saveAfterLoad, this`generation, this`sent
      ensures View() == SaveBlocking(old(View())).0
      ensures sent == old(sent) + SaveBlocking(old(View())).1
    {
      Enqueue();
      if !loading && writing {
        sent := sent + [W.Flush];
      }
    }

    method Finish()
      modifies this`loading, this`receiving, this`saveAfterLoad, this`generation, this`sent
      ensures View() == FinishLoad(old(View())).0
      ensures sent == old(sent) + FinishLoad(old(View())).1
    {
      loading, receiving := false, false;
      var save := saveAfterLoad;
      saveAfterLoad := false;
      if save {
        Enqueue();
      }
    }

    method TryAdopt(poll: Poll) returns (completed: bool)
      modifies this
      ensures View() == PollLoad(old(View()), poll).0
      ensures sent == old(sent) + PollLoad(old(View()), poll).1
      ensures completed == PollLoad(old(View()), poll).2
    {
      if !loading {
        return false;
      }
      if !receiving {
        Finish();
        return true;
      }
      match poll
      case Arrived(text) =>
        ApplyLoadedFile(text);
        Finish();
        return true;
      case Empty(timedOut) =>
        if timedOut {
          completed := !observing;
          observing := true;
        } else {
          completed := false;
        }
      case Gone =>
        Finish();
        return true;
    }

    method Wipe(now: int)
      modifies this
      ensures View() == Clear(old(View()), now).0
      ensures sent == old(sent) + Clear(old(View()), now).1
    {
      loading, receiving, saveAfterLoad := false, false, false;
      entries, prev, since := map[], map[], now;
      Enqueue();
    }
  }

  // ---------------------------------- slow load: merge order is invisible

  lemma {:induction false} ObserveTicksTotals(db: Db, ticks: seq<Tick>)
    requires !db.loading || db.observing
    ensures ObserveTicks(db, ticks) == db.(totals := ObserveAll(db.totals, ticks))
    decreases |ticks|
  {
    if ticks != [] {
      ObserveTicksTotals(db, ticks[..|ticks| - 1]);
    }
  }

  /**
   Observing some snapshots before the baseline arrives and the rest after it
   leaves exactly the totals, baselines and start date of a baseline that was
   there from the beginning.
   */
  lemma SlowLoadCommutes(now: int, file: DbFile, early: seq<Tick>, late: seq<Tick>)
    requires Fits(ObserveAll(EMPTY, early + late).entries)
    requires NoOverflow(Normalize(file.entries), ObserveAll(EMPTY, early + late).entries)
    ensures
      var fast := ObserveTicks(PollLoad(Deferred(now), Arrived(Parsed(file))).0, early + late);
      var slow := PollLoad(Deferred(now), Empty(true)).0;
      var adopted := PollLoad(ObserveTicks(slow, early), Arrived(Parsed(file))).0;
      var done := ObserveTicks(adopted, late);
      fast.totals == done.totals && fast.since == done.since == file.since && !fast.loading && !done.loading
  {
    var base := Normalize(file.entries);
    var fastStart := PollLoad(Deferred(now), Arrived(Parsed(file))).0;
    var slow := PollLoad(Deferred(now), Empty(true)).0;
    var adopted := PollLoad(ObserveTicks(slow, early), Arrived(Parsed(file))).0;
    ObserveTicksTotals(fastStart, early + late);
    ObserveTicksTotals(slow, early);
    ObserveTicksTotals(adopted, late);
    assert Merge(base, map[]) == base;
    var all, first := ObserveAll(EMPTY, early + late), ObserveAll(EMPTY, early);
    ObserveAllSplit(EMPTY, early, late);
    MergeCommutes(base, EMPTY, early + late);
    assert EMPTY.(entries := Merge(base, EMPTY.entries)) == Totals(base, map[]);
    MergeCommutes(base, first, late);
    assert adopted.totals == first.(entries := Merge(base, first.entries));
  }
}
