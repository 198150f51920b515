/**
 The history database at work: user-interface thread, loader thread, FIFO
 channel, writer thread and disk, in any interleaving.
 */
module HistorySystem {
  import opened Common
  import opened History
  import opened HistoryDb
  import W = Writers

  datatype LoaderState = Reading | Answered | Dead

  /** `answer` is what the loader will deliver if it lives to do so. */
  datatype World = World(db: Db, loader: LoaderState, answer: Loaded, queue: seq<Send>, writer: W.Writer<DbFile>)

  datatype Step =
    | Tick(tick: History.Tick)
    | SaveAsync
    | Save
    | PollLoad(timedOut: bool)
    | Clear(now: int)
    | LoaderAnswers
    | LoaderDies
    | WriterTakes
    | WriterTimesOut

  function Sends(s: World, r: (Db, seq<Send>)): World {
    s.(db := r.0, queue := s.queue + r.1)
  }

  function LoaderPoll(s: World, timedOut: bool): Poll {
    match s.loader
    case Reading => Empty(timedOut)
    case Answered => Arrived(s.answer)
    case Dead => Gone
  }

  function Next(s: World, step: Step): World {
    match step
    case Tick(t) => s.(db := ObserveDb(s.db, t))
    case SaveAsync => Sends(s, EnqueueSave(s.db))
    case Save => Sends(s, SaveBlocking(s.db))
    case PollLoad(timedOut) =>
      var r := HistoryDb.PollLoad(s.db, LoaderPoll(s, timedOut));
      Sends(s, (r.0, r.1))
    case Clear(now) => Sends(s, HistoryDb.Clear(s.db, now))
    case LoaderAnswers => if s.loader.Reading? then s.(loader := Answered) else s
    case LoaderDies => if s.loader.Reading? then s.(loader := Dead) else s
    case WriterTakes =>
      if s.queue == [] then s
      else s.(queue := s.queue[1..], writer := W.HistoryStep(s.writer, W.Received(s.queue[0])))
    case WriterTimesOut => s.(writer := W.HistoryStep(s.writer, W.Timeout))
  }

  function Run(s: World, steps: seq<Step>): World {
    if steps == [] then s else Next(Run(s, steps[..|steps| - 1]), steps[|steps| - 1])
  }

  /** A deferred open over the file `disk`. */
  function Opened(now: int, disk: Option<DbFile>, answer: Loaded): World {
    World(Deferred(now), Reading, answer, [], W.Fresh(disk))
  }

  /** The snapshots still queued. */
  function Queued(queue: seq<Send>): seq<DbFile> {
    if queue == [] then []
    else (if queue[0].Save? then [queue[0].snapshot] else []) + Queued(queue[1..])
  }

  /** Everything written, pending or queued, oldest first. */
  function Trail(s: World): seq<DbFile> {
    s.writer.writes + W.PendingSeq(s.writer) + Queued(s.queue)
  }

  predicate Drained(s: World) {
    s.queue == [] && s.writer.pending.None?
  }

  lemma {:induction false} QueuedAppend(a: seq<Send>, b: seq<Send>)
    ensures Queued(a + b) == Queued(a) + Queued(b)
    decreases |a|
  {
    if a == [] {
      assert a + b == b;
    } else {
      QueuedAppend(a[1..], b);
      assert (a + b)[1..] == a[1..] + b;
    }
  }

  // ---------------------------------------- generations along the channel

  /** Generations rise from the pending slot through the channel up to the database's own. */
  ghost predicate Ordered(s: World) {
    && !s.writer.stopped
    && s.db.writing
    && (forall i :: 0 <= i < |s.queue| ==> !s.queue[i].Shutdown?)
    && (forall i :: 0 <= i < |s.queue| && s.queue[i].Save? ==> s.queue[i].generation <= s.db.generation)
    && (forall i, j :: 0 <= i < j < |s.queue| && s.queue[i].Save? && s.queue[j].Save? ==>
          s.queue[i].generation < s.queue[j].generation)
    && (s.writer.pending.Some? ==>
          && s.writer.pending.value.0 <= s.db.generation
          && forall i :: 0 <= i < |s.queue| && s.queue[i].Save? ==> s.writer.pending.value.0 < s.queue[i].generation)
  }

  /** Sending at most one save, of the next generation. */
  lemma OrderedSend(s: World, r: (Db, seq<Send>))
    requires Ordered(s) && r.0.writing && r.0.generation >= s.db.generation
    requires
      || r.1 == []
      || (r.0.generation == s.db.generation + 1
          && (|r.1| == 1 || (|r.1| == 2 && r.1[1].Flush?)) && r.1[0].Save? && r.1[0].generation == r.0.generation)
    ensures Ordered(Sends(s, r))
  {
    var q := s.queue + r.1;
    assert forall i :: 0 <= i < |q| ==> q[i] == if i < |s.queue| then s.queue[i] else r.1[i - |s.queue|];
  }

  lemma OrderedTake(s: World)
    requires Ordered(s)
    ensures Ordered(Next(s, WriterTakes))
  {
    if s.queue != [] {
      assert forall i :: 0 <= i < |s.queue| - 1 ==> s.queue[1..][i] == s.queue[i + 1];
    }
  }

  lemma OrderedStep(s: World, step: Step)
    requires Ordered(s)
    ensures Ordered(Next(s, step))
  {
    match step
    case WriterTakes => OrderedTake(s);
    case SaveAsync => OrderedSend(s, EnqueueSave(s.db));
    case Save => OrderedSend(s, SaveBlocking(s.db));
    case PollLoad(timedOut) =>
      var r := HistoryDb.PollLoad(s.db, LoaderPoll(s, timedOut));
      OrderedSend(s, (r.0, r.1));
    case Clear(now) => OrderedSend(s, HistoryDb.Clear(s.db, now));
    case _ =>
  }

  /** What one step does to the trail: nothing, add the database's snapshot, or forget an overtaken pending one. */
  lemma TrailStep(s: World, step: Step)
    requires Ordered(s)
    ensures
      var n := Next(s, step);
      var at := |s.writer.writes|;
      || Trail(n) == Trail(s)
      || (Trail(n) == Trail(s) + [n.db.Snapshot()] && !n.db.loading && !step.WriterTakes?)
      || (at + 1 < |Trail(s)| && Trail(n) == Trail(s)[..at] + Trail(s)[at + 1..] && n.db == s.db)
    ensures step.Clear? || (step.SaveAsync? && !s.db.loading) || (step.Save? && !s.db.loading) ==>
              Trail(Next(s, step)) == Trail(s) + [Next(s, step).db.Snapshot()]
    ensures step.Tick? || step.LoaderAnswers? || step.LoaderDies? || step.WriterTimesOut? || (step.PollLoad? && !s.db.loading) ==>
              Trail(Next(s, step)) == Trail(s)
  {
    var n := Next(s, step);
    match step
    case WriterTakes => TakeTrail(s);
    case WriterTimesOut =>
      assert n.writer.writes + W.PendingSeq(n.writer) == s.writer.writes + W.PendingSeq(s.writer);
    case Tick(_) =>
    case LoaderAnswers =>
    case LoaderDies =>
    case SaveAsync => SendTrail(s, EnqueueSave(s.db));
    case Save => SendTrail(s, SaveBlocking(s.db));
    case PollLoad(timedOut) =>
      var r := HistoryDb.PollLoad(s.db, LoaderPoll(s, timedOut));
      SendTrail(s, (r.0, r.1));
    case Clear(now) => SendTrail(s, HistoryDb.Clear(s.db, now));
  }

  lemma SendTrail(s: World, r: (Db, seq<Send>))
    requires r.1 == [] || (|r.1| == 1 && r.1[0].Save?) || (|r.1| == 2 && r.1[0].Save? && r.1[1].Flush?)
    ensures Trail(Sends(s, r)) == if r.1 == [] then Trail(s) else Trail(s) + [r.1[0].snapshot]
  {
    QueuedAppend(s.queue, r.1);
    if r.1 == [] {
      assert s.queue + r.1 == s.queue;
    } else {
      assert Queued(r.1[1..]) == [];
      assert Queued(r.1) == [r.1[0].snapshot];
    }
  }

  /** The writer takes one command: a save overtakes the pending one, a flush moves it to disk. */
  lemma TakeTrail(s: World)
    requires Ordered(s)
    ensures
      var n := Next(s, WriterTakes);
      var at := |s.writer.writes|;
      || Trail(n) == Trail(s)
      || (at + 1 < |Trail(s)| && Trail(n) == Trail(s)[..at] + Trail(s)[at + 1..] && n.db == s.db)
  {
    hide Trail, W.HistoryStep, W.PendingSeq;
    if s.queue != [] {
      if s.queue[0].Save? {
        hide Ordered, Next;
        TakeSave(s);
      } else {
        TakeOther(s);
      }
    }
  }

  /** A flush moves what is pending to the disk, where it stays in the trail. */
  lemma TakeOther(s: World)
    requires s.queue != [] && !s.queue[0].Save?
    ensures Trail(Next(s, WriterTakes)) == Trail(s)
  {
    var n := Next(s, WriterTakes);
    assert n.writer.writes + W.PendingSeq(n.writer) == s.writer.writes + W.PendingSeq(s.writer);
    assert Queued(s.queue) == Queued(s.queue[1..]);
    hide Next, W.PendingSeq, Queued;
  }

  lemma TakeSave(s: World)
    requires Ordered(s) && s.queue != [] && s.queue[0].Save?
    ensures
      var n := Next(s, WriterTakes);
      var at := |s.writer.writes|;
      || Trail(n) == Trail(s)
      || (at + 1 < |Trail(s)| && Trail(n) == Trail(s)[..at] + Trail(s)[at + 1..] && n.db == s.db)
  {
    var n, w, rest := Next(s, WriterTakes), s.writer.writes, Queued(s.queue[1..]);
    var file := s.queue[0].snapshot;
    assert Queued(s.queue) == [file] + rest;
    assert n.writer == s.writer.(pending := Some((s.queue[0].generation, file))) && n.db == s.db && n.queue == s.queue[1..];
    hide Ordered, Next, Queued;
    if s.writer.pending.Some? {
      OvertakenTrail(w, s.writer.pending.value.1, file, rest);
    } else {
      assert w + [] + ([file] + rest) == w + [file] + rest;
    }
  }

  lemma OvertakenTrail(w: seq<DbFile>, overtaken: DbFile, file: DbFile, rest: seq<DbFile>)
    ensures var trail := w + [overtaken] + ([file] + rest);
            |w| + 1 < |trail| && w + [file] + rest == trail[..|w|] + trail[|w| + 1..]
  {
  }

  // ---------------------------------------------------- without a wipe

  ghost predicate Ascending(files: seq<DbFile>) {
    forall i, j :: 0 <= i < j < |files| ==> Leq(files[i].entries, files[j].entries)
  }

  /** The baseline is in: everything the database and the trail hold goes beyond `file`. */
  ghost predicate Adopted(s: World, file: DbFile) {
    && Leq(file.entries, s.db.totals.entries)
    && s.db.since == file.since
    && Rising(Trail(s), file, s.db.totals.entries)
  }

  /** The baseline was given up: everything is dated from the start of the session. */
  ghost predicate GivenUp(s: World, now: int) {
    s.db.since == now && Dated(Trail(s), now)
  }

  predicate Dated(files: seq<DbFile>, now: int) {
    forall i :: 0 <= i < |files| ==> files[i].since == now
  }

  /** What holds in every state reached without a wipe, whatever the loader does, when it can only deliver `file`. */
  ghost predicate WipeFree(s: World, now: int, file: DbFile) {
    && Ordered(s)
    && s.answer == Parsed(file)
    && s.writer.start == Some(file)
    && (s.db.loading ==>
          s.db.receiving && Trail(s) == [] && s.db.since == now && NonNegative(s.db.totals.entries))
    && (!s.db.loading ==> !s.loader.Reading?)
    && (!s.db.loading && s.loader.Answered? ==> Adopted(s, file))
    && (!s.db.loading && s.loader.Dead? ==> GivenUp(s, now))
  }

  /** Files that only grow, from `base` to at most `top`. */
  ghost predicate Rising(files: seq<DbFile>, base: DbFile, top: Entries) {
    && Ascending(files)
    && forall i :: 0 <= i < |files| ==>
         Leq(base.entries, files[i].entries) && Leq(files[i].entries, top) && files[i].since == base.since
  }

  lemma MergeAbove(base: Entries, current: Entries)
    requires Fits(base)
    requires NonNegative(current)
    ensures Leq(base, Merge(base, current)) && Leq(base, Normalize(base)) && Fits(Normalize(base))
  {
  }

  ghost predicate NonNegative(e: Entries) {
    forall k :: k in e ==> e[k].cpu >= 0.0
  }

  lemma {:induction false} ObserveNonNegative(e: Entries, prev: PrevMap, procs: seq<Proc>, t: History.Tick)
    requires NonNegative(e)
    ensures NonNegative(ObserveEntries(e, prev, procs, t))
    decreases |procs|
  {
    if procs != [] {
      ObserveNonNegative(e, prev, procs[..|procs| - 1], t);
    }
  }

  lemma RisingGrows(files: seq<DbFile>, base: DbFile, top: Entries, next: Entries)
    requires Rising(files, base, top) && Leq(top, next)
    ensures Rising(files, base, next)
  {
    hide Leq;
    forall i | 0 <= i < |files|
      ensures Leq(files[i].entries, next)
    {
      LeqTransitive(files[i].entries, top, next);
    }
  }

  lemma RisingAppend(files: seq<DbFile>, base: DbFile, f: DbFile)
    requires Rising(files, base, f.entries) && Leq(base.entries, f.entries) && f.since == base.since
    ensures Rising(files + [f], base, f.entries)
  {
    assert Leq(f.entries, f.entries);
    hide Leq;
    var r := files + [f];
    assert forall i :: 0 <= i < |r| ==> r[i] == if i < |files| then files[i] else f;
  }

  lemma RisingForget(files: seq<DbFile>, base: DbFile, top: Entries, at: nat)
    requires Rising(files, base, top) && at < |files|
    ensures Rising(files[..at] + files[at + 1..], base, top)
  {
    hide Leq;
    var r := files[..at] + files[at + 1..];
    assert forall i :: 0 <= i < |r| ==> r[i] == files[if i < at then i else i + 1];
  }

  /** How a step may change the trail: not at all, by the database's snapshot, or by forgetting one file. */
  ghost predicate TrailMoves(s: World, n: World) {
    var at := |s.writer.writes|;
    || Trail(n) == Trail(s)
    || Trail(n) == Trail(s) + [n.db.Snapshot()]
    || (at + 1 < |Trail(s)| && Trail(n) == Trail(s)[..at] + Trail(s)[at + 1..])
  }

  /** A step that grows the totals keeps the baseline. */
  lemma KeepsTrail(s: World, n: World, file: DbFile)
    requires Adopted(s, file) && TrailMoves(s, n)
    requires Leq(s.db.totals.entries, n.db.totals.entries) && n.db.since == s.db.since
    ensures Adopted(n, file)
  {
    hide Leq, Trail, Rising;
    LeqTransitive(file.entries, s.db.totals.entries, n.db.totals.entries);
    RisingGrows(Trail(s), file, s.db.totals.entries, n.db.totals.entries);
    if Trail(n) == Trail(s) + [n.db.Snapshot()] {
      RisingAppend(Trail(s), file, n.db.Snapshot());
    } else if Trail(n) != Trail(s) {
      RisingForget(Trail(s), file, n.db.totals.entries, |s.writer.writes|);
    }
  }

  lemma KeepsDate(s: World, n: World, now: int)
    requires GivenUp(s, now) && TrailMoves(s, n) && n.db.since == s.db.since
    ensures GivenUp(n, now)
  {
    hide Trail;
    var at, files := |s.writer.writes|, Trail(s);
    if at + 1 < |files| {
      var fewer := files[..at] + files[at + 1..];
      assert forall i :: 0 <= i < |fewer| ==> fewer[i] == files[if i < at then i else i + 1];
    }
  }

  lemma RisingStart(f: DbFile, base: DbFile)
    requires Leq(base.entries, f.entries) && f.since == base.since
    ensures Rising([f], base, f.entries) && Rising([], base, f.entries)
  {
    assert Leq(f.entries, f.entries);
  }

  lemma LeqSelf(e: Entries)
    ensures Leq(e, e)
  {
  }

  /** What every wipe-free step does to the parts that `WipeFree` speaks of. */
  lemma StepMoves(s: World, step: Step)
    requires Ordered(s) && !step.Clear?
    ensures var n := Next(s, step);
            && Ordered(n) && n.answer == s.answer && n.writer.start == s.writer.start
            && (!step.PollLoad? ==> n.db.loading == s.db.loading && n.db.receiving == s.db.receiving)
            && (!s.db.loading ==> !n.db.loading && TrailMoves(s, n))
            && (s.db.loading && !step.PollLoad? && Trail(s) == [] ==> Trail(n) == [])
            && (!step.PollLoad? || !s.db.loading ==> n.db.since == s.db.since)
            && (!step.Tick? && !step.PollLoad? ==> n.db.totals == s.db.totals)
            && (s.loader == n.loader || (s.loader.Reading? && !step.PollLoad?))
  {
    hide Ordered, Trail, Observe, ApplyLoaded;
    OrderedStep(s, step);
    TrailStep(s, step);
  }

  /** A snapshot observed at any time. */
  lemma TickGrows(s: World, t: History.Tick)
    ensures var n := Next(s, Step.Tick(t));
            && Leq(s.db.totals.entries, n.db.totals.entries)
            && (NonNegative(s.db.totals.entries) ==> NonNegative(n.db.totals.entries))
  {
    LeqSelf(s.db.totals.entries);
    EntriesGrow(s.db.totals.entries, s.db.totals.prev, t.processes, t);
    if NonNegative(s.db.totals.entries) {
      ObserveNonNegative(s.db.totals.entries, s.db.totals.prev, t.processes, t);
    }
    hide Leq, NonNegative, ObserveEntries, NextPrev;
  }

  /** What a poll does to the database while it loads. */
  lemma PollMoves(s: World, timedOut: bool)
    requires s.db.loading && s.db.receiving
    ensures var n := Next(s, PollLoad(timedOut)).db;
            && (s.loader.Reading? ==> n.loading && n.receiving && n.since == s.db.since && n.totals == s.db.totals)
            && (s.loader.Answered? ==> !n.loading && n.Snapshot() == ApplyLoaded(s.db, s.answer).Snapshot())
            && (s.loader.Dead? ==> !n.loading && n.since == s.db.since && n.totals == s.db.totals)
  {
    hide ApplyLoaded;
  }

  lemma AnswerTakesOver(db: Db, file: DbFile)
    requires Fits(file.entries) && NonNegative(db.totals.entries)
    ensures var n := ApplyLoaded(db, Parsed(file)); Leq(file.entries, n.totals.entries) && n.since == file.since
  {
    MergeAbove(file.entries, db.totals.entries);
    hide Leq, Fits, NonNegative, Merge, Normalize;
  }

  /** The poll that ends the load: the answer is adopted, or a lost loader means giving up. */
  lemma PollEnds(s: World, timedOut: bool, now: int, file: DbFile)
    requires WipeFree(s, now, file) && s.db.loading && Fits(file.entries)
    ensures var n := Next(s, PollLoad(timedOut));
            && (s.loader.Reading? ==> n.db.loading && n.db.receiving && Trail(n) == [] && n.db.since == now
                                      && n.db.totals == s.db.totals)
            && (s.loader.Answered? ==> !n.db.loading && Adopted(n, file))
            && (s.loader.Dead? ==> !n.db.loading && GivenUp(n, now))
  {
    hide Leq, Trail, Ordered, NonNegative, Fits, Rising, Next, ApplyLoaded;
    TrailStep(s, PollLoad(timedOut));
    PollMoves(s, timedOut);
    if s.loader.Answered? {
      AnswerTakesOver(s.db, file);
      var adopted := Next(s, PollLoad(timedOut)).db.Snapshot();
      RisingStart(adopted, file);
      assert [] + [adopted] == [adopted];
    }
  }

  lemma WipeFreeStep(s: World, now: int, file: DbFile, step: Step)
    requires WipeFree(s, now, file) && Fits(file.entries) && !step.Clear?
    ensures WipeFree(Next(s, step), now, file)
  {
    hide Leq, Ordered, Trail, Fits, NonNegative, Adopted, GivenUp, TrailMoves, Next;
    var n := Next(s, step);
    StepMoves(s, step);
    LeqSelf(s.db.totals.entries);
    if step.Tick? {
      assert step == Step.Tick(step.tick);
      TickGrows(s, step.tick);
    }
    if s.db.loading && step.PollLoad? {
      PollEnds(s, step.timedOut, now, file);
    } else if !s.db.loading {
      if step.PollLoad? { PollAfterLoad(s, step); }
      if s.loader.Answered? { KeepsTrail(s, n, file); }
      if s.loader.Dead? { KeepsDate(s, n, now); }
    }
  }

  lemma PollAfterLoad(s: World, step: Step)
    requires !s.db.loading && step.PollLoad?
    ensures Next(s, step).db == s.db
  {
  }

  predicate NoWipe(steps: seq<Step>) {
    forall i :: 0 <= i < |steps| ==> !steps[i].Clear?
  }

  lemma {:induction false} WipeFreeRun(now: int, file: DbFile, steps: seq<Step>)
    requires Fits(file.entries) && NoWipe(steps)
    ensures WipeFree(Run(Opened(now, Some(file), Parsed(file)), steps), now, file)
    decreases |steps|
  {
    if steps != [] {
      hide WipeFree, Fits, Next;
      WipeFreeRun(now, file, steps[..|steps| - 1]);
      WipeFreeStep(Run(Opened(now, Some(file), Parsed(file)), steps[..|steps| - 1]), now, file, steps[|steps| - 1]);
    } else {
      assert Trail(Opened(now, Some(file), Parsed(file))) == [];
    }
  }

  /** A poll that finds the loader lost while the baseline is still awaited. */
  predicate MeetsLostLoader(s: World, step: Step) {
    step.PollLoad? && s.db.loading && s.loader.Dead?
  }

  /** No wipe is asked for, and no poll meets a lost loader while loading. */
  predicate Undisturbed(s: World, steps: seq<Step>) {
    steps == [] ||
    var earlier, step := steps[..|steps| - 1], steps[|steps| - 1];
    Undisturbed(s, earlier) && !step.Clear? && !MeetsLostLoader(Run(s, earlier), step)
  }

  /** Without a wipe, the guard of the losing branch was met exactly if the load is over and the loader dead. */
  lemma {:induction false} UndisturbedIff(now: int, file: DbFile, steps: seq<Step>)
    requires Fits(file.entries) && NoWipe(steps)
    ensures var s := Run(Opened(now, Some(file), Parsed(file)), steps);
            Undisturbed(Opened(now, Some(file), Parsed(file)), steps) <==> s.db.loading || !s.loader.Dead?
    decreases |steps|
  {
    if steps != [] {
      var earlier, step := steps[..|steps| - 1], steps[|steps| - 1];
      UndisturbedIff(now, file, earlier);
      WipeFreeRun(now, file, earlier);
      hide Fits, Adopted, GivenUp, Trail, NonNegative, Opened;
      var s := Run(Opened(now, Some(file), Parsed(file)), earlier);
      StepMoves(s, step);
      hide Ordered, TrailMoves;
      PollOutcome(s, step);
      hide Next;
    }
  }

  lemma PollOutcome(s: World, step: Step)
    requires s.db.loading ==> s.db.receiving
    ensures step.PollLoad? && s.db.loading ==> (Next(s, step).db.loading <==> s.loader.Reading?)
    ensures Next(s, step).loader.Dead? && !s.loader.Dead? ==> s.loader.Reading?
  {
    hide ApplyLoaded;
  }

  lemma {:induction false} UndisturbedHasNoWipe(s: World, steps: seq<Step>)
    requires Undisturbed(s, steps)
    ensures NoWipe(steps)
    decreases |steps|
  {
    if steps != [] {
      hide Run, MeetsLostLoader;
      UndisturbedHasNoWipe(s, steps[..|steps| - 1]);
    }
  }

  lemma WrittenInTrail(s: World)
    ensures |s.writer.writes| <= |Trail(s)|
    ensures forall i :: 0 <= i < |s.writer.writes| ==> Trail(s)[i] == s.writer.writes[i]
  {
  }

  /**
   Saved history is never lost: whatever the interleaving, unless a wipe is asked for
   or a poll meets a lost loader, nothing is written before the baseline is adopted, and
   every file written afterwards contains the starting file and every file written before it.
   */
  lemma NeverLosesHistory(now: int, file: DbFile, steps: seq<Step>)
    requires Fits(file.entries) && Undisturbed(Opened(now, Some(file), Parsed(file)), steps)
    ensures var s := Run(Opened(now, Some(file), Parsed(file)), steps);
            && (s.db.loading ==> s.writer.Disk() == Some(file))
            && (forall i :: 0 <= i < |s.writer.writes| ==>
                  Leq(file.entries, s.writer.writes[i].entries) && s.writer.writes[i].since == file.since)
            && (forall i, j :: 0 <= i < j < |s.writer.writes| ==>
                  Leq(s.writer.writes[i].entries, s.writer.writes[j].entries))
  {
    hide Leq, Run, Opened, Trail, Fits, Ordered, NonNegative, Undisturbed;
    UndisturbedHasNoWipe(Opened(now, Some(file), Parsed(file)), steps);
    UndisturbedIff(now, file, steps);
    WipeFreeRun(now, file, steps);
    WrittenInTrail(Run(Opened(now, Some(file), Parsed(file)), steps));
  }

  /**
   And this is exactly when: in any run without a wipe that wrote something, every file
   written contains the starting file and keeps its date if and only if no poll met a
   lost loader. The session is told apart from the file by its date.
   */
  lemma KeepsHistoryIff(now: int, file: DbFile, steps: seq<Step>)
    requires Fits(file.entries) && NoWipe(steps) && file.since != now
    requires Run(Opened(now, Some(file), Parsed(file)), steps).writer.writes != []
    ensures var s := Run(Opened(now, Some(file), Parsed(file)), steps);
            (forall i :: 0 <= i < |s.writer.writes| ==>
               Leq(file.entries, s.writer.writes[i].entries) && s.writer.writes[i].since == file.since)
            <==> Undisturbed(Opened(now, Some(file), Parsed(file)), steps)
  {
    hide Leq, Run, Opened, Trail, Fits, Ordered, NonNegative, Undisturbed;
    UndisturbedIff(now, file, steps);
    WipeFreeRun(now, file, steps);
    var s := Run(Opened(now, Some(file), Parsed(file)), steps);
    WrittenInTrail(s);
    if Undisturbed(Opened(now, Some(file), Parsed(file)), steps) {
      NeverLosesHistory(now, file, steps);
    } else {
      assert s.writer.writes[0].since == now;
    }
  }

  lemma RunNext(s: World, steps: seq<Step>, n: nat)
    requires n < |steps|
    ensures Run(s, steps[..n + 1]) == Next(Run(s, steps[..n]), steps[n])
  {
    assert steps[..n + 1][..n] == steps[..n];
  }

  const ORPHANED: seq<Step> := [LoaderDies, PollLoad(false), SaveAsync, WriterTakes, WriterTimesOut]

  /** Such a run: the loader is lost, the poll gives up, and the next save replaces the saved history by an empty one. */
  lemma LostLoaderLosesHistory(now: int, file: DbFile)
    ensures Run(Opened(now, Some(file), Parsed(file)), ORPHANED).writer.Disk() == Some(DbFile(now, map[]))
  {
    hide Next;
    var s := Opened(now, Some(file), Parsed(file));
    assert ORPHANED[..0] == [] && Run(s, ORPHANED[..0]) == s && ORPHANED[..5] == ORPHANED;
    hide Run;
    RunNext(s, ORPHANED, 0);
    RunNext(s, ORPHANED, 1);
    RunNext(s, ORPHANED, 2);
    RunNext(s, ORPHANED, 3);
    RunNext(s, ORPHANED, 4);
    var given := OrphanGivesUp(s);
    var sent := OrphanSaves(given, now);
    var ended := OrphanIsWritten(sent, DbFile(now, map[]));
  }

  lemma OrphanGivesUp(s: World) returns (n: World)
    requires s.db.loading && s.db.receiving && !s.db.saveAfterLoad && s.loader.Reading?
    ensures n == Next(Next(s, LoaderDies), PollLoad(false))
    ensures n == s.(loader := Dead, db := s.db.(loading := false, receiving := false))
  {
    n := Next(Next(s, LoaderDies), PollLoad(false));
    assert s.queue + [] == s.queue;
  }

  lemma OrphanSaves(s: World, now: int) returns (n: World)
    requires !s.db.loading && s.db.writing && s.db.since == now && s.db.totals == EMPTY && s.queue == [] && s.db.generation == 0
    ensures n == Next(s, SaveAsync) && n.queue == [W.Save(1, DbFile(now, map[]))] && n.writer == s.writer
  {
    n := Next(s, SaveAsync);
  }

  lemma OrphanIsWritten(s: World, file: DbFile) returns (n: World)
    requires s.queue == [W.Save(1, file)] && s.writer.pending.None? && !s.writer.stopped
    ensures n == Next(Next(s, WriterTakes), WriterTimesOut) && n.writer.Disk() == Some(file)
  {
    var taken := Next(s, WriterTakes);
    assert taken.writer == s.writer.(pending := Some((1, file)));
    n := Next(taken, WriterTimesOut);
  }

  // ------------------------------------------------------ after a wipe

  lemma {:induction false} OrderedRun(s: World, steps: seq<Step>)
    requires Ordered(s)
    ensures Ordered(Run(s, steps))
    decreases |steps|
  {
    if steps != [] {
      OrderedRun(s, steps[..|steps| - 1]);
      OrderedStep(Run(s, steps[..|steps| - 1]), steps[|steps| - 1]);
    }
  }

  lemma OpenedOrdered(now: int, disk: Option<DbFile>, answer: Loaded)
    ensures Ordered(Opened(now, disk, answer))
  {
  }

  /** The snapshots observed by a run. */
  function Ticks(steps: seq<Step>): seq<History.Tick> {
    if steps == [] then []
    else Ticks(steps[..|steps| - 1]) + if steps[|steps| - 1].Tick? then [steps[|steps| - 1].tick] else []
  }

  /** The snapshots observed before the last save of a run. */
  function SavedTicks(steps: seq<Step>): seq<History.Tick> {
    if steps == [] then []
    else if steps[|steps| - 1].SaveAsync? || steps[|steps| - 1].Save? then Ticks(steps)
    else SavedTicks(steps[..|steps| - 1])
  }

  /** After a wipe the database and the newest file on its way to disk know only what was observed since. */
  ghost predicate OnlySince(s: World, now: int, observed: seq<History.Tick>, saved: seq<History.Tick>) {
    && Ordered(s)
    && !s.db.loading
    && s.db.since == now
    && s.db.totals == ObserveAll(EMPTY, observed)
    && |Trail(s)| > 0
    && Trail(s)[|Trail(s)| - 1] == DbFile(now, ObserveAll(EMPTY, saved).entries)
  }

  /** One more step without a wipe. */
  lemma OnlySinceStep(s: World, now: int, observed: seq<History.Tick>, saved: seq<History.Tick>, step: Step)
    requires OnlySince(s, now, observed, saved) && !step.Clear?
    ensures OnlySince(Next(s, step), now,
                      if step.Tick? then observed + [step.tick] else observed,
                      if step.SaveAsync? || step.Save? then observed else saved)
  {
    hide Ordered, Trail, Observe, ObserveAll, Next;
    OrderedStep(s, step);
    NextTotals(s, step);
    if step.Tick? {
      ObserveOneMore(observed, step.tick);
    }
    NewestKept(s, step);
  }

  lemma ObserveOneMore(observed: seq<History.Tick>, t: History.Tick)
    ensures ObserveAll(EMPTY, observed + [t]) == Observe(ObserveAll(EMPTY, observed), t)
  {
    hide Observe;
    assert (observed + [t])[..|observed|] == observed;
  }

  /** After the load the newest file on its way to disk is the one last sent. */
  lemma NewestKept(s: World, step: Step)
    requires Ordered(s) && !s.db.loading && !step.Clear? && |Trail(s)| > 0
    ensures var n := Next(s, step);
            && |Trail(n)| > 0
            && Trail(n)[|Trail(n)| - 1] ==
               if step.SaveAsync? || step.Save? then n.db.Snapshot() else Trail(s)[|Trail(s)| - 1]
  {
    hide Trail, Next, Ordered;
    TrailStep(s, step);
    if step.WriterTakes? {
      TakeTrail(s);
    }
  }

  lemma NextTotals(s: World, step: Step)
    requires !s.db.loading && !step.Clear?
    ensures var n := Next(s, step);
            && !n.db.loading && n.db.since == s.db.since
            && n.db.totals == if step.Tick? then Observe(s.db.totals, step.tick) else s.db.totals
  {
    hide Observe;
  }

  lemma {:induction false} OnlySinceRun(s: World, now: int, post: seq<Step>)
    requires Ordered(s) && NoWipe(post)
    ensures OnlySince(Run(Next(s, Clear(now)), post), now, Ticks(post), SavedTicks(post))
    decreases |post|
  {
    if post == [] {
      OrderedStep(s, Clear(now));
      TrailStep(s, Clear(now));
      hide Ordered, Trail;
    } else {
      hide Ordered, Next, OnlySince;
      var rest, step := post[..|post| - 1], post[|post| - 1];
      OnlySinceRun(s, now, rest);
      OnlySinceStep(Run(Next(s, Clear(now)), rest), now, Ticks(rest), SavedTicks(rest), step);
      assert Ticks(rest) + [] == Ticks(rest);
    }
  }

  /**
   A wipe outranks everything before it: whatever happened earlier and even if the
   loader answers late, once the writer has drained the file holds exactly what was
   observed between the wipe and the last save.
   */
  lemma WipeWins(startedAt: int, disk: Option<DbFile>, answer: Loaded, pre: seq<Step>, now: int, post: seq<Step>)
    requires NoWipe(post)
    ensures var s := Run(Next(Run(Opened(startedAt, disk, answer), pre), Clear(now)), post);
            && s.db.totals == ObserveAll(EMPTY, Ticks(post))
            && (Drained(s) ==> s.writer.Disk() == Some(DbFile(now, ObserveAll(EMPTY, SavedTicks(post)).entries)))
  {
    hide Run, Opened, Next, Ticks, SavedTicks, ObserveAll, Ordered;
    OpenedOrdered(startedAt, disk, answer);
    OrderedRun(Opened(startedAt, disk, answer), pre);
    var before := Run(Opened(startedAt, disk, answer), pre);
    OnlySinceRun(before, now, post);
    var s := Run(Next(before, Clear(now)), post);
    if Drained(s) {
      assert Trail(s) == s.writer.writes;
    }
  }
}
