/**
 What a session of the history database amounts to, told from the steps alone: which
 of them send a save, which snapshots count, and what the file holds in the end.
 None of the definitions below mentions an operation of the database.
 */
module HistoryRuns {
  import opened Common
  import opened History
  import opened HistoryDb
  import opened HistorySystem
  import opened HistoryCredits
  import W = Writers

  /** Everything but the last step. */
  function Init(steps: seq<Step>): seq<Step>
    requires steps != []
  {
    steps[..|steps| - 1]
  }

  function Last(steps: seq<Step>): Step
    requires steps != []
  {
    steps[|steps| - 1]
  }

  predicate AsksSave(step: Step) {
    step.SaveAsync? || step.Save?
  }

  /** The loader has answered or is gone. */
  predicate LoaderDone(steps: seq<Step>) {
    exists i :: 0 <= i < |steps| && (steps[i].LoaderAnswers? || steps[i].LoaderDies?)
  }

  /** The first thing that happened to the loader was its answer. */
  predicate LoaderAnswered(steps: seq<Step>) {
    exists i :: 0 <= i < |steps| && steps[i].LoaderAnswers? && !LoaderDone(steps[..i])
  }

  /** The load is over: by a wipe, or by a poll after the loader was done. */
  predicate LoadOver(steps: seq<Step>) {
    exists i :: 0 <= i < |steps| && (steps[i].Clear? || (steps[i].PollLoad? && LoaderDone(steps[..i])))
  }

  predicate SaveAsked(steps: seq<Step>) {
    exists i :: 0 <= i < |steps| && AsksSave(steps[i])
  }

  /** A poll gave up waiting before the load was over, so observation goes on without the baseline. */
  predicate Slow(steps: seq<Step>) {
    exists i :: 0 <= i < |steps| && steps[i] == PollLoad(true) && !LoaderDone(steps[..i]) && !LoadOver(steps[..i])
  }

  /**
   After `steps`, `step` sends a save: a wipe does, a request does once the load is over, and the
   poll that ends the load does if a request came in before it, however many did.
   */
  predicate Sending(steps: seq<Step>, step: Step) {
    || step.Clear?
    || (AsksSave(step) && LoadOver(steps))
    || (step.PollLoad? && !LoadOver(steps) && LoaderDone(steps) && SaveAsked(steps))
  }

  /** How many saves a run sends. */
  function Sent(steps: seq<Step>): nat {
    if steps == [] then 0 else Sent(Init(steps)) + if Sending(Init(steps), Last(steps)) then 1 else 0
  }

  /** The run up to and including the last step that sends a save, if any does. */
  function UpToLastSave(steps: seq<Step>): Option<seq<Step>> {
    if steps == [] then None
    else if Sending(Init(steps), Last(steps)) then Some(steps)
    else UpToLastSave(Init(steps))
  }

  /** The snapshots that count: those since the last wipe that came after the load was over or found slow. */
  function Seen(steps: seq<Step>): seq<History.Tick> {
    if steps == [] then []
    else
      var earlier, step := Init(steps), Last(steps);
      if step.Clear? then []
      else if step.Tick? && (LoadOver(earlier) || Slow(earlier)) then Seen(earlier) + [step.tick]
      else Seen(earlier)
  }

  /** The load ended with a poll that found an answer, and no wipe came before or after. */
  predicate BaselineTaken(steps: seq<Step>) {
    NoWipe(steps) && LoadOver(steps) && LoaderAnswered(steps)
  }

  /** When the history starts: at the last wipe, else at the date of the baseline, else when the program started. */
  function Beginning(startedAt: int, answer: Loaded, steps: seq<Step>): int {
    if steps != [] && Last(steps).Clear? then Last(steps).now
    else if steps != [] && !NoWipe(steps) then Beginning(startedAt, answer, Init(steps))
    else if BaselineTaken(steps) && answer.Parsed? then answer.file.since
    else startedAt
  }

  /** What the snapshots that count amount to by themselves. */
  function Counted(steps: seq<Step>): Entries {
    ObserveAll(EMPTY, Seen(steps)).entries
  }

  /** What the history is: what was counted, on top of the baseline if that was taken. */
  function Story(startedAt: int, answer: Loaded, steps: seq<Step>): DbFile {
    DbFile(Beginning(startedAt, answer, steps), Upon(Baseline(answer, steps), Counted(steps)))
  }

  function Baseline(answer: Loaded, steps: seq<Step>): Option<Entries> {
    if BaselineTaken(steps) && answer.Parsed? then Some(Normalize(answer.file.entries)) else None
  }

  function Upon(baseline: Option<Entries>, counted: Entries): Entries {
    if baseline.Some? then Merge(baseline.value, counted) else counted
  }

  // ------------------------------------------------ one more step, on the steps' side

  lemma Snoc(steps: seq<Step>, step: Step)
    ensures Init(steps + [step]) == steps && Last(steps + [step]) == step
    ensures forall i :: 0 <= i < |steps| ==> (steps + [step])[i] == steps[i] && (steps + [step])[..i] == steps[..i]
    ensures (steps + [step])[..|steps|] == steps
  {
    forall i | 0 <= i < |steps|
      ensures (steps + [step])[i] == steps[i] && (steps + [step])[..i] == steps[..i]
    {
    }
  }

  lemma OneMore(steps: seq<Step>, step: Step)
    ensures LoaderDone(steps + [step]) <==> LoaderDone(steps) || step.LoaderAnswers? || step.LoaderDies?
    ensures SaveAsked(steps + [step]) <==> SaveAsked(steps) || AsksSave(step)
    ensures NoWipe(steps + [step]) <==> NoWipe(steps) && !step.Clear?
  {
    var all := steps + [step];
    assert forall i :: 0 <= i < |steps| ==> all[i] == steps[i];
    assert all[|steps|] == step;
    if i :| 0 <= i < |steps| && (steps[i].LoaderAnswers? || steps[i].LoaderDies?) {
      assert all[i].LoaderAnswers? || all[i].LoaderDies?;
    }
    if i :| 0 <= i < |steps| && AsksSave(steps[i]) {
      assert AsksSave(all[i]);
    }
  }

  lemma OneMoreAnswer(steps: seq<Step>, step: Step)
    ensures LoaderAnswered(steps + [step]) <==> LoaderAnswered(steps) || (step.LoaderAnswers? && !LoaderDone(steps))
  {
    hide LoaderDone;
    Snoc(steps, step);
    var all := steps + [step];
    if i :| 0 <= i < |steps| && steps[i].LoaderAnswers? && !LoaderDone(steps[..i]) {
      assert all[i].LoaderAnswers? && !LoaderDone(all[..i]);
    }
    if step.LoaderAnswers? && !LoaderDone(steps) {
      assert all[|steps|].LoaderAnswers? && !LoaderDone(all[..|steps|]);
    }
  }

  lemma OneMoreOver(steps: seq<Step>, step: Step)
    ensures LoadOver(steps + [step]) <==> LoadOver(steps) || step.Clear? || (step.PollLoad? && LoaderDone(steps))
  {
    hide LoaderDone;
    Snoc(steps, step);
    var all := steps + [step];
    if i :| 0 <= i < |steps| && (steps[i].Clear? || (steps[i].PollLoad? && LoaderDone(steps[..i]))) {
      assert all[i].Clear? || (all[i].PollLoad? && LoaderDone(all[..i]));
    }
    if step.Clear? || (step.PollLoad? && LoaderDone(steps)) {
      assert all[|steps|].Clear? || (all[|steps|].PollLoad? && LoaderDone(all[..|steps|]));
    }
  }

  lemma OneMoreSlow(steps: seq<Step>, step: Step)
    ensures Slow(steps + [step]) <==> Slow(steps) || (step == PollLoad(true) && !LoaderDone(steps) && !LoadOver(steps))
  {
    hide LoaderDone, LoadOver;
    Snoc(steps, step);
    var all := steps + [step];
    if i :| 0 <= i < |steps| && steps[i] == PollLoad(true) && !LoaderDone(steps[..i]) && !LoadOver(steps[..i]) {
      assert all[i] == PollLoad(true) && !LoaderDone(all[..i]) && !LoadOver(all[..i]);
    }
    if step == PollLoad(true) && !LoaderDone(steps) && !LoadOver(steps) {
      assert all[|steps|] == PollLoad(true) && !LoaderDone(all[..|steps|]) && !LoadOver(all[..|steps|]);
    }
  }

  // ------------------------------------------------------- phases of the load

  /** The database's flags, in terms of the steps. */
  ghost predicate Phased(s: World, steps: seq<Step>) {
    && s.db.writing && !s.writer.stopped
    && (s.db.loading <==> !LoadOver(steps))
    && (s.db.loading <==> s.db.receiving)
    && (!s.db.loading ==> !s.db.saveAfterLoad)
    && (s.db.loading ==> (s.db.saveAfterLoad <==> SaveAsked(steps)))
    && (s.loader.Reading? <==> !LoaderDone(steps))
    && (s.loader.Answered? <==> LoaderAnswered(steps))
    && (s.db.loading ==> (s.db.observing <==> Slow(steps)))
    && s.db.generation == Sent(steps)
  }

  lemma PhasedStep(s: World, steps: seq<Step>, step: Step)
    requires Ordered(s) && Phased(s, steps)
    ensures Phased(Next(s, step), steps + [step])
  {
    OneMore(steps, step);
    OneMoreAnswer(steps, step);
    OneMoreOver(steps, step);
    OneMoreSlow(steps, step);
    Snoc(steps, step);
    OrderedStep(s, step);
    hide LoaderDone, LoaderAnswered, LoadOver, Slow, SaveAsked, ObserveDb, ApplyLoaded;
    AppliedFlags(s.db, s.answer);
    if step.Tick? { TickedFlags(s.db, step.tick); }
  }

  lemma AppliedFlags(db: Db, text: Loaded)
    ensures ApplyLoaded(db, text) == db.(since := ApplyLoaded(db, text).since, totals := ApplyLoaded(db, text).totals)
  {
  }

  lemma TickedFlags(db: Db, t: History.Tick)
    ensures ObserveDb(db, t) == db.(totals := ObserveDb(db, t).totals)
  {
  }

  lemma {:induction false} PhasedRun(now: int, disk: Option<DbFile>, answer: Loaded, steps: seq<Step>)
    ensures var s := Run(Opened(now, disk, answer), steps);
            Ordered(s) && Phased(s, steps) && s.answer == answer && s.writer.start == disk
    decreases |steps|
  {
    if steps == [] {
      OpenedOrdered(now, disk, answer);
    } else {
      PhasedRun(now, disk, answer, Init(steps));
      var s := Run(Opened(now, disk, answer), Init(steps));
      assert steps == Init(steps) + [Last(steps)];
      OrderedStep(s, Last(steps));
      PhasedStep(s, Init(steps), Last(steps));
      StartStays(s, Last(steps));
    }
  }

  lemma StartStays(s: World, step: Step)
    ensures Next(s, step).answer == s.answer && Next(s, step).writer.start == s.writer.start
  {
  }

  // --------------------------------------------------------- what is sent

  /** A step puts into the channel what `Sending` says, and only the writer takes out. */
  ghost predicate Channelled(s: World, n: World, step: Step, sends: bool, generation: nat) {
    n.queue ==
    if sends then s.queue + [W.Save(generation, n.db.Snapshot())] + (if step.Save? then [W.Flush] else [])
    else if step.WriterTakes? && s.queue != [] then s.queue[1..]
    else s.queue
  }

  lemma ChannelStep(s: World, steps: seq<Step>, step: Step)
    requires Phased(s, steps)
    ensures Channelled(s, Next(s, step), step, Sending(steps, step), Sent(steps) + 1)
  {
    hide LoaderDone, LoaderAnswered, LoadOver, Slow, SaveAsked, ObserveDb, ApplyLoaded, Sent;
    AppliedFlags(s.db, s.answer);
  }

  /**
   A step puts a save into the channel exactly if it is one that sends: one save, of the next
   generation, with what the database then holds. A blocking save adds a flush. Nothing else is
   ever put into the channel; the writer takes from its front.
   */
  lemma SentExactly(now: int, disk: Option<DbFile>, answer: Loaded, steps: seq<Step>, step: Step)
    ensures var s := Run(Opened(now, disk, answer), steps);
            var n := Next(s, step);
            if Sending(steps, step) then
              n.queue == s.queue + [W.Save(Sent(steps) + 1, n.db.Snapshot())] + if step.Save? then [W.Flush] else []
            else
              n.queue == if step.WriterTakes? && s.queue != [] then s.queue[1..] else s.queue
  {
    hide Phased, Sending, Ordered, Run, Opened, Sent, Next;
    PhasedRun(now, disk, answer, steps);
    ChannelStep(Run(Opened(now, disk, answer), steps), steps, step);
  }

  /** The newest file on its way to disk is what the database held when it last sent one. */
  ghost predicate NewestIs(s: World, last: Option<DbFile>) {
    if last.None? then Trail(s) == []
    else Trail(s) != [] && Trail(s)[|Trail(s)| - 1] == last.value
  }

  /** What the database held after the last step that sent a save. */
  function LastSaved(s: World, steps: seq<Step>): Option<DbFile> {
    match UpToLastSave(steps)
    case None => None
    case Some(run) => Some(Run(s, run).db.Snapshot())
  }

  /** The trail is left alone or forgets an overtaken file, which is never the newest. */
  lemma NewestStays(s: World, n: World, last: Option<DbFile>)
    requires NewestIs(s, last)
    requires var at := |s.writer.writes|;
             Trail(n) == Trail(s) || (at + 1 < |Trail(s)| && Trail(n) == Trail(s)[..at] + Trail(s)[at + 1..])
    ensures NewestIs(n, last)
  {
    hide Trail;
  }

  lemma NewestSent(s: World, n: World, g: nat, rest: seq<Send>)
    requires n.writer == s.writer && n.queue == s.queue + [W.Save(g, n.db.Snapshot())] + rest
    requires rest == [] || rest == [W.Flush]
    ensures NewestIs(n, Some(n.db.Snapshot()))
  {
    hide Queued;
    SentTrail(s.queue, g, n.db.Snapshot(), rest);
  }

  /** One more step: the trail gains exactly what is sent, and keeps its newest file otherwise. */
  lemma NewestStep(s: World, steps: seq<Step>, step: Step, last: Option<DbFile>)
    requires Ordered(s) && Phased(s, steps) && NewestIs(s, last)
    ensures NewestIs(Next(s, step), if Sending(steps, step) then Some(Next(s, step).db.Snapshot()) else last)
  {
    hide Ordered, Phased, Sent, Next, Trail, NewestIs;
    var n := Next(s, step);
    ChannelStep(s, steps, step);
    if Sending(steps, step) {
      WriterRests(s, step);
      NewestSent(s, n, Sent(steps) + 1, if step.Save? then [W.Flush] else []);
    } else if step.WriterTakes? {
      TakeTrail(s);
      NewestStays(s, n, last);
    } else {
      SameTrail(s, step);
      NewestStays(s, n, last);
    }
  }

  lemma SameTrail(s: World, step: Step)
    requires Next(s, step).queue == s.queue && !step.WriterTakes?
    ensures Trail(Next(s, step)) == Trail(s)
  {
    hide Queued, ApplyLoaded, ObserveDb;
    var n := Next(s, step);
    assert n.writer.writes + W.PendingSeq(n.writer) == s.writer.writes + W.PendingSeq(s.writer);
  }

  lemma WriterRests(s: World, step: Step)
    requires !step.WriterTakes? && !step.WriterTimesOut?
    ensures Next(s, step).writer == s.writer
  {
  }

  lemma SentTrail(queue: seq<Send>, g: nat, file: DbFile, rest: seq<Send>)
    requires rest == [] || rest == [W.Flush]
    ensures Queued(queue + [W.Save(g, file)] + rest) == Queued(queue) + [file]
  {
    var more := [W.Save(g, file)] + rest;
    assert queue + [W.Save(g, file)] + rest == queue + more;
    QueuedAppend(queue, more);
    assert more[1..] == rest;
    assert Queued(rest) == [] by {
      if rest != [] { assert rest[1..] == []; }
    }
  }

  lemma {:induction false} NewestRun(now: int, disk: Option<DbFile>, answer: Loaded, steps: seq<Step>)
    ensures NewestIs(Run(Opened(now, disk, answer), steps), LastSaved(Opened(now, disk, answer), steps))
    decreases |steps|
  {
    if steps != [] {
      hide Next, Sending, Ordered, Phased, NewestIs;
      var s := Run(Opened(now, disk, answer), Init(steps));
      NewestRun(now, disk, answer, Init(steps));
      PhasedRun(now, disk, answer, Init(steps));
      NewestStep(s, Init(steps), Last(steps), LastSaved(Opened(now, disk, answer), Init(steps)));
    }
  }

  /**
   No asked-for save is ever lost: in every interleaving, once the writer has drained, the file is
   what the database held when the last save was sent, deferred ones being sent by the poll that
   ends the load; and the file is untouched if no save was sent.
   */
  lemma DrainedIsLastSave(now: int, disk: Option<DbFile>, answer: Loaded, steps: seq<Step>)
    requires Drained(Run(Opened(now, disk, answer), steps))
    ensures var last := LastSaved(Opened(now, disk, answer), steps);
            Run(Opened(now, disk, answer), steps).writer.Disk() == if last.None? then disk else last
  {
    hide Run, Opened, LastSaved, Ordered, Phased;
    NewestRun(now, disk, answer, steps);
    PhasedRun(now, disk, answer, steps);
    DrainedTrail(Run(Opened(now, disk, answer), steps));
  }

  lemma DrainedTrail(s: World)
    requires Drained(s)
    ensures Trail(s) == s.writer.writes
  {
  }

  // ------------------------------------------------------ what is recorded

  /** On top of a baseline the sums still fit 64 bits. */
  ghost predicate Room(answer: Loaded, steps: seq<Step>) {
    BaselineTaken(steps) && answer.Parsed? ==>
      Fits(Counted(steps)) && NoOverflow(Normalize(answer.file.entries), Counted(steps))
  }

  /** The database's contents, in terms of the steps. */
  ghost predicate Told(s: World, startedAt: int, answer: Loaded, steps: seq<Step>) {
    && s.db.Snapshot() == Story(startedAt, answer, steps)
    && s.db.totals.prev == ObserveAll(EMPTY, Seen(steps)).prev
  }

  lemma {:induction false} NothingSeen(steps: seq<Step>)
    requires !LoadOver(steps) && !Slow(steps)
    ensures Seen(steps) == []
    decreases |steps|
  {
    if steps != [] {
      hide LoadOver, Slow;
      assert steps == Init(steps) + [Last(steps)];
      OneMoreOver(Init(steps), Last(steps));
      OneMoreSlow(Init(steps), Last(steps));
      NothingSeen(Init(steps));
    }
  }

  /** The baseline is taken by exactly one kind of step: the poll that ends the load and finds the answer. */
  lemma BaselineStep(steps: seq<Step>, step: Step)
    ensures BaselineTaken(steps + [step]) <==>
            !step.Clear? && (BaselineTaken(steps) || (NoWipe(steps) && !LoadOver(steps) && step.PollLoad? && LoaderAnswered(steps)))
  {
    OneMore(steps, step);
    OneMoreOver(steps, step);
    OneMoreAnswer(steps, step);
    AnsweredIsDone(steps);
    if LoadOver(steps) && NoWipe(steps) { OverIsDone(steps); }
    hide LoadOver, LoaderDone, LoaderAnswered, NoWipe;
  }

  lemma AnsweredIsDone(steps: seq<Step>)
    ensures LoaderAnswered(steps) ==> LoaderDone(steps)
  {
  }

  lemma OverIsDone(steps: seq<Step>)
    requires LoadOver(steps) && NoWipe(steps)
    ensures LoaderDone(steps)
  {
    var i :| 0 <= i < |steps| && (steps[i].Clear? || (steps[i].PollLoad? && LoaderDone(steps[..i])));
    var earlier := steps[..i];
    var j :| 0 <= j < |earlier| && (earlier[j].LoaderAnswers? || earlier[j].LoaderDies?);
    assert steps[j].LoaderAnswers? || steps[j].LoaderDies?;
  }

  lemma MergeNothing(base: Entries)
    ensures Merge(base, map[]) == base
  {
  }

  /** The story of one more step, which is not a wipe. */
  lemma StoryStep(startedAt: int, answer: Loaded, steps: seq<Step>, step: Step)
    requires !step.Clear?
    ensures var counts := step.Tick? && (LoadOver(steps) || Slow(steps));
            && Seen(steps + [step]) == (if counts then Seen(steps) + [step.tick] else Seen(steps))
            && Beginning(startedAt, answer, steps + [step]) ==
               (if !BaselineTaken(steps) && BaselineTaken(steps + [step]) && answer.Parsed? then answer.file.since
                else Beginning(startedAt, answer, steps))
  {
    OneMore(steps, step);
    Snoc(steps, step);
    hide LoadOver, LoaderDone, LoaderAnswered, Slow;
    BaselineStep(steps, step);
    if NoWipe(steps) { BeganAt(startedAt, answer, steps); }
  }

  lemma BeganAt(startedAt: int, answer: Loaded, steps: seq<Step>)
    requires NoWipe(steps)
    ensures Beginning(startedAt, answer, steps) == if BaselineTaken(steps) && answer.Parsed? then answer.file.since else startedAt
  {
    hide LoadOver, LoaderAnswered;
  }

  /** A wipe starts over. */
  lemma StoryWiped(startedAt: int, answer: Loaded, steps: seq<Step>, step: Step)
    requires step.Clear?
    ensures Seen(steps + [step]) == [] && Counted(steps + [step]) == map[]
    ensures Story(startedAt, answer, steps + [step]) == DbFile(step.now, map[])
  {
    OneMore(steps, step);
    Snoc(steps, step);
    hide LoadOver, LoaderAnswered, Slow;
  }

  lemma ToldWipe(s: World, startedAt: int, answer: Loaded, steps: seq<Step>, step: Step)
    requires step.Clear?
    ensures Told(Next(s, step), startedAt, answer, steps + [step])
  {
    StoryWiped(startedAt, answer, steps, step);
    hide Seen, Counted, Story;
  }

  /** One more snapshot that counts, on top of a baseline or not. */
  lemma CountOneMore(baseline: Option<Entries>, seen: seq<History.Tick>, t: History.Tick)
    requires var all := ObserveAll(EMPTY, seen + [t]).entries;
             baseline.Some? ==> Fits(all) && NoOverflow(baseline.value, all)
    ensures var before := ObserveAll(EMPTY, seen);
            Observe(Totals(Upon(baseline, before.entries), before.prev), t) ==
            Totals(Upon(baseline, ObserveAll(EMPTY, seen + [t]).entries), ObserveAll(EMPTY, seen + [t]).prev)
  {
    hide Merge, Fits, NoOverflow, ObserveEntries, NextPrev;
    var before := ObserveAll(EMPTY, seen);
    assert (seen + [t])[..|seen|] == seen;
    if baseline.Some? {
      EntriesMerge(baseline.value, before.entries, before.prev, t.processes, t);
    }
  }

  /** A snapshot arrives. */
  lemma ToldTick(s: World, startedAt: int, answer: Loaded, steps: seq<Step>, step: Step)
    requires Phased(s, steps) && Told(s, startedAt, answer, steps)
    requires step.Tick? && Room(answer, steps + [step])
    ensures Told(Next(s, step), startedAt, answer, steps + [step])
  {
    hide LoadOver, LoaderAnswered, Slow, BaselineTaken, Seen, Beginning, Upon, Fits, NoOverflow, Normalize,
         ObserveAll, Observe, Phased;
    StoryStep(startedAt, answer, steps, step);
    BaselineStep(steps, step);
    SlowWhileLoading(s, steps);
    if LoadOver(steps) || Slow(steps) {
      CountOneMore(Baseline(answer, steps), Seen(steps), step.tick);
    }
  }

  lemma SlowWhileLoading(s: World, steps: seq<Step>)
    requires Phased(s, steps)
    ensures s.db.loading && !s.db.observing <==> !LoadOver(steps) && !Slow(steps)
  {
    hide LoadOver, Slow, SaveAsked, LoaderDone, LoaderAnswered, Sent;
  }

  /** A poll, which may take the baseline. */
  lemma ToldPoll(s: World, startedAt: int, answer: Loaded, steps: seq<Step>, step: Step)
    requires Phased(s, steps) && Told(s, startedAt, answer, steps) && s.answer == answer
    requires step.PollLoad?
    ensures Told(Next(s, step), startedAt, answer, steps + [step])
  {
    hide LoaderDone, LoaderAnswered, Slow, Seen, Beginning, Merge, Normalize, SaveAsked, Sent, ObserveAll;
    StoryStep(startedAt, answer, steps, step);
    BaselineStep(steps, step);
    WipedIsOver(steps);
    hide LoadOver, NoWipe;
    if s.db.loading && s.loader.Answered? && answer.Parsed? && !s.db.observing {
      NothingSeen(steps);
      NothingObserved();
      MergeNothing(Normalize(answer.file.entries));
    }
  }

  lemma NothingObserved()
    ensures ObserveAll(EMPTY, []).entries == map[]
  {
  }

  lemma WipedIsOver(steps: seq<Step>)
    ensures !LoadOver(steps) ==> NoWipe(steps)
  {
  }

  lemma ToldOther(s: World, startedAt: int, answer: Loaded, steps: seq<Step>, step: Step)
    requires Told(s, startedAt, answer, steps)
    requires !step.Clear? && !step.Tick? && !step.PollLoad?
    ensures Told(Next(s, step), startedAt, answer, steps + [step])
  {
    hide LoadOver, LoaderDone, LoaderAnswered, Slow, BaselineTaken, Seen, Beginning, Merge, Normalize, ObserveAll;
    StoryStep(startedAt, answer, steps, step);
    BaselineStep(steps, step);
  }

  /** Room after a step, unless it wiped, is room before it. */
  lemma RoomBefore(answer: Loaded, steps: seq<Step>, step: Step)
    requires Room(answer, steps + [step]) && !step.Clear?
    ensures Room(answer, steps)
  {
    hide LoadOver, LoaderDone, LoaderAnswered, Slow, BaselineTaken, Fits, NoOverflow, Normalize, Leq, ObserveEntries, NextPrev;
    BaselineStep(steps, step);
    StoryStep(0, answer, steps, step);
    if BaselineTaken(steps) && answer.Parsed? {
      var seen := Seen(steps);
      if Seen(steps + [step]) != seen {
        var before, t := ObserveAll(EMPTY, seen), step.tick;
        assert (seen + [t])[..|seen|] == seen;
        EntriesGrow(before.entries, before.prev, t.processes, t);
        LeqFits(before.entries, Counted(steps + [step]), Normalize(answer.file.entries));
      }
    }
  }

  lemma {:induction false} ToldRun(now: int, disk: Option<DbFile>, answer: Loaded, steps: seq<Step>)
    requires Room(answer, steps)
    ensures Told(Run(Opened(now, disk, answer), steps), now, answer, steps)
    decreases |steps|
  {
    if steps == [] {
      NothingObserved();
    } else {
      hide Next, Phased, Told, Room, Ordered, Opened;
      var s, earlier, step := Run(Opened(now, disk, answer), Init(steps)), Init(steps), Last(steps);
      assert steps == earlier + [step];
      PhasedRun(now, disk, answer, earlier);
      if step.Clear? {
        ToldWipe(s, now, answer, earlier, step);
      } else {
        RoomBefore(answer, earlier, step);
        ToldRun(now, disk, answer, earlier);
        if step.Tick? {
          ToldTick(s, now, answer, earlier, step);
        } else if step.PollLoad? {
          ToldPoll(s, now, answer, earlier, step);
        } else {
          ToldOther(s, now, answer, earlier, step);
        }
      }
    }
  }

  /**
   The whole of it: in every interleaving the database holds the story of the steps, and once the
   writer has drained so does the file, as of the last step that sent a save.
   */
  lemma FileTellsTheStory(now: int, disk: Option<DbFile>, answer: Loaded, steps: seq<Step>)
    requires Room(answer, steps)
    requires var last := UpToLastSave(steps); last.Some? ==> Room(answer, last.value)
    ensures var s := Run(Opened(now, disk, answer), steps);
            var last := UpToLastSave(steps);
            && s.db.Snapshot() == Story(now, answer, steps)
            && (Drained(s) ==> s.writer.Disk() == if last.None? then disk else Some(Story(now, answer, last.value)))
  {
    hide Run, Opened, Room, Story, UpToLastSave;
    ToldRun(now, disk, answer, steps);
    var last := UpToLastSave(steps);
    if last.Some? {
      ToldRun(now, disk, answer, last.value);
    }
    if Drained(Run(Opened(now, disk, answer), steps)) {
      DrainedIsLastSave(now, disk, answer, steps);
    }
  }

  // ------------------------------------------------------ the exit path

  function Takes(n: nat): seq<Step> {
    if n == 0 then [] else Takes(n - 1) + [WriterTakes]
  }

  predicate NoShutdown(queue: seq<Send>) {
    forall i :: 0 <= i < |queue| ==> !queue[i].Shutdown?
  }

  lemma TakeOne(s: World)
    requires s.queue != [] && !s.queue[0].Shutdown? && !s.writer.stopped
    ensures var n := Next(s, WriterTakes);
            n.queue == s.queue[1..] && !n.writer.stopped && (s.queue[0].Flush? ==> n.writer.pending.None?)
  {
  }

  /** The writer alone works off its channel, and behind a flush nothing stays pending. */
  lemma {:induction false} TakesRun(s: World, steps: seq<Step>, n: nat)
    requires n <= |Run(s, steps).queue| && !Run(s, steps).writer.stopped && NoShutdown(Run(s, steps).queue)
    ensures var a, b := Run(s, steps), Run(s, steps + Takes(n));
            && b.queue == a.queue[n..] && !b.writer.stopped
            && (n > 0 && a.queue[n - 1].Flush? ==> b.writer.pending.None?)
    decreases n
  {
    hide Next, Run;
    if n == 0 {
      assert steps + Takes(n) == steps;
    } else {
      TakesRun(s, steps, n - 1);
      var earlier := steps + Takes(n - 1);
      assert steps + Takes(n) == earlier + [WriterTakes];
      DropOne(Run(s, steps).queue, n - 1);
      TakeOne(Run(s, earlier));
      RunLast(s, earlier, WriterTakes);
    }
  }

  lemma DropOne(queue: seq<Send>, n: nat)
    requires n < |queue|
    ensures queue[n..][0] == queue[n] && queue[n..][1..] == queue[n + 1..]
  {
  }

  /** Nothing is sent meanwhile. */
  lemma {:induction false} TakesQuiet(steps: seq<Step>, n: nat)
    ensures UpToLastSave(steps + Takes(n)) == UpToLastSave(steps)
    decreases n
  {
    hide UpToLastSave;
    if n == 0 {
      assert steps + Takes(n) == steps;
    } else {
      TakesQuiet(steps, n - 1);
      var earlier := steps + Takes(n - 1);
      assert steps + Takes(n) == earlier + [WriterTakes];
      TakeSendsNothing(earlier);
    }
  }

  lemma TakeSendsNothing(steps: seq<Step>)
    ensures UpToLastSave(steps + [WriterTakes]) == UpToLastSave(steps)
  {
    hide LoadOver, LoaderDone, SaveAsked;
    Snoc(steps, WriterTakes);
  }

  /** A blocking save after the load: as soon as the writer has worked off its channel, the present state is on disk. */
  lemma BlockingSaveReachesDisk(now: int, disk: Option<DbFile>, answer: Loaded, steps: seq<Step>)
    requires LoadOver(steps)
    ensures var saved := Run(Opened(now, disk, answer), steps + [Save]);
            var s := Run(Opened(now, disk, answer), steps + [Save] + Takes(|saved.queue|));
            Drained(s) && s.writer.Disk() == Some(saved.db.Snapshot())
  {
    hide Run, Opened, LoadOver, Sent;
    var calls := steps + [Save];
    var saved := Run(Opened(now, disk, answer), calls);
    var takes := Takes(|saved.queue|);
    Snoc(steps, Save);
    PhasedRun(now, disk, answer, calls);
    SentExactly(now, disk, answer, steps, Save);
    RunLast(Opened(now, disk, answer), steps, Save);
    hide Phased;
    TakesRun(Opened(now, disk, answer), calls, |saved.queue|);
    TakesQuiet(calls, |saved.queue|);
    hide Sending, Next;
    DrainedIsLastSave(now, disk, answer, calls + takes);
  }

  lemma RunLast(s: World, steps: seq<Step>, step: Step)
    ensures Run(s, steps + [step]) == Next(Run(s, steps), step)
  {
    assert (steps + [step])[..|steps|] == steps;
  }

  /** `poll_load` says true exactly if this call ended the load or resumed observation. */
  lemma PollReports(db: Db, poll: Poll)
    ensures var n := HistoryDb.PollLoad(db, poll);
            n.2 <==> (db.loading && !n.0.loading) || (!db.observing && n.0.observing)
    ensures var n := HistoryDb.PollLoad(db, poll);
            db.loading && poll == Empty(true) && db.receiving ==> n.0.observing && n.0.loading
  {
    AppliedFlags(db, if poll.Arrived? then poll.text else NoFile);
  }

  // ------------------------------------------- the record, number by number

  /** What the baseline says about `key`, if there is one that counts. */
  function FromBaseline(answer: Loaded, steps: seq<Step>, key: string): Option<Usage> {
    if BaselineTaken(steps) && answer.Parsed? && key in answer.file.entries then Some(answer.file.entries[key]) else None
  }

  /** CPU time and traffic add up; traffic in the baseline proves that it was measured. */
  function Recorded(baseline: Option<Usage>, observed: Usage): Usage {
    match baseline
    case None => observed
    case Some(b) => Usage(b.cpu + observed.cpu, b.net + observed.net, b.available || b.net > 0 || observed.available)
  }

  /** `file` is what the baseline and the sightings that count add up to, program by program. */
  ghost predicate IsRecord(file: DbFile, startedAt: int, answer: Loaded, steps: seq<Step>) {
    && file.since == Beginning(startedAt, answer, steps)
    && forall key :: IsRecordOf(file.entries, answer, steps, key)
  }

  ghost predicate IsRecordOf(entries: Entries, answer: Loaded, steps: seq<Step>, key: string) {
    && (key in entries <==> FromBaseline(answer, steps, key).Some? || Sighted(Seen(steps), key))
    && (key in entries ==> entries[key] == Recorded(FromBaseline(answer, steps, key), RunAdds(Seen(steps), key)))
  }

  /** With a baseline, traffic stays within 64 bits. */
  ghost predicate Within64Bits(answer: Loaded, steps: seq<Step>) {
    BaselineTaken(steps) && answer.Parsed? ==>
      forall key :: Net(FromBaseline(answer, steps, key)) + RunAdds(Seen(steps), key).net <= U64_MAX
  }

  function Net(u: Option<Usage>): nat {
    if u.Some? then u.value.net else 0
  }

  lemma Within64BitsIsRoom(answer: Loaded, steps: seq<Step>)
    requires Within64Bits(answer, steps)
    ensures Room(answer, steps)
  {
    hide BaselineTaken, Seen, RunAdds, ObserveAll;
    if BaselineTaken(steps) && answer.Parsed? {
      var base := Normalize(answer.file.entries);
      forall key | key in Counted(steps)
        ensures Counted(steps)[key].net <= U64_MAX && (key in base ==> base[key].net + Counted(steps)[key].net <= U64_MAX)
      {
        TotalsAreWhatSightingsAdd(Seen(steps), key);
        assert Net(FromBaseline(answer, steps, key)) + RunAdds(Seen(steps), key).net <= U64_MAX;
      }
    }
  }

  lemma NoSightingAddsNothing(u: Usage)
    ensures Recorded(None, u) == u
    ensures AddUsage(NO_USAGE, u).cpu == u.cpu && (u.net <= U64_MAX ==> AddUsage(NO_USAGE, u) == u)
  {
  }

  lemma StoryIsRecordOf(startedAt: int, answer: Loaded, steps: seq<Step>, key: string)
    requires Within64Bits(answer, steps)
    ensures IsRecordOf(Story(startedAt, answer, steps).entries, answer, steps, key)
  {
    hide BaselineTaken, Seen, RunAdds, ObserveAll, Sighted, Beginning;
    TotalsAreWhatSightingsAdd(Seen(steps), key);
    EntriesAreSighted(EMPTY, Seen(steps), key);
    var counted := Counted(steps);
    if BaselineTaken(steps) && answer.Parsed? {
      assert Net(FromBaseline(answer, steps, key)) + RunAdds(Seen(steps), key).net <= U64_MAX;
    }
  }

  lemma StoryIsRecord(startedAt: int, answer: Loaded, steps: seq<Step>)
    requires Within64Bits(answer, steps)
    ensures IsRecord(Story(startedAt, answer, steps), startedAt, answer, steps)
  {
    hide Story, Within64Bits, IsRecordOf;
    forall key: string
      ensures IsRecordOf(Story(startedAt, answer, steps).entries, answer, steps, key)
    {
      StoryIsRecordOf(startedAt, answer, steps, key);
    }
    StoryBegins(startedAt, answer, steps);
  }

  lemma StoryBegins(startedAt: int, answer: Loaded, steps: seq<Step>)
    ensures Story(startedAt, answer, steps).since == Beginning(startedAt, answer, steps)
  {
  }

  /**
   The database against its record: whatever the threads did and in whatever order, it holds, number
   by number, the baseline plus what the sightings that count add; and once the writer has drained,
   the file holds that record as of the last step that sent a save.
   */
  lemma FileIsRecord(now: int, disk: Option<DbFile>, answer: Loaded, steps: seq<Step>)
    requires Within64Bits(answer, steps)
    requires var last := UpToLastSave(steps); last.Some? ==> Within64Bits(answer, last.value)
    ensures var s := Run(Opened(now, disk, answer), steps);
            var last := UpToLastSave(steps);
            && IsRecord(s.db.Snapshot(), now, answer, steps)
            && (Drained(s) ==>
                  if last.None? then s.writer.Disk() == disk
                  else s.writer.Disk().Some? && IsRecord(s.writer.Disk().value, now, answer, last.value))
  {
    hide Run, Opened, Room, Story, UpToLastSave, Within64Bits, IsRecord, Drained;
    Within64BitsIsRoom(answer, steps);
    StoryIsRecord(now, answer, steps);
    var last := UpToLastSave(steps);
    if last.Some? {
      Within64BitsIsRoom(answer, last.value);
      StoryIsRecord(now, answer, last.value);
    }
    FileTellsTheStory(now, disk, answer, steps);
  }

  /** A database without a writer thread never sends anything, whatever is asked of it. */
  lemma NoWriterSendsNothing(db: Db, poll: Poll, now: int)
    requires !db.writing
    ensures EnqueueSave(db).1 == [] && SaveBlocking(db).1 == [] && HistoryDb.Clear(db, now).1 == [] && HistoryDb.PollLoad(db, poll).1 == []
    ensures !EnqueueSave(db).0.writing && !HistoryDb.PollLoad(db, poll).0.writing
  {
    AppliedFlags(db, if poll.Arrived? then poll.text else NoFile);
  }
}
