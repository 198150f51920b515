/**
 The state of the sampling engine as a function of its history: mode, deadline, interval
 and reports follow from the events of the log, and the commands in the log are those
 that were sent, in the order they were sent.
 */
module EngineHistory {
  import opened Common
  import opened Engine
  import opened EngineLedger

  predicate IsBuilt(log: seq<Event>) {
    exists i :: 0 <= i < |log| && log[i].Built?
  }

  /** What an event decides about the mode, given whether the collector exists. Before it does only a shutdown counts. */
  function Decision(built: bool, ev: Event): Option<Mode> {
    match ev
    case Built(_) => Some(Running)
    case CellWritten(_) => None
    case Sampled(cause, _, outcome, _, _, _) =>
      if outcome.Unsupported? || cause.FirstWhilePaused? then Some(Paused) else None
    case Handled(cmd, _) =>
      if cmd.Shutdown? then Some(Stopped)
      else if built && cmd.Pause? then Some(Paused)
      else if built && cmd.Resume? then Some(Running)
      else None
  }

  /** The last decision, else the mode the engine was spawned in. */
  function ModeAfter(spawned: Mode, log: seq<Event>): Mode {
    if log == [] then spawned
    else
      var earlier := log[..|log| - 1];
      Or(Decision(IsBuilt(earlier), log[|log| - 1]), ModeAfter(spawned, earlier))
  }

  /** When the collector was made or last sampled. */
  function LastTick(log: seq<Event>): nat {
    if log == [] then 0
    else
      match log[|log| - 1]
      case Built(at) => at
      case Sampled(_, at, _, _, _, _) => at
      case _ => LastTick(log[..|log| - 1])
  }

  /** When the next cadence sample is due. */
  function Due(spawned: Mode, log: seq<Event>): nat {
    if log == [] then 0
    else
      var earlier := log[..|log| - 1];
      match log[|log| - 1]
      case Built(at) => at
      case Sampled(cause, at, _, _, _, interval) => if cause.FirstWhilePaused? then at else at + interval
      case CellWritten(_) => Due(spawned, earlier)
      case Handled(cmd, at) =>
        if !IsBuilt(earlier) then Due(spawned, earlier)
        else if cmd.SetInterval? then LastTick(earlier) + cmd.interval
        else if cmd.Resume? && ModeAfter(spawned, earlier) == Paused then at
        else Due(spawned, earlier)
  }

  /** The interval: what was last written to the cell or handled, else the initial one. */
  function IntervalAfter(initial: nat, log: seq<Event>): nat {
    if log == [] then initial
    else
      var ev := log[|log| - 1];
      if ev.CellWritten? then ev.value
      else if ev.Handled? && ev.cmd.SetInterval? then ev.cmd.interval
      else IntervalAfter(initial, log[..|log| - 1])
  }

  /** When a failure was last reported since the last good sample: the first one, and then one every 30 s. */
  function LastReport(log: seq<Event>): Option<nat> {
    if log == [] then None
    else
      var before, ev := LastReport(log[..|log| - 1]), log[|log| - 1];
      if ev.Sampled? && ev.outcome.Good? then None
      else if ev.Sampled? && ev.outcome.Failed? && (before.None? || ev.at - before.value >= 30_000) then Some(ev.at)
      else before
  }

  /** Every sample in the log says truly in which mode, at which deadline and for which interval it was taken. */
  predicate Truthful(spawned: Mode, initial: nat, log: seq<Event>) {
    log == [] ||
    var earlier, ev := log[..|log| - 1], log[|log| - 1];
    && Truthful(spawned, initial, earlier)
    && (ev.Sampled? ==>
          && IsBuilt(earlier)
          && ev.mode == ModeAfter(spawned, earlier)
          && ev.interval == IntervalAfter(initial, earlier)
          && (!ev.cause.FirstWhilePaused? ==> ev.due == Due(spawned, earlier)))
  }

  lemma OneMore(spawned: Mode, initial: nat, log: seq<Event>, ev: Event)
    ensures var all := log + [ev];
            && (IsBuilt(all) <==> IsBuilt(log) || ev.Built?)
            && ModeAfter(spawned, all) == Or(Decision(IsBuilt(log), ev), ModeAfter(spawned, log))
            && LastTick(all) == (match ev case Built(at) => at case Sampled(_, at, _, _, _, _) => at case _ => LastTick(log))
            && LastReport(all) ==
               (if ev.Sampled? && ev.outcome.Good? then None
                else if ev.Sampled? && ev.outcome.Failed? && (LastReport(log).None? || ev.at - LastReport(log).value >= 30_000)
                then Some(ev.at)
                else LastReport(log))
            && (Truthful(spawned, initial, all) <==>
                Truthful(spawned, initial, log)
                && (ev.Sampled? ==>
                      && IsBuilt(log) && ev.mode == ModeAfter(spawned, log) && ev.interval == IntervalAfter(initial, log)
                      && (!ev.cause.FirstWhilePaused? ==> ev.due == Due(spawned, log))))
            && IntervalAfter(initial, all) ==
               (if ev.CellWritten? then ev.value
                else if ev.Handled? && ev.cmd.SetInterval? then ev.cmd.interval
                else IntervalAfter(initial, log))
  {
    var all := log + [ev];
    assert all[..|log|] == log && all[|log|] == ev;
    if i :| 0 <= i < |log| && log[i].Built? {
      assert all[i].Built?;
    }
  }

  lemma OneMoreDue(spawned: Mode, log: seq<Event>, ev: Event)
    ensures Due(spawned, log + [ev]) ==
            match ev
            case Built(at) => at
            case Sampled(cause, at, _, _, _, interval) => if cause.FirstWhilePaused? then at else at + interval
            case CellWritten(_) => Due(spawned, log)
            case Handled(cmd, at) =>
              if !IsBuilt(log) then Due(spawned, log)
              else if cmd.SetInterval? then LastTick(log) + cmd.interval
              else if cmd.Resume? && ModeAfter(spawned, log) == Paused then at
              else Due(spawned, log)
  {
    assert (log + [ev])[..|log|] == log;
  }

  // ------------------------------------------------- the state follows the log

  /** The engine's variables are what its log says. */
  ghost predicate Follows(e: Engine, spawned: Mode, initial: nat) {
    && (spawned == NotStarted || spawned == Starting)
    && Truthful(spawned, initial, e.log)
    && (e.collector.Some? <==> IsBuilt(e.log))
    && e.mode == ModeAfter(spawned, e.log)
    && e.interval == IntervalAfter(initial, e.log)
    && e.lastReport == LastReport(e.log)
    && (e.collector.Some? ==> e.lastTick == LastTick(e.log) && e.nextDue == Due(spawned, e.log))
    && (e.collector.Some? ==> e.mode != NotStarted && e.mode != Starting)
    && (e.collector.None? ==> e.mode == spawned || e.mode == Stopped)
  }

  /** One event more, and the variables that go with it. */
  ghost predicate Records(e: Engine, n: Engine, ev: Event, spawned: Mode) {
    var before := e.log;
    && n.log == before + [ev]
    && (ev.Sampled? ==>
          && e.collector.Some? && ev.mode == e.mode && ev.interval == e.interval
          && (!ev.cause.FirstWhilePaused? ==> ev.due == e.nextDue))
    && (n.collector.Some? <==> e.collector.Some? || ev.Built?)
    && n.mode == Or(Decision(IsBuilt(before), ev), e.mode)
    && n.interval == (if ev.CellWritten? then ev.value else if ev.Handled? && ev.cmd.SetInterval? then ev.cmd.interval else e.interval)
    && n.lastReport ==
       (if ev.Sampled? && ev.outcome.Good? then None
        else if ev.Sampled? && ev.outcome.Failed? && (e.lastReport.None? || ev.at - e.lastReport.value >= 30_000) then Some(ev.at)
        else e.lastReport)
    && (n.collector.Some? ==>
          && n.lastTick == (match ev case Built(at) => at case Sampled(_, at, _, _, _, _) => at case _ => e.lastTick)
          && n.nextDue ==
             match ev
             case Built(at) => at
             case Sampled(cause, at, _, _, _, interval) => if cause.FirstWhilePaused? then at else at + interval
             case CellWritten(_) => e.nextDue
             case Handled(cmd, at) =>
               if cmd.SetInterval? then e.lastTick + cmd.interval
               else if cmd.Resume? && e.mode == Paused then at
               else e.nextDue)
  }

  lemma RecordsFollow(e: Engine, n: Engine, ev: Event, spawned: Mode, initial: nat)
    requires Follows(e, spawned, initial) && Records(e, n, ev, spawned)
    ensures Follows(n, spawned, initial)
  {
    hide IsBuilt, ModeAfter, LastTick, Due, IntervalAfter, LastReport, Truthful;
    OneMore(spawned, initial, e.log, ev);
    OneMoreDue(spawned, e.log, ev);
  }

  lemma SampleRecords(e: Engine, cause: Cause, now: nat, outcome: Outcome, spawned: Mode)
    requires e.collector.Some? && !cause.FirstWhilePaused?
    ensures var s := Sample(e.(lastTick := now), cause, now, outcome);
            Records(e, s.(nextDue := now + s.interval), Sampled(cause, now, outcome, e.mode, e.nextDue, e.interval), spawned)
  {
    hide IsBuilt;
  }

  lemma BuiltRecords(e: Engine, made: Collector, now: nat, spawned: Mode)
    ensures Records(e, Configured(e, made, now).(lastTick := now, nextDue := now), Built(now), spawned)
  {
    hide IsBuilt;
  }

  lemma FirstRecords(e: Engine, now: nat, outcome: Outcome, due: nat, spawned: Mode)
    requires e.collector.Some? && e.mode == Running && e.lastTick == now && e.nextDue == now
    ensures var s := Sample(e.(nextDue := due), FirstWhilePaused, now, outcome).(mode := Paused, nextDue := now);
            Records(e, s, Sampled(FirstWhilePaused, now, outcome, e.mode, due, e.interval), spawned)
  {
    hide IsBuilt;
  }

  lemma EnterFollows(e: Engine, made: Collector, now: nat, outcome: Outcome, spawned: Mode, initial: nat)
    requires Follows(e, spawned, initial) && e.collector.None?
    ensures Follows(Enter(e, made, now, outcome), spawned, initial)
  {
    hide Follows, Records;
    var mid := Configured(e, made, now).(lastTick := now, nextDue := now);
    BuiltRecords(e, made, now, spawned);
    RecordsFollow(e, mid, Built(now), spawned, initial);
    EnterIs(e, made, now, outcome);
    if e.pendingPaused {
      FirstRecords(mid, now, outcome, e.nextDue, spawned);
      var last := Sampled(FirstWhilePaused, now, outcome, mid.mode, e.nextDue, mid.interval);
      RecordsFollow(mid, Enter(e, made, now, outcome), last, spawned, initial);
    }
  }

  lemma EnterIs(e: Engine, made: Collector, now: nat, outcome: Outcome)
    ensures var mid := Configured(e, made, now).(lastTick := now, nextDue := now);
            Enter(e, made, now, outcome) ==
            if e.pendingPaused then Sample(mid.(nextDue := e.nextDue), FirstWhilePaused, now, outcome).(mode := Paused, nextDue := now)
            else mid
  {
  }

  lemma ParkedFollows(e: Engine, cmd: Cmd, made: Collector, now: nat, outcome: Outcome, spawned: Mode, initial: nat)
    requires Follows(e, spawned, initial) && e.collector.None?
    ensures Follows(Parked(e, cmd, made, now, outcome), spawned, initial)
  {
    if cmd.Start? {
      var h := e.(log := e.log + [Handled(cmd, now)]);
      ParkedRecords(e, cmd, made, now, outcome, h, spawned);
      RecordsFollow(e, h, Handled(cmd, now), spawned, initial);
      EnterFollows(h, made, now, outcome, spawned, initial);
    } else {
      ParkedRecords(e, cmd, made, now, outcome, Parked(e, cmd, made, now, outcome), spawned);
      RecordsFollow(e, Parked(e, cmd, made, now, outcome), Handled(cmd, now), spawned, initial);
    }
  }

  lemma ParkedRecords(e: Engine, cmd: Cmd, made: Collector, now: nat, outcome: Outcome, n: Engine, spawned: Mode)
    requires e.collector.None? && !IsBuilt(e.log)
    requires n == if cmd.Start? then e.(log := e.log + [Handled(cmd, now)]) else Parked(e, cmd, made, now, outcome)
    ensures Records(e, n, Handled(cmd, now), spawned)
  {
    hide IsBuilt, Enter;
  }

  lemma HandleFollows(e: Engine, cmd: Cmd, now: nat, outcome: Outcome, spawned: Mode, initial: nat)
    requires Follows(e, spawned, initial) && e.collector.Some? && e.mode != Stopped
    ensures Follows(Handle(e, cmd, now, outcome), spawned, initial)
  {
    hide Sample, Records, Follows;
    var ev := Handled(cmd, now);
    if cmd.Refresh? || cmd.SampleNow? {
      var h := e.(log := e.log + [ev]);
      HandledRecords(e, cmd, now, outcome, h, spawned, initial);
      RecordsFollow(e, h, ev, spawned, initial);
      SampleRecords(h, Forced, now, outcome, spawned);
      var s := Force(h, now, outcome);
      RecordsFollow(h, s, Sampled(Forced, now, outcome, h.mode, h.nextDue, h.interval), spawned, initial);
    } else {
      HandledRecords(e, cmd, now, outcome, Handle(e, cmd, now, outcome), spawned, initial);
      RecordsFollow(e, Handle(e, cmd, now, outcome), ev, spawned, initial);
    }
  }

  lemma HandledRecords(e: Engine, cmd: Cmd, now: nat, outcome: Outcome, n: Engine, spawned: Mode, initial: nat)
    requires Follows(e, spawned, initial) && e.collector.Some? && e.mode != Stopped
    requires n == if cmd.Refresh? || cmd.SampleNow? then e.(log := e.log + [Handled(cmd, now)]) else Handle(e, cmd, now, outcome)
    ensures Records(e, n, Handled(cmd, now), spawned)
  {
    hide IsBuilt, Force, ModeAfter, LastTick, Due, IntervalAfter, LastReport, Truthful;
  }

  lemma CellFollows(e: Engine, i: nat, spawned: Mode, initial: nat)
    requires Follows(e, spawned, initial)
    ensures Follows(e.(interval := i, log := e.log + [CellWritten(i)]), spawned, initial)
  {
    hide IsBuilt, Follows;
    var n := e.(interval := i, log := e.log + [CellWritten(i)]);
    assert Records(e, n, CellWritten(i), spawned);
    RecordsFollow(e, n, CellWritten(i), spawned, initial);
  }

  lemma LookFollows(e: Engine, now: nat, outcome: Outcome, spawned: Mode, initial: nat)
    requires Follows(e, spawned, initial) && e.collector.Some?
    ensures Follows(CadenceCheck(e, now, outcome), spawned, initial)
  {
    hide Sample, Records, Follows;
    if e.mode == Running && now >= e.nextDue {
      SampleRecords(e, Cadence, now, outcome, spawned);
      RecordsFollow(e, CadenceCheck(e, now, outcome), Sampled(Cadence, now, outcome, e.mode, e.nextDue, e.interval), spawned, initial);
    }
  }

  lemma FollowsStep(w: World, step: Step, spawned: Mode, initial: nat)
    requires Follows(w.engine, spawned, initial)
    ensures Follows(Next(w, step).engine, spawned, initial)
  {
    var e := w.engine;
    StartingIsParked(e, spawned, initial);
    hide Follows, Enter, Parked, Handle, CadenceCheck;
    match step
    case IntervalWrite(i) => CellFollows(e, i, spawned, initial);
    case EngineTakes(t, outcome) =>
      if e.mode == Starting {
        EnterFollows(e, w.made, Later(w, t), outcome, spawned, initial);
      } else if e.mode != Stopped && w.queue != [] {
        if e.collector.None? {
          ParkedFollows(e, w.queue[0], w.made, Later(w, t), outcome, spawned, initial);
        } else {
          HandleFollows(e, w.queue[0], Later(w, t), outcome, spawned, initial);
        }
      }
    case EngineLooks(t, outcome) =>
      if e.collector.Some? {
        LookFollows(e, Later(w, t), outcome, spawned, initial);
      }
    case _ =>
  }

  lemma StartingIsParked(e: Engine, spawned: Mode, initial: nat)
    requires Follows(e, spawned, initial)
    ensures e.mode == Starting ==> e.collector.None?
  {
  }

  function SpawnedMode(immediately: bool): Mode {
    if immediately then Starting else NotStarted
  }

  lemma {:induction false} FollowsRun(interval: nat, immediately: bool, made: Collector, steps: seq<Step>)
    ensures Follows(Run(Initial(interval, immediately, made), steps).engine, SpawnedMode(immediately), interval)
    decreases |steps|
  {
    if steps != [] {
      hide Follows, Next;
      FollowsRun(interval, immediately, made, steps[..|steps| - 1]);
      FollowsStep(Run(Initial(interval, immediately, made), steps[..|steps| - 1]), steps[|steps| - 1], SpawnedMode(immediately), interval);
    }
  }

  /**
   Over every run, mode, deadline, interval and reports are what the log says; each sample tells
   the truth about when it was taken; and the loop head samples exactly if the log says that the
   engine is running and due.
   */
  lemma StateFollowsLog(interval: nat, immediately: bool, made: Collector, steps: seq<Step>, t: nat, outcome: Outcome)
    ensures var w := Run(Initial(interval, immediately, made), steps);
            var spawned, log := SpawnedMode(immediately), w.engine.log;
            && w.engine.mode == ModeAfter(spawned, log)
            && w.engine.interval == IntervalAfter(interval, log)
            && w.engine.lastReport == LastReport(log)
            && (w.engine.collector.Some? <==> IsBuilt(log))
            && Truthful(spawned, interval, log)
            && TickAt(w, t, outcome) ==
               if IsBuilt(log) && ModeAfter(spawned, log) == Running && Later(w, t) >= Due(spawned, log) then Some(Later(w, t)) else None
  {
    FollowsRun(interval, immediately, made, steps);
    hide Run, Initial, ModeAfter, IntervalAfter, LastReport, IsBuilt, Truthful, Due;
    var w := Run(Initial(interval, immediately, made), steps);
    LookTells(w, t, outcome);
  }

  lemma LookTells(w: World, t: nat, outcome: Outcome)
    ensures TickAt(w, t, outcome) ==
            if w.engine.collector.Some? && w.engine.mode == Running && Later(w, t) >= w.engine.nextDue then Some(Later(w, t)) else None
  {
    if w.engine.collector.Some? && w.engine.mode == Running {
      TicksWhenDue(w, t, outcome);
    }
  }

  // -------------------------------------------------- the mode, by index

  function DecisionAt(log: seq<Event>, k: nat): Option<Mode>
    requires k < |log|
  {
    Decision(IsBuilt(log[..k]), log[k])
  }

  /** Event `k` decided for `mode`, and none after it decided anything. */
  ghost predicate DecidedLast(log: seq<Event>, k: nat, mode: Mode) {
    && k < |log|
    && DecisionAt(log, k) == Some(mode)
    && forall m :: k < m < |log| ==> DecisionAt(log, m).None?
  }

  lemma DecisionsOfPrefix(log: seq<Event>, n: nat)
    requires n <= |log|
    ensures forall k :: 0 <= k < n ==> DecisionAt(log[..n], k) == DecisionAt(log, k)
  {
    hide Decision, IsBuilt;
    var earlier := log[..n];
    forall k | 0 <= k < n
      ensures DecisionAt(log[..n], k) == DecisionAt(log, k)
    {
      assert earlier[..k] == log[..k];
    }
  }

  lemma LastDecision(spawned: Mode, log: seq<Event>)
    requires log != []
    ensures ModeAfter(spawned, log) == Or(DecisionAt(log, |log| - 1), ModeAfter(spawned, log[..|log| - 1]))
  {
  }

  lemma {:induction false} ModeAfterIff(spawned: Mode, log: seq<Event>, mode: Mode)
    requires mode != spawned
    ensures ModeAfter(spawned, log) == mode <==> exists k: nat :: DecidedLast(log, k, mode)
    decreases |log|
  {
    hide Decision, IsBuilt, DecisionAt;
    if log != [] {
      LastDecision(spawned, log);
      var earlier, last := log[..|log| - 1], |log| - 1;
      DecisionsOfPrefix(log, last);
      ModeAfterIff(spawned, earlier, mode);
      if DecisionAt(log, last).None? {
        if k: nat :| DecidedLast(earlier, k, mode) {
          assert DecidedLast(log, k, mode);
        }
        if k: nat :| DecidedLast(log, k, mode) {
          assert DecidedLast(earlier, k, mode);
        }
      } else {
        if DecisionAt(log, last) == Some(mode) {
          assert DecidedLast(log, last, mode);
        }
      }
    }
  }

  /**
   After the collector exists, the last of its making, Pause, Resume, Shutdown, an unsupported sample
   and the sample of a paused start decides the mode: exactly those runs are paused whose last decision
   was to pause, and so for running and stopped. A shutdown decides before the start too.
   */
  lemma ModeIsLastDecision(interval: nat, immediately: bool, made: Collector, steps: seq<Step>, mode: Mode)
    requires mode == Running || mode == Paused || mode == Stopped
    ensures var e := Run(Initial(interval, immediately, made), steps).engine;
            e.mode == mode <==> exists k: nat :: DecidedLast(e.log, k, mode)
  {
    FollowsRun(interval, immediately, made, steps);
    hide Run, Initial, DecidedLast;
    ModeAfterIff(SpawnedMode(immediately), Run(Initial(interval, immediately, made), steps).engine.log, mode);
  }

  // ----------------------------------------------- the deadline, by index

  lemma {:induction false} BuiltStays(log: seq<Event>, k: nat, n: nat)
    requires k <= n <= |log| && IsBuilt(log[..k])
    ensures IsBuilt(log[..n])
  {
    var i :| 0 <= i < |log[..k]| && log[..k][i].Built?;
    assert log[..n][i].Built?;
  }

  /** The collector is made once. */
  lemma BuiltOnce(log: seq<Event>, k: nat, m: nat)
    requires k <= m < |log| && Count(log).built <= 1 && IsBuilt(log[..k])
    ensures !log[m].Built?
  {
    hide Add, Count;
    BuiltStays(log, k, m);
    BuiltCounts(log, m);
    CountNext(log, m);
    PrefixLawful(log, m + 1);
    BuiltAdds(Count(log[..m]), log[m]);
  }

  lemma BuiltAdds(t: Tally, ev: Event)
    ensures Add(t, ev).built == t.built + if ev.Built? then 1 else 0
  {
    hide Lawful, Asks;
    match ev
    case Built(_) =>
    case CellWritten(_) =>
    case Handled(_, _) =>
    case Sampled(_, _, _, _, _, _) =>
  }

  lemma {:induction false} BuiltCounts(log: seq<Event>, n: nat)
    requires n <= |log| && IsBuilt(log[..n])
    ensures Count(log[..n]).built >= 1
    decreases n
  {
    hide Add, Count;
    var i :| 0 <= i < |log[..n]| && log[..n][i].Built?;
    CountNext(log, n - 1);
    BuiltAdds(Count(log[..n - 1]), log[n - 1]);
    if i < n - 1 {
      assert log[..n - 1][i].Built?;
      BuiltCounts(log, n - 1);
    }
  }

  /** Nothing that a fresh deadline or the running mode would not survive. */
  predicate Leaves(ev: Event) {
    !ev.Sampled? && !(ev.Handled? && (ev.cmd.SetInterval? || ev.cmd.Pause? || ev.cmd.Shutdown?))
  }

  lemma {:induction false} ResumeStands(spawned: Mode, log: seq<Event>, k: nat, n: nat)
    requires k < n <= |log| && Count(log).built <= 1
    requires log[k].Handled? && log[k].cmd.Resume? && IsBuilt(log[..k]) && ModeAfter(spawned, log[..k]) == Paused
    requires forall m :: k < m < n ==> Leaves(log[m])
    ensures ModeAfter(spawned, log[..n]) == Running && Due(spawned, log[..n]) == log[k].handledAt
    decreases n
  {
    hide IsBuilt, ModeAfter, Due, LastTick, Count;
    var earlier, ev := log[..n - 1], log[n - 1];
    assert log[..n] == earlier + [ev];
    OneMore(spawned, 0, earlier, ev);
    OneMoreDue(spawned, earlier, ev);
    BuiltStays(log, k, n - 1);
    if n > k + 1 {
      ResumeStands(spawned, log, k, n - 1);
      BuiltOnce(log, k, n - 1);
      assert Leaves(ev);
    }
  }

  /**
   Leaving a pause shows fresh data right away: after a Resume that was handled while paused the
   engine runs, and until it has sampled, is paused or shut down, or gets another interval, any look
   of the loop head samples.
   */
  lemma ResumeSamplesAtOnce(interval: nat, immediately: bool, made: Collector, steps: seq<Step>, k: nat, t: nat, outcome: Outcome)
    requires var log := Run(Initial(interval, immediately, made), steps).engine.log;
             && k < |log| && IsResume(log[k]) && IsBuilt(log[..k]) && ModeAfter(SpawnedMode(immediately), log[..k]) == Paused
             && forall m :: k < m < |log| ==> Leaves(log[m])
    ensures var w := Run(Initial(interval, immediately, made), steps);
            w.engine.mode == Running && TickAt(w, t, outcome) == Some(Later(w, t))
  {
    KeptRun(interval, immediately, made, steps);
    HandledInTime(interval, immediately, made, steps, k);
    StateFollowsLog(interval, immediately, made, steps, t, outcome);
    hide Run, Initial, ModeAfter, Due, IsBuilt, Count, TickAt, Truthful;
    var log := Run(Initial(interval, immediately, made), steps).engine.log;
    assert log[..|log|] == log;
    ResumeStands(SpawnedMode(immediately), log, k, |log|);
    BuiltStays(log, k, |log|);
  }

  /** Nothing in the log is dated in the future. */
  predicate NotAfter(log: seq<Event>, now: nat) {
    forall k :: 0 <= k < |log| && log[k].Handled? ==> log[k].handledAt <= now
  }

  /** Everything new in the log is dated `now`. */
  predicate Extends(before: seq<Event>, after: seq<Event>, now: nat) {
    && |before| <= |after|
    && after[..|before|] == before
    && forall k :: |before| <= k < |after| && after[k].Handled? ==> after[k].handledAt == now
  }

  lemma SampleExtends(e: Engine, cause: Cause, now: nat, outcome: Outcome)
    ensures Extends(e.log, Sample(e, cause, now, outcome).log, now)
  {
  }

  lemma EnterExtends(e: Engine, made: Collector, now: nat, outcome: Outcome)
    ensures Extends(e.log, Enter(e, made, now, outcome).log, now)
  {
    SampleExtends(Configured(e, made, now), FirstWhilePaused, now, outcome);
  }

  lemma ParkedExtends(e: Engine, cmd: Cmd, made: Collector, now: nat, outcome: Outcome)
    ensures Extends(e.log, Parked(e, cmd, made, now, outcome).log, now)
  {
    EnterExtends(e.(log := e.log + [Handled(cmd, now)]), made, now, outcome);
    hide Enter;
  }

  lemma HandleExtends(e: Engine, cmd: Cmd, now: nat, outcome: Outcome)
    requires e.collector.Some?
    ensures Extends(e.log, Handle(e, cmd, now, outcome).log, now)
  {
    SampleExtends(e.(log := e.log + [Handled(cmd, now)], lastTick := now), Forced, now, outcome);
    hide Sample;
  }

  lemma NotAfterStep(w: World, step: Step)
    requires NotAfter(w.engine.log, w.now)
    ensures NotAfter(Next(w, step).engine.log, Next(w, step).now)
  {
    var e := w.engine;
    hide Enter, Parked, Handle, Sample;
    match step
    case EngineTakes(t, outcome) =>
      EnterExtends(e, w.made, Later(w, t), outcome);
      if w.queue != [] {
        ParkedExtends(e, w.queue[0], w.made, Later(w, t), outcome);
        if e.collector.Some? {
          HandleExtends(e, w.queue[0], Later(w, t), outcome);
        }
      }
      NotAfterExtends(e.log, Next(w, step).engine.log, w.now, Later(w, t));
    case EngineLooks(t, outcome) =>
      SampleExtends(e.(lastTick := Later(w, t)), Cadence, Later(w, t), outcome);
      NotAfterExtends(e.log, Next(w, step).engine.log, w.now, Later(w, t));
    case _ =>
  }

  lemma NotAfterExtends(before: seq<Event>, after: seq<Event>, was: nat, now: nat)
    requires NotAfter(before, was) && was <= now && (Extends(before, after, now) || before == after)
    ensures NotAfter(after, now)
  {
    assert forall k :: 0 <= k < |before| && k < |after| ==> after[k] == before[k];
  }

  lemma {:induction false} HandledInTime(interval: nat, immediately: bool, made: Collector, steps: seq<Step>, k: nat)
    ensures var w := Run(Initial(interval, immediately, made), steps);
            k < |w.engine.log| && w.engine.log[k].Handled? ==> w.engine.log[k].handledAt <= w.now
    ensures NotAfter(Run(Initial(interval, immediately, made), steps).engine.log, Run(Initial(interval, immediately, made), steps).now)
    decreases |steps|
  {
    if steps != [] {
      hide Next;
      HandledInTime(interval, immediately, made, steps[..|steps| - 1], k);
      NotAfterStep(Run(Initial(interval, immediately, made), steps[..|steps| - 1]), steps[|steps| - 1]);
    }
  }

  lemma {:induction false} LastTickIs(log: seq<Event>, i: nat, n: nat)
    requires i < n <= |log| && log[i].Sampled?
    requires forall m :: i < m < n ==> !log[m].Sampled? && !log[m].Built?
    ensures LastTick(log[..n]) == log[i].at
    decreases n
  {
    hide LastTick, IsBuilt, ModeAfter, Truthful, LastReport, IntervalAfter;
    assert log[..n] == log[..n - 1] + [log[n - 1]];
    OneMore(NotStarted, 0, log[..n - 1], log[n - 1]);
    if n > i + 1 {
      LastTickIs(log, i, n - 1);
    }
  }

  lemma {:induction false} SetIntervalStands(spawned: Mode, log: seq<Event>, k: nat, n: nat)
    requires k < n <= |log| && Count(log).built <= 1
    requires log[k].Handled? && log[k].cmd.SetInterval? && IsBuilt(log[..k])
    requires forall m :: k < m < n ==> !log[m].Sampled? && !Rearms(log[m])
    ensures Due(spawned, log[..n]) == LastTick(log[..k]) + log[k].cmd.interval
    decreases n
  {
    hide IsBuilt, ModeAfter, Due, LastTick, Count;
    var earlier, ev := log[..n - 1], log[n - 1];
    assert log[..n] == earlier + [ev];
    OneMoreDue(spawned, earlier, ev);
    if n > k + 1 {
      SetIntervalStands(spawned, log, k, n - 1);
      BuiltOnce(log, k, n - 1);
      assert !ev.Sampled? && !Rearms(ev);
    }
  }

  /** Samples are taken by a collector. */
  lemma {:induction false} SampledIsBuilt(spawned: Mode, initial: nat, log: seq<Event>, i: nat, n: nat)
    requires i < n <= |log| && Truthful(spawned, initial, log[..n]) && log[i].Sampled?
    ensures IsBuilt(log[..i])
    decreases n
  {
    hide IsBuilt, ModeAfter, Due, IntervalAfter;
    assert log[..n][..n - 1] == log[..n - 1];
    if i < n - 1 {
      SampledIsBuilt(spawned, initial, log, i, n - 1);
    }
  }

  /**
   A new interval counts from the last sample: with `i` the last sample and `k` a SetInterval after
   it, nothing sampled or re-armed since, a running engine's next tick is due exactly `interval`
   after sample `i`, neither earlier nor later.
   */
  lemma SetIntervalCountsFromLastSample(interval: nat, immediately: bool, made: Collector, steps: seq<Step>,
                                        i: nat, k: nat, t: nat, outcome: Outcome)
    requires var log := Run(Initial(interval, immediately, made), steps).engine.log;
             && i < k < |log| && log[i].Sampled? && log[k].Handled? && log[k].cmd.SetInterval?
             && (forall m :: i < m < |log| ==> !log[m].Sampled?)
             && (forall m :: k < m < |log| ==> !Rearms(log[m]))
    ensures var w := Run(Initial(interval, immediately, made), steps);
            var log := w.engine.log;
            w.engine.mode == Running ==>
              TickAt(w, t, outcome) == if Later(w, t) >= log[i].at + log[k].cmd.interval then Some(Later(w, t)) else None
  {
    KeptRun(interval, immediately, made, steps);
    StateFollowsLog(interval, immediately, made, steps, t, outcome);
    hide Run, Initial, ModeAfter, Due, LastTick, IsBuilt, Count, TickAt, Truthful;
    var spawned, log := SpawnedMode(immediately), Run(Initial(interval, immediately, made), steps).engine.log;
    assert log[..|log|] == log;
    SampledIsBuilt(spawned, interval, log, i, |log|);
    BuiltStays(log, i, k);
    BuiltStays(log, i, |log|);
    forall m | i < m < |log|
      ensures !log[m].Built?
    {
      BuiltOnce(log, i, m);
    }
    LastTickIs(log, i, k);
    SetIntervalStands(spawned, log, k, |log|);
  }

  // ---------------------------------------------------- a paused start

  /** The last Pause or Resume handled was a Pause. */
  predicate PauseStands(log: seq<Event>) {
    exists i :: 0 <= i < |log| && IsPause(log[i]) && forall k :: i < k < |log| ==> !IsResume(log[k])
  }

  /**
   When the collector is made it takes one sample if a Pause stands, and none otherwise, and then
   the engine is paused or running accordingly.
   */
  lemma PausedStartSamplesOnce(interval: nat, immediately: bool, made: Collector, steps: seq<Step>, t: nat, outcome: Outcome)
    requires var w := Run(Initial(interval, immediately, made), steps);
             w.engine.collector.None? && Next(w, EngineTakes(t, outcome)).engine.collector.Some?
    ensures var w := Run(Initial(interval, immediately, made), steps);
            var n := Next(w, EngineTakes(t, outcome)).engine;
            var begun := w.engine.log + (if immediately then [] else [Handled(Start, Later(w, t))]) + [Built(Later(w, t))];
            && n.mode == (if PauseStands(w.engine.log) then Paused else Running)
            && (if PauseStands(w.engine.log) then
                  |n.log| == |begun| + 1 && n.log[..|begun|] == begun
                  && IsFirst(n.log[|begun|]) && n.log[|begun|].at == Later(w, t) && n.log[|begun|].outcome == outcome
                else n.log == begun)
  {
    KeptRun(interval, immediately, made, steps);
    FollowsRun(interval, immediately, made, steps);
    hide Run, Initial, Due, LastTick, IsBuilt, Count, Truthful, ModeAfter, IntervalAfter, LastReport, PauseStands;
    var w := Run(Initial(interval, immediately, made), steps);
    QuietIffPauseStands(w.engine.log);
    assert w.engine.pendingPaused <==> PauseStands(w.engine.log);
    assert w.engine.mode == Stopped || w.engine.mode == SpawnedMode(immediately);
    hide Kept, Follows;
    StartsOnce(w, immediately, t, outcome);
  }

  lemma QuietIffPauseStands(log: seq<Event>)
    ensures Count(log).quiet <==> PauseStands(log)
  {
    hide Count;
    assert log[..|log|] == log;
    if Count(log).quiet {
      QuietSincePause(log, |log|);
    }
    if PauseStands(log) {
      var i :| 0 <= i < |log| && IsPause(log[i]) && forall k :: i < k < |log| ==> !IsResume(log[k]);
      QuietSince(log, i, |log|);
    }
  }

  lemma StartsOnce(w: World, immediately: bool, t: nat, outcome: Outcome)
    requires w.engine.mode == Stopped || w.engine.mode == SpawnedMode(immediately)
    requires w.engine.collector.None? && Next(w, EngineTakes(t, outcome)).engine.collector.Some?
    ensures var n := Next(w, EngineTakes(t, outcome)).engine;
            var begun := w.engine.log + (if immediately then [] else [Handled(Start, Later(w, t))]) + [Built(Later(w, t))];
            && n.mode == (if w.engine.pendingPaused then Paused else Running)
            && (if w.engine.pendingPaused then
                  |n.log| == |begun| + 1 && n.log[..|begun|] == begun
                  && IsFirst(n.log[|begun|]) && n.log[|begun|].at == Later(w, t) && n.log[|begun|].outcome == outcome
                else n.log == begun)
  {
    var h := if immediately then w.engine else w.engine.(log := w.engine.log + [Handled(Start, Later(w, t))]);
    EnterBegins(h, w.made, Later(w, t), outcome);
    hide Enter;
    assert w.engine.log + [] == w.engine.log;
  }

  lemma EnterBegins(e: Engine, made: Collector, now: nat, outcome: Outcome)
    ensures var n := Enter(e, made, now, outcome);
            var begun := e.log + [Built(now)];
            && n.mode == (if e.pendingPaused then Paused else Running)
            && (if e.pendingPaused then
                  |n.log| == |begun| + 1 && n.log[..|begun|] == begun
                  && IsFirst(n.log[|begun|]) && n.log[|begun|].at == now && n.log[|begun|].outcome == outcome
                else n.log == begun)
  {
  }

  // -------------------------------------------- commands are taken in order

  /** The commands handled, oldest first. */
  function Commands(log: seq<Event>): seq<Cmd> {
    if log == [] then []
    else Commands(log[..|log| - 1]) + if log[|log| - 1].Handled? then [log[|log| - 1].cmd] else []
  }

  /** What a step puts into the channel. */
  function PushedBy(w: World, step: Step): seq<Cmd> {
    match step
    case Send(cmd) => if cmd.SetInterval? then [] else [cmd]
    case IntervalSend(i) => if w.halfDone > 0 then [SetInterval(i)] else []
    case AppDemand(d) => if d != w.app.lastDemand then [SetDemand(d)] else []
    case AppSurface(visible) =>
      if visible == w.app.surfaceVisible then []
      else if visible then [SetBackground(false), Refresh]
      else [SetBackground(true)]
    case _ => []
  }

  function Pushed(w: World, steps: seq<Step>): seq<Cmd> {
    if steps == [] then []
    else
      var earlier := steps[..|steps| - 1];
      Pushed(w, earlier) + PushedBy(Run(w, earlier), steps[|steps| - 1])
  }

  lemma {:induction false} CommandsAppend(a: seq<Event>, b: seq<Event>)
    ensures Commands(a + b) == Commands(a) + Commands(b)
    decreases |b|
  {
    if b == [] {
      assert a + b == a;
    } else {
      assert (a + b)[..|a + b| - 1] == a + b[..|b| - 1];
      CommandsAppend(a, b[..|b| - 1]);
    }
  }

  lemma CommandsOne(log: seq<Event>, ev: Event)
    ensures Commands(log + [ev]) == Commands(log) + if ev.Handled? then [ev.cmd] else []
  {
    assert (log + [ev])[..|log|] == log;
  }

  lemma SampleCommands(e: Engine, cause: Cause, now: nat, outcome: Outcome)
    ensures Commands(Sample(e, cause, now, outcome).log) == Commands(e.log)
  {
    CommandsOne(e.log, Sampled(cause, now, outcome, e.mode, e.nextDue, e.interval));
    hide Commands;
  }

  lemma EnterCommands(e: Engine, made: Collector, now: nat, outcome: Outcome)
    ensures Commands(Enter(e, made, now, outcome).log) == Commands(e.log)
  {
    hide Commands, Sample;
    CommandsOne(e.log, Built(now));
    SampleCommands(Configured(e, made, now), FirstWhilePaused, now, outcome);
  }

  lemma TakenCommand(e: Engine, cmd: Cmd, made: Collector, now: nat, outcome: Outcome)
    ensures Commands((if e.collector.None? then Parked(e, cmd, made, now, outcome) else Handle(e, cmd, now, outcome)).log) ==
            Commands(e.log) + [cmd]
  {
    hide Commands, Sample, Enter;
    CommandsOne(e.log, Handled(cmd, now));
    var h := e.(log := e.log + [Handled(cmd, now)]);
    EnterCommands(h, made, now, outcome);
    SampleCommands(h.(lastTick := now), Forced, now, outcome);
  }

  lemma CommandsStep(w: World, step: Step)
    ensures var n := Next(w, step);
            Commands(n.engine.log) + n.queue == Commands(w.engine.log) + w.queue + PushedBy(w, step)
  {
    hide Commands, Sample, Enter, Parked, Handle;
    var e := w.engine;
    match step
    case IntervalWrite(i) => CommandsOne(e.log, CellWritten(i));
    case EngineTakes(t, outcome) =>
      EnterCommands(e, w.made, Later(w, t), outcome);
      if w.queue != [] {
        TakenCommand(e, w.queue[0], w.made, Later(w, t), outcome);
        assert w.queue == [w.queue[0]] + w.queue[1..];
      }
    case EngineLooks(t, outcome) =>
      SampleCommands(e.(lastTick := Later(w, t)), Cadence, Later(w, t), outcome);
    case _ =>
  }

  /** Conservation of commands: over every run, what was handled and what is still queued is what was sent, in that order. */
  lemma {:induction false} CommandsInOrder(interval: nat, immediately: bool, made: Collector, steps: seq<Step>)
    ensures var w := Run(Initial(interval, immediately, made), steps);
            Commands(w.engine.log) + w.queue == Pushed(Initial(interval, immediately, made), steps)
    decreases |steps|
  {
    if steps != [] {
      hide Next, Commands, PushedBy;
      CommandsInOrder(interval, immediately, made, steps[..|steps| - 1]);
      CommandsStep(Run(Initial(interval, immediately, made), steps[..|steps| - 1]), steps[|steps| - 1]);
    }
  }

  /** The `set_interval` calls between their write and their send: each write opens one, each send closes one. */
  function Writing(steps: seq<Step>): nat {
    if steps == [] then 0
    else
      var before, step := Writing(steps[..|steps| - 1]), steps[|steps| - 1];
      if step.IntervalWrite? then before + 1
      else if step.IntervalSend? && before > 0 then before - 1
      else before
  }

  lemma {:induction false} HalfDoneIsWriting(interval: nat, immediately: bool, made: Collector, steps: seq<Step>)
    ensures Run(Initial(interval, immediately, made), steps).halfDone == Writing(steps)
    decreases |steps|
  {
    if steps != [] {
      hide Enter, Parked, Handle, CadenceCheck;
      HalfDoneIsWriting(interval, immediately, made, steps[..|steps| - 1]);
    }
  }

  /** With every `set_interval` complete and the channel empty, a started engine runs on the interval last sent. */
  lemma IntervalAgrees(interval: nat, immediately: bool, made: Collector, steps: seq<Step>)
    ensures var w := Run(Initial(interval, immediately, made), steps);
            Started(w.engine) && w.queue == [] && Writing(steps) == 0 ==> w.engine.interval == w.sentInterval
  {
    ConfigurationAgrees(interval, immediately, made, steps);
    HalfDoneIsWriting(interval, immediately, made, steps);
  }
}
