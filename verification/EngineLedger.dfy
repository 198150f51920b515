/** What every run of the sampling engine keeps, read off its log. */
module EngineLedger {
  import opened Common
  import opened Engine

  /**
   A summary of a log. `arm` is the next cadence deadline as of the last sample,
   forgotten when a Resume or SetInterval is handled; `cell` the interval read by the
   last sample, forgotten when the shared cell is written; `quiet` holds from a Pause
   to the next Resume; `owed` from a handled Refresh or SampleNow to its sample. The
   last four say that the log obeyed the rules so far.
   */
  datatype Tally = Tally(
    good: nat,
    lastGood: Option<nat>,
    failedInARow: nat,
    built: nat,
    asked: nat,
    forced: nat,
    first: nat,
    arm: Option<nat>,
    cell: Option<nat>,
    lastAt: nat,
    quiet: bool,
    owed: bool,
    lawful: bool,
    spaced: bool,
    steady: bool,
    timely: bool)

  const BLANK := Tally(0, None, 0, 0, 0, 0, 0, None, None, 0, false, false, true, true, true, true)

  /** Commands that ask for a sample at once. */
  predicate Asks(cmd: Cmd) {
    cmd.Refresh? || cmd.SampleNow?
  }

  function Add(t: Tally, ev: Event): Tally {
    match ev
    case Built(_) => t.(built := t.built + 1, lawful := t.lawful && !t.owed)
    case CellWritten(_) => t.(cell := None, lawful := t.lawful && !t.owed)
    case Handled(cmd, _) =>
      t.(asked := t.asked + (if t.built > 0 && Asks(cmd) then 1 else 0),
         arm := if cmd.Resume? || cmd.SetInterval? then None else t.arm,
         cell := if cmd.SetInterval? then None else t.cell,
         quiet := if cmd.Pause? then true else if cmd.Resume? then false else t.quiet,
         owed := t.built > 0 && Asks(cmd),
         lawful := t.lawful && !t.owed)
    case Sampled(cause, at, outcome, mode, due, interval) =>
      t.(good := t.good + (if outcome.Good? then 1 else 0),
         lastGood := if outcome.Good? then Some(outcome.snapshot) else t.lastGood,
         failedInARow := if outcome.Good? then 0 else if outcome.Failed? then t.failedInARow + 1 else t.failedInARow,
         forced := t.forced + (if cause.Forced? then 1 else 0),
         first := t.first + (if cause.FirstWhilePaused? then 1 else 0),
         arm := Some(at + interval),
         cell := Some(interval),
         lastAt := at,
         owed := false,
         lawful := t.lawful && Lawful(t, cause, at, mode, due),
         spaced := t.spaced && (cause.Cadence? && t.arm.Some? ==> at >= t.arm.value),
         steady := t.steady && (t.cell.Some? ==> interval == t.cell.value),
         timely := t.timely && at >= t.lastAt)
  }

  /** What may cause a sample: a due cadence, the command just handled, or a pause from before the start. */
  predicate Lawful(t: Tally, cause: Cause, at: nat, mode: Mode, due: nat) {
    && t.built > 0
    && (cause.Forced? <==> t.owed)
    && (cause.Cadence? ==> mode == Running && at >= due && !t.quiet)
    && (cause.FirstWhilePaused? ==> t.quiet && t.first == 0)
  }

  function Count(log: seq<Event>): Tally {
    if log == [] then BLANK else Add(Count(log[..|log| - 1]), log[|log| - 1])
  }

  lemma CountAppend(log: seq<Event>, ev: Event)
    ensures Count(log + [ev]) == Add(Count(log), ev)
  {
    assert (log + [ev])[..|log|] == log;
  }

  lemma CountNext(log: seq<Event>, n: nat)
    requires n < |log|
    ensures Count(log[..n + 1]) == Add(Count(log[..n]), log[n])
  {
    assert log[..n + 1] == log[..n] + [log[n]];
    CountAppend(log[..n], log[n]);
  }

  /** The engine's variables agree with its log. */
  ghost predicate Kept(e: Engine, now: nat) {
    var t := Count(e.log);
    && e.ticks == t.good
    && e.latest == t.lastGood
    && e.failures == t.failedInARow
    && t.built == (if e.collector.Some? then 1 else 0)
    && t.forced == t.asked
    && t.first <= t.built
    && (e.collector.None? ==> t.good + t.forced + t.first == 0 && t.arm.None? && t.cell.None? && t.quiet == e.pendingPaused)
    && (e.collector.None? ==> e.mode != Running)
    && (e.mode == Starting ==> e.collector.None?)
    && (e.mode == Running && t.arm.Some? ==> e.nextDue == t.arm.value)
    && (t.cell.Some? ==> e.interval == t.cell.value)
    && (t.quiet ==> e.mode != Running)
    && t.lastAt <= now
    && !t.owed && t.lawful && t.spaced && t.steady && t.timely
  }

  /** A sample taken by a cadence check or a forced one. */
  lemma SampleKept(e: Engine, cause: Cause, now: nat, outcome: Outcome, before: nat)
    requires e.collector.Some? && before <= now
    requires cause.Cadence? ==> Kept(e, before) && e.mode == Running && now >= e.nextDue
    requires cause.Forced? ==> e.log != [] && Kept(e.(log := e.log[..|e.log| - 1]), before)
                               && e.log[|e.log| - 1].Handled? && (e.log[|e.log| - 1].cmd.Refresh? || e.log[|e.log| - 1].cmd.SampleNow?)
    requires !cause.FirstWhilePaused?
    ensures var s := Sample(e.(lastTick := now), cause, now, outcome);
            Kept(s.(nextDue := now + s.interval), now)
  {
    var ev := Sampled(cause, now, outcome, e.mode, e.nextDue, e.interval);
    CountAppend(e.log, ev);
    if cause.Forced? {
      CountNext(e.log, |e.log| - 1);
      assert e.log[..|e.log|] == e.log;
    }
    hide Count;
  }

  lemma EnterKept(e: Engine, made: Collector, now: nat, outcome: Outcome, before: nat)
    requires Kept(e, before) && e.collector.None? && before <= now
    ensures Kept(Enter(e, made, now, outcome), now)
  {
    var r := Configured(e, made, now);
    CountAppend(e.log, Built(now));
    CountAppend(r.log, Sampled(FirstWhilePaused, now, outcome, r.mode, r.nextDue, r.interval));
  }

  lemma ParkedKept(e: Engine, cmd: Cmd, made: Collector, now: nat, outcome: Outcome, before: nat)
    requires Kept(e, before) && e.collector.None? && before <= now
    ensures Kept(Parked(e, cmd, made, now, outcome), now)
  {
    CountAppend(e.log, Handled(cmd, now));
    hide Count;
    if cmd.Start? {
      EnterKept(e.(log := e.log + [Handled(cmd, now)]), made, now, outcome, before);
      hide Enter;
    }
  }

  lemma HandleKept(e: Engine, cmd: Cmd, now: nat, outcome: Outcome, before: nat)
    requires Kept(e, before) && e.collector.Some? && before <= now
    ensures Kept(Handle(e, cmd, now, outcome), now)
  {
    CountAppend(e.log, Handled(cmd, now));
    hide Count;
    if cmd.Refresh? || cmd.SampleNow? {
      var h := e.(log := e.log + [Handled(cmd, now)]);
      assert h.log[..|h.log| - 1] == e.log;
      assert h.(log := e.log) == e;
      SampleKept(h, Forced, now, outcome, before);
    }
  }

  lemma CellKept(e: Engine, interval: nat, now: nat)
    requires Kept(e, now)
    ensures Kept(e.(interval := interval, log := e.log + [CellWritten(interval)]), now)
  {
    CountAppend(e.log, CellWritten(interval));
    hide Count;
  }

  lemma KeptLater(e: Engine, before: nat, now: nat)
    requires Kept(e, before) && before <= now
    ensures Kept(e, now)
    ensures e.mode == Starting ==> e.collector.None?
  {
  }

  lemma KeptStep(w: World, step: Step)
    requires Kept(w.engine, w.now)
    ensures Kept(Next(w, step).engine, Next(w, step).now)
  {
    var e := w.engine;
    KeptLater(e, w.now, w.now);
    hide Kept, Sample, Enter, Parked, Handle;
    match step
    case IntervalWrite(i) => CellKept(e, i, w.now);
    case EngineTakes(t, outcome) =>
      if e.mode == Starting {
        EnterKept(e, w.made, Later(w, t), outcome, w.now);
      } else if e.mode != Stopped && w.queue != [] {
        if e.collector.None? {
          ParkedKept(e, w.queue[0], w.made, Later(w, t), outcome, w.now);
        } else {
          HandleKept(e, w.queue[0], Later(w, t), outcome, w.now);
        }
      }
    case EngineLooks(t, outcome) =>
      KeptLater(e, w.now, Later(w, t));
      if e.collector.Some? && e.mode == Running && Later(w, t) >= e.nextDue {
        SampleKept(e, Cadence, Later(w, t), outcome, w.now);
      }
    case _ =>
  }

  lemma {:induction false} KeptRun(interval: nat, immediately: bool, made: Collector, steps: seq<Step>)
    ensures var w := Run(Initial(interval, immediately, made), steps); Kept(w.engine, w.now)
    decreases |steps|
  {
    if steps != [] {
      KeptRun(interval, immediately, made, steps[..|steps| - 1]);
      KeptStep(Run(Initial(interval, immediately, made), steps[..|steps| - 1]), steps[|steps| - 1]);
    }
  }

  /**
   The ledger over every run: the tick counter counts the published snapshots and the
   last one is shown; the factory runs at most once; as many samples were forced as
   Refresh and SampleNow commands were handled by the loop; at most one sample honours
   an earlier pause; and `failures` counts the failures since the last success.
   */
  lemma EngineKeepsLedger(interval: nat, immediately: bool, made: Collector, steps: seq<Step>)
    ensures var e := Run(Initial(interval, immediately, made), steps).engine;
            var t := Count(e.log);
            && e.ticks == t.good && e.latest == t.lastGood && e.failures == t.failedInARow
            && t.built <= 1 && (t.built == 1 <==> e.collector.Some?)
            && t.forced == t.asked && t.first <= t.built
  {
    KeptRun(interval, immediately, made, steps);
  }

  // ------------------------------------------------ reading the log back

  lemma {:induction false} PrefixLawful(log: seq<Event>, n: nat)
    requires n <= |log|
    ensures Obeys(Count(log), Count(log[..n]))
    decreases |log| - n
  {
    hide Count, Add;
    if n < |log| {
      CountNext(log, n);
      PrefixLawful(log, n + 1);
      ObeysStep(Count(log[..n]), log[n]);
    } else {
      assert log[..n] == log;
    }
  }

  lemma ObeysStep(t: Tally, ev: Event)
    ensures Obeys(Add(t, ev), t)
  {
  }

  /** Whatever rule the longer log obeys, the shorter one did. */
  predicate Obeys(t: Tally, p: Tally) {
    && (t.lawful ==> p.lawful) && (t.spaced ==> p.spaced) && (t.steady ==> p.steady) && (t.timely ==> p.timely)
    && p.built <= t.built
  }

  predicate IsCadence(ev: Event) {
    ev.Sampled? && ev.cause.Cadence?
  }

  predicate IsPause(ev: Event) {
    ev.Handled? && ev.cmd.Pause?
  }

  predicate IsResume(ev: Event) {
    ev.Handled? && ev.cmd.Resume?
  }

  predicate Rearms(ev: Event) {
    ev.Handled? && (ev.cmd.Resume? || ev.cmd.SetInterval?)
  }

  /** Cadence samples are taken only in Running, at or after the deadline, and only once the collector exists. */
  lemma CadenceOnlyWhenDue(interval: nat, immediately: bool, made: Collector, steps: seq<Step>, j: nat)
    requires j < |Run(Initial(interval, immediately, made), steps).engine.log|
    requires IsCadence(Run(Initial(interval, immediately, made), steps).engine.log[j])
    ensures var log := Run(Initial(interval, immediately, made), steps).engine.log;
            log[j].mode == Running && log[j].at >= log[j].due && Count(log[..j]).built == 1
  {
    KeptRun(interval, immediately, made, steps);
    hide Run, Initial;
    var log := Run(Initial(interval, immediately, made), steps).engine.log;
    PrefixLawful(log, j + 1);
    CountNext(log, j);
    hide Count;
  }

  lemma {:induction false} QuietSince(log: seq<Event>, i: nat, n: nat)
    requires i < n <= |log|
    requires IsPause(log[i])
    requires forall k :: i < k < n ==> !IsResume(log[k])
    ensures Count(log[..n]).quiet
    decreases n
  {
    hide Count, Add, IsPause, IsResume;
    CountNext(log, n - 1);
    QuietStep(Count(log[..n - 1]), log[n - 1]);
    if n > i + 1 {
      QuietSince(log, i, n - 1);
    }
  }

  lemma QuietLog(log: seq<Event>, i: nat, j: nat)
    requires Count(log).lawful && i < j < |log|
    requires IsPause(log[i])
    requires forall k :: i < k < j ==> !IsResume(log[k])
    ensures !IsCadence(log[j])
  {
    hide Count;
    QuietSince(log, i, j);
    PrefixLawful(log, j + 1);
    CountNext(log, j);
  }

  /** From a Pause to the next Resume the cadence stays silent, also when the Pause came before the start. */
  lemma PauseSilencesCadence(interval: nat, immediately: bool, made: Collector, steps: seq<Step>, i: nat, j: nat)
    requires var log := Run(Initial(interval, immediately, made), steps).engine.log;
             && i < j < |log| && IsPause(log[i])
             && forall k :: i < k < j ==> !IsResume(log[k])
    ensures !IsCadence(Run(Initial(interval, immediately, made), steps).engine.log[j])
  {
    KeptRun(interval, immediately, made, steps);
    hide Run, Count, Initial;
    QuietLog(Run(Initial(interval, immediately, made), steps).engine.log, i, j);
  }

  /** The deadline left by sample `i` stands until something re-arms it or samples again. */
  lemma {:induction false} ArmStands(log: seq<Event>, i: nat, n: nat)
    requires i < n <= |log| && log[i].Sampled?
    requires forall k :: i < k < n ==> !log[k].Sampled? && !Rearms(log[k])
    ensures Count(log[..n]).arm == Some(log[i].at + log[i].interval)
    decreases n
  {
    hide Count, Add, Rearms;
    CountNext(log, n - 1);
    ArmStep(Count(log[..n - 1]), log[n - 1]);
    if n > i + 1 {
      ArmStands(log, i, n - 1);
    }
  }

  lemma ArmStep(t: Tally, ev: Event)
    ensures ev.Sampled? ==> Add(t, ev).arm == Some(ev.at + ev.interval)
    ensures !ev.Sampled? && !Rearms(ev) ==> Add(t, ev).arm == t.arm
  {
  }

  lemma CadenceAt(log: seq<Event>, i: nat, j: nat)
    requires i < j < |log| && log[i].Sampled? && IsCadence(log[j])
    requires Count(log).spaced
    requires Count(log[..j]).arm.Some? && Count(log[..j]).arm.value >= log[i].at + log[i].interval
    ensures log[j].at >= log[i].at + log[i].interval
  {
    PrefixLawful(log, j + 1);
    CountNext(log, j);
    hide Count;
  }

  /** A cadence tick comes no sooner than the interval the previous sample read, unless re-armed in between. */
  lemma CadenceAfterSample(interval: nat, immediately: bool, made: Collector, steps: seq<Step>, i: nat, j: nat)
    requires var log := Run(Initial(interval, immediately, made), steps).engine.log;
             && i < j < |log| && log[i].Sampled? && IsCadence(log[j])
             && forall k :: i < k < j ==> !log[k].Sampled? && !Rearms(log[k])
    ensures var log := Run(Initial(interval, immediately, made), steps).engine.log;
            log[j].at >= log[i].at + log[i].interval
  {
    KeptRun(interval, immediately, made, steps);
    hide Run, Count, Initial;
    var log := Run(Initial(interval, immediately, made), steps).engine.log;
    ArmStands(log, i, j);
    CadenceAt(log, i, j);
  }

  /** From sample `i` on, the remembered cell and deadline keep the interval it read. */
  ghost predicate Steady(t: Tally, at: nat, interval: nat) {
    && t.arm.Some? && t.arm.value >= at + interval
    && t.cell == Some(interval) && t.lastAt >= at
  }

  lemma SteadyStart(t: Tally, ev: Event)
    requires ev.Sampled? && Add(t, ev).timely
    ensures Steady(Add(t, ev), ev.at, ev.interval)
  {
  }

  lemma SteadyStep(t: Tally, ev: Event, at: nat, interval: nat)
    requires Steady(t, at, interval)
    requires Add(t, ev).steady && Add(t, ev).timely && !Rearms(ev) && !ev.CellWritten?
    ensures Steady(Add(t, ev), at, interval)
  {
  }

  lemma {:induction false} SteadyArm(log: seq<Event>, i: nat, n: nat)
    requires i < n <= |log| && log[i].Sampled?
    requires Count(log).steady && Count(log).timely
    requires forall k :: i < k < n ==> !Rearms(log[k]) && !log[k].CellWritten?
    ensures Steady(Count(log[..n]), log[i].at, log[i].interval)
    decreases n
  {
    hide Count, Add;
    CountNext(log, n - 1);
    PrefixLawful(log, n);
    if n > i + 1 {
      SteadyArm(log, i, n - 1);
      SteadyStep(Count(log[..n - 1]), log[n - 1], log[i].at, log[i].interval);
    } else {
      SteadyStart(Count(log[..i]), log[i]);
    }
  }

  /**
   Two cadence ticks are at least the interval apart, whatever else is sampled in
   between, as long as no Resume or SetInterval is handled and no handle writes the
   shared cell between them.
   */
  lemma CadenceSpacing(interval: nat, immediately: bool, made: Collector, steps: seq<Step>, i: nat, j: nat)
    requires var log := Run(Initial(interval, immediately, made), steps).engine.log;
             && i < j < |log| && IsCadence(log[i]) && IsCadence(log[j])
             && forall k :: i < k < j ==> !Rearms(log[k]) && !log[k].CellWritten?
    ensures var log := Run(Initial(interval, immediately, made), steps).engine.log;
            log[j].at >= log[i].at + log[i].interval
  {
    KeptRun(interval, immediately, made, steps);
    hide Run, Count, Initial;
    var log := Run(Initial(interval, immediately, made), steps).engine.log;
    SteadyArm(log, i, j);
    CadenceAt(log, i, j);
  }

  predicate IsForced(ev: Event) {
    ev.Sampled? && ev.cause.Forced?
  }

  predicate IsFirst(ev: Event) {
    ev.Sampled? && ev.cause.FirstWhilePaused?
  }

  predicate IsAsk(ev: Event) {
    ev.Handled? && Asks(ev.cmd)
  }

  lemma OwedStep(t: Tally, ev: Event)
    requires Add(t, ev).lawful
    ensures IsForced(ev) <==> t.owed
    ensures Add(t, ev).owed <==> IsAsk(ev) && t.built > 0
  {
  }

  lemma OwedAt(log: seq<Event>, j: nat)
    requires j < |log| && Count(log).lawful
    ensures IsForced(log[j]) <==> Count(log[..j]).owed
    ensures Count(log[..j + 1]).owed <==> IsAsk(log[j]) && Count(log[..j]).built > 0
  {
    hide Count, Add;
    PrefixLawful(log, j + 1);
    CountNext(log, j);
    OwedStep(Count(log[..j]), log[j]);
  }

  lemma NothingOwed(log: seq<Event>)
    ensures log[..|log|] == log && !Count(log[..0]).owed
  {
    assert log[..0] == [];
  }

  /** In a lawful log with nothing owed, forced samples are exactly what directly follows a Refresh or SampleNow. */
  lemma ForcedLog(log: seq<Event>, j: nat)
    requires Count(log).lawful && !Count(log).owed && j < |log|
    ensures IsForced(log[j]) <==> j > 0 && IsAsk(log[j - 1]) && Count(log[..j - 1]).built > 0
    ensures IsAsk(log[j]) && Count(log[..j]).built > 0 ==> j + 1 < |log| && IsForced(log[j + 1])
  {
    hide Count, IsAsk, IsForced;
    NothingOwed(log);
    OwedAt(log, j);
    if j > 0 {
      OwedAt(log, j - 1);
    } else {
      assert log[..j] == log[..0];
    }
    if j + 1 < |log| {
      OwedAt(log, j + 1);
    } else {
      assert log[..j + 1] == log;
    }
  }

  /** Refresh and SampleNow are answered by one sample each, at once; nothing else forces one. */
  lemma ForcedExactlyOnRequest(interval: nat, immediately: bool, made: Collector, steps: seq<Step>, j: nat)
    requires j < |Run(Initial(interval, immediately, made), steps).engine.log|
    ensures var log := Run(Initial(interval, immediately, made), steps).engine.log;
            && (IsForced(log[j]) <==> j > 0 && IsAsk(log[j - 1]) && Count(log[..j - 1]).built > 0)
            && (IsAsk(log[j]) && Count(log[..j]).built > 0 ==> j + 1 < |log| && IsForced(log[j + 1]))
  {
    KeptRun(interval, immediately, made, steps);
    hide Run, Count, Initial;
    ForcedLog(Run(Initial(interval, immediately, made), steps).engine.log, j);
  }

  lemma QuietStep(t: Tally, ev: Event)
    ensures Add(t, ev).quiet <==> IsPause(ev) || (t.quiet && !IsResume(ev))
  {
  }

  lemma NotQuietAtFirst(log: seq<Event>)
    ensures !Count(log[..0]).quiet
  {
    assert log[..0] == [];
  }

  /** Whoever is quiet was paused and not resumed since. */
  lemma {:induction false} QuietSincePause(log: seq<Event>, n: nat)
    requires n <= |log| && Count(log[..n]).quiet
    ensures exists i :: 0 <= i < n && IsPause(log[i]) && forall k :: i < k < n ==> !IsResume(log[k])
    decreases n
  {
    hide Count, Add, IsPause, IsResume;
    NotQuietAtFirst(log);
    if n > 0 {
      CountNext(log, n - 1);
      QuietStep(Count(log[..n - 1]), log[n - 1]);
      if !IsPause(log[n - 1]) {
        QuietSincePause(log, n - 1);
        var i :| 0 <= i < n - 1 && IsPause(log[i]) && forall k :: i < k < n - 1 ==> !IsResume(log[k]);
        assert forall k :: i < k < n ==> !IsResume(log[k]);
      }
    }
  }

  /** The sample of a paused start honours a Pause that no Resume took back, and there is no second one. */
  lemma FirstSampleHonoursPause(interval: nat, immediately: bool, made: Collector, steps: seq<Step>, j: nat)
    requires j < |Run(Initial(interval, immediately, made), steps).engine.log|
    requires IsFirst(Run(Initial(interval, immediately, made), steps).engine.log[j])
    ensures var log := Run(Initial(interval, immediately, made), steps).engine.log;
            && (exists i :: 0 <= i < j && IsPause(log[i]) && forall k :: i < k < j ==> !IsResume(log[k]))
            && Count(log[..j]).first == 0 && Count(log).first == 1
  {
    KeptRun(interval, immediately, made, steps);
    hide Run, Initial;
    var log := Run(Initial(interval, immediately, made), steps).engine.log;
    assert Count(log).lawful && Count(log).first <= 1;
    hide Count, Add, IsFirst, IsPause, IsResume, Kept;
    PrefixLawful(log, j + 1);
    CountNext(log, j);
    FirstStep(Count(log[..j]), log[j]);
    FirstIsLawful(Count(log[..j]), log[j]);
    QuietSincePause(log, j);
    FirstsGrow(log, j + 1);
  }

  lemma {:induction false} FirstsGrow(log: seq<Event>, n: nat)
    requires n <= |log|
    ensures Count(log[..n]).first <= Count(log).first
    decreases |log| - n
  {
    hide Count, Add;
    if n < |log| {
      CountNext(log, n);
      FirstStep(Count(log[..n]), log[n]);
      FirstsGrow(log, n + 1);
    } else {
      assert log[..n] == log;
    }
  }

  lemma FirstStep(t: Tally, ev: Event)
    ensures Add(t, ev).first == t.first + if IsFirst(ev) then 1 else 0
  {
    hide Lawful, Asks;
    match ev
    case Built(_) =>
    case CellWritten(_) =>
    case Handled(_, _) =>
    case Sampled(_, _, _, _, _, _) =>
  }

  lemma FirstIsLawful(t: Tally, ev: Event)
    requires Add(t, ev).lawful && IsFirst(ev)
    ensures t.quiet && t.first == 0
  {
  }

  // ------------------------------------------ exactly when a tick is early

  /** The cadence sample the loop head takes at time `t`, if it takes one. */
  function TickAt(w: World, t: nat, outcome: Outcome): Option<nat> {
    var n := Next(w, EngineLooks(t, outcome)).engine.log;
    if |n| > |w.engine.log| && IsCadence(n[|w.engine.log|]) then Some(n[|w.engine.log|].at) else None
  }

  /** A running engine ticks as soon as it looks at or after its deadline. */
  lemma TicksWhenDue(w: World, t: nat, outcome: Outcome)
    requires w.engine.collector.Some? && w.engine.mode == Running
    ensures TickAt(w, t, outcome) == if Later(w, t) >= w.engine.nextDue then Some(Later(w, t)) else None
  {
  }

  /**
   With sample `k` the last one and nothing re-armed since, no next tick can come less
   than the interval after cadence tick `i` exactly if the deadline that `k` left is no
   earlier, or that much time has passed already.
   */
  lemma CadenceSpacingIff(interval: nat, immediately: bool, made: Collector, steps: seq<Step>, i: nat, k: nat)
    requires var w := Run(Initial(interval, immediately, made), steps);
             var log := w.engine.log;
             && w.engine.mode == Running && i <= k < |log| && IsCadence(log[i]) && log[k].Sampled?
             && forall m :: k < m < |log| ==> !log[m].Sampled? && !Rearms(log[m])
    ensures var w := Run(Initial(interval, immediately, made), steps);
            var log := w.engine.log;
            var bound := log[i].at + log[i].interval;
            (forall t, outcome :: TickAt(w, t, outcome).Some? ==> TickAt(w, t, outcome).value >= bound)
            <==> log[k].at + log[k].interval >= bound || w.now >= bound
  {
    KeptRun(interval, immediately, made, steps);
    hide Run, Initial;
    var w := Run(Initial(interval, immediately, made), steps);
    var log := w.engine.log;
    var bound := log[i].at + log[i].interval;
    assert log[..|log|] == log;
    ArmStands(log, k, |log|);
    assert w.engine.collector.Some? && w.engine.nextDue == log[k].at + log[k].interval;
    hide Kept, Count, TickAt;
    forall t, outcome
      ensures TickAt(w, t, outcome) == if Later(w, t) >= w.engine.nextDue then Some(Later(w, t)) else None
    {
      TicksWhenDue(w, t, outcome);
    }
    if forall t, outcome :: TickAt(w, t, outcome).Some? ==> TickAt(w, t, outcome).value >= bound {
      assert TickAt(w, w.engine.nextDue, Failed).Some?;
    }
  }

  const HURRIED: seq<Step> := [
    EngineTakes(0, Good(1)), EngineLooks(0, Good(1)), IntervalWrite(500), Send(Refresh),
    EngineTakes(1, Good(2)), EngineLooks(501, Good(3))]

  lemma RunNext(w: World, steps: seq<Step>, n: nat)
    requires n < |steps|
    ensures Run(w, steps[..n + 1]) == Next(Run(w, steps[..n]), steps[n])
  {
    assert steps[..n + 1][..n] == steps[..n];
  }

  lemma RunOfSix(w: World, s: seq<Step>)
    requires |s| == 6
    ensures Run(w, s) == Next(Next(Next(Next(Next(Next(w, s[0]), s[1]), s[2]), s[3]), s[4]), s[5])
  {
    hide Next;
    assert Run(w, s[..0]) == w;
    hide Run;
    RunNext(w, s, 0);
    RunNext(w, s, 1);
    RunNext(w, s, 2);
    RunNext(w, s, 3);
    RunNext(w, s, 4);
    RunNext(w, s, 5);
    assert s[..6] == s;
  }

  lemma HurriedStart() returns (w: World)
    ensures w == Next(Next(Next(Initial(1000, true, Collector(0, false)), HURRIED[0]), HURRIED[1]), HURRIED[2])
    ensures w.engine.log == [Built(0), Sampled(Cadence, 0, Good(1), Running, 0, 1000), CellWritten(500)]
    ensures w.engine.mode == Running && w.engine.interval == 500 && w.queue == [] && w.now == 0
    ensures w.engine.collector.Some?
  {
    w := Next(Next(Next(Initial(1000, true, Collector(0, false)), HURRIED[0]), HURRIED[1]), HURRIED[2]);
  }

  /**
   The condition on the cell is needed: a `set_interval` that has written the cell but
   not yet sent its command lets a Refresh shorten the cadence, so a tick can follow the
   previous one after 501 ms of a 1000 ms interval with no SetInterval handled.
   */
  lemma HalfDoneIntervalShortensCadence()
    ensures var log := Run(Initial(1000, true, Collector(0, false)), HURRIED).engine.log;
            && |log| == 6 && IsCadence(log[1]) && IsCadence(log[5])
            && (forall k :: 1 < k < 5 ==> !Rearms(log[k]))
            && log[1].interval == 1000 && log[5].at == log[1].at + 501
  {
    RunOfSix(Initial(1000, true, Collector(0, false)), HURRIED);
    var w3 := HurriedStart();
    var w6 := HurriedEnd(w3);
    hide Run, Next;
  }

  lemma HurriedEnd(w3: World) returns (w6: World)
    requires w3.engine.log == [Built(0), Sampled(Cadence, 0, Good(1), Running, 0, 1000), CellWritten(500)]
    requires w3.engine.mode == Running && w3.engine.interval == 500 && w3.queue == [] && w3.now == 0
    requires w3.engine.collector.Some?
    ensures w6 == Next(Next(Next(w3, HURRIED[3]), HURRIED[4]), HURRIED[5])
    ensures w6.engine.log == w3.engine.log + [
      Handled(Refresh, 1), Sampled(Forced, 1, Good(2), Running, w3.engine.nextDue, 500), Sampled(Cadence, 501, Good(3), Running, 501, 500)]
  {
    var w4 := Next(w3, HURRIED[3]);
    assert w4.queue == [Refresh] && w4.engine == w3.engine && w4.now == 0;
    var w5 := Next(w4, HURRIED[4]);
    assert w5.engine.log == w3.engine.log + [Handled(Refresh, 1), Sampled(Forced, 1, Good(2), Running, w3.engine.nextDue, 500)];
    assert w5.engine.mode == Running && w5.engine.interval == 500 && w5.engine.nextDue == 501 && w5.now == 1;
    w6 := Next(w5, HURRIED[5]);
  }
}
