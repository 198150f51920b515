/**
 The sampling engine: a lazily started, command-driven thread with a deadline
 cadence, and the handles that talk to it.

 Times are milliseconds of a clock that never runs backwards. A snapshot is an
 opaque number and the collector's answer is part of each step. `log` records
 what the thread did, so that statements about whole runs can be read off it.
 */
module Engine {
  import opened Common

  datatype Mode = NotStarted | Starting | Running | Paused | Stopped

  datatype Cmd =
    | Start
    | SetDemand(demand: nat)
    | SetBackground(background: bool)
    | SetInterval(interval: nat)
    | Pause
    | Resume
    | Refresh
    | SampleNow
    | Shutdown

  /** One call of the collector's `sample`. */
  datatype Outcome = Good(snapshot: nat) | Unsupported | Failed

  /** What made the engine sample. */
  datatype Cause = Cadence | Forced | FirstWhilePaused

  datatype Event =
    | Built(builtAt: nat)
    | Sampled(cause: Cause, at: nat, outcome: Outcome, mode: Mode, due: nat, interval: nat)
    | Handled(cmd: Cmd, handledAt: nat)
    | CellWritten(value: nat)

  datatype Collector = Collector(demand: nat, background: bool)

  datatype Engine = Engine(
    mode: Mode,
    latest: Option<nat>,
    interval: nat,
    ticks: nat,
    collector: Option<Collector>,
    pendingDemand: Option<nat>,
    pendingBackground: Option<bool>,
    pendingPaused: bool,
    lastTick: nat,
    nextDue: nat,
    failures: nat,
    lastReport: Option<nat>,
    log: seq<Event>)

  const REPORT_EVERY: nat := 30_000

  /** `spawn_lazy` (parked) or `spawn` (starts at once). */
  function Spawned(interval: nat, immediately: bool): Engine {
    Engine(if immediately then Starting else NotStarted, None, interval, 0, None, None, None, false, 0, 0, 0, None, [])
  }

  /** `TickHealth::sample` with `sample_and_publish`. */
  function Sample(e: Engine, cause: Cause, now: nat, outcome: Outcome): Engine {
    var l := e.(log := e.log + [Sampled(cause, now, outcome, e.mode, e.nextDue, e.interval)]);
    match outcome
    case Good(s) => l.(latest := Some(s), ticks := e.ticks + 1, failures := 0, lastReport := None)
    case Unsupported => l.(mode := Paused)
    case Failed =>
      l.(failures := e.failures + 1,
         lastReport := if e.lastReport.None? || now >= e.lastReport.value + REPORT_EVERY then Some(now) else e.lastReport)
  }

  /** The factory has run: apply what was remembered. */
  function Configured(e: Engine, made: Collector, now: nat): Engine {
    var c := Collector(
      if e.pendingDemand.Some? then e.pendingDemand.value else made.demand,
      if e.pendingBackground.Some? then e.pendingBackground.value else made.background);
    e.(collector := Some(c), pendingDemand := None, pendingBackground := None, mode := Running, log := e.log + [Built(now)])
  }

  /** Configure the new collector and enter the sampling loop, honouring an earlier pause after one sample. */
  function Enter(e: Engine, made: Collector, now: nat, outcome: Outcome): Engine {
    var r := Configured(e, made, now);
    var p := if e.pendingPaused then Sample(r, FirstWhilePaused, now, outcome).(mode := Paused) else r;
    p.(lastTick := now, nextDue := now)
  }

  /** One command received before the collector exists. */
  function Parked(e: Engine, cmd: Cmd, made: Collector, now: nat, outcome: Outcome): Engine {
    var h := e.(log := e.log + [Handled(cmd, now)]);
    match cmd
    case Start => Enter(h, made, now, outcome)
    case SetDemand(d) => h.(pendingDemand := Some(d))
    case SetBackground(b) => h.(pendingBackground := Some(b))
    case SetInterval(i) => h.(interval := i)
    case Shutdown => h.(mode := Stopped)
    case Pause => h.(pendingPaused := true)
    case Resume => h.(pendingPaused := false)
    case Refresh => h
    case SampleNow => h
  }

  /** The head of the sampling loop. */
  function CadenceCheck(e: Engine, now: nat, outcome: Outcome): Engine {
    if e.mode == Running && now >= e.nextDue then
      var s := Sample(e.(lastTick := now), Cadence, now, outcome);
      s.(nextDue := now + s.interval)
    else e
  }

  /** One command received by the sampling loop. */
  function Handle(e: Engine, cmd: Cmd, now: nat, outcome: Outcome): Engine
    requires e.collector.Some?
  {
    var h := e.(log := e.log + [Handled(cmd, now)]);
    match cmd
    case SetInterval(i) => h.(interval := i, nextDue := e.lastTick + i)
    case SetDemand(d) => h.(collector := Some(e.collector.value.(demand := d)))
    case SetBackground(b) => h.(collector := Some(e.collector.value.(background := b)))
    case Pause => h.(mode := Paused)
    case Resume => if e.mode == Running then h else h.(mode := Running, nextDue := now)
    case Start => h
    case Refresh => Force(h, now, outcome)
    case SampleNow => Force(h, now, outcome)
    case Shutdown => h.(mode := Stopped)
  }

  function Force(h: Engine, now: nat, outcome: Outcome): Engine {
    var s := Sample(h.(lastTick := now), Forced, now, outcome);
    s.(nextDue := now + s.interval)
  }

  // ----------------------------------------------------- the thread object

  /** The engine thread's variables and the cells it shares with the handles. */
  class EngineThread {
    var mode: Mode
    var latest: Option<nat>
    var interval: nat
    var ticks: nat
    var collector: Option<Collector>
    var pendingDemand: Option<nat>
    var pendingBackground: Option<bool>
    var pendingPaused: bool
    var lastTick: nat
    var nextDue: nat
    var failures: nat
    var lastReport: Option<nat>
    var log: seq<Event>

    function View(): Engine
      reads this
    {
      Engine.Engine(mode, latest, interval, ticks, collector, pendingDemand, pendingBackground, pendingPaused,
                    lastTick, nextDue, failures, lastReport, log)
    }

    constructor (initial: nat, immediately: bool)
      ensures View() == Spawned(initial, immediately)
    {
      mode := if immediately then Starting else NotStarted;
      latest, interval, ticks, collector := None, initial, 0, None;
      pendingDemand, pendingBackground, pendingPaused := None, None, false;
      lastTick, nextDue, failures, lastReport, log := 0, 0, 0, None, [];
    }

    method TakeSample(cause: Cause, now: nat, outcome: Outcome) returns (published: Option<nat>)
      modifies this`latest, this`ticks, this`failures, this`lastReport, this`mode, this`log
      ensures View() == Sample(old(View()), cause, now, outcome)
      ensures published == if outcome.Good? then latest else None
    {
      log := log + [Sampled(cause, now, outcome, mode, nextDue, interval)];
      match outcome
      case Good(s) =>
        latest := Some(s);
        ticks := ticks + 1;
        failures, lastReport := 0, None;
        published := Some(s);
      case Unsupported =>
        mode := Paused;
        published := None;
      case Failed =>
        failures := failures + 1;
        if lastReport.None? || now >= lastReport.value + REPORT_EVERY {
          lastReport := Some(now);
        }
        published := None;
    }

    method Configure(made: Collector, now: nat)
      modifies this`pendingDemand, this`pendingBackground, this`collector, this`log, this`mode
      ensures View() == Configured(old(View()), made, now)
    {
      var c := made;
      if pendingDemand.Some? { c := c.(demand := pendingDemand.value); pendingDemand := None; }
      if pendingBackground.Some? { c := c.(background := pendingBackground.value); pendingBackground := None; }
      collector := Some(c);
      log := log + [Built(now)];
      mode := Running;
    }

    method Begin(made: Collector, now: nat, outcome: Outcome)
      modifies this
      ensures View() == Enter(old(View()), made, now, outcome)
    {
      Configure(made, now);
      if pendingPaused {
        var _ := TakeSample(FirstWhilePaused, now, outcome);
        mode := Paused;
      }
      lastTick, nextDue := now, now;
    }

    method WhileParked(cmd: Cmd, made: Collector, now: nat, outcome: Outcome)
      modifies this
      ensures View() == Parked(old(View()), cmd, made, now, outcome)
    {
      log := log + [Handled(cmd, now)];
      match cmd
      case Start => Begin(made, now, outcome);
      case SetDemand(d) => pendingDemand := Some(d);
      case SetBackground(b) => pendingBackground := Some(b);
      case SetInterval(i) => interval := i;
      case Shutdown => mode := Stopped;
      case Pause => pendingPaused := true;
      case Resume => pendingPaused := false;
      case Refresh =>
      case SampleNow =>
    }

    method LoopHead(now: nat, outcome: Outcome)
      modifies this
      ensures View() == CadenceCheck(old(View()), now, outcome)
    {
      if mode == Running && now >= nextDue {
        lastTick := now;
        var _ := TakeSample(Cadence, now, outcome);
        nextDue := lastTick + interval;
      }
    }

    /** The sample that Refresh and SampleNow ask for; the cadence restarts from it. */
    method TakeForced(now: nat, outcome: Outcome) returns (published: Option<nat>)
      modifies this
      ensures View() == Force(old(View()), now, outcome)
      ensures published == if outcome.Good? then latest else None
    {
      lastTick := now;
      published := TakeSample(Forced, now, outcome);
      nextDue := lastTick + interval;
    }

    method WhileRunning(cmd: Cmd, now: nat, outcome: Outcome) returns (reply: Option<nat>)
      requires collector.Some?
      modifies this
      ensures View() == Handle(old(View()), cmd, now, outcome)
      ensures reply == if cmd.SampleNow? && outcome.Good? then latest else None
    {
      hide Force;
      log := log + [Handled(cmd, now)];
      reply := None;
      match cmd
      case SetInterval(i) =>
        interval := i;
        nextDue := lastTick + i;
      case SetDemand(d) => collector := Some(collector.value.(demand := d));
      case SetBackground(b) => collector := Some(collector.value.(background := b));
      case Pause => mode := Paused;
      case Resume =>
        if mode != Running {
          mode := Running;
          nextDue := now;
        }
      case Start =>
      case Refresh => var _ := TakeForced(now, outcome);
      case SampleNow => reply := TakeForced(now, outcome);
      case Shutdown => mode := Stopped;
    }
  }

  // --------------------------------------------------------- whole runs

  /** The application's own memory of what it last sent. */
  datatype App = App(lastDemand: nat, surfaceVisible: bool)

  /**
   The engine, its command channel, the handles and the clock. `halfDone` counts
   `set_interval` calls between their write of the shared cell and their send;
   the `sent` fields remember the last value sent of each kind.
   */
  datatype World = World(
    engine: Engine,
    made: Collector,
    queue: seq<Cmd>,
    halfDone: nat,
    now: nat,
    app: App,
    sentInterval: nat,
    sentDemand: Option<nat>,
    sentBackground: Option<bool>)

  datatype Step =
    | Send(cmd: Cmd)
    | IntervalWrite(value: nat)
    | IntervalSend(sentValue: nat)
    | AppDemand(wanted: nat)
    | AppSurface(painted: bool)
    | EngineTakes(time: nat, outcome: Outcome)
    | EngineLooks(lookTime: nat, lookOutcome: Outcome)

  function Later(w: World, t: nat): nat {
    if t < w.now then w.now else t
  }

  function Push(w: World, cmd: Cmd): World {
    var q := w.(queue := w.queue + [cmd]);
    match cmd
    case SetInterval(i) => q.(sentInterval := i)
    case SetDemand(d) => q.(sentDemand := Some(d))
    case SetBackground(b) => q.(sentBackground := Some(b))
    case _ => q
  }

  function Next(w: World, step: Step): World {
    match step
    case Send(cmd) => if cmd.SetInterval? then w else Push(w, cmd)
    case IntervalWrite(i) =>
      w.(halfDone := w.halfDone + 1, engine := w.engine.(interval := i, log := w.engine.log + [CellWritten(i)]))
    case IntervalSend(i) => if w.halfDone == 0 then w else Push(w, SetInterval(i)).(halfDone := w.halfDone - 1)
    case AppDemand(d) =>
      if d == w.app.lastDemand then w else Push(w, SetDemand(d)).(app := w.app.(lastDemand := d))
    case AppSurface(visible) =>
      if visible == w.app.surfaceVisible then w
      else
        var b := Push(w, SetBackground(!visible)).(app := w.app.(surfaceVisible := visible));
        if visible then Push(b, Refresh) else b
    case EngineTakes(t, outcome) =>
      var now := Later(w, t);
      if w.engine.mode == Stopped then w
      else if w.engine.mode == Starting then w.(now := now, engine := Enter(w.engine, w.made, now, outcome))
      else if w.queue == [] then w
      else
        var rest := w.(queue := w.queue[1..], now := now);
        if w.engine.collector.None? then rest.(engine := Parked(w.engine, w.queue[0], w.made, now, outcome))
        else rest.(engine := Handle(w.engine, w.queue[0], now, outcome))
    case EngineLooks(t, outcome) =>
      if w.engine.collector.None? then w
      else w.(now := Later(w, t), engine := CadenceCheck(w.engine, Later(w, t), outcome))
  }

  function Run(w: World, steps: seq<Step>): World {
    if steps == [] then w else Next(Run(w, steps[..|steps| - 1]), steps[|steps| - 1])
  }

  function Initial(interval: nat, immediately: bool, made: Collector): World {
    World(Spawned(interval, immediately), made, [], 0, 0, App(0, true), interval, None, None)
  }

  /** The engine thread runs its sampling loop. */
  predicate Started(e: Engine) {
    e.collector.Some? && e.mode != Stopped
  }

  // ------------------------------------------------ configuration agreement

  function LastInterval(q: seq<Cmd>): Option<nat> {
    if q == [] then None
    else if q[|q| - 1].SetInterval? then Some(q[|q| - 1].interval)
    else LastInterval(q[..|q| - 1])
  }

  function LastDemand(q: seq<Cmd>): Option<nat> {
    if q == [] then None
    else if q[|q| - 1].SetDemand? then Some(q[|q| - 1].demand)
    else LastDemand(q[..|q| - 1])
  }

  function LastBackground(q: seq<Cmd>): Option<bool> {
    if q == [] then None
    else if q[|q| - 1].SetBackground? then Some(q[|q| - 1].background)
    else LastBackground(q[..|q| - 1])
  }

  /** Taking the oldest command changes the newest value of a kind only if it was the only one. */
  lemma {:induction false} LastAfterTake(q: seq<Cmd>)
    requires q != []
    ensures LastInterval(q) == (if LastInterval(q[1..]).Some? then LastInterval(q[1..])
                                else if q[0].SetInterval? then Some(q[0].interval) else None)
    ensures LastDemand(q) == (if LastDemand(q[1..]).Some? then LastDemand(q[1..])
                              else if q[0].SetDemand? then Some(q[0].demand) else None)
    ensures LastBackground(q) == (if LastBackground(q[1..]).Some? then LastBackground(q[1..])
                                  else if q[0].SetBackground? then Some(q[0].background) else None)
    decreases |q|
  {
    if |q| == 1 {
      assert q[..0] == [] && q[1..] == [];
    } else {
      var init := q[..|q| - 1];
      LastAfterTake(init);
      assert init[1..] == q[1..][..|q[1..]| - 1];
      assert q[1..][|q[1..]| - 1] == q[|q| - 1];
    }
  }

  function Or<T>(o: Option<T>, d: T): T {
    if o.Some? then o.value else d
  }

  /** The demand in force: the collector's, the one remembered for it, or the one it is made with. */
  function Demand(e: Engine, made: Collector): nat {
    if e.collector.Some? then e.collector.value.demand else Or(e.pendingDemand, made.demand)
  }

  function Background(e: Engine, made: Collector): bool {
    if e.collector.Some? then e.collector.value.background else Or(e.pendingBackground, made.background)
  }

  /** What was sent last is either still in the channel or in force. */
  ghost predicate Agrees(w: World) {
    && Or(LastDemand(w.queue), Demand(w.engine, w.made)) == Or(w.sentDemand, w.made.demand)
    && Or(LastBackground(w.queue), Background(w.engine, w.made)) == Or(w.sentBackground, w.made.background)
    && (LastInterval(w.queue).Some? ==> LastInterval(w.queue).value == w.sentInterval)
    && (LastInterval(w.queue).None? && w.halfDone == 0 ==> w.engine.interval == w.sentInterval)
    && (w.engine.mode == Starting || w.engine.mode == NotStarted ==> w.engine.collector.None?)
  }

  lemma PushAgrees(w: World, cmd: Cmd)
    requires Agrees(w)
    ensures Agrees(Push(w, cmd))
  {
    PushLast(w.queue, cmd);
    hide LastInterval, LastDemand, LastBackground, Demand, Background;
  }

  lemma PushLast(q: seq<Cmd>, cmd: Cmd)
    ensures LastInterval(q + [cmd]) == if cmd.SetInterval? then Some(cmd.interval) else LastInterval(q)
    ensures LastDemand(q + [cmd]) == if cmd.SetDemand? then Some(cmd.demand) else LastDemand(q)
    ensures LastBackground(q + [cmd]) == if cmd.SetBackground? then Some(cmd.background) else LastBackground(q)
  {
    assert (q + [cmd])[..|q|] == q;
  }

  /** Sampling touches neither the configuration nor the collector. */
  lemma SampleKeepsConfiguration(e: Engine, cause: Cause, now: nat, outcome: Outcome)
    ensures var s := Sample(e, cause, now, outcome);
            && s.collector == e.collector && s.interval == e.interval
            && s.pendingDemand == e.pendingDemand && s.pendingBackground == e.pendingBackground
            && (s.mode == e.mode || s.mode == Paused)
  {
  }

  /** Entering the loop keeps the configuration in force. */
  lemma EnterKeeps(e: Engine, made: Collector, now: nat, outcome: Outcome)
    requires e.collector.None?
    ensures var n := Enter(e, made, now, outcome);
            && Demand(n, made) == Demand(e, made) && Background(n, made) == Background(e, made)
            && n.interval == e.interval && n.collector.Some? && (n.mode == Running || n.mode == Paused)
  {
    SampleKeepsConfiguration(Configured(e, made, now), FirstWhilePaused, now, outcome);
  }

  /** One command changes exactly the value it names, whether the engine is parked or running. */
  lemma CommandEffect(e: Engine, cmd: Cmd, made: Collector, now: nat, outcome: Outcome)
    ensures var n := if e.collector.None? then Parked(e, cmd, made, now, outcome) else Handle(e, cmd, now, outcome);
            && Demand(n, made) == (if cmd.SetDemand? then cmd.demand else Demand(e, made))
            && Background(n, made) == (if cmd.SetBackground? then cmd.background else Background(e, made))
            && n.interval == (if cmd.SetInterval? then cmd.interval else e.interval)
            && (n.mode == e.mode || n.mode == Running || n.mode == Paused || n.mode == Stopped)
            && (e.collector.None? && n.collector.Some? ==> n.mode == Running || n.mode == Paused)
            && (e.collector.Some? ==> n.collector.Some?)
  {
    var h := e.(log := e.log + [Handled(cmd, now)]);
    SampleKeepsConfiguration(h.(lastTick := now), Forced, now, outcome);
    if e.collector.None? && cmd.Start? {
      EnterKeeps(h, made, now, outcome);
    }
  }

  /** A forced sample leaves the mode alone, running or paused, unless the collector turns out to be unsupported. */
  lemma RefreshKeepsMode(e: Engine, cmd: Cmd, now: nat, outcome: Outcome)
    requires e.collector.Some? && (cmd.Refresh? || cmd.SampleNow?)
    ensures Handle(e, cmd, now, outcome).mode == (if outcome.Unsupported? then Paused else e.mode)
    ensures Handle(e, cmd, now, outcome).nextDue == now + e.interval
    ensures Handle(e, cmd, now, outcome).log ==
            e.log + [Handled(cmd, now), Sampled(Forced, now, outcome, e.mode, e.nextDue, e.interval)]
  {
    assert e.log + [Handled(cmd, now)] + [Sampled(Forced, now, outcome, e.mode, e.nextDue, e.interval)] ==
           e.log + [Handled(cmd, now), Sampled(Forced, now, outcome, e.mode, e.nextDue, e.interval)];
  }

  lemma AgreesTake(w: World, t: nat, outcome: Outcome)
    requires Agrees(w) && w.engine.mode != Stopped && w.engine.mode != Starting && w.queue != []
    ensures Agrees(Next(w, EngineTakes(t, outcome))) || Next(w, EngineTakes(t, outcome)).engine.mode == Stopped
  {
    LastAfterTake(w.queue);
    CommandEffect(w.engine, w.queue[0], w.made, Later(w, t), outcome);
    hide Parked, Handle, Demand, Background, LastDemand, LastBackground, LastInterval;
  }

  /** The shared cell and the log are not part of what the collector was told. */
  lemma ConfigurationOf(e: Engine, interval: nat, made: Collector)
    ensures var n := e.(interval := interval, log := e.log + [CellWritten(interval)]);
            Demand(n, made) == Demand(e, made) && Background(n, made) == Background(e, made)
  {
  }

  /** Steps of the handles and of the application. */
  lemma AgreesHandle(w: World, step: Step)
    requires Agrees(w) && !step.EngineTakes? && !step.EngineLooks?
    ensures Agrees(Next(w, step))
  {
    hide LastInterval, LastDemand, LastBackground, Demand, Background;
    match step
    case Send(cmd) => PushAgrees(w, cmd);
    case IntervalWrite(i) => ConfigurationOf(w.engine, i, w.made);
    case IntervalSend(i) => PushLast(w.queue, SetInterval(i));
    case AppDemand(d) => PushAgrees(w, SetDemand(d));
    case AppSurface(visible) =>
      PushAgrees(w, SetBackground(!visible));
      var b := Push(w, SetBackground(!visible)).(app := w.app.(surfaceVisible := visible));
      PushAgrees(b, Refresh);
  }

  lemma AgreesLook(w: World, t: nat, outcome: Outcome)
    requires Agrees(w)
    ensures Agrees(Next(w, EngineLooks(t, outcome)))
  {
    SampleKeepsConfiguration(w.engine.(lastTick := Later(w, t)), Cadence, Later(w, t), outcome);
  }

  lemma AgreesStep(w: World, step: Step)
    requires Agrees(w) && w.engine.mode != Stopped
    ensures Agrees(Next(w, step)) || Next(w, step).engine.mode == Stopped
  {
    match step
    case EngineTakes(t, outcome) =>
      if w.engine.mode == Starting {
        EnterKeeps(w.engine, w.made, Later(w, t), outcome);
      } else if w.queue != [] {
        AgreesTake(w, t, outcome);
      }
    case EngineLooks(t, outcome) => AgreesLook(w, t, outcome);
    case _ => AgreesHandle(w, step);
  }

  lemma StoppedStays(w: World, step: Step)
    requires w.engine.mode == Stopped
    ensures Next(w, step).engine.mode == Stopped
    ensures Next(w, step).engine.latest == w.engine.latest && Next(w, step).engine.ticks == w.engine.ticks
  {
  }

  /** Stopped is final: no later step changes the mode or publishes anything. */
  lemma {:induction false} StoppedIsFinal(w: World, steps: seq<Step>)
    requires w.engine.mode == Stopped
    ensures var e := Run(w, steps).engine;
            e.mode == Stopped && e.latest == w.engine.latest && e.ticks == w.engine.ticks
    decreases |steps|
  {
    if steps != [] {
      StoppedIsFinal(w, steps[..|steps| - 1]);
      StoppedStays(Run(w, steps[..|steps| - 1]), steps[|steps| - 1]);
    }
  }

  lemma {:induction false} AgreesRun(interval: nat, immediately: bool, made: Collector, steps: seq<Step>)
    ensures var w := Run(Initial(interval, immediately, made), steps);
            w.made == made && (Agrees(w) || w.engine.mode == Stopped)
    decreases |steps|
  {
    if steps != [] {
      AgreesRun(interval, immediately, made, steps[..|steps| - 1]);
      var w := Run(Initial(interval, immediately, made), steps[..|steps| - 1]);
      if w.engine.mode == Stopped {
        StoppedStays(w, steps[|steps| - 1]);
      } else {
        AgreesStep(w, steps[|steps| - 1]);
      }
    }
  }

  /**
   Wherever Start falls among the commands, a started engine with an empty channel
   runs on the last demand and background sent, and on the last interval sent unless
   some `set_interval` is between its write and its send.
   */
  lemma ConfigurationAgrees(interval: nat, immediately: bool, made: Collector, steps: seq<Step>)
    ensures var w := Run(Initial(interval, immediately, made), steps);
            Started(w.engine) && w.queue == [] ==>
              && w.engine.collector.value.demand == Or(w.sentDemand, made.demand)
              && w.engine.collector.value.background == Or(w.sentBackground, made.background)
              && (w.halfDone == 0 ==> w.engine.interval == w.sentInterval)
  {
    AgreesRun(interval, immediately, made, steps);
  }

  /** Only the application sends demand and visibility, and a demand is never the empty set. */
  predicate AppOnly(steps: seq<Step>) {
    forall i :: 0 <= i < |steps| ==>
                  && (steps[i].Send? ==> !steps[i].cmd.SetDemand? && !steps[i].cmd.SetBackground?)
                  && (steps[i].AppDemand? ==> steps[i].wanted != 0)
  }

  lemma {:induction false} AppRemembers(interval: nat, immediately: bool, made: Collector, steps: seq<Step>)
    requires AppOnly(steps)
    ensures var w := Run(Initial(interval, immediately, made), steps);
            && w.sentDemand == (if w.app.lastDemand == 0 then None else Some(w.app.lastDemand))
            && (w.sentBackground.Some? ==> w.sentBackground.value == !w.app.surfaceVisible)
            && (w.sentBackground.None? ==> w.app.surfaceVisible)
    decreases |steps|
  {
    if steps != [] {
      AppRemembers(interval, immediately, made, steps[..|steps| - 1]);
      hide Enter, Parked, Handle, CadenceCheck, Initial;
    }
  }

  /** Sending only on change is enough: the collector ends up on the application's own idea of demand and visibility. */
  lemma SendingOnChangeSuffices(interval: nat, immediately: bool, made: Collector, steps: seq<Step>)
    requires AppOnly(steps) && !made.background
    ensures var w := Run(Initial(interval, immediately, made), steps);
            Started(w.engine) && w.queue == [] ==>
              && (w.app.lastDemand != 0 ==> w.engine.collector.value.demand == w.app.lastDemand)
              && w.engine.collector.value.background == !w.app.surfaceVisible
  {
    ConfigurationAgrees(interval, immediately, made, steps);
    AppRemembers(interval, immediately, made, steps);
  }
}
