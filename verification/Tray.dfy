/**
 The tray-icon handshake between the user-interface thread and the tray thread.

 Each step is one atomic action of one thread: a sequentially consistent load,
 store or swap, a post to the tray thread's message queue, a message taken from
 it, or a change of the icon. Posts reach the queue once the id is published and
 while the thread lives.
 */
module Tray {
  import opened Common

  datatype Msg = Apply | Quit

  /** Where `TrayShell::set_visible` or `TrayShell::shutdown` is. */
  datatype UiPc = Idle | Stored | Loaded(published: bool) | ShutStored | ShutSwapped(published: bool)

  /** Where `tray_thread_main` is. */
  datatype TrayPc =
    | Spawned
    | Created
    | Published
    | Read(value: bool)
    | Waiting
    | Woken
    | Leaving
    | Unpublished
    | Gone

  /** `icon` is the notification-area entry: absent, hidden or shown. */
  datatype State = State(
    desired: bool,
    published: bool,
    queue: seq<Msg>,
    visible: bool,
    shutdown: bool,
    ui: UiPc,
    tray: TrayPc,
    icon: Option<bool>)

  datatype Step =
    | UiSet(wanted: bool)
    | UiLoad
    | UiPost
    | UiShutdown
    | UiSwap
    | UiPostQuit
    | TrayCreate(built: bool, shown: bool)
    | TrayPublish
    | TrayRead
    | TrayApply
    | TrayTake
    | TrayError
    | TrayUnpublish
    | TrayDrop

  /** `TrayShell::new`. */
  function Start(initiallyVisible: bool): State {
    State(initiallyVisible, false, [], initiallyVisible, false, Idle, Spawned, None)
  }

  function Post(s: State, m: Msg): State {
    if s.tray == Gone then s else s.(queue := s.queue + [m])
  }

  /** A step that its thread cannot take now changes nothing. */
  function Next(s: State, step: Step): State {
    match step
    case UiSet(v) =>
      if s.ui != Idle || s.shutdown || s.visible == v then s else s.(visible := v, desired := v, ui := Stored)
    case UiLoad => if s.ui == Stored then s.(ui := Loaded(s.published)) else s
    case UiPost =>
      if !s.ui.Loaded? then s else (if s.ui.published then Post(s, Apply) else s).(ui := Idle)
    case UiShutdown =>
      if s.ui != Idle || s.shutdown then s else s.(shutdown := true, visible := false, desired := false, ui := ShutStored)
    case UiSwap => if s.ui == ShutStored then s.(ui := ShutSwapped(s.published), published := false) else s
    case UiPostQuit =>
      if !s.ui.ShutSwapped? then s else (if s.ui.published then Post(s, Quit) else s).(ui := Idle)
    case TrayCreate(built, shown) =>
      if s.tray != Spawned then s else if built then s.(tray := Created, icon := Some(shown)) else s.(tray := Gone)
    case TrayPublish => if s.tray == Created then s.(tray := Published, published := true) else s
    case TrayRead => if s.tray == Published || s.tray == Woken then s.(tray := Read(s.desired)) else s
    case TrayApply => if s.tray.Read? then s.(tray := Waiting, icon := Some(s.tray.value)) else s
    case TrayTake =>
      if s.tray != Waiting || s.queue == [] then s
      else s.(queue := s.queue[1..], tray := if s.queue[0].Apply? then Woken else Leaving)
    case TrayError => if s.tray == Waiting then s.(tray := Leaving) else s
    case TrayUnpublish => if s.tray == Leaving then s.(tray := Unpublished, published := false) else s
    case TrayDrop => if s.tray == Unpublished then s.(tray := Gone, icon := None, queue := []) else s
  }

  function Run(s: State, steps: seq<Step>): State {
    if steps == [] then s else Next(Run(s, steps[..|steps| - 1]), steps[|steps| - 1])
  }

  /** Both threads are at rest. */
  predicate Quiescent(s: State) {
    s.ui == Idle && ((s.tray == Waiting && s.queue == []) || s.tray == Gone)
  }

  predicate Ending(s: State) {
    s.tray == Leaving || s.tray == Unpublished || s.tray == Gone
  }

  /** A message that makes the tray thread look again, or end, is queued or certain to be posted. */
  predicate Notified(s: State) {
    || s.queue != []
    || s.ui == Loaded(true) || s.ui == ShutSwapped(true)
    || (s.ui == Stored && s.published)
    || (s.ui == ShutStored && s.published)
  }

  ghost predicate Inv(s: State) {
    && s.desired == s.visible
    && (s.shutdown ==> !s.visible)
    && (s.ui == ShutStored || s.ui.ShutSwapped? ==> s.shutdown)
    && (s.ui == Stored || s.ui.Loaded? ==> !s.shutdown)
    // The id is published from the publish on, unless shutdown claimed it or the thread is ending.
    && (s.tray == Spawned || s.tray == Created ==> !s.published && s.queue == [] && s.ui != Loaded(true) && s.ui != ShutSwapped(true))
    && (s.tray == Published || s.tray.Read? || s.tray == Waiting || s.tray == Woken ==>
          s.published || Quit in s.queue || s.ui == ShutSwapped(true))
    && (s.ui == ShutSwapped(true) || Quit in s.queue ==> s.shutdown)
    && (s.tray == Waiting ==> s.icon == Some(s.desired) || Notified(s))
    && (s.tray.Read? ==> s.tray.value == s.desired || Notified(s))
    && (s.tray == Spawned || s.tray == Gone ==> s.icon.None?)
    && (s.tray == Gone ==> s.queue == [])
    && (s.tray == Unpublished || s.tray == Gone ==> !s.published)
  }

  lemma InvStep(s: State, step: Step)
    requires Inv(s)
    ensures Inv(Next(s, step))
  {
    match step
    case UiPost => assert s.ui.Loaded? ==> (Quit in s.queue + [Apply] <==> Quit in s.queue);
    case UiPostQuit => assert (s.queue + [Quit])[|s.queue|] == Quit;
    case TrayTake => if s.queue != [] { assert s.queue == [s.queue[0]] + s.queue[1..]; }
    case _ =>
  }

  lemma {:induction false} InvRun(initiallyVisible: bool, steps: seq<Step>)
    ensures Inv(Run(Start(initiallyVisible), steps))
    decreases |steps|
  {
    if steps != [] {
      InvRun(initiallyVisible, steps[..|steps| - 1]);
      InvStep(Run(Start(initiallyVisible), steps[..|steps| - 1]), steps[|steps| - 1]);
    }
  }

  /**
   In every interleaving, whenever both threads are at rest an existing icon shows what
   the user interface last asked for, and after a shutdown no icon is visible.
   */
  lemma HandshakeIsRaceFree(initiallyVisible: bool, steps: seq<Step>)
    ensures var s := Run(Start(initiallyVisible), steps);
            Quiescent(s) ==>
              && (s.icon.Some? ==> s.icon == Some(s.visible))
              && (s.tray == Waiting ==> s.icon == Some(s.visible))
              && (s.shutdown ==> s.icon != Some(true))
              && (s.tray == Gone ==> s.icon.None? && !s.published)
  {
    InvRun(initiallyVisible, steps);
  }

  /** One action of the tray thread's program leads from here to there. */
  predicate Leads(a: TrayPc, b: TrayPc) {
    match a
    case Spawned => b == Created || b == Gone
    case Created => b == Published
    case Published => b.Read?
    case Woken => b.Read?
    case Read(_) => b == Waiting
    case Waiting => b == Woken || b == Leaving
    case Leaving => b == Unpublished
    case Unpublished => b == Gone
    case Gone => false
  }

  /** The tray thread only ever moves along its program, and only its own actions change the icon. */
  lemma TrayProgram(s: State, step: Step)
    ensures Next(s, step).tray == s.tray || Leads(s.tray, Next(s, step).tray)
    ensures Next(s, step).icon != s.icon ==> Next(s, step).tray != s.tray
  {
    match step
    case TrayCreate(_, _) =>
    case TrayPublish =>
    case TrayRead =>
    case TrayApply =>
    case TrayTake =>
    case TrayError =>
    case TrayUnpublish =>
    case TrayDrop =>
    case _ =>
  }

  /** A failing message loop makes it leave, an icon that cannot be built ends it, and a shutdown claims the id for itself. */
  lemma TrayEnds(s: State, shown: bool)
    ensures s.tray == Waiting ==> Next(s, TrayError) == s.(tray := Leaving)
    ensures s.tray == Spawned ==> Next(s, TrayCreate(false, shown)) == s.(tray := Gone)
    ensures s.tray == Spawned ==> Next(s, TrayCreate(true, shown)) == s.(tray := Created, icon := Some(shown))
    ensures s.ui == ShutStored ==> Next(s, UiSwap) == s.(ui := ShutSwapped(s.published), published := false)
  {
  }

  // ------------------------------------------------------ the last wish

  /** How far the user interface is with a call, if it is in one. */
  datatype Call = NoCall | WishNoted | WishLooked | EndNoted | EndClaimed

  datatype Wishes = Wishes(wish: bool, ended: bool, call: Call)

  /** What a step of the user interface does to its wish; one that is already the last needs no action. */
  function WishStep(w: Wishes, step: Step): Wishes {
    match step
    case UiSet(v) => if w.call != NoCall || w.ended || v == w.wish then w else Wishes(v, false, WishNoted)
    case UiLoad => if w.call == WishNoted then w.(call := WishLooked) else w
    case UiPost => if w.call == WishLooked then w.(call := NoCall) else w
    case UiShutdown => if w.call != NoCall || w.ended then w else Wishes(false, true, EndNoted)
    case UiSwap => if w.call == EndNoted then w.(call := EndClaimed) else w
    case UiPostQuit => if w.call == EndClaimed then w.(call := NoCall) else w
    case _ => w
  }

  function WishesAfter(initiallyVisible: bool, steps: seq<Step>): Wishes {
    if steps == [] then Wishes(initiallyVisible, false, NoCall)
    else WishStep(WishesAfter(initiallyVisible, steps[..|steps| - 1]), steps[|steps| - 1])
  }

  ghost predicate Wished(s: State, w: Wishes) {
    && s.visible == w.wish && s.shutdown == w.ended
    && w.call == match s.ui
                 case Idle => NoCall
                 case Stored => WishNoted
                 case Loaded(_) => WishLooked
                 case ShutStored => EndNoted
                 case ShutSwapped(_) => EndClaimed
  }

  lemma WishedStep(s: State, w: Wishes, step: Step)
    requires Wished(s, w)
    ensures Wished(Next(s, step), WishStep(w, step))
  {
    match step
    case UiSet(_) =>
    case UiLoad =>
    case UiPost =>
    case UiShutdown =>
    case UiSwap =>
    case UiPostQuit =>
    case _ =>
  }

  lemma {:induction false} WishedRun(initiallyVisible: bool, steps: seq<Step>)
    ensures Wished(Run(Start(initiallyVisible), steps), WishesAfter(initiallyVisible, steps))
    decreases |steps|
  {
    if steps != [] {
      hide Wished, Next, WishStep;
      WishedRun(initiallyVisible, steps[..|steps| - 1]);
      WishedStep(Run(Start(initiallyVisible), steps[..|steps| - 1]), WishesAfter(initiallyVisible, steps[..|steps| - 1]), steps[|steps| - 1]);
    }
  }

  /** In every interleaving, whenever both threads are at rest an existing icon shows the last wish the calls expressed, and none after a shutdown. */
  lemma IconShowsLastWish(initiallyVisible: bool, steps: seq<Step>)
    ensures var s, w := Run(Start(initiallyVisible), steps), WishesAfter(initiallyVisible, steps);
            Quiescent(s) ==>
              && w.call == NoCall
              && (s.icon.Some? ==> s.icon == Some(w.wish))
              && (s.tray == Waiting ==> s.icon.Some?)
              && (w.ended ==> s.icon != Some(true))
  {
    HandshakeIsRaceFree(initiallyVisible, steps);
    WishedRun(initiallyVisible, steps);
    hide Run, WishesAfter;
  }

  // ----------------------------------------------------- rest is reached

  /** The tray thread's next action when left alone (the icon can be built). */
  function TrayTurn(s: State): Step {
    match s.tray
    case Spawned => TrayCreate(true, true)
    case Created => TrayPublish
    case Published => TrayRead
    case Read(_) => TrayApply
    case Waiting => TrayTake
    case Woken => TrayRead
    case Leaving => TrayUnpublish
    case Unpublished => TrayDrop
    case Gone => TrayDrop
  }

  function Stage(s: State): nat {
    match s.tray
    case Spawned => 8
    case Created => 7
    case Published => 6
    case Woken => 5
    case Read(_) => 4
    case Waiting => 3
    case Leaving => 2
    case Unpublished => 1
    case Gone => 0
  }

  function Work(s: State): nat {
    4 * |s.queue| + Stage(s)
  }

  /** One turn gets closer to rest and touches no wish. */
  lemma TurnFacts(s: State)
    requires s.ui == Idle && !Quiescent(s)
    ensures var n := Next(s, TrayTurn(s));
            && Work(n) < Work(s) && n.ui == Idle && n.visible == s.visible
            && (!Ending(s) && Quit !in s.queue ==> !Ending(n) && Quit !in n.queue)
  {
    if s.tray == Waiting {
      TakeFacts(s);
    } else {
      TurnWithoutMessage(s);
    }
  }

  lemma TakeFacts(s: State)
    requires s.ui == Idle && s.tray == Waiting && s.queue != []
    ensures var n := Next(s, TrayTake);
            && Work(n) < Work(s) && n.ui == Idle && n.visible == s.visible
            && (Quit !in s.queue ==> !Ending(n) && Quit !in n.queue)
  {
    assert s.queue == [s.queue[0]] + s.queue[1..];
    assert Quit !in s.queue ==> s.queue[0] == Apply;
  }

  lemma TurnWithoutMessage(s: State)
    requires s.ui == Idle && s.tray != Waiting && s.tray != Gone
    ensures var n := Next(s, TrayTurn(s));
            && Work(n) < Work(s) && n.ui == Idle && n.visible == s.visible
            && (!Ending(s) ==> !Ending(n) && n.queue == s.queue)
  {
  }

  /** Let the tray thread work until both are at rest. */
  function Settle(s: State): State
    requires s.ui == Idle
    decreases Work(s)
  {
    if Quiescent(s) then s else Settle(Next(s, TrayTurn(s)))
  }

  /** Once the user interface is done, the tray thread alone brings about the last wish. */
  lemma {:induction false} Settles(s: State)
    requires Inv(s) && s.ui == Idle
    ensures Quiescent(Settle(s))
    ensures Settle(s).visible == s.visible
    ensures !Ending(s) && Quit !in s.queue ==> Settle(s).icon == Some(s.visible)
    ensures Settle(s).icon.None? || Settle(s).icon == Some(s.visible)
    decreases Work(s)
  {
    if !Quiescent(s) {
      InvStep(s, TrayTurn(s));
      TurnFacts(s);
      hide Inv, Next, TrayTurn, Work;
      Settles(Next(s, TrayTurn(s)));
    }
  }

  // ------------------------------------------------------------ the shell

  /** `TrayShell` and the cells it shares with the tray thread, for calls the tray thread does not interrupt. */
  class TrayShell {
    var visible: bool
    var shutdown: bool
    var desired: bool
    var published: bool
    var queue: seq<Msg>
    var tray: TrayPc
    var icon: Option<bool>

    function View(): State
      reads this
    {
      State(desired, published, queue, visible, shutdown, Idle, tray, icon)
    }

    constructor (initiallyVisible: bool)
      ensures View() == Start(initiallyVisible)
    {
      visible, shutdown, desired, published, queue := initiallyVisible, false, initiallyVisible, false, [];
      tray, icon := Spawned, None;
    }

    method SetVisible(v: bool)
      modifies this`visible, this`desired, this`queue
      ensures View() == Run(old(View()), [UiSet(v), UiLoad, UiPost])
    {
      RunOfThree(View(), UiSet(v), UiLoad, UiPost);
      if shutdown || visible == v {
        return;
      }
      visible := v;
      desired := v;
      var tid := published;
      if tid && tray != Gone {
        queue := queue + [Apply];
      }
    }

    method Shutdown()
      modifies this`visible, this`shutdown, this`desired, this`published, this`queue
      ensures View() == Run(old(View()), [UiShutdown, UiSwap, UiPostQuit])
    {
      RunOfThree(View(), UiShutdown, UiSwap, UiPostQuit);
      if shutdown {
        return;
      }
      shutdown := true;
      visible := false;
      desired := false;
      var tid := published;
      published := false;
      if tid && tray != Gone {
        queue := queue + [Quit];
      }
    }
  }

  lemma RunOfThree(s: State, a: Step, b: Step, c: Step)
    ensures Run(s, [a, b, c]) == Next(Next(Next(s, a), b), c)
  {
    assert [a, b, c][..2] == [a, b] && [a, b][..1] == [a] && [a][..0] == [];
    assert Run(s, [a]) == Next(s, a);
    assert Run(s, [a, b]) == Next(Next(s, a), b);
  }
}
