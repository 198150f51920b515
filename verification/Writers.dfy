/**
 The two coalescing writer threads: app history (generation-numbered) and settings.

 A script is everything one writer thread takes from its channel, in channel
 order, with the receive timeouts in between. Both loops are proved to refine a
 writer that puts every save on disk the moment it arrives: an outside observer,
 who looks only when a flush is answered or after the thread ended, cannot tell
 them apart.
 */
module Writers {
  import opened Common

  datatype Cmd<T> = Save(generation: nat, snapshot: T) | Flush | Shutdown

  datatype Event<T> = Received(cmd: Cmd<T>) | Timeout | Disconnected

  /** `replies` records the file contents at the moment each flush is answered. */
  datatype Writer<T> = Writer(
    pending: Option<(nat, T)>,
    start: Option<T>,
    writes: seq<T>,
    replies: seq<Option<T>>,
    stopped: bool)
  {
    function Disk(): Option<T> {
      if writes == [] then start else Some(writes[|writes| - 1])
    }

    /** Write the pending snapshot, if any. */
    function Drain(): (w: Writer<T>)
      ensures w.pending.None?
    {
      if pending.None? then this else this.(pending := None, writes := writes + [pending.value.1])
    }

    /** The newest snapshot taken over so far, written or not. */
    function Newest(): Option<T> {
      if pending.Some? then Some(pending.value.1) else Disk()
    }
  }

  function Fresh<T>(start: Option<T>): Writer<T> {
    Writer(None, start, [], [], false)
  }

  function HistoryStep<T>(w: Writer<T>, e: Event<T>): Writer<T> {
    if w.stopped then w
    else match e
      case Received(Save(g, s)) =>
        if w.pending.None? || g > w.pending.value.0 then w.(pending := Some((g, s))) else w
      case Received(Flush) => var d := w.Drain(); d.(replies := d.replies + [d.Disk()])
      case Received(Shutdown) => w.Drain().(stopped := true)
      case Timeout => w.Drain()
      case Disconnected => w.Drain().(stopped := true)
  }

  /** Unlike the history writer: no generations, and a disconnect does not write what is pending. */
  function SettingsStep<T>(w: Writer<T>, e: Event<T>): Writer<T> {
    if w.stopped then w
    else match e
      case Received(Save(g, s)) => w.(pending := Some((g, s)))
      case Received(Flush) => var d := w.Drain(); d.(replies := d.replies + [d.Disk()])
      case Received(Shutdown) => w.Drain().(stopped := true)
      case Timeout => w.Drain()
      case Disconnected => w.(stopped := true)
  }

  function HistoryRun<T>(start: Option<T>, script: seq<Event<T>>): Writer<T> {
    if script == [] then Fresh(start)
    else HistoryStep(HistoryRun(start, script[..|script| - 1]), script[|script| - 1])
  }

  function SettingsRun<T>(start: Option<T>, script: seq<Event<T>>): Writer<T> {
    if script == [] then Fresh(start)
    else SettingsStep(SettingsRun(start, script[..|script| - 1]), script[|script| - 1])
  }

  /** The specification: every save reaches the disk at once. */
  datatype Immediate<T> = Immediate(disk: Option<T>, replies: seq<Option<T>>, stopped: bool)

  function ImmediateStep<T>(m: Immediate<T>, e: Event<T>): Immediate<T> {
    if m.stopped then m
    else match e
      case Received(Save(_, s)) => m.(disk := Some(s))
      case Received(Flush) => m.(replies := m.replies + [m.disk])
      case Received(Shutdown) => m.(stopped := true)
      case Timeout => m
      case Disconnected => m.(stopped := true)
  }

  function ImmediateRun<T>(start: Option<T>, script: seq<Event<T>>): Immediate<T> {
    if script == [] then Immediate(start, [], false)
    else ImmediateStep(ImmediateRun(start, script[..|script| - 1]), script[|script| - 1])
  }

  /** The snapshots handed over before the writer stopped, in channel order. */
  function Saves<T>(script: seq<Event<T>>): seq<T> {
    if script == [] then []
    else
      var earlier := script[..|script| - 1];
      Saves(earlier) + Saved(ImmediateRun<T>(None, earlier).stopped, script[|script| - 1])
  }

  function Saved<T>(stopped: bool, e: Event<T>): seq<T> {
    if !stopped && e.Received? && e.cmd.Save? then [e.cmd.snapshot] else []
  }

  predicate IncreasingGenerations<T>(script: seq<Event<T>>) {
    forall i, j :: 0 <= i < j < |script| && script[i].Received? && script[i].cmd.Save?
                   && script[j].Received? && script[j].cmd.Save? ==>
                     script[i].cmd.generation < script[j].cmd.generation
  }

  lemma {:induction false} StopIgnoresStart<T>(a: Option<T>, b: Option<T>, script: seq<Event<T>>)
    ensures ImmediateRun(a, script).stopped == ImmediateRun(b, script).stopped
    decreases |script|
  {
    if script != [] {
      StopIgnoresStart(a, b, script[..|script| - 1]);
    }
  }

  function PendingSeq<T>(w: Writer<T>): seq<T> {
    if w.pending.None? then [] else [w.pending.value.1]
  }

  /** What ties either loop to the specification after any script. */
  ghost predicate Refines<T>(w: Writer<T>, start: Option<T>, script: seq<Event<T>>) {
    Matches(w, start, ImmediateRun(start, script), Saves(script))
  }

  ghost predicate Matches<T>(w: Writer<T>, start: Option<T>, m: Immediate<T>, saves: seq<T>) {
    && w.start == start
    && w.stopped == m.stopped
    && w.replies == m.replies
    && w.Newest() == m.disk
    && Subsequence(w.writes + PendingSeq(w), saves)
  }

  /** One event of the history loop, a save being newer than what is pending. */
  lemma HistoryMatchesStep<T>(w: Writer<T>, start: Option<T>, m: Immediate<T>, saves: seq<T>, e: Event<T>)
    requires Matches(w, start, m, saves)
    requires e.Received? && e.cmd.Save? && w.pending.Some? ==> w.pending.value.0 < e.cmd.generation
    ensures Matches(HistoryStep(w, e), start, ImmediateStep(m, e), saves + Saved(m.stopped, e))
  {
    hide Subsequence;
    assert w.Drain().writes + [] == w.writes + PendingSeq(w);
    assert saves + [] == saves;
    if !w.stopped && e.Received? && e.cmd.Save? {
      TakeOver(w, saves, e.cmd.snapshot);
    }
  }

  lemma SettingsMatchesStep<T>(w: Writer<T>, start: Option<T>, m: Immediate<T>, saves: seq<T>, e: Event<T>)
    requires Matches(w, start, m, saves)
    ensures Matches(SettingsStep(w, e), start, ImmediateStep(m, e), saves + Saved(m.stopped, e))
  {
    hide Subsequence;
    assert w.Drain().writes + [] == w.writes + PendingSeq(w);
    assert saves + [] == saves;
    if !w.stopped && e.Received? && e.cmd.Save? {
      TakeOver(w, saves, e.cmd.snapshot);
    }
  }

  /** Taking over a new snapshot, which may replace a pending one. */
  lemma TakeOver<T>(w: Writer<T>, saves: seq<T>, s: T)
    requires Subsequence(w.writes + PendingSeq(w), saves)
    ensures Subsequence(w.writes + [s], saves + [s])
  {
    if w.pending.Some? {
      SubsequenceDrop(w.writes, w.pending.value.1, saves);
    } else {
      assert w.writes + [] == w.writes;
    }
    SubsequenceAppend(w.writes, saves, s);
  }

  /** A pending generation came from some save in the script, so a later save is newer. */
  lemma {:induction false} PendingFromScript<T>(start: Option<T>, script: seq<Event<T>>)
    ensures var w := HistoryRun(start, script);
            w.pending.Some? ==>
              exists i :: 0 <= i < |script| && script[i] == Received(Save(w.pending.value.0, w.pending.value.1))
    decreases |script|
  {
    if script != [] {
      PendingFromScript(start, script[..|script| - 1]);
      var before, w := HistoryRun(start, script[..|script| - 1]), HistoryRun(start, script);
      if w.pending.Some? {
        if w.pending == before.pending {
          var i :| 0 <= i < |script| - 1 && script[..|script| - 1][i] == Received(Save(w.pending.value.0, w.pending.value.1));
          assert script[i] == Received(Save(w.pending.value.0, w.pending.value.1));
        } else {
          assert script[|script| - 1] == Received(Save(w.pending.value.0, w.pending.value.1));
        }
      }
    }
  }

  /** With strictly increasing generations the history writer refines immediate writing, after every script. */
  lemma {:induction false} HistoryRefines<T>(start: Option<T>, script: seq<Event<T>>)
    requires IncreasingGenerations(script)
    ensures Refines(HistoryRun(start, script), start, script)
    decreases |script|
  {
    if script != [] {
      var earlier, e := script[..|script| - 1], script[|script| - 1];
      HistoryRefines(start, earlier);
      StopIgnoresStart(start, None, earlier);
      var w := HistoryRun(start, earlier);
      PendingFromScript(start, earlier);
      assert e.Received? && e.cmd.Save? && w.pending.Some? ==> w.pending.value.0 < e.cmd.generation by {
        assert forall i :: 0 <= i < |earlier| ==> earlier[i] == script[i];
      }
      HistoryMatchesStep(w, start, ImmediateRun(start, earlier), Saves(earlier), e);
    }
  }

  /** The settings writer needs no generations: its slot always holds what the immediate writer has on disk. */
  lemma {:induction false} SettingsRefines<T>(start: Option<T>, script: seq<Event<T>>)
    ensures Refines(SettingsRun(start, script), start, script)
    decreases |script|
  {
    if script != [] {
      var earlier, e := script[..|script| - 1], script[|script| - 1];
      SettingsRefines(start, earlier);
      StopIgnoresStart(start, None, earlier);
      SettingsMatchesStep(SettingsRun(start, earlier), start, ImmediateRun(start, earlier), Saves(earlier), e);
    }
  }

  /** Nothing is pending once the history writer ended, however it ended. */
  lemma {:induction false} HistoryEndsDrained<T>(start: Option<T>, script: seq<Event<T>>)
    ensures HistoryRun(start, script).stopped ==> HistoryRun(start, script).pending.None?
    decreases |script|
  {
    if script != [] {
      HistoryEndsDrained(start, script[..|script| - 1]);
    }
  }

  /** Every disconnect is read after a shutdown: `SettingsWriter::drop` sends one before its sender goes away. */
  ghost predicate ShutdownBeforeDisconnect<T>(script: seq<Event<T>>) {
    forall j :: 0 <= j < |script| && script[j].Disconnected? ==>
                  exists i :: 0 <= i < j && script[i] == Received(Shutdown)
  }

  lemma {:induction false} ShutdownStops<T>(start: Option<T>, script: seq<Event<T>>, i: nat)
    requires i < |script| && script[i] == Received(Shutdown)
    ensures SettingsRun(start, script).stopped
    decreases |script|
  {
    if i < |script| - 1 {
      ShutdownStops(start, script[..|script| - 1], i);
    }
  }

  /** Under that discipline the settings writer too ends with nothing pending. */
  lemma {:induction false} SettingsEndsDrained<T>(start: Option<T>, script: seq<Event<T>>)
    requires ShutdownBeforeDisconnect(script)
    ensures SettingsRun(start, script).stopped ==> SettingsRun(start, script).pending.None?
    decreases |script|
  {
    if script != [] {
      var earlier := script[..|script| - 1];
      assert ShutdownBeforeDisconnect(earlier) by {
        forall j | 0 <= j < |earlier| && earlier[j].Disconnected?
          ensures exists i :: 0 <= i < j && earlier[i] == Received(Shutdown)
        {
          assert script[j].Disconnected?;
          var i :| 0 <= i < j && script[i] == Received(Shutdown);
          assert earlier[i] == script[i];
        }
      }
      SettingsEndsDrained(start, earlier);
      if script[|script| - 1].Disconnected? {
        var i :| 0 <= i < |script| - 1 && script[i] == Received(Shutdown);
        ShutdownStops(start, earlier, i);
      }
    }
  }

  /** Without it the newest settings are on disk exactly when nothing that differs from the file was pending. */
  lemma DisconnectKeepsIff<T>(start: Option<T>, script: seq<Event<T>>)
    requires !SettingsRun(start, script).stopped
    ensures var w := SettingsRun(start, script);
            SettingsRun(start, script + [Disconnected]).Disk() == ImmediateRun(start, script + [Disconnected]).disk
            <==> w.pending.None? || w.Disk() == Some(w.pending.value.1)
  {
    assert (script + [Disconnected])[..|script|] == script;
    SettingsRefines(start, script);
  }

  /** When no command comes for a while, the newest settings are on disk and nothing is left to write. */
  lemma SettingsQuietIsWritten<T>(start: Option<T>, script: seq<Event<T>>)
    ensures var w := SettingsRun(start, script + [Timeout]);
            !w.stopped ==> w.pending.None? && w.Disk() == ImmediateRun(start, script).disk
  {
    assert (script + [Timeout])[..|script|] == script;
    SettingsRefines(start, script);
    hide Subsequence;
  }

  lemma HistoryQuietIsWritten<T>(start: Option<T>, script: seq<Event<T>>)
    requires IncreasingGenerations(script)
    ensures var w := HistoryRun(start, script + [Timeout]);
            !w.stopped ==> w.pending.None? && w.Disk() == ImmediateRun(start, script).disk
  {
    assert (script + [Timeout])[..|script|] == script;
    HistoryRefines(start, script);
    hide Subsequence;
  }

  // ------------------------------------- generations in any order whatever

  predicate IsSave<T>(e: Event<T>) {
    e.Received? && e.cmd.Save?
  }

  predicate Drains<T>(e: Event<T>) {
    e.Timeout? || (e.Received? && e.cmd.Flush?)
  }

  /** Save `j` came after everything that was written out. */
  predicate Waits<T>(script: seq<Event<T>>, j: nat)
    requires j < |script|
  {
    IsSave(script[j]) && forall k :: j < k < |script| ==> !Drains(script[k])
  }

  /** Save `i` has the highest generation of those, and is the first with it. */
  predicate Newest<T>(script: seq<Event<T>>, i: nat) {
    && i < |script| && Waits(script, i)
    && forall j :: 0 <= j < |script| && Waits(script, j) ==>
                     || script[j].cmd.generation < script[i].cmd.generation
                     || (script[j].cmd.generation == script[i].cmd.generation && i <= j)
  }

  ghost predicate SlotHolds<T>(slot: Option<(nat, T)>, script: seq<Event<T>>) {
    match slot
    case None => forall j :: 0 <= j < |script| ==> !Waits(script, j)
    case Some(p) => exists i: nat :: Newest(script, i) && script[i] == Received(Save(p.0, p.1))
  }

  lemma WaitsStep<T>(script: seq<Event<T>>, e: Event<T>)
    ensures forall j :: 0 <= j < |script| ==> (Waits(script + [e], j) <==> Waits(script, j) && !Drains(e))
    ensures Waits(script + [e], |script|) <==> IsSave(e)
  {
    var all := script + [e];
    assert all[|script|] == e;
    forall j | 0 <= j < |script|
      ensures Waits(all, j) <==> Waits(script, j) && !Drains(e)
    {
      assert forall k :: 0 <= k < |script| ==> all[k] == script[k];
      if Waits(all, j) {
        assert !Drains(all[|script|]);
      }
    }
  }

  /** A save arrives: it takes the slot exactly if its generation is higher. */
  lemma SlotTakes<T>(slot: Option<(nat, T)>, script: seq<Event<T>>, e: Event<T>)
    requires SlotHolds(slot, script) && IsSave(e)
    ensures SlotHolds(if slot.None? || e.cmd.generation > slot.value.0 then Some((e.cmd.generation, e.cmd.snapshot)) else slot,
                      script + [e])
  {
    hide Waits;
    WaitsStep(script, e);
    var all := script + [e];
    assert forall j :: 0 <= j < |script| ==> all[j] == script[j];
    if slot.Some? {
      var i: nat :| Newest(script, i) && script[i] == Received(Save(slot.value.0, slot.value.1));
      if e.cmd.generation > slot.value.0 {
        assert Newest(all, |script|);
      } else {
        assert Newest(all, i);
      }
    } else {
      assert Newest(all, |script|);
    }
  }

  lemma SlotStays<T>(slot: Option<(nat, T)>, script: seq<Event<T>>, e: Event<T>)
    requires SlotHolds(slot, script) && !IsSave(e)
    ensures SlotHolds(if Drains(e) then None else slot, script + [e])
  {
    hide Waits;
    WaitsStep(script, e);
    var all := script + [e];
    assert forall j :: 0 <= j < |script| ==> all[j] == script[j];
    if slot.Some? && !Drains(e) {
      var i: nat :| Newest(script, i) && script[i] == Received(Save(slot.value.0, slot.value.1));
      assert Newest(all, i);
    }
  }

  /**
   In whatever order generations arrive, an older snapshot never takes the place of a newer one: what
   waits to be written is the first save of the highest generation since the last time the writer wrote.
   */
  lemma {:induction false} PendingIsNewest<T>(start: Option<T>, script: seq<Event<T>>)
    ensures !HistoryRun(start, script).stopped ==> SlotHolds(HistoryRun(start, script).pending, script)
    decreases |script|
  {
    if script != [] {
      hide SlotHolds;
      var earlier, e := script[..|script| - 1], script[|script| - 1];
      PendingIsNewest(start, earlier);
      assert script == earlier + [e];
      var w := HistoryRun(start, earlier);
      if !w.stopped {
        if IsSave(e) {
          SlotTakes(w.pending, earlier, e);
        } else {
          SlotStays(w.pending, earlier, e);
        }
      }
    } else {
      NothingWaits(start);
    }
  }

  lemma NothingWaits<T>(start: Option<T>)
    ensures SlotHolds(Fresh(start).pending, [])
  {
  }

  // ---------------------------------------------------------- the loops

  /** `history_writer_loop` over everything its channel delivers. */
  method HistoryWriterLoop<T>(start: Option<T>, script: seq<Event<T>>) returns (writes: seq<T>, replies: seq<Option<T>>)
    requires IncreasingGenerations(script)
    requires ImmediateRun(start, script).stopped
    ensures replies == ImmediateRun(start, script).replies
    ensures (if writes == [] then start else Some(writes[|writes| - 1])) == ImmediateRun(start, script).disk
    ensures Subsequence(writes, Saves(script))
  {
    var pending: Option<(nat, T)> := None;
    writes, replies := [], [];
    var i := 0;
    var running := true;
    while i < |script| && running
      invariant i <= |script|
      invariant HistoryRun(start, script[..i]) == Writer(pending, start, writes, replies, !running)
      decreases |script| - i
    {
      var e := script[i];
      assert script[..i + 1][..i] == script[..i];
      i := i + 1;
      match e
      case Timeout =>
        if pending.Some? { writes := writes + [pending.value.1]; pending := None; }
      case Received(Save(generation, snapshot)) =>
        if pending.None? || generation > pending.value.0 { pending := Some((generation, snapshot)); }
      case Received(Flush) =>
        if pending.Some? { writes := writes + [pending.value.1]; pending := None; }
        replies := replies + [if writes == [] then start else Some(writes[|writes| - 1])];
      case Received(Shutdown) =>
        running := false;
        if pending.Some? { writes := writes + [pending.value.1]; pending := None; }
      case Disconnected =>
        running := false;
        if pending.Some? { writes := writes + [pending.value.1]; pending := None; }
    }
    StoppedIsFinal(start, script, i);
    HistoryRefines(start, script);
    HistoryEndsDrained(start, script);
    assert writes + PendingSeq(HistoryRun(start, script)) == writes;
  }

  /** After the stop the rest of the channel changes nothing. */
  lemma {:induction false} StoppedIsFinal<T>(start: Option<T>, script: seq<Event<T>>, i: nat)
    requires i <= |script|
    requires HistoryRun(start, script[..i]).stopped || i == |script|
    ensures HistoryRun(start, script) == HistoryRun(start, script[..i])
    decreases |script|
  {
    if i < |script| {
      assert script[..|script| - 1][..i] == script[..i];
      StoppedIsFinal(start, script[..|script| - 1], i);
    } else {
      assert script[..i] == script;
    }
  }

  /** `settings_writer_loop`; `Write` and `Force` drain through the same slot, so both are saves here. */
  method SettingsWriterLoop<T>(start: Option<T>, script: seq<Event<T>>) returns (writes: seq<T>, replies: seq<Option<T>>)
    requires ShutdownBeforeDisconnect(script)
    requires ImmediateRun(start, script).stopped
    ensures replies == ImmediateRun(start, script).replies
    ensures (if writes == [] then start else Some(writes[|writes| - 1])) == ImmediateRun(start, script).disk
    ensures Subsequence(writes, Saves(script))
  {
    var pending: Option<(nat, T)> := None;
    writes, replies := [], [];
    var i := 0;
    var running := true;
    while i < |script| && running
      invariant i <= |script|
      invariant SettingsRun(start, script[..i]) == Writer(pending, start, writes, replies, !running)
      decreases |script| - i
    {
      var e := script[i];
      assert script[..i + 1][..i] == script[..i];
      i := i + 1;
      match e
      case Timeout =>
        if pending.Some? { writes := writes + [pending.value.1]; pending := None; }
      case Disconnected => running := false;
      case Received(Save(generation, snapshot)) => pending := Some((generation, snapshot));
      case Received(Flush) =>
        if pending.Some? { writes := writes + [pending.value.1]; pending := None; }
        replies := replies + [if writes == [] then start else Some(writes[|writes| - 1])];
      case Received(Shutdown) =>
        if pending.Some? { writes := writes + [pending.value.1]; pending := None; }
        running := false;
    }
    SettingsStoppedIsFinal(start, script, i);
    SettingsRefines(start, script);
    SettingsEndsDrained(start, script);
    assert writes + PendingSeq(SettingsRun(start, script)) == writes;
  }

  lemma {:induction false} SettingsStoppedIsFinal<T>(start: Option<T>, script: seq<Event<T>>, i: nat)
    requires i <= |script|
    requires SettingsRun(start, script[..i]).stopped || i == |script|
    ensures SettingsRun(start, script) == SettingsRun(start, script[..i])
    decreases |script|
  {
    if i < |script| {
      assert script[..|script| - 1][..i] == script[..i];
      SettingsStoppedIsFinal(start, script[..|script| - 1], i);
    } else {
      assert script[..i] == script;
    }
  }
}
