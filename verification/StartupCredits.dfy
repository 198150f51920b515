/**
 What the startup measurements are, from the snapshots alone: which of them fall into the
 first two minutes, what every reading adds to its image, and when anything was measured.
 The definitions here use neither the tracker's window nor its baselines nor its deltas.
 */
module StartupCredits {
  import opened Common
  import opened StartupImpact

  /** The snapshots taken before the machine had been up for two minutes. */
  function Inside(snaps: seq<Snapshot>): seq<Snapshot> {
    if snaps == [] || snaps[0].uptime >= 120 then [] else [snaps[0]] + Inside(snaps[1..])
  }

  /** A process that can be charged: a real one with an image, a CPU counter, and bytes that add up within 64 bits. */
  predicate Chargeable(p: Proc) {
    !p.synthetic && p.key.Some? && p.cpu.Some? && p.read + p.written <= 0xFFFF_FFFF_FFFF_FFFF
  }

  function LastWith(procs: seq<Proc>, pid: nat): (r: Option<Proc>)
    ensures r.Some? ==> Chargeable(r.value) && r.value.pid == pid
  {
    if procs == [] then None
    else if Chargeable(procs[|procs| - 1]) && procs[|procs| - 1].pid == pid then Some(procs[|procs| - 1])
    else LastWith(procs[..|procs| - 1], pid)
  }

  /** The snapshot before has a reading to compare with: of the same pid and, if the start is known, the same start. */
  predicate Compares(before: Option<Proc>, p: Proc) {
    before.Some? && (p.start.Some? ==> before.value.start == p.start)
  }

  /** Without one, all that a process started after boot has used counts, and nothing of any other. */
  predicate CountsFromZero(p: Proc, boot: int) {
    p.start.Some? && boot <= p.start.value
  }

  /** CPU milliseconds. */
  function CpuMs(before: Option<Proc>, p: Proc, boot: int): real
    requires Chargeable(p) && (before.Some? ==> Chargeable(before.value))
  {
    var gain := if Compares(before, p) then p.cpu.value - before.value.cpu.value
                else if CountsFromZero(p, boot) then p.cpu.value
                else 0.0;
    if gain <= 0.0 then 0.0 else 1000.0 * gain
  }

  /** Bytes read and written. */
  function DiskBytes(before: Option<Proc>, p: Proc, boot: int): nat
    requires Chargeable(p) && (before.Some? ==> Chargeable(before.value))
  {
    var gain := if Compares(before, p) then p.read + p.written - (before.value.read + before.value.written)
                else if CountsFromZero(p, boot) then p.read + p.written
                else 0;
    if gain <= 0 then 0 else gain
  }

  datatype Cost = Cost(cpuMs: real, disk: nat)

  const NO_COST := Cost(0.0, 0)

  function Plus(a: Cost, b: Cost): Cost {
    Cost(a.cpuMs + b.cpuMs, a.disk + b.disk)
  }

  function ProcCost(last: seq<Proc>, p: Proc, boot: int, key: string): Cost {
    if !Chargeable(p) || p.key.value != key then NO_COST
    else Cost(CpuMs(LastWith(last, p.pid), p, boot), DiskBytes(LastWith(last, p.pid), p, boot))
  }

  function SnapCost(last: seq<Proc>, procs: seq<Proc>, boot: int, key: string): Cost {
    if procs == [] then NO_COST
    else Plus(SnapCost(last, procs[..|procs| - 1], boot, key), ProcCost(last, procs[|procs| - 1], boot, key))
  }

  /** What an image cost over these snapshots. */
  function RunCost(snaps: seq<Snapshot>, boot: int, key: string): Cost {
    if snaps == [] then NO_COST
    else
      var rest := snaps[..|snaps| - 1];
      Plus(RunCost(rest, boot, key), SnapCost(LastProcs(rest), snaps[|snaps| - 1].procs, boot, key))
  }

  lemma {:induction false} BaselinesAreLast(procs: seq<Proc>, pid: nat)
    ensures pid in NextPrev(procs) <==> LastWith(procs, pid).Some?
    ensures pid in NextPrev(procs) ==>
              var p := LastWith(procs, pid).value; Tracked(p) && NextPrev(procs)[pid] == Remember(p)
    decreases |procs|
  {
    if procs != [] {
      BaselinesAreLast(procs[..|procs| - 1], pid);
    }
  }

  lemma DeltasAre(last: seq<Proc>, p: Proc, boot: int)
    requires Chargeable(p)
    ensures CpuDelta(NextPrev(last), p, Some(boot)) == CpuMs(LastWith(last, p.pid), p, boot)
    ensures IoDelta(NextPrev(last), p, Some(boot)) == DiskBytes(LastWith(last, p.pid), p, boot)
  {
    hide NextPrev, LastWith;
    BaselinesAreLast(last, p.pid);
  }

  /** What 64 bits hold of it. */
  function Bounded(n: nat): nat {
    if n <= 0xFFFF_FFFF_FFFF_FFFF then n else 0xFFFF_FFFF_FFFF_FFFF
  }

  /** What a measurement holds: nothing if it cost nothing, else its CPU time and its bytes up to 64 bits. */
  ghost predicate Holds(t: Totals, key: string, cost: Cost, boot: int) {
    if cost == NO_COST then key !in t
    else key in t && t[key] == Sample(cost.cpuMs, Bounded(cost.disk), boot)
  }

  lemma CreditHolds(t: Totals, app: string, key: string, cost: Cost, more: Cost, boot: int)
    requires Holds(t, key, cost, boot) && cost.cpuMs >= 0.0 && more.cpuMs >= 0.0
    ensures Holds(Credit(t, app, Some(boot), more.cpuMs, more.disk), key, if app == key then Plus(cost, more) else cost, boot)
  {
    if more.cpuMs > 0.0 || more.disk > 0 {
      if app == key {
        CreditAdds(t, key, cost, more, boot);
      }
    } else {
      assert Plus(cost, more) == cost;
    }
  }

  lemma CreditAdds(t: Totals, key: string, cost: Cost, more: Cost, boot: int)
    requires Holds(t, key, cost, boot) && cost.cpuMs >= 0.0 && more.cpuMs >= 0.0
    requires more.cpuMs > 0.0 || more.disk > 0
    ensures Credit(t, key, Some(boot), more.cpuMs, more.disk) ==
            t[key := Sample(cost.cpuMs + more.cpuMs, SatAdd(Bounded(cost.disk), more.disk), boot)]
    ensures SatAdd(Bounded(cost.disk), more.disk) == Bounded(cost.disk + more.disk)
  {
  }

  lemma ProcHolds(t: Totals, last: seq<Proc>, p: Proc, key: string, cost: Cost, boot: int)
    requires Holds(t, key, cost, boot) && cost.cpuMs >= 0.0
    ensures Holds(ObserveOne(t, NextPrev(last), p, Some(boot)), key, Plus(cost, ProcCost(last, p, boot, key)), boot)
    ensures ProcCost(last, p, boot, key).cpuMs >= 0.0
  {
    hide Holds, Credit, NextPrev, LastWith, CpuDelta, IoDelta, CpuMs, DiskBytes;
    assert Plus(cost, NO_COST) == cost;
    if Chargeable(p) {
      DeltasAre(last, p, boot);
      CreditHolds(t, p.key.value, key, cost, Cost(CpuDelta(NextPrev(last), p, Some(boot)), IoDelta(NextPrev(last), p, Some(boot))), boot);
    }
  }

  lemma {:induction false} SnapHolds(t: Totals, last: seq<Proc>, procs: seq<Proc>, key: string, cost: Cost, boot: int)
    requires Holds(t, key, cost, boot) && cost.cpuMs >= 0.0
    ensures Holds(ObserveTotals(t, NextPrev(last), procs, Some(boot)), key, Plus(cost, SnapCost(last, procs, boot, key)), boot)
    ensures SnapCost(last, procs, boot, key).cpuMs >= 0.0
    decreases |procs|
  {
    hide Holds, NextPrev, ObserveOne, ProcCost;
    if procs == [] {
      assert Plus(cost, NO_COST) == cost;
    } else {
      var rest, p := procs[..|procs| - 1], procs[|procs| - 1];
      SnapHolds(t, last, rest, key, cost, boot);
      var earlier := SnapCost(last, rest, boot, key);
      ProcHolds(ObserveTotals(t, NextPrev(last), rest, Some(boot)), last, p, key, Plus(cost, earlier), boot);
      assert Plus(Plus(cost, earlier), ProcCost(last, p, boot, key)) == Plus(cost, Plus(earlier, ProcCost(last, p, boot, key)));
    }
  }

  // -------------------------------------------------------- the two minutes

  predicate AllInside(snaps: seq<Snapshot>) {
    forall i :: 0 <= i < |snaps| ==> snaps[i].uptime < 120
  }

  lemma {:induction false} InsideSnoc(snaps: seq<Snapshot>, s: Snapshot)
    ensures Inside(snaps + [s]) == if AllInside(snaps) && s.uptime < 120 then snaps + [s] else Inside(snaps)
    ensures AllInside(snaps) ==> Inside(snaps) == snaps
    decreases |snaps|
  {
    hide AllInside;
    InsideStep(snaps + [s]);
    if snaps == [] {
      assert [s][1..] == [] && [] + [s] == [s];
      InsideNothing();
    } else {
      var rest := snaps[1..];
      InsideSnoc(rest, s);
      InsideStep(snaps);
      assert (snaps + [s])[1..] == rest + [s] && (snaps + [s])[0] == snaps[0];
      assert snaps == [snaps[0]] + rest && snaps + [s] == [snaps[0]] + (rest + [s]);
    }
  }

  lemma InsideStep(snaps: seq<Snapshot>)
    requires snaps != []
    ensures Inside(snaps) == if snaps[0].uptime >= 120 then [] else [snaps[0]] + Inside(snaps[1..])
    ensures AllInside(snaps) <==> snaps[0].uptime < 120 && AllInside(snaps[1..])
  {
    assert forall i :: 1 <= i < |snaps| ==> snaps[i] == snaps[1..][i - 1];
  }

  lemma InsideNothing()
    ensures Inside([]) == [] && AllInside([])
  {
  }

  /** The tracker, in these terms. */
  ghost predicate Follows(t: Tracker, uptime: nat, boot: int, snaps: seq<Snapshot>, key: string) {
    var inside := if uptime < 120 then Inside(snaps) else [];
    && t.window == 120 && t.boot == Some(boot)
    && (t.active <==> uptime < 120 && AllInside(snaps))
    && (t.active ==> t.prev == NextPrev(LastProcs(snaps)))
    && RunCost(inside, boot, key).cpuMs >= 0.0
    && Holds(t.totals, key, RunCost(inside, boot, key), boot)
  }

  lemma FollowsStep(t: Tracker, uptime: nat, boot: int, snaps: seq<Snapshot>, s: Snapshot, key: string)
    requires Follows(t, uptime, boot, snaps, key)
    ensures Follows(Observe(t, s), uptime, boot, snaps + [s], key)
  {
    hide Holds, NextPrev, ObserveTotals, SnapCost, Inside, AllInside, AnyChange;
    InsideSnoc(snaps, s);
    InsideMore(snaps, s);
    if t.active && s.uptime < 120 {
      var all := snaps + [s];
      assert all[..|all| - 1] == snaps;
      SnapHolds(t.totals, LastProcs(snaps), s.procs, key, RunCost(snaps, boot, key), boot);
    }
  }

  lemma InsideMore(snaps: seq<Snapshot>, s: Snapshot)
    ensures AllInside(snaps + [s]) <==> AllInside(snaps) && s.uptime < 120
  {
    var all := snaps + [s];
    assert all[|snaps|] == s && forall i :: 0 <= i < |snaps| ==> all[i] == snaps[i];
  }

  lemma FollowsNothing(uptime: nat, boot: int, key: string)
    ensures Follows(NewTracker(uptime, boot), uptime, boot, [], key)
  {
  }

  lemma {:induction false} FollowsRun(uptime: nat, boot: int, snaps: seq<Snapshot>, key: string)
    ensures Follows(ObserveAll(NewTracker(uptime, boot), snaps), uptime, boot, snaps, key)
    decreases |snaps|
  {
    hide Observe, Follows, NewTracker;
    if snaps == [] {
      FollowsNothing(uptime, boot, key);
    } else {
      var rest, s := snaps[..|snaps| - 1], snaps[|snaps| - 1];
      FollowsRun(uptime, boot, rest, key);
      FollowsStep(ObserveAll(NewTracker(uptime, boot), rest), uptime, boot, rest, s, key);
      assert snaps == rest + [s];
    }
  }

  /**
   Over every run - recycled pids, gaps, unknown start times and counters that run backwards
   included - an image's measurement is what its readings of the first two minutes of uptime cost,
   images that cost nothing have none, and nothing is measured if the program came too late.
   */
  lemma MeasuredIsCost(uptime: nat, boot: int, snaps: seq<Snapshot>, key: string)
    ensures var t := ObserveAll(NewTracker(uptime, boot), snaps);
            && Holds(t.totals, key, RunCost(if uptime < 120 then Inside(snaps) else [], boot, key), boot)
            && (t.active <==> uptime < 120 && forall i :: 0 <= i < |snaps| ==> snaps[i].uptime < 120)
  {
    FollowsRun(uptime, boot, snaps, key);
    hide Holds, ObserveAll, NewTracker, RunCost, Inside;
  }

  // ----------------------------------------------------- when it is worth saving

  lemma ChangesIff(t: Totals, prev: map<nat, Prev>, p: Proc, boot: Option<int>)
    ensures ObserveOne(t, prev, p, boot) != map[] <==> t != map[] || Changes(prev, p, boot)
  {
    hide CpuDelta, IoDelta;
    if Tracked(p) {
      var cpu, io := CpuDelta(prev, p, boot), IoDelta(prev, p, boot);
      if cpu > 0.0 || io > 0 {
        assert p.key.value in ObserveOne(t, prev, p, boot);
      }
    }
  }

  lemma {:induction false} AnyChangeIff(t: Totals, prev: map<nat, Prev>, procs: seq<Proc>, boot: Option<int>)
    ensures ObserveTotals(t, prev, procs, boot) != map[] <==> t != map[] || AnyChange(prev, procs, boot)
    decreases |procs|
  {
    hide ObserveOne, Changes;
    if procs != [] {
      var rest, p := procs[..|procs| - 1], procs[|procs| - 1];
      AnyChangeIff(t, prev, rest, boot);
      ChangesIff(ObserveTotals(t, prev, rest, boot), prev, p, boot);
      if i :| 0 <= i < |rest| && Changes(prev, rest[i], boot) {
        assert Changes(prev, procs[i], boot);
      }
      if i :| 0 <= i < |procs| && Changes(prev, procs[i], boot) {
        if i < |rest| { assert Changes(prev, rest[i], boot); }
      }
    }
  }

  /** The tracker says that there is something to save exactly if it holds a measurement. */
  lemma {:induction false} DirtyIffMeasured(uptime: nat, boot: int, snaps: seq<Snapshot>)
    ensures var t := ObserveAll(NewTracker(uptime, boot), snaps); t.dirty <==> t.totals != map[]
    decreases |snaps|
  {
    if snaps != [] {
      hide AnyChange, ObserveTotals, NextPrev;
      DirtyIffMeasured(uptime, boot, snaps[..|snaps| - 1]);
      var t := ObserveAll(NewTracker(uptime, boot), snaps[..|snaps| - 1]);
      AnyChangeIff(t.totals, t.prev, snaps[|snaps| - 1].procs, t.boot);
    }
  }
}
