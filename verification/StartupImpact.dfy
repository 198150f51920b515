/**
 Startup impact: what each image cost while the machine was starting, and the store
 that keeps the newest boot's measurement per image.
 */
module StartupImpact {
  import opened Common
  import opened Telescope

  /** `key` is the normalized image path, absent when the path is unknown. */
  datatype Proc = Proc(
    pid: nat, synthetic: bool, key: Option<string>, start: Option<int>, cpu: Option<real>, read: nat, written: nat)

  datatype Snapshot = Snapshot(uptime: nat, procs: seq<Proc>)

  datatype Sample = Sample(cpuMs: real, disk: nat, boot: int)

  datatype Prev = Prev(start: Option<int>, cpu: real, io: nat)

  type Totals = map<string, Sample>

  datatype Tracker = Tracker(
    window: nat, boot: Option<int>, totals: Totals, prev: map<nat, Prev>, active: bool, dirty: bool)

  const STARTUP_WINDOW: nat := 120

  function NewTracker(uptime: nat, boot: int): Tracker {
    Tracker(STARTUP_WINDOW, Some(boot), map[], map[], uptime < STARTUP_WINDOW, false)
  }

  /** Processes with an image path and both counters. */
  predicate Tracked(p: Proc) {
    !p.synthetic && p.key.Some? && p.cpu.Some? && p.read + p.written <= U64_MAX
  }

  function Remember(p: Proc): Prev
    requires Tracked(p)
  {
    Prev(p.start, p.cpu.value, p.read + p.written)
  }

  /** The counters a process is charged from, if it is charged at all. */
  function Baseline(prev: map<nat, Prev>, p: Proc, boot: Option<int>): Option<(real, nat)> {
    if p.pid in prev && (p.start.None? || prev[p.pid].start == p.start) then Some((prev[p.pid].cpu, prev[p.pid].io))
    else if p.start.Some? && boot.Some? && p.start.value >= boot.value then Some((0.0, 0))
    else None
  }

  function CpuDelta(prev: map<nat, Prev>, p: Proc, boot: Option<int>): (d: real)
    requires Tracked(p)
    ensures d >= 0.0
  {
    var b := Baseline(prev, p, boot);
    if b.None? then 0.0 else Max(p.cpu.value - b.value.0, 0.0) * 1000.0
  }

  function IoDelta(prev: map<nat, Prev>, p: Proc, boot: Option<int>): nat
    requires Tracked(p)
  {
    var b := Baseline(prev, p, boot);
    if b.None? || p.read + p.written < b.value.1 then 0 else p.read + p.written - b.value.1
  }

  function Get(t: Totals, key: string, boot: Option<int>): Sample {
    if key in t then t[key] else Sample(0.0, 0, if boot.Some? then boot.value else 0)
  }

  function Credit(t: Totals, key: string, boot: Option<int>, cpu: real, io: nat): Totals {
    if cpu > 0.0 || io > 0 then
      var e := Get(t, key, boot);
      t[key := e.(cpuMs := e.cpuMs + cpu, disk := SatAdd(e.disk, io))]
    else t
  }

  function ObserveOne(t: Totals, prev: map<nat, Prev>, p: Proc, boot: Option<int>): Totals {
    if !Tracked(p) then t else Credit(t, p.key.value, boot, CpuDelta(prev, p, boot), IoDelta(prev, p, boot))
  }

  predicate Changes(prev: map<nat, Prev>, p: Proc, boot: Option<int>) {
    Tracked(p) && (CpuDelta(prev, p, boot) > 0.0 || IoDelta(prev, p, boot) > 0)
  }

  function ObserveTotals(t: Totals, prev: map<nat, Prev>, procs: seq<Proc>, boot: Option<int>): Totals {
    if procs == [] then t
    else ObserveOne(ObserveTotals(t, prev, procs[..|procs| - 1], boot), prev, procs[|procs| - 1], boot)
  }

  function NextPrev(procs: seq<Proc>): map<nat, Prev> {
    if procs == [] then map[]
    else
      var p := procs[|procs| - 1];
      if Tracked(p) then NextPrev(procs[..|procs| - 1])[p.pid := Remember(p)] else NextPrev(procs[..|procs| - 1])
  }

  predicate AnyChange(prev: map<nat, Prev>, procs: seq<Proc>, boot: Option<int>) {
    exists i :: 0 <= i < |procs| && Changes(prev, procs[i], boot)
  }

  function Observe(t: Tracker, s: Snapshot): Tracker {
    if !t.active then t
    else if s.uptime >= t.window then t.(active := false)
    else
      t.(totals := ObserveTotals(t.totals, t.prev, s.procs, t.boot), prev := NextPrev(s.procs),
         dirty := t.dirty || AnyChange(t.prev, s.procs, t.boot))
  }

  function ObserveAll(t: Tracker, snaps: seq<Snapshot>): Tracker {
    if snaps == [] then t else Observe(ObserveAll(t, snaps[..|snaps| - 1]), snaps[|snaps| - 1])
  }

  class StartupImpactTracker {
    const window: nat
    const boot: Option<int>
    var totals: Totals
    var prev: map<nat, Prev>
    var active: bool
    var dirty: bool

    function View(): Tracker
      reads this
    {
      Tracker(window, boot, totals, prev, active, dirty)
    }

    constructor (uptime: nat, bootEpoch: int)
      ensures View() == NewTracker(uptime, bootEpoch)
    {
      window, boot := STARTUP_WINDOW, Some(bootEpoch);
      totals, prev, active, dirty := map[], map[], uptime < STARTUP_WINDOW, false;
    }

    method Feed(s: Snapshot) returns (changed: bool)
      modifies this
      ensures View() == Observe(old(View()), s)
      ensures changed == (if !old(active) then false
                          else if s.uptime >= window then old(dirty)
                          else AnyChange(old(prev), s.procs, boot))
    {
      if !active {
        return false;
      }
      if s.uptime >= window {
        active := false;
        return dirty;
      }
      changed := false;
      var live: map<nat, Prev> := map[];
      for i := 0 to |s.procs|
        invariant totals == ObserveTotals(old(totals), old(prev), s.procs[..i], boot)
        invariant live == NextPrev(s.procs[..i])
        invariant prev == old(prev) && dirty == old(dirty) && active
        invariant changed == exists j :: 0 <= j < i && Changes(old(prev), s.procs[j], boot)
      {
        assert s.procs[..i + 1][..i] == s.procs[..i];
        var p := s.procs[i];
        if Tracked(p) {
          var cpu, io := CpuDelta(prev, p, boot), IoDelta(prev, p, boot);
          if cpu > 0.0 || io > 0 {
            var e := Get(totals, p.key.value, boot);
            totals := totals[p.key.value := e.(cpuMs := e.cpuMs + cpu, disk := SatAdd(e.disk, io))];
            changed := true;
          }
          live := live[p.pid := Remember(p)];
        }
      }
      assert s.procs[..|s.procs|] == s.procs;
      prev := live;
      dirty := dirty || changed;
    }
  }

  // ------------------------------------------------------- impact telescopes

  function IdentOf(p: Proc): Ident
    requires Tracked(p)
  {
    Ident(p.pid, p.start, p.key.value)
  }

  /** One tick's CPU or disk readings. */
  function Observed(procs: seq<Proc>, disk: bool): seq<Obs> {
    if procs == [] then []
    else
      var p := procs[|procs| - 1];
      Observed(procs[..|procs| - 1], disk) +
      if Tracked(p) then [Obs(IdentOf(p), if disk then (p.read + p.written) as real else p.cpu.value)] else []
  }

  function ObservedRun(snaps: seq<Snapshot>, disk: bool): (run: seq<seq<Obs>>)
    ensures |run| == |snaps|
    ensures forall i :: 0 <= i < |snaps| ==> run[i] == Observed(snaps[i].procs, disk)
  {
    if snaps == [] then []
    else ObservedRun(snaps[..|snaps| - 1], disk) + [Observed(snaps[|snaps| - 1].procs, disk)]
  }

  /** Pids are unique and no counter is negative; start times may be unknown. */
  ghost predicate Clean(procs: seq<Proc>) {
    && (forall i, j :: 0 <= i < j < |procs| ==> procs[i].pid != procs[j].pid)
    && (forall i :: 0 <= i < |procs| && Tracked(procs[i]) ==> procs[i].cpu.value >= 0.0)
  }

  /**
   What the tracker takes for the same process in two consecutive ticks is the same one:
   it keeps its start time and image, and its counters do not run backwards. A process
   of unknown start time is taken for whatever had its pid before.
   */
  ghost predicate Follows(before: seq<Proc>, p: Proc) {
    forall i :: 0 <= i < |before| && Tracked(before[i]) && Tracked(p) && before[i].pid == p.pid
                && (p.start.None? || before[i].start == p.start) ==>
                  && before[i].start == p.start && before[i].key == p.key
                  && before[i].cpu.value <= p.cpu.value
                  && before[i].read + before[i].written <= p.read + p.written
  }

  ghost predicate AllFollow(before: seq<Proc>, procs: seq<Proc>) {
    forall j :: 0 <= j < |procs| ==> Follows(before, procs[j])
  }

  lemma {:induction false} PrevKnows(procs: seq<Proc>, pid: nat)
    requires pid in NextPrev(procs)
    ensures exists i :: 0 <= i < |procs| && procs[i].pid == pid && Tracked(procs[i]) && NextPrev(procs)[pid] == Remember(procs[i])
    decreases |procs|
  {
    var rest, p := procs[..|procs| - 1], procs[|procs| - 1];
    if Tracked(p) && p.pid == pid {
      assert procs[|procs| - 1].pid == pid;
    } else {
      PrevKnows(rest, pid);
      var i :| 0 <= i < |rest| && rest[i].pid == pid && Tracked(rest[i]) && NextPrev(rest)[pid] == Remember(rest[i]);
      assert procs[i].pid == pid;
    }
  }

  /** The baseline map and the previous tick's readings know the same processes. */
  lemma {:induction false} PrevIsPreviousTick(procs: seq<Proc>, i: nat)
    requires Clean(procs) && i < |procs| && Tracked(procs[i])
    ensures procs[i].pid in NextPrev(procs) && NextPrev(procs)[procs[i].pid] == Remember(procs[i])
    ensures At(Observed(procs, true), IdentOf(procs[i])) == Some((procs[i].read + procs[i].written) as real)
    ensures At(Observed(procs, false), IdentOf(procs[i])) == Some(procs[i].cpu.value)
    decreases |procs|
  {
    var rest, p := procs[..|procs| - 1], procs[|procs| - 1];
    if i < |procs| - 1 {
      assert Clean(rest);
      PrevIsPreviousTick(rest, i);
      assert rest[i] == procs[i];
    }
    ObservedAppend(rest, p, true);
    ObservedAppend(rest, p, false);
    assert procs == rest + [p];
  }

  lemma ObservedAppend(rest: seq<Proc>, p: Proc, disk: bool)
    ensures !Tracked(p) ==> Observed(rest + [p], disk) == Observed(rest, disk)
    ensures Tracked(p) ==>
              var r := Observed(rest + [p], disk);
              && |r| == |Observed(rest, disk)| + 1
              && r[..|r| - 1] == Observed(rest, disk)
              && r[|r| - 1] == Obs(IdentOf(p), if disk then (p.read + p.written) as real else p.cpu.value)
  {
    assert (rest + [p])[..|rest|] == rest;
  }

  lemma {:induction false} Unobserved(procs: seq<Proc>, id: Ident, disk: bool)
    requires forall i :: 0 <= i < |procs| && Tracked(procs[i]) ==> IdentOf(procs[i]) != id
    ensures At(Observed(procs, disk), id).None?
    decreases |procs|
  {
    if procs != [] {
      var rest, p := procs[..|procs| - 1], procs[|procs| - 1];
      assert forall i :: 0 <= i < |rest| ==> rest[i] == procs[i];
      Unobserved(rest, id, disk);
      ObservedAppend(rest, p, disk);
      assert procs == rest + [p];
      assert Tracked(p) ==> IdentOf(procs[|procs| - 1]) != id;
    }
  }

  /** One process of one tick is charged what the telescoping theory charges. */
  lemma DeltaIsCharge(before: seq<Proc>, p: Proc, boot: Option<int>)
    requires Clean(before) && Follows(before, p) && Tracked(p) && p.cpu.value >= 0.0
    ensures CpuDelta(NextPrev(before), p, boot) ==
            1000.0 * Charge(At(Observed(before, false), IdentOf(p)), Some(p.cpu.value), Base(IdentOf(p), boot))
    ensures IoDelta(NextPrev(before), p, boot) as real ==
            Charge(At(Observed(before, true), IdentOf(p)), Some((p.read + p.written) as real), Base(IdentOf(p), boot))
  {
    if p.pid in NextPrev(before) {
      PrevKnows(before, p.pid);
      var i :| 0 <= i < |before| && before[i].pid == p.pid && Tracked(before[i]) && NextPrev(before)[p.pid] == Remember(before[i]);
      PrevIsPreviousTick(before, i);
      if before[i].start != p.start {
        Absent(before, i, p);
      }
    } else {
      forall i | 0 <= i < |before| && Tracked(before[i])
        ensures IdentOf(before[i]) != IdentOf(p)
      {
        PrevIsPreviousTick(before, i);
      }
      Unobserved(before, IdentOf(p), true);
      Unobserved(before, IdentOf(p), false);
    }
  }

  /** A recycled pid: the previous tick has no reading of the new process. */
  lemma Absent(before: seq<Proc>, i: nat, p: Proc)
    requires Clean(before) && Tracked(p) && i < |before| && before[i].pid == p.pid && before[i].start != p.start
    ensures At(Observed(before, true), IdentOf(p)).None? && At(Observed(before, false), IdentOf(p)).None?
  {
    Unobserved(before, IdentOf(p), true);
    Unobserved(before, IdentOf(p), false);
  }

  lemma CreditMoves(t: Totals, app: string, boot: Option<int>, cpu: real, io: nat, key: string)
    requires cpu >= 0.0
    requires Get(Credit(t, app, boot, cpu, io), key, boot).disk < U64_MAX
    ensures var r := Get(Credit(t, app, boot, cpu, io), key, boot);
            && r.cpuMs == Get(t, key, boot).cpuMs + (if app == key then cpu else 0.0)
            && r.disk == Get(t, key, boot).disk + (if app == key then io else 0)
  {
  }

  lemma {:induction false} TotalsGrow(t: Totals, prev: map<nat, Prev>, procs: seq<Proc>, boot: Option<int>, key: string)
    ensures Get(t, key, boot).disk <= U64_MAX ==>
              Get(t, key, boot).disk <= Get(ObserveTotals(t, prev, procs, boot), key, boot).disk <= U64_MAX
    decreases |procs|
  {
    if procs != [] {
      TotalsGrow(t, prev, procs[..|procs| - 1], boot, key);
    }
  }

  /** One tick moves an image's totals by the snapshot's charge. */
  lemma {:induction false} TickCharge(t: Totals, before: seq<Proc>, procs: seq<Proc>, boot: Option<int>, key: string)
    requires Clean(before) && Clean(procs) && AllFollow(before, procs)
    requires Get(t, key, boot).disk <= U64_MAX
    requires Get(ObserveTotals(t, NextPrev(before), procs, boot), key, boot).disk < U64_MAX
    ensures var r := Get(ObserveTotals(t, NextPrev(before), procs, boot), key, boot);
            && r.cpuMs == Get(t, key, boot).cpuMs + 1000.0 * SnapCharge(Observed(before, false), Observed(procs, false), key, boot)
            && r.disk as real == Get(t, key, boot).disk as real + SnapCharge(Observed(before, true), Observed(procs, true), key, boot)
    decreases |procs|
  {
    if procs != [] {
      var rest, p := procs[..|procs| - 1], procs[|procs| - 1];
      assert procs == rest + [p];
      assert Clean(rest) && AllFollow(before, rest);
      TotalsGrow(ObserveTotals(t, NextPrev(before), rest, boot), NextPrev(before), [p], boot, key);
      TotalsGrow(t, NextPrev(before), rest, boot, key);
      assert [p][..0] == [];
      TickCharge(t, before, rest, boot, key);
      ObservedAppend(rest, p, true);
      ObservedAppend(rest, p, false);
      if Tracked(p) {
        DeltaIsCharge(before, p, boot);
        CreditMoves(ObserveTotals(t, NextPrev(before), rest, boot), p.key.value, boot,
                    CpuDelta(NextPrev(before), p, boot), IoDelta(NextPrev(before), p, boot), key);
      }
    }
  }

  function LastProcs(snaps: seq<Snapshot>): seq<Proc> {
    if snaps == [] then [] else snaps[|snaps| - 1].procs
  }

  /** Every snapshot lies inside the window and the run is clean. */
  ghost predicate CleanRun(snaps: seq<Snapshot>) {
    snaps == [] ||
    var rest, s := snaps[..|snaps| - 1], snaps[|snaps| - 1];
    CleanRun(rest) && Clean(s.procs) && AllFollow(LastProcs(rest), s.procs) && s.uptime < STARTUP_WINDOW
  }

  lemma {:induction false} CleanRunAt(snaps: seq<Snapshot>, i: nat)
    requires CleanRun(snaps) && i < |snaps|
    ensures Clean(snaps[i].procs)
    decreases |snaps|
  {
    if i < |snaps| - 1 {
      CleanRunAt(snaps[..|snaps| - 1], i);
    }
  }

  function Start(boot: int): Tracker {
    NewTracker(0, boot)
  }

  lemma {:induction false} TrackerState(boot: int, snaps: seq<Snapshot>)
    requires CleanRun(snaps)
    ensures var t := ObserveAll(Start(boot), snaps);
            t.active && t.window == STARTUP_WINDOW && t.boot == Some(boot) && t.prev == NextPrev(LastProcs(snaps))
    decreases |snaps|
  {
    if snaps != [] {
      TrackerState(boot, snaps[..|snaps| - 1]);
    }
  }

  lemma RunChargeAppend(rest: seq<Snapshot>, s: Snapshot, key: string, disk: bool, boot: Option<int>)
    ensures RunCharge(ObservedRun(rest + [s], disk), key, boot) ==
            RunCharge(ObservedRun(rest, disk), key, boot)
            + SnapCharge(Observed(LastProcs(rest), disk), Observed(s.procs, disk), key, boot)
  {
    assert (rest + [s])[..|rest|] == rest;
    var run := ObservedRun(rest + [s], disk);
    assert run[..|run| - 1] == ObservedRun(rest, disk);
  }

  ghost predicate Charged(e: Sample, snaps: seq<Snapshot>, key: string, boot: Option<int>) {
    Carries(e, RunCharge(ObservedRun(snaps, false), key, boot), RunCharge(ObservedRun(snaps, true), key, boot))
  }

  ghost predicate Carries(e: Sample, cpu: real, disk: real) {
    e.cpuMs == 1000.0 * cpu && e.disk as real == disk
  }

  lemma CarriesMore(e: Sample, r: Sample, cpu: real, disk: real, moreCpu: real, moreDisk: real)
    requires Carries(e, cpu, disk)
    requires r.cpuMs == e.cpuMs + 1000.0 * moreCpu && r.disk as real == e.disk as real + moreDisk
    ensures Carries(r, cpu + moreCpu, disk + moreDisk)
  {
  }

  lemma CleanRunPrefix(rest: seq<Snapshot>, s: Snapshot)
    requires CleanRun(rest + [s])
    ensures CleanRun(rest) && Clean(LastProcs(rest)) && Clean(s.procs) && AllFollow(LastProcs(rest), s.procs)
  {
    assert (rest + [s])[..|rest|] == rest;
    if rest != [] { CleanRunAt(rest, |rest| - 1); }
  }

  lemma ChargedStep(mid: Totals, rest: seq<Snapshot>, s: Snapshot, key: string, boot: Option<int>)
    requires CleanRun(rest + [s]) && Get(mid, key, boot).disk <= U64_MAX
    requires Get(ObserveTotals(mid, NextPrev(LastProcs(rest)), s.procs, boot), key, boot).disk < U64_MAX
    requires Charged(Get(mid, key, boot), rest, key, boot)
    ensures Charged(Get(ObserveTotals(mid, NextPrev(LastProcs(rest)), s.procs, boot), key, boot), rest + [s], key, boot)
  {
    hide CleanRun, Clean, AllFollow, LastProcs, NextPrev, Observed, ObservedRun, RunCharge, SnapCharge, ObserveTotals, Get, Carries;
    CleanRunPrefix(rest, s);
    var before := LastProcs(rest);
    TickCharge(mid, before, s.procs, boot, key);
    RunChargeAppend(rest, s, key, true, boot);
    RunChargeAppend(rest, s, key, false, boot);
    CarriesMore(Get(mid, key, boot), Get(ObserveTotals(mid, NextPrev(before), s.procs, boot), key, boot),
                RunCharge(ObservedRun(rest, false), key, boot), RunCharge(ObservedRun(rest, true), key, boot),
                SnapCharge(Observed(before, false), Observed(s.procs, false), key, boot),
                SnapCharge(Observed(before, true), Observed(s.procs, true), key, boot));
  }

  lemma ObserveInside(boot: int, rest: seq<Snapshot>, s: Snapshot)
    requires CleanRun(rest + [s])
    ensures ObserveAll(Start(boot), rest + [s]).totals ==
            ObserveTotals(ObserveAll(Start(boot), rest).totals, NextPrev(LastProcs(rest)), s.procs, Some(boot))
  {
    assert (rest + [s])[..|rest|] == rest;
    TrackerState(boot, rest);
    hide ObserveTotals, NextPrev;
  }

  lemma {:induction false} RunCharges(boot: int, snaps: seq<Snapshot>, key: string)
    requires CleanRun(snaps)
    requires Get(ObserveAll(Start(boot), snaps).totals, key, Some(boot)).disk < U64_MAX
    ensures Charged(Get(ObserveAll(Start(boot), snaps).totals, key, Some(boot)), snaps, key, Some(boot))
    decreases |snaps|
  {
    if snaps != [] {
      var rest, s := snaps[..|snaps| - 1], snaps[|snaps| - 1];
      assert snaps == rest + [s];
      var mid := ObserveAll(Start(boot), rest).totals;
      CleanRunPrefix(rest, s);
      ObserveInside(boot, rest, s);
      DiskFits(boot, rest, key);
      hide ObserveAll, Get, ObserveTotals, NextPrev, Charged, CleanRun, LastProcs;
      TotalsGrow(mid, NextPrev(LastProcs(rest)), s.procs, Some(boot), key);
      RunCharges(boot, rest, key);
      ChargedStep(mid, rest, s, key, Some(boot));
    }
  }

  lemma {:induction false} DiskFits(boot: int, snaps: seq<Snapshot>, key: string)
    requires CleanRun(snaps)
    ensures Get(ObserveAll(Start(boot), snaps).totals, key, Some(boot)).disk <= U64_MAX
    decreases |snaps|
  {
    if snaps != [] {
      var rest, s := snaps[..|snaps| - 1], snaps[|snaps| - 1];
      TrackerState(boot, rest);
      DiskFits(boot, rest, key);
      var mid := ObserveAll(Start(boot), rest);
      TotalsGrow(mid.totals, mid.prev, s.procs, mid.boot, key);
    }
  }

  lemma {:induction false} ObservedDistinct(procs: seq<Proc>, disk: bool)
    requires Clean(procs)
    ensures DistinctIds(Observed(procs, disk))
    ensures forall i :: 0 <= i < |Observed(procs, disk)| ==>
                          exists j :: 0 <= j < |procs| && Observed(procs, disk)[i].id.pid == procs[j].pid
    decreases |procs|
  {
    if procs != [] {
      var rest, p := procs[..|procs| - 1], procs[|procs| - 1];
      assert Clean(rest);
      ObservedDistinct(rest, disk);
      ObservedAppend(rest, p, disk);
      assert procs == rest + [p];
      var o := Observed(rest, disk);
      forall i | 0 <= i < |o|
        ensures exists j :: 0 <= j < |procs| && o[i].id.pid == procs[j].pid
        ensures o[i].id.pid != p.pid
      {
        var j :| 0 <= j < |rest| && o[i].id.pid == rest[j].pid;
        assert rest[j] == procs[j];
      }
      hide Clean, Observed;
      var r := Observed(procs, disk);
      assert forall i :: 0 <= i < |o| && |r| > |o| ==> r[i] == r[..|r| - 1][i];
      assert p == procs[|procs| - 1];
    }
  }

  lemma {:induction false} ObservedSameIds(procs: seq<Proc>)
    ensures SameIds(Observed(procs, true), Observed(procs, false))
    decreases |procs|
  {
    if procs != [] {
      ObservedSameIds(procs[..|procs| - 1]);
    }
  }

  /** The processes of image `key` with readings, in the order of their first sighting. */
  function ImageIdents(snaps: seq<Snapshot>, key: string): seq<Ident> {
    Idents(ObservedRun(snaps, true), key)
  }

  lemma ImageIdentsList(snaps: seq<Snapshot>, key: string)
    ensures forall i, disk :: 0 <= i < |snaps| ==> Lists(ImageIdents(snaps, key), key, ObservedRun(snaps, disk)[i])
  {
    forall i | 0 <= i < |snaps|
      ensures SameIds(ObservedRun(snaps, true)[i], ObservedRun(snaps, false)[i])
    {
      ObservedSameIds(snaps[i].procs);
    }
    IdentsAgree(ObservedRun(snaps, true), ObservedRun(snaps, false), key);
    IdentsList(ObservedRun(snaps, true), key);
    IdentsList(ObservedRun(snaps, false), key);
  }

  /**
   Startup impact telescopes. An image's total is, over the maximal stretches in which
   each of its processes had readings, the sum of (last - base), where the base is zero
   for a process started at or after boot and the stretch's first reading otherwise,
   also when the start time is unknown: a gap therefore charges a post-boot process from
   zero again.
   */
  lemma ImpactTelescopes(boot: int, snaps: seq<Snapshot>, key: string)
    requires CleanRun(snaps)
    requires Get(ObserveAll(Start(boot), snaps).totals, key, Some(boot)).disk < U64_MAX
    ensures var e := Get(ObserveAll(Start(boot), snaps).totals, key, Some(boot));
            var ids := ImageIdents(snaps, key);
            && e.cpuMs == 1000.0 * StretchTotal(ids, ObservedRun(snaps, false), Some(boot))
            && e.disk as real == StretchTotal(ids, ObservedRun(snaps, true), Some(boot))
  {
    hide RunCharge, ObservedRun, StretchTotal, Get, ObserveAll, ImageIdents, Clean, Lists, DistinctIds;
    forall i, disk | 0 <= i < |snaps|
      ensures DistinctIds(ObservedRun(snaps, disk)[i])
    {
      CleanRunAt(snaps, i);
      ObservedDistinct(snaps[i].procs, disk);
    }
    var ids := ImageIdents(snaps, key);
    ImageIdentsList(snaps, key);
    RunCharges(boot, snaps, key);
    RunTelescopes(ObservedRun(snaps, true), ids, key, Some(boot));
    RunTelescopes(ObservedRun(snaps, false), ids, key, Some(boot));
  }

  /** Without gaps every process contributes exactly its last reading minus its base. */
  lemma ImpactWithoutGaps(boot: int, snaps: seq<Snapshot>, key: string)
    requires CleanRun(snaps)
    requires Get(ObserveAll(Start(boot), snaps).totals, key, Some(boot)).disk < U64_MAX
    requires forall id :: id in ImageIdents(snaps, key) ==>
               Contiguous(Readings(ObservedRun(snaps, false), id)) && Contiguous(Readings(ObservedRun(snaps, true), id))
    ensures var e := Get(ObserveAll(Start(boot), snaps).totals, key, Some(boot));
            var ids := ImageIdents(snaps, key);
            && e.cpuMs == 1000.0 * SpanTotal(ids, ObservedRun(snaps, false), Some(boot))
            && e.disk as real == SpanTotal(ids, ObservedRun(snaps, true), Some(boot))
  {
    hide ObservedRun, StretchTotal, SpanTotal, Get, ObserveAll, ImageIdents, CleanRun, Contiguous;
    var ids := ImageIdents(snaps, key);
    ImpactTelescopes(boot, snaps, key);
    ContiguousTotal(ids, ObservedRun(snaps, false), Some(boot));
    ContiguousTotal(ids, ObservedRun(snaps, true), Some(boot));
  }

  /**
   Why `Follows` speaks of start times: a process of unknown start time is charged the
   difference to whatever had its pid, be it the same process or not.
   */
  lemma UnknownStartBridges(before: seq<Proc>, i: nat, p: Proc, boot: Option<int>)
    requires Clean(before) && i < |before| && Tracked(before[i]) && Tracked(p)
    requires before[i].pid == p.pid && p.start.None?
    ensures CpuDelta(NextPrev(before), p, boot) == Max(p.cpu.value - before[i].cpu.value, 0.0) * 1000.0
  {
    PrevIsPreviousTick(before, i);
  }

  predicate Worth(s: Sample) {
    s.cpuMs > 0.0 || s.disk > 0
  }

  predicate AllWorth(m: Totals) {
    forall k :: k in m ==> Worth(m[k])
  }

  /** What the tracker hands over is always worth keeping and belongs to its boot, as the store's laws ask. */
  lemma {:induction false} TrackerTotalsAreWorth(t: Totals, prev: map<nat, Prev>, procs: seq<Proc>, boot: int)
    requires forall k :: k in t ==> Worth(t[k]) && t[k].boot == boot && t[k].cpuMs >= 0.0
    ensures forall k :: k in ObserveTotals(t, prev, procs, Some(boot)) ==>
              var e := ObserveTotals(t, prev, procs, Some(boot))[k]; Worth(e) && e.boot == boot && e.cpuMs >= 0.0
    decreases |procs|
  {
    if procs != [] {
      TrackerTotalsAreWorth(t, prev, procs[..|procs| - 1], boot);
    }
  }

  lemma {:induction false} TrackerIsMergeable(uptime: nat, boot: int, snaps: seq<Snapshot>)
    ensures var t := ObserveAll(NewTracker(uptime, boot), snaps);
            t.boot == Some(boot) && forall k :: k in t.totals ==> Worth(t.totals[k]) && t.totals[k].boot == boot && t.totals[k].cpuMs >= 0.0
    decreases |snaps|
  {
    if snaps != [] {
      TrackerIsMergeable(uptime, boot, snaps[..|snaps| - 1]);
      var t := ObserveAll(NewTracker(uptime, boot), snaps[..|snaps| - 1]);
      TrackerTotalsAreWorth(t.totals, t.prev, snaps[|snaps| - 1].procs, boot);
    }
  }
}
