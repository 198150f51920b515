/**
 The application-history database: attribution of cumulative counters, the merge
 of a late baseline, and the operations of `AppHistoryDb`.

 CPU seconds are reals and byte totals unbounded naturals; where the original
 saturates at `u64::MAX` the model does too. Where it adds without a check the model
 is exact, and `WrappingAgrees` shows that the program computes the same for as long
 as the totals fit 64 bits. Display names and icon paths are not
 part of the model.
 */
module History {
  import opened Common
  import opened Telescope
  import Writers

  datatype Category = App | Background | System

  /** Windows tracks visible apps; elsewhere background processes count as well. */
  predicate HistoryEligible(category: Category, windows: bool) {
    category == App || (!windows && category == Background)
  }

  datatype Proc = Proc(
    pid: nat,
    category: Category,
    exePath: Option<string>,
    name: string,
    start: Option<int>,
    cpuTime: Option<real>,
    cpuPct: real,
    netRecvTotal: Option<nat>,
    netSentTotal: Option<nat>,
    netRecvBps: Option<real>,
    netSentBps: Option<real>)

  /** One call of `observe`: a snapshot, the window it covers and the platform. */
  datatype Tick = Tick(processes: seq<Proc>, logicalCount: nat, interval: real, windows: bool)

  datatype Usage = Usage(cpu: real, net: nat, available: bool)

  type Entries = map<string, Usage>

  const NO_USAGE := Usage(0.0, 0, false)

  datatype PrevTick = PrevTick(start: Option<int>, app: string, cpu: Option<real>, net: Option<nat>)

  type PrevMap = map<nat, PrevTick>

  /** Normalized executable path, else the lower-case name. */
  function EntryKey(p: Proc): string {
    if p.exePath.Some? && AsciiLower(p.exePath.value) != [] then AsciiLower(p.exePath.value)
    else AsciiLower(p.name)
  }

  function NetTotal(p: Proc): Option<nat> {
    if p.netRecvTotal.Some? && p.netSentTotal.Some? then Some(p.netRecvTotal.value + p.netSentTotal.value) else None
  }

  predicate NetworkAvailable(p: Proc) {
    NetTotal(p).Some? || p.netRecvBps.Some? || p.netSentBps.Some?
  }

  /** `real as u64`: truncating, saturating at both ends. */
  function TruncateU64(x: real): nat {
    if x <= 0.0 then 0 else if x.Floor > U64_MAX then U64_MAX else x.Floor
  }

  function RateOr0(rate: Option<real>): real {
    if rate.Some? then rate.value else 0.0
  }

  /** What the rates amount to over the window. */
  function RateBytes(received: Option<real>, sent: Option<real>, interval: real): nat {
    TruncateU64((RateOr0(received) + RateOr0(sent)) * Max(interval, 0.0))
  }

  predicate SameProcess(prev: PrevMap, p: Proc) {
    p.pid in prev && prev[p.pid].app == EntryKey(p) && prev[p.pid].start == p.start
  }

  function CpuDelta(prev: PrevMap, p: Proc, t: Tick): (d: real)
    ensures d >= 0.0
  {
    if !SameProcess(prev, p) then 0.0
    else if prev[p.pid].cpu.Some? && p.cpuTime.Some? then Max(p.cpuTime.value - prev[p.pid].cpu.value, 0.0)
    else if p.cpuPct > 0.0 then
      var cores := if t.logicalCount == 0 then 1 else t.logicalCount;
      (p.cpuPct / 100.0) * Max(t.interval, 0.0) * cores as real
    else 0.0
  }

  function NetDelta(prev: PrevMap, p: Proc, t: Tick): nat {
    if !SameProcess(prev, p) then 0
    else if prev[p.pid].net.Some? && NetTotal(p).Some? then
      if NetTotal(p).value >= prev[p.pid].net.value then NetTotal(p).value - prev[p.pid].net.value else 0
    else if p.netRecvBps.Some? || p.netSentBps.Some? then
      RateBytes(p.netRecvBps, p.netSentBps, t.interval)
    else 0
  }

  function Get(e: Entries, key: string): Usage {
    if key in e then e[key] else NO_USAGE
  }

  function Credit(u: Usage, available: bool, dCpu: real, dNet: nat): Usage {
    var v := u.(available := u.available || available);
    if dCpu > 0.000001 || dNet > 0 then v.(cpu := v.cpu + dCpu, net := v.net + dNet) else v
  }

  function ObserveOne(e: Entries, prev: PrevMap, p: Proc, t: Tick): Entries {
    if !HistoryEligible(p.category, t.windows) then e
    else e[EntryKey(p) := Credit(Get(e, EntryKey(p)), NetworkAvailable(p), CpuDelta(prev, p, t), NetDelta(prev, p, t))]
  }

  /** Fold the processes of one snapshot, front to back, into the totals. */
  function ObserveEntries(e: Entries, prev: PrevMap, procs: seq<Proc>, t: Tick): Entries {
    if procs == [] then e
    else ObserveOne(ObserveEntries(e, prev, procs[..|procs| - 1], t), prev, procs[|procs| - 1], t)
  }

  function Remember(p: Proc): PrevTick {
    PrevTick(p.start, EntryKey(p), p.cpuTime, NetTotal(p))
  }

  /** The baselines the next tick is differenced against. */
  function NextPrev(procs: seq<Proc>, windows: bool): PrevMap {
    if procs == [] then map[]
    else
      var p := procs[|procs| - 1];
      var earlier := NextPrev(procs[..|procs| - 1], windows);
      if HistoryEligible(p.category, windows) then earlier[p.pid := Remember(p)] else earlier
  }

  datatype Totals = Totals(entries: Entries, prev: PrevMap)

  function Observe(s: Totals, t: Tick): Totals {
    Totals(ObserveEntries(s.entries, s.prev, t.processes, t), NextPrev(t.processes, t.windows))
  }

  function ObserveAll(s: Totals, ticks: seq<Tick>): Totals {
    if ticks == [] then s else Observe(ObserveAll(s, ticks[..|ticks| - 1]), ticks[|ticks| - 1])
  }

  // ------------------------------------------------- usage only ever grows

  ghost predicate Leq(a: Entries, b: Entries) {
    forall k :: k in a ==>
                  k in b && a[k].cpu <= b[k].cpu && a[k].net <= b[k].net && (a[k].available ==> b[k].available)
  }

  lemma LeqTransitive(a: Entries, b: Entries, c: Entries)
    requires Leq(a, b) && Leq(b, c)
    ensures Leq(a, c)
  {
    forall k | k in a
      ensures k in c && a[k].cpu <= c[k].cpu && a[k].net <= c[k].net && (a[k].available ==> c[k].available)
    {
      assert k in b;
    }
  }

  lemma {:induction false} EntriesGrow(e: Entries, prev: PrevMap, procs: seq<Proc>, t: Tick)
    ensures Leq(e, ObserveEntries(e, prev, procs, t))
    decreases |procs|
  {
    if procs != [] {
      EntriesGrow(e, prev, procs[..|procs| - 1], t);
      LeqTransitive(e, ObserveEntries(e, prev, procs[..|procs| - 1], t), ObserveEntries(e, prev, procs, t));
    }
  }

  lemma {:induction false} TotalsGrow(s: Totals, ticks: seq<Tick>)
    ensures Leq(s.entries, ObserveAll(s, ticks).entries)
    decreases |ticks|
  {
    if ticks != [] {
      var earlier := ObserveAll(s, ticks[..|ticks| - 1]);
      var t := ticks[|ticks| - 1];
      TotalsGrow(s, ticks[..|ticks| - 1]);
      EntriesGrow(earlier.entries, earlier.prev, t.processes, t);
      LeqTransitive(s.entries, earlier.entries, ObserveAll(s, ticks).entries);
    }
  }

  // ------------------------------------------- merging a late baseline

  function AddUsage(a: Usage, b: Usage): Usage {
    Usage(a.cpu + b.cpu, SatAdd(a.net, b.net), a.available || b.available)
  }

  /** The baseline plus everything observed while it was still loading. */
  function Merge(file: Entries, current: Entries): Entries {
    map k | k in file.Keys + current.Keys :: if k in current then AddUsage(Get(file, k), current[k]) else file[k]
  }

  /** Traffic in a file from before availability was recorded proves that it was available. */
  function Normalize(file: Entries): Entries {
    map k | k in file :: file[k].(available := file[k].available || file[k].net > 0)
  }

  ghost predicate NoOverflow(file: Entries, current: Entries) {
    forall k :: k in file && k in current ==> file[k].net + current[k].net <= U64_MAX
  }

  lemma AddUsageCredit(f: Usage, u: Usage, available: bool, dCpu: real, dNet: nat)
    requires f.net + Credit(u, available, dCpu, dNet).net <= U64_MAX
    ensures Credit(AddUsage(f, u), available, dCpu, dNet) == AddUsage(f, Credit(u, available, dCpu, dNet))
  {
  }

  lemma MergeGet(file: Entries, e: Entries, k: string)
    requires k in file ==> file[k].net <= U64_MAX
    requires k in e ==> e[k].net <= U64_MAX
    ensures Get(Merge(file, e), k) == AddUsage(Get(file, k), Get(e, k))
  {
  }

  lemma MergeUpdate(file: Entries, e: Entries, key: string, u: Usage)
    ensures Merge(file, e[key := u]) == Merge(file, e)[key := AddUsage(Get(file, key), u)]
  {
    var a, b := Merge(file, e[key := u]), Merge(file, e)[key := AddUsage(Get(file, key), u)];
    assert a.Keys == b.Keys;
  }

  /** Crediting one application commutes with merging. */
  lemma CreditMerges(file: Entries, e: Entries, key: string, available: bool, dCpu: real, dNet: nat)
    requires Fits(e[key := Credit(Get(e, key), available, dCpu, dNet)])
    requires NoOverflow(file, e[key := Credit(Get(e, key), available, dCpu, dNet)])
    ensures Merge(file, e)[key := Credit(Get(Merge(file, e), key), available, dCpu, dNet)] ==
            Merge(file, e[key := Credit(Get(e, key), available, dCpu, dNet)])
  {
    var u := Credit(Get(e, key), available, dCpu, dNet);
    assert e[key := u][key].net <= U64_MAX;
    assert key in file ==> file[key].net + e[key := u][key].net <= U64_MAX;
    MergeGet(file, e, key);
    AddUsageCredit(Get(file, key), Get(e, key), available, dCpu, dNet);
    MergeUpdate(file, e, key, u);
  }

  lemma ObserveOneMerges(file: Entries, e: Entries, prev: PrevMap, p: Proc, t: Tick)
    requires Fits(ObserveOne(e, prev, p, t)) && NoOverflow(file, ObserveOne(e, prev, p, t))
    ensures ObserveOne(Merge(file, e), prev, p, t) == Merge(file, ObserveOne(e, prev, p, t))
  {
    if HistoryEligible(p.category, t.windows) {
      CreditMerges(file, e, EntryKey(p), NetworkAvailable(p), CpuDelta(prev, p, t), NetDelta(prev, p, t));
    }
  }

  ghost predicate Fits(e: Entries) {
    forall k :: k in e ==> e[k].net <= U64_MAX
  }

  lemma LeqFits(a: Entries, b: Entries, file: Entries)
    requires Leq(a, b) && Fits(b) && NoOverflow(file, b)
    ensures Fits(a) && NoOverflow(file, a)
  {
    assert forall k :: k in a ==> k in b && a[k].net <= b[k].net;
  }

  lemma {:induction false} EntriesMerge(file: Entries, e: Entries, prev: PrevMap, procs: seq<Proc>, t: Tick)
    requires Fits(ObserveEntries(e, prev, procs, t)) && NoOverflow(file, ObserveEntries(e, prev, procs, t))
    ensures ObserveEntries(Merge(file, e), prev, procs, t) == Merge(file, ObserveEntries(e, prev, procs, t))
    decreases |procs|
  {
    if procs != [] {
      var rest, p := procs[..|procs| - 1], procs[|procs| - 1];
      var mid := ObserveEntries(e, prev, rest, t);
      LeqFits(mid, ObserveOne(mid, prev, p, t), file);
      EntriesMerge(file, e, prev, rest, t);
      ObserveOneMerges(file, mid, prev, p, t);
    }
  }

  /** Merging the baseline before or after a run of observations gives the same totals. */
  lemma {:induction false} MergeCommutes(file: Entries, s: Totals, ticks: seq<Tick>)
    requires Fits(ObserveAll(s, ticks).entries) && NoOverflow(file, ObserveAll(s, ticks).entries)
    ensures ObserveAll(s.(entries := Merge(file, s.entries)), ticks) ==
            ObserveAll(s, ticks).(entries := Merge(file, ObserveAll(s, ticks).entries))
    decreases |ticks|
  {
    if ticks != [] {
      var rest, t := ticks[..|ticks| - 1], ticks[|ticks| - 1];
      var mid := ObserveAll(s, rest);
      EntriesGrow(mid.entries, mid.prev, t.processes, t);
      LeqFits(mid.entries, ObserveAll(s, ticks).entries, file);
      MergeCommutes(file, s, rest);
      EntriesMerge(file, mid.entries, mid.prev, t.processes, t);
    }
  }

  lemma {:induction false} ObserveAllSplit(s: Totals, a: seq<Tick>, b: seq<Tick>)
    ensures ObserveAll(s, a + b) == ObserveAll(ObserveAll(s, a), b)
    decreases |b|
  {
    if b == [] {
      assert a + b == a;
    } else {
      assert (a + b)[..|a + b| - 1] == a + b[..|b| - 1];
      ObserveAllSplit(s, a, b[..|b| - 1]);
    }
  }

  // -------------------------------------------------- attribution telescopes

  predicate HasCounters(p: Proc) {
    p.cpuTime.Some? && NetTotal(p).Some?
  }

  function IdentOf(p: Proc): Ident {
    Ident(p.pid, p.start, EntryKey(p))
  }

  predicate UniquePids(procs: seq<Proc>) {
    forall i, j :: 0 <= i < j < |procs| ==> procs[i].pid != procs[j].pid
  }

  function Unwrap(r: Option<real>): real {
    if r.Some? then r.value else 0.0
  }

  function UnwrapNat(r: Option<nat>): real {
    if r.Some? then r.value as real else 0.0
  }

  /** The network (or CPU) readings of one tick as the telescoping theory sees them. */
  function Observed(procs: seq<Proc>, windows: bool, net: bool): seq<Obs> {
    if procs == [] then []
    else
      var p := procs[|procs| - 1];
      Observed(procs[..|procs| - 1], windows, net) +
      if HistoryEligible(p.category, windows)
      then [Obs(IdentOf(p), if net then UnwrapNat(NetTotal(p)) else Unwrap(p.cpuTime))]
      else []
  }

  function ObservedRun(ticks: seq<Tick>, net: bool): (run: seq<seq<Obs>>)
    ensures |run| == |ticks|
    ensures forall i :: 0 <= i < |ticks| ==> run[i] == Observed(ticks[i].processes, ticks[i].windows, net)
  {
    if ticks == [] then []
    else
      var t := ticks[|ticks| - 1];
      ObservedRun(ticks[..|ticks| - 1], net) + [Observed(t.processes, t.windows, net)]
  }

  /** Every tracked process has both counters and pids are unique. */
  ghost predicate CleanTick(t: Tick) {
    && (forall i :: 0 <= i < |t.processes| && HistoryEligible(t.processes[i].category, t.windows) ==> HasCounters(t.processes[i]))
    && UniquePids(t.processes)
  }

  /** Counters of a process seen in two consecutive ticks do not run backwards. */
  ghost predicate Monotone(prev: PrevMap, procs: seq<Proc>) {
    forall i :: 0 <= i < |procs| && SameProcess(prev, procs[i]) && HasCounters(procs[i]) ==>
                  && (prev[procs[i].pid].cpu.Some? ==> prev[procs[i].pid].cpu.value <= procs[i].cpuTime.value)
                  && (prev[procs[i].pid].net.Some? ==> prev[procs[i].pid].net.value <= NetTotal(procs[i]).value)
  }

  lemma {:induction false} NextPrevPids(procs: seq<Proc>, windows: bool, pid: nat)
    requires pid in NextPrev(procs, windows)
    ensures exists i :: 0 <= i < |procs| && procs[i].pid == pid
    decreases |procs|
  {
    var rest, p := procs[..|procs| - 1], procs[|procs| - 1];
    if p.pid == pid {
      assert procs[|procs| - 1].pid == pid;
    } else {
      NextPrevPids(rest, windows, pid);
      var i :| 0 <= i < |rest| && rest[i].pid == pid;
      assert procs[i].pid == pid;
    }
  }

  lemma CleanInit(procs: seq<Proc>, windows: bool)
    requires procs != [] && CleanTick(Tick(procs, 0, 0.0, windows))
    ensures var rest, p := procs[..|procs| - 1], procs[|procs| - 1];
            && CleanTick(Tick(rest, 0, 0.0, windows)) && (forall i :: 0 <= i < |rest| ==> rest[i].pid != p.pid)
            && (HistoryEligible(p.category, windows) ==> HasCounters(p))
  {
  }

  /** With unique pids, the baseline map knows exactly the identities of the last tick. */
  lemma {:induction false} PrevIsPreviousTick(procs: seq<Proc>, windows: bool, id: Ident)
    requires CleanTick(Tick(procs, 0, 0.0, windows))
    ensures var prev := NextPrev(procs, windows);
            var known := id.pid in prev && prev[id.pid].start == id.start && prev[id.pid].app == id.key;
            && (known ==> prev[id.pid].net.Some? && prev[id.pid].cpu.Some?)
            && At(Observed(procs, windows, true), id) == (if known then Some(UnwrapNat(prev[id.pid].net)) else None)
            && At(Observed(procs, windows, false), id) == (if known then Some(Unwrap(prev[id.pid].cpu)) else None)
    decreases |procs|
  {
    if procs != [] {
      var rest, p := procs[..|procs| - 1], procs[|procs| - 1];
      CleanInit(procs, windows);
      PrevIsPreviousTick(rest, windows, id);
      OneMoreObserved(rest, p, windows, id, true);
      OneMoreObserved(rest, p, windows, id, false);
      assert procs == rest + [p];
      hide NetTotal, EntryKey, HistoryEligible, UniquePids, Observed, At, CleanTick;
      if HistoryEligible(p.category, windows) && p.pid == id.pid && id.pid in NextPrev(rest, windows) {
        NextPrevPids(rest, windows, id.pid);
        assert false;
      }
    }
  }

  lemma OneMoreObserved(rest: seq<Proc>, p: Proc, windows: bool, id: Ident, net: bool)
    ensures At(Observed(rest + [p], windows, net), id) ==
            if HistoryEligible(p.category, windows) && IdentOf(p) == id
            then Some(if net then UnwrapNat(NetTotal(p)) else Unwrap(p.cpuTime))
            else At(Observed(rest, windows, net), id)
  {
    assert (rest + [p])[..|rest|] == rest;
    hide IdentOf, NetTotal, HistoryEligible;
    var o := Observed(rest, windows, net);
    if HistoryEligible(p.category, windows) {
      var last := Obs(IdentOf(p), if net then UnwrapNat(NetTotal(p)) else Unwrap(p.cpuTime));
      assert (o + [last])[..|o|] == o;
    } else {
      assert o + [] == o;
    }
  }

  /** How many tracked processes of one tick belong to application `key`. */
  function Members(procs: seq<Proc>, windows: bool, key: string): nat {
    if procs == [] then 0
    else
      var p := procs[|procs| - 1];
      Members(procs[..|procs| - 1], windows, key) +
      if HistoryEligible(p.category, windows) && EntryKey(p) == key then 1 else 0
  }

  function RunMembers(ticks: seq<Tick>, key: string): nat {
    if ticks == [] then 0
    else
      var t := ticks[|ticks| - 1];
      RunMembers(ticks[..|ticks| - 1], key) + Members(t.processes, t.windows, key)
  }

  /** One process of one tick: its network delta is the charge, its CPU delta too. */
  lemma DeltaIsCharge(before: seq<Proc>, windows: bool, p: Proc, t: Tick)
    requires CleanTick(Tick(before, 0, 0.0, windows))
    requires HasCounters(p)
    requires Monotone(NextPrev(before, windows), [p])
    ensures NetDelta(NextPrev(before, windows), p, t) as real ==
            Charge(At(Observed(before, windows, true), IdentOf(p)), Some(UnwrapNat(NetTotal(p))), None)
    ensures CpuDelta(NextPrev(before, windows), p, t) ==
            Charge(At(Observed(before, windows, false), IdentOf(p)), Some(Unwrap(p.cpuTime)), None)
  {
    PrevIsPreviousTick(before, windows, IdentOf(p));
    assert SameProcess(NextPrev(before, windows), [p][0]) ==> SameProcess(NextPrev(before, windows), p);
  }

  /** Crediting moves the totals by the deltas, except that a CPU delta of at most 1e-6 may be dropped. */
  lemma CreditMoves(e: Entries, app: string, available: bool, dCpu: real, dNet: nat, key: string)
    requires dCpu >= 0.0
    ensures var r := e[app := Credit(Get(e, app), available, dCpu, dNet)];
            && Get(r, key).net == Get(e, key).net + (if app == key then dNet else 0)
            && Get(e, key).cpu + (if app == key then dCpu - 0.000001 else 0.0) <= Get(r, key).cpu
            && Get(r, key).cpu <= Get(e, key).cpu + (if app == key then dCpu else 0.0)
  {
  }

  /** One more process of a tick. */
  lemma ProcCharge(e: Entries, before: seq<Proc>, beforeWindows: bool, rest: seq<Proc>, p: Proc, t: Tick, key: string)
    requires CleanTick(Tick(before, 0, 0.0, beforeWindows))
    requires HistoryEligible(p.category, t.windows) && HasCounters(p)
    requires Monotone(NextPrev(before, beforeWindows), [p])
    ensures var r := ObserveOne(e, NextPrev(before, beforeWindows), p, t);
            var one := if EntryKey(p) == key then 1.0 else 0.0;
            var net := SnapCharge(Observed(before, beforeWindows, true), Observed(rest + [p], t.windows, true), key, None)
                       - SnapCharge(Observed(before, beforeWindows, true), Observed(rest, t.windows, true), key, None);
            var cpu := SnapCharge(Observed(before, beforeWindows, false), Observed(rest + [p], t.windows, false), key, None)
                       - SnapCharge(Observed(before, beforeWindows, false), Observed(rest, t.windows, false), key, None);
            && Get(r, key).net as real == Get(e, key).net as real + net
            && Get(e, key).cpu + cpu - 0.000001 * one <= Get(r, key).cpu <= Get(e, key).cpu + cpu
  {
    var prev := NextPrev(before, beforeWindows);
    DeltaIsCharge(before, beforeWindows, p, t);
    ObservedAppend(rest, p, t.windows, true);
    ObservedAppend(rest, p, t.windows, false);
    CreditMoves(e, EntryKey(p), NetworkAvailable(p), CpuDelta(prev, p, t), NetDelta(prev, p, t), key);
  }

  /** One tick: the totals of `key` move by the snapshot's charge, CPU up to 1e-6 per process. */
  lemma {:induction false} TickCharge(e: Entries, before: seq<Proc>, beforeWindows: bool, procs: seq<Proc>, t: Tick, key: string)
    requires CleanTick(Tick(before, 0, 0.0, beforeWindows)) && CleanTick(Tick(procs, 0, 0.0, t.windows))
    requires Monotone(NextPrev(before, beforeWindows), procs)
    ensures var r := ObserveEntries(e, NextPrev(before, beforeWindows), procs, t);
            var cpu := SnapCharge(Observed(before, beforeWindows, false), Observed(procs, t.windows, false), key, None);
            && Get(r, key).net as real ==
               Get(e, key).net as real
               + SnapCharge(Observed(before, beforeWindows, true), Observed(procs, t.windows, true), key, None)
            && Get(e, key).cpu + cpu - 0.000001 * Members(procs, t.windows, key) as real <= Get(r, key).cpu
            && Get(r, key).cpu <= Get(e, key).cpu + cpu
    decreases |procs|
  {
    if procs != [] {
      var rest, p := procs[..|procs| - 1], procs[|procs| - 1];
      assert procs == rest + [p];
      TickCharge(e, before, beforeWindows, rest, t, key);
      if HistoryEligible(p.category, t.windows) {
        assert HasCounters(p);
        assert Monotone(NextPrev(before, beforeWindows), [p]) by {
          assert [p][0] == procs[|procs| - 1];
        }
        ProcCharge(ObserveEntries(e, NextPrev(before, beforeWindows), rest, t), before, beforeWindows, rest, p, t, key);
      } else {
        assert Observed(rest, t.windows, true) + [] == Observed(rest, t.windows, true);
        assert Observed(rest, t.windows, false) + [] == Observed(rest, t.windows, false);
      }
    }
  }

  lemma ObservedAppend(rest: seq<Proc>, p: Proc, windows: bool, net: bool)
    requires HistoryEligible(p.category, windows)
    ensures var r := Observed(rest + [p], windows, net);
            && |r| == |Observed(rest, windows, net)| + 1
            && r[..|r| - 1] == Observed(rest, windows, net)
            && r[|r| - 1] == Obs(IdentOf(p), if net then UnwrapNat(NetTotal(p)) else Unwrap(p.cpuTime))
  {
    assert (rest + [p])[..|rest|] == rest;
  }

  // ------------------------------------------------------------ whole runs

  function LastProcs(ticks: seq<Tick>): seq<Proc> {
    if ticks == [] then [] else ticks[|ticks| - 1].processes
  }

  function LastWindows(ticks: seq<Tick>): bool {
    ticks != [] && ticks[|ticks| - 1].windows
  }

  /** Every tick is clean and no counter of a surviving process runs backwards. */
  ghost predicate CleanRun(ticks: seq<Tick>) {
    ticks == [] ||
    var rest, t := ticks[..|ticks| - 1], ticks[|ticks| - 1];
    && CleanRun(rest)
    && CleanTick(t)
    && Monotone(NextPrev(LastProcs(rest), LastWindows(rest)), t.processes)
  }

  lemma {:induction false} CleanRunTicks(ticks: seq<Tick>, i: nat)
    requires CleanRun(ticks) && i < |ticks|
    ensures CleanTick(ticks[i])
    decreases |ticks|
  {
    if i < |ticks| - 1 {
      CleanRunTicks(ticks[..|ticks| - 1], i);
    }
  }

  const EMPTY := Totals(map[], map[])

  lemma {:induction false} PrevAfterRun(ticks: seq<Tick>)
    ensures ObserveAll(EMPTY, ticks).prev == NextPrev(LastProcs(ticks), LastWindows(ticks))
    decreases |ticks|
  {
  }

  lemma CleanRunPrefix(rest: seq<Tick>, t: Tick)
    requires CleanRun(rest + [t])
    ensures CleanRun(rest) && CleanTick(t)
    ensures Monotone(NextPrev(LastProcs(rest), LastWindows(rest)), t.processes)
    ensures CleanTick(Tick(LastProcs(rest), 0, 0.0, LastWindows(rest)))
  {
    assert (rest + [t])[..|rest|] == rest;
    if rest != [] {
      CleanRunTicks(rest, |rest| - 1);
    }
  }

  /** The totals `u` of application `key` are what `ticks` charge, CPU up to 1e-6 s per process and tick. */
  ghost predicate Charged(u: Usage, ticks: seq<Tick>, key: string) {
    var cpu := RunCharge(ObservedRun(ticks, false), key, None);
    && u.net as real == RunCharge(ObservedRun(ticks, true), key, None)
    && cpu - 0.000001 * RunMembers(ticks, key) as real <= u.cpu <= cpu
  }

  lemma ChargedStep(mid: Totals, rest: seq<Tick>, t: Tick, key: string)
    requires CleanRun(rest + [t])
    requires mid.prev == NextPrev(LastProcs(rest), LastWindows(rest))
    requires Charged(Get(mid.entries, key), rest, key)
    ensures Charged(Get(Observe(mid, t).entries, key), rest + [t], key)
  {
    hide RunCharge, SnapCharge, ObservedRun, Observed, CleanRun, CleanTick, Monotone, NextPrev, LastProcs, LastWindows,
         RunMembers, Members, ObserveEntries, Get;
    CleanRunPrefix(rest, t);
    TickCharge(mid.entries, LastProcs(rest), LastWindows(rest), t.processes, t, key);
    RunMembersAppend(rest, t, key);
    RunChargeAppend(rest, t, key, true);
    RunChargeAppend(rest, t, key, false);
  }

  lemma RunMembersAppend(rest: seq<Tick>, t: Tick, key: string)
    ensures RunMembers(rest + [t], key) == RunMembers(rest, key) + Members(t.processes, t.windows, key)
  {
    assert (rest + [t])[..|rest|] == rest;
  }

  lemma {:induction false} RunCharges(ticks: seq<Tick>, key: string)
    requires CleanRun(ticks)
    ensures Charged(Get(ObserveAll(EMPTY, ticks).entries, key), ticks, key)
    decreases |ticks|
  {
    if ticks != [] {
      var rest, t := ticks[..|ticks| - 1], ticks[|ticks| - 1];
      assert ticks == rest + [t];
      CleanRunPrefix(rest, t);
      RunCharges(rest, key);
      PrevAfterRun(rest);
      ChargedStep(ObserveAll(EMPTY, rest), rest, t, key);
    }
  }

  lemma RunChargeAppend(rest: seq<Tick>, t: Tick, key: string, net: bool)
    ensures RunCharge(ObservedRun(rest + [t], net), key, None) ==
            RunCharge(ObservedRun(rest, net), key, None)
            + SnapCharge(Observed(LastProcs(rest), LastWindows(rest), net), Observed(t.processes, t.windows, net), key, None)
  {
    assert (rest + [t])[..|rest|] == rest;
    var run := ObservedRun(rest + [t], net);
    assert run[..|run| - 1] == ObservedRun(rest, net);
  }

  lemma ObservedNext(rest: seq<Proc>, p: Proc, windows: bool, net: bool) returns (last: seq<Obs>)
    ensures Observed(rest + [p], windows, net) == Observed(rest, windows, net) + last
    ensures last == [] || (|last| == 1 && last[0].id.pid == p.pid)
    ensures Observed([], windows, net) == []
  {
    assert (rest + [p])[..|rest|] == rest;
    last := if HistoryEligible(p.category, windows)
            then [Obs(IdentOf(p), if net then UnwrapNat(NetTotal(p)) else Unwrap(p.cpuTime))] else [];
  }

  /** Every observation is of one of these processes. */
  ghost predicate FromPids(o: seq<Obs>, procs: seq<Proc>) {
    forall i :: 0 <= i < |o| ==> exists j :: 0 <= j < |procs| && o[i].id.pid == procs[j].pid
  }

  lemma FromPidsAppend(o: seq<Obs>, rest: seq<Proc>, p: Proc, last: seq<Obs>)
    requires FromPids(o, rest) && DistinctIds(o) && UniquePids(rest + [p])
    requires last == [] || (|last| == 1 && last[0].id.pid == p.pid)
    ensures FromPids(o + last, rest + [p]) && DistinctIds(o + last)
  {
    var procs, all := rest + [p], o + last;
    assert procs[|rest|] == p;
    forall i | 0 <= i < |o|
      ensures exists j :: 0 <= j < |procs| && all[i].id.pid == procs[j].pid
      ensures o[i].id.pid != p.pid
    {
      var j :| 0 <= j < |rest| && o[i].id.pid == rest[j].pid;
      assert procs[j] == rest[j];
    }
  }

  lemma {:induction false} ObservedDistinct(procs: seq<Proc>, windows: bool, net: bool)
    requires UniquePids(procs)
    ensures DistinctIds(Observed(procs, windows, net)) && FromPids(Observed(procs, windows, net), procs)
    decreases |procs|
  {
    if procs != [] {
      hide Observed, DistinctIds, FromPids;
      var rest, p := procs[..|procs| - 1], procs[|procs| - 1];
      assert procs == rest + [p];
      assert forall i :: 0 <= i < |rest| ==> rest[i] == procs[i];
      ObservedDistinct(rest, windows, net);
      var last := ObservedNext(rest, p, windows, net);
      FromPidsAppend(Observed(rest, windows, net), rest, p, last);
    }
  }

  lemma {:induction false} ObservedSameIds(procs: seq<Proc>, windows: bool)
    ensures SameIds(Observed(procs, windows, true), Observed(procs, windows, false))
    decreases |procs|
  {
    if procs != [] {
      ObservedSameIds(procs[..|procs| - 1], windows);
    }
  }

  /** The processes of application `key`, in the order of their first sighting. */
  function AppIdents(ticks: seq<Tick>, key: string): seq<Ident> {
    Idents(ObservedRun(ticks, true), key)
  }

  lemma AppIdentsList(ticks: seq<Tick>, key: string)
    ensures forall i, net :: 0 <= i < |ticks| ==> Lists(AppIdents(ticks, key), key, ObservedRun(ticks, net)[i])
  {
    forall i | 0 <= i < |ticks|
      ensures SameIds(ObservedRun(ticks, true)[i], ObservedRun(ticks, false)[i])
    {
      ObservedSameIds(ticks[i].processes, ticks[i].windows);
    }
    IdentsAgree(ObservedRun(ticks, true), ObservedRun(ticks, false), key);
    IdentsList(ObservedRun(ticks, true), key);
    IdentsList(ObservedRun(ticks, false), key);
  }

  /**
   Attribution telescopes: an application's traffic is the sum, over the maximal
   consecutive stretches of each of its processes, of (last - first), and its CPU
   time is that sum up to 1e-6 s per process and tick.
   */
  lemma AttributionTelescopes(ticks: seq<Tick>, key: string)
    requires CleanRun(ticks)
    ensures var r := Get(ObserveAll(EMPTY, ticks).entries, key);
            var ids := AppIdents(ticks, key);
            var cpu := StretchTotal(ids, ObservedRun(ticks, false), None);
            && r.net as real == StretchTotal(ids, ObservedRun(ticks, true), None)
            && cpu - 0.000001 * RunMembers(ticks, key) as real <= r.cpu <= cpu
  {
    hide RunCharge, ObservedRun, StretchTotal, RunMembers, Get, ObserveAll, AppIdents, CleanTick, Lists, DistinctIds;
    forall i, net | 0 <= i < |ticks|
      ensures DistinctIds(ObservedRun(ticks, net)[i])
    {
      CleanRunTicks(ticks, i);
      CleanTickPids(ticks[i]);
      ObservedDistinct(ticks[i].processes, ticks[i].windows, net);
    }
    var ids := AppIdents(ticks, key);
    AppIdentsList(ticks, key);
    RunCharges(ticks, key);
    RunTelescopes(ObservedRun(ticks, true), ids, key, None);
    RunTelescopes(ObservedRun(ticks, false), ids, key, None);
  }

  lemma CleanTickPids(t: Tick)
    requires CleanTick(t)
    ensures UniquePids(t.processes)
  {
  }

  // ------------------------------------------------------ 64-bit arithmetic

  /** What `+=` on a `u64` leaves when it does not stop the program. */
  function Wrap(n: nat): nat {
    n % (U64_MAX + 1)
  }

  /** `observe`'s credit in 64-bit arithmetic. */
  function CreditWrapping(u: Usage, available: bool, dCpu: real, dNet: nat): Usage {
    Credit(u, available, dCpu, dNet).(net := Wrap(u.net + dNet))
  }

  function ObserveWrapping(e: Entries, prev: PrevMap, procs: seq<Proc>, t: Tick): Entries {
    if procs == [] then e
    else
      var p, earlier := procs[|procs| - 1], ObserveWrapping(e, prev, procs[..|procs| - 1], t);
      if !HistoryEligible(p.category, t.windows) then earlier
      else
        earlier[EntryKey(p) :=
          CreditWrapping(Get(earlier, EntryKey(p)), NetworkAvailable(p), CpuDelta(prev, p, t), NetDelta(prev, p, t))]
  }

  function ObserveAllWrapping(s: Totals, ticks: seq<Tick>): Totals {
    if ticks == [] then s
    else
      var before, t := ObserveAllWrapping(s, ticks[..|ticks| - 1]), ticks[|ticks| - 1];
      Totals(ObserveWrapping(before.entries, before.prev, t.processes, t), NextPrev(t.processes, t.windows))
  }

  lemma CreditFits(u: Usage, available: bool, dCpu: real, dNet: nat)
    requires Credit(u, available, dCpu, dNet).net <= U64_MAX
    ensures CreditWrapping(u, available, dCpu, dNet) == Credit(u, available, dCpu, dNet) && u.net <= U64_MAX
  {
  }

  /** One snapshot: exact totals that fit 64 bits are what 64-bit arithmetic computes. */
  lemma {:induction false} ObserveFits(e: Entries, prev: PrevMap, procs: seq<Proc>, t: Tick)
    requires Fits(ObserveEntries(e, prev, procs, t))
    ensures ObserveWrapping(e, prev, procs, t) == ObserveEntries(e, prev, procs, t) && Fits(e)
    decreases |procs|
  {
    if procs != [] {
      hide HistoryEligible, EntryKey, NetworkAvailable, CpuDelta, NetDelta;
      var p, init := procs[|procs| - 1], procs[..|procs| - 1];
      var earlier := ObserveEntries(e, prev, init, t);
      if HistoryEligible(p.category, t.windows) {
        var key := EntryKey(p);
        assert ObserveEntries(e, prev, procs, t)[key] ==
               Credit(Get(earlier, key), NetworkAvailable(p), CpuDelta(prev, p, t), NetDelta(prev, p, t));
        CreditFits(Get(earlier, key), NetworkAvailable(p), CpuDelta(prev, p, t), NetDelta(prev, p, t));
        forall k | k in earlier
          ensures earlier[k].net <= U64_MAX
        {
          assert k != key ==> ObserveEntries(e, prev, procs, t)[k] == earlier[k];
        }
      }
      ObserveFits(e, prev, init, t);
    }
  }

  /** A whole run: the exact totals of this model are the program's as long as they fit 64 bits. */
  lemma {:induction false} WrappingAgrees(s: Totals, ticks: seq<Tick>)
    requires Fits(ObserveAll(s, ticks).entries)
    ensures ObserveAllWrapping(s, ticks) == ObserveAll(s, ticks)
    decreases |ticks|
  {
    if ticks != [] {
      var mid, t := ObserveAll(s, ticks[..|ticks| - 1]), ticks[|ticks| - 1];
      ObserveFits(mid.entries, mid.prev, t.processes, t);
      WrappingAgrees(s, ticks[..|ticks| - 1]);
    }
  }
}
