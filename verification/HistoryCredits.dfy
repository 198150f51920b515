/**
 What the totals of a run of snapshots are, from the snapshots alone: which programs get
 an entry, under which name, and what every sighting adds to it. The definitions here use
 neither the keys, the baselines nor the deltas of the database.
 */
module HistoryCredits {
  import opened Common
  import opened History
  import opened Text

  // ------------------------------------------------------ names of programs

  predicate HasPath(p: Proc) {
    p.exePath.Some? && p.exePath.value != []
  }

  /** What identifies the program of a process: its path, or its name if it has no usable path. */
  function Program(p: Proc): string {
    if HasPath(p) then p.exePath.value else p.name
  }

  predicate FiledUnder(p: Proc, key: string) {
    Lowered(Program(p), key)
  }

  /** Apps are tracked everywhere, background processes only where windows cannot be told, the system never. */
  predicate Tracked(p: Proc, windows: bool) {
    match p.category
    case App => true
    case Background => !windows
    case System => false
  }

  /** Every process is filed under exactly one key. */
  lemma FiledUnderIff(p: Proc, key: string)
    ensures FiledUnder(p, key) <==> key == EntryKey(p)
  {
    LoweredIff(Program(p), key);
    hide Lowered;
    if p.exePath.Some? { assert |AsciiLower(p.exePath.value)| == |p.exePath.value|; }
  }

  // ------------------------------------------------------- entries of a run

  /** Some snapshot tracks a process of this key. */
  predicate SightedIn(procs: seq<Proc>, windows: bool, key: string) {
    exists j :: 0 <= j < |procs| && Tracked(procs[j], windows) && FiledUnder(procs[j], key)
  }

  predicate Sighted(ticks: seq<Tick>, key: string) {
    exists i :: 0 <= i < |ticks| && SightedIn(ticks[i].processes, ticks[i].windows, key)
  }

  lemma {:induction false} KeysOfTick(e: Entries, prev: PrevMap, procs: seq<Proc>, t: Tick, key: string)
    ensures key in ObserveEntries(e, prev, procs, t) <==> key in e || SightedIn(procs, t.windows, key)
    decreases |procs|
  {
    hide FiledUnder, EntryKey, Credit, CpuDelta, NetDelta, NetworkAvailable;
    if procs != [] {
      var rest, p := procs[..|procs| - 1], procs[|procs| - 1];
      KeysOfTick(e, prev, rest, t, key);
      FiledUnderIff(p, key);
      if j :| 0 <= j < |procs| && Tracked(procs[j], t.windows) && FiledUnder(procs[j], key) {
        if j < |rest| {
          assert Tracked(rest[j], t.windows) && FiledUnder(rest[j], key);
        }
      }
      if j :| 0 <= j < |rest| && Tracked(rest[j], t.windows) && FiledUnder(rest[j], key) {
        assert Tracked(procs[j], t.windows) && FiledUnder(procs[j], key);
      }
      if Tracked(p, t.windows) && FiledUnder(p, key) {
        assert Tracked(procs[|procs| - 1], t.windows) && FiledUnder(procs[|procs| - 1], key);
      }
    }
  }

  lemma SightedOneMore(ticks: seq<Tick>, key: string)
    requires ticks != []
    ensures Sighted(ticks, key) <==>
            Sighted(ticks[..|ticks| - 1], key)
            || SightedIn(ticks[|ticks| - 1].processes, ticks[|ticks| - 1].windows, key)
  {
    hide SightedIn;
    var rest := ticks[..|ticks| - 1];
    if i :| 0 <= i < |rest| && SightedIn(rest[i].processes, rest[i].windows, key) {
      assert SightedIn(ticks[i].processes, ticks[i].windows, key);
    }
    if i :| 0 <= i < |ticks| && SightedIn(ticks[i].processes, ticks[i].windows, key) {
      if i < |rest| { assert SightedIn(rest[i].processes, rest[i].windows, key); }
    }
  }

  /** After any run there is an entry exactly for every program that some snapshot tracked, beside those there were. */
  lemma {:induction false} EntriesAreSighted(s: Totals, ticks: seq<Tick>, key: string)
    ensures key in ObserveAll(s, ticks).entries <==> key in s.entries || Sighted(ticks, key)
    decreases |ticks|
  {
    if ticks != [] {
      hide ObserveEntries, SightedIn, Sighted, NextPrev;
      var rest, t := ticks[..|ticks| - 1], ticks[|ticks| - 1];
      EntriesAreSighted(s, rest, key);
      var mid := ObserveAll(s, rest);
      KeysOfTick(mid.entries, mid.prev, t.processes, t, key);
      SightedOneMore(ticks, key);
    } else {
      assert !Sighted([], key);
    }
  }

  /** `key` is the entry that the `j`-th process of snapshot `i` has after the run. */
  ghost predicate EntryOf(ticks: seq<Tick>, i: nat, j: nat, key: string)
    requires i < |ticks| && j < |ticks[i].processes|
  {
    key in ObserveAll(EMPTY, ticks).entries && FiledUnder(ticks[i].processes[j], key)
  }

  /**
   Two tracked processes have one entry between them exactly if their programs are called the
   same up to ASCII case: for processes with paths, if the paths agree. Each has exactly one.
   */
  lemma ShareEntryIff(ticks: seq<Tick>, i: nat, j: nat, k: nat, l: nat)
    requires i < |ticks| && j < |ticks[i].processes| && k < |ticks| && l < |ticks[k].processes|
    requires Tracked(ticks[i].processes[j], ticks[i].windows) && Tracked(ticks[k].processes[l], ticks[k].windows)
    ensures var p, q := ticks[i].processes[j], ticks[k].processes[l];
            && (exists key :: EntryOf(ticks, i, j, key))
            && (forall a, b :: EntryOf(ticks, i, j, a) && EntryOf(ticks, i, j, b) ==> a == b)
            && ((exists key :: EntryOf(ticks, i, j, key) && EntryOf(ticks, k, l, key)) <==> SameText(Program(p), Program(q)))
  {
    hide ObserveAll, SameText, Lowered;
    var p, q := ticks[i].processes[j], ticks[k].processes[l];
    forall key: string
      ensures FiledUnder(p, key) <==> key == EntryKey(p)
      ensures FiledUnder(q, key) <==> key == EntryKey(q)
    {
      FiledUnderIff(p, key);
      FiledUnderIff(q, key);
    }
    assert SightedIn(ticks[i].processes, ticks[i].windows, EntryKey(p));
    assert SightedIn(ticks[k].processes, ticks[k].windows, EntryKey(q));
    EntriesAreSighted(EMPTY, ticks, EntryKey(p));
    EntriesAreSighted(EMPTY, ticks, EntryKey(q));
    assert EntryOf(ticks, i, j, EntryKey(p)) && EntryOf(ticks, k, l, EntryKey(q));
    SameTextIff(Program(p), Program(q));
    KeyIsLowerProgram(p);
    KeyIsLowerProgram(q);
  }

  lemma KeyIsLowerProgram(p: Proc)
    ensures EntryKey(p) == AsciiLower(Program(p))
  {
    FiledUnderIff(p, EntryKey(p));
    LoweredIff(Program(p), EntryKey(p));
  }

  // ---------------------------------------------- what a sighting adds

  /** The last tracked process with this pid. */
  function LastOf(procs: seq<Proc>, windows: bool, pid: nat): Option<Proc> {
    if procs == [] then None
    else
      var p := procs[|procs| - 1];
      if Tracked(p, windows) && p.pid == pid then Some(p) else LastOf(procs[..|procs| - 1], windows, pid)
  }

  /** The snapshot before had this very process: same pid, same start, same program. */
  predicate Continues(before: Option<Proc>, p: Proc) {
    && before.Some?
    && before.value.pid == p.pid
    && before.value.start == p.start
    && SameText(Program(before.value), Program(p))
  }

  predicate HasTraffic(p: Proc) {
    p.netRecvTotal.Some? && p.netSentTotal.Some?
  }

  predicate HasRate(p: Proc) {
    p.netRecvBps.Some? || p.netSentBps.Some?
  }

  /** CPU seconds: what the counter gained, else what the percentage of all cores amounts to. */
  function CpuUsed(before: Option<Proc>, p: Proc, t: Tick): real {
    if !Continues(before, p) then 0.0
    else if before.value.cpuTime.Some? && p.cpuTime.Some? then
      var gain := p.cpuTime.value - before.value.cpuTime.value;
      if gain < 0.0 then 0.0 else gain
    else if p.cpuPct > 0.0 && t.interval > 0.0 then
      p.cpuPct * t.interval * (if t.logicalCount < 1 then 1.0 else t.logicalCount as real) / 100.0
    else 0.0
  }

  function BytesPerSecond(p: Proc): real {
    match (p.netRecvBps, p.netSentBps)
    case (Some(received), Some(sent)) => received + sent
    case (Some(received), None) => received
    case (None, Some(sent)) => sent
    case (None, None) => 0.0
  }

  function BytesAtRate(bps: real, seconds: real): nat {
    if seconds <= 0.0 then 0
    else
      var n := (bps * seconds).Floor;
      if n < 0 then 0 else if n > U64_MAX then U64_MAX else n
  }

  /** Bytes: what the counters gained, else what the rates amount to, in whole bytes. */
  function NetUsed(before: Option<Proc>, p: Proc, t: Tick): nat {
    if !Continues(before, p) then 0
    else if HasTraffic(before.value) && HasTraffic(p) then
      var earlier := before.value.netRecvTotal.value + before.value.netSentTotal.value;
      var total := p.netRecvTotal.value + p.netSentTotal.value;
      if total <= earlier then 0 else total - earlier
    else if HasRate(p) then BytesAtRate(BytesPerSecond(p), t.interval)
    else 0
  }

  /** Neither a microsecond of CPU time nor a byte: such a sighting adds nothing. */
  predicate Negligible(before: Option<Proc>, p: Proc, t: Tick) {
    CpuUsed(before, p, t) <= 1.0 / 1000000.0 && NetUsed(before, p, t) == 0
  }

  function Plus(a: Usage, b: Usage): Usage {
    Usage(a.cpu + b.cpu, a.net + b.net, a.available || b.available)
  }

  /** What the sighting of `p` adds to the totals of `key`. */
  function Adds(before: Option<Proc>, p: Proc, t: Tick, key: string): Usage {
    if !Tracked(p, t.windows) || !FiledUnder(p, key) then NO_USAGE
    else if Negligible(before, p, t) then Usage(0.0, 0, HasTraffic(p) || HasRate(p))
    else Usage(CpuUsed(before, p, t), NetUsed(before, p, t), HasTraffic(p) || HasRate(p))
  }

  /** What the processes of one snapshot add, the snapshot before it being `last`. */
  function TickAdds(last: Option<Tick>, procs: seq<Proc>, t: Tick, key: string): Usage {
    if procs == [] then NO_USAGE
    else
      var p := procs[|procs| - 1];
      var before := if last.Some? then LastOf(last.value.processes, last.value.windows, p.pid) else None;
      Plus(TickAdds(last, procs[..|procs| - 1], t, key), Adds(before, p, t, key))
  }

  function LastTick(ticks: seq<Tick>): Option<Tick> {
    if ticks == [] then None else Some(ticks[|ticks| - 1])
  }

  /** What a run of snapshots adds up to for `key`. */
  function RunAdds(ticks: seq<Tick>, key: string): Usage {
    if ticks == [] then NO_USAGE
    else
      var rest, t := ticks[..|ticks| - 1], ticks[|ticks| - 1];
      Plus(RunAdds(rest, key), TickAdds(LastTick(rest), t.processes, t, key))
  }

  lemma {:induction false} BaselinesAreLast(procs: seq<Proc>, windows: bool, pid: nat)
    ensures var prev, last := NextPrev(procs, windows), LastOf(procs, windows, pid);
            && (pid in prev <==> last.Some?)
            && (last.Some? ==> last.value.pid == pid && prev[pid] == Remember(last.value))
    decreases |procs|
  {
    hide Remember;
    if procs != [] {
      BaselinesAreLast(procs[..|procs| - 1], windows, pid);
    }
  }

  lemma ContinuesIff(prev: PrevMap, before: Option<Proc>, p: Proc)
    requires p.pid in prev <==> before.Some?
    requires before.Some? ==> before.value.pid == p.pid && prev[p.pid] == Remember(before.value)
    ensures SameProcess(prev, p) <==> Continues(before, p)
  {
    hide SameText, EntryKey;
    if before.Some? {
      KeyIsLowerProgram(before.value);
      KeyIsLowerProgram(p);
      SameTextIff(Program(before.value), Program(p));
    }
  }

  lemma RateIs(pct: real, interval: real, cores: nat)
    requires pct > 0.0
    ensures (pct / 100.0) * Max(interval, 0.0) * (if cores == 0 then 1 else cores) as real ==
            if interval > 0.0 then pct * interval * (if cores < 1 then 1.0 else cores as real) / 100.0 else 0.0
  {
    var c := (if cores == 0 then 1 else cores) as real;
    assert c == if cores < 1 then 1.0 else cores as real;
    if interval > 0.0 {
      Hundredth(pct, interval * c);
      assert (pct / 100.0) * interval * c == (pct / 100.0) * (interval * c);
      assert pct * interval * c == pct * (interval * c);
    }
  }

  lemma Hundredth(x: real, y: real)
    ensures (x / 100.0) * y == x * y / 100.0
  {
  }

  lemma BytesAre(p: Proc, interval: real)
    ensures RateBytes(p.netRecvBps, p.netSentBps, interval) ==
            BytesAtRate(BytesPerSecond(p), interval)
  {
    hide BytesPerSecond, RateOr0;
    var bps := RateOr0(p.netRecvBps) + RateOr0(p.netSentBps);
    RatesAddUp(p);
    if interval > 0.0 {
      assert bps * Max(interval, 0.0) == BytesPerSecond(p) * interval;
    } else {
      assert bps * Max(interval, 0.0) == 0.0;
    }
  }

  lemma RatesAddUp(p: Proc)
    ensures RateOr0(p.netRecvBps) + RateOr0(p.netSentBps) == BytesPerSecond(p)
  {
  }

  lemma CpuIs(prev: PrevMap, before: Option<Proc>, p: Proc, t: Tick)
    requires p.pid in prev <==> before.Some?
    requires before.Some? ==> before.value.pid == p.pid && prev[p.pid] == Remember(before.value)
    ensures CpuDelta(prev, p, t) == CpuUsed(before, p, t)
  {
    hide SameProcess, Continues, EntryKey;
    ContinuesIff(prev, before, p);
    if p.cpuPct > 0.0 { RateIs(p.cpuPct, t.interval, t.logicalCount); }
    ContinuesHas(before, p);
  }

  lemma ContinuesHas(before: Option<Proc>, p: Proc)
    ensures Continues(before, p) ==> before.Some?
  {
  }

  lemma NetIs(prev: PrevMap, before: Option<Proc>, p: Proc, t: Tick)
    requires p.pid in prev <==> before.Some?
    requires before.Some? ==> before.value.pid == p.pid && prev[p.pid] == Remember(before.value)
    ensures NetDelta(prev, p, t) == NetUsed(before, p, t)
  {
    hide SameProcess, Continues, EntryKey, RateBytes, BytesAtRate, BytesPerSecond;
    ContinuesIff(prev, before, p);
    ContinuesHas(before, p);
    BytesAre(p, t.interval);
  }

  lemma CreditIsPlus(u: Usage, available: bool, cpu: real, net: nat)
    ensures Credit(u, available, cpu, net) ==
            Plus(u, if cpu <= 1.0 / 1000000.0 && net == 0 then Usage(0.0, 0, available) else Usage(cpu, net, available))
    ensures Plus(u, NO_USAGE) == u
  {
  }

  lemma NetworkAvailableIff(p: Proc)
    ensures NetworkAvailable(p) <==> HasTraffic(p) || HasRate(p)
  {
  }

  /** Crediting one sighting adds exactly that to its entry and nothing to any other. */
  lemma CreditAdds(e: Entries, prev: PrevMap, before: Option<Proc>, p: Proc, t: Tick, key: string)
    requires p.pid in prev <==> before.Some?
    requires before.Some? ==> before.value.pid == p.pid && prev[p.pid] == Remember(before.value)
    ensures Get(ObserveOne(e, prev, p, t), key) == Plus(Get(e, key), Adds(before, p, t, key))
  {
    hide CpuDelta, NetDelta, CpuUsed, NetUsed, FiledUnder, EntryKey, Credit, Plus, NetworkAvailable, HasTraffic, HasRate;
    CpuIs(prev, before, p, t);
    NetIs(prev, before, p, t);
    FiledUnderIff(p, key);
    NetworkAvailableIff(p);
    CreditIsPlus(Get(e, key), NetworkAvailable(p), CpuUsed(before, p, t), NetUsed(before, p, t));
  }

  lemma {:induction false} TickCredits(e: Entries, last: Option<Tick>, procs: seq<Proc>, t: Tick, key: string)
    ensures var prev := if last.Some? then NextPrev(last.value.processes, last.value.windows) else map[];
            Get(ObserveEntries(e, prev, procs, t), key) == Plus(Get(e, key), TickAdds(last, procs, t, key))
    decreases |procs|
  {
    hide Get, Adds, NextPrev, ObserveOne;
    if procs != [] {
      var rest, p := procs[..|procs| - 1], procs[|procs| - 1];
      TickCredits(e, last, rest, t, key);
      var prev := if last.Some? then NextPrev(last.value.processes, last.value.windows) else map[];
      var before := if last.Some? then LastOf(last.value.processes, last.value.windows, p.pid) else None;
      if last.Some? { BaselinesAreLast(last.value.processes, last.value.windows, p.pid); }
      CreditAdds(ObserveEntries(e, prev, rest, t), prev, before, p, t, key);
    }
  }

  /**
   After any run of snapshots - recycled pids, missing counters, gaps and counters that run
   backwards included - the totals of every entry are exactly what its sightings add, CPU time,
   traffic and availability.
   */
  lemma {:induction false} TotalsAreWhatSightingsAdd(ticks: seq<Tick>, key: string)
    ensures Get(ObserveAll(EMPTY, ticks).entries, key) == RunAdds(ticks, key)
    decreases |ticks|
  {
    if ticks != [] {
      hide Get, ObserveEntries, NextPrev, TickAdds;
      var rest, t := ticks[..|ticks| - 1], ticks[|ticks| - 1];
      TotalsAreWhatSightingsAdd(rest, key);
      PrevAfterRun(rest);
      NoBaselines();
      TickCredits(ObserveAll(EMPTY, rest).entries, LastTick(rest), t.processes, t, key);
    }
  }

  lemma NoBaselines()
    ensures forall windows :: NextPrev([], windows) == map[]
  {
  }

  // ------------------------------------------------------- availability

  /** An entry is shown as measured exactly if some sighting of it had a network counter pair or a rate. */
  predicate Measured(ticks: seq<Tick>, key: string) {
    exists i :: 0 <= i < |ticks| && MeasuredIn(ticks[i].processes, ticks[i].windows, key)
  }

  predicate MeasuredIn(procs: seq<Proc>, windows: bool, key: string) {
    exists j :: 0 <= j < |procs| && MeasuredBy(procs[j], windows, key)
  }

  predicate MeasuredBy(p: Proc, windows: bool, key: string) {
    Tracked(p, windows) && FiledUnder(p, key) && (HasTraffic(p) || HasRate(p))
  }

  lemma MeasuredOneMore(procs: seq<Proc>, windows: bool, key: string)
    requires procs != []
    ensures MeasuredIn(procs, windows, key) <==>
            MeasuredIn(procs[..|procs| - 1], windows, key) || MeasuredBy(procs[|procs| - 1], windows, key)
  {
    hide MeasuredBy;
    var rest := procs[..|procs| - 1];
    if j :| 0 <= j < |rest| && MeasuredBy(rest[j], windows, key) {
      assert MeasuredBy(procs[j], windows, key);
    }
    if j :| 0 <= j < |procs| && MeasuredBy(procs[j], windows, key) {
      if j < |rest| { assert MeasuredBy(rest[j], windows, key); }
    }
  }

  lemma {:induction false} TickMeasured(last: Option<Tick>, procs: seq<Proc>, t: Tick, key: string)
    ensures TickAdds(last, procs, t, key).available <==> MeasuredIn(procs, t.windows, key)
    decreases |procs|
  {
    hide FiledUnder, Negligible, CpuUsed, NetUsed, LastOf, HasTraffic, HasRate, MeasuredIn;
    if procs != [] {
      TickMeasured(last, procs[..|procs| - 1], t, key);
      MeasuredOneMore(procs, t.windows, key);
    } else {
      NothingMeasured(t.windows, key);
    }
  }

  lemma NothingMeasured(windows: bool, key: string)
    ensures !MeasuredIn([], windows, key)
  {
  }

  lemma {:induction false} AvailableIff(ticks: seq<Tick>, key: string)
    ensures Get(ObserveAll(EMPTY, ticks).entries, key).available <==> Measured(ticks, key)
    decreases |ticks|
  {
    hide TickAdds, MeasuredIn, Get, ObserveAll;
    TotalsAreWhatSightingsAdd(ticks, key);
    if ticks != [] {
      var rest, t := ticks[..|ticks| - 1], ticks[|ticks| - 1];
      AvailableIff(rest, key);
      TotalsAreWhatSightingsAdd(rest, key);
      TickMeasured(LastTick(rest), t.processes, t, key);
      if i :| 0 <= i < |rest| && MeasuredIn(rest[i].processes, rest[i].windows, key) {
        assert MeasuredIn(ticks[i].processes, ticks[i].windows, key);
      }
      if i :| 0 <= i < |ticks| && MeasuredIn(ticks[i].processes, ticks[i].windows, key) {
        if i < |rest| { assert MeasuredIn(rest[i].processes, rest[i].windows, key); }
      }
    }
  }

  // ------------------------------------------------------ on top of a baseline

  /** A merge adds up, traffic up to what 64 bits hold; where only one side has an entry it keeps that. */
  lemma MergeAddsUp(file: Entries, current: Entries, key: string)
    ensures var m := Merge(file, current);
            && (key in m <==> key in file || key in current)
            && (key in file && key !in current ==> m[key] == file[key])
            && (key in current ==>
                  var sum := Get(file, key).net + current[key].net;
                  && m[key].cpu == Get(file, key).cpu + current[key].cpu
                  && m[key].net == (if sum > 0xFFFF_FFFF_FFFF_FFFF then 0xFFFF_FFFF_FFFF_FFFF else sum)
                  && (m[key].available <==> Get(file, key).available || current[key].available))
  {
  }
}
