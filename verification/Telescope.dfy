/**
 Differencing cumulative counters.

 Both the application history and the startup-impact tracker turn counters that
 only ever grow into per-application totals by charging, on every tick, the
 difference to the previous tick's reading of the same process. This module
 proves once what such a sum amounts to: over any run of snapshots it telescopes
 to one (last - base) per maximal stretch of consecutive sightings.
 */
module Telescope {
  import opened Common

  /** One process as both trackers tell processes apart. */
  datatype Ident = Ident(pid: nat, start: Option<int>, key: string)

  /** One counter reading of one process in one snapshot. */
  datatype Obs = Obs(id: Ident, value: real)

  type Reading = Option<real>

  /** What one tick is charged for one process. `base` is what a first sighting is measured from, if anything. */
  function Charge(before: Reading, now: Reading, base: Reading): real {
    if now.None? then 0.0
    else if before.Some? then now.value - before.value
    else if base.Some? then now.value - base.value
    else 0.0
  }

  /** Sum of the per-tick charges over a sequence of readings. */
  function StepSum(before: Reading, rs: seq<Reading>, base: Reading): real
    decreases |rs|
  {
    if rs == [] then 0.0
    else Charge(before, rs[0], base) + StepSum(rs[0], rs[1..], base)
  }

  /** How many readings in a row are present from the front. */
  function StretchLen(rs: seq<Reading>): (n: nat)
    ensures n <= |rs|
    ensures forall i :: 0 <= i < n ==> rs[i].Some?
    ensures n < |rs| ==> rs[n].None?
  {
    if rs == [] || rs[0].None? then 0 else 1 + StretchLen(rs[1..])
  }

  /** One (last - base) per maximal stretch of consecutive readings; without a base the stretch's own first reading. */
  function StretchSum(rs: seq<Reading>, base: Reading): real
    decreases |rs|
  {
    if rs == [] then 0.0
    else if rs[0].None? then StretchSum(rs[1..], base)
    else
      var n := StretchLen(rs);
      rs[n - 1].value - (if base.Some? then base.value else rs[0].value) + StretchSum(rs[n..], base)
  }

  /** Charging tick by tick telescopes to one difference per stretch. */
  lemma {:induction false} StepsTelescope(before: Reading, rs: seq<Reading>, base: Reading)
    ensures before.None? ==> StepSum(before, rs, base) == StretchSum(rs, base)
    ensures before.Some? ==>
              var n := StretchLen(rs);
              StepSum(before, rs, base) ==
              (if n == 0 then 0.0 else rs[n - 1].value - before.value) + StretchSum(rs[n..], base)
    decreases |rs|
  {
    if rs == [] {
    } else {
      StepsTelescope(rs[0], rs[1..], base);
      if rs[0].None? {
        assert rs[0..] == rs;
      } else {
        var m := StretchLen(rs[1..]);
        assert rs[1..][m..] == rs[m + 1..];
      }
    }
  }

  /** A process with no sighting before tick `i` nor after tick `j` is charged exactly (last - base). */
  lemma {:induction false} SingleStretch(rs: seq<Reading>, base: Reading, i: nat, j: nat)
    requires i <= j < |rs|
    requires forall t :: 0 <= t < |rs| ==> (rs[t].Some? <==> i <= t <= j)
    ensures StretchSum(rs, base) == rs[j].value - (if base.Some? then base.value else rs[i].value)
    decreases |rs|
  {
    if i > 0 {
      SingleStretch(rs[1..], base, i - 1, j - 1);
    } else {
      var n := StretchLen(rs);
      assert j + 1 < |rs| ==> rs[j + 1].None?;
      NoReadings(rs[n..], base);
    }
  }

  /** First and last reading of a sequence. */
  function First(rs: seq<Reading>): Reading {
    if rs == [] then None else if rs[0].Some? then rs[0] else First(rs[1..])
  }

  function Last(rs: seq<Reading>): Reading {
    if rs == [] then None else if rs[|rs| - 1].Some? then rs[|rs| - 1] else Last(rs[..|rs| - 1])
  }

  /** No gap: the readings present form one block. */
  predicate Contiguous(rs: seq<Reading>) {
    forall i, j, k :: 0 <= i < j < k < |rs| && rs[i].Some? && rs[k].Some? ==> rs[j].Some?
  }

  /** (last - base), or nothing for a process never seen. */
  function Span(rs: seq<Reading>, base: Reading): real {
    if First(rs).None? || Last(rs).None? then 0.0
    else Last(rs).value - (if base.Some? then base.value else First(rs).value)
  }

  lemma {:induction false} FirstAt(rs: seq<Reading>) returns (i: nat)
    ensures First(rs).Some? ==> i < |rs| && rs[i] == First(rs) && forall t :: 0 <= t < i ==> rs[t].None?
    ensures First(rs).None? ==> forall t :: 0 <= t < |rs| ==> rs[t].None?
    decreases |rs|
  {
    i := 0;
    if rs != [] && rs[0].None? {
      i := FirstAt(rs[1..]);
      assert forall t :: 1 <= t < |rs| ==> rs[t] == rs[1..][t - 1];
      i := i + 1;
    }
  }

  lemma {:induction false} LastAt(rs: seq<Reading>) returns (j: nat)
    ensures Last(rs).Some? ==> j < |rs| && rs[j] == Last(rs) && forall t :: j < t < |rs| ==> rs[t].None?
    ensures Last(rs).None? ==> forall t :: 0 <= t < |rs| ==> rs[t].None?
    decreases |rs|
  {
    j := 0;
    if rs != [] {
      if rs[|rs| - 1].Some? {
        j := |rs| - 1;
      } else {
        j := LastAt(rs[..|rs| - 1]);
      }
    }
  }

  /** Without gaps a process is charged its span. */
  lemma ContiguousSpan(rs: seq<Reading>, base: Reading)
    requires Contiguous(rs)
    ensures StretchSum(rs, base) == Span(rs, base)
  {
    var i := FirstAt(rs);
    var j := LastAt(rs);
    if First(rs).None? || Last(rs).None? {
      NoReadings(rs, base);
    } else {
      assert rs[i].Some? && rs[j].Some?;
      SingleStretch(rs, base, i, j);
    }
  }

  lemma {:induction false} NoReadings(rs: seq<Reading>, base: Reading)
    requires forall t :: 0 <= t < |rs| ==> rs[t].None?
    ensures StretchSum(rs, base) == 0.0
    decreases |rs|
  {
    if rs != [] {
      NoReadings(rs[1..], base);
    }
  }

  lemma {:induction false} StepSumAppend(before: Reading, rs: seq<Reading>, r: Reading, base: Reading)
    ensures StepSum(before, rs + [r], base) ==
            StepSum(before, rs, base) + Charge(if rs == [] then before else rs[|rs| - 1], r, base)
    decreases |rs|
  {
    if rs == [] {
      assert (rs + [r])[1..] == [];
    } else {
      StepSumAppend(rs[0], rs[1..], r, base);
      assert (rs + [r])[1..] == rs[1..] + [r];
    }
  }

  // ------------------------------------------------------------ snapshots

  predicate DistinctIds(snap: seq<Obs>) {
    forall i, j :: 0 <= i < j < |snap| ==> snap[i].id != snap[j].id
  }

  /** The reading of `id` in one snapshot. */
  function At(snap: seq<Obs>, id: Ident): Reading {
    if snap == [] then None
    else if snap[|snap| - 1].id == id then Some(snap[|snap| - 1].value)
    else At(snap[..|snap| - 1], id)
  }

  lemma {:induction false} AtAbsent(snap: seq<Obs>, id: Ident)
    requires forall i :: 0 <= i < |snap| ==> snap[i].id != id
    ensures At(snap, id).None?
    decreases |snap|
  {
    if snap != [] {
      AtAbsent(snap[..|snap| - 1], id);
    }
  }

  /** A process started at or after `boot` is charged from zero, any other only from its first sighting. */
  function Base(id: Ident, boot: Option<int>): Reading {
    if boot.Some? && id.start.Some? && id.start.value >= boot.value then Some(0.0) else None
  }

  /** The reading of every tick for one process. */
  function Readings(run: seq<seq<Obs>>, id: Ident): (rs: seq<Reading>)
    ensures |rs| == |run|
    ensures forall t :: 0 <= t < |run| ==> rs[t] == At(run[t], id)
  {
    if run == [] then [] else Readings(run[..|run| - 1], id) + [At(run[|run| - 1], id)]
  }

  function Previous(run: seq<seq<Obs>>): seq<Obs> {
    if run == [] then [] else run[|run| - 1]
  }

  /** What one snapshot adds to application `key`, walking the processes in their order. */
  function SnapCharge(before: seq<Obs>, snap: seq<Obs>, key: string, boot: Option<int>): real {
    if snap == [] then 0.0
    else
      var o := snap[|snap| - 1];
      SnapCharge(before, snap[..|snap| - 1], key, boot) +
      if o.id.key == key then Charge(At(before, o.id), Some(o.value), Base(o.id, boot)) else 0.0
  }

  /** What a whole run adds to application `key`. */
  function RunCharge(run: seq<seq<Obs>>, key: string, boot: Option<int>): real {
    if run == [] then 0.0
    else
      var earlier := run[..|run| - 1];
      RunCharge(earlier, key, boot) + SnapCharge(Previous(earlier), run[|run| - 1], key, boot)
  }

  /** The same tick, summed over a list of identities instead of over the snapshot. */
  function IdentCharge(ids: seq<Ident>, before: seq<Obs>, snap: seq<Obs>, boot: Option<int>): real {
    if ids == [] then 0.0
    else
      var id := ids[|ids| - 1];
      IdentCharge(ids[..|ids| - 1], before, snap, boot) + Charge(At(before, id), At(snap, id), Base(id, boot))
  }

  function StepTotal(ids: seq<Ident>, run: seq<seq<Obs>>, boot: Option<int>): real {
    if ids == [] then 0.0
    else
      var id := ids[|ids| - 1];
      StepTotal(ids[..|ids| - 1], run, boot) + StepSum(None, Readings(run, id), Base(id, boot))
  }

  /** One (last - base) per maximal stretch, summed over the identities. */
  function StretchTotal(ids: seq<Ident>, run: seq<seq<Obs>>, boot: Option<int>): real {
    if ids == [] then 0.0
    else
      var id := ids[|ids| - 1];
      StretchTotal(ids[..|ids| - 1], run, boot) + StretchSum(Readings(run, id), Base(id, boot))
  }

  /** One (last - base) per identity. */
  function SpanTotal(ids: seq<Ident>, run: seq<seq<Obs>>, boot: Option<int>): real {
    if ids == [] then 0.0
    else
      var id := ids[|ids| - 1];
      SpanTotal(ids[..|ids| - 1], run, boot) + Span(Readings(run, id), Base(id, boot))
  }

  lemma {:induction false} ContiguousTotal(ids: seq<Ident>, run: seq<seq<Obs>>, boot: Option<int>)
    requires forall i :: 0 <= i < |ids| ==> Contiguous(Readings(run, ids[i]))
    ensures StretchTotal(ids, run, boot) == SpanTotal(ids, run, boot)
    decreases |ids|
  {
    if ids != [] {
      ContiguousTotal(ids[..|ids| - 1], run, boot);
      ContiguousSpan(Readings(run, ids[|ids| - 1]), Base(ids[|ids| - 1], boot));
    }
  }

  /** `ids` lists, once each, exactly identities of `key`, and misses none that occurs. */
  ghost predicate Lists(ids: seq<Ident>, key: string, snap: seq<Obs>) {
    && NoDup(ids)
    && (forall i :: 0 <= i < |ids| ==> ids[i].key == key)
    && (forall j :: 0 <= j < |snap| && snap[j].id.key == key ==> snap[j].id in ids)
  }

  /** Add the identities of `key` that one snapshot shows for the first time. */
  function Newcomers(ids: seq<Ident>, snap: seq<Obs>, key: string): seq<Ident> {
    if snap == [] then ids
    else
      var earlier, id := Newcomers(ids, snap[..|snap| - 1], key), snap[|snap| - 1].id;
      if id.key == key && id !in earlier then earlier + [id] else earlier
  }

  /** The identities of `key` in a run, in the order of their first sighting. */
  function Idents(run: seq<seq<Obs>>, key: string): seq<Ident> {
    if run == [] then [] else Newcomers(Idents(run[..|run| - 1], key), run[|run| - 1], key)
  }

  lemma {:induction false} NewcomersList(ids: seq<Ident>, snap: seq<Obs>, key: string)
    requires NoDup(ids) && forall i :: 0 <= i < |ids| ==> ids[i].key == key
    ensures Lists(Newcomers(ids, snap, key), key, snap)
    ensures forall id :: id in ids ==> id in Newcomers(ids, snap, key)
    decreases |snap|
  {
    if snap != [] {
      NewcomersList(ids, snap[..|snap| - 1], key);
      var earlier := Newcomers(ids, snap[..|snap| - 1], key);
      assert forall j :: 0 <= j < |snap| - 1 ==> snap[..|snap| - 1][j] == snap[j];
      assert forall id :: id in earlier ==> id in Newcomers(ids, snap, key);
    }
  }

  /** That list serves every snapshot of the run. */
  lemma {:induction false} IdentsList(run: seq<seq<Obs>>, key: string)
    ensures NoDup(Idents(run, key)) && forall i :: 0 <= i < |Idents(run, key)| ==> Idents(run, key)[i].key == key
    ensures forall t :: 0 <= t < |run| ==> Lists(Idents(run, key), key, run[t])
    decreases |run|
  {
    if run != [] {
      var init, ids := run[..|run| - 1], Idents(run[..|run| - 1], key);
      IdentsList(init, key);
      NewcomersList(ids, run[|run| - 1], key);
      forall t | 0 <= t < |run|
        ensures Lists(Idents(run, key), key, run[t])
      {
        if t < |run| - 1 {
          assert init[t] == run[t] && Lists(ids, key, init[t]);
        }
      }
    }
  }

  /** The same processes in the same places, whichever counter was read. */
  ghost predicate SameIds(a: seq<Obs>, b: seq<Obs>) {
    |a| == |b| && forall i :: 0 <= i < |a| ==> a[i].id == b[i].id
  }

  lemma {:induction false} NewcomersAgree(ids: seq<Ident>, a: seq<Obs>, b: seq<Obs>, key: string)
    requires SameIds(a, b)
    ensures Newcomers(ids, a, key) == Newcomers(ids, b, key)
    decreases |a|
  {
    if a != [] {
      NewcomersAgree(ids, a[..|a| - 1], b[..|b| - 1], key);
    }
  }

  lemma {:induction false} IdentsAgree(a: seq<seq<Obs>>, b: seq<seq<Obs>>, key: string)
    requires |a| == |b| && forall t :: 0 <= t < |a| ==> SameIds(a[t], b[t])
    ensures Idents(a, key) == Idents(b, key)
    decreases |a|
  {
    if a != [] {
      var x, y := a[..|a| - 1], b[..|b| - 1];
      assert forall t :: 0 <= t < |x| ==> x[t] == a[t] && y[t] == b[t];
      IdentsAgree(x, y, key);
      NewcomersAgree(Idents(x, key), a[|a| - 1], b[|b| - 1], key);
    }
  }

  /** One more observation changes the identity sum only at its own identity. */
  lemma {:induction false} IdentChargeAppend(ids: seq<Ident>, before: seq<Obs>, snap: seq<Obs>, o: Obs, boot: Option<int>)
    requires NoDup(ids) && At(snap, o.id).None?
    ensures IdentCharge(ids, before, snap + [o], boot) ==
            IdentCharge(ids, before, snap, boot) +
            if o.id in ids then Charge(At(before, o.id), Some(o.value), Base(o.id, boot)) else 0.0
    decreases |ids|
  {
    assert (snap + [o])[..|snap|] == snap;
    if ids != [] {
      var rest := ids[..|ids| - 1];
      IdentChargeAppend(rest, before, snap, o, boot);
      assert ids == rest + [ids[|ids| - 1]];
    }
  }

  lemma {:induction false} IdentChargeEmpty(ids: seq<Ident>, before: seq<Obs>, boot: Option<int>)
    ensures IdentCharge(ids, before, [], boot) == 0.0
    decreases |ids|
  {
    if ids != [] {
      IdentChargeEmpty(ids[..|ids| - 1], before, boot);
    }
  }

  /** Walking the snapshot charges exactly what walking the identities does. */
  lemma {:induction false} SnapIsIdent(ids: seq<Ident>, before: seq<Obs>, snap: seq<Obs>, key: string, boot: Option<int>)
    requires DistinctIds(snap) && Lists(ids, key, snap)
    ensures SnapCharge(before, snap, key, boot) == IdentCharge(ids, before, snap, boot)
    decreases |snap|
  {
    if snap == [] {
      IdentChargeEmpty(ids, before, boot);
    } else {
      var rest, o := snap[..|snap| - 1], snap[|snap| - 1];
      SnapIsIdent(ids, before, rest, key, boot);
      AtAbsent(rest, o.id);
      assert snap == rest + [o];
      IdentChargeAppend(ids, before, rest, o, boot);
    }
  }

  lemma {:induction false} StepTotalAppend(ids: seq<Ident>, run: seq<seq<Obs>>, snap: seq<Obs>, boot: Option<int>)
    ensures StepTotal(ids, run + [snap], boot) ==
            StepTotal(ids, run, boot) + IdentCharge(ids, Previous(run), snap, boot)
    decreases |ids|
  {
    if ids != [] {
      var id := ids[|ids| - 1];
      StepTotalAppend(ids[..|ids| - 1], run, snap, boot);
      assert (run + [snap])[..|run|] == run;
      StepSumAppend(None, Readings(run, id), At(snap, id), Base(id, boot));
    }
  }

  lemma {:induction false} StepTotalIsStretchTotal(ids: seq<Ident>, run: seq<seq<Obs>>, boot: Option<int>)
    ensures StepTotal(ids, run, boot) == StretchTotal(ids, run, boot)
    decreases |ids|
  {
    if ids != [] {
      var id := ids[|ids| - 1];
      StepTotalIsStretchTotal(ids[..|ids| - 1], run, boot);
      StepsTelescope(None, Readings(run, id), Base(id, boot));
    }
  }

  lemma {:induction false} StepTotalEmpty(ids: seq<Ident>, boot: Option<int>)
    ensures StepTotal(ids, [], boot) == 0.0
    decreases |ids|
  {
    if ids != [] {
      StepTotalEmpty(ids[..|ids| - 1], boot);
    }
  }

  /** The whole run, charged process by process and tick by tick, is one (last - base) per stretch. */
  lemma {:induction false} RunTelescopes(run: seq<seq<Obs>>, ids: seq<Ident>, key: string, boot: Option<int>)
    requires forall t :: 0 <= t < |run| ==> DistinctIds(run[t]) && Lists(ids, key, run[t])
    ensures RunCharge(run, key, boot) == StretchTotal(ids, run, boot)
    decreases |run|
  {
    RunIsStepTotal(run, ids, key, boot);
    StepTotalIsStretchTotal(ids, run, boot);
  }

  lemma {:induction false} RunIsStepTotal(run: seq<seq<Obs>>, ids: seq<Ident>, key: string, boot: Option<int>)
    requires forall t :: 0 <= t < |run| ==> DistinctIds(run[t]) && Lists(ids, key, run[t])
    ensures RunCharge(run, key, boot) == StepTotal(ids, run, boot)
    decreases |run|
  {
    if run == [] {
      StepTotalEmpty(ids, boot);
    } else {
      var earlier, snap := run[..|run| - 1], run[|run| - 1];
      hide DistinctIds, Lists, StepTotal, IdentCharge, SnapCharge;
      assert run == earlier + [snap];
      assert forall t :: 0 <= t < |earlier| ==> earlier[t] == run[t];
      assert DistinctIds(run[|run| - 1]) && Lists(ids, key, run[|run| - 1]);
      RunIsStepTotal(earlier, ids, key, boot);
      SnapIsIdent(ids, Previous(earlier), snap, key, boot);
      StepTotalAppend(ids, earlier, snap, boot);
    }
  }
}
