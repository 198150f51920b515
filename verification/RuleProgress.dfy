/**
 When a saved rule is attempted: exactly at the snapshots in which its process is there to
 be managed, no attempt succeeded or is under way, and fewer than three failed.
 */
module RuleProgress {
  import opened Common
  import opened ProcessRules

  predicate SaysSomething(rule: Rule) {
    rule.priority.Some? || rule.affinity.Some?
  }

  /** The snapshot has the process, it is another one than the program itself, and a rule that says something is saved for its image. */
  predicate Wanted(input: Input, x: Ident) {
    && x.pid != input.self
    && exists i :: 0 <= i < |input.procs| && WantedBy(input, input.procs[i], x)
  }

  predicate WantedBy(input: Input, p: Proc, x: Ident) {
    && p.pid == x.pid && p.start == Some(x.start) && p.path.Some?
    && input.keyOf(p.path.value) in input.rules
    && SaysSomething(input.rules[input.keyOf(p.path.value)])
  }

  /** Nothing stands in the way of an attempt. */
  predicate Open(s: State, x: Ident) {
    x !in s.applied && x !in s.inflight && Failures(s, x) < ATTEMPTS
  }

  lemma DueIff(s: State, p: Proc, input: Input, x: Ident)
    ensures Due(s, p, input) && Ident(p.pid, p.start.value) == x <==> Open(s, x) && x.pid != input.self && WantedBy(input, p, x)
  {
  }

  lemma {:induction false} PendingIff(s: State, procs: seq<Proc>, input: Input, x: Ident)
    ensures x in Pending(s, procs, input) <==>
              Open(s, x) && x.pid != input.self && exists i :: 0 <= i < |procs| && WantedBy(input, procs[i], x)
    decreases |procs|
  {
    hide Due, Open, WantedBy;
    if procs != [] {
      var init, p := procs[..|procs| - 1], procs[|procs| - 1];
      PendingIff(s, init, input, x);
      DueIff(s, p, input, x);
      if i :| 0 <= i < |init| && WantedBy(input, init[i], x) {
        assert WantedBy(input, procs[i], x);
      }
      if i :| 0 <= i < |procs| && WantedBy(input, procs[i], x) {
        if i < |init| { assert WantedBy(input, init[i], x); }
      }
      if WantedBy(input, p, x) {
        assert WantedBy(input, procs[|procs| - 1], x);
      }
    }
  }

  /** Settling results counts nothing as dispatched, failed or succeeded: that was done when they came in. */
  lemma {:induction false} SettleAllCounts(s: State, rs: seq<JobResult>, x: Ident)
    ensures var n, t := Count(SettleAll(s, rs).log, x), Count(s.log, x);
            n.dispatched == t.dispatched && n.failed == t.failed && n.succeeded == t.succeeded
    ensures SettleAll(s, rs).jobs == s.jobs
    decreases |rs|
  {
    if rs != [] {
      hide Count;
      var mid := SettleAll(s, rs[..|rs| - 1]);
      SettleAllCounts(s, rs[..|rs| - 1], x);
      SettleCounts(mid, rs[|rs| - 1], x);
    }
  }

  lemma SettleCounts(s: State, r: JobResult, x: Ident)
    ensures var n, t := Count(Settle(s, r).log, x), Count(s.log, x);
            n.dispatched == t.dispatched && n.failed == t.failed && n.succeeded == t.succeeded
    ensures Settle(s, r).jobs == s.jobs
  {
    CountAppend(s.log, Warned(r.id), x);
    hide Count;
  }

  lemma DispatchCounts(s: State, id: Ident, accepted: bool, x: Ident)
    ensures Count(Dispatch(s, id, accepted).log, x).dispatched == Count(s.log, x).dispatched + if id == x then 1 else 0
  {
    CountAppend(s.log, Dispatched(id), x);
    CountAppend(s.log + [Dispatched(id)], Refused(id), x);
    assert s.log + [Dispatched(id), Refused(id)] == s.log + [Dispatched(id)] + [Refused(id)];
    hide Count;
  }

  lemma {:induction false} DispatchAllCounts(s: State, ids: seq<Ident>, accepts: Ident -> bool, x: Ident)
    ensures Count(DispatchAll(s, ids, accepts).log, x).dispatched == Count(s.log, x).dispatched + multiset(ids)[x]
    decreases |ids|
  {
    hide Count, Dispatch;
    if ids != [] {
      var init, id := ids[..|ids| - 1], ids[|ids| - 1];
      assert ids == init + [id];
      DispatchAllCounts(s, init, accepts, x);
      DispatchCounts(DispatchAll(s, init, accepts), id, accepts(id), x);
    }
  }

  /** With every result read, the collections say what the log says. */
  lemma OpenIff(s: State, x: Ident)
    requires Inv(s, x) && s.results == []
    ensures Open(s, x) <==> Count(s.log, x).succeeded == 0 && Count(s.log, x).failed < 3 && Outstanding(s.jobs, x) == 0
  {
    hide Count;
  }

  lemma SettledInv(s: State, input: Input, x: Ident) returns (settled: State)
    requires Inv(s, x) && x in Live(input.procs)
    ensures var kept := Retain(s, Live(input.procs)); settled == SettleAll(kept.(results := []), kept.results)
    ensures Inv(settled, x) && settled.results == [] && settled.jobs == s.jobs
    ensures var n, t := Count(settled.log, x), Count(s.log, x);
            n.dispatched == t.dispatched && n.failed == t.failed && n.succeeded == t.succeeded
  {
    var kept := Retain(s, Live(input.procs));
    settled := SettleAll(kept.(results := []), kept.results);
    assert kept.results + [] == kept.results;
    assert kept.(results := []).(results := kept.results + []) == kept;
    SettleAllKeeps(kept.(results := []), kept.results, [], x);
    SettleAllResults(kept.(results := []), kept.results);
    assert settled.(results := []) == settled;
    SettleAllCounts(kept.(results := []), kept.results, x);
    hide Count, SettleAll;
  }

  /**
   For a process that stays alive, over every run: a snapshot starts one attempt exactly if the rules
   are on, the process is wanted, no attempt succeeded or is under way, and fewer than three failed;
   otherwise it starts none. So a rule is tried until it succeeds or has failed three times.
   */
  lemma AttemptedExactlyWhenDue(steps: seq<Step>, input: Input, x: Ident)
    requires AliveThroughout(steps, x) && (input.enabled ==> UniquePids(input.procs) && x in Live(input.procs))
    ensures var s := Run(steps);
            var t := Count(s.log, x);
            var due := input.enabled && Wanted(input, x) && t.succeeded == 0 && t.failed < 3 && Outstanding(s.jobs, x) == 0;
            Count(Next(s, Snapshot(input)).log, x).dispatched == t.dispatched + if due then 1 else 0
  {
    hide Count, Inv, Open, Due, Pending, DispatchAll, SettleAll, Live, Run;
    InvRun(steps, x);
    var s := Run(steps);
    if input.enabled {
      var settled := SettledInv(s, input, x);
      OpenIff(settled, x);
      PendingIff(settled, input.procs, input, x);
      PendingIsDue(settled, input.procs, input, x);
      var ids := Pending(settled, input.procs, input);
      assert x in ids <==> multiset(ids)[x] > 0;
      DispatchAllCounts(settled, ids, input.accepts, x);
    }
  }

  /** A lane never holds more than 32 jobs, and one is refused only if every connected lane holds that many. */
  lemma LanesStayBounded<J>(before: seq<Lane<J>>, after: seq<Lane<J>>, start: nat, offset: nat, job: J)
    requires before != [] && Placed(before, after, start, offset, job)
    requires forall k :: 0 <= k < |before| ==> |before[k].queue| <= 32
    ensures forall k :: 0 <= k < |after| ==> |after[k].queue| <= 32
    ensures forall k :: 0 <= k < |before| && !Takes(before[k]) ==> !before[k].connected || |before[k].queue| == 32
  {
  }

  /** A job that finishes leaves the outstanding ones and reports its own process, once. */
  lemma FinishReports(s: State, i: nat, ok: bool, x: Ident)
    requires i < |s.jobs|
    ensures var n := FinishJob(s, i, ok);
            && Outstanding(n.jobs, x) == Outstanding(s.jobs, x) - (if x == s.jobs[i] then 1 else 0)
            && n.results == s.results + [JobResult(s.jobs[i], !ok)]
            && Count(n.log, x).succeeded == Count(s.log, x).succeeded + (if ok && x == s.jobs[i] then 1 else 0)
            && Count(n.log, x).failed == Count(s.log, x).failed + (if !ok && x == s.jobs[i] then 1 else 0)
  {
    CountAppend(s.log, Done(s.jobs[i], ok), x);
    hide Count;
    assert s.jobs == s.jobs[..i] + [s.jobs[i]] + s.jobs[i + 1..];
  }

  // ------------------------------------------------------- a byte of failures

  /** `u8::saturating_add`: no count of failures leaves a byte. */
  ghost predicate FitsAByte(s: State) {
    forall id :: id in s.failures ==> s.failures[id] <= 255
  }

  lemma {:induction false} SettleAllFits(s: State, rs: seq<JobResult>)
    requires FitsAByte(s)
    ensures FitsAByte(SettleAll(s, rs))
    decreases |rs|
  {
    if rs != [] {
      SettleAllFits(s, rs[..|rs| - 1]);
    }
  }

  lemma {:induction false} DispatchAllFailures(s: State, ids: seq<Ident>, accepts: Ident -> bool)
    ensures DispatchAll(s, ids, accepts).failures == s.failures
    decreases |ids|
  {
    if ids != [] {
      DispatchAllFailures(s, ids[..|ids| - 1], accepts);
    }
  }

  /** Over every run, also one in which processes come and go and attempts overlap. */
  lemma {:induction false} FailuresFitAByte(steps: seq<Step>)
    ensures FitsAByte(Run(steps))
    decreases |steps|
  {
    if steps != [] {
      FailuresFitAByte(steps[..|steps| - 1]);
      var s := Run(steps[..|steps| - 1]);
      match steps[|steps| - 1]
      case Snapshot(input) =>
        if input.enabled {
          var kept := Retain(s, Live(input.procs));
          SettleAllFits(kept.(results := []), kept.results);
          var settled := SettleAll(kept.(results := []), kept.results);
          DispatchAllFailures(settled, Pending(settled, input.procs, input), input.accepts);
        }
      case Finish(i, ok) =>
    }
  }
}
