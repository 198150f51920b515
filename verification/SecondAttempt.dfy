/**
 Saved process rules for a process that is missing from some snapshots: exactly when a
 second attempt is started while one is still outstanding.
 */
module SecondAttempt {
  import opened Common
  import opened ProcessRules

  /** Pids are unique in every snapshot the rules are applied to; processes may come and go. */
  predicate UniqueRun(steps: seq<Step>) {
    steps == [] ||
    var last := steps[|steps| - 1];
    UniqueRun(steps[..|steps| - 1]) && (last.Snapshot? && last.input.enabled ==> UniquePids(last.input.procs))
  }

  /** So far no two attempts at `x` were outstanding together. */
  predicate Single(steps: seq<Step>, x: Ident) {
    steps == [] || (Single(steps[..|steps| - 1], x) && Outstanding(Run(steps).jobs, x) <= 1)
  }

  /** Some snapshot missed `x` while its attempt was outstanding, and that attempt still is. */
  predicate Forgotten(steps: seq<Step>, x: Ident) {
    && steps != []
    && Outstanding(Run(steps).jobs, x) == 1
    && (Misses(steps[|steps| - 1], x) || Forgotten(steps[..|steps| - 1], x))
  }

  predicate Misses(step: Step, x: Ident) {
    step.Snapshot? && step.input.enabled && x !in Live(step.input.procs)
  }

  predicate Unanswered(rs: seq<JobResult>, x: Ident) {
    forall i :: 0 <= i < |rs| ==> rs[i].id != x
  }

  // ----------------------------------------------- one snapshot, as `x` sees it

  /** The state after the results have been taken into account. */
  function Settled(s: State, input: Input): State {
    var kept := Retain(s, Live(input.procs));
    SettleAll(kept.(results := []), kept.results)
  }

  /** `x` is due again and the executor has room. */
  predicate Restarts(s: State, input: Input, x: Ident) {
    input.enabled && x in Pending(Settled(s, input), input.procs, input) && input.accepts(x)
  }

  lemma {:induction false} SettleAllFor(s: State, rs: seq<JobResult>, x: Ident)
    ensures SettleAll(s, rs).jobs == s.jobs && SettleAll(s, rs).results == s.results
    ensures x in SettleAll(s, rs).inflight <==> x in s.inflight && Unanswered(rs, x)
    decreases |rs|
  {
    if rs != [] {
      var init, r := rs[..|rs| - 1], rs[|rs| - 1];
      SettleAllFor(s, init, x);
      assert Unanswered(rs, x) <==> Unanswered(init, x) && r.id != x by {
        assert forall i :: 0 <= i < |init| ==> init[i] == rs[i];
      }
    }
  }

  /** What dispatching does to the parts that concern `x`. */
  ghost predicate DispatchedFor(s: State, n: State, dispatched: bool, accepted: bool, x: Ident) {
    && Outstanding(n.jobs, x) == Outstanding(s.jobs, x) + (if dispatched && accepted then 1 else 0)
    && (x in n.inflight <==> if dispatched then accepted else x in s.inflight)
    && (Unanswered(n.results, x) <==> Unanswered(s.results, x) && !(dispatched && !accepted))
  }

  lemma DispatchFor(s: State, id: Ident, accepted: bool, x: Ident)
    ensures DispatchedFor(s, Dispatch(s, id, accepted), id == x, accepted, x)
  {
    var n := Dispatch(s, id, accepted);
    assert forall i :: 0 <= i < |s.results| ==> n.results[i] == s.results[i];
    if !accepted {
      assert n.results[|s.results|].id == id;
    }
  }

  lemma {:induction false} DispatchAllFor(s: State, ids: seq<Ident>, accepts: Ident -> bool, x: Ident)
    requires multiset(ids)[x] <= 1
    ensures DispatchedFor(s, DispatchAll(s, ids, accepts), x in ids, accepts(x), x)
    decreases |ids|
  {
    if ids != [] {
      hide Dispatch;
      var init, id := ids[..|ids| - 1], ids[|ids| - 1];
      assert ids == init + [id];
      DispatchAllFor(s, init, accepts, x);
      DispatchFor(DispatchAll(s, init, accepts), id, accepts(id), x);
      assert x in ids <==> x in init || id == x;
      assert id == x ==> x !in init by {
        assert multiset(ids)[x] == multiset(init)[x] + multiset{id}[x];
      }
    }
  }

  lemma {:induction false} PendingIsLive(s: State, procs: seq<Proc>, input: Input, x: Ident)
    requires x in Pending(s, procs, input)
    ensures x in Live(procs)
    decreases |procs|
  {
    var init, p := procs[..|procs| - 1], procs[|procs| - 1];
    assert procs == init + [p];
    if x in Pending(s, init, input) {
      PendingIsLive(s, init, input, x);
    }
  }

  /** One enabled snapshot. */
  lemma ApplyFor(s: State, input: Input, x: Ident)
    requires input.enabled && UniquePids(input.procs)
    ensures
      var n, pending := Apply(s, input), x in Pending(Settled(s, input), input.procs, input);
      && (pending ==> x in Live(input.procs) && !(x in s.inflight && Unanswered(s.results, x)))
      && Outstanding(n.jobs, x) == Outstanding(s.jobs, x) + (if pending && input.accepts(x) then 1 else 0)
      && (x in n.inflight <==>
            if pending then input.accepts(x)
            else x in s.inflight && x in Live(input.procs) && Unanswered(s.results, x))
      && (Unanswered(n.results, x) <==> !(pending && !input.accepts(x)))
  {
    var kept := Retain(s, Live(input.procs));
    var settled := Settled(s, input);
    SettleAllFor(kept.(results := []), kept.results, x);
    PendingIsDue(settled, input.procs, input, x);
    hide Pending, DispatchAll, SettleAll;
    if x in Pending(settled, input.procs, input) {
      PendingIsLive(settled, input.procs, input, x);
    }
    DispatchAllFor(settled, Pending(settled, input.procs, input), input.accepts, x);
  }

  lemma FinishFor(s: State, i: nat, ok: bool, x: Ident)
    ensures
      var n := FinishJob(s, i, ok);
      && n.inflight == s.inflight && Outstanding(n.jobs, x) <= Outstanding(s.jobs, x)
      && (Outstanding(n.jobs, x) == Outstanding(s.jobs, x) && Unanswered(s.results, x) ==> Unanswered(n.results, x))
  {
    if i < |s.jobs| {
      assert s.jobs == s.jobs[..i] + [s.jobs[i]] + s.jobs[i + 1..];
    }
  }

  // ------------------------------------------------------------ whole runs

  /** While one attempt is outstanding, it is on the books exactly unless it was forgotten. */
  ghost predicate OnTheBooks(steps: seq<Step>, x: Ident) {
    var s := Run(steps);
    Outstanding(s.jobs, x) == 1 ==>
      && (x in s.inflight <==> !Forgotten(steps, x))
      && (x in s.inflight ==> Unanswered(s.results, x))
  }

  lemma {:induction false} BooksRun(steps: seq<Step>, x: Ident)
    requires UniqueRun(steps) && Single(steps, x)
    ensures OnTheBooks(steps, x)
    decreases |steps|
  {
    if steps != [] {
      hide OnTheBooks, Next, UniquePids;
      BooksRun(steps[..|steps| - 1], x);
      BooksStep(steps, x);
    }
  }

  lemma BooksStep(steps: seq<Step>, x: Ident)
    requires steps != [] && UniqueRun(steps) && Single(steps, x) && OnTheBooks(steps[..|steps| - 1], x)
    ensures OnTheBooks(steps, x)
  {
    var init, step := steps[..|steps| - 1], steps[|steps| - 1];
    var s := Run(init);
    SingleNow(init, x);
    ForgottenIsOutstanding(init, x);
    ForgottenStep(steps, x);
    assert Run(steps) == Next(s, step);
    hide Run, Forgotten, Single, Outstanding, Unanswered, Live, Pending, Settled;
    match step
    case Finish(i, ok) => FinishFor(s, i, ok, x);
    case Snapshot(input) =>
      if input.enabled {
        ApplyFor(s, input, x);
        hide Apply;
      }
  }

  lemma ForgottenStep(steps: seq<Step>, x: Ident)
    requires steps != []
    ensures Forgotten(steps, x) <==>
              Outstanding(Run(steps).jobs, x) == 1 && (Misses(steps[|steps| - 1], x) || Forgotten(steps[..|steps| - 1], x))
  {
  }

  lemma SingleNow(steps: seq<Step>, x: Ident)
    requires Single(steps, x)
    ensures Outstanding(Run(steps).jobs, x) <= 1
  {
  }

  /**
   The first time two attempts at one process are outstanding together: exactly when a
   snapshot missed the process while its attempt was outstanding, the attempt has not
   ended since, and a snapshot finds the process due while the executor has room.
   */
  lemma SecondAttemptIff(steps: seq<Step>, step: Step, x: Ident)
    requires UniqueRun(steps + [step]) && Single(steps, x)
    ensures Outstanding(Run(steps + [step]).jobs, x) > 1 <==>
            Forgotten(steps, x) && step.Snapshot? && Restarts(Run(steps), step.input, x)
  {
    assert (steps + [step])[..|steps|] == steps;
    BooksRun(steps, x);
    SingleNow(steps, x);
    hide Forgotten, Single, Outstanding, Pending, Settled;
    match step
    case Finish(i, ok) => FinishFor(Run(steps), i, ok, x);
    case Snapshot(input) =>
      if input.enabled {
        ApplyFor(Run(steps), input, x);
        hide Apply;
        ForgottenIsOutstanding(steps, x);
      }
  }

  lemma ForgottenIsOutstanding(steps: seq<Step>, x: Ident)
    ensures Forgotten(steps, x) ==> Outstanding(Run(steps).jobs, x) == 1
  {
  }
}
