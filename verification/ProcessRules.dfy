/**
 Saved process rules: the retry protocol of `apply_saved_process_rules` over an
 executor that may refuse a job, and that executor's bounded lanes.
 */
module ProcessRules {
  import opened Common

  datatype Ident = Ident(pid: nat, start: int)

  datatype Proc = Proc(pid: nat, start: Option<int>, path: Option<string>)

  /** A saved policy; the values themselves are opaque here. */
  datatype Rule = Rule(priority: Option<nat>, affinity: Option<nat>) {
    predicate IsEmpty() {
      priority.None? && affinity.None?
    }
  }

  datatype JobResult = JobResult(id: Ident, failed: bool)

  /** What happened, in order. */
  datatype Event =
    | Dispatched(id: Ident)
    | Refused(id: Ident)
    | Done(id: Ident, ok: bool)
    | Warned(id: Ident)

  /** The application's collections, the result queue and the accepted jobs still to finish. */
  datatype State = State(
    applied: set<Ident>,
    inflight: set<Ident>,
    failures: map<Ident, nat>,
    results: seq<JobResult>,
    jobs: seq<Ident>,
    log: seq<Event>)

  const START := State({}, {}, map[], [], [], [])

  /** One new snapshot, with the settings of the moment and the executor's answers. `keyOf` is `process_rule_key`. */
  datatype Input = Input(
    procs: seq<Proc>,
    rules: map<string, Rule>,
    keyOf: string -> string,
    accepts: Ident -> bool,
    self: nat,
    enabled: bool)

  const ATTEMPTS: nat := 3

  const U8_MAX: nat := 255

  function Live(procs: seq<Proc>): set<Ident> {
    set p | p in procs && p.start.Some? :: Ident(p.pid, p.start.value)
  }

  function Retain(s: State, live: set<Ident>): State {
    s.(applied := s.applied * live, inflight := s.inflight * live,
       failures := map id | id in s.failures && id in live :: s.failures[id])
  }

  function Failures(s: State, id: Ident): nat {
    if id in s.failures then s.failures[id] else 0
  }

  /** Take one finished attempt into account. */
  function Settle(s: State, r: JobResult): State {
    var t := s.(inflight := s.inflight - {r.id});
    if r.failed then
      var n := if Failures(s, r.id) < U8_MAX then Failures(s, r.id) + 1 else U8_MAX;
      t.(failures := s.failures[r.id := n], log := if n == ATTEMPTS then s.log + [Warned(r.id)] else s.log)
    else t.(failures := s.failures - {r.id}, applied := s.applied + {r.id})
  }

  function SettleAll(s: State, rs: seq<JobResult>): State {
    if rs == [] then s else Settle(SettleAll(s, rs[..|rs| - 1]), rs[|rs| - 1])
  }

  /** Whether a process is due for an attempt. */
  predicate Due(s: State, p: Proc, input: Input) {
    && p.pid != input.self
    && p.start.Some? && p.path.Some?
    && var id := Ident(p.pid, p.start.value);
    && id !in s.applied && id !in s.inflight && Failures(s, id) < ATTEMPTS
    && var key := input.keyOf(p.path.value);
    && key in input.rules && !input.rules[key].IsEmpty()
  }

  function Pending(s: State, procs: seq<Proc>, input: Input): seq<Ident> {
    if procs == [] then []
    else
      var p := procs[|procs| - 1];
      Pending(s, procs[..|procs| - 1], input) + if Due(s, p, input) then [Ident(p.pid, p.start.value)] else []
  }

  /** Hand one attempt to the executor; a refusal counts as a failed attempt at once. */
  function Dispatch(s: State, id: Ident, accepted: bool): State {
    if accepted then s.(inflight := s.inflight + {id}, jobs := s.jobs + [id], log := s.log + [Dispatched(id)])
    else
      s.(inflight := s.inflight - {id}, results := s.results + [JobResult(id, true)],
         log := s.log + [Dispatched(id), Refused(id)])
  }

  function DispatchAll(s: State, ids: seq<Ident>, accepts: Ident -> bool): State {
    if ids == [] then s
    else
      var id := ids[|ids| - 1];
      Dispatch(DispatchAll(s, ids[..|ids| - 1], accepts), id, accepts(id))
  }

  function Apply(s: State, input: Input): State {
    if !input.enabled then s
    else
      var kept := Retain(s, Live(input.procs));
      var settled := SettleAll(kept.(results := []), kept.results);
      DispatchAll(settled, Pending(settled, input.procs, input), input.accepts)
  }

  // ---------------------------------------------------- the application

  class SavedRules {
    var applied: set<Ident>
    var inflight: set<Ident>
    var failures: map<Ident, nat>
    var results: seq<JobResult>
    var jobs: seq<Ident>
    var log: seq<Event>

    function View(): State
      reads this
    {
      State(applied, inflight, failures, results, jobs, log)
    }

    constructor ()
      ensures View() == START
    {
      applied, inflight, failures, results, jobs, log := {}, {}, map[], [], [], [];
    }

    method ApplySavedProcessRules(input: Input)
      modifies this
      ensures View() == Apply(old(View()), input)
    {
      if !input.enabled {
        return;
      }
      var live := Live(input.procs);
      applied, inflight := applied * live, inflight * live;
      failures := map id | id in failures && id in live :: failures[id];
      var completed := results;
      results := [];
      ghost var kept := View();
      SettleCompleted(completed);
      ghost var settled := View();
      var pending := PendingAttempts(input);
      for i := 0 to |pending|
        invariant View() == DispatchAll(settled, pending[..i], input.accepts)
      {
        assert pending[..i + 1][..i] == pending[..i];
        DispatchOne(pending[i], input.accepts(pending[i]));
      }
      assert pending[..|pending|] == pending;
    }

    method SettleCompleted(completed: seq<JobResult>)
      modifies this`inflight, this`failures, this`applied, this`log
      ensures View() == SettleAll(old(View()), completed)
    {
      for i := 0 to |completed|
        invariant View() == SettleAll(old(View()), completed[..i])
      {
        assert completed[..i + 1][..i] == completed[..i];
        SettleOne(completed[i]);
      }
      assert completed[..|completed|] == completed;
    }

    method PendingAttempts(input: Input) returns (pending: seq<Ident>)
      ensures pending == Pending(View(), input.procs, input)
    {
      pending := [];
      for i := 0 to |input.procs|
        invariant pending == Pending(View(), input.procs[..i], input)
      {
        assert input.procs[..i + 1][..i] == input.procs[..i];
        var p := input.procs[i];
        if Due(View(), p, input) {
          pending := pending + [Ident(p.pid, p.start.value)];
        }
      }
      assert input.procs[..|input.procs|] == input.procs;
    }

    method SettleOne(r: JobResult)
      modifies this`inflight, this`failures, this`applied, this`log
      ensures View() == Settle(old(View()), r)
    {
      inflight := inflight - {r.id};
      if r.failed {
        var n := if r.id in failures then failures[r.id] else 0;
        n := if n < U8_MAX then n + 1 else U8_MAX;
        failures := failures[r.id := n];
        if n == ATTEMPTS {
          log := log + [Warned(r.id)];
        }
      } else {
        failures := failures - {r.id};
        applied := applied + {r.id};
      }
    }

    method DispatchOne(id: Ident, accepted: bool)
      modifies this`inflight, this`jobs, this`results, this`log
      ensures View() == Dispatch(old(View()), id, accepted)
    {
      inflight := inflight + {id};
      log := log + [Dispatched(id)];
      if accepted {
        jobs := jobs + [id];
      } else {
        inflight := inflight - {id};
        results := results + [JobResult(id, true)];
        log := log + [Refused(id)];
      }
    }
  }

  // ------------------------------------------------------------ whole runs

  datatype Step = Snapshot(input: Input) | Finish(index: nat, ok: bool)

  /** A worker finishes one of the accepted jobs, in any order. */
  function FinishJob(s: State, i: nat, ok: bool): State {
    if i >= |s.jobs| then s
    else
      s.(jobs := s.jobs[..i] + s.jobs[i + 1..],
         results := s.results + [JobResult(s.jobs[i], !ok)],
         log := s.log + [Done(s.jobs[i], ok)])
  }

  function Next(s: State, step: Step): State {
    match step
    case Snapshot(input) => Apply(s, input)
    case Finish(i, ok) => FinishJob(s, i, ok)
  }

  function Run(steps: seq<Step>): State {
    if steps == [] then START else Next(Run(steps[..|steps| - 1]), steps[|steps| - 1])
  }

  /** What the log says about one process. */
  datatype Tally = Tally(dispatched: nat, failed: nat, succeeded: nat, warned: nat, afterSuccess: nat)

  function Add(t: Tally, ev: Event, x: Ident): Tally {
    if ev.id != x then t
    else match ev
      case Dispatched(_) => t.(dispatched := t.dispatched + 1, afterSuccess := t.afterSuccess + (if t.succeeded > 0 then 1 else 0))
      case Refused(_) => t.(failed := t.failed + 1)
      case Done(_, ok) => if ok then t.(succeeded := t.succeeded + 1) else t.(failed := t.failed + 1)
      case Warned(_) => t.(warned := t.warned + 1)
  }

  function Count(log: seq<Event>, x: Ident): Tally {
    if log == [] then Tally(0, 0, 0, 0, 0) else Add(Count(log[..|log| - 1], x), log[|log| - 1], x)
  }

  lemma CountAppend(log: seq<Event>, ev: Event, x: Ident)
    ensures Count(log + [ev], x) == Add(Count(log, x), ev, x)
  {
    assert (log + [ev])[..|log|] == log;
  }

  function Outstanding(jobs: seq<Ident>, x: Ident): nat {
    multiset(jobs)[x]
  }

  function Unread(rs: seq<JobResult>, x: Ident, failed: bool): nat {
    multiset(rs)[JobResult(x, failed)]
  }

  /** What the collections and the log agree on about a process that stays alive. */
  ghost predicate Inv(s: State, x: Ident) {
    var t := Count(s.log, x);
    var out, bad, good := Outstanding(s.jobs, x), Unread(s.results, x, true), Unread(s.results, x, false);
    && t.dispatched == t.failed + t.succeeded + out
    && out + bad + good <= 1
    && t.succeeded == good + (if x in s.applied then 1 else 0)
    && (x in s.applied ==> out + bad + good == 0)
    && (x in s.applied ==> x !in s.failures)
    && (x !in s.applied ==> t.failed == Failures(s, x) + bad)
    && t.failed <= ATTEMPTS && Failures(s, x) <= ATTEMPTS
    && (out + bad + good == 1 ==> Failures(s, x) < ATTEMPTS)
    && (x in s.inflight ==> out + bad + good == 1)
    && (out == 1 ==> x in s.inflight)
    && t.warned == (if Failures(s, x) == ATTEMPTS then 1 else 0)
    && t.afterSuccess == 0
    && (t.succeeded > 0 ==> t.warned == 0 && t.failed < ATTEMPTS)
  }

  /** Two states that say the same about `x`. */
  ghost predicate SameFor(s: State, t: State, x: Ident) {
    && (x in s.applied <==> x in t.applied) && (x in s.inflight <==> x in t.inflight)
    && (x in s.failures <==> x in t.failures) && Failures(s, x) == Failures(t, x) && Outstanding(s.jobs, x) == Outstanding(t.jobs, x)
    && Unread(s.results, x, true) == Unread(t.results, x, true)
    && Unread(s.results, x, false) == Unread(t.results, x, false)
    && Count(s.log, x) == Count(t.log, x)
  }

  /** Settling a result of another process leaves `x` alone; settling one of `x` moves it from unread to counted. */
  lemma SettleKeeps(u: State, r: JobResult, tail: seq<JobResult>, x: Ident)
    requires Inv(u.(results := [r] + tail), x)
    ensures Inv(Settle(u, r).(results := tail), x)
  {
    CountAppend(u.log, Warned(r.id), x);
    hide Count;
    assert multiset([r] + tail) == multiset{r} + multiset(tail);
    if r.id == x {
      assert Unread([r] + tail, x, r.failed) >= 1;
    }
  }

  lemma {:induction false} SettleAllKeeps(s: State, rs: seq<JobResult>, tail: seq<JobResult>, x: Ident)
    requires Inv(s.(results := rs + tail), x)
    ensures Inv(SettleAll(s, rs).(results := tail), x)
    decreases |rs|
  {
    if rs == [] {
      assert rs + tail == tail;
    } else {
      var init, r := rs[..|rs| - 1], rs[|rs| - 1];
      assert rs + tail == init + ([r] + tail);
      SettleAllKeeps(s, init, [r] + tail, x);
      SettleKeeps(SettleAll(s, init), r, tail, x);
    }
  }

  lemma {:induction false} SettleAllResults(s: State, rs: seq<JobResult>)
    ensures SettleAll(s, rs).results == s.results
    decreases |rs|
  {
    if rs != [] {
      SettleAllResults(s, rs[..|rs| - 1]);
    }
  }

  /** Nothing is under way for `x` and it may be attempted. */
  ghost predicate Ready(s: State, x: Ident) {
    && Inv(s, x)
    && x !in s.applied && x !in s.inflight && Failures(s, x) < ATTEMPTS
    && Unread(s.results, x, true) == 0 && Unread(s.results, x, false) == 0
  }

  lemma DispatchOther(s: State, id: Ident, accepted: bool, x: Ident)
    requires id != x
    ensures SameFor(s, Dispatch(s, id, accepted), x)
  {
    hide Count;
    CountAppend(s.log, Dispatched(id), x);
    CountAppend(s.log + [Dispatched(id)], Refused(id), x);
    assert s.log + [Dispatched(id), Refused(id)] == s.log + [Dispatched(id)] + [Refused(id)];
  }

  lemma DispatchSelf(s: State, accepted: bool, x: Ident)
    requires Ready(s, x)
    ensures Inv(Dispatch(s, x, accepted), x)
  {
    hide Count;
    CountAppend(s.log, Dispatched(x), x);
    CountAppend(s.log + [Dispatched(x)], Refused(x), x);
    assert s.log + [Dispatched(x), Refused(x)] == s.log + [Dispatched(x)] + [Refused(x)];
  }

  lemma {:induction false} DispatchAllKeeps(s: State, ids: seq<Ident>, accepts: Ident -> bool, x: Ident)
    requires Inv(s, x) && multiset(ids)[x] <= 1
    requires x in ids ==> Ready(s, x)
    ensures Inv(DispatchAll(s, ids, accepts), x)
    ensures x !in ids && Ready(s, x) ==> Ready(DispatchAll(s, ids, accepts), x)
    decreases |ids|
  {
    if ids != [] {
      var init, id := ids[..|ids| - 1], ids[|ids| - 1];
      assert ids == init + [id];
      DispatchAllKeeps(s, init, accepts, x);
      var mid := DispatchAll(s, init, accepts);
      if id == x {
        assert multiset(init)[x] == 0;
        DispatchSelf(mid, accepts(id), x);
      } else {
        DispatchOther(mid, id, accepts(id), x);
      }
    }
  }

  predicate UniquePids(procs: seq<Proc>) {
    forall i, j :: 0 <= i < j < |procs| ==> procs[i].pid != procs[j].pid
  }

  /** Only due processes are pending, each at most once. */
  lemma {:induction false} PendingIsDue(s: State, procs: seq<Proc>, input: Input, x: Ident)
    requires UniquePids(procs)
    ensures x in Pending(s, procs, input) ==>
              && x !in s.applied && x !in s.inflight && Failures(s, x) < ATTEMPTS
              && exists i :: 0 <= i < |procs| && procs[i].pid == x.pid
    ensures multiset(Pending(s, procs, input))[x] <= 1
    decreases |procs|
  {
    if procs != [] {
      var init, p := procs[..|procs| - 1], procs[|procs| - 1];
      PendingIsDue(s, init, input, x);
      var earlier := Pending(s, init, input);
      if x in earlier {
        var i :| 0 <= i < |init| && init[i].pid == x.pid;
        assert procs[i].pid == x.pid;
        assert p.pid != x.pid;
      }
      if Due(s, p, input) && p.pid == x.pid {
        assert procs[|procs| - 1].pid == x.pid;
      }
      assert x !in earlier ==> multiset(earlier)[x] == 0;
    }
  }

  lemma ApplyKeeps(s: State, input: Input, x: Ident)
    requires Inv(s, x)
    requires input.enabled ==> UniquePids(input.procs) && x in Live(input.procs)
    ensures Inv(Apply(s, input), x)
  {
    if input.enabled {
      var kept := Retain(s, Live(input.procs));
      assert kept.results + [] == kept.results;
      assert kept.(results := []).(results := kept.results + []) == kept;
      SettleAllKeeps(kept.(results := []), kept.results, [], x);
      SettleAllResults(kept.(results := []), kept.results);
      var settled := SettleAll(kept.(results := []), kept.results);
      assert settled.(results := []) == settled;
      PendingIsDue(settled, input.procs, input, x);
      DispatchAllKeeps(settled, Pending(settled, input.procs, input), input.accepts, x);
    }
  }

  lemma FinishKeeps(s: State, i: nat, ok: bool, x: Ident)
    requires Inv(s, x)
    ensures Inv(FinishJob(s, i, ok), x)
  {
    if i < |s.jobs| {
      CountAppend(s.log, Done(s.jobs[i], ok), x);
      assert s.jobs == s.jobs[..i] + [s.jobs[i]] + s.jobs[i + 1..];
      assert Outstanding(s.jobs, s.jobs[i]) >= 1;
    }
  }

  /** Process `x` is in every snapshot the rules are applied to, and pids are unique there. */
  ghost predicate AliveThroughout(steps: seq<Step>, x: Ident) {
    forall i :: 0 <= i < |steps| && steps[i].Snapshot? && steps[i].input.enabled ==>
                  UniquePids(steps[i].input.procs) && x in Live(steps[i].input.procs)
  }

  lemma {:induction false} InvRun(steps: seq<Step>, x: Ident)
    requires AliveThroughout(steps, x)
    ensures Inv(Run(steps), x)
    decreases |steps|
  {
    if steps != [] {
      var init := steps[..|steps| - 1];
      assert AliveThroughout(init, x) by {
        assert forall i :: 0 <= i < |init| ==> init[i] == steps[i];
      }
      InvRun(init, x);
      match steps[|steps| - 1]
      case Snapshot(input) => ApplyKeeps(Run(init), input, x);
      case Finish(i, ok) => FinishKeeps(Run(init), i, ok, x);
    }
  }

  /**
   For a process that stays alive, under any pattern of refusals and failures: every
   dispatch is a failed attempt, a success or outstanding; at most one is outstanding;
   at most three fail; nothing is dispatched after a success; and the warning appears
   exactly when the third failure has been taken into account, hence at most once.
   */
  lemma RetryLedger(steps: seq<Step>, x: Ident)
    requires AliveThroughout(steps, x)
    ensures var s := Run(steps);
            var t := Count(s.log, x);
            && t.dispatched == t.failed + t.succeeded + Outstanding(s.jobs, x)
            && Outstanding(s.jobs, x) <= 1
            && t.failed <= 3 && t.succeeded <= 1
            && t.afterSuccess == 0
            && t.warned == (if Failures(s, x) == 3 then 1 else 0)
            && (t.failed == 3 && Unread(s.results, x, true) == 0 ==> t.warned == 1)
            && (x in s.applied ==> x !in s.failures)
  {
    InvRun(steps, x);
  }

  /** A snapshot with at most the one process, which has a rule, and an executor that accepts. */
  function OneProcess(x: Ident, present: bool): Input {
    Input(if present then [Proc(x.pid, Some(x.start), Some("p"))] else [], map["p" := Rule(Some(0), None)],
          path => path, id => true, x.pid + 1, true)
  }

  lemma ApplyWhenIdle(s: State, x: Ident)
    requires s.results == [] && s.applied == {} && s.inflight == {} && s.failures == map[]
    ensures Apply(s, OneProcess(x, true)) == s.(inflight := {x}, jobs := s.jobs + [x], log := s.log + [Dispatched(x)])
  {
    var input := OneProcess(x, true);
    assert Retain(s, Live(input.procs)) == s;
    assert SettleAll(s, []) == s;
    assert Due(s, input.procs[0], input);
    assert input.procs[..0] == [];
    assert Pending(s, input.procs, input) == [x];
    assert [x][..0] == [];
    assert DispatchAll(s, [x], input.accepts) == Dispatch(DispatchAll(s, [], input.accepts), x, true);
  }

  lemma ApplyWhenGone(s: State, x: Ident)
    requires s.results == [] && s.failures == map[]
    ensures Apply(s, OneProcess(x, false)) == s.(applied := {}, inflight := {})
  {
    var input := OneProcess(x, false);
    assert Live(input.procs) == {};
    assert Retain(s, {}) == s.(applied := {}, inflight := {});
  }

  /**
   The process has to be in every snapshot: one that misses it makes the application
   forget the outstanding attempt, and the next one starts a second beside it.
   */
  lemma VanishingStartsSecondAttempt(x: Ident)
    ensures var s := Run([Snapshot(OneProcess(x, true)), Snapshot(OneProcess(x, false)), Snapshot(OneProcess(x, true))]);
            Outstanding(s.jobs, x) == 2
  {
    var a, b := Snapshot(OneProcess(x, true)), Snapshot(OneProcess(x, false));
    assert [a, b, a][..2] == [a, b] && [a, b][..1] == [a] && [a][..0] == [];
    ApplyWhenIdle(START, x);
    assert Run([a]) == Apply(START, OneProcess(x, true));
    ApplyWhenGone(Run([a]), x);
    assert Run([a, b]) == Apply(Run([a]), OneProcess(x, false));
    ApplyWhenIdle(Run([a, b]), x);
    assert Run([a, b, a]) == Apply(Run([a, b]), OneProcess(x, true));
  }

  // ------------------------------------------------- the bounded executor

  const CAPACITY: nat := 32

  datatype Lane<J> = Lane(connected: bool, queue: seq<J>)

  datatype QueueResult = Queued | Full | Disconnected

  predicate Takes<J>(lane: Lane<J>) {
    lane.connected && |lane.queue| < CAPACITY
  }

  class ActionExecutor<J> {
    var lanes: seq<Lane<J>>
    var nextLane: nat

    constructor (lanes: seq<Lane<J>>)
      ensures this.lanes == lanes && nextLane == 0
    {
      this.lanes := lanes;
      nextLane := 0;
    }

    /**
     Offer the job to every lane once, starting at the next one in turn. It ends up at
     the back of exactly one queue, or in none when no connected lane has room.
     */
    method TryQueue(job: J) returns (r: QueueResult)
      requires lanes != []
      modifies this
      ensures nextLane == (old(nextLane) + 1) % (U64_MAX + 1)
      ensures r == Queued <==> exists k :: 0 <= k < |old(lanes)| && Takes(old(lanes)[k])
      ensures r == Disconnected <==> forall k :: 0 <= k < |old(lanes)| ==> !old(lanes)[k].connected
      ensures r != Queued ==> lanes == old(lanes)
      ensures r == Queued ==>
                exists o :: 0 <= o < |old(lanes)| && Placed(old(lanes), lanes, old(nextLane), o, job)
    {
      var n := |lanes|;
      var start := nextLane;
      nextLane := (nextLane + 1) % (U64_MAX + 1);
      var disconnected := 0;
      for offset := 0 to n
        invariant lanes == old(lanes)
        invariant forall b :: 0 <= b < offset ==> !Takes(lanes[LaneAt(start, b, n)])
        invariant disconnected <= offset
        invariant disconnected == offset <==> forall b :: 0 <= b < offset ==> !lanes[LaneAt(start, b, n)].connected
      {
        var k := LaneAt(start, offset, n);
        if Takes(lanes[k]) {
          lanes := lanes[k := lanes[k].(queue := lanes[k].queue + [job])];
          assert Placed(old(lanes), lanes, start, offset, job);
          return Queued;
        }
        if !lanes[k].connected {
          disconnected := disconnected + 1;
        }
      }
      forall k | 0 <= k < n
        ensures !Takes(lanes[k])
        ensures disconnected == n ==> !lanes[k].connected
      {
        var b := OfferedAt(start, n, k);
      }
      r := if disconnected == n then Disconnected else Full;
      if disconnected != n {
        var b :| 0 <= b < n && lanes[LaneAt(start, b, n)].connected;
        assert lanes[LaneAt(start, b, n)].connected;
      }
    }

    /** Run `job` without a result toast; false when it was refused. */
    method RunQuiet(job: J) returns (accepted: bool)
      requires lanes != []
      modifies this
      ensures accepted <==> exists k :: 0 <= k < |old(lanes)| && Takes(old(lanes)[k])
      ensures !accepted ==> lanes == old(lanes)
    {
      var r := TryQueue(job);
      accepted := r == Queued;
    }
  }

  /** The lane tried at one offset. */
  function LaneAt(start: nat, offset: nat, n: nat): (k: nat)
    requires n > 0
    ensures k < n
  {
    (start + offset) % n
  }

  /** The job went to the back of the first lane, from the starting one, that takes it. */
  ghost predicate Placed<J>(before: seq<Lane<J>>, after: seq<Lane<J>>, start: nat, offset: nat, job: J)
    requires before != []
  {
    var k := LaneAt(start, offset, |before|);
    && Takes(before[k])
    && (forall b :: 0 <= b < offset ==> !Takes(before[LaneAt(start, b, |before|)]))
    && after == before[k := before[k].(queue := before[k].queue + [job])]
  }

  lemma AtLeastOne(d: int, n: nat)
    requires d >= 1
    ensures d * n >= n
  {
    assert d * n == (d - 1) * n + n;
    assert (d - 1) * n >= 0;
  }

  /** A remainder is determined by the number and the divisor. */
  lemma UniqueRemainder(n: nat, q: int, r: nat, p: int, s: nat)
    requires q * n + r == p * n + s && r < n && s < n
    ensures r == s
  {
    if q > p {
      AtLeastOne(q - p, n);
    } else if q < p {
      AtLeastOne(p - q, n);
    }
  }

  /** Walking `n` lanes from any start meets every lane. */
  lemma OfferedAt(start: nat, n: nat, k: nat) returns (b: nat)
    requires k < n
    ensures b < n && LaneAt(start, b, n) == k
  {
    var s, q := start % n, start / n;
    b := if k >= s then k - s else k + n - s;
    var p := if k >= s then q else q + 1;
    assert start + b == p * n + k;
    UniqueRemainder(n, p, k, (start + b) / n, (start + b) % n);
  }
}
