/**
 Conservation laws of the lifecycle, for every run and without any discipline:
 each queueing is claimed at most once, slot expiry requeues a task at most
 twice, and each park is consumed by at most one decision - unless the blocking
 wait acts on a row that is no longer parked, the one decision write without a
 status guard (apps/api/src/agent-loop.ts:1152).
 */
module LifecycleCounts {
  import opened TaskLifecycle
  import opened OneWayDoors
  import PlanIntegrity
  import Discipline = ApprovalDiscipline
  import Slots = SlotAllocator

  predicate HasStatus(s: State, t: TaskId, status: Status) {
    t in s.rows && s.rows[t].status == status
  }

  predicate IsQueueing(s: State, a: Action, t: TaskId)
    requires Enabled(s, a)
  {
    !HasStatus(s, t, Queued) && HasStatus(Apply(s, a), t, Queued)
  }

  predicate IsClaim(a: Action, t: TaskId) {
    a.Claim? && a.t == t
  }

  predicate IsPark(a: Action, s: State, t: TaskId)
    requires Enabled(s, a)
  {
    a.MarkAwaiting? && s.workers[a.w].task == t
  }

  /** The blocking wait lets task `t` through. */
  predicate IsPolledApproval(s: State, a: Action, t: TaskId)
    requires Enabled(s, a)
  {
    a.WaitApproved? && s.workers[a.w].task == t
  }

  /** A decision on task `t` that takes effect: a polled approval, or one that changed the row. */
  predicate ConsumesPark(s: State, a: Action, t: TaskId)
    requires Enabled(s, a)
  {
    || IsPolledApproval(s, a, t)
    || (((a.Deliver? && a.e.task == t) || (a.WaitRejected? && s.workers[a.w].task == t)) && Apply(s, a).rows != s.rows)
  }

  /** A polled approval that finds the row no longer parked. */
  predicate IsLatePoll(s: State, a: Action, t: TaskId)
    requires Enabled(s, a)
  {
    IsPolledApproval(s, a, t) && !HasStatus(s, t, AwaitingApproval)
  }

  predicate IsExpiryRequeue(s: State, a: Action, t: TaskId)
    requires Enabled(s, a)
  {
    a.SlotExpires? && a.t == t && HasStatus(Apply(s, a), t, Queued)
  }

  datatype Tally = Tally(queueings: nat, claims: nat, parks: nat, consumed: nat, latePolls: nat, expiryRequeues: nat) {
    function Plus(that: Tally): Tally {
      Tally(queueings + that.queueings, claims + that.claims, parks + that.parks, consumed + that.consumed,
            latePolls + that.latePolls, expiryRequeues + that.expiryRequeues)
    }
  }

  function One(b: bool): nat { if b then 1 else 0 }

  function StepTally(s: State, a: Action, t: TaskId): Tally
    requires Enabled(s, a)
  {
    Tally(One(IsQueueing(s, a, t)), One(IsClaim(a, t)), One(IsPark(a, s, t)), One(ConsumesPark(s, a, t)),
          One(IsLatePoll(s, a, t)), One(IsExpiryRequeue(s, a, t)))
  }

  /** What happens to task `t` along a run; counting stops at a step that is not enabled. */
  ghost function RunTally(s: State, actions: seq<Action>, t: TaskId): Tally
    decreases |actions|
  {
    if actions == [] || !Enabled(s, actions[0]) then Tally(0, 0, 0, 0, 0, 0)
    else StepTally(s, actions[0], t).Plus(RunTally(Apply(s, actions[0]), actions[1..], t))
  }

  lemma StepClaims(s: State, a: Action, t: TaskId)
    requires Enabled(s, a)
    ensures var s' := Apply(s, a);
            One(IsClaim(a, t)) + One(HasStatus(s', t, Queued)) <= One(IsQueueing(s, a, t)) + One(HasStatus(s, t, Queued))
  {
  }

  /** The decisions of a stretch of a run, and what is still parked at its end, come from its parks and its start. */
  ghost predicate ParksCover(s: State, tally: Tally, s': State, t: TaskId) {
    tally.consumed + One(HasStatus(s', t, AwaitingApproval)) <= tally.parks + One(HasStatus(s, t, AwaitingApproval))
  }

  lemma StepParks(s: State, a: Action, t: TaskId)
    requires Enabled(s, a)
    ensures var c := StepTally(s, a, t);
            c.consumed + One(HasStatus(Apply(s, a), t, AwaitingApproval))
            <= c.parks + One(HasStatus(s, t, AwaitingApproval)) + c.latePolls
    ensures ParksCover(s, StepTally(s, a, t), Apply(s, a), t) <==> !IsLatePoll(s, a, t)
  {
  }

  /** Claims, plus one if still queued, never exceed queueings; decisions exceed parks by late polls only. */
  lemma {:induction false} RunConserves(s: State, actions: seq<Action>, s': State, t: TaskId)
    requires Runs(s, actions, s')
    ensures var c := RunTally(s, actions, t);
            && c.claims + One(HasStatus(s', t, Queued)) <= c.queueings + One(HasStatus(s, t, Queued))
            && c.consumed + One(HasStatus(s', t, AwaitingApproval))
               <= c.parks + One(HasStatus(s, t, AwaitingApproval)) + c.latePolls
    decreases |actions|
  {
    if actions != [] {
      StepClaims(s, actions[0], t);
      StepParks(s, actions[0], t);
      RunConserves(Apply(s, actions[0]), actions[1..], s', t);
    }
  }

  // ── Exactly when each park is consumed at most once ───────────────────────

  predicate Cuts(actions: seq<Action>, xs: seq<Action>, ys: seq<Action>, zs: seq<Action>) {
    actions == xs + ys + zs
  }

  /** No stretch of the run consumes more parks than it makes and starts with. */
  ghost predicate EachParkOnce(s: State, actions: seq<Action>, t: TaskId) {
    forall xs, m, ys, n, zs :: StretchCovered(s, actions, t, xs, m, ys, n, zs)
  }

  ghost predicate StretchCovered(s: State, actions: seq<Action>, t: TaskId,
                                 xs: seq<Action>, m: State, ys: seq<Action>, n: State, zs: seq<Action>)
  {
    Cuts(actions, xs, ys, zs) && Runs(s, xs, m) && Runs(m, ys, n) ==> ParksCover(m, RunTally(m, ys, t), n, t)
  }

  /** Every polled approval of the run finds its row still parked. */
  ghost predicate PollsOnTime(s: State, actions: seq<Action>, t: TaskId)
    decreases |actions|
  {
    actions == [] ||
    (Enabled(s, actions[0]) && !IsLatePoll(s, actions[0], t) && PollsOnTime(Apply(s, actions[0]), actions[1..], t))
  }

  lemma {:induction false} PollsOnTimeWithin(s: State, xs: seq<Action>, m: State, rest: seq<Action>, t: TaskId)
    requires Runs(s, xs, m) && PollsOnTime(s, xs + rest, t)
    ensures PollsOnTime(m, rest, t)
    decreases |xs|
  {
    if xs == [] {
      assert xs + rest == rest;
    } else {
      assert (xs + rest)[1..] == xs[1..] + rest;
      PollsOnTimeWithin(Apply(s, xs[0]), xs[1..], m, rest, t);
    }
  }

  lemma {:induction false} OnTimeHasNoLatePolls(s: State, ys: seq<Action>, n: State, zs: seq<Action>, t: TaskId)
    requires Runs(s, ys, n) && PollsOnTime(s, ys + zs, t)
    ensures RunTally(s, ys, t).latePolls == 0
    decreases |ys|
  {
    if ys != [] {
      assert (ys + zs)[1..] == ys[1..] + zs;
      OnTimeHasNoLatePolls(Apply(s, ys[0]), ys[1..], n, zs, t);
    }
  }

  /** The first late poll of a run, as a stretch of its own. */
  lemma {:induction false} FindLatePoll(s: State, actions: seq<Action>, s': State, t: TaskId)
    returns (xs: seq<Action>, m: State, a: Action, zs: seq<Action>)
    requires Runs(s, actions, s') && !PollsOnTime(s, actions, t)
    ensures Cuts(actions, xs, [a], zs) && Runs(s, xs, m) && Enabled(m, a) && IsLatePoll(m, a, t)
    decreases |actions|
  {
    if IsLatePoll(s, actions[0], t) {
      xs, m, a, zs := [], s, actions[0], actions[1..];
    } else {
      var ys;
      ys, m, a, zs := FindLatePoll(Apply(s, actions[0]), actions[1..], s', t);
      xs := [actions[0]] + ys;
      assert actions == [actions[0]] + (ys + [a] + zs);
      assert xs[1..] == ys;
    }
  }

  lemma OneStepRun(m: State, a: Action, t: TaskId)
    requires Enabled(m, a)
    ensures Runs(m, [a], Apply(m, a)) && RunTally(m, [a], t) == StepTally(m, a, t)
  {
    assert [a][1..] == [];
    assert Runs(Apply(m, a), [], Apply(m, a));
  }

  lemma OnTimeConsumesOnce(s: State, actions: seq<Action>, t: TaskId)
    requires PollsOnTime(s, actions, t)
    ensures EachParkOnce(s, actions, t)
  {
    forall xs, m, ys, n, zs
      ensures StretchCovered(s, actions, t, xs, m, ys, n, zs)
    {
      if Cuts(actions, xs, ys, zs) && Runs(s, xs, m) && Runs(m, ys, n) {
        assert xs + ys + zs == xs + (ys + zs);
        PollsOnTimeWithin(s, xs, m, ys + zs, t);
        OnTimeHasNoLatePolls(m, ys, n, zs, t);
        RunConserves(m, ys, n, t);
      }
    }
  }

  lemma LateStretch(m: State, a: Action, n: State, t: TaskId)
    requires Enabled(m, a) && IsLatePoll(m, a, t) && n == Apply(m, a)
    ensures Runs(m, [a], n) && !ParksCover(m, RunTally(m, [a], t), n, t)
  {
    OneStepRun(m, a, t);
    StepParks(m, a, t);
  }

  lemma OneStretchRefutes(s: State, actions: seq<Action>, t: TaskId, xs: seq<Action>, m: State, ys: seq<Action>, n: State, zs: seq<Action>)
    requires Cuts(actions, xs, ys, zs) && Runs(s, xs, m) && Runs(m, ys, n)
    requires !ParksCover(m, RunTally(m, ys, t), n, t)
    ensures !EachParkOnce(s, actions, t)
  {
    assert !StretchCovered(s, actions, t, xs, m, ys, n, zs);
  }

  lemma LatePollConsumesAgain(s: State, actions: seq<Action>, s': State, t: TaskId)
    requires Runs(s, actions, s') && !PollsOnTime(s, actions, t)
    ensures !EachParkOnce(s, actions, t)
  {
    var xs, m, a, zs := FindLatePoll(s, actions, s', t);
    var n := Apply(m, a);
    LateStretch(m, a, n, t);
    OneStretchRefutes(s, actions, t, xs, m, [a], n, zs);
  }

  /**
   Each park of a run is consumed by at most one decision exactly when every
   polled approval finds its row still 'awaiting_approval'.
   */
  lemma ParkConsumedOnceIff(s: State, actions: seq<Action>, s': State, t: TaskId)
    requires Runs(s, actions, s')
    ensures EachParkOnce(s, actions, t) <==> PollsOnTime(s, actions, t)
  {
    if PollsOnTime(s, actions, t) {
      OnTimeConsumesOnce(s, actions, t);
    } else {
      LatePollConsumesAgain(s, actions, s', t);
    }
  }

  // ── Runs that consume a park twice ────────────────────────────────────────

  lemma TallyCons(s: State, a: Action, rest: seq<Action>, s': State, t: TaskId)
    requires Enabled(s, a) && Runs(Apply(s, a), rest, s')
    ensures Runs(s, [a] + rest, s')
    ensures RunTally(s, [a] + rest, t) == StepTally(s, a, t).Plus(RunTally(Apply(s, a), rest, t))
  {
    assert ([a] + rest)[1..] == rest;
  }

  lemma PlusAssociates(a: Tally, b: Tally, c: Tally)
    ensures a.Plus(b).Plus(c) == a.Plus(b.Plus(c))
  {
  }

  lemma TallyHead(s: State, xs: seq<Action>, t: TaskId)
    requires xs != [] && Enabled(s, xs[0])
    ensures RunTally(s, xs, t) == StepTally(s, xs[0], t).Plus(RunTally(Apply(s, xs[0]), xs[1..], t))
  {
  }

  lemma MoveFirst(xs: seq<Action>, ys: seq<Action>)
    requires xs != []
    ensures xs + ys == [xs[0]] + (xs[1..] + ys)
  {
  }

  lemma {:induction false} TallyConcat(s: State, xs: seq<Action>, m: State, ys: seq<Action>, s': State, t: TaskId)
    requires Runs(s, xs, m) && Runs(m, ys, s')
    ensures Runs(s, xs + ys, s')
    ensures RunTally(s, xs + ys, t) == RunTally(s, xs, t).Plus(RunTally(m, ys, t))
    decreases |xs|
  {
    if xs == [] {
      assert xs + ys == ys;
    } else {
      var s1 := Apply(s, xs[0]);
      TallyConcat(s1, xs[1..], m, ys, s', t);
      TallyCons(s, xs[0], xs[1..] + ys, s', t);
      MoveFirst(xs, ys);
      TallyHead(s, xs, t);
      PlusAssociates(StepTally(s, xs[0], t), RunTally(s1, xs[1..], t), RunTally(m, ys, t));
    }
  }

  /** Steps that neither park a task nor act on a decision. */
  predicate Quiet(a: Action) {
    !a.MarkAwaiting? && !a.Deliver? && !a.WaitRejected? && !a.WaitApproved?
  }

  lemma {:induction false} QuietRun(s: State, actions: seq<Action>, s': State, t: TaskId)
    requires Runs(s, actions, s') && forall a :: a in actions ==> Quiet(a)
    ensures RunTally(s, actions, t).parks == 0 && RunTally(s, actions, t).consumed == 0
    decreases |actions|
  {
    if actions != [] {
      assert Quiet(actions[0]);
      QuietRun(Apply(s, actions[0]), actions[1..], s', t);
    }
  }

  /** A worker waits for record `r`, which is pending, and its row is parked. */
  predicate AwaitsRecord(s: State, w: WorkerId, t: TaskId, p: Plan, r: RecordId) {
    && At(s, w) && s.workers[w] == Waiting(t, p, r) && HasStatus(s, t, AwaitingApproval)
    && Holds(s, r, Pending) && r in s.requested && s.requested[r].task == t
  }

  /** What operators publish: an approval, or one after another's rejection. */
  function Decisions(r: RecordId, t: TaskId, rejectedFirst: bool): set<Event> {
    if rejectedFirst then {Event(r, t, false), Event(r, t, true)} else {Event(r, t, true)}
  }

  lemma DecidedRun(s: State, r: RecordId, rejectedFirst: bool) returns (actions: seq<Action>, s': State)
    requires Holds(s, r, Pending) && r in s.requested
    ensures Runs(s, actions, s') && forall a :: a in actions ==> Quiet(a)
    ensures s'.rows == s.rows && s'.workers == s.workers && s'.executed == s.executed && s'.requested == s.requested
    ensures Holds(s', r, Decided(true)) && s'.events == s.events + Decisions(r, s.requested[r].task, rejectedFirst)
  {
    var s1 := Apply(s, OperatorReads(r));
    var s2 := Apply(s1, OperatorDecides(r, !rejectedFirst));
    Discipline.TwoSteps(s, OperatorReads(r), s1, OperatorDecides(r, !rejectedFirst), s2);
    actions, s' := [OperatorReads(r), OperatorDecides(r, !rejectedFirst)], s2;
    if rejectedFirst {
      s' := Apply(s2, OperatorDecides(r, true));
      RunsThen(s, actions, s2, OperatorDecides(r, true));
      actions := actions + [OperatorDecides(r, true)];
    }
  }

  lemma MarkCounts(s: State, w: WorkerId)
    requires Enabled(s, MarkAwaiting(w))
    ensures var c := StepTally(s, MarkAwaiting(w), s.workers[w].task); c.parks == 1 && c.consumed == 0
  {
  }

  lemma PollCounts(s: State, w: WorkerId)
    requires Enabled(s, WaitApproved(w))
    ensures var c := StepTally(s, WaitApproved(w), s.workers[w].task); c.parks == 0 && c.consumed == 1
  {
  }

  lemma DeliverCounts(s: State, e: Event)
    requires Enabled(s, Deliver(e)) && HasStatus(s, e.task, AwaitingApproval)
    ensures var c := StepTally(s, Deliver(e), e.task); c.parks == 0 && c.consumed == 1
  {
    assert Apply(s, Deliver(e)).rows[e.task].status != s.rows[e.task].status;
  }

  /** A listener's delivery to a parked row; the worker that waits for it stays. */
  lemma DeliverStep(s: State, e: Event) returns (actions: seq<Action>, s': State)
    requires Enabled(s, Deliver(e)) && HasStatus(s, e.task, AwaitingApproval)
    ensures s' == Apply(s, Deliver(e)) && s' == s.(rows := s'.rows) && e.task in s'.rows
    ensures Runs(s, actions, s') && RunTally(s, actions, e.task).parks == 0 && RunTally(s, actions, e.task).consumed == 1
  {
    actions, s' := [Deliver(e)], Apply(s, Deliver(e));
    OneStepRun(s, Deliver(e), e.task);
    DeliverCounts(s, e);
  }

  lemma PollStep(s: State, w: WorkerId, t: TaskId, p: Plan, r: RecordId) returns (actions: seq<Action>, s': State)
    requires At(s, w) && s.workers[w] == Waiting(t, p, r) && Holds(s, r, Decided(true))
    ensures Runs(s, actions, s') && RunTally(s, actions, t).parks == 0 && RunTally(s, actions, t).consumed == 1
    ensures s' == s.(rows := s'.rows, workers := s'.workers) && At(s', w) && s'.workers[w] == Ready(t, p, ApprovedBy(r))
  {
    actions, s' := [WaitApproved(w)], Apply(s, WaitApproved(w));
    OneStepRun(s, WaitApproved(w), t);
    PollCounts(s, w);
  }

  lemma SingleRun(s: State, a: Action)
    requires Enabled(s, a)
    ensures Runs(s, [a], Apply(s, a))
  {
    assert [a][1..] == [];
    assert Runs(Apply(s, a), [], Apply(s, a));
  }

  lemma ExecuteKeepsEvents(s: State, w: WorkerId)
    requires Enabled(s, Execute(w))
    ensures Apply(s, Execute(w)).events == s.events
  {
  }

  lemma ExecuteStep(s: State, w: WorkerId, t: TaskId, p: Plan, via: Via) returns (actions: seq<Action>, s': State)
    requires At(s, w) && s.workers[w] == Ready(t, p, via)
    ensures Runs(s, actions, s') && forall a :: a in actions ==> Quiet(a)
    ensures s'.events == s.events && s'.executed == s.executed + [Execution(t, p, via)]
  {
    actions, s' := [Execute(w)], Apply(s, Execute(w));
    SingleRun(s, Execute(w));
    ExecuteKeepsEvents(s, w);
    PlanIntegrity.ExecutesReady(s, Execute(w));
  }

  /** After a delivery took the row out of its park, the waiting worker still lets its approved plan through. */
  lemma DeliveredThenPolled(s: State, w: WorkerId, t: TaskId, p: Plan, r: RecordId, approved: bool)
    returns (actions: seq<Action>, s': State)
    requires At(s, w) && s.workers[w] == Waiting(t, p, r) && HasStatus(s, t, AwaitingApproval)
    requires Holds(s, r, Decided(true)) && Event(r, t, approved) in s.events
    ensures Runs(s, actions, s') && RunTally(s, actions, t).parks == 0 && RunTally(s, actions, t).consumed == 2
    ensures s'.events == s.events && s'.executed == s.executed + [Execution(t, p, ApprovedBy(r))]
  {
    var xs, m := DeliverStep(s, Event(r, t, approved));
    var ys, n := PollStep(m, w, t, p, r);
    TallyConcat(s, xs, m, ys, n, t);
    var zs;
    zs, s' := ExecuteStep(n, w, t, p, ApprovedBy(r));
    QuietRun(n, zs, s', t);
    TallyConcat(s, xs + ys, n, zs, s', t);
    actions := xs + ys + zs;
  }

  lemma DecidedAndExecuted(s: State, w: WorkerId, t: TaskId, p: Plan, r: RecordId, rejectedFirst: bool)
    returns (actions: seq<Action>, s': State)
    requires AwaitsRecord(s, w, t, p, r)
    ensures Runs(s, actions, s') && RunTally(s, actions, t).parks == 0 && RunTally(s, actions, t).consumed == 2
    ensures s'.executed == s.executed + [Execution(t, p, ApprovedBy(r))]
    ensures s'.events == s.events + Decisions(r, t, rejectedFirst)
  {
    var xs, m := DecidedRun(s, r, rejectedFirst);
    QuietRun(s, xs, m, t);
    var ys;
    ys, s' := DeliveredThenPolled(m, w, t, p, r, !rejectedFirst);
    TallyConcat(s, xs, m, ys, s', t);
    actions := xs + ys;
  }

  lemma PlannedRun(p: Plan) returns (actions: seq<Action>, s: State)
    ensures Runs(INIT, actions, s) && forall a :: a in actions ==> Quiet(a)
    ensures At(s, 1) && s.workers[1] == Planned(0, Elevated(p)) && s.requested == map[] && s.events == {} && s.executed == []
  {
    s := Discipline.PlanRun(1, p);
    actions := Discipline.PlanActions(1, p);
  }

  lemma PlannedGate(s: State, p: Plan) returns (actions: seq<Action>, s': State)
    requires At(s, 1) && s.workers[1] == Planned(0, p) && p.oneWayDoors != [] && 0 !in s.requested
    ensures Runs(s, actions, s') && forall a :: a in actions ==> Quiet(a)
    ensures At(s', 1) && s'.workers[1] == Gated(0, p, 0) && Holds(s', 0, Pending) && 0 in s'.requested && s'.requested[0].task == 0
    ensures s'.events == s.events && s'.executed == s.executed
  {
    s' := Discipline.GateRun(s, 1, 0, p, 0, true);
    actions := [Persist(1, true), Gate(1, false, false, 0)];
  }

  lemma GatedRun(p: Plan) returns (actions: seq<Action>, s: State)
    requires Elevated(p).oneWayDoors != []
    ensures Runs(INIT, actions, s) && RunTally(INIT, actions, 0).parks == 0 && RunTally(INIT, actions, 0).consumed == 0
    ensures At(s, 1) && s.workers[1] == Gated(0, Elevated(p), 0) && Holds(s, 0, Pending)
    ensures 0 in s.requested && s.requested[0].task == 0 && s.events == {} && s.executed == []
  {
    var xs, m := PlannedRun(p);
    var ys;
    ys, s := PlannedGate(m, Elevated(p));
    RunsConcat(INIT, xs, m, ys, s);
    actions := xs + ys;
    QuietRun(INIT, actions, s, 0);
  }

  lemma ParkStep(s: State, w: WorkerId, t: TaskId, p: Plan, r: RecordId) returns (actions: seq<Action>, s': State)
    requires At(s, w) && s.workers[w] == Gated(t, p, r)
    ensures Runs(s, actions, s') && RunTally(s, actions, t).parks == 1 && RunTally(s, actions, t).consumed == 0
    ensures HasStatus(s', t, AwaitingApproval) && At(s', w) && s'.workers[w] == Parking(t, p, r, false)
    ensures s' == s.(rows := s'.rows, workers := s'.workers)
  {
    actions, s' := [MarkAwaiting(w)], Apply(s, MarkAwaiting(w));
    OneStepRun(s, MarkAwaiting(w), t);
    MarkCounts(s, w);
  }

  /** A gated worker parks its row, fails to write the marker, and waits. */
  lemma ParkedRun(s: State, w: WorkerId, t: TaskId, p: Plan, r: RecordId) returns (actions: seq<Action>, s': State)
    requires At(s, w) && s.workers[w] == Gated(t, p, r) && Holds(s, r, Pending) && r in s.requested && s.requested[r].task == t
    ensures Runs(s, actions, s') && RunTally(s, actions, t).parks == 1 && RunTally(s, actions, t).consumed == 0
    ensures AwaitsRecord(s', w, t, p, r) && s'.events == s.events && s'.executed == s.executed
  {
    var xs, m := ParkStep(s, w, t, p, r);
    var ys;
    ys, s' := MarkerFails(m, w, t, p, r);
    QuietRun(m, ys, s', t);
    TallyConcat(s, xs, m, ys, s', t);
    actions := xs + ys;
  }

  /** A fresh task plans `p`, parks once, fails to write its marker, and waits. */
  lemma WaitingRun(p: Plan) returns (actions: seq<Action>, s: State)
    requires Elevated(p).oneWayDoors != []
    ensures Runs(INIT, actions, s) && RunTally(INIT, actions, 0).parks == 1 && RunTally(INIT, actions, 0).consumed == 0
    ensures AwaitsRecord(s, 1, 0, Elevated(p), 0) && s.events == {} && s.executed == []
  {
    var xs, m := GatedRun(p);
    var ys;
    ys, s := ParkedRun(m, 1, 0, Elevated(p), 0);
    TallyConcat(INIT, xs, m, ys, s, 0);
    actions := xs + ys;
  }

  lemma MarkerFails(s: State, w: WorkerId, t: TaskId, p: Plan, r: RecordId) returns (actions: seq<Action>, s': State)
    requires At(s, w) && s.workers[w] == Parking(t, p, r, false)
    ensures Runs(s, actions, s') && forall a :: a in actions ==> Quiet(a)
    ensures s' == s.(workers := s'.workers) && At(s', w) && s'.workers[w] == Waiting(t, p, r)
  {
    var m := Apply(s, WriteApprovalId(w, false));
    s' := Apply(m, WriteMarker(w, false));
    actions := [WriteApprovalId(w, false), WriteMarker(w, false)];
    Discipline.TwoSteps(s, WriteApprovalId(w, false), m, WriteMarker(w, false), s');
  }

  /**
   One park, two decisions: a rejection fails the row through the listener, and
   the approval of a second operator, who had read the record as pending, lets
   the waiting worker execute the plan all the same.
   */
  lemma ConflictingDecisionsExecute(p: Plan) returns (actions: seq<Action>, s: State)
    requires Elevated(p).oneWayDoors != []
    ensures Runs(INIT, actions, s) && RunTally(INIT, actions, 0).parks == 1 && RunTally(INIT, actions, 0).consumed == 2
    ensures s.events == {Event(0, 0, false), Event(0, 0, true)} && s.executed == [Execution(0, Elevated(p), ApprovedBy(0))]
  {
    var xs, m := WaitingRun(p);
    var ys;
    ys, s := DecidedAndExecuted(m, 1, 0, Elevated(p), 0, true);
    TallyConcat(INIT, xs, m, ys, s, 0);
    actions := xs + ys;
  }

  /** One approval used twice: the listener queues the row again while the waiting worker executes its plan. */
  lemma OneApprovalUsedTwice(p: Plan) returns (actions: seq<Action>, s: State)
    requires Elevated(p).oneWayDoors != []
    ensures Runs(INIT, actions, s) && RunTally(INIT, actions, 0).parks == 1 && RunTally(INIT, actions, 0).consumed == 2
    ensures s.events == {Event(0, 0, true)} && s.executed == [Execution(0, Elevated(p), ApprovedBy(0))]
  {
    var xs, m := WaitingRun(p);
    var ys;
    ys, s := DecidedAndExecuted(m, 1, 0, Elevated(p), 0, false);
    TallyConcat(INIT, xs, m, ys, s, 0);
    actions := xs + ys;
  }

  // ── Slot expiry ───────────────────────────────────────────────────────────

  function Attempts(s: State, t: TaskId): nat {
    if t in s.rows then s.rows[t].attempts else 0
  }

  function ExpiryBudget(attempts: nat): nat {
    if attempts < MAX_ATTEMPTS - 1 then MAX_ATTEMPTS - 1 - attempts else 0
  }

  lemma ExpiryStep(s: State, a: Action, t: TaskId)
    requires Enabled(s, a)
    ensures Attempts(s, t) <= Attempts(Apply(s, a), t)
    ensures One(IsExpiryRequeue(s, a, t)) + ExpiryBudget(Attempts(Apply(s, a), t)) <= ExpiryBudget(Attempts(s, t))
  {
  }

  lemma {:induction false} ExpiryRequeuesBounded(s: State, actions: seq<Action>, s': State, t: TaskId)
    requires Runs(s, actions, s')
    ensures RunTally(s, actions, t).expiryRequeues <= ExpiryBudget(Attempts(s, t))
    decreases |actions|
  {
    if actions != [] {
      ExpiryStep(s, actions[0], t);
      ExpiryRequeuesBounded(Apply(s, actions[0]), actions[1..], s', t);
    }
  }

  /** The allocator's row and the lifecycle's agree on status and attempts. */
  predicate SameRow(task: Slots.Task, row: Row) {
    && task.attempts == row.attempts
    && (task.status.Running? <==> row.status == Running)
    && (task.status.Queued? <==> row.status == Queued)
    && (task.status.Blocked? <==> row.status == Blocked)
  }

  /** Expiry in the allocator is the lifecycle's step on a running row, and nothing on any other. */
  lemma ExpiryIsOneStep(s: State, t: TaskId, task: Slots.Task, now: int)
    requires t in s.rows && SameRow(task, s.rows[t])
    ensures if Enabled(s, SlotExpires(t)) then SameRow(Slots.AfterExpiry(task, now), Apply(s, SlotExpires(t)).rows[t])
            else Slots.AfterExpiry(task, now) == task
  {
  }

  /** From the empty system, for every task and every interleaving. */
  lemma LifecycleConservation(actions: seq<Action>, s: State, t: TaskId)
    requires Runs(INIT, actions, s)
    ensures RunTally(INIT, actions, t).claims <= RunTally(INIT, actions, t).queueings
    ensures RunTally(INIT, actions, t).consumed <= RunTally(INIT, actions, t).parks + RunTally(INIT, actions, t).latePolls
    ensures RunTally(INIT, actions, t).expiryRequeues <= 2
  {
    RunConserves(INIT, actions, s, t);
    ExpiryRequeuesBounded(INIT, actions, s, t);
  }
}
