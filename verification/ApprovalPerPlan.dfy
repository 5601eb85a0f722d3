/**
 Approval of the very plan that is executed. The OWD_RESOLVED listener does not
 compare the event's record with the row's `_approvalId`, so a repeated event
 can resume a later park; with that comparison, and one worker at a time per
 task, every executed plan with doors had its own record approved.
 */
module ApprovalPerPlan {
  import opened Wrappers
  import opened OneWayDoors
  import opened TaskLifecycle
  import opened PlanIntegrity
  import opened ApprovalSafety
  import opened ApprovalDiscipline

  /**
   One worker at a time: claims, slot expiry and sweepers act only on tasks
   nobody holds, the id write of a park succeeds, and the listener acts only
   between parks and, when `idChecked`, only on the record the row names.
   */
  ghost predicate Orderly(s: State, a: Action, idChecked: bool)
    requires Enabled(s, a)
  {
    match a
    case Claim(_, t) => forall w :: !OnTask(s, w, t)
    case SlotExpires(t) => forall w :: !OnTask(s, w, t)
    case Requeue(t) => Live(s.rows[t].status) && forall w :: !OnTask(s, w, t)
    case WriteApprovalId(_, ok) => ok
    case Deliver(e) =>
      && (forall w :: !NowParking(s, w, e.task))
      && (idChecked && e.approved ==> s.rows[e.task].approvalId == Some(e.record))
    case _ => true
  }

  ghost predicate MarkerAnswered(s: State, t: TaskId)
    requires t in s.rows
  {
    s.rows[t].marker.Some? ==> Answered(s, t, s.rows[t].marker.value.plan, true)
  }

  /** The row's `_approvalId` is the record under which its marker's plan was parked. */
  predicate NamesItsPark(s: State, t: TaskId)
    requires t in s.rows
  {
    s.rows[t].marker.Some? ==>
      && s.rows[t].approvalId.Some?
      && s.rows[t].approvalId.value in s.requested
      && s.requested[s.rows[t].approvalId.value] == Request(t, s.rows[t].marker.value.plan)
  }

  ghost predicate TaskOrder(s: State, t: TaskId)
    requires t in s.rows
  {
    && (forall w, w' :: OnTask(s, w, t) && OnTask(s, w', t) ==> w == w')
    && (forall w :: OnTask(s, w, t) ==> MarkerAnswered(s, t))
    && (forall w :: NowParking(s, w, t) && s.workers[w].idTried ==> s.rows[t].approvalId == Some(s.workers[w].record))
    && (MarkerAnswered(s, t) || NamesItsPark(s, t))
  }

  ghost predicate InOrder(s: State) {
    forall t :: t in s.rows ==> TaskOrder(s, t)
  }

  lemma OrderlyFences(s: State, a: Action)
    requires Inv(s, true) && InOrder(s) && Enabled(s, a) && Orderly(s, a, true)
    ensures Fenced(s, a, true)
  {
    if a.Start? || a.Throw? || a.WaitApproved? {
      SoleWorkerRevives(s, a.w, s.workers[a.w].task);
    } else if a.Requeue? {
      assert RowOk(s, a.t, true);
    } else if a.Deliver? && a.e.approved {
      assert TaskOrder(s, a.e.task);
      if s.rows[a.e.task].marker.Some? && !MarkerAnswered(s, a.e.task) {
        assert Event(a.e.record, a.e.task, true) == a.e;
        assert RecordClears(s, a.e.record, a.e.task, s.rows[a.e.task].marker.value.plan, true);
      }
    }
  }

  lemma SoleWorkerRevives(s: State, w: WorkerId, t: TaskId)
    requires InOrder(s) && At(s, w) && OnTask(s, w, t)
    ensures !s.workers[w].Parking? ==> MayGoLive(s, t, true)
    ensures MayGoLive(Gone(s, w), t, true)
  {
    assert TaskOrder(s, t);
    forall v | NowParking(s, v, t)
      ensures v == w
    {
      assert OnTask(s, v, t);
    }
    assert forall v :: NowParking(Gone(s, w), v, t) ==> NowParking(s, v, t);
    assert MarkerAnswered(s, t);
    if s.rows[t].marker.Some? {
      AnsweredExtends(s, Gone(s, w), t, s.rows[t].marker.value.plan, true);
    }
  }

  lemma MarkerAnsweredKept(s: State, s': State, t: TaskId)
    requires Extends(s, s') && t in s.rows && MarkerAnswered(s, t)
    requires s'.rows[t].marker in {s.rows[t].marker, None}
    ensures MarkerAnswered(s', t)
  {
    if s'.rows[t].marker.Some? {
      AnsweredExtends(s, s', t, s.rows[t].marker.value.plan, true);
    }
  }

  lemma OrderStep(s: State, a: Action, t: TaskId)
    requires Inv(s, true) && InOrder(s) && Enabled(s, a) && Orderly(s, a, true) && t in Apply(s, a).rows
    ensures TaskOrder(Apply(s, a), t)
  {
    if t !in s.rows {
      NewRowIsCreated(s, a, t);
      OrderCreate(s, t);
    } else {
      assert TaskOrder(s, t);
      if a.Claim? && a.t == t {
        OrderClaim(s, a.w, t);
      } else if a.WriteMarker? && s.workers[a.w].task == t {
        OrderWriteMarker(s, a.w, a.ok, t);
      } else if a.WriteMarker? {
        OrderMarkerElsewhere(s, a.w, a.ok, t);
      } else if a.WriteApprovalId? && s.workers[a.w].task == t {
        OrderWriteId(s, a.w, t);
      } else {
        OrderKept(s, a, t);
      }
    }
  }

  lemma OrderCreate(s: State, t: TaskId)
    requires Inv(s, true) && Enabled(s, Create(t))
    ensures TaskOrder(Apply(s, Create(t)), t)
  {
    assert forall w :: w in s.workers ==> WorkerTracked(s, s.workers[w]);
  }

  lemma OrderClaim(s: State, w: WorkerId, t: TaskId)
    requires Inv(s, true) && Enabled(s, Claim(w, t)) && (forall v :: !OnTask(s, v, t))
    ensures TaskOrder(Apply(s, Claim(w, t)), t)
  {
    var s' := Apply(s, Claim(w, t));
    StepExtends(s, Claim(w, t));
    assert RowOk(s, t, true);
    MarkerAnsweredKept(s, s', t);
    assert forall v :: OnTask(s', v, t) ==> v == w || OnTask(s, v, t);
    assert forall v :: NowParking(s', v, t) ==> OnTask(s', v, t);
  }

  lemma OrderWriteMarker(s: State, w: WorkerId, ok: bool, t: TaskId)
    requires Inv(s, true) && Enabled(s, WriteMarker(w, ok)) && s.workers[w].task == t && TaskOrder(s, t)
    ensures TaskOrder(Apply(s, WriteMarker(w, ok)), t)
  {
    var s' := Apply(s, WriteMarker(w, ok));
    StepExtends(s, WriteMarker(w, ok));
    assert OnTask(s, w, t) && NowParking(s, w, t) && WorkerTracked(s, s.workers[w]);
    assert forall v :: OnTask(s', v, t) ==> OnTask(s, v, t);
    assert forall v :: NowParking(s', v, t) ==> NowParking(s, v, t) && OnTask(s, v, t);
    if !ok {
      MarkerAnsweredKept(s, s', t);
    }
  }

  /** Row `t` keeps the marker it has, or loses it, and its `_approvalId`. */
  ghost predicate RowNameKept(s: State, a: Action, t: TaskId)
    requires Enabled(s, a) && t in s.rows
  {
    t in Apply(s, a).rows && Apply(s, a).rows[t].approvalId == s.rows[t].approvalId
  }

  lemma EnvironmentKeepsName(s: State, a: Action, t: TaskId)
    requires Enabled(s, a) && t in s.rows && Environment(a)
    ensures RowNameKept(s, a, t)
  {
  }

  lemma WorkersKeepName(s: State, a: Action, t: TaskId)
    requires Enabled(s, a) && t in s.rows && !Environment(a) && !a.WriteApprovalId?
    ensures RowNameKept(s, a, t)
  {
  }

  /** The id write of a park names its record; the row is held by its writer. */
  lemma OrderWriteId(s: State, w: WorkerId, t: TaskId)
    requires Enabled(s, WriteApprovalId(w, true)) && s.workers[w].task == t && TaskOrder(s, t)
    ensures TaskOrder(Apply(s, WriteApprovalId(w, true)), t)
  {
    var s' := Apply(s, WriteApprovalId(w, true));
    StepExtends(s, WriteApprovalId(w, true));
    assert OnTask(s, w, t);
    MarkerAnsweredKept(s, s', t);
    assert forall v :: OnTask(s', v, t) ==> OnTask(s, v, t);
    assert forall v :: NowParking(s', v, t) ==> OnTask(s', v, t);
  }

  lemma WriteIdElsewhere(s: State, a: Action, t: TaskId)
    requires Enabled(s, a) && t in s.rows && a.WriteApprovalId? && s.workers[a.w].task != t
    ensures RowNameKept(s, a, t)
  {
  }

  lemma ParkersKept(s: State, a: Action, t: TaskId, w: WorkerId)
    requires Enabled(s, a) && !(a.WriteApprovalId? && s.workers[a.w].task == t)
    requires NowParking(Apply(s, a), w, t) && Apply(s, a).workers[w].idTried
    ensures NowParking(s, w, t) && s.workers[w] == Apply(s, a).workers[w]
  {
    if !ActsAs(a, w) {
      OthersKept(s, a, w);
    }
  }

  lemma OrderKept(s: State, a: Action, t: TaskId)
    requires Enabled(s, a) && t in s.rows && TaskOrder(s, t) && !a.WriteMarker?
    requires !(a.Claim? && a.t == t) && !(a.WriteApprovalId? && s.workers[a.w].task == t)
    ensures TaskOrder(Apply(s, a), t)
  {
    var s' := Apply(s, a);
    StepExtends(s, a);
    MarkersKept(s, a, t);
    NoNewWorker(s, a, t);
    if Environment(a) {
      EnvironmentKeepsName(s, a, t);
    } else if a.WriteApprovalId? {
      WriteIdElsewhere(s, a, t);
    } else {
      WorkersKeepName(s, a, t);
    }
    if MarkerAnswered(s, t) {
      MarkerAnsweredKept(s, s', t);
    }
    forall w | NowParking(s', w, t) && s'.workers[w].idTried
      ensures s'.rows[t].approvalId == Some(s'.workers[w].record)
    {
      ParkersKept(s, a, t, w);
    }
  }

  lemma OrderMarkerElsewhere(s: State, w: WorkerId, ok: bool, t: TaskId)
    requires Enabled(s, WriteMarker(w, ok)) && s.workers[w].task != t && t in s.rows && TaskOrder(s, t)
    ensures TaskOrder(Apply(s, WriteMarker(w, ok)), t)
  {
    var s' := Apply(s, WriteMarker(w, ok));
    StepExtends(s, WriteMarker(w, ok));
    if MarkerAnswered(s, t) {
      MarkerAnsweredKept(s, s', t);
    }
    assert forall v :: OnTask(s', v, t) ==> OnTask(s, v, t);
    assert forall v :: NowParking(s', v, t) ==> NowParking(s, v, t);
  }

  ghost predicate OrderlyRun(s: State, actions: seq<Action>, idChecked: bool)
    decreases |actions|
  {
    actions == [] ||
    (Enabled(s, actions[0]) && Orderly(s, actions[0], idChecked) && OrderlyRun(Apply(s, actions[0]), actions[1..], idChecked))
  }

  lemma {:induction false} OrderlyRunInv(s: State, actions: seq<Action>, s': State)
    requires Inv(s, true) && InOrder(s) && Runs(s, actions, s') && OrderlyRun(s, actions, true)
    ensures Inv(s', true)
    decreases |actions|
  {
    if actions != [] {
      OrderlyFences(s, actions[0]);
      InvStep(s, actions[0], true);
      forall t | t in Apply(s, actions[0]).rows
        ensures TaskOrder(Apply(s, actions[0]), t)
      {
        OrderStep(s, actions[0], t);
      }
      OrderlyRunInv(Apply(s, actions[0]), actions[1..], s');
    }
  }

  /** With the id comparison, each executed plan with doors had its own record approved. */
  lemma EveryPlanIsApproved(actions: seq<Action>, s: State)
    requires Runs(INIT, actions, s) && OrderlyRun(INIT, actions, true)
    ensures AllApproved(s, true)
  {
    OrderlyRunInv(INIT, actions, s);
    InvIsSafe(s, true);
  }

  // ── Runs of the discipline ────────────────────────────────────────────────

  lemma OrderlyFirst(s: State, a: Action, rest: seq<Action>, s': State, idChecked: bool)
    requires Enabled(s, a) && Orderly(s, a, idChecked)
    requires Runs(Apply(s, a), rest, s') && OrderlyRun(Apply(s, a), rest, idChecked)
    ensures Runs(s, [a] + rest, s') && OrderlyRun(s, [a] + rest, idChecked)
  {
    assert ([a] + rest)[1..] == rest;
  }

  /** Steps the discipline does not restrict. */
  predicate Unrestricted(a: Action) {
    !a.Claim? && !a.SlotExpires? && !a.Requeue? && !a.Deliver? && (a.WriteApprovalId? ==> a.ok)
  }

  lemma {:induction false} UnrestrictedRun(s: State, actions: seq<Action>, s': State, idChecked: bool)
    requires Runs(s, actions, s') && forall a :: a in actions ==> Unrestricted(a)
    ensures OrderlyRun(s, actions, idChecked)
    decreases |actions|
  {
    if actions != [] {
      assert Unrestricted(actions[0]);
      UnrestrictedRun(Apply(s, actions[0]), actions[1..], s', idChecked);
    }
  }

  /** Claiming a task nobody holds, and working on it, is orderly. */
  lemma OrderlyClaim(s: State, actions: seq<Action>, t: TaskId, s': State, idChecked: bool)
    requires Runs(s, actions, s') && ClaimsOnce(actions, t) && forall w :: !OnTask(s, w, t)
    ensures OrderlyRun(s, actions, idChecked)
  {
    assert forall a :: a in actions[1..] ==> Unrestricted(a);
    UnrestrictedRun(Apply(s, actions[0]), actions[1..], s', idChecked);
  }

  lemma {:induction false} OrderlyConcat(s: State, xs: seq<Action>, m: State, ys: seq<Action>, s': State, idChecked: bool)
    requires Runs(s, xs, m) && OrderlyRun(s, xs, idChecked) && Runs(m, ys, s') && OrderlyRun(m, ys, idChecked)
    ensures Runs(s, xs + ys, s') && OrderlyRun(s, xs + ys, idChecked)
    decreases |xs|
  {
    if xs == [] {
      assert xs + ys == ys;
    } else {
      OrderlyConcat(Apply(s, xs[0]), xs[1..], m, ys, s', idChecked);
      assert xs + ys == [xs[0]] + (xs[1..] + ys);
      OrderlyFirst(s, xs[0], xs[1..] + ys, s', idChecked);
    }
  }

  // ── What the comparison would have to decide ──────────────────────────────

  /** Whatever orderly run follows, every executed plan with doors had its own record approved. */
  ghost predicate SafeOrderly(s: State) {
    forall actions, s' :: Runs(s, actions, s') && OrderlyRun(s, actions, true) ==> AllApproved(s', true)
  }

  lemma DeliverKeepsOrder(s: State, e: Event)
    requires Inv(s, true) && InOrder(s) && Enabled(s, Deliver(e)) && Fenced(s, Deliver(e), true)
    ensures SafeOrderly(Apply(s, Deliver(e)))
  {
    var s' := Apply(s, Deliver(e));
    InvStep(s, Deliver(e), true);
    forall t | t in s'.rows
      ensures TaskOrder(s', t)
    {
      assert TaskOrder(s, t);
      OrderKept(s, Deliver(e), t);
    }
    forall actions, end | Runs(s', actions, end) && OrderlyRun(s', actions, true)
      ensures AllApproved(end, true)
    {
      OrderlyRunInv(s', actions, end);
      InvIsSafe(end, true);
    }
  }

  /** A queued row nobody holds, parked with an unapproved plan it can resume: an orderly run executes it. */
  lemma OrderlyHazard(s: State, t: TaskId, p: Plan)
    requires t in s.rows && s.rows[t].status == Queued && s.rows[t].marker == Some(Digest(p)) && p.oneWayDoors != []
    requires Elevated(p) == p && Resumable(s.rows[t], p, s.rows[t].attempts < MAX_ATTEMPTS)
    requires (forall w :: !OnTask(s, w, t)) && !Cleared(s, t, p, true)
    ensures !SafeOrderly(s)
  {
    var m := s;
    var actions: seq<Action> := [];
    if s.rows[t].plan != Some(p) {
      actions, m := PlannedAgain(s, t, p);
      OrderlyClaim(s, actions, t, m, true);
    }
    forall w
      ensures !OnTask(m, w, t)
    {
      assert !OnTask(s, w, t);
    }
    var rest, s' := ArmedQueueExecutes(m, t, p);
    OrderlyClaim(m, rest, t, s', true);
    OrderlyConcat(s, actions, m, rest, s', true);
    var e := Execution(t, p, Resumed(|m.parks|));
    assert e in s'.executed;
    assert forall r :: RecordClears(s', r, t, p, true) ==> RecordClears(s, r, t, p, true);
  }

  /**
   The resume of a parked row by an approved event that nobody compared with
   it: harmless in every later orderly run exactly when an operator approved
   the plan the row is parked with, whichever record the event is about.
   */
  lemma DeliverExact(s: State, e: Event)
    requires Inv(s, true) && InOrder(s) && Enabled(s, Deliver(e)) && e.approved && Orderly(s, Deliver(e), false)
    requires var row := s.rows[e.task];
             && row.status == AwaitingApproval
             && (row.marker.Some? ==> Resumable(row, row.marker.value.plan, row.attempts < MAX_ATTEMPTS))
    ensures SafeOrderly(Apply(s, Deliver(e))) <==> MarkerAnswered(s, e.task)
  {
    var t := e.task;
    if MarkerAnswered(s, t) {
      DeliverKeepsOrder(s, e);
    } else {
      var s', p := Apply(s, Deliver(e)), s.rows[t].marker.value.plan;
      assert TaskOrder(s, t) && RowTracked(s, t);
      forall w
        ensures !OnTask(s', w, t)
      {
        assert OnTask(s', w, t) ==> OnTask(s, w, t);
      }
      ElevationFixpoint(p);
      assert forall r :: RecordClears(s', r, t, p, true) ==> RecordClears(s, r, t, p, true);
      OrderlyHazard(s', t, p);
    }
  }

  // ── Without the comparison ────────────────────────────────────────────────

  /**
   Record 0 (for an earlier plan `q` of task 0) is approved and its event is
   published; the row is parked again, for `p` under record 1, and the event
   comes a second time.
   */
  predicate ParkedAgain(s: State, p: Plan) {
    && Armed(s, 0, p)
    && s.rows[0].status == AwaitingApproval && s.rows[0].approvalId == Some(1)
    && s.workers == map[]
    && Event(0, 0, true) in s.events
  }

  lemma RepeatedEventResumes(s: State, p: Plan) returns (actions: seq<Action>, s': State)
    requires ParkedAgain(s, p)
    ensures Runs(s, actions, s') && OrderlyRun(s, actions, false)
    ensures s'.events == s.events && s'.requested == s.requested
    ensures s'.executed == s.executed + [Execution(0, p, Resumed(|s.parks|))]
  {
    var s1 := Apply(s, Deliver(Event(0, 0, true)));
    actions, s' := ArmedQueueExecutes(s1, 0, p);
    OrderlyClaim(s1, actions, 0, s', false);
    OrderlyFirst(s, Deliver(Event(0, 0, true)), actions, s', false);
    actions := [Deliver(Event(0, 0, true))] + actions;
  }

  /** Task 0 is claimed by worker `w` and planned as `p`; its row carries no plan, so nothing is resumed. */
  lemma PlanFrom(s: State, w: WorkerId, p: Plan) returns (actions: seq<Action>, s': State)
    requires s.workers == map[] && 0 in s.rows && s.rows[0].status == Queued && s.rows[0].plan == None
    ensures Runs(s, actions, s') && OrderlyRun(s, actions, false)
    ensures s' == s.(rows := s.rows[0 := s.rows[0].(status := Running)], workers := map[w := Planned(0, Elevated(p))])
  {
    ElevationFixpoint(p);
    actions, s' := ClaimedAndPlanned(s, w, 0, Elevated(p));
    OrderlyClaim(s, actions, 0, s', false);
    assert s'.workers == map[w := Planned(0, Elevated(p))];
  }

  lemma ParkFrom(s: State, w: WorkerId, p: Plan, r: RecordId, persisted: bool) returns (actions: seq<Action>, s': State)
    requires s.workers == map[w := Planned(0, p)] && 0 in s.rows && p.oneWayDoors != [] && r !in s.requested
    ensures Runs(s, actions, s') && OrderlyRun(s, actions, false)
    ensures s' == s.(rows := s.rows[0 := s.rows[0].(status := AwaitingApproval,
                                                    plan := if persisted then Some(p) else s.rows[0].plan,
                                                    marker := Some(Digest(p)), approvalId := Some(r))],
                     workers := map[], store := s.store[r := Pending],
                     requested := s.requested[r := Request(0, p)], parks := s.parks + [Request(0, p)])
  {
    actions := ParkActions(w, r, persisted);
    s' := ParkRun(s, w, 0, p, r, persisted);
    UnrestrictedRun(s, actions, s', false);
    assert s.workers - {w} == map[];
  }

  lemma ApproveFrom(s: State) returns (actions: seq<Action>, s': State)
    requires s.workers == map[] && 0 in s.rows && s.rows[0].status == AwaitingApproval
    requires 0 in s.requested && s.requested[0].task == 0 && Holds(s, 0, Pending)
    ensures Runs(s, actions, s') && OrderlyRun(s, actions, false)
    ensures s'.rows == s.rows[0 := s.rows[0].(status := Queued)] && s'.workers == map[]
    ensures s'.requested == s.requested && s'.events == s.events + {Event(0, 0, true)} && s'.executed == s.executed
  {
    var e := Event(0, 0, true);
    var s1 := Apply(s, OperatorReads(0));
    var s2 := Apply(s1, OperatorDecides(0, true));
    s' := Apply(s2, Deliver(e));
    OrderlyFirst(s2, Deliver(e), [], s', false);
    OrderlyFirst(s1, OperatorDecides(0, true), [Deliver(e)] + [], s', false);
    OrderlyFirst(s, OperatorReads(0), [OperatorDecides(0, true)] + ([Deliver(e)] + []), s', false);
    actions := [OperatorReads(0)] + ([OperatorDecides(0, true)] + ([Deliver(e)] + []));
  }

  /** A fresh task plans `q`, parks it as record 0 with its `tasks.plan` write lost, and is approved. */
  lemma ParkAndApprove(s0: State, q: Plan) returns (actions: seq<Action>, s: State)
    requires Elevated(q).oneWayDoors != [] && s0.workers == map[] && s0.requested == map[] && s0.events == {} && s0.executed == []
    requires 0 in s0.rows && s0.rows[0] == Row(Queued, 0, None, None, None)
    ensures Runs(s0, actions, s) && OrderlyRun(s0, actions, false)
    ensures 0 in s.rows && s.rows[0].status == Queued && s.rows[0].plan == None && s.workers == map[]
    ensures s.requested == map[0 := Request(0, Elevated(q))] && s.events == {Event(0, 0, true)} && s.executed == []
  {
    var xs, s1 := PlanFrom(s0, 1, q);
    var ys, s2 := ParkFrom(s1, 1, Elevated(q), 0, false);
    OrderlyConcat(s0, xs, s1, ys, s2, false);
    var zs;
    zs, s := ApproveFrom(s2);
    OrderlyConcat(s0, xs + ys, s2, zs, s, false);
    actions := xs + ys + zs;
  }

  lemma FirstPark(q: Plan) returns (actions: seq<Action>, s: State)
    requires Elevated(q).oneWayDoors != []
    ensures Runs(INIT, actions, s) && OrderlyRun(INIT, actions, false)
    ensures 0 in s.rows && s.rows[0].status == Queued && s.rows[0].plan == None && s.workers == map[]
    ensures s.requested == map[0 := Request(0, Elevated(q))] && s.events == {Event(0, 0, true)} && s.executed == []
  {
    var rest;
    rest, s := ParkAndApprove(Apply(INIT, Create(0)), q);
    OrderlyFirst(INIT, Create(0), rest, s, false);
    actions := [Create(0)] + rest;
  }

  /** The task is then planned afresh as `p`, and parks again. */
  lemma SecondPark(q: Plan, p: Plan) returns (actions: seq<Action>, s: State)
    requires Elevated(q).oneWayDoors != [] && Elevated(p).oneWayDoors != []
    ensures Runs(INIT, actions, s) && OrderlyRun(INIT, actions, false)
    ensures ParkedAgain(s, Elevated(p)) && s.events == {Event(0, 0, true)} && s.executed == []
    ensures s.requested == map[0 := Request(0, Elevated(q)), 1 := Request(0, Elevated(p))]
  {
    var xs, m := FirstPark(q);
    var ys, n := PlanFrom(m, 2, p);
    OrderlyConcat(INIT, xs, m, ys, n, false);
    var zs;
    zs, s := ParkFrom(n, 2, Elevated(p), 1, true);
    OrderlyConcat(INIT, xs + ys, n, zs, s, false);
    actions := xs + ys + zs;
  }

  /** Without the comparison, an orderly run executes a plan whose own record nobody decided. */
  lemma RepeatedEventIsUnsafe(q: Plan, p: Plan) returns (actions: seq<Action>, s: State)
    requires Elevated(q).oneWayDoors != [] && Elevated(p).oneWayDoors != [] && Elevated(q) != Elevated(p)
    ensures Runs(INIT, actions, s) && OrderlyRun(INIT, actions, false)
    ensures s.events == {Event(0, 0, true)} && !AllApproved(s, true)
  {
    var xs, m := SecondPark(q, p);
    var ys;
    ys, s := RepeatedEventResumes(m, Elevated(p));
    actions := xs + ys;
    OrderlyConcat(INIT, xs, m, ys, s, false);
    var e := Execution(0, Elevated(p), Resumed(|m.parks|));
    assert e in s.executed;
    assert !Cleared(s, 0, Elevated(p), true);
  }
}
