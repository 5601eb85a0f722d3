/**
 When the lifecycle keeps approval safety. Three writes ignore the status they
 overwrite: 'running' after a claim, `requeueForRetry`, and 'running' after the
 blocking wait. This module shows two disciplines under which every run is safe,
 that without them real runs are not, and exactly which rows those writes may hit.
 */
module ApprovalDiscipline {
  import opened Wrappers
  import opened OneWayDoors
  import opened TaskLifecycle
  import opened PlanIntegrity
  import opened ApprovalSafety

  ghost predicate TaskCleared(s: State, t: TaskId) {
    exists r :: r in s.requested && s.requested[r].task == t && Event(r, t, true) in s.events
  }

  lemma TaskClearedIsCleared(s: State, t: TaskId, p: Plan)
    ensures Cleared(s, t, p, false) <==> TaskCleared(s, t)
  {
    if r :| r in s.requested && s.requested[r].task == t && Event(r, t, true) in s.events {
      assert RecordClears(s, r, t, p, false);
    }
  }

  lemma ClearedTaskMayGoLive(s: State, t: TaskId)
    requires TaskCleared(s, t)
    ensures MayGoLive(s, t, false)
  {
    forall p
      ensures Cleared(s, t, p, false)
    {
      TaskClearedIsCleared(s, t, p);
    }
  }

  /** The listener and the blocking wait act on an operator's decision for the same task. */
  lemma ApprovalWritesAreFenced(s: State, a: Action)
    requires Tracked(s) && Enabled(s, a)
    requires a.WaitApproved? || a.Deliver?
    ensures Fenced(s, a, false)
  {
    if a.WaitApproved? {
      assert WorkerTracked(s, s.workers[a.w]);
      ClearedTaskMayGoLive(s, s.workers[a.w].task);
    } else if a.e.approved {
      assert s.requested[a.e.record].task == a.e.task;
      assert Event(a.e.record, a.e.task, true) == a.e;
      ClearedTaskMayGoLive(s, a.e.task);
    }
  }

  // ── Discipline 1: the unconditional writes only hit live rows ─────────────

  predicate StatusGuarded(s: State, a: Action)
    requires Enabled(s, a)
  {
    match a
    case Start(w) => Live(s.rows[s.workers[w].task].status)
    case Requeue(t) => Live(s.rows[t].status)
    case Throw(w, transient) => transient ==> Live(s.rows[s.workers[w].task].status)
    case _ => true
  }

  lemma StatusGuardFences(s: State, a: Action, x: Option<TaskId>)
    requires InvBut(s, x, false) && Enabled(s, a) && StatusGuarded(s, a)
    ensures Fenced(s, a, false) || (x.Some? && x.value in s.rows && Revives(s, a, x.value))
  {
    match a
    case Start(w) => assert x != Some(s.workers[w].task) ==> RowOk(s, s.workers[w].task, false);
    case Requeue(t) => assert x != Some(t) ==> RowOk(s, t, false);
    case Throw(w, _) =>
      var t := s.workers[w].task;
      assert x != Some(t) ==> RowOk(s, t, false);
      if MayGoLive(s, t, false) {
        assert Extends(s, Gone(s, w));
        MayGoLiveExtends(s, Gone(s, w), t, false);
      }
    case WaitApproved(_) => ApprovalWritesAreFenced(s, a);
    case Deliver(_) => ApprovalWritesAreFenced(s, a);
    case _ =>
  }

  ghost predicate GuardedRun(s: State, actions: seq<Action>)
    decreases |actions|
  {
    actions == [] ||
    (Enabled(s, actions[0]) && StatusGuarded(s, actions[0]) && GuardedRun(Apply(s, actions[0]), actions[1..]))
  }

  lemma {:induction false} GuardedRunIsSafe(s: State, actions: seq<Action>, s': State)
    requires Inv(s, false) && Runs(s, actions, s') && GuardedRun(s, actions)
    ensures AllApproved(s', false)
    decreases |actions|
  {
    if actions == [] {
      InvIsSafe(s, false);
    } else {
      StatusGuardFences(s, actions[0], None);
      InvStep(s, actions[0], false);
      GuardedRunIsSafe(Apply(s, actions[0]), actions[1..], s');
    }
  }

  // ── Discipline 2: a lost lease means a dead worker ────────────────────────

  predicate OnTask(s: State, w: WorkerId, t: TaskId) {
    w in s.workers && s.workers[w].task == t
  }

  /** Slots expire, and sweepers requeue, only tasks whose worker is gone; requeues hit live rows. */
  ghost predicate LeaseSound(s: State, a: Action)
    requires Enabled(s, a)
  {
    match a
    case SlotExpires(t) => forall w :: !OnTask(s, w, t)
    case Requeue(t) => Live(s.rows[t].status) && forall w :: !OnTask(s, w, t)
    case _ => true
  }

  /** No plan with doors waits on the row. */
  predicate Unparked(row: Row) {
    row.marker.Some? ==> row.marker.value.plan.oneWayDoors == []
  }

  /** Until its first approval a task has one worker at most, and a worker only while unparked. */
  ghost predicate Exclusive(s: State, t: TaskId)
    requires t in s.rows
  {
    && (forall w, w' :: OnTask(s, w, t) && OnTask(s, w', t) ==> w == w')
    && (forall w :: OnTask(s, w, t) ==> Unparked(s.rows[t]) && s.rows[t].status != Queued)
  }

  ghost predicate AllExclusive(s: State) {
    forall t :: t in s.rows && !TaskCleared(s, t) ==> Exclusive(s, t)
  }

  lemma TaskClearedExtends(s: State, s': State, t: TaskId)
    requires Extends(s, s') && TaskCleared(s, t)
    ensures TaskCleared(s', t)
  {
  }

  /** The sole worker of an unapproved, unmarked row may revive it. */
  lemma SoleWorkerMayRevive(s: State, w: WorkerId, t: TaskId)
    requires AllExclusive(s) && At(s, w) && OnTask(s, w, t)
    ensures !s.workers[w].Parking? ==> MayGoLive(s, t, false)
    ensures MayGoLive(Gone(s, w), t, false)
  {
    if TaskCleared(s, t) {
      ClearedTaskMayGoLive(s, t);
      TaskClearedExtends(s, Gone(s, w), t);
      ClearedTaskMayGoLive(Gone(s, w), t);
    } else {
      assert Exclusive(s, t);
      assert forall v :: NowParking(s, v, t) ==> OnTask(s, v, t);
      assert forall v :: NowParking(s, v, t) ==> v == w;
      assert forall v :: NowParking(Gone(s, w), v, t) ==> NowParking(s, v, t);
    }
  }

  lemma LeaseSoundFences(s: State, a: Action)
    requires Inv(s, false) && AllExclusive(s) && Enabled(s, a) && LeaseSound(s, a)
    ensures Fenced(s, a, false)
  {
    if a.Start? || a.Throw? {
      SoleWorkerMayRevive(s, a.w, s.workers[a.w].task);
    } else if a.Requeue? {
      assert RowOk(s, a.t, false);
    } else if a.WaitApproved? || a.Deliver? {
      ApprovalWritesAreFenced(s, a);
    }
  }

  lemma ExclusiveStep(s: State, a: Action, t: TaskId)
    requires Inv(s, false) && AllExclusive(s) && Enabled(s, a) && LeaseSound(s, a)
    requires t in Apply(s, a).rows && !TaskCleared(Apply(s, a), t)
    ensures Exclusive(Apply(s, a), t)
  {
    if t !in s.rows {
      NewRowIsCreated(s, a, t);
      ExclusiveCreate(s, t);
    } else {
      assert !TaskCleared(s, t) by {
        StepExtends(s, a);
        if TaskCleared(s, t) {
          TaskClearedExtends(s, Apply(s, a), t);
        }
      }
      if a.Claim? && a.t == t {
        ExclusiveClaim(s, a.w, t);
      } else {
        ExclusiveKept(s, a, t);
      }
    }
  }

  lemma ExclusiveCreate(s: State, t: TaskId)
    requires Inv(s, false) && Enabled(s, Create(t))
    ensures Exclusive(Apply(s, Create(t)), t)
  {
    assert forall w :: w in s.workers ==> WorkerTracked(s, s.workers[w]);
  }

  lemma ExclusiveClaim(s: State, w: WorkerId, t: TaskId)
    requires Inv(s, false) && AllExclusive(s) && Enabled(s, Claim(w, t)) && !TaskCleared(s, t)
    ensures Exclusive(Apply(s, Claim(w, t)), t)
  {
    var s' := Apply(s, Claim(w, t));
    assert Exclusive(s, t) && RowOk(s, t, false);
    if s.rows[t].marker.Some? {
      TaskClearedIsCleared(s, t, s.rows[t].marker.value.plan);
    }
    assert forall v :: !OnTask(s, v, t);
    assert forall v :: OnTask(s', v, t) ==> v == w || OnTask(s, v, t);
  }

  lemma NoNewWorker(s: State, a: Action, t: TaskId)
    requires Enabled(s, a) && t in s.rows && !(a.Claim? && a.t == t)
    ensures forall w :: OnTask(Apply(s, a), w, t) ==> OnTask(s, w, t)
  {
    forall w | OnTask(Apply(s, a), w, t)
      ensures OnTask(s, w, t)
    {
      if ActsAs(a, w) {
        ActorOk(s, a, w, false);
      } else {
        OthersKept(s, a, w);
      }
    }
  }

  /** The row of a held, unapproved task stays unparked and out of the queue. */
  ghost predicate HeldRowKept(s: State, a: Action, t: TaskId)
    requires Enabled(s, a)
  {
    t in Apply(s, a).rows && ((exists w :: OnTask(Apply(s, a), w, t)) ==>
      Unparked(Apply(s, a).rows[t]) && Apply(s, a).rows[t].status != Queued)
  }

  lemma EnvironmentKeepsHeldRow(s: State, a: Action, t: TaskId)
    requires RecordsOk(s) && Enabled(s, a) && Environment(a) && LeaseSound(s, a) && t in s.rows && Exclusive(s, t)
    requires !TaskCleared(Apply(s, a), t)
    ensures HeldRowKept(s, a, t)
  {
    NoNewWorker(s, a, t);
    if a.Deliver? && a.e.approved && a.e.task == t {
      assert Event(a.e.record, t, true) == a.e;
      assert TaskCleared(Apply(s, a), t);
    }
  }

  lemma WorkerKeepsHeldRow(s: State, a: Action, t: TaskId)
    requires Enabled(s, a) && !Environment(a) && !a.Claim? && t in s.rows && Exclusive(s, t) && s.workers[a.w].task == t
    ensures HeldRowKept(s, a, t)
  {
    NoNewWorker(s, a, t);
    assert OnTask(s, a.w, t);
  }

  lemma ExclusiveKept(s: State, a: Action, t: TaskId)
    requires RecordsOk(s) && Enabled(s, a) && LeaseSound(s, a) && t in s.rows
    requires Exclusive(s, t) && !(a.Claim? && a.t == t)
    requires !TaskCleared(Apply(s, a), t)
    ensures Exclusive(Apply(s, a), t)
  {
    NoNewWorker(s, a, t);
    if Environment(a) {
      EnvironmentKeepsHeldRow(s, a, t);
    } else if !a.Claim? && s.workers[a.w].task == t {
      WorkerKeepsHeldRow(s, a, t);
    } else {
      OtherRowsKept(s, a, t);
    }
  }

  ghost predicate LeaseSoundRun(s: State, actions: seq<Action>)
    decreases |actions|
  {
    actions == [] ||
    (Enabled(s, actions[0]) && LeaseSound(s, actions[0]) && LeaseSoundRun(Apply(s, actions[0]), actions[1..]))
  }

  lemma {:induction false} LeaseSoundRunIsSafe(s: State, actions: seq<Action>, s': State)
    requires Inv(s, false) && AllExclusive(s) && Runs(s, actions, s') && LeaseSoundRun(s, actions)
    ensures AllApproved(s', false)
    decreases |actions|
  {
    if actions == [] {
      InvIsSafe(s, false);
    } else {
      LeaseSoundFences(s, actions[0]);
      InvStep(s, actions[0], false);
      forall t | t in Apply(s, actions[0]).rows && !TaskCleared(Apply(s, actions[0]), t)
        ensures Exclusive(Apply(s, actions[0]), t)
      {
        ExclusiveStep(s, actions[0], t);
      }
      LeaseSoundRunIsSafe(Apply(s, actions[0]), actions[1..], s');
    }
  }

  /** Either discipline, on its own, makes every run from the empty system safe. */
  lemma DisciplinedRunsAreSafe(actions: seq<Action>, s: State)
    requires Runs(INIT, actions, s)
    requires GuardedRun(INIT, actions) || LeaseSoundRun(INIT, actions)
    ensures AllApproved(s, false)
  {
    if GuardedRun(INIT, actions) {
      GuardedRunIsSafe(INIT, actions, s);
    } else {
      LeaseSoundRunIsSafe(INIT, actions, s);
    }
  }

  // ── Exactly which rows the unconditional writes may hit ───────────────────

  /** Row `t` carries a marker for a plan with doors that is also its stored plan. */
  predicate Armed(s: State, t: TaskId, p: Plan) {
    t in s.rows && s.rows[t].marker == Some(Digest(p)) && s.rows[t].plan == Some(p) && p.oneWayDoors != []
  }

  lemma {:induction false} FreshWorker(ws: set<WorkerId>) returns (w: WorkerId)
    ensures w !in ws
    ensures forall v :: v in ws ==> v < w
    decreases |ws|
  {
    if ws == {} {
      w := 0;
    } else {
      var v :| v in ws;
      var u := FreshWorker(ws - {v});
      w := if u > v then u else v + 1;
      assert forall x :: x in ws ==> x == v || x in ws - {v};
    }
  }

  lemma GuardedFirst(s: State, a: Action, rest: seq<Action>, s': State)
    requires Enabled(s, a) && StatusGuarded(s, a) && Runs(Apply(s, a), rest, s') && GuardedRun(Apply(s, a), rest)
    ensures Runs(s, [a] + rest, s') && GuardedRun(s, [a] + rest)
  {
    assert ([a] + rest)[1..] == rest;
  }

  lemma ClaimedAndStarted(s: State, v: WorkerId, t: TaskId) returns (s': State)
    requires t in s.rows && s.rows[t].status == Queued && v !in s.workers
    ensures Enabled(s, Claim(v, t)) && Enabled(Apply(s, Claim(v, t)), Start(v))
    ensures StatusGuarded(Apply(s, Claim(v, t)), Start(v)) && Apply(Apply(s, Claim(v, t)), Start(v)) == s'
    ensures s' == s.(rows := s.rows[t := s.rows[t].(status := Running)],
                     workers := s.workers[v := Started(t, s.rows[t].(status := Claimed), |s.parks|)])
  {
    s' := Apply(Apply(s, Claim(v, t)), Start(v));
    assert s'.workers == s.workers[v := s'.workers[v]];
    assert s'.rows == s.rows[t := s'.rows[t]];
  }

  /** A claim of `t`, and then only steps of the worker that made it. */
  predicate ClaimsOnce(actions: seq<Action>, t: TaskId) {
    && actions != [] && actions[0].Claim? && actions[0].t == t
    && forall a :: a in actions[1..] ==> a.Start? || a.Resume? || a.MakePlan? || a.Persist? || a.Execute? || a.Throw?
  }

  lemma ClaimAndOwnSteps(w: WorkerId, t: TaskId, rest: seq<Action>)
    requires forall a :: a in rest ==> a.Start? || a.Resume? || a.MakePlan? || a.Persist? || a.Execute? || a.Throw?
    ensures ClaimsOnce([Claim(w, t)] + rest, t)
  {
    assert ([Claim(w, t)] + rest)[1..] == rest;
  }

  /** An armed row in the queue is claimed, resumed and executed, and nobody is asked. */
  lemma ArmedQueueExecutes(s: State, t: TaskId, p: Plan) returns (actions: seq<Action>, s': State)
    requires Armed(s, t, p) && s.rows[t].status == Queued
    ensures Runs(s, actions, s') && GuardedRun(s, actions) && ClaimsOnce(actions, t)
    ensures s'.events == s.events && s'.requested == s.requested
    ensures s'.executed == s.executed + [Execution(t, p, Resumed(|s.parks|))]
  {
    var w := FreshWorker(s.workers.Keys);
    var s2 := ClaimedAndStarted(s, w, t);
    var s3 := Apply(s2, Resume(w, true));
    assert s3.workers[w] == Ready(t, p, Resumed(|s.parks|));
    s' := Apply(s3, Execute(w));
    GuardedFirst(s3, Execute(w), [], s');
    GuardedFirst(s2, Resume(w, true), [Execute(w)] + [], s');
    GuardedFirst(Apply(s, Claim(w, t)), Start(w), [Resume(w, true)] + ([Execute(w)] + []), s');
    GuardedFirst(s, Claim(w, t), [Start(w)] + ([Resume(w, true)] + ([Execute(w)] + [])), s');
    actions := [Claim(w, t)] + ([Start(w)] + ([Resume(w, true)] + ([Execute(w)] + [])));
    ClaimAndOwnSteps(w, t, [Start(w)] + ([Resume(w, true)] + ([Execute(w)] + [])));
  }

  ghost predicate SafeFrom(s: State) {
    forall actions, s' :: Runs(s, actions, s') && GuardedRun(s, actions) ==> AllApproved(s', false)
  }

  lemma ArmedQueueIsUnsafe(s: State, t: TaskId, p: Plan) returns (actions: seq<Action>, s': State)
    requires Armed(s, t, p) && s.rows[t].status == Queued && !TaskCleared(s, t)
    ensures Runs(s, actions, s') && GuardedRun(s, actions) && !AllApproved(s', false)
  {
    actions, s' := ArmedQueueExecutes(s, t, p);
    var e := Execution(t, p, Resumed(|s.parks|));
    assert e in s'.executed && e.plan.oneWayDoors != [];
    TaskClearedIsCleared(s', t, p);
    assert !TaskCleared(s', t);
  }

  lemma SafeFromInv(s: State)
    requires Inv(s, false)
    ensures SafeFrom(s)
  {
    forall actions, s' | Runs(s, actions, s') && GuardedRun(s, actions)
      ensures AllApproved(s', false)
    {
      GuardedRunIsSafe(s, actions, s');
    }
  }

  lemma {:induction false} GuardedConcat(s: State, xs: seq<Action>, m: State, ys: seq<Action>, s': State)
    requires Runs(s, xs, m) && GuardedRun(s, xs) && Runs(m, ys, s') && GuardedRun(m, ys)
    ensures Runs(s, xs + ys, s') && GuardedRun(s, xs + ys)
    decreases |xs|
  {
    if xs == [] {
      assert xs + ys == ys;
    } else {
      GuardedConcat(Apply(s, xs[0]), xs[1..], m, ys, s');
      assert xs + ys == [xs[0]] + (xs[1..] + ys);
      GuardedFirst(s, xs[0], xs[1..] + ys, s');
    }
  }

  ghost predicate ParkingWith(s: State, w: WorkerId, t: TaskId, p: Plan) {
    NowParking(s, w, t) && s.workers[w].plan == p
  }

  /** Plan `p` is what row `t` is parked with, or what a parking worker is about to write there. */
  ghost predicate PendingPlan(s: State, t: TaskId, p: Plan)
    requires t in s.rows
  {
    s.rows[t].marker == Some(Digest(p)) || exists w :: ParkingWith(s, w, t, p)
  }

  /** The fence in words: the task has an approval, or no plan with doors is pending on its row. */
  lemma MayGoLiveIff(s: State, t: TaskId)
    requires t in s.rows
    ensures MayGoLive(s, t, false) <==> TaskCleared(s, t) || forall p :: PendingPlan(s, t, p) ==> p.oneWayDoors == []
  {
    forall p
      ensures Cleared(s, t, p, false) <==> TaskCleared(s, t)
    {
      TaskClearedIsCleared(s, t, p);
    }
    if forall p :: PendingPlan(s, t, p) ==> p.oneWayDoors == [] {
      forall w | NowParking(s, w, t)
        ensures s.workers[w].plan.oneWayDoors == []
      {
        assert ParkingWith(s, w, t, s.workers[w].plan);
        assert PendingPlan(s, t, s.workers[w].plan);
      }
      assert s.rows[t].marker.Some? ==> PendingPlan(s, t, s.rows[t].marker.value.plan);
    }
  }

  /** Nobody was asked, nobody decided, and nothing was executed. */
  ghost predicate Unasked(s: State, s': State, t: TaskId) {
    && s'.events == s.events && s'.requested == s.requested && s'.executed == s.executed
    && t in s.rows && t in s'.rows
  }

  /** A parking worker writes its marker: the row keeps its status, plan and attempts. */
  lemma MarkerLands(s: State, w: WorkerId, t: TaskId, p: Plan) returns (actions: seq<Action>, s': State)
    requires t in s.rows && ParkingWith(s, w, t, p)
    ensures Runs(s, actions, s') && GuardedRun(s, actions) && Unasked(s, s', t)
    ensures s'.rows[t].marker == Some(Digest(p)) && s'.rows[t].plan == s.rows[t].plan && s'.rows[t].status == s.rows[t].status
  {
    var m := s;
    actions := [WriteMarker(w, true)] + [];
    if !s.workers[w].idTried {
      m := Apply(s, WriteApprovalId(w, false));
    }
    s' := Apply(m, WriteMarker(w, true));
    GuardedFirst(m, WriteMarker(w, true), [], s');
    if !s.workers[w].idTried {
      GuardedFirst(s, WriteApprovalId(w, false), actions, s');
      actions := [WriteApprovalId(w, false)] + actions;
    }
  }

  lemma ClaimedAndPlanned(s: State, v: WorkerId, t: TaskId, p: Plan) returns (actions: seq<Action>, s': State)
    requires t in s.rows && s.rows[t].status == Queued && v !in s.workers && !IsResume(s.rows[t]) && Elevated(p) == p
    ensures Runs(s, actions, s') && GuardedRun(s, actions) && ClaimsOnce(actions, t)
    ensures s' == s.(rows := s.rows[t := s.rows[t].(status := Running)], workers := s.workers[v := Planned(t, p)])
  {
    var s2 := ClaimedAndStarted(s, v, t);
    s' := Apply(s2, MakePlan(v, p));
    GuardedFirst(s2, MakePlan(v, p), [], s');
    GuardedFirst(Apply(s, Claim(v, t)), Start(v), [MakePlan(v, p)] + [], s');
    GuardedFirst(s, Claim(v, t), [Start(v)] + ([MakePlan(v, p)] + []), s');
    actions := [Claim(v, t)] + ([Start(v)] + ([MakePlan(v, p)] + []));
    ClaimAndOwnSteps(v, t, [Start(v)] + ([MakePlan(v, p)] + []));
    assert s'.workers == s.workers[v := Planned(t, p)];
  }

  lemma StoredAndRequeued(s: State, v: WorkerId, t: TaskId, p: Plan) returns (actions: seq<Action>, s': State)
    requires At(s, v) && s.workers[v] == Planned(t, p) && s.rows[t].status == Running && s.rows[t].attempts < MAX_ATTEMPTS
    ensures Runs(s, actions, s') && GuardedRun(s, actions) && actions == [Persist(v, true), Throw(v, true)]
    ensures s' == s.(rows := s.rows[t := s.rows[t].(plan := Some(p), status := Queued, attempts := s.rows[t].attempts + 1)],
                     workers := s.workers - {v})
  {
    var s1 := Apply(s, Persist(v, true));
    s' := Apply(s1, Throw(v, true));
    GuardedFirst(s1, Throw(v, true), [], s');
    GuardedFirst(s, Persist(v, true), [Throw(v, true)] + [], s');
    actions := [Persist(v, true)] + ([Throw(v, true)] + []);
    assert s'.workers == s.workers - {v};
    assert s'.rows == s.rows[t := s'.rows[t]];
  }

  /** A queued row that is not resumed is planned as `p`, stored, and queued again by a transient error. */
  lemma PlannedAgain(s: State, t: TaskId, p: Plan) returns (actions: seq<Action>, s': State)
    requires t in s.rows && s.rows[t].status == Queued && s.rows[t].attempts < MAX_ATTEMPTS
    requires !IsResume(s.rows[t]) && Elevated(p) == p
    ensures Runs(s, actions, s') && GuardedRun(s, actions) && ClaimsOnce(actions, t) && Unasked(s, s', t)
    ensures s'.rows[t] == s.rows[t].(plan := Some(p), attempts := s.rows[t].attempts + 1)
    ensures s'.workers == s.workers
  {
    var v := FreshWorker(s.workers.Keys);
    var xs, m := ClaimedAndPlanned(s, v, t, p);
    var ys;
    ys, s' := StoredAndRequeued(m, v, t, p);
    actions := xs + ys;
    GuardedConcat(s, xs, m, ys, s');
    assert actions[1..] == xs[1..] + ys;
    assert s'.workers == s.workers;
  }

  /** The row's stored plan is `p`, or `spare` attempts let a fresh plan put it there before the row is resumed. */
  predicate Resumable(row: Row, p: Plan, spare: bool) {
    row.plan == Some(p) || (spare && !IsResume(row))
  }

  /** A queued row with a pending, unapproved, resumable plan: a guarded run executes that plan. */
  lemma QueuedHazard(s: State, t: TaskId, p: Plan) returns (actions: seq<Action>, s': State)
    requires t in s.rows && s.rows[t].status == Queued && PendingPlan(s, t, p) && p.oneWayDoors != [] && Elevated(p) == p
    requires !TaskCleared(s, t) && Resumable(s.rows[t], p, s.rows[t].attempts < MAX_ATTEMPTS)
    ensures Runs(s, actions, s') && GuardedRun(s, actions) && !AllApproved(s', false)
  {
    var m := s;
    actions := [];
    if s.rows[t].plan != Some(p) {
      actions, m := PlannedAgain(s, t, p);
    }
    if m.rows[t].marker != Some(Digest(p)) {
      var w :| ParkingWith(s, w, t, p);
      assert ParkingWith(m, w, t, p);
      var landing, n := MarkerLands(m, w, t, p);
      GuardedConcat(s, actions, m, landing, n);
      actions, m := actions + landing, n;
    }
    var rest;
    rest, s' := ArmedQueueIsUnsafe(m, t, p);
    GuardedConcat(s, actions, m, rest, s');
    actions := actions + rest;
  }

  ghost predicate PendingDoors(s: State, t: TaskId, p: Plan)
    requires t in s.rows
  {
    PendingPlan(s, t, p) && p.oneWayDoors != []
  }

  /** If plans with doors are pending on row `t`, one of them can be resumed after one more queueing. */
  ghost predicate PendingResumable(s: State, t: TaskId)
    requires t in s.rows
  {
    (exists p :: PendingDoors(s, t, p)) ==>
      exists p :: PendingDoors(s, t, p) && Resumable(s.rows[t], p, s.rows[t].attempts + 1 < MAX_ATTEMPTS)
  }

  lemma PickPending(s: State, t: TaskId) returns (p: Plan)
    requires Tracked(s) && t in s.rows && PendingResumable(s, t) && !MayGoLive(s, t, false)
    ensures PendingDoors(s, t, p) && Resumable(s.rows[t], p, s.rows[t].attempts + 1 < MAX_ATTEMPTS)
    ensures Elevated(p) == p && !TaskCleared(s, t)
  {
    MayGoLiveIff(s, t);
    var q :| PendingPlan(s, t, q) && q.oneWayDoors != [];
    assert PendingDoors(s, t, q);
    p :| PendingDoors(s, t, p) && Resumable(s.rows[t], p, s.rows[t].attempts + 1 < MAX_ATTEMPTS);
    PendingIsElevated(s, t, p);
  }

  lemma PendingIsElevated(s: State, t: TaskId, p: Plan)
    requires Tracked(s) && t in s.rows && PendingPlan(s, t, p)
    ensures Elevated(p) == p
  {
    assert RowTracked(s, t);
    if w :| ParkingWith(s, w, t, p) {
      assert WorkerTracked(s, s.workers[w]);
    }
    ElevationFixpoint(p);
  }

  lemma RequeueHazard(s: State, t: TaskId)
    requires Tracked(s) && t in s.rows && s.rows[t].attempts < MAX_ATTEMPTS && PendingResumable(s, t)
    requires !MayGoLive(s, t, false)
    ensures !SafeFrom(Apply(s, Requeue(t)))
  {
    var p := PickPending(s, t);
    var s' := Apply(s, Requeue(t));
    if w :| ParkingWith(s, w, t, p) {
      assert ParkingWith(s', w, t, p);
    }
    assert !TaskCleared(s', t);
    var _, _ := QueuedHazard(s', t, p);
  }

  /**
   `requeueForRetry` is harmless in every later guarded run exactly when it
   meets the fence: the task has an approval, or no plan with doors is pending
   on its row, or the row has no attempt left and fails instead.
   */
  lemma RequeueExact(s: State, t: TaskId)
    requires Inv(s, false) && t in s.rows && PendingResumable(s, t)
    ensures SafeFrom(Apply(s, Requeue(t))) <==> Fenced(s, Requeue(t), false)
  {
    if Fenced(s, Requeue(t), false) {
      InvStep(s, Requeue(t), false);
      SafeFromInv(Apply(s, Requeue(t)));
    } else {
      RequeueHazard(s, t);
    }
  }

  // ── A row nobody holds ────────────────────────────────────────────────────

  predicate ClaimedAs(worker: Worker, row: Row) {
    (worker.Entered? || worker.Started?) && worker.snapshot.marker == row.marker && worker.snapshot.plan == row.plan
  }

  /** The row would be resumed, and the hash check refuses its plan; only such resumers hold it. */
  ghost predicate Refuses(s: State, t: TaskId) {
    && t in s.rows && IsResume(s.rows[t]) && s.rows[t].marker != Some(Digest(s.rows[t].plan.value))
    && forall w :: OnTask(s, w, t) ==> ClaimedAs(s.workers[w], s.rows[t])
  }

  predicate PlansAfresh(worker: Worker) {
    && (worker.Entered? || worker.Started? ==> !IsResume(worker.snapshot))
    && (worker.Ready? ==> !worker.via.Resumed?)
  }

  /** The row's last queueing, or what follows it: its next claim plans afresh and no retry is left. */
  ghost predicate Spent(s: State, t: TaskId) {
    && t in s.rows && s.rows[t].attempts >= MAX_ATTEMPTS
    && (s.rows[t].status == Queued ==> s.rows[t].plan == None && forall w :: !OnTask(s, w, t))
    && forall w :: OnTask(s, w, t) ==> PlansAfresh(s.workers[w])
  }

  ghost predicate PlanAndMarkerKept(s: State, a: Action, t: TaskId)
    requires Enabled(s, a) && t in s.rows
  {
    var s' := Apply(s, a);
    t in s'.rows && s'.rows[t].plan == s.rows[t].plan && s'.rows[t].marker == s.rows[t].marker
  }

  lemma StatusWritesKeepPlans(s: State, a: Action, t: TaskId)
    requires Enabled(s, a) && (a.Deliver? || a.CancelTask? || a.SweepFails?) && t in s.rows
    ensures PlanAndMarkerKept(s, a, t)
  {
  }

  lemma RequeuesKeepPlans(s: State, a: Action, t: TaskId)
    requires Enabled(s, a) && (a.SlotExpires? || a.Requeue?) && t in s.rows
    ensures PlanAndMarkerKept(s, a, t)
  {
  }

  lemma OthersKeepPlans(s: State, a: Action, t: TaskId)
    requires Enabled(s, a) && (a.Create? || a.OperatorReads? || a.OperatorDecides? || a.RecordExpires?) && t in s.rows
    ensures PlanAndMarkerKept(s, a, t)
  {
  }

  lemma EnvironmentKeepsPlans(s: State, a: Action, t: TaskId)
    requires Enabled(s, a) && Environment(a) && t in s.rows
    ensures PlanAndMarkerKept(s, a, t)
  {
    if a.Deliver? || a.CancelTask? || a.SweepFails? {
      StatusWritesKeepPlans(s, a, t);
    } else if a.SlotExpires? || a.Requeue? {
      RequeuesKeepPlans(s, a, t);
    } else {
      OthersKeepPlans(s, a, t);
    }
  }

  /** A worker step leaves the rows of other tasks alone. */
  lemma OtherRowsKept(s: State, a: Action, t: TaskId)
    requires Enabled(s, a) && !Environment(a) && t in s.rows
    requires if a.Claim? then a.t != t else s.workers[a.w].task != t
    ensures t in Apply(s, a).rows && Apply(s, a).rows[t] == s.rows[t]
  {
  }

  lemma RefuserKeepsRow(s: State, a: Action, t: TaskId)
    requires Enabled(s, a) && !Environment(a) && Refuses(s, t) && (a.Claim? || s.workers[a.w].task == t)
    ensures PlanAndMarkerKept(s, a, t)
  {
    if !a.Claim? {
      assert OnTask(s, a.w, t);
    }
  }

  lemma RefusesKeepsRow(s: State, a: Action, t: TaskId)
    requires Enabled(s, a) && Refuses(s, t)
    ensures PlanAndMarkerKept(s, a, t)
  {
    if Environment(a) {
      EnvironmentKeepsPlans(s, a, t);
    } else if a.Claim? || s.workers[a.w].task == t {
      RefuserKeepsRow(s, a, t);
    } else {
      OtherRowsKept(s, a, t);
    }
  }

  lemma RefusesStep(s: State, a: Action, t: TaskId)
    requires Enabled(s, a) && Refuses(s, t)
    ensures Refuses(Apply(s, a), t)
  {
    var s' := Apply(s, a);
    RefusesKeepsRow(s, a, t);
    forall w | OnTask(s', w, t)
      ensures ClaimedAs(s'.workers[w], s'.rows[t])
    {
      if !ActsAs(a, w) {
        OthersKept(s, a, w);
        assert OnTask(s, w, t);
      } else if !a.Claim? {
        ActorOk(s, a, w, false);
        assert OnTask(s, w, t);
      }
    }
  }

  lemma SpentActor(s: State, a: Action, w: WorkerId, t: TaskId)
    requires Enabled(s, a) && Spent(s, t) && ActsAs(a, w) && OnTask(Apply(s, a), w, t)
    ensures PlansAfresh(Apply(s, a).workers[w])
  {
    if !a.Claim? {
      ActorOk(s, a, w, false);
      assert OnTask(s, w, t);
    }
  }

  /** The row stays spent, and is queued only if it was and nobody has claimed it. */
  ghost predicate SpentRowKept(s: State, a: Action, t: TaskId)
    requires Enabled(s, a) && t in s.rows
  {
    var s' := Apply(s, a);
    && t in s'.rows && s'.rows[t].attempts >= MAX_ATTEMPTS
    && (s'.rows[t].status == Queued ==> s.rows[t].status == Queued && s'.rows[t].plan == None && !(a.Claim? && a.t == t))
  }

  lemma EnvironmentKeepsSpent(s: State, a: Action, t: TaskId)
    requires RecordsOk(s) && Enabled(s, a) && Environment(a) && Spent(s, t) && !TaskCleared(Apply(s, a), t)
    ensures SpentRowKept(s, a, t)
  {
    if a.Deliver? && a.e.approved && a.e.task == t {
      assert Event(a.e.record, t, true) == a.e;
      assert TaskCleared(Apply(s, a), t);
    }
  }

  lemma SpentWorkerKeepsRow(s: State, a: Action, t: TaskId)
    requires Enabled(s, a) && !Environment(a) && Spent(s, t) && (if a.Claim? then a.t == t else s.workers[a.w].task == t)
    ensures SpentRowKept(s, a, t)
  {
    if !a.Claim? {
      assert OnTask(s, a.w, t);
    }
  }

  lemma SpentRow(s: State, a: Action, t: TaskId)
    requires Tracked(s) && Enabled(s, a) && Spent(s, t) && !TaskCleared(Apply(s, a), t)
    ensures SpentRowKept(s, a, t)
  {
    if Environment(a) {
      EnvironmentKeepsSpent(s, a, t);
    } else if if a.Claim? then a.t == t else s.workers[a.w].task == t {
      SpentWorkerKeepsRow(s, a, t);
    } else {
      OtherRowsKept(s, a, t);
    }
  }

  lemma SpentStep(s: State, a: Action, t: TaskId)
    requires Tracked(s) && Enabled(s, a) && Spent(s, t) && !TaskCleared(Apply(s, a), t)
    ensures Spent(Apply(s, a), t)
  {
    var s' := Apply(s, a);
    SpentRow(s, a, t);
    forall w | OnTask(s', w, t)
      ensures PlansAfresh(s'.workers[w])
      ensures a == Claim(w, t) || OnTask(s, w, t)
    {
      if ActsAs(a, w) {
        SpentActor(s, a, w, t);
        if !a.Claim? {
          ActorOk(s, a, w, false);
        }
      } else {
        OthersKept(s, a, w);
        assert OnTask(s, w, t);
      }
    }
  }

  lemma ClearedTaskInv(s: State, t: TaskId)
    requires InvBut(s, Some(t), false) && TaskCleared(s, t)
    ensures Inv(s, false)
  {
    ClearedTaskMayGoLive(s, t);
    forall p
      ensures Cleared(s, t, p, false)
    {
      TaskClearedIsCleared(s, t, p);
    }
  }

  lemma {:induction false} DormantRunIsSafe(s: State, t: TaskId, actions: seq<Action>, s': State)
    requires InvBut(s, Some(t), false) && (Refuses(s, t) || Spent(s, t) || TaskCleared(s, t))
    requires Runs(s, actions, s') && GuardedRun(s, actions)
    ensures AllApproved(s', false)
    decreases |actions|
  {
    if TaskCleared(s, t) {
      ClearedTaskInv(s, t);
      GuardedRunIsSafe(s, actions, s');
    } else if actions == [] {
      InvIsSafe(s, false);
    } else {
      var a := actions[0];
      StatusGuardFences(s, a, Some(t));
      if a.Execute? && s.workers[a.w].task == t {
        assert OnTask(s, a.w, t);
      }
      InvButStep(s, a, Some(t), false);
      if Refuses(s, t) {
        RefusesStep(s, a, t);
      } else if !TaskCleared(Apply(s, a), t) {
        SpentStep(s, a, t);
      }
      DormantRunIsSafe(Apply(s, a), t, actions[1..], s');
    }
  }

  /** The plan the row was parked with is still stored, or can be stored again. */
  predicate ParkResumable(row: Row) {
    row.marker.Some? && Resumable(row, row.marker.value.plan, row.attempts + 1 < MAX_ATTEMPTS)
  }

  lemma DormantRequeue(s: State, t: TaskId)
    requires Inv(s, false) && t in s.rows && s.rows[t].attempts < MAX_ATTEMPTS && s.rows[t].marker.Some?
    requires (forall w :: !OnTask(s, w, t)) && !ParkResumable(s.rows[t])
    ensures SafeFrom(Apply(s, Requeue(t)))
  {
    var s' := Apply(s, Requeue(t));
    forall w
      ensures !OnTask(s', w, t)
    {
      assert !OnTask(s, w, t);
    }
    InvButStep(s, Requeue(t), Some(t), false);
    forall actions, end | Runs(s', actions, end) && GuardedRun(s', actions)
      ensures AllApproved(end, false)
    {
      DormantRunIsSafe(s', t, actions, end);
    }
  }

  /**
   Requeueing a row nobody holds, as the ghost and claim sweepers mean to:
   harmless in every later guarded run exactly when it meets the fence, or the
   plan it was parked with is neither stored any more nor can be stored again.
   */
  lemma AbandonedRequeueExact(s: State, t: TaskId)
    requires Inv(s, false) && t in s.rows && forall w :: !OnTask(s, w, t)
    ensures SafeFrom(Apply(s, Requeue(t))) <==> Fenced(s, Requeue(t), false) || !ParkResumable(s.rows[t])
  {
    if Fenced(s, Requeue(t), false) {
      InvStep(s, Requeue(t), false);
      SafeFromInv(Apply(s, Requeue(t)));
    } else {
      assert forall p, w :: ParkingWith(s, w, t, p) ==> OnTask(s, w, t);
      MayGoLiveIff(s, t);
      if ParkResumable(s.rows[t]) {
        RequeueHazard(s, t);
      } else {
        DormantRequeue(s, t);
      }
    }
  }

  lemma ThrowIsRequeue(s: State, w: WorkerId)
    requires Enabled(s, Throw(w, true))
    ensures var t := s.workers[w].task;
            && Apply(s, Crash(w)) == Gone(s, w)
            && Apply(s, Throw(w, true)) == Apply(Gone(s, w), Requeue(t))
            && (Fenced(s, Throw(w, true), false) <==> Fenced(Gone(s, w), Requeue(t), false))
  {
  }

  /** The same for the retry of a worker that threw a transient error. */
  lemma ThrowExact(s: State, w: WorkerId)
    requires Inv(s, false) && Enabled(s, Throw(w, true)) && PendingResumable(Gone(s, w), s.workers[w].task)
    ensures SafeFrom(Apply(s, Throw(w, true))) <==> Fenced(s, Throw(w, true), false)
  {
    ThrowIsRequeue(s, w);
    InvStep(s, Crash(w), false);
    RequeueExact(Gone(s, w), s.workers[w].task);
  }

  lemma StartedAndRequeued(s: State, w: WorkerId) returns (s': State)
    requires Enabled(s, Start(w)) && s.rows[s.workers[w].task].attempts < MAX_ATTEMPTS
    ensures var t := s.workers[w].task; var row := s.rows[t];
            && Runs(Apply(s, Start(w)), [Throw(w, true)], s') && GuardedRun(Apply(s, Start(w)), [Throw(w, true)])
            && t in s'.rows && s'.rows[t] == row.(status := Queued, attempts := row.attempts + 1)
            && s'.events == s.events && s'.requested == s.requested && s'.workers == s.workers - {w}
  {
    var s1 := Apply(s, Start(w));
    s' := Apply(s1, Throw(w, true));
    GuardedFirst(s1, Throw(w, true), [], s');
    assert [Throw(w, true)] + [] == [Throw(w, true)];
    assert s'.workers == s.workers - {w};
  }

  lemma StartHazard(s: State, w: WorkerId)
    requires Tracked(s) && Enabled(s, Start(w)) && PendingResumable(s, s.workers[w].task)
    requires s.rows[s.workers[w].task].attempts < MAX_ATTEMPTS && !MayGoLive(s, s.workers[w].task, false)
    ensures !SafeFrom(Apply(s, Start(w)))
  {
    var t := s.workers[w].task;
    var p := PickPending(s, t);
    var m := StartedAndRequeued(s, w);
    if v :| ParkingWith(s, v, t, p) {
      assert ParkingWith(m, v, t, p);
    }
    assert !TaskCleared(m, t);
    var rest, s' := QueuedHazard(m, t, p);
    GuardedConcat(Apply(s, Start(w)), [Throw(w, true)], m, rest, s');
  }

  /**
   The 'running' write after a claim, on any row: harmless exactly when the row
   has no attempt left, its task has an approval, or no plan with doors is pending.
   */
  lemma StartExact(s: State, w: WorkerId)
    requires Inv(s, false) && Enabled(s, Start(w)) && PendingResumable(s, s.workers[w].task)
    ensures SafeFrom(Apply(s, Start(w))) <==> Fenced(s, Start(w), false)
  {
    if Fenced(s, Start(w), false) {
      InvStep(s, Start(w), false);
      SafeFromInv(Apply(s, Start(w)));
    } else {
      StartHazard(s, w);
    }
  }

  // ── Runs that break it ────────────────────────────────────────────────────

  function ParkActions(w: WorkerId, r: RecordId, persisted: bool): seq<Action> {
    [Persist(w, persisted), Gate(w, false, false, r)] + [MarkAwaiting(w), WriteApprovalId(w, true), WriteMarker(w, true)]
  }

  lemma TwoSteps(s: State, a: Action, m: State, b: Action, s': State)
    requires Enabled(s, a) && Apply(s, a) == m && Enabled(m, b) && Apply(m, b) == s'
    ensures Runs(s, [a, b], s')
  {
    assert [a, b][1..] == [b];
    assert Runs(m, [b], s');
  }

  lemma ThreeSteps(s: State, a: Action, m: State, b: Action, n: State, c: Action, s': State)
    requires Enabled(s, a) && Apply(s, a) == m && Enabled(m, b) && Apply(m, b) == n && Enabled(n, c) && Apply(n, c) == s'
    ensures Runs(s, [a, b, c], s')
  {
    assert [a, b, c][1..] == [b, c];
    TwoSteps(m, b, n, c, s');
  }

  /** A planned worker of plan `p` with doors asks for approval under record `r`. */
  lemma GateRun(s: State, w: WorkerId, t: TaskId, p: Plan, r: RecordId, persisted: bool) returns (s': State)
    requires At(s, w) && s.workers[w] == Planned(t, p) && p.oneWayDoors != [] && r !in s.requested
    ensures Runs(s, [Persist(w, persisted), Gate(w, false, false, r)], s')
    ensures s' == s.(rows := s.rows[t := s.rows[t].(plan := if persisted then Some(p) else s.rows[t].plan)],
                     workers := s.workers[w := Gated(t, p, r)],
                     requested := s.requested[r := Request(t, p)], store := s.store[r := Pending])
  {
    var s1 := Apply(s, Persist(w, persisted));
    s' := Apply(s1, Gate(w, false, false, r));
    TwoSteps(s, Persist(w, persisted), s1, Gate(w, false, false, r), s');
    assert s'.workers == s.workers[w := Gated(t, p, r)];
    assert s'.rows == s.rows[t := s'.rows[t]];
  }

  lemma ParkWrites(s: State, w: WorkerId, t: TaskId, p: Plan, r: RecordId) returns (s': State)
    requires At(s, w) && s.workers[w] == Gated(t, p, r)
    ensures Runs(s, [MarkAwaiting(w), WriteApprovalId(w, true), WriteMarker(w, true)], s')
    ensures s' == s.(rows := s.rows[t := s.rows[t].(status := AwaitingApproval, marker := Some(Digest(p)), approvalId := Some(r))],
                     workers := s.workers - {w}, parks := s.parks + [Request(t, p)])
  {
    var s1 := Apply(s, MarkAwaiting(w));
    var s2 := Apply(s1, WriteApprovalId(w, true));
    s' := Apply(s2, WriteMarker(w, true));
    ThreeSteps(s, MarkAwaiting(w), s1, WriteApprovalId(w, true), s2, WriteMarker(w, true), s');
    assert s'.workers == s.workers - {w};
    assert s'.rows == s.rows[t := s'.rows[t]];
  }

  lemma ParkRun(s: State, w: WorkerId, t: TaskId, p: Plan, r: RecordId, persisted: bool) returns (s': State)
    requires At(s, w) && s.workers[w] == Planned(t, p) && p.oneWayDoors != [] && r !in s.requested
    ensures Runs(s, ParkActions(w, r, persisted), s')
    ensures s' == s.(rows := s.rows[t := s.rows[t].(status := AwaitingApproval,
                                                    plan := if persisted then Some(p) else s.rows[t].plan,
                                                    marker := Some(Digest(p)), approvalId := Some(r))],
                     workers := s.workers - {w}, store := s.store[r := Pending],
                     requested := s.requested[r := Request(t, p)], parks := s.parks + [Request(t, p)])
  {
    var m := GateRun(s, w, t, p, r, persisted);
    s' := ParkWrites(m, w, t, p, r);
    RunsConcat(s, [Persist(w, persisted), Gate(w, false, false, r)], m,
               [MarkAwaiting(w), WriteApprovalId(w, true), WriteMarker(w, true)], s');
    assert s'.workers == s.workers - {w};
    assert s'.rows == s.rows[t := s'.rows[t]];
  }

  function PlanActions(w: WorkerId, p: Plan): seq<Action> {
    [Create(0), Claim(w, 0)] + [Start(w), MakePlan(w, p)]
  }

  lemma PlanRun(w: WorkerId, p: Plan) returns (s: State)
    ensures Runs(INIT, PlanActions(w, p), s)
    ensures s == INIT.(rows := map[0 := Row(Running, 0, None, None, None)], workers := map[w := Planned(0, Elevated(p))])
  {
    var s1 := Apply(INIT, Create(0));
    var s2 := Apply(s1, Claim(w, 0));
    TwoSteps(INIT, Create(0), s1, Claim(w, 0), s2);
    var s3 := Apply(s2, Start(w));
    s := Apply(s3, MakePlan(w, p));
    TwoSteps(s2, Start(w), s3, MakePlan(w, p), s);
    RunsConcat(INIT, [Create(0), Claim(w, 0)], s2, [Start(w), MakePlan(w, p)], s);
  }

  /**
   A sweeper that read the row while it was running requeues it after it has
   parked. No record is ever decided, yet the gated plan is executed.
   */
  lemma RacedRequeueIsUnsafe(p: Plan) returns (actions: seq<Action>, s: State)
    requires Elevated(p).oneWayDoors != []
    ensures PlanActions(1, p) + ParkActions(1, 0, true) + [Requeue(0)] <= actions
    ensures Runs(INIT, actions, s) && s.events == {} && !AllApproved(s, false)
  {
    var s1 := PlanRun(1, p);
    var s2 := ParkRun(s1, 1, 0, Elevated(p), 0, true);
    RunsConcat(INIT, PlanActions(1, p), s1, ParkActions(1, 0, true), s2);
    RunsThen(INIT, PlanActions(1, p) + ParkActions(1, 0, true), s2, Requeue(0));
    var s3 := Apply(s2, Requeue(0));
    var rest;
    rest, s := ArmedQueueExecutes(s3, 0, Elevated(p));
    actions := PlanActions(1, p) + ParkActions(1, 0, true) + [Requeue(0)] + rest;
    RunsConcat(INIT, PlanActions(1, p) + ParkActions(1, 0, true) + [Requeue(0)], s3, rest, s);
    NobodyDecided(s, p);
  }

  lemma NobodyDecided(s: State, p: Plan)
    requires s.events == {} && |s.executed| == 1 && s.executed[0].task == 0
    requires s.executed[0].plan == Elevated(p) && Elevated(p).oneWayDoors != []
    ensures !AllApproved(s, false)
  {
    var e := s.executed[0];
    assert e in s.executed;
    TaskClearedIsCleared(s, 0, Elevated(p));
  }

  function LostLeaseActions(p: Plan): seq<Action> {
    PlanActions(1, p) + [SlotExpires(0), Claim(2, 0)] + ParkActions(1, 0, true) + [Start(2), Crash(2), SlotExpires(0)]
  }

  /**
   A worker outlives its slot. The task is claimed again, the first worker parks
   it, the second writes 'running' over the park and dies: the third claim
   resumes an unapproved plan.
   */
  lemma LostLeaseIsUnsafe(p: Plan) returns (actions: seq<Action>, s: State)
    requires Elevated(p).oneWayDoors != []
    ensures LostLeaseActions(p) <= actions
    ensures Runs(INIT, actions, s) && s.events == {} && !AllApproved(s, false)
  {
    var s7 := LostLeaseRun(p);
    var rest;
    rest, s := ArmedQueueExecutes(s7, 0, Elevated(p));
    actions := LostLeaseActions(p) + rest;
    RunsConcat(INIT, LostLeaseActions(p), s7, rest, s);
    NobodyDecided(s, p);
  }

  lemma LostLeaseRun(p: Plan) returns (s: State)
    requires Elevated(p).oneWayDoors != []
    ensures Runs(INIT, LostLeaseActions(p), s)
    ensures Armed(s, 0, Elevated(p)) && s.rows[0].status == Queued && s.events == {} && s.executed == []
  {
    var s1 := PlanRun(1, p);
    var s3 := ClaimedAgain(s1, p);
    RunsConcat(INIT, PlanActions(1, p), s1, [SlotExpires(0), Claim(2, 0)], s3);
    var s4 := ParkRun(s3, 1, 0, Elevated(p), 0, true);
    RunsConcat(INIT, PlanActions(1, p) + [SlotExpires(0), Claim(2, 0)], s3, ParkActions(1, 0, true), s4);
    s := OverwriteRun(s4, p);
    RunsConcat(INIT, PlanActions(1, p) + [SlotExpires(0), Claim(2, 0)] + ParkActions(1, 0, true), s4,
               [Start(2), Crash(2), SlotExpires(0)], s);
  }

  lemma ClaimedAgain(s: State, p: Plan) returns (s': State)
    requires s.workers == map[1 := Planned(0, Elevated(p))] && 0 in s.rows && s.rows[0] == Row(Running, 0, None, None, None)
    ensures Runs(s, [SlotExpires(0), Claim(2, 0)], s')
    ensures s'.workers.Keys == {1, 2} && s'.workers[1] == Planned(0, Elevated(p))
    ensures s'.workers[2].Entered? && s'.workers[2].task == 0
    ensures s' == s.(rows := s'.rows, workers := s'.workers)
    ensures 0 in s'.rows && s'.rows[0] == Row(Claimed, 1, None, None, None)
  {
    var m := Apply(s, SlotExpires(0));
    s' := Apply(m, Claim(2, 0));
    TwoSteps(s, SlotExpires(0), m, Claim(2, 0), s');
  }

  lemma OverwriteRun(s: State, p: Plan) returns (s': State)
    requires At(s, 2) && s.workers[2].Entered? && s.workers[2].task == 0
    requires Armed(s, 0, Elevated(p)) && s.rows[0].attempts == 1
    ensures Runs(s, [Start(2), Crash(2), SlotExpires(0)], s')
    ensures Armed(s', 0, Elevated(p)) && s'.rows[0].status == Queued
    ensures s'.events == s.events && s'.executed == s.executed
  {
    var s1 := Apply(s, Start(2));
    var s2 := Apply(s1, Crash(2));
    s' := Apply(s2, SlotExpires(0));
    ThreeSteps(s, Start(2), s1, Crash(2), s2, SlotExpires(0), s');
  }
}
