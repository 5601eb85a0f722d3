/**
 Approval safety of the task lifecycle, over every run whose unconditional
 status writes are fenced.

 `tied` selects the strength: with `tied == false` the approval must be of some
 record requested for the same task; with `tied == true` it must be of a record
 requested for the very plan that is executed.
 */
module ApprovalSafety {
  import opened Wrappers
  import opened OneWayDoors
  import opened TaskLifecycle
  import opened PlanIntegrity

  predicate Live(status: Status) {
    status == Queued || status == Claimed || status == Running
  }

  /** The row is in the queue, or can get there without an operator. */
  predicate Reclaimable(row: Row) {
    row.status == Queued || (Live(row.status) && row.attempts < MAX_ATTEMPTS)
  }

  ghost predicate Cleared(s: State, t: TaskId, p: Plan, tied: bool) {
    exists r :: RecordClears(s, r, t, p, tied)
  }

  /** The plan has no doors, or an operator approved it. */
  ghost predicate Answered(s: State, t: TaskId, p: Plan, tied: bool) {
    p.oneWayDoors == [] || Cleared(s, t, p, tied)
  }

  /** Worker `w` has written 'awaiting_approval' on `t` and not yet its marker. */
  ghost predicate NowParking(s: State, w: WorkerId, t: TaskId) {
    w in s.workers && s.workers[w].Parking? && s.workers[w].task == t
  }

  /** What must hold of row `t` when it becomes claimable: any marker on it, or about to land on it, is answered. */
  ghost predicate MayGoLive(s: State, t: TaskId, tied: bool) {
    && (t in s.rows && s.rows[t].marker.Some? ==> Answered(s, t, s.rows[t].marker.value.plan, tied))
    && (forall w :: NowParking(s, w, t) ==> Answered(s, t, s.workers[w].plan, tied))
  }

  /**
   The condition on the writes that put a row into a live status without
   looking at the one it had. A caller can check it before the write.
   */
  ghost predicate Fenced(s: State, a: Action, tied: bool)
    requires Enabled(s, a)
  {
    match a
    case Start(w) => s.rows[s.workers[w].task].attempts < MAX_ATTEMPTS ==> MayGoLive(s, s.workers[w].task, tied)
    case Requeue(t) => s.rows[t].attempts < MAX_ATTEMPTS ==> MayGoLive(s, t, tied)
    case Throw(w, transient) =>
      var t := s.workers[w].task;
      transient && s.rows[t].attempts < MAX_ATTEMPTS ==> MayGoLive(Gone(s, w), t, tied)
    case WaitApproved(w) => s.rows[s.workers[w].task].attempts < MAX_ATTEMPTS ==> MayGoLive(s, s.workers[w].task, tied)
    case Deliver(e) => e.approved && s.rows[e.task].status == AwaitingApproval ==> MayGoLive(s, e.task, tied)
    case _ => true
  }

  // ── The invariant ─────────────────────────────────────────────────────────

  ghost predicate SnapshotAnswered(s: State, t: TaskId, row: Row, tied: bool) {
    row.marker.Some? ==> Answered(s, t, row.marker.value.plan, tied)
  }

  ghost predicate ViaAnswered(s: State, t: TaskId, p: Plan, via: Via, tied: bool) {
    via.Resumed? ==> Answered(s, t, p, tied)
  }

  ghost predicate WorkerOk(s: State, worker: Worker, tied: bool) {
    match worker
    case Entered(t, snapshot, _) => SnapshotAnswered(s, t, snapshot, tied)
    case Started(t, snapshot, _) => SnapshotAnswered(s, t, snapshot, tied)
    case Ready(t, p, via) => ViaAnswered(s, t, p, via, tied)
    case _ => true
  }

  ghost predicate RowOk(s: State, t: TaskId, tied: bool)
    requires t in s.rows
  {
    Reclaimable(s.rows[t]) ==> MayGoLive(s, t, tied)
  }

  ghost predicate ExecutionOk(s: State, e: Execution, tied: bool) {
    ViaAnswered(s, e.task, e.plan, e.via, tied)
  }

  /** Holds of every task but `x`, and of everything executed so far. */
  ghost predicate InvBut(s: State, x: Option<TaskId>, tied: bool) {
    && Tracked(s)
    && (forall w :: w in s.workers && x != Some(s.workers[w].task) ==> WorkerOk(s, s.workers[w], tied))
    && (forall t :: t in s.rows && x != Some(t) ==> RowOk(s, t, tied))
    && (forall i :: 0 <= i < |s.executed| ==> ExecutionOk(s, s.executed[i], tied))
  }

  ghost predicate Inv(s: State, tied: bool) {
    InvBut(s, None, tied)
  }

  lemma AnsweredExtends(s: State, s': State, t: TaskId, p: Plan, tied: bool)
    requires Extends(s, s') && Answered(s, t, p, tied)
    ensures Answered(s', t, p, tied)
  {
    if Cleared(s, t, p, tied) {
      var r :| RecordClears(s, r, t, p, tied);
      assert RecordClears(s', r, t, p, tied);
    }
  }

  lemma WorkerOkExtends(s: State, s': State, worker: Worker, tied: bool)
    requires Extends(s, s') && WorkerOk(s, worker, tied)
    ensures WorkerOk(s', worker, tied)
  {
    match worker
    case Entered(t, snapshot, _) =>
      if snapshot.marker.Some? {
        AnsweredExtends(s, s', t, snapshot.marker.value.plan, tied);
      }
    case Started(t, snapshot, _) =>
      if snapshot.marker.Some? {
        AnsweredExtends(s, s', t, snapshot.marker.value.plan, tied);
      }
    case Ready(t, p, via) =>
      if via.Resumed? {
        AnsweredExtends(s, s', t, p, tied);
      }
    case _ =>
  }

  lemma MayGoLiveExtends(s: State, s': State, t: TaskId, tied: bool)
    requires Extends(s, s') && MayGoLive(s, t, tied) && t in s.rows
    requires s'.rows[t].marker == s.rows[t].marker || s'.rows[t].marker == None
    requires forall w :: NowParking(s', w, t) ==> NowParking(s, w, t) && s.workers[w].plan == s'.workers[w].plan
    ensures MayGoLive(s', t, tied)
  {
    if s'.rows[t].marker.Some? {
      AnsweredExtends(s, s', t, s.rows[t].marker.value.plan, tied);
    }
    forall w | NowParking(s', w, t)
      ensures Answered(s', t, s'.workers[w].plan, tied)
    {
      AnsweredExtends(s, s', t, s.workers[w].plan, tied);
    }
  }

  // ── Workers ───────────────────────────────────────────────────────────────

  lemma ClaimOk(s: State, a: Action, tied: bool)
    requires Enabled(s, a) && a.Claim? && RowOk(s, a.t, tied)
    ensures WorkerOk(Apply(s, a), Apply(s, a).workers[a.w], tied)
  {
    StepExtends(s, a);
    if s.rows[a.t].marker.Some? {
      AnsweredExtends(s, Apply(s, a), a.t, s.rows[a.t].marker.value.plan, tied);
    }
  }

  /** What the acting worker carries on: its snapshot, or the plan of it that it resumes. */
  lemma ActorOk(s: State, a: Action, w: WorkerId, tied: bool)
    requires Enabled(s, a) && ActsAs(a, w) && !a.Claim? && w in Apply(s, a).workers
    ensures Apply(s, a).workers[w].task == s.workers[w].task
    ensures WorkerOk(s, s.workers[w], tied) ==> WorkerOk(s, Apply(s, a).workers[w], tied)
  {
  }

  lemma WorkersStep(s: State, a: Action, x: Option<TaskId>, tied: bool)
    requires InvBut(s, x, tied) && Enabled(s, a)
    ensures var s' := Apply(s, a);
            forall w :: w in s'.workers && x != Some(s'.workers[w].task) ==> WorkerOk(s', s'.workers[w], tied)
  {
    var s' := Apply(s, a);
    forall w | w in s'.workers && x != Some(s'.workers[w].task)
      ensures WorkerOk(s', s'.workers[w], tied)
    {
      if a.Claim? && a.w == w {
        ClaimOk(s, a, tied);
      } else {
        if ActsAs(a, w) {
          ActorOk(s, a, w, tied);
        } else {
          OthersKept(s, a, w);
        }
        StepExtends(s, a);
        WorkerOkExtends(s, s', s'.workers[w], tied);
      }
    }
  }

  // ── Rows ──────────────────────────────────────────────────────────────────

  /** A worker comes to be parking only by writing 'awaiting_approval'. */
  lemma ParkingKept(s: State, a: Action, w: WorkerId, t: TaskId)
    requires Enabled(s, a) && NowParking(Apply(s, a), w, t)
    requires t in Apply(s, a).rows && Live(Apply(s, a).rows[t].status)
    ensures NowParking(s, w, t) && s.workers[w].plan == Apply(s, a).workers[w].plan
  {
    if !ActsAs(a, w) {
      OthersKept(s, a, w);
    }
  }

  /** The steps that make a row reclaimable whatever status it had. */
  ghost predicate Revives(s: State, a: Action, t: TaskId)
    requires Enabled(s, a)
  {
    match a
    case Start(w) => s.workers[w].task == t && s.rows[t].attempts < MAX_ATTEMPTS
    case WaitApproved(w) => s.workers[w].task == t && s.rows[t].attempts < MAX_ATTEMPTS
    case Throw(w, transient) => transient && s.workers[w].task == t && s.rows[t].attempts < MAX_ATTEMPTS
    case Requeue(t') => t == t' && s.rows[t].attempts < MAX_ATTEMPTS
    case Deliver(e) => e.approved && e.task == t && s.rows[t].status == AwaitingApproval
    case _ => false
  }

  ghost predicate RevivesOrKeeps(s: State, a: Action, t: TaskId)
    requires Enabled(s, a) && t in s.rows
  {
    t in Apply(s, a).rows && (Reclaimable(Apply(s, a).rows[t]) && !Reclaimable(s.rows[t]) ==> Revives(s, a, t))
  }

  lemma EnvironmentRevives(s: State, a: Action, t: TaskId)
    requires Enabled(s, a) && t in s.rows && Environment(a)
    ensures RevivesOrKeeps(s, a, t)
  {
  }

  lemma WorkersRevive(s: State, a: Action, t: TaskId)
    requires Enabled(s, a) && t in s.rows && !Environment(a)
    ensures RevivesOrKeeps(s, a, t)
  {
  }

  /** Five writes, and no other, make a row reclaimable that was not. */
  lemma OnlyFiveRevive(s: State, a: Action, t: TaskId)
    requires Enabled(s, a) && t in s.rows && t in Apply(s, a).rows
    requires Reclaimable(Apply(s, a).rows[t]) && !Reclaimable(s.rows[t])
    ensures Revives(s, a, t)
  {
    if Environment(a) {
      EnvironmentRevives(s, a, t);
    } else {
      WorkersRevive(s, a, t);
    }
  }

  lemma RevivedMayGoLive(s: State, a: Action, t: TaskId, tied: bool)
    requires Enabled(s, a) && Fenced(s, a, tied) && t in s.rows && Revives(s, a, t)
    ensures a.Throw? ==> MayGoLive(Gone(s, a.w), t, tied)
    ensures !a.Throw? ==> MayGoLive(s, t, tied)
  {
  }

  lemma CreateStep(s: State, t: TaskId, tied: bool)
    requires Tracked(s) && Enabled(s, Create(t))
    ensures RowOk(Apply(s, Create(t)), t, tied)
  {
    assert forall w :: w in s.workers ==> WorkerTracked(s, s.workers[w]);
  }

  /** A marker lands on a reclaimable row only from an answered park. */
  lemma WriteMarkerStep(s: State, a: Action, t: TaskId, tied: bool)
    requires Tracked(s) && Enabled(s, a) && a.WriteMarker? && t in s.rows && RowOk(s, t, tied)
    ensures RowOk(Apply(s, a), t, tied)
  {
    var s' := Apply(s, a);
    assert WorkerTracked(s, s.workers[a.w]);
    if Reclaimable(s'.rows[t]) {
      StepExtends(s, a);
      assert NowParking(s, a.w, s.workers[a.w].task);
      if s'.rows[t].marker.Some? {
        AnsweredExtends(s, s', t, s'.rows[t].marker.value.plan, tied);
      }
      forall w | NowParking(s', w, t)
        ensures Answered(s', t, s'.workers[w].plan, tied)
      {
        AnsweredExtends(s, s', t, s.workers[w].plan, tied);
      }
    }
  }

  lemma NoNewParkers(s: State, a: Action, t: TaskId)
    requires Enabled(s, a) && t in Apply(s, a).rows && Live(Apply(s, a).rows[t].status)
    ensures forall w :: NowParking(Apply(s, a), w, t) ==>
              NowParking(s, w, t) && s.workers[w].plan == Apply(s, a).workers[w].plan
  {
    forall w | NowParking(Apply(s, a), w, t)
      ensures NowParking(s, w, t) && s.workers[w].plan == Apply(s, a).workers[w].plan
    {
      ParkingKept(s, a, w, t);
    }
  }

  lemma MayGoLiveKept(s: State, a: Action, t: TaskId, tied: bool)
    requires Enabled(s, a) && t in s.rows && t in Apply(s, a).rows && !a.WriteMarker?
    requires Live(Apply(s, a).rows[t].status) && MayGoLive(s, t, tied)
    ensures MayGoLive(Apply(s, a), t, tied)
  {
    MarkersKept(s, a, t);
    StepExtends(s, a);
    NoNewParkers(s, a, t);
    MayGoLiveExtends(s, Apply(s, a), t, tied);
  }

  /** A row that is reclaimable after a fenced step was so before it, or was fenced. */
  lemma OtherRowStep(s: State, a: Action, t: TaskId, tied: bool)
    requires Enabled(s, a) && t in s.rows && RowOk(s, t, tied) && !a.WriteMarker?
    requires Revives(s, a, t) ==> Fenced(s, a, tied)
    requires t in Apply(s, a).rows && Reclaimable(Apply(s, a).rows[t])
    ensures MayGoLive(Apply(s, a), t, tied)
  {
    if Reclaimable(s.rows[t]) {
      MayGoLiveKept(s, a, t, tied);
    } else {
      OnlyFiveRevive(s, a, t);
      RevivedMayGoLive(s, a, t, tied);
      if a.Throw? {
        ThrowLeaves(s, a.w, a.transient, tied);
      } else {
        MayGoLiveKept(s, a, t, tied);
      }
    }
  }

  lemma ThrowLeaves(s: State, w: WorkerId, transient: bool, tied: bool)
    requires Enabled(s, Throw(w, transient)) && MayGoLive(Gone(s, w), s.workers[w].task, tied)
    ensures MayGoLive(Apply(s, Throw(w, transient)), s.workers[w].task, tied)
  {
    var s' := Apply(s, Throw(w, transient));
    assert Extends(Gone(s, w), s');
    assert s'.workers == Gone(s, w).workers;
    MayGoLiveExtends(Gone(s, w), s', s.workers[w].task, tied);
  }

  lemma RowsStep(s: State, a: Action, t: TaskId, tied: bool)
    requires Tracked(s) && Enabled(s, a) && t in Apply(s, a).rows
    requires t in s.rows ==> RowOk(s, t, tied) && (Revives(s, a, t) ==> Fenced(s, a, tied))
    ensures RowOk(Apply(s, a), t, tied)
  {
    if t !in s.rows {
      NewRowIsCreated(s, a, t);
      CreateStep(s, t, tied);
    } else if a.WriteMarker? {
      WriteMarkerStep(s, a, t, tied);
    } else if Reclaimable(Apply(s, a).rows[t]) {
      OtherRowStep(s, a, t, tied);
    }
  }

  // ── Executions ────────────────────────────────────────────────────────────

  lemma ExecutedStep(s: State, a: Action, x: Option<TaskId>, tied: bool)
    requires InvBut(s, x, tied) && Enabled(s, a) && (a.Execute? ==> WorkerOk(s, s.workers[a.w], tied))
    ensures forall i :: 0 <= i < |Apply(s, a).executed| ==> ExecutionOk(Apply(s, a), Apply(s, a).executed[i], tied)
  {
    var s' := Apply(s, a);
    ExecutesReady(s, a);
    StepExtends(s, a);
    forall i | 0 <= i < |s'.executed|
      ensures ExecutionOk(s', s'.executed[i], tied)
    {
      var e := s'.executed[i];
      if i < |s.executed| {
        assert ExecutionOk(s, s.executed[i], tied);
      }
      if e.via.Resumed? {
        AnsweredExtends(s, s', e.task, e.plan, tied);
      }
    }
  }

  lemma InvButStep(s: State, a: Action, x: Option<TaskId>, tied: bool)
    requires InvBut(s, x, tied) && Enabled(s, a) && (a.Execute? ==> WorkerOk(s, s.workers[a.w], tied))
    requires Fenced(s, a, tied) || (x.Some? && x.value in s.rows && Revives(s, a, x.value))
    ensures InvBut(Apply(s, a), x, tied)
  {
    TrackedStep(s, a);
    WorkersStep(s, a, x, tied);
    ExecutedStep(s, a, x, tied);
    forall t | t in Apply(s, a).rows && x != Some(t)
      ensures RowOk(Apply(s, a), t, tied)
    {
      RowsStep(s, a, t, tied);
    }
  }

  lemma InvStep(s: State, a: Action, tied: bool)
    requires Inv(s, tied) && Enabled(s, a) && Fenced(s, a, tied)
    ensures Inv(Apply(s, a), tied)
  {
    InvButStep(s, a, None, tied);
  }

  // ── Over every fenced run ─────────────────────────────────────────────────

  ghost predicate FencedRun(s: State, actions: seq<Action>, tied: bool)
    decreases |actions|
  {
    actions == [] ||
    (Enabled(s, actions[0]) && Fenced(s, actions[0], tied) && FencedRun(Apply(s, actions[0]), actions[1..], tied))
  }

  lemma {:induction false} InvRun(s: State, actions: seq<Action>, s': State, tied: bool)
    requires Inv(s, tied) && Runs(s, actions, s') && FencedRun(s, actions, tied)
    ensures Inv(s', tied)
    decreases |actions|
  {
    if actions != [] {
      InvStep(s, actions[0], tied);
      InvRun(Apply(s, actions[0]), actions[1..], s', tied);
    }
  }

  ghost predicate AllApproved(s: State, tied: bool) {
    forall e :: e in s.executed && e.plan.oneWayDoors != [] ==> Cleared(s, e.task, e.plan, tied)
  }

  lemma InvIsSafe(s: State, tied: bool)
    requires exists x :: InvBut(s, x, tied)
    ensures AllApproved(s, tied)
  {
    forall e | e in s.executed && e.plan.oneWayDoors != []
      ensures Cleared(s, e.task, e.plan, tied)
    {
      assert ExecutionOk(s, e, tied) && ExecutionTracked(s, e);
      if e.via.ApprovedBy? {
        assert RecordClears(s, e.via.record, e.task, e.plan, tied);
      }
    }
  }

  /**
   Approval safety, for every interleaving whose unconditional writes are
   fenced: no plan with one-way doors reaches `executeTask` unless an operator
   approved a record requested for that task (for that plan, when tied).
   */
  lemma ApprovalSafety(actions: seq<Action>, s: State, tied: bool)
    requires Runs(INIT, actions, s) && FencedRun(INIT, actions, tied)
    ensures AllApproved(s, tied)
  {
    InvRun(INIT, actions, s, tied);
    InvIsSafe(s, tied);
  }
}
