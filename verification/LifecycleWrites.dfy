/**
 What the steps of the lifecycle write, seen from what is written: which steps
 put a row into a status, which columns they touch, how a worker passes the
 gate, and when it leaves.
 */
module LifecycleWrites {
  import opened Wrappers
  import opened OneWayDoors
  import opened TaskLifecycle
  import opened PlanIntegrity

  /** The step is taken by worker `w`, who holds task `t`. */
  predicate By(s: State, w: WorkerId, t: TaskId) {
    w in s.workers && s.workers[w].task == t
  }

  // ── The gate ──────────────────────────────────────────────────────────────

  /**
   A plan passes the gate unasked exactly when it has no doors and the policy is
   off or a standing approval answers; otherwise a new record asks for it.
   */
  lemma GateExact(s: State, w: WorkerId, policy: bool, standing: bool, r: RecordId)
    requires Enabled(s, Gate(w, policy, standing, r))
    ensures var t, p, s' := s.workers[w].task, s.workers[w].plan, Apply(s, Gate(w, policy, standing, r));
            && s' == s.(workers := s'.workers, requested := s'.requested, store := s'.store)
            && s'.workers.Keys == s.workers.Keys
            && (p.oneWayDoors == [] && (!policy || standing) <==> s'.workers[w] == Ready(t, p, Ungated(policy, standing)))
            && (if p.oneWayDoors == [] && (!policy || standing) then s'.requested == s.requested && s'.store == s.store
                else && s'.workers[w] == Gated(t, p, r)
                     && s'.requested == s.requested[r := Request(t, p)] && s'.store == s.store[r := Pending])
  {
    assert s.workers[w].Persisted?;
  }

  // ── Statuses ──────────────────────────────────────────────────────────────

  /** A retry is asked for: by a sweeper, or by a worker whose error is transient. */
  predicate Retries(s: State, a: Action, t: TaskId) {
    a == Requeue(t) || (a.Throw? && a.transient && By(s, a.w, t))
  }

  /** A negative answer reaches the row: delivered, polled, or given up waiting for. */
  predicate Refused(s: State, a: Action, t: TaskId) {
    (a.Deliver? && !a.e.approved && a.e.task == t) || ((a.WaitRejected? || a.WaitTimeout?) && By(s, a.w, t))
  }

  /** A resume whose row was parked with another plan than the one stored. */
  predicate Mismatched(s: State, a: Action, t: TaskId)
    requires Enabled(s, a)
  {
    && a.Resume? && By(s, a.w, t)
    && s.workers[a.w].snapshot.plan.value != s.workers[a.w].snapshot.marker.value.plan
  }

  /** The steps that take row `t`, which has another status, to `status`. */
  predicate Takes(s: State, a: Action, t: TaskId, status: Status)
    requires Enabled(s, a) && t in s.rows
  {
    var was := s.rows[t];
    match status
    case Queued =>
      || (Retries(s, a, t) && was.attempts <= 2)
      || (a == SlotExpires(t) && was.attempts <= 1)
      || (a.Deliver? && a.e.approved && a.e.task == t && was.status == AwaitingApproval)
    case Claimed => a.Claim? && a.t == t
    case Running => (a.Start? || a.WaitApproved?) && By(s, a.w, t)
    case AwaitingApproval => a.MarkAwaiting? && By(s, a.w, t)
    case Complete => a.Finish? && By(s, a.w, t)
    case Blocked => (a.Clarify? && By(s, a.w, t)) || (a == SlotExpires(t) && was.attempts >= 2)
    case Cancelled => a == CancelTask(t)
    case Failed =>
      || a == SweepFails(t)
      || (a.Throw? && !a.transient && By(s, a.w, t))
      || (Retries(s, a, t) && was.attempts >= 3)
      || (Refused(s, a, t) && was.status == AwaitingApproval)
      || Mismatched(s, a, t)
  }

  /** `status`, which row `t` does not have, is what the step gives it exactly if it is meant to. */
  ghost predicate TakenRight(s: State, a: Action, t: TaskId, status: Status)
    requires Enabled(s, a) && t in s.rows
  {
    t in Apply(s, a).rows && (Apply(s, a).rows[t].status == status <==> Takes(s, a, t, status))
  }

  lemma RequeuesTake(s: State, a: Action, t: TaskId, status: Status)
    requires Enabled(s, a) && t in s.rows && status != s.rows[t].status && (a.Requeue? || a.SlotExpires?)
    ensures TakenRight(s, a, t, status)
  {
  }

  lemma SweepsTake(s: State, a: Action, t: TaskId, status: Status)
    requires Enabled(s, a) && t in s.rows && status != s.rows[t].status && (a.Deliver? || a.CancelTask? || a.SweepFails?)
    ensures TakenRight(s, a, t, status)
  {
  }

  lemma OperatorsTakeNothing(s: State, a: Action, t: TaskId, status: Status)
    requires Enabled(s, a) && t in s.rows && status != s.rows[t].status
    requires a.Create? || a.OperatorReads? || a.OperatorDecides? || a.RecordExpires?
    ensures TakenRight(s, a, t, status)
  {
  }

  predicate KeepsStatus(a: Action) {
    a.MakePlan? || a.Persist? || a.Gate? || a.WriteApprovalId? || a.WriteMarker? || a.Execute? || a.Crash?
  }

  lemma QuietStepsTakeNothing(s: State, a: Action, t: TaskId, status: Status)
    requires Enabled(s, a) && t in s.rows && status != s.rows[t].status && KeepsStatus(a)
    ensures TakenRight(s, a, t, status)
  {
  }

  lemma StartsTake(s: State, a: Action, t: TaskId, status: Status)
    requires Enabled(s, a) && t in s.rows && status != s.rows[t].status
    requires a.Claim? || a.Start? || a.Clarify? || a.MarkAwaiting? || a.WaitApproved? || a.Finish?
    ensures TakenRight(s, a, t, status)
  {
  }

  lemma FailuresTake(s: State, a: Action, t: TaskId, status: Status)
    requires Enabled(s, a) && t in s.rows && status != s.rows[t].status
    requires a.Resume? || a.WaitRejected? || a.WaitTimeout? || a.Throw?
    ensures TakenRight(s, a, t, status)
  {
  }

  /** For every status but the one a row has, exactly these steps take the row to it. */
  lemma StatusExact(s: State, a: Action, t: TaskId, status: Status)
    requires Enabled(s, a) && t in s.rows && status != s.rows[t].status
    ensures t in Apply(s, a).rows && (Apply(s, a).rows[t].status == status <==> Takes(s, a, t, status))
  {
    if a.Requeue? || a.SlotExpires? {
      RequeuesTake(s, a, t, status);
    } else if a.Deliver? || a.CancelTask? || a.SweepFails? {
      SweepsTake(s, a, t, status);
    } else if Environment(a) {
      OperatorsTakeNothing(s, a, t, status);
    } else if KeepsStatus(a) {
      QuietStepsTakeNothing(s, a, t, status);
    } else if a.Resume? || a.WaitRejected? || a.WaitTimeout? || a.Throw? {
      FailuresTake(s, a, t, status);
    } else {
      StartsTake(s, a, t, status);
    }
  }

  /** Every task but a finished one can be cancelled. */
  lemma CancelExact(s: State, t: TaskId)
    requires t in s.rows
    ensures Enabled(s, CancelTask(t))
      <==> s.rows[t].status != Complete && s.rows[t].status != Failed && s.rows[t].status != Cancelled
  {
  }

  // ── Columns ───────────────────────────────────────────────────────────────

  function AttemptsAfter(s: State, a: Action, t: TaskId): nat
    requires t in s.rows
  {
    s.rows[t].attempts + if a == SlotExpires(t) || (Retries(s, a, t) && s.rows[t].attempts <= 2) then 1 else 0
  }

  /** What the steps write beside the status: attempts, the stored plan, the marker, the approval id. */
  ghost predicate ColumnsWritten(s: State, a: Action, t: TaskId)
    requires Enabled(s, a) && t in s.rows
  {
    var s', was := Apply(s, a), s.rows[t];
    && t in s'.rows && s'.rows[t].attempts == AttemptsAfter(s, a, t)
    && s'.rows[t].plan == (if a.Persist? && a.ok && By(s, a.w, t) then Some(s.workers[a.w].plan) else was.plan)
    && s'.rows[t].marker == (if a.WriteMarker? && a.ok && By(s, a.w, t) then Some(Digest(s.workers[a.w].plan))
                             else if a.Resume? && a.clearOk && By(s, a.w, t) && !Mismatched(s, a, t) then None else was.marker)
    && s'.rows[t].approvalId == (if a.WriteApprovalId? && a.ok && By(s, a.w, t) then Some(s.workers[a.w].record) else was.approvalId)
  }

  lemma EnvironmentWrites(s: State, a: Action, t: TaskId)
    requires Enabled(s, a) && t in s.rows && Environment(a)
    ensures ColumnsWritten(s, a, t)
  {
  }

  lemma StatusStepsWrite(s: State, a: Action, t: TaskId)
    requires Enabled(s, a) && t in s.rows && !Environment(a)
    requires !a.Resume? && !a.Persist? && !a.WriteApprovalId? && !a.WriteMarker?
    ensures ColumnsWritten(s, a, t)
  {
  }

  lemma ColumnsExact(s: State, a: Action, t: TaskId)
    requires Enabled(s, a) && t in s.rows
    ensures ColumnsWritten(s, a, t)
  {
    if Environment(a) {
      EnvironmentWrites(s, a, t);
    } else if !a.Resume? && !a.Persist? && !a.WriteApprovalId? && !a.WriteMarker? {
      StatusStepsWrite(s, a, t);
    }
  }

  /** Rows come from task creation, queued and empty; nothing removes one. */
  lemma RowsExact(s: State, a: Action)
    requires Enabled(s, a)
    ensures Apply(s, a).rows.Keys == s.rows.Keys + if a.Create? then {a.t} else {}
    ensures a.Create? ==> a.t !in s.rows && Apply(s, a).rows == s.rows[a.t := Row(Queued, 0, None, None, None)]
  {
  }

  // ── Workers ───────────────────────────────────────────────────────────────

  /** Where a worker can be next; its task stays. */
  predicate Follows(was: Worker, now: Worker) {
    && was.task == now.task
    && match now
       case Entered(_, _, _) => false
       case Started(_, snapshot, seen) => was == Entered(was.task, snapshot, seen)
       case Planned(_, _) => was.Started? && (was.snapshot.marker.None? || was.snapshot.plan.None?)
       case Persisted(_, p) => was == Planned(was.task, p)
       case Gated(_, p, _) => was == Persisted(was.task, p)
       case Parking(_, p, r, idTried) => was == if idTried then Parking(was.task, p, r, false) else Gated(was.task, p, r)
       case Waiting(_, p, r) => was == Parking(was.task, p, r, true)
       case Ready(_, p, Ungated(_, _)) => was == Persisted(was.task, p)
       case Ready(_, p, ApprovedBy(r)) => was == Waiting(was.task, p, r)
       case Ready(_, p, Resumed(seen)) =>
         was.Started? && was.parksSeen == seen && was.snapshot.plan == Some(p) && was.snapshot.marker == Some(Digest(p))
       case Executing(_, p) => was.Ready? && was.plan == p
  }

  /** The steps after which their worker is gone. */
  predicate Leaves(s: State, a: Action, w: WorkerId)
    requires Enabled(s, a) && w in s.workers
  {
    || a == Clarify(w) || a == WaitRejected(w) || a == WaitTimeout(w) || a == Finish(w) || a == Crash(w)
    || a == Throw(w, true) || a == Throw(w, false) || a == WriteMarker(w, true)
    || (a.Resume? && a.w == w && Mismatched(s, a, s.workers[w].task))
  }

  lemma OnlyWorkersLeave(s: State, a: Action, w: WorkerId)
    requires Enabled(s, a) && w in s.workers && Environment(a)
    ensures w in Apply(s, a).workers && !Leaves(s, a, w)
  {
  }

  lemma StayingStep(s: State, a: Action, w: WorkerId)
    requires Enabled(s, a) && w in s.workers
    requires a.Claim? || a.Start? || a.MakePlan? || KeepsStatus(a) || a.MarkAwaiting? || a.WaitApproved?
    ensures w !in Apply(s, a).workers <==> Leaves(s, a, w)
  {
  }

  lemma LeavingStep(s: State, a: Action, w: WorkerId)
    requires Enabled(s, a) && w in s.workers
    requires a.Resume? || a.Clarify? || a.WaitRejected? || a.WaitTimeout? || a.Finish? || a.Throw?
    ensures w !in Apply(s, a).workers <==> Leaves(s, a, w)
  {
  }

  lemma PlanningFollows(s: State, a: Action, w: WorkerId)
    requires Enabled(s, a) && w in s.workers && w in Apply(s, a).workers && ActsAs(a, w)
    requires a.Claim? || a.Start? || a.Resume? || a.MakePlan? || a.Persist?
    ensures Follows(s.workers[w], Apply(s, a).workers[w])
  {
  }

  lemma GatingFollows(s: State, a: Action, w: WorkerId)
    requires Enabled(s, a) && w in s.workers && w in Apply(s, a).workers && ActsAs(a, w)
    requires !a.Claim? && !a.Start? && !a.Resume? && !a.MakePlan? && !a.Persist?
    ensures Follows(s.workers[w], Apply(s, a).workers[w])
  {
  }

  /** A worker leaves, goes one step on, or is left alone. */
  lemma WorkerExact(s: State, a: Action, w: WorkerId)
    requires Enabled(s, a) && w in s.workers
    ensures w !in Apply(s, a).workers <==> Leaves(s, a, w)
    ensures w in Apply(s, a).workers ==>
              if ActsAs(a, w) then Follows(s.workers[w], Apply(s, a).workers[w]) else Apply(s, a).workers[w] == s.workers[w]
  {
    if Environment(a) {
      OnlyWorkersLeave(s, a, w);
    } else if a.Resume? || a.Clarify? || a.WaitRejected? || a.WaitTimeout? || a.Finish? || a.Throw? {
      LeavingStep(s, a, w);
    } else {
      StayingStep(s, a, w);
    }
    if w in Apply(s, a).workers {
      if !ActsAs(a, w) {
        OthersKept(s, a, w);
      } else if a.Claim? || a.Start? || a.Resume? || a.MakePlan? || a.Persist? {
        PlanningFollows(s, a, w);
      } else {
        GatingFollows(s, a, w);
      }
    }
  }

  lemma ClaimExact(s: State, a: Action, w: WorkerId)
    requires Enabled(s, a) && w !in s.workers
    ensures w in Apply(s, a).workers <==> a.Claim? && a.w == w
    ensures a.Claim? && a.w == w ==>
              && a.t in s.rows && s.rows[a.t].status == Queued
              && Apply(s, a).workers[w] == Entered(a.t, s.rows[a.t].(status := Claimed), |s.parks|)
  {
  }

  /** A worker with a row has a next step of its own, from the claim to the gate. */
  lemma PlanningNeverStuck(s: State, w: WorkerId, r: RecordId, p: Plan)
    requires w in s.workers && s.workers[w].task in s.rows && r !in s.requested
    ensures s.workers[w].Entered? ==> Enabled(s, Start(w))
    ensures s.workers[w].Started? ==>
              if s.workers[w].snapshot.marker.Some? && s.workers[w].snapshot.plan.Some? then Enabled(s, Resume(w, true))
              else Enabled(s, MakePlan(w, p)) && Enabled(s, Clarify(w))
    ensures s.workers[w].Planned? ==> Enabled(s, Persist(w, true))
    ensures s.workers[w].Persisted? ==> Enabled(s, Gate(w, true, false, r))
  {
  }

  /** And from the gate on; a wait can end by its decision, or by its deadline. */
  lemma WaitingNeverStuck(s: State, w: WorkerId)
    requires w in s.workers && s.workers[w].task in s.rows
    ensures s.workers[w].Gated? ==> Enabled(s, MarkAwaiting(w))
    ensures s.workers[w].Parking? ==>
              if s.workers[w].idTried then Enabled(s, WriteMarker(w, true)) else Enabled(s, WriteApprovalId(w, true))
    ensures s.workers[w].Waiting? ==>
              var r := s.workers[w].record;
              && Enabled(s, WaitTimeout(w))
              && (Enabled(s, WaitApproved(w)) <==> r in s.store && s.store[r] == Decided(true))
              && (Enabled(s, WaitRejected(w)) <==> r in s.store && s.store[r] == Decided(false))
    ensures s.workers[w].Ready? ==> Enabled(s, Execute(w))
    ensures s.workers[w].Executing? ==> Enabled(s, Finish(w))
  {
  }

  // ── Records ───────────────────────────────────────────────────────────────

  /** A record is decided only after some operator has read it as pending; deciding publishes one event, also a second time. */
  lemma RecordsExact(s: State, a: Action, r: RecordId)
    requires Enabled(s, a) && !a.Gate?
    ensures var s' := Apply(s, a);
            && s'.requested == s.requested
            && (r in s'.store <==> (r in s.store && a != RecordExpires(r)) || (a.OperatorDecides? && a.r == r))
            && (r in s'.store ==> s'.store[r] == if a.OperatorDecides? && a.r == r then Decided(a.approved) else s.store[r])
            && (r in s'.pendingReads <==> r in s.pendingReads || (a == OperatorReads(r) && r in s.store && s.store[r] == Pending))
            && s'.events == (if a.OperatorDecides? then s.events + {Event(a.r, s.requested[a.r].task, a.approved)} else s.events)
    ensures a.OperatorDecides? && a.r == r ==> r in s.pendingReads
  {
  }
}
