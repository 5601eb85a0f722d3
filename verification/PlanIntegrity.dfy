/**
 What the task lifecycle keeps on every run, raced or not: which plan is
 resumed, which record a polled approval answers, and that a plan using an
 outbound tool names it in a door.
 */
module PlanIntegrity {
  import opened Wrappers
  import opened OneWayDoors
  import opened TaskLifecycle

  function LastPark(parks: seq<Request>, t: TaskId): Option<Plan> {
    if parks == [] then None
    else if parks[|parks| - 1].task == t then Some(parks[|parks| - 1].plan)
    else LastPark(parks[..|parks| - 1], t)
  }

  /** An operator approved a record that was requested for task `t` (and plan `p`). */
  ghost predicate RecordClears(s: State, r: RecordId, t: TaskId, p: Plan, tied: bool) {
    && r in s.requested
    && s.requested[r].task == t
    && (tied ==> s.requested[r].plan == p)
    && Event(r, t, true) in s.events
  }

  // ── The invariant ─────────────────────────────────────────────────────────

  ghost predicate RecordsOk(s: State) {
    && (forall r :: r in s.store ==> r in s.requested)
    && (forall r :: r in s.store && s.store[r] == Decided(true) ==> Event(r, s.requested[r].task, true) in s.events)
    && (forall e :: e in s.events ==> e.record in s.requested && s.requested[e.record].task == e.task)
  }

  /** The plan task `t` was parked with most recently, when `n` parks had been made. */
  ghost predicate ParkedWith(s: State, t: TaskId, p: Plan, n: nat) {
    n <= |s.parks| && LastPark(s.parks[..n], t) == Some(p)
  }

  ghost predicate SnapshotTracked(s: State, t: TaskId, row: Row, seen: nat) {
    && seen <= |s.parks|
    && (row.marker.Some? ==> Covered(row.marker.value.plan) && ParkedWith(s, t, row.marker.value.plan, seen))
  }

  ghost predicate AsksFor(s: State, r: RecordId, t: TaskId, p: Plan) {
    r in s.requested && s.requested[r] == Request(t, p)
  }

  /** How a plan that is executed, or about to be, got past the gate. */
  ghost predicate ViaTracked(s: State, t: TaskId, p: Plan, via: Via) {
    && Covered(p)
    && match via
       case Ungated(policy, standing) => p.oneWayDoors == [] && (policy ==> standing)
       case ApprovedBy(r) => RecordClears(s, r, t, p, true)
       case Resumed(n) => ParkedWith(s, t, p, n)
  }

  ghost predicate WorkerTracked(s: State, worker: Worker) {
    && worker.task in s.rows
    && match worker
       case Entered(t, snapshot, seen) => SnapshotTracked(s, t, snapshot, seen)
       case Started(t, snapshot, seen) => SnapshotTracked(s, t, snapshot, seen)
       case Planned(_, p) => Covered(p)
       case Persisted(_, p) => Covered(p)
       case Gated(t, p, r) => Covered(p) && AsksFor(s, r, t, p)
       case Parking(t, p, r, _) => Covered(p) && AsksFor(s, r, t, p)
       case Waiting(t, p, r) => Covered(p) && AsksFor(s, r, t, p)
       case Ready(t, p, via) => ViaTracked(s, t, p, via)
       case Executing(_, _) => true
  }

  ghost predicate RowTracked(s: State, t: TaskId)
    requires t in s.rows
  {
    s.rows[t].marker.Some? ==>
      Covered(s.rows[t].marker.value.plan) && LastPark(s.parks, t) == Some(s.rows[t].marker.value.plan)
  }

  ghost predicate ExecutionTracked(s: State, e: Execution) {
    ViaTracked(s, e.task, e.plan, e.via)
  }

  ghost predicate Tracked(s: State) {
    && RecordsOk(s)
    && (forall w :: w in s.workers ==> WorkerTracked(s, s.workers[w]))
    && (forall t :: t in s.rows ==> RowTracked(s, t))
    && (forall i :: 0 <= i < |s.executed| ==> ExecutionTracked(s, s.executed[i]))
  }

  // ── History only grows ────────────────────────────────────────────────────

  ghost predicate Extends(s: State, s': State) {
    && s.rows.Keys <= s'.rows.Keys
    && s.events <= s'.events
    && s.parks <= s'.parks
    && (forall r :: r in s.requested ==> r in s'.requested && s'.requested[r] == s.requested[r])
  }

  lemma StepExtends(s: State, a: Action)
    requires Enabled(s, a)
    ensures Extends(s, Apply(s, a))
  {
  }

  lemma ParkedWithExtends(s: State, s': State, t: TaskId, p: Plan, n: nat)
    requires Extends(s, s') && ParkedWith(s, t, p, n)
    ensures ParkedWith(s', t, p, n)
  {
    assert s'.parks[..n] == s.parks[..n];
  }

  lemma ViaTrackedExtends(s: State, s': State, t: TaskId, p: Plan, via: Via)
    requires Extends(s, s') && ViaTracked(s, t, p, via)
    ensures ViaTracked(s', t, p, via)
  {
    if via.Resumed? {
      ParkedWithExtends(s, s', t, p, via.claimTime);
    }
  }

  lemma SnapshotTrackedExtends(s: State, s': State, t: TaskId, row: Row, seen: nat)
    requires Extends(s, s') && SnapshotTracked(s, t, row, seen)
    ensures SnapshotTracked(s', t, row, seen)
  {
    if row.marker.Some? {
      ParkedWithExtends(s, s', t, row.marker.value.plan, seen);
    }
  }

  lemma WorkerTrackedExtends(s: State, s': State, worker: Worker)
    requires Extends(s, s') && WorkerTracked(s, worker)
    ensures WorkerTracked(s', worker)
  {
    match worker
    case Entered(t, snapshot, seen) => SnapshotTrackedExtends(s, s', t, snapshot, seen);
    case Started(t, snapshot, seen) => SnapshotTrackedExtends(s, s', t, snapshot, seen);
    case Ready(t, p, via) => ViaTrackedExtends(s, s', t, p, via);
    case _ =>
  }

  // ── Every step keeps each part ────────────────────────────────────────────

  lemma StoredWereRequested(s: State, a: Action)
    requires RecordsOk(s) && Enabled(s, a)
    ensures var s' := Apply(s, a);
            && (forall r :: r in s'.store ==> r in s'.requested)
            && (forall r :: r in s'.store && s'.store[r] == Decided(true) ==> Event(r, s'.requested[r].task, true) in s'.events)
  {
  }

  lemma EventsAreOfRequests(s: State, a: Action)
    requires RecordsOk(s) && Enabled(s, a)
    ensures forall e :: e in Apply(s, a).events ==>
              e.record in Apply(s, a).requested && Apply(s, a).requested[e.record].task == e.task
  {
  }

  /** The worker that takes the step, if the step is a worker's. */
  predicate ActsAs(a: Action, w: WorkerId) {
    match a
    case Claim(v, _) => v == w
    case Start(v) => v == w
    case Resume(v, _) => v == w
    case MakePlan(v, _) => v == w
    case Persist(v, _) => v == w
    case Gate(v, _, _, _) => v == w
    case MarkAwaiting(v) => v == w
    case WriteApprovalId(v, _) => v == w
    case WriteMarker(v, _) => v == w
    case WaitApproved(v) => v == w
    case Execute(v) => v == w
    case _ => false
  }

  /** Nobody else's state changes, though a worker may vanish. */
  lemma OthersKept(s: State, a: Action, w: WorkerId)
    requires Enabled(s, a) && w in Apply(s, a).workers && !ActsAs(a, w)
    ensures w in s.workers && Apply(s, a).workers[w] == s.workers[w]
  {
  }

  lemma ClaimTracked(s: State, a: Action)
    requires Tracked(s) && Enabled(s, a) && (a.Claim?) && a.w in Apply(s, a).workers
    ensures WorkerTracked(Apply(s, a), Apply(s, a).workers[a.w])
  {
    assert RowTracked(s, a.t);
    assert s.parks[..|s.parks|] == s.parks;
  }

  lemma PlanningTracked(s: State, a: Action)
    requires Tracked(s) && Enabled(s, a) && (a.Start? || a.Resume?) && a.w in Apply(s, a).workers
    ensures WorkerTracked(Apply(s, a), Apply(s, a).workers[a.w])
  {
    assert WorkerTracked(s, s.workers[a.w]);
  }

  lemma PlanTracked(s: State, a: Action)
    requires Tracked(s) && Enabled(s, a) && (a.MakePlan? || a.Persist?) && a.w in Apply(s, a).workers
    ensures WorkerTracked(Apply(s, a), Apply(s, a).workers[a.w])
  {
    assert WorkerTracked(s, s.workers[a.w]);
    if a.MakePlan? {
      ElevationCovers(a.p);
    }
  }

  lemma GateTracked(s: State, a: Action)
    requires Tracked(s) && Enabled(s, a) && (a.Gate? || a.MarkAwaiting?) && a.w in Apply(s, a).workers
    ensures WorkerTracked(Apply(s, a), Apply(s, a).workers[a.w])
  {
    assert WorkerTracked(s, s.workers[a.w]);
  }

  lemma ParkTracked(s: State, a: Action)
    requires Tracked(s) && Enabled(s, a) && (a.WriteApprovalId? || a.WriteMarker?) && a.w in Apply(s, a).workers
    ensures WorkerTracked(Apply(s, a), Apply(s, a).workers[a.w])
  {
    assert WorkerTracked(s, s.workers[a.w]);
  }

  lemma WaitTracked(s: State, a: Action)
    requires Tracked(s) && Enabled(s, a) && (a.WaitApproved? || a.Execute?) && a.w in Apply(s, a).workers
    ensures WorkerTracked(Apply(s, a), Apply(s, a).workers[a.w])
  {
    assert WorkerTracked(s, s.workers[a.w]);
  }

  lemma ActorTracked(s: State, a: Action, w: WorkerId)
    requires Tracked(s) && Enabled(s, a) && ActsAs(a, w) && w in Apply(s, a).workers
    ensures WorkerTracked(Apply(s, a), Apply(s, a).workers[w])
  {
    if a.Claim? {
      ClaimTracked(s, a);
    } else if a.Start? || a.Resume? {
      PlanningTracked(s, a);
    } else if a.MakePlan? || a.Persist? {
      PlanTracked(s, a);
    } else if a.Gate? || a.MarkAwaiting? {
      GateTracked(s, a);
    } else if a.WriteApprovalId? || a.WriteMarker? {
      ParkTracked(s, a);
    } else {
      WaitTracked(s, a);
    }
  }

  lemma WorkersTracked(s: State, a: Action)
    requires Tracked(s) && Enabled(s, a)
    ensures forall w :: w in Apply(s, a).workers ==> WorkerTracked(Apply(s, a), Apply(s, a).workers[w])
  {
    var s' := Apply(s, a);
    forall w | w in s'.workers
      ensures WorkerTracked(s', s'.workers[w])
    {
      if ActsAs(a, w) {
        ActorTracked(s, a, w);
      } else {
        OthersKept(s, a, w);
        StepExtends(s, a);
        WorkerTrackedExtends(s, s', s.workers[w]);
      }
    }
  }

  /** Steps of operators, listener, sweepers and other code, not of a worker. */
  predicate Environment(a: Action) {
    || a.Create? || a.OperatorReads? || a.OperatorDecides? || a.RecordExpires? || a.Deliver?
    || a.CancelTask? || a.SlotExpires? || a.Requeue? || a.SweepFails?
  }

  ghost predicate MarkerKept(s: State, a: Action, t: TaskId)
    requires Enabled(s, a) && t in Apply(s, a).rows
  {
    && Apply(s, a).parks == s.parks
    && (t !in s.rows ==> a == Create(t) && Apply(s, a).rows[t].marker == None)
    && (t in s.rows ==> Apply(s, a).rows[t].marker == s.rows[t].marker || Apply(s, a).rows[t].marker == None)
  }

  lemma CreationMarksNothing(s: State, a: Action, t: TaskId)
    requires Enabled(s, a) && t in Apply(s, a).rows && a.Create?
    ensures MarkerKept(s, a, t)
  {
  }

  lemma OperatorsKeepMarkers(s: State, a: Action, t: TaskId)
    requires Enabled(s, a) && t in Apply(s, a).rows && (a.OperatorReads? || a.OperatorDecides? || a.RecordExpires?)
    ensures MarkerKept(s, a, t)
  {
  }

  lemma RequeuesKeepMarkers(s: State, a: Action, t: TaskId)
    requires Enabled(s, a) && t in Apply(s, a).rows && (a.SlotExpires? || a.Requeue?)
    ensures MarkerKept(s, a, t)
  {
  }

  lemma StatusWritesKeepMarkers(s: State, a: Action, t: TaskId)
    requires Enabled(s, a) && t in Apply(s, a).rows && (a.Deliver? || a.CancelTask? || a.SweepFails?)
    ensures MarkerKept(s, a, t)
  {
  }

  lemma WorkersKeepMarkers(s: State, a: Action, t: TaskId)
    requires Enabled(s, a) && t in Apply(s, a).rows && !Environment(a) && !(a.WriteMarker? && a.ok)
    ensures MarkerKept(s, a, t)
  {
  }

  /** Only a successful marker write adds a marker or a park; everything else keeps or clears a row's marker. */
  lemma MarkersKept(s: State, a: Action, t: TaskId)
    requires Enabled(s, a) && t in Apply(s, a).rows && !(a.WriteMarker? && a.ok)
    ensures MarkerKept(s, a, t)
  {
    if a.Create? {
      CreationMarksNothing(s, a, t);
    } else if a.OperatorReads? || a.OperatorDecides? || a.RecordExpires? {
      OperatorsKeepMarkers(s, a, t);
    } else if a.SlotExpires? || a.Requeue? {
      RequeuesKeepMarkers(s, a, t);
    } else if Environment(a) {
      StatusWritesKeepMarkers(s, a, t);
    } else {
      WorkersKeepMarkers(s, a, t);
    }
  }

  lemma NewRowIsCreated(s: State, a: Action, t: TaskId)
    requires Enabled(s, a) && t in Apply(s, a).rows && t !in s.rows
    ensures a == Create(t)
  {
  }

  lemma RowsTracked(s: State, a: Action, t: TaskId)
    requires Tracked(s) && Enabled(s, a) && t in Apply(s, a).rows
    ensures RowTracked(Apply(s, a), t)
  {
    if a.WriteMarker? && a.ok {
      assert WorkerTracked(s, s.workers[a.w]);
      assert RowTracked(s, t);
      assert Apply(s, a).parks[..|s.parks|] == s.parks;
    } else {
      MarkersKept(s, a, t);
      assert t in s.rows ==> RowTracked(s, t);
    }
  }

  /** A step executes at most one plan, that of a ready worker. */
  lemma ExecutesReady(s: State, a: Action)
    requires Enabled(s, a)
    ensures a.Execute? ==>
              var ready := s.workers[a.w];
              ready.Ready? && Apply(s, a).executed == s.executed + [Execution(ready.task, ready.plan, ready.via)]
    ensures !a.Execute? ==> Apply(s, a).executed == s.executed
  {
  }

  lemma ExecutedTracked(s: State, a: Action)
    requires Tracked(s) && Enabled(s, a)
    ensures forall i :: 0 <= i < |Apply(s, a).executed| ==> ExecutionTracked(Apply(s, a), Apply(s, a).executed[i])
  {
    var s' := Apply(s, a);
    ExecutesReady(s, a);
    StepExtends(s, a);
    forall i | 0 <= i < |s'.executed|
      ensures ExecutionTracked(s', s'.executed[i])
    {
      var e := s'.executed[i];
      if i < |s.executed| {
        assert ExecutionTracked(s, s.executed[i]);
      } else {
        assert WorkerTracked(s, s.workers[a.w]);
      }
      ViaTrackedExtends(s, s', e.task, e.plan, e.via);
    }
  }

  lemma TrackedStep(s: State, a: Action)
    requires Tracked(s) && Enabled(s, a)
    ensures Tracked(Apply(s, a))
  {
    StoredWereRequested(s, a);
    EventsAreOfRequests(s, a);
    WorkersTracked(s, a);
    ExecutedTracked(s, a);
    forall t | t in Apply(s, a).rows
      ensures RowTracked(Apply(s, a), t)
    {
      RowsTracked(s, a, t);
    }
  }

  lemma {:induction false} TrackedRun(s: State, actions: seq<Action>, s': State)
    requires Tracked(s) && Runs(s, actions, s')
    ensures Tracked(s')
    decreases |actions|
  {
    if actions != [] {
      TrackedStep(s, actions[0]);
      TrackedRun(Apply(s, actions[0]), actions[1..], s');
    }
  }

  // ── Over every run ────────────────────────────────────────────────────────

  /**
   Resume integrity: a resumed execution runs the plan hashed at the task's
   most recent park before the claim, whatever happened to `tasks.plan` since;
   an execution let through by the blocking wait runs the very plan whose
   record was approved; one that met no gate has no doors, and the workspace
   policy was off or a standing approval answered for it.
   */
  lemma ResumeIntegrity(actions: seq<Action>, s: State, e: Execution)
    requires Runs(INIT, actions, s) && e in s.executed
    ensures e.via.Resumed? ==>
              e.via.claimTime <= |s.parks| && LastPark(s.parks[..e.via.claimTime], e.task) == Some(e.plan)
    ensures e.via.ApprovedBy? ==> RecordClears(s, e.via.record, e.task, e.plan, true)
    ensures e.via.Ungated? ==> e.plan.oneWayDoors == [] && (e.via.policy ==> e.via.standing)
  {
    TrackedRun(INIT, actions, s);
    assert ExecutionTracked(s, e);
  }

  /** Every executed plan names its outbound tools in doors, so it met the gate. */
  lemma OutboundPlansHaveDoors(actions: seq<Action>, s: State, e: Execution, tool: string)
    requires Runs(INIT, actions, s) && e in s.executed
    requires tool in AllTools(e.plan.steps) && IsOutboundChannelTool(tool)
    ensures SomeDoorReferences(e.plan.oneWayDoors, tool) && !e.via.Ungated?
  {
    TrackedRun(INIT, actions, s);
    assert ExecutionTracked(s, e);
  }
}
