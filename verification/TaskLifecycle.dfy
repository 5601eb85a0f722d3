/**
 The life of a task as a step relation: claim, plan, gate, park or wait,
 resume and execute, interleaved with operators, the OWD_RESOLVED listener,
 the sweepers and crashes (apps/api/src/agent-loop.ts,
 packages/agent/src/one-way-door.ts, packages/agent/src/tasks.repository.ts,
 packages/queue/src).

 Every single UPDATE is one atomic step, and keeps the WHERE clause it has in
 the source, also where that clause is only the row's id. Any number of workers
 may hold the same task, work from stale row snapshots, and crash anywhere.
 Parking is three separate writes, the second and third of which may fail.
 */
module TaskLifecycle {
  import opened Wrappers
  import opened OneWayDoors

  type TaskId = nat
  type RecordId = nat
  type WorkerId = nat

  const MAX_ATTEMPTS := 3

  datatype Status = Queued | Claimed | Running | AwaitingApproval | Complete | Blocked | Failed | Cancelled

  /** SHA-256 of the plan's JSON; taken to be injective. */
  datatype Digest = Digest(plan: Plan)

  /** `marker` stands for `_resumeAt` and `planHash`, always written and cleared together. */
  datatype Row = Row(status: Status, attempts: nat, plan: Option<Plan>, marker: Option<Digest>,
                     approvalId: Option<RecordId>)

  /**
   How a plan got past the gate: with the workspace policy and the standing
   approval it met there, an operator's approval, or a park (`claimTime` counts
   the parks made before the claim).
   */
  datatype Via = Ungated(policy: bool, standing: bool) | ApprovedBy(record: RecordId) | Resumed(claimTime: nat)

  datatype Worker =
    | Entered(task: TaskId, snapshot: Row, parksSeen: nat)
    | Started(task: TaskId, snapshot: Row, parksSeen: nat)
    | Planned(task: TaskId, plan: Plan)
    | Persisted(task: TaskId, plan: Plan)
    | Gated(task: TaskId, plan: Plan, record: RecordId)
    | Parking(task: TaskId, plan: Plan, record: RecordId, idTried: bool)
    | Waiting(task: TaskId, plan: Plan, record: RecordId)
    | Ready(task: TaskId, plan: Plan, via: Via)
    | Executing(task: TaskId, plan: Plan)

  datatype Request = Request(task: TaskId, plan: Plan)
  datatype Stored = Pending | Decided(approved: bool)
  datatype Event = Event(record: RecordId, task: TaskId, approved: bool)
  datatype Execution = Execution(task: TaskId, plan: Plan, via: Via)

  /**
   `store` is Redis (a record leaves it when its TTL ends); `requested`,
   `events`, `parks` and `executed` are the history of the run. `pendingReads`
   holds the records some operator has read as pending: `resolveDecision` is a
   read and then a write, so two operators may both write.
   */
  datatype State = State(rows: map<TaskId, Row>, workers: map<WorkerId, Worker>,
                         store: map<RecordId, Stored>, pendingReads: set<RecordId>,
                         requested: map<RecordId, Request>, events: set<Event>,
                         parks: seq<Request>, executed: seq<Execution>)

  const INIT := State(map[], map[], map[], {}, map[], {}, [], [])

  datatype Action =
    | Create(t: TaskId)
    | Claim(w: WorkerId, t: TaskId)
    | Start(w: WorkerId)
    | Resume(w: WorkerId, clearOk: bool)
    | MakePlan(w: WorkerId, p: Plan)
    | Clarify(w: WorkerId)
    | Persist(w: WorkerId, ok: bool)
    | Gate(w: WorkerId, policy: bool, standing: bool, r: RecordId)
    | MarkAwaiting(w: WorkerId)
    | WriteApprovalId(w: WorkerId, ok: bool)
    | WriteMarker(w: WorkerId, ok: bool)
    | WaitApproved(w: WorkerId)
    | WaitRejected(w: WorkerId)
    | WaitTimeout(w: WorkerId)
    | Execute(w: WorkerId)
    | Finish(w: WorkerId)
    | Throw(w: WorkerId, transient: bool)
    | Crash(w: WorkerId)
    | OperatorReads(r: RecordId)
    | OperatorDecides(r: RecordId, approved: bool)
    | RecordExpires(r: RecordId)
    | Deliver(e: Event)
    | CancelTask(t: TaskId)
    | SlotExpires(t: TaskId)
    | Requeue(t: TaskId)
    | SweepFails(t: TaskId)

  // ── Row writes ────────────────────────────────────────────────────────────

  function WithStatus(s: State, t: TaskId, status: Status): State
    requires t in s.rows
  {
    s.(rows := s.rows[t := s.rows[t].(status := status)])
  }

  /** `requeueForRetry`: no status guard in either of its two writes. */
  function Requeued(s: State, t: TaskId): State
    requires t in s.rows
  {
    var row := s.rows[t];
    if row.attempts + 1 > MAX_ATTEMPTS then WithStatus(s, t, Failed)
    else s.(rows := s.rows[t := row.(status := Queued, attempts := row.attempts + 1)])
  }

  /** `handleExpiredSlot`, guarded by status 'running'. */
  function SlotExpired(s: State, t: TaskId): State
    requires t in s.rows
  {
    var row := s.rows[t];
    var next := row.attempts + 1;
    s.(rows := s.rows[t := row.(status := if next >= MAX_ATTEMPTS then Blocked else Queued, attempts := next)])
  }

  /** `markFailed` with `requireFromStatus: 'awaiting_approval'`. */
  function FailIfAwaiting(s: State, t: TaskId): State
    requires t in s.rows
  {
    if s.rows[t].status == AwaitingApproval then WithStatus(s, t, Failed) else s
  }

  function With(s: State, w: WorkerId, worker: Worker): State {
    s.(workers := s.workers[w := worker])
  }

  function Gone(s: State, w: WorkerId): State {
    s.(workers := s.workers - {w})
  }

  // ── Steps ─────────────────────────────────────────────────────────────────

  /** The resume branch is taken when the claimed row carried a marker and a plan. */
  predicate IsResume(row: Row) {
    row.marker.Some? && row.plan.Some?
  }

  predicate Enabled(s: State, a: Action) {
    match a
    case Create(t) => t !in s.rows
    case Claim(w, t) => w !in s.workers && t in s.rows && s.rows[t].status == Queued
    case Start(w) => At(s, w) && s.workers[w].Entered?
    case Resume(w, _) => At(s, w) && s.workers[w].Started? && IsResume(s.workers[w].snapshot)
    case MakePlan(w, _) => At(s, w) && s.workers[w].Started? && !IsResume(s.workers[w].snapshot)
    case Clarify(w) => At(s, w) && s.workers[w].Started? && !IsResume(s.workers[w].snapshot)
    case Persist(w, _) => At(s, w) && s.workers[w].Planned?
    case Gate(w, _, _, r) => At(s, w) && s.workers[w].Persisted? && r !in s.requested
    case MarkAwaiting(w) => At(s, w) && s.workers[w].Gated?
    case WriteApprovalId(w, _) => At(s, w) && s.workers[w].Parking? && !s.workers[w].idTried
    case WriteMarker(w, _) => At(s, w) && s.workers[w].Parking? && s.workers[w].idTried
    case WaitApproved(w) => At(s, w) && s.workers[w].Waiting? && Holds(s, s.workers[w].record, Decided(true))
    case WaitRejected(w) => At(s, w) && s.workers[w].Waiting? && Holds(s, s.workers[w].record, Decided(false))
    case WaitTimeout(w) => At(s, w) && s.workers[w].Waiting?
    case Execute(w) => At(s, w) && s.workers[w].Ready?
    case Finish(w) => At(s, w) && s.workers[w].Executing?
    case Throw(w, transient) => At(s, w) && (transient ==> !s.workers[w].Entered?)
    case Crash(w) => At(s, w)
    case OperatorReads(r) => Holds(s, r, Pending)
    case OperatorDecides(r, _) => r in s.pendingReads && r in s.requested
    case RecordExpires(r) => r in s.store
    case Deliver(e) => e in s.events && e.task in s.rows
    case CancelTask(t) =>
      t in s.rows && s.rows[t].status in {Queued, Claimed, Running, Blocked, AwaitingApproval}
    case SlotExpires(t) => t in s.rows && s.rows[t].status == Running
    case Requeue(t) => t in s.rows
    case SweepFails(t) => t in s.rows
  }

  predicate At(s: State, w: WorkerId) {
    w in s.workers && s.workers[w].task in s.rows
  }

  predicate Holds(s: State, r: RecordId, value: Stored) {
    r in s.store && s.store[r] == value
  }

  function Apply(s: State, a: Action): State
    requires Enabled(s, a)
  {
    match a
    case Create(t) => s.(rows := s.rows[t := Row(Queued, 0, None, None, None)])
    case Claim(w, t) =>
      var claimed := s.rows[t].(status := Claimed);
      With(s.(rows := s.rows[t := claimed]), w, Entered(t, claimed, |s.parks|))
    case Start(w) =>
      var Entered(t, snapshot, seen) := s.workers[w];
      With(WithStatus(s, t, Running), w, Started(t, snapshot, seen))
    case Resume(w, clearOk) => ApplyResume(s, w, clearOk)
    case MakePlan(w, p) => With(s, w, Planned(s.workers[w].task, Elevated(p)))
    case Clarify(w) => Gone(WithStatus(s, s.workers[w].task, Blocked), w)
    case Persist(w, ok) =>
      var Planned(t, p) := s.workers[w];
      var s' := if ok then s.(rows := s.rows[t := s.rows[t].(plan := Some(p))]) else s;
      With(s', w, Persisted(t, p))
    case Gate(w, policy, standing, r) => ApplyGate(s, w, policy, standing, r)
    case MarkAwaiting(w) =>
      var Gated(t, p, r) := s.workers[w];
      With(WithStatus(s, t, AwaitingApproval), w, Parking(t, p, r, false))
    case WriteApprovalId(w, ok) =>
      var Parking(t, p, r, _) := s.workers[w];
      var s' := if ok then s.(rows := s.rows[t := s.rows[t].(approvalId := Some(r))]) else s;
      With(s', w, Parking(t, p, r, true))
    case WriteMarker(w, ok) =>
      var Parking(t, p, r, _) := s.workers[w];
      if ok then
        Gone(s.(rows := s.rows[t := s.rows[t].(marker := Some(Digest(p)))], parks := s.parks + [Request(t, p)]), w)
      else With(s, w, Waiting(t, p, r))
    case WaitApproved(w) =>
      var Waiting(t, p, r) := s.workers[w];
      With(WithStatus(s, t, Running), w, Ready(t, p, ApprovedBy(r)))
    case WaitRejected(w) => Gone(FailIfAwaiting(s, s.workers[w].task), w)
    case WaitTimeout(w) => Gone(FailIfAwaiting(s, s.workers[w].task), w)
    case Execute(w) =>
      var Ready(t, p, via) := s.workers[w];
      With(s, w, Executing(t, p)).(executed := s.executed + [Execution(t, p, via)])
    case Finish(w) => Gone(WithStatus(s, s.workers[w].task, Complete), w)
    case Throw(w, transient) =>
      var t := s.workers[w].task;
      if transient then Requeued(Gone(s, w), t) else WithStatus(Gone(s, w), t, Failed)
    case Crash(w) => Gone(s, w)
    case OperatorReads(r) => s.(pendingReads := s.pendingReads + {r})
    case OperatorDecides(r, approved) =>
      s.(store := s.store[r := Decided(approved)],
         events := s.events + {Event(r, s.requested[r].task, approved)})
    case RecordExpires(r) => s.(store := s.store - {r})
    case Deliver(e) =>
      if !e.approved then FailIfAwaiting(s, e.task)
      else if s.rows[e.task].status == AwaitingApproval then WithStatus(s, e.task, Queued)
      else s
    case CancelTask(t) => WithStatus(s, t, Cancelled)
    case SlotExpires(t) => SlotExpired(s, t)
    case Requeue(t) => Requeued(s, t)
    case SweepFails(t) => WithStatus(s, t, Failed)
  }

  /** A hash mismatch throws, which fails the task; clearing the marker may fail. */
  function ApplyResume(s: State, w: WorkerId, clearOk: bool): State
    requires At(s, w) && s.workers[w].Started? && IsResume(s.workers[w].snapshot)
  {
    var Started(t, snapshot, seen) := s.workers[w];
    if Digest(snapshot.plan.value) != snapshot.marker.value then Gone(WithStatus(s, t, Failed), w)
    else
      var s' := if clearOk then s.(rows := s.rows[t := s.rows[t].(marker := None)]) else s;
      With(s', w, Ready(t, snapshot.plan.value, Resumed(seen)))
  }

  function ApplyGate(s: State, w: WorkerId, policy: bool, standing: bool, r: RecordId): State
    requires At(s, w) && s.workers[w].Persisted?
  {
    var Persisted(t, p) := s.workers[w];
    if !MustGate(p, policy) || StandingApprovalAnswers(GateRisk(p), standing) then With(s, w, Ready(t, p, Ungated(policy, standing)))
    else With(s, w, Gated(t, p, r)).(requested := s.requested[r := Request(t, p)], store := s.store[r := Pending])
  }

  // ── Runs ──────────────────────────────────────────────────────────────────

  ghost predicate Runs(s: State, actions: seq<Action>, s': State)
    decreases |actions|
  {
    if actions == [] then s == s'
    else Enabled(s, actions[0]) && Runs(Apply(s, actions[0]), actions[1..], s')
  }

  lemma {:induction false} RunsThen(s: State, actions: seq<Action>, m: State, a: Action)
    requires Runs(s, actions, m) && Enabled(m, a)
    ensures Runs(s, actions + [a], Apply(m, a))
    decreases |actions|
  {
    if actions == [] {
      assert Runs(Apply(m, a), [], Apply(m, a));
      assert ([] + [a])[1..] == [];
    } else {
      RunsThen(Apply(s, actions[0]), actions[1..], m, a);
      assert (actions + [a])[1..] == actions[1..] + [a];
    }
  }

  lemma {:induction false} RunsConcat(s: State, xs: seq<Action>, m: State, ys: seq<Action>, s': State)
    requires Runs(s, xs, m) && Runs(m, ys, s')
    ensures Runs(s, xs + ys, s')
    decreases |xs|
  {
    if xs == [] {
      assert xs + ys == ys;
    } else {
      RunsConcat(Apply(s, xs[0]), xs[1..], m, ys, s');
      assert (xs + ys)[1..] == xs[1..] + ys;
    }
  }
}
