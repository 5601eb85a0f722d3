/**
 The lease-based slot allocator of apps/api/src/parallel-executor.ts: a table of
 slots in Redis, claims by compare-and-set on the task row, expiry with backoff.
 One call of each operation is atomic here; times are milliseconds.
 */
module SlotAllocator {
  import opened Wrappers

  type TaskId = nat

  const SLOT_TTL := 90_000
  const MAX_ATTEMPTS := 3
  const BACKOFF_DELAYS: seq<nat> := [120_000, 300_000, 3_600_000]
  const QUERY_LIMIT := 20

  datatype TaskType = Deployment | Ops | Automation | OtherType
  datatype Status = Queued | Claimed | Running | Blocked | OtherStatus

  datatype Task = Task(id: TaskId, taskType: TaskType, appUuid: Option<string>, target: Option<string>,
                       repo: Option<string>, source: string, priority: int, createdAt: int,
                       retryAfter: Option<int>, status: Status, attempts: nat)

  /** The prefixes app_, ops_, repo_ and task_ of the source keep these apart. */
  datatype ResourceKey = AppKey(name: string) | OpsKey(name: string) | RepoKey(name: string) | TaskKey(id: TaskId)

  datatype SlotData = Slot(resourceKey: ResourceKey, expiresAt: int) | Corrupt

  function GetResourceKey(task: Task): ResourceKey {
    match task.taskType
    case Deployment => AppKey(if task.appUuid.Some? then task.appUuid.value else "unknown")
    case Ops => OpsKey(if task.target.Some? then task.target.value else "unknown")
    case _ => if task.repo.Some? && task.repo.value != "" then RepoKey(task.repo.value) else TaskKey(task.id)
  }

  function Or(text: Option<string>, default: string): string {
    if text.Some? then text.value else default
  }

  /** Deployments of one app, ops tasks on one target, other tasks on one repository may not run together. */
  predicate Conflict(a: Task, b: Task) {
    || (a.taskType == Deployment == b.taskType && Or(a.appUuid, "unknown") == Or(b.appUuid, "unknown"))
    || (a.taskType == Ops == b.taskType && Or(a.target, "unknown") == Or(b.target, "unknown"))
    || (a.taskType != Deployment && a.taskType != Ops && b.taskType != Deployment && b.taskType != Ops
        && a.repo == b.repo && Or(a.repo, "") != "")
  }

  /** Sharing a resource key, but for a task's own, is being in conflict; a task in conflict with none has its own key. */
  lemma SameKeyIsConflict(a: Task, b: Task)
    ensures Conflict(a, b) <==> !GetResourceKey(a).TaskKey? && GetResourceKey(a) == GetResourceKey(b)
    ensures Conflict(a, a) <==> !GetResourceKey(a).TaskKey?
    ensures GetResourceKey(a).TaskKey? ==> GetResourceKey(a) == TaskKey(a.id)
  {
  }

  // ── The greedy choice ─────────────────────────────────────────────────────

  predicate Admissible(task: Task, held: set<ResourceKey>) {
    GetResourceKey(task).TaskKey? || GetResourceKey(task) !in held
  }

  /** What the claim loop takes from `queue`; `open` are the tasks whose compare-and-set succeeds. */
  function Greedy(queue: seq<Task>, open: set<TaskId>, held: set<ResourceKey>, room: nat): seq<Task> {
    if queue == [] || room == 0 then []
    else if Admissible(queue[0], held) && queue[0].id in open then
      [queue[0]] + Greedy(queue[1..], open, held + {GetResourceKey(queue[0])}, room - 1)
    else Greedy(queue[1..], open, held, room)
  }

  predicate DistinctIds(queue: seq<Task>) {
    forall i, j :: 0 <= i < j < |queue| ==> queue[i].id != queue[j].id
  }

  function Keys(tasks: seq<Task>): set<ResourceKey> {
    set t | t in tasks :: GetResourceKey(t)
  }

  predicate AllOpen(queue: seq<Task>, open: set<TaskId>) {
    forall t :: t in queue ==> t.id in open
  }

  lemma {:induction false} GreedySize(queue: seq<Task>, open: set<TaskId>, held: set<ResourceKey>, room: nat)
    ensures |Greedy(queue, open, held, room)| <= room
    ensures forall t :: t in Greedy(queue, open, held, room) ==> t in queue && t.id in open
  {
    if queue != [] && room != 0 {
      if Admissible(queue[0], held) && queue[0].id in open {
        GreedySize(queue[1..], open, held + {GetResourceKey(queue[0])}, room - 1);
      } else {
        GreedySize(queue[1..], open, held, room);
      }
    }
  }

  /** Unless room runs out, every open admissible task has its key taken. */
  lemma {:induction false} GreedyTakesEveryKey(queue: seq<Task>, open: set<TaskId>, held: set<ResourceKey>, room: nat, u: Task)
    requires |Greedy(queue, open, held, room)| < room
    requires u in queue && u.id in open && Admissible(u, held)
    ensures u in Greedy(queue, open, held, room)
         || (!GetResourceKey(u).TaskKey? && GetResourceKey(u) in Keys(Greedy(queue, open, held, room)))
  {
    var head := queue[0];
    if Admissible(head, held) && head.id in open {
      var rest := Greedy(queue[1..], open, held + {GetResourceKey(head)}, room - 1);
      assert Greedy(queue, open, held, room) == [head] + rest;
      assert head in [head] + rest;
      if u != head && (GetResourceKey(u).TaskKey? || GetResourceKey(u) != GetResourceKey(head)) {
        GreedyTakesEveryKey(queue[1..], open, held + {GetResourceKey(head)}, room - 1, u);
        if u !in rest {
          var t :| t in rest && GetResourceKey(t) == GetResourceKey(u);
          assert t in [head] + rest;
        }
      }
    } else {
      GreedyTakesEveryKey(queue[1..], open, held, room, u);
    }
  }

  /** A set of tasks from the queue that may hold slots together. */
  ghost predicate ConflictFree(choice: set<Task>, queue: seq<Task>, held: set<ResourceKey>) {
    && (forall t :: t in choice ==> t in queue && Admissible(t, held))
    && (forall t, u :: t in choice && u in choice && t != u && !GetResourceKey(t).TaskKey? ==>
          GetResourceKey(t) != GetResourceKey(u))
  }

  ghost function KeySet(tasks: set<Task>): set<ResourceKey> {
    set t | t in tasks :: GetResourceKey(t)
  }

  lemma {:induction false} DistinctKeysCount(choice: set<Task>)
    requires forall t, u :: t in choice && u in choice && t != u ==> GetResourceKey(t) != GetResourceKey(u)
    ensures |KeySet(choice)| == |choice|
    decreases |choice|
  {
    if choice != {} {
      var t :| t in choice;
      DistinctKeysCount(choice - {t});
      assert KeySet(choice) == KeySet(choice - {t}) + {GetResourceKey(t)};
    }
  }

  lemma {:induction false} KeysCount(tasks: seq<Task>)
    ensures |Keys(tasks)| <= |tasks|
  {
    if tasks == [] {
      assert Keys(tasks) == {};
    } else {
      KeysCount(tasks[1..]);
      assert tasks == [tasks[0]] + tasks[1..];
      assert Keys(tasks) == {GetResourceKey(tasks[0])} + Keys(tasks[1..]);
    }
  }

  lemma {:induction false} SubsetCount<T>(a: set<T>, b: set<T>)
    requires a <= b
    ensures |a| <= |b|
  {
    assert b == a + (b - a);
  }

  /** Greedy is optimal: no conflict-free choice that fits claims more tasks. */
  lemma GreedyIsOptimal(queue: seq<Task>, open: set<TaskId>, held: set<ResourceKey>, room: nat, choice: set<Task>)
    requires DistinctIds(queue) && AllOpen(queue, open)
    requires ConflictFree(choice, queue, held) && |choice| <= room
    ensures |choice| <= |Greedy(queue, open, held, room)|
  {
    var taken := Greedy(queue, open, held, room);
    GreedySize(queue, open, held, room);
    if |taken| < room {
      forall t | t in choice
        ensures GetResourceKey(t) in Keys(taken)
      {
        GreedyTakesEveryKey(queue, open, held, room, t);
        assert t in taken ==> GetResourceKey(t) in Keys(taken);
      }
      forall t, u | t in choice && u in choice && t != u
        ensures GetResourceKey(t) != GetResourceKey(u)
      {
        assert t in queue && u in queue;
      }
      DistinctKeysCount(choice);
      KeysCount(taken);
      SubsetCount(KeySet(choice), Keys(taken));
    }
  }

  /** The claimed tasks, as a set, are themselves such a choice. */
  lemma {:induction false} GreedyIsConflictFree(queue: seq<Task>, open: set<TaskId>, held: set<ResourceKey>, room: nat)
    ensures var taken := Greedy(queue, open, held, room);
            && (forall t :: t in taken ==> Admissible(t, held))
            && (forall i, j :: 0 <= i < j < |taken| && !GetResourceKey(taken[i]).TaskKey? ==>
                  GetResourceKey(taken[i]) != GetResourceKey(taken[j]))
  {
    if queue != [] && room != 0 {
      if Admissible(queue[0], held) && queue[0].id in open {
        var more := held + {GetResourceKey(queue[0])};
        GreedyIsConflictFree(queue[1..], open, more, room - 1);
        var rest := Greedy(queue[1..], open, more, room - 1);
        forall t | t in rest
          ensures Admissible(t, held)
        {
          assert Admissible(t, more);
        }
        forall j | 0 <= j < |rest| && !GetResourceKey(queue[0]).TaskKey?
          ensures GetResourceKey(rest[j]) != GetResourceKey(queue[0])
        {
          assert rest[j] in rest && Admissible(rest[j], more);
        }
      } else {
        GreedyIsConflictFree(queue[1..], open, held, room);
      }
    }
  }

  /** If `queue[i]` is skipped and a later task is claimed, its key was held, or claimed from before it. */
  lemma {:induction false} GreedyRespectsOrder(queue: seq<Task>, open: set<TaskId>, held: set<ResourceKey>, room: nat, i: nat, j: nat)
    requires DistinctIds(queue) && AllOpen(queue, open) && i < j < |queue|
    requires queue[j] in Greedy(queue, open, held, room) && queue[i] !in Greedy(queue, open, held, room)
    ensures !GetResourceKey(queue[i]).TaskKey?
    ensures || GetResourceKey(queue[i]) in held
            || exists k :: 0 <= k < i && queue[k] in Greedy(queue, open, held, room) && GetResourceKey(queue[k]) == GetResourceKey(queue[i])
  {
    var head := queue[0];
    var taken := Greedy(queue, open, held, room);
    if Admissible(head, held) && head.id in open {
      var more := held + {GetResourceKey(head)};
      var rest := Greedy(queue[1..], open, more, room - 1);
      assert taken == [head] + rest;
      if i > 0 {
        GreedyRespectsOrder(queue[1..], open, more, room - 1, i - 1, j - 1);
        if k :| 0 <= k < i - 1 && queue[1..][k] in rest && GetResourceKey(queue[1..][k]) == GetResourceKey(queue[i]) {
          assert queue[k + 1] in taken;
        } else if GetResourceKey(queue[i]) == GetResourceKey(head) {
          assert queue[0] in taken;
        }
      }
    } else if i > 0 {
      GreedyRespectsOrder(queue[1..], open, held, room, i - 1, j - 1);
      if k :| 0 <= k < i - 1 && queue[1..][k] in taken && GetResourceKey(queue[1..][k]) == GetResourceKey(queue[i]) {
        assert queue[k + 1] in taken;
      }
    }
  }

  // ── The queue the claim loop reads ────────────────────────────────────────

  function Lane(task: Task): int {
    if task.source in {"telegram", "twilio", "gmessages"} && task.taskType == Automation then 0 else 1
  }

  /** ORDER BY lane, priority, created_at. */
  predicate Before(a: Task, b: Task) {
    || Lane(a) < Lane(b)
    || (Lane(a) == Lane(b) && a.priority < b.priority)
    || (Lane(a) == Lane(b) && a.priority == b.priority && a.createdAt < b.createdAt)
  }

  predicate Eligible(task: Task, now: int) {
    task.status == Queued && (task.retryAfter.None? || task.retryAfter.value <= now)
  }

  /** What the SELECT may return: the first 20 eligible rows in order, ties broken anyhow. */
  ghost predicate IsWindow(queue: seq<Task>, rows: map<TaskId, Task>, now: int) {
    && |queue| <= QUERY_LIMIT
    && DistinctIds(queue)
    && (forall t :: t in queue ==> t.id in rows && rows[t.id] == t && Eligible(t, now))
    && (forall i, j :: 0 <= i < j < |queue| ==> !Before(queue[j], queue[i]))
    && (|queue| < QUERY_LIMIT ==> forall id :: id in rows && Eligible(rows[id], now) ==> rows[id] in queue)
    && (forall id, t :: id in rows && rows[id].id == id && Eligible(rows[id], now) && rows[id] !in queue && t in queue ==>
          !Before(rows[id], t))
  }

  /**
   The window on task fields: automation tasks of the three user channels come
   first; within either group a lower priority number comes first, then age.
   */
  lemma WindowOrder(queue: seq<Task>, rows: map<TaskId, Task>, now: int, i: nat, j: nat)
    requires IsWindow(queue, rows, now) && i < j < |queue|
    ensures var a, b := queue[i], queue[j];
            var first := a.taskType == Automation && (a.source == "telegram" || a.source == "twilio" || a.source == "gmessages");
            var second := b.taskType == Automation && (b.source == "telegram" || b.source == "twilio" || b.source == "gmessages");
            && (second ==> first)
            && (first == second ==> a.priority <= b.priority && (a.priority == b.priority ==> a.createdAt <= b.createdAt))
            && a.status == Queued && (a.retryAfter.Some? ==> a.retryAfter.value <= now)
    ensures |queue| <= 20
  {
    assert Eligible(queue[i], now);
  }

  /**
   Fairness over the whole table: when a claimed task is ranked after an
   eligible one that was not claimed, the latter's resource was already taken.
   */
  lemma OnlyConflictsAreSkipped(queue: seq<Task>, rows: map<TaskId, Task>, now: int, held: set<ResourceKey>, room: nat, u: Task, v: Task)
    requires IsWindow(queue, rows, now)
    requires u.id in rows && rows[u.id] == u && Eligible(u, now)
    requires v in Greedy(queue, rows.Keys, held, room) && u !in Greedy(queue, rows.Keys, held, room) && Before(u, v)
    ensures GetResourceKey(u) in held + Keys(Greedy(queue, rows.Keys, held, room))
  {
    var taken := Greedy(queue, rows.Keys, held, room);
    GreedySize(queue, rows.Keys, held, room);
    assert u in queue;
    var i :| 0 <= i < |queue| && queue[i] == u;
    var j :| 0 <= j < |queue| && queue[j] == v;
    assert i < j;
    GreedyRespectsOrder(queue, rows.Keys, held, room, i, j);
    if GetResourceKey(u) !in held {
      var k :| 0 <= k < i && queue[k] in taken && GetResourceKey(queue[k]) == GetResourceKey(u);
    }
  }

  // ── Expiry ────────────────────────────────────────────────────────────────

  /** `handleExpiredSlot`: only a running task is requeued, with backoff, or blocked on its third attempt. */
  function AfterExpiry(task: Task, now: int): Task {
    if task.status != Running then task
    else
      var next := task.attempts + 1;
      if next >= MAX_ATTEMPTS then task.(attempts := next, status := Blocked, retryAfter := None)
      else task.(attempts := next, status := Queued, retryAfter := Some(now + BACKOFF_DELAYS[if next - 1 < 2 then next - 1 else 2]))
  }

  predicate Expired(slot: SlotData, now: int) {
    slot.Slot? && slot.expiresAt < now
  }

  function Unexpired(slots: map<TaskId, SlotData>, now: int): map<TaskId, SlotData> {
    map t | t in slots && slots[t].Slot? && now <= slots[t].expiresAt :: slots[t]
  }

  function RowsAfterExpiry(slots: map<TaskId, SlotData>, rows: map<TaskId, Task>, now: int): map<TaskId, Task> {
    map t | t in rows :: if t in slots && Expired(slots[t], now) then AfterExpiry(rows[t], now) else rows[t]
  }

  function HeldKeys(slots: map<TaskId, SlotData>): set<ResourceKey> {
    set t | t in slots && slots[t].Slot? :: slots[t].resourceKey
  }

  function OpenTasks(rows: map<TaskId, Task>): set<TaskId> {
    set t | t in rows && rows[t].status == Queued
  }

  /** At most `maxSlots` slots, and no two on one shared resource. */
  ghost predicate SlotInvariant(slots: map<TaskId, SlotData>, maxSlots: nat) {
    && |slots| <= maxSlots
    && (forall t, u :: t in slots && u in slots && t != u && slots[t].Slot? && slots[u].Slot? ==>
          slots[t].resourceKey.TaskKey? || slots[t].resourceKey != slots[u].resourceKey)
  }

  function WithClaims(slots: map<TaskId, SlotData>, claims: seq<Task>, expiresAt: int): map<TaskId, SlotData>
    decreases |claims|
  {
    if claims == [] then slots
    else WithClaims(slots[claims[0].id := Slot(GetResourceKey(claims[0]), expiresAt)], claims[1..], expiresAt)
  }

  function RowsWithClaims(rows: map<TaskId, Task>, claims: seq<Task>): map<TaskId, Task> {
    map t | t in rows :: if exists c :: c in claims && c.id == t then rows[t].(status := Claimed) else rows[t]
  }

  /** The tasks a claim takes, given the active slots and the rows after expiry. */
  function Claims(active: map<TaskId, SlotData>, live: map<TaskId, Task>, queue: seq<Task>, maxSlots: nat): seq<Task> {
    if |active| >= maxSlots then [] else Greedy(queue, OpenTasks(live), HeldKeys(active), maxSlots - |active|)
  }

  /** Every task taken has a slot and is claimed in its row, as it is returned; nothing else changes. */
  ghost predicate ClaimedFrom(active: map<TaskId, SlotData>, live: map<TaskId, Task>, queue: seq<Task>, maxSlots: nat, now: int,
                              slots: map<TaskId, SlotData>, rows: map<TaskId, Task>, claimed: seq<Task>)
  {
    var claims := Claims(active, live, queue, maxSlots);
    && slots == WithClaims(active, claims, now + SLOT_TTL)
    && rows == RowsWithClaims(live, claims)
    && Returned(claimed, claims, rows)
  }

  // ── On task fields ────────────────────────────────────────────────────────

  /** Every slot has the key of the task it was claimed for. */
  ghost predicate Owned(slots: map<TaskId, SlotData>, owners: map<TaskId, Task>) {
    forall t :: t in slots && slots[t].Slot? ==> t in owners && slots[t].resourceKey == GetResourceKey(owners[t])
  }

  /** The table's primary key. */
  ghost predicate Keyed(rows: map<TaskId, Task>) {
    forall t :: t in rows ==> rows[t].id == t
  }

  /** No two slots are held by tasks in conflict. */
  ghost predicate Exclusive(slots: map<TaskId, SlotData>, owners: map<TaskId, Task>) {
    forall t, u :: t in slots && u in slots && t != u && slots[t].Slot? && slots[u].Slot? ==>
      t in owners && u in owners && !Conflict(owners[t], owners[u])
  }

  lemma SlotsAreExclusive(slots: map<TaskId, SlotData>, owners: map<TaskId, Task>, maxSlots: nat)
    requires SlotInvariant(slots, maxSlots) && Owned(slots, owners)
    ensures Exclusive(slots, owners)
  {
    forall t, u | t in slots && u in slots && t != u && slots[t].Slot? && slots[u].Slot?
      ensures t in owners && u in owners && !Conflict(owners[t], owners[u])
    {
      SameKeyIsConflict(owners[t], owners[u]);
    }
  }

  function Owners(owners: map<TaskId, Task>, claims: seq<Task>): map<TaskId, Task>
    decreases |claims|
  {
    if claims == [] then owners else Owners(owners[claims[0].id := claims[0]], claims[1..])
  }

  lemma {:induction false} ClaimsAreOwned(slots: map<TaskId, SlotData>, owners: map<TaskId, Task>, claims: seq<Task>, expiresAt: int)
    requires Owned(slots, owners)
    ensures Owned(WithClaims(slots, claims, expiresAt), Owners(owners, claims))
    decreases |claims|
  {
    if claims != [] {
      var c := claims[0];
      ClaimsAreOwned(slots[c.id := Slot(GetResourceKey(c), expiresAt)], owners[c.id := c], claims[1..], expiresAt);
    }
  }

  predicate HasId(claims: seq<Task>, t: TaskId) {
    exists c :: c in claims && c.id == t
  }

  lemma {:induction false} ClaimedSlotAt(slots: map<TaskId, SlotData>, owners: map<TaskId, Task>, claims: seq<Task>,
                                         expiresAt: int, t: TaskId)
    requires DistinctIds(claims)
    ensures var after, own := WithClaims(slots, claims, expiresAt), Owners(owners, claims);
            && (t in after <==> t in slots || HasId(claims, t))
            && (!HasId(claims, t) ==> (t in slots ==> after[t] == slots[t]) && (t in owners ==> t in own && own[t] == owners[t]))
            && (forall c :: c in claims && c.id == t ==> t in after && after[t] == Slot(GetResourceKey(c), expiresAt) && t in own && own[t] == c)
    decreases |claims|
  {
    if claims != [] {
      var c, rest := claims[0], claims[1..];
      ClaimedSlotAt(slots[c.id := Slot(GetResourceKey(c), expiresAt)], owners[c.id := c], rest, expiresAt, t);
      assert claims == [c] + rest;
      assert !HasId(rest, c.id);
      assert HasId(claims, t) <==> c.id == t || HasId(rest, t);
    }
  }

  lemma ClaimedSlots(slots: map<TaskId, SlotData>, owners: map<TaskId, Task>, claims: seq<Task>, expiresAt: int)
    requires DistinctIds(claims)
    ensures var after := WithClaims(slots, claims, expiresAt);
            && (forall t :: t in after <==> t in slots || HasId(claims, t))
            && (forall t :: t in slots && !HasId(claims, t) ==> after[t] == slots[t])
            && (forall c :: c in claims ==>
                  && c.id in after && after[c.id].Slot? && after[c.id].expiresAt == expiresAt
                  && c.id in Owners(owners, claims) && Owners(owners, claims)[c.id] == c)
  {
    forall t
      ensures t in WithClaims(slots, claims, expiresAt) <==> t in slots || HasId(claims, t)
      ensures t in slots && !HasId(claims, t) ==> WithClaims(slots, claims, expiresAt)[t] == slots[t]
    {
      ClaimedSlotAt(slots, owners, claims, expiresAt, t);
    }
    forall c | c in claims
      ensures c.id in WithClaims(slots, claims, expiresAt)
      ensures WithClaims(slots, claims, expiresAt)[c.id] == Slot(GetResourceKey(c), expiresAt)
      ensures c.id in Owners(owners, claims) && Owners(owners, claims)[c.id] == c
    {
      ClaimedSlotAt(slots, owners, claims, expiresAt, c.id);
    }
  }

  /** Each task returned comes from the queue, was queued, is claimed in its row, and has a slot for 90 seconds. */
  ghost predicate EachClaimed(live: map<TaskId, Task>, queue: seq<Task>, now: int, slots: map<TaskId, SlotData>,
                              rows: map<TaskId, Task>, owners: map<TaskId, Task>, claimed: seq<Task>) {
    && (forall c :: c in claimed ==>
          && c.id in owners && owners[c.id] in queue
          && c.id in live && live[c.id].status == Queued && c.id in rows && rows[c.id] == c == live[c.id].(status := Claimed)
          && c.id in slots && slots[c.id].Slot? && slots[c.id].expiresAt == now + 90_000)
    && (forall i, j :: 0 <= i < j < |claimed| ==> claimed[i].id != claimed[j].id)
  }

  /** Other slots and rows stay as they are. */
  ghost predicate RestKept(active: map<TaskId, SlotData>, live: map<TaskId, Task>, slots: map<TaskId, SlotData>,
                           rows: map<TaskId, Task>, claimed: seq<Task>) {
    && (forall t :: t in slots <==> t in active || HasId(claimed, t))
    && (forall t :: t in active && !HasId(claimed, t) ==> slots[t] == active[t])
    && rows.Keys == live.Keys && (forall t :: t in rows && !HasId(claimed, t) ==> rows[t] == live[t])
  }

  /** A queued task of the queue is passed over only when no slot is left, or when it conflicts with one that has a slot. */
  ghost predicate NobodySkipped(active: map<TaskId, SlotData>, live: map<TaskId, Task>, queue: seq<Task>, maxSlots: nat,
                                owned: map<TaskId, Task>, owners: map<TaskId, Task>, claimed: seq<Task>) {
    forall q :: q in queue && q.id in live && live[q.id].status == Queued && !HasId(claimed, q.id) ==>
      |active| + |claimed| >= maxSlots || PassedOver(q, active, owned, owners, claimed)
  }

  /** The task conflicts with that of a slot that was active before, or with one claimed now. */
  ghost predicate PassedOver(q: Task, active: map<TaskId, SlotData>, owned: map<TaskId, Task>, owners: map<TaskId, Task>,
                             claimed: seq<Task>) {
    || (exists u :: u in active && active[u].Slot? && u in owned && Conflict(q, owned[u]))
    || (exists c :: c in claimed && c.id in owners && Conflict(q, owners[c.id]))
  }

  class ParallelExecutor {
    const maxSlots: nat
    var slots: map<TaskId, SlotData>
    var rows: map<TaskId, Task>
    /** The task each slot was claimed for. */
    ghost var owners: map<TaskId, Task>

    constructor (maxSlots: nat)
      ensures this.maxSlots == maxSlots && slots == map[] && rows == map[]
      ensures SlotInvariant(slots, maxSlots) && Owned(slots, owners)
    {
      this.maxSlots := maxSlots;
      slots, rows, owners := map[], map[], map[];
    }

    /**
     One more attempt for a running task, and nothing for any other: it is blocked
     at the third, and queued again two minutes after the first and five after the
     second. The hour that BACKOFF_DELAYS ends with is never waited.
     */
    method HandleExpiredSlot(taskId: TaskId, now: int)
      modifies this`rows
      ensures rows == if taskId in old(rows) then old(rows)[taskId := AfterExpiry(old(rows)[taskId], now)] else old(rows)
      ensures taskId !in old(rows) || old(rows)[taskId].status != Running ==> rows == old(rows)
      ensures taskId in old(rows) && old(rows)[taskId].status == Running ==>
                var was, task := old(rows)[taskId], rows[taskId];
                && task.attempts == was.attempts + 1
                && task.status == (if task.attempts >= 3 then Blocked else Queued)
                && task.retryAfter == (if task.attempts >= 3 then None
                                       else if task.attempts == 2 then Some(now + 300_000) else Some(now + 120_000))
                && GetResourceKey(task) == GetResourceKey(was)
    {
      if taskId !in rows || rows[taskId].status != Running {
        return;
      }
      var task := rows[taskId];
      var nextAttempt := task.attempts + 1;
      var backoff := BACKOFF_DELAYS[if nextAttempt - 1 < 2 then nextAttempt - 1 else 2];
      rows := rows[taskId := task.(
        attempts := nextAttempt,
        status := if nextAttempt >= MAX_ATTEMPTS then Blocked else Queued,
        retryAfter := if nextAttempt < MAX_ATTEMPTS then Some(now + backoff) else None)];
    }

    /** The first loop of `claimBatch`: evict expired and corrupt slots, list the active ones. */
    method EvictExpired(now: int) returns (activeSlots: seq<SlotData>)
      modifies this`slots, this`rows
      ensures slots == Unexpired(old(slots), now) && rows == RowsAfterExpiry(old(slots), old(rows), now)
      ensures forall t :: t in slots <==> t in old(slots) && old(slots)[t].Slot? && now <= old(slots)[t].expiresAt
      ensures forall t :: t in slots ==> slots[t] == old(slots)[t]
      ensures rows.Keys == old(rows).Keys
      ensures forall t :: t in rows ==>
                (rows[t] != old(rows)[t] <==> t in old(slots) && old(slots)[t].Slot? && old(slots)[t].expiresAt < now
                                              && old(rows)[t].status == Running)
      ensures Lists(activeSlots, slots)
    {
      activeSlots := [];
      var pending := slots.Keys;
      ghost var was, rowsWere := slots, rows;
      assert slots - pending == map[];
      while pending != {}
        invariant EvictState(was, rowsWere, pending, slots, rows, activeSlots, now)
      {
        var t :| t in pending;
        var data := slots[t];
        if data.Slot? && now <= data.expiresAt {
          KeepOne(was, rowsWere, pending, t, slots, rows, activeSlots, now);
          activeSlots := activeSlots + [data];
        } else {
          DropOne(was, rowsWere, pending, t, slots, rows, activeSlots, now);
          slots := slots - {t};
          if data.Slot? {
            HandleExpiredSlot(t, now);
          }
        }
        pending := pending - {t};
      }
      EvictDone(was, rowsWere, slots, rows, activeSlots, now);
    }

    /** The second loop of `claimBatch`. */
    method ClaimQueued(activeSlots: seq<SlotData>, queuedTasks: seq<Task>, now: int) returns (claimedTasks: seq<Task>)
      requires SlotInvariant(slots, maxSlots) && Lists(activeSlots, slots) && |activeSlots| < maxSlots && DistinctIds(queuedTasks)
      modifies this`slots, this`rows
      ensures SlotInvariant(slots, maxSlots)
      ensures ClaimedFrom(old(slots), old(rows), queuedTasks, maxSlots, now, slots, rows, claimedTasks)
    {
      claimedTasks := [];
      var availableSlots := maxSlots - |activeSlots|;
      var claimedResources := set s | s in activeSlots && s.Slot? :: s.resourceKey;
      ghost var start := Progress(slots, rows, [], [], claimedResources);
      ghost var p, turn: nat := start, 0;
      FirstTurn(start, queuedTasks, availableSlots, maxSlots, now);
      for i := 0 to |queuedTasks|
        invariant turn == i && p == Progress(slots, rows, p.claims, claimedTasks, claimedResources)
        invariant Progressed(start, p, queuedTasks, i, availableSlots, maxSlots, now)
      {
        if |claimedTasks| >= availableSlots {
          break;
        }
        var task := queuedTasks[i];
        var rKey := GetResourceKey(task);
        if (rKey.TaskKey? || rKey !in claimedResources) && task.id in rows && rows[task.id].status == Queued {
          TakeOne(start, p, queuedTasks, i, availableSlots, maxSlots, now);
          p := Taken(p, task, now);
          var row := rows[task.id].(status := Claimed);
          rows := rows[task.id := row];
          claimedTasks := claimedTasks + [row];
          claimedResources := claimedResources + {rKey};
          slots := slots[task.id := Slot(rKey, now + SLOT_TTL)];
        } else {
          SkipOne(start, p, queuedTasks, i, availableSlots, maxSlots, now);
        }
        turn := turn + 1;
      }
      AllTaken(start, p, queuedTasks, turn, availableSlots, maxSlots, now);
    }

    /**
     The slots and rows are those of the greedy choice after expiry. In terms of
     task fields: what is returned was queued and has a slot, no two slots are
     held by tasks in conflict, and nobody is skipped but for a conflict.
     */
    method ClaimBatch(now: int, queuedTasks: seq<Task>) returns (claimedTasks: seq<Task>)
      requires SlotInvariant(slots, maxSlots) && Owned(slots, owners) && Keyed(rows) && DistinctIds(queuedTasks)
      modifies this`slots, this`rows, this`owners
      ensures SlotInvariant(slots, maxSlots) && Owned(slots, owners) && Keyed(rows)
      ensures Exclusive(slots, owners)
      ensures ClaimedFrom(Unexpired(old(slots), now), RowsAfterExpiry(old(slots), old(rows), now), queuedTasks, maxSlots, now,
                          slots, rows, claimedTasks)
      ensures EachClaimed(RowsAfterExpiry(old(slots), old(rows), now), queuedTasks, now, slots, rows, owners, claimedTasks)
      ensures RestKept(Unexpired(old(slots), now), RowsAfterExpiry(old(slots), old(rows), now), slots, rows, claimedTasks)
      ensures NobodySkipped(Unexpired(old(slots), now), RowsAfterExpiry(old(slots), old(rows), now), queuedTasks, maxSlots,
                            old(owners), owners, claimedTasks)
    {
      var activeSlots := EvictExpired(now);
      UnexpiredKeepsInvariant(old(slots), now, maxSlots);
      ghost var active, live := slots, rows;
      claimedTasks := [];
      if |activeSlots| < maxSlots {
        claimedTasks := ClaimQueued(activeSlots, queuedTasks, now);
      } else {
        NothingClaimed(active, live, queuedTasks, maxSlots, now);
      }
      BatchOnFields(active, live, queuedTasks, maxSlots, now, owners, slots, rows, claimedTasks);
      owners := Owners(owners, Claims(active, live, queuedTasks, maxSlots));
    }

    method ReleaseSlot(taskId: TaskId)
      requires SlotInvariant(slots, maxSlots)
      modifies this`slots
      ensures slots == old(slots) - {taskId} && SlotInvariant(slots, maxSlots)
    {
      SubsetCount((slots - {taskId}).Keys, slots.Keys);
      slots := slots - {taskId};
    }

    /** The heartbeat: an existing slot lives another TTL, a corrupt one is dropped, a missing one stays missing. */
    method ExtendSlot(taskId: TaskId, now: int)
      requires SlotInvariant(slots, maxSlots)
      modifies this`slots
      ensures slots == if taskId !in old(slots) then old(slots)
                       else match old(slots)[taskId]
                            case Slot(key, _) => old(slots)[taskId := Slot(key, now + 90_000)]
                            case Corrupt => old(slots) - {taskId}
      ensures SlotInvariant(slots, maxSlots)
    {
      if taskId in slots {
        match slots[taskId] {
          case Slot(key, _) =>
            assert slots[taskId := Slot(key, now + SLOT_TTL)].Keys == slots.Keys;
            slots := slots[taskId := Slot(key, now + SLOT_TTL)];
          case Corrupt =>
            SubsetCount((slots - {taskId}).Keys, slots.Keys);
            slots := slots - {taskId};
        }
      }
    }
  }

  // ── From keys to fields ───────────────────────────────────────────────────

  lemma {:induction false} GreedyKeepsDistinct(queue: seq<Task>, open: set<TaskId>, held: set<ResourceKey>, room: nat)
    requires DistinctIds(queue)
    ensures DistinctIds(Greedy(queue, open, held, room))
  {
    if queue != [] && room != 0 {
      if Admissible(queue[0], held) && queue[0].id in open {
        var more := held + {GetResourceKey(queue[0])};
        GreedyKeepsDistinct(queue[1..], open, more, room - 1);
        GreedySize(queue[1..], open, more, room - 1);
        var rest := Greedy(queue[1..], open, more, room - 1);
        forall j | 0 <= j < |rest|
          ensures rest[j].id != queue[0].id
        {
          assert rest[j] in queue[1..];
        }
      } else {
        GreedyKeepsDistinct(queue[1..], open, held, room);
      }
    }
  }

  /** An open task that is passed over while there is room conflicts with a task that has a slot. */
  lemma PassedOverConflicts(active: map<TaskId, SlotData>, live: map<TaskId, Task>, queue: seq<Task>, maxSlots: nat,
                            owned: map<TaskId, Task>, q: Task)
    requires Owned(active, owned) && q in queue && q.id in OpenTasks(live)
    requires var claims := Claims(active, live, queue, maxSlots); |active| + |claims| < maxSlots && q !in claims
    ensures || (exists u :: u in active && active[u].Slot? && Conflict(q, owned[u]))
            || (exists c :: c in Claims(active, live, queue, maxSlots) && Conflict(q, c))
  {
    var claims := Claims(active, live, queue, maxSlots);
    if Admissible(q, HeldKeys(active)) {
      GreedyTakesEveryKey(queue, OpenTasks(live), HeldKeys(active), maxSlots - |active|, q);
      var c :| c in claims && GetResourceKey(c) == GetResourceKey(q);
      SameKeyIsConflict(q, c);
    } else {
      var u :| u in active && active[u].Slot? && active[u].resourceKey == GetResourceKey(q);
      SameKeyIsConflict(q, owned[u]);
    }
  }

  lemma SameIds(claimed: seq<Task>, claims: seq<Task>, rows: map<TaskId, Task>)
    requires Returned(claimed, claims, rows) && Keyed(rows)
    ensures forall i :: 0 <= i < |claims| ==> claimed[i].id == claims[i].id
    ensures forall t :: HasId(claimed, t) <==> HasId(claims, t)
  {
    forall t
      ensures HasId(claimed, t) <==> HasId(claims, t)
    {
      if i :| 0 <= i < |claims| && claims[i].id == t {
        assert claimed[i] in claimed;
      }
      if i :| 0 <= i < |claimed| && claimed[i].id == t {
        assert claims[i] in claims;
      }
    }
  }

  lemma EachIsClaimed(active: map<TaskId, SlotData>, live: map<TaskId, Task>, queue: seq<Task>, maxSlots: nat, now: int,
                      owned: map<TaskId, Task>, slots: map<TaskId, SlotData>, rows: map<TaskId, Task>, claimed: seq<Task>)
    requires ClaimedFrom(active, live, queue, maxSlots, now, slots, rows, claimed) && DistinctIds(queue) && Keyed(live)
    ensures var claims := Claims(active, live, queue, maxSlots);
            && EachClaimed(live, queue, now, slots, rows, Owners(owned, claims), claimed)
            && |claims| == |claimed| && (forall i :: 0 <= i < |claims| ==> claimed[i].id == claims[i].id)
            && DistinctIds(claims) && (forall t :: HasId(claimed, t) <==> HasId(claims, t))
  {
    var claims := Claims(active, live, queue, maxSlots);
    var room := if |active| >= maxSlots then 0 else maxSlots - |active|;
    GreedyKeepsDistinct(queue, OpenTasks(live), HeldKeys(active), room);
    GreedySize(queue, OpenTasks(live), HeldKeys(active), room);
    ClaimedSlots(active, owned, claims, now + SLOT_TTL);
    SameIds(claimed, claims, rows);
    forall c | c in claimed
      ensures c.id in live && live[c.id].status == Queued && rows[c.id] == c == live[c.id].(status := Claimed)
      ensures c.id in Owners(owned, claims) && Owners(owned, claims)[c.id] in queue
      ensures c.id in slots && slots[c.id].Slot? && slots[c.id].expiresAt == now + 90_000
    {
      var i :| 0 <= i < |claimed| && claimed[i] == c;
      assert claims[i] in claims && claims[i].id == c.id;
    }
  }

  lemma TheRestIsKept(active: map<TaskId, SlotData>, live: map<TaskId, Task>, queue: seq<Task>, maxSlots: nat, now: int,
                      owned: map<TaskId, Task>, slots: map<TaskId, SlotData>, rows: map<TaskId, Task>, claimed: seq<Task>)
    requires ClaimedFrom(active, live, queue, maxSlots, now, slots, rows, claimed)
    requires var claims := Claims(active, live, queue, maxSlots);
             DistinctIds(claims) && forall t :: HasId(claimed, t) <==> HasId(claims, t)
    ensures RestKept(active, live, slots, rows, claimed)
  {
    var claims := Claims(active, live, queue, maxSlots);
    ClaimedSlots(active, owned, claims, now + SLOT_TTL);
    assert forall t :: t in live && !HasId(claims, t) ==> rows[t] == live[t];
  }

  lemma NobodyIsSkipped(active: map<TaskId, SlotData>, live: map<TaskId, Task>, queue: seq<Task>, maxSlots: nat,
                        owned: map<TaskId, Task>, claimed: seq<Task>)
    requires Owned(active, owned)
    requires var claims := Claims(active, live, queue, maxSlots);
             && DistinctIds(claims) && |claims| == |claimed| && forall i :: 0 <= i < |claims| ==> claimed[i].id == claims[i].id
    ensures NobodySkipped(active, live, queue, maxSlots, owned, Owners(owned, Claims(active, live, queue, maxSlots)), claimed)
  {
    var claims := Claims(active, live, queue, maxSlots);
    ClaimedSlots(active, owned, claims, 0);
    forall i | 0 <= i < |claims|
      ensures HasId(claimed, claims[i].id)
    {
      assert claimed[i] in claimed;
    }
    forall q | q in queue && q.id in live && live[q.id].status == Queued && !HasId(claimed, q.id) && |active| + |claimed| < maxSlots
      ensures PassedOver(q, active, owned, Owners(owned, claims), claimed)
    {
      PassedOverConflicts(active, live, queue, maxSlots, owned, q);
      if c :| c in claims && Conflict(q, c) {
        var i :| 0 <= i < |claims| && claims[i] == c;
        assert claimed[i] in claimed && Owners(owned, claims)[claimed[i].id] == c;
      }
    }
  }

  lemma BatchOnFields(active: map<TaskId, SlotData>, live: map<TaskId, Task>, queue: seq<Task>, maxSlots: nat, now: int,
                      owned: map<TaskId, Task>, slots: map<TaskId, SlotData>, rows: map<TaskId, Task>, claimed: seq<Task>)
    requires ClaimedFrom(active, live, queue, maxSlots, now, slots, rows, claimed) && Owned(active, owned) && DistinctIds(queue)
    requires Keyed(live) && SlotInvariant(slots, maxSlots)
    ensures var owners := Owners(owned, Claims(active, live, queue, maxSlots));
            && EachClaimed(live, queue, now, slots, rows, owners, claimed)
            && RestKept(active, live, slots, rows, claimed)
            && NobodySkipped(active, live, queue, maxSlots, owned, owners, claimed)
            && Owned(slots, owners) && Exclusive(slots, owners) && Keyed(rows)
  {
    var claims := Claims(active, live, queue, maxSlots);
    EachIsClaimed(active, live, queue, maxSlots, now, owned, slots, rows, claimed);
    TheRestIsKept(active, live, queue, maxSlots, now, owned, slots, rows, claimed);
    NobodyIsSkipped(active, live, queue, maxSlots, owned, claimed);
    ClaimsAreOwned(active, owned, claims, now + SLOT_TTL);
    SlotsAreExclusive(slots, Owners(owned, claims), maxSlots);
  }

  // ── The two loops of claimBatch, one turn at a time ───────────────────────

  ghost predicate Lists(listed: seq<SlotData>, slots: map<TaskId, SlotData>) {
    && |listed| == |slots|
    && (forall s :: s in listed ==> s.Slot?)
    && (set s | s in listed && s.Slot? :: s.resourceKey) == HeldKeys(slots)
  }

  /** Entries outside `pending` have been looked at. */
  ghost predicate EvictState(was: map<TaskId, SlotData>, rowsWere: map<TaskId, Task>, pending: set<TaskId>,
                             slots: map<TaskId, SlotData>, rows: map<TaskId, Task>, listed: seq<SlotData>, now: int)
  {
    && pending <= slots.Keys <= was.Keys
    && (forall t :: t in was ==> (t in slots <==> t in pending || (was[t].Slot? && now <= was[t].expiresAt)))
    && (forall t :: t in slots ==> slots[t] == was[t])
    && rows.Keys == rowsWere.Keys
    && (forall t :: t in rows ==> rows[t] == if t in was && t !in pending && Expired(was[t], now)
                                             then AfterExpiry(rowsWere[t], now) else rowsWere[t])
    && Lists(listed, slots - pending)
  }

  lemma KeepOne(was: map<TaskId, SlotData>, rowsWere: map<TaskId, Task>, pending: set<TaskId>, t: TaskId,
                slots: map<TaskId, SlotData>, rows: map<TaskId, Task>, listed: seq<SlotData>, now: int)
    requires EvictState(was, rowsWere, pending, slots, rows, listed, now) && t in pending
    requires slots[t].Slot? && now <= slots[t].expiresAt
    ensures EvictState(was, rowsWere, pending - {t}, slots, rows, listed + [slots[t]], now)
  {
    ListOneMore(listed, slots - pending, t, slots[t]);
    assert slots - (pending - {t}) == (slots - pending)[t := slots[t]];
  }

  lemma DropOne(was: map<TaskId, SlotData>, rowsWere: map<TaskId, Task>, pending: set<TaskId>, t: TaskId,
                slots: map<TaskId, SlotData>, rows: map<TaskId, Task>, listed: seq<SlotData>, now: int)
    requires EvictState(was, rowsWere, pending, slots, rows, listed, now) && t in pending
    requires !(slots[t].Slot? && now <= slots[t].expiresAt)
    ensures EvictState(was, rowsWere, pending - {t}, slots - {t},
                       if slots[t].Slot? && t in rows then rows[t := AfterExpiry(rows[t], now)] else rows, listed, now)
  {
    assert (slots - {t}) - (pending - {t}) == slots - pending;
  }

  lemma EvictDone(was: map<TaskId, SlotData>, rowsWere: map<TaskId, Task>,
                  slots: map<TaskId, SlotData>, rows: map<TaskId, Task>, listed: seq<SlotData>, now: int)
    requires EvictState(was, rowsWere, {}, slots, rows, listed, now)
    ensures slots == Unexpired(was, now)
    ensures rows == RowsAfterExpiry(was, rowsWere, now)
    ensures Lists(listed, slots)
  {
    assert slots - {} == slots;
  }

  lemma ListOneMore(listed: seq<SlotData>, slots: map<TaskId, SlotData>, t: TaskId, data: SlotData)
    requires Lists(listed, slots) && t !in slots && data.Slot?
    ensures Lists(listed + [data], slots[t := data])
  {
    var keys := set s | s in listed && s.Slot? :: s.resourceKey;
    assert (set s | s in listed + [data] && s.Slot? :: s.resourceKey) == keys + {data.resourceKey};
    var slots' := slots[t := data];
    assert HeldKeys(slots') == HeldKeys(slots) + {data.resourceKey} by {
      assert t in slots' && slots'[t] == data;
      assert forall u :: u in slots ==> u in slots' && slots'[u] == slots[u];
    }
  }

  datatype Progress = Progress(slots: map<TaskId, SlotData>, rows: map<TaskId, Task>, claims: seq<Task>,
                               claimed: seq<Task>, held: set<ResourceKey>)

  ghost predicate Returned(claimed: seq<Task>, claims: seq<Task>, rows: map<TaskId, Task>) {
    && |claimed| == |claims|
    && forall i :: 0 <= i < |claims| ==> claims[i].id in rows && claimed[i] == rows[claims[i].id]
  }

  ghost predicate From(claims: seq<Task>, queue: seq<Task>, i: nat) {
    i <= |queue| && forall c :: c in claims ==> exists j :: 0 <= j < i && queue[j].id == c.id
  }

  ghost predicate GreedyProgressed(start: Progress, p: Progress, queue: seq<Task>, i: nat, room: nat) {
    && i <= |queue| && |p.claims| <= room
    && p.claims + Greedy(queue[i..], OpenTasks(start.rows), p.held, room - |p.claims|)
       == Greedy(queue, OpenTasks(start.rows), start.held, room)
    && From(p.claims, queue, i)
  }

  ghost predicate SlotsProgressed(start: Progress, p: Progress, room: nat, maxSlots: nat, now: int) {
    && p.slots == WithClaims(start.slots, p.claims, now + SLOT_TTL)
    && SlotInvariant(p.slots, maxSlots) && |p.slots| + room <= maxSlots + |p.claims|
    && HeldKeys(p.slots) <= p.held
  }

  ghost predicate RowsProgressed(start: Progress, p: Progress) {
    p.rows == RowsWithClaims(start.rows, p.claims) && Returned(p.claimed, p.claims, p.rows)
  }

  ghost predicate Progressed(start: Progress, p: Progress, queue: seq<Task>, i: nat, room: nat, maxSlots: nat, now: int) {
    GreedyProgressed(start, p, queue, i, room) && SlotsProgressed(start, p, room, maxSlots, now) && RowsProgressed(start, p)
  }

  function Taken(p: Progress, task: Task, now: int): Progress
    requires task.id in p.rows
  {
    var row := p.rows[task.id].(status := Claimed);
    Progress(p.slots[task.id := Slot(GetResourceKey(task), now + SLOT_TTL)], p.rows[task.id := row],
             p.claims + [task], p.claimed + [row], p.held + {GetResourceKey(task)})
  }

  lemma FirstTurn(start: Progress, queue: seq<Task>, room: nat, maxSlots: nat, now: int)
    requires start.claims == [] && start.claimed == []
    requires SlotInvariant(start.slots, maxSlots) && |start.slots| + room <= maxSlots && HeldKeys(start.slots) <= start.held
    ensures Progressed(start, start, queue, 0, room, maxSlots, now)
  {
    assert start.rows == RowsWithClaims(start.rows, []);
    assert queue[0..] == queue;
  }

  lemma SkipOne(start: Progress, p: Progress, queue: seq<Task>, i: nat, room: nat, maxSlots: nat, now: int)
    requires Progressed(start, p, queue, i, room, maxSlots, now) && i < |queue| && DistinctIds(queue)
    requires !(Admissible(queue[i], p.held) && queue[i].id in p.rows && p.rows[queue[i].id].status == Queued)
    ensures Progressed(start, p, queue, i + 1, room, maxSlots, now)
  {
    assert queue[i..][1..] == queue[i + 1..];
    NotYetClaimed(start, p, queue, i, room);
  }

  lemma TakeOne(start: Progress, p: Progress, queue: seq<Task>, i: nat, room: nat, maxSlots: nat, now: int)
    requires Progressed(start, p, queue, i, room, maxSlots, now) && i < |queue| && DistinctIds(queue)
    requires |p.claims| < room && Admissible(queue[i], p.held)
    requires queue[i].id in p.rows && p.rows[queue[i].id].status == Queued
    ensures Progressed(start, Taken(p, queue[i], now), queue, i + 1, room, maxSlots, now)
  {
    NotYetClaimed(start, p, queue, i, room);
    TakeGreedy(start, p, queue, i, room, now);
    TakeSlots(start, p, queue[i], room, maxSlots, now);
    RowsWithClaimsSnoc(start.rows, p.claims, queue[i]);
    ReturnedSnoc(p.claimed, p.claims, p.rows, queue[i]);
  }

  lemma TakeSlots(start: Progress, p: Progress, task: Task, room: nat, maxSlots: nat, now: int)
    requires SlotsProgressed(start, p, room, maxSlots, now) && |p.claims| < room
    requires Admissible(task, p.held) && task.id in p.rows
    ensures SlotsProgressed(start, Taken(p, task, now), room, maxSlots, now)
  {
    ClaimKeepsInvariant(p.slots, maxSlots, task.id, GetResourceKey(task), now + SLOT_TTL);
    WithClaimsSnoc(start.slots, p.claims, task, now + SLOT_TTL);
  }

  lemma NotYetClaimed(start: Progress, p: Progress, queue: seq<Task>, i: nat, room: nat)
    requires GreedyProgressed(start, p, queue, i, room) && RowsProgressed(start, p) && i < |queue| && DistinctIds(queue)
    ensures forall c :: c in p.claims ==> c.id != queue[i].id
    ensures queue[i].id in p.rows <==> queue[i].id in start.rows
    ensures queue[i].id in p.rows ==> p.rows[queue[i].id] == start.rows[queue[i].id]
  {
  }

  lemma TakeGreedy(start: Progress, p: Progress, queue: seq<Task>, i: nat, room: nat, now: int)
    requires GreedyProgressed(start, p, queue, i, room) && i < |queue|
    requires |p.claims| < room && Admissible(queue[i], p.held)
    requires queue[i].id in start.rows && start.rows[queue[i].id].status == Queued && queue[i].id in p.rows
    ensures GreedyProgressed(start, Taken(p, queue[i], now), queue, i + 1, room)
  {
    assert queue[i..][1..] == queue[i + 1..];
    var open := OpenTasks(start.rows);
    assert queue[i].id in open;
    var tail := Greedy(queue[i + 1..], open, p.held + {GetResourceKey(queue[i])}, room - |p.claims| - 1);
    assert Greedy(queue[i..], open, p.held, room - |p.claims|) == [queue[i]] + tail;
    assert p.claims + ([queue[i]] + tail) == (p.claims + [queue[i]]) + tail;
    forall c | c in p.claims + [queue[i]]
      ensures exists j :: 0 <= j < i + 1 && queue[j].id == c.id
    {
      if c !in p.claims {
        assert queue[i].id == c.id;
      }
    }
  }

  /** The loop ends with its queue or its room used up. */
  lemma AllTaken(start: Progress, p: Progress, queue: seq<Task>, i: nat, room: nat, maxSlots: nat, now: int)
    requires GreedyProgressed(start, p, queue, i, room) && (i == |queue| || |p.claims| >= room)
    requires SlotsProgressed(start, p, room, maxSlots, now) && RowsProgressed(start, p)
    requires room > 0 && |start.slots| + room == maxSlots && start.held == HeldKeys(start.slots)
    ensures ClaimedFrom(start.slots, start.rows, queue, maxSlots, now, p.slots, p.rows, p.claimed)
  {
    assert p.claims == Claims(start.slots, start.rows, queue, maxSlots);
  }

  lemma ReturnedSnoc(claimed: seq<Task>, claims: seq<Task>, rows: map<TaskId, Task>, task: Task)
    requires Returned(claimed, claims, rows) && task.id in rows && forall c :: c in claims ==> c.id != task.id
    ensures var rows' := rows[task.id := rows[task.id].(status := Claimed)];
            Returned(claimed + [rows'[task.id]], claims + [task], rows')
  {
  }

  lemma NothingClaimed(active: map<TaskId, SlotData>, live: map<TaskId, Task>, queue: seq<Task>, maxSlots: nat, now: int)
    requires |active| >= maxSlots
    ensures ClaimedFrom(active, live, queue, maxSlots, now, active, live, [])
  {
    assert live == RowsWithClaims(live, []);
  }

  lemma UnexpiredKeepsInvariant(slots: map<TaskId, SlotData>, now: int, maxSlots: nat)
    requires SlotInvariant(slots, maxSlots)
    ensures SlotInvariant(Unexpired(slots, now), maxSlots)
  {
    SubsetCount(Unexpired(slots, now).Keys, slots.Keys);
  }

  lemma ClaimKeepsInvariant(slots: map<TaskId, SlotData>, maxSlots: nat, id: TaskId, key: ResourceKey, expiresAt: int)
    requires SlotInvariant(slots, maxSlots) && |slots| < maxSlots
    requires key.TaskKey? || key !in HeldKeys(slots)
    ensures SlotInvariant(slots[id := Slot(key, expiresAt)], maxSlots)
    ensures |slots[id := Slot(key, expiresAt)]| <= |slots| + 1
    ensures HeldKeys(slots[id := Slot(key, expiresAt)]) <= HeldKeys(slots) + {key}
  {
    var slots' := slots[id := Slot(key, expiresAt)];
    assert slots'.Keys == slots.Keys + {id};
    forall t | t in slots && slots[t].Slot?
      ensures slots[t].resourceKey in HeldKeys(slots)
    {
    }
  }

  lemma {:induction false} WithClaimsSnoc(slots: map<TaskId, SlotData>, claims: seq<Task>, task: Task, expiresAt: int)
    ensures WithClaims(slots, claims + [task], expiresAt) == WithClaims(slots, claims, expiresAt)[task.id := Slot(GetResourceKey(task), expiresAt)]
    decreases |claims|
  {
    if claims == [] {
      assert [] + [task] == [task];
      assert [task][1..] == [];
    } else {
      assert (claims + [task])[1..] == claims[1..] + [task];
      WithClaimsSnoc(slots[claims[0].id := Slot(GetResourceKey(claims[0]), expiresAt)], claims[1..], task, expiresAt);
    }
  }

  lemma RowsWithClaimsSnoc(rows: map<TaskId, Task>, claims: seq<Task>, task: Task)
    requires task.id in rows
    ensures RowsWithClaims(rows, claims + [task]) == RowsWithClaims(rows, claims)[task.id := rows[task.id].(status := Claimed)]
  {
    var rows' := RowsWithClaims(rows, claims + [task]);
    assert forall c :: c in claims + [task] <==> c in claims || c == task;
    assert task in claims + [task];
  }

  // ── Heartbeats ────────────────────────────────────────────────────────────

  datatype LeaseEvent = Beat(at: int) | Scan(at: int)

  /** Replays heartbeats and `claimBatch` scans over one slot; false once a scan evicts it. */
  function Survives(expiresAt: int, events: seq<LeaseEvent>): bool
    decreases |events|
  {
    if events == [] then true
    else match events[0]
      case Beat(at) => Survives(at + SLOT_TTL, events[1..])
      case Scan(at) => !Expired(Slot(TaskKey(0), expiresAt), at) && Survives(expiresAt, events[1..])
  }

  function LastBeat(claimedAt: int, events: seq<LeaseEvent>): int {
    if events == [] then claimedAt
    else match events[|events| - 1]
      case Beat(at) => at
      case Scan(_) => LastBeat(claimedAt, events[..|events| - 1])
  }

  /** A claimed slot is evicted exactly when some scan comes more than the TTL after the beat before it. */
  lemma {:induction false} SurvivesIffBeatsKeepUp(claimedAt: int, events: seq<LeaseEvent>)
    ensures Survives(claimedAt + SLOT_TTL, events) <==>
            forall i :: 0 <= i < |events| && events[i].Scan? ==> events[i].at <= LastBeat(claimedAt, events[..i]) + 90_000
    decreases |events|
  {
    if events != [] {
      var rest := events[1..];
      var base := if events[0].Beat? then events[0].at else claimedAt;
      SurvivesIffBeatsKeepUp(base, rest);
      forall i | 0 <= i < |rest|
        ensures LastBeat(claimedAt, events[..i + 1]) == LastBeat(base, rest[..i])
      {
        LastBeatShift(claimedAt, events[..i + 1]);
        assert events[..i + 1][1..] == rest[..i];
      }
      if forall i :: 0 <= i < |events| && events[i].Scan? ==> events[i].at <= LastBeat(claimedAt, events[..i]) + SLOT_TTL {
        forall i | 0 <= i < |rest| && rest[i].Scan?
          ensures rest[i].at <= LastBeat(base, rest[..i]) + SLOT_TTL
        {
          assert rest[i] == events[i + 1];
        }
        assert events[..0] == [];
      }
      if Survives(claimedAt + SLOT_TTL, events) {
        forall i | 0 <= i < |events| && events[i].Scan?
          ensures events[i].at <= LastBeat(claimedAt, events[..i]) + SLOT_TTL
        {
          if i == 0 {
            assert events[..0] == [];
          } else {
            assert rest[i - 1] == events[i];
          }
        }
      }
    }
  }

  lemma {:induction false} LastBeatShift(claimedAt: int, events: seq<LeaseEvent>)
    requires events != []
    ensures LastBeat(claimedAt, events) == LastBeat(if events[0].Beat? then events[0].at else claimedAt, events[1..])
    decreases |events|
  {
    if |events| > 1 {
      assert events[1..][|events| - 2] == events[|events| - 1];
      assert events[1..][..|events| - 2] == events[..|events| - 1][1..];
      LastBeatShift(claimedAt, events[..|events| - 1]);
    }
  }
}
