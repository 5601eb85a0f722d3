/**
 Firing of scheduled jobs, apps/api/src/cron-dispatch.ts. A tick reads the due
 rows, dispatches each, then writes its state back; ticks of one or several
 processes may overlap between the read and the write, and the write may fail.
 */
module CronDispatch {
  import opened Wrappers

  datatype Status = Success | Failure

  datatype Job = Job(id: string, internalHandler: bool, schedule: Option<string>, enabled: bool, nextRunAt: Option<int>,
                     lastRunAt: Option<int>, lastRunStatus: Option<Status>, failures: nat)

  /** The cron parser: the next occurrence after a time, and which times are occurrences. */
  datatype Cron = Cron(next: (string, int) -> Option<int>, occurs: (string, int) -> bool)

  ghost predicate Faithful(c: Cron) {
    forall s: string, t: int :: c.next(s, t).Some? ==> c.next(s, t).value > t && c.occurs(s, c.next(s, t).value)
  }

  ghost predicate ValidSchedule(c: Cron, s: string) {
    s != "" && forall t: int :: c.next(s, t).Some?
  }

  /** An absent or empty schedule has no next run. */
  function NextRunAfter(c: Cron, schedule: Option<string>, after: int): Option<int> {
    if schedule.None? || schedule.value == "" then None else c.next(schedule.value, after)
  }

  predicate Due(j: Job, now: int) {
    j.enabled && (j.nextRunAt.Some? ==> j.nextRunAt.value <= now)
  }

  /** The columns written after a dispatch: counted from the row as it was read. */
  function Advance(c: Cron, row: Job, read: Job, now: int, ok: bool): Job {
    if read.internalHandler then
      var next := NextRunAfter(c, read.schedule, now);
      if next.Some? then row.(nextRunAt := next) else row
    else if !ok then
      var failures := read.failures + 1;
      var halted := read.schedule.None? && failures >= 3;
      row.(lastRunAt := Some(now), lastRunStatus := Some(Failure), failures := failures, enabled := row.enabled && !halted)
    else if read.schedule.None? then
      row.(lastRunAt := Some(now), lastRunStatus := Some(Success), failures := 0, enabled := false, nextRunAt := None)
    else
      row.(lastRunAt := Some(now), lastRunStatus := Some(Success), failures := 0,
           nextRunAt := NextRunAfter(c, read.schedule, now))
  }

  /**
   The columns of a row after a dispatch of the job as it was read: a job of the
   in-process scheduler only moves to its next time; any other is stamped, its
   failures in a row counted, and moved on only when it succeeds. Only a one-shot
   job is ever disabled: when it has succeeded, or failed three times.
   */
  ghost predicate Dispatched(c: Cron, row: Job, read: Job, job: Job, now: int, ok: bool) {
    var planned := read.schedule.Some? && read.schedule.value != "";
    && job.id == row.id && job.internalHandler == row.internalHandler && job.schedule == row.schedule
    && job.enabled == (row.enabled && (read.internalHandler || read.schedule.Some? || (!ok && read.failures < 2)))
    && job.lastRunAt == (if read.internalHandler then row.lastRunAt else Some(now))
    && job.lastRunStatus == (if read.internalHandler then row.lastRunStatus else if ok then Some(Success) else Some(Failure))
    && job.failures == (if read.internalHandler then row.failures else if ok then 0 else read.failures + 1)
    && job.nextRunAt == if read.internalHandler then
                          (if planned && c.next(read.schedule.value, now).Some? then c.next(read.schedule.value, now) else row.nextRunAt)
                        else if !ok then row.nextRunAt
                        else if planned then c.next(read.schedule.value, now) else None
  }

  lemma AdvanceDispatches(c: Cron, row: Job, read: Job, now: int, ok: bool)
    ensures Dispatched(c, row, read, Advance(c, row, read, now, ok), now, ok)
  {
  }

  // ── One tick ──────────────────────────────────────────────────────────────

  const MAX_JOBS_PER_TICK: nat := 50

  function DueIn(table: map<string, Job>, order: seq<string>, now: int): seq<string> {
    if order == [] then []
    else (if order[0] in table && Due(table[order[0]], now) then [order[0]] else []) + DueIn(table, order[1..], now)
  }

  /** The due jobs a tick takes, in the order the database scans them. */
  function Taken(table: map<string, Job>, order: seq<string>, now: int): (ids: seq<string>)
    ensures |ids| <= MAX_JOBS_PER_TICK
  {
    var due := DueIn(table, order, now);
    if |due| > MAX_JOBS_PER_TICK then due[..MAX_JOBS_PER_TICK] else due
  }

  lemma {:induction false} DueInOrder(table: map<string, Job>, order: seq<string>, now: int)
    requires forall i, j :: 0 <= i < j < |order| ==> order[i] != order[j]
    ensures var due := DueIn(table, order, now);
            && (forall i, j :: 0 <= i < j < |due| ==> due[i] != due[j])
            && (forall id :: id in due <==> id in order && id in table && Due(table[id], now))
  {
    if order != [] {
      DueInOrder(table, order[1..], now);
      assert order == [order[0]] + order[1..];
    }
  }

  lemma Regroup(a: seq<string>, b: seq<string>, one: seq<string>, d: seq<string>)
    ensures a + (b + one + d) == a + b + one + d
  {
  }

  /** Scanned in order: enabled jobs whose time is absent or has come, and of those the first fifty. */
  lemma {:induction false} TakenInOrder(table: map<string, Job>, first: seq<string>, id: string, later: seq<string>, now: int)
    ensures DueIn(table, first + [id] + later, now)
      == DueIn(table, first, now)
         + (if id in table && table[id].enabled && (table[id].nextRunAt.None? || table[id].nextRunAt.value <= now) then [id] else [])
         + DueIn(table, later, now)
    ensures var due := DueIn(table, first, now); Taken(table, first, now) == if |due| <= 50 then due else due[..50]
  {
    if first == [] {
      assert first + [id] + later == [id] + later;
      assert ([id] + later)[1..] == later;
    } else {
      TakenInOrder(table, first[1..], id, later, now);
      assert (first + [id] + later)[1..] == first[1..] + [id] + later;
      var head := if first[0] in table && Due(table[first[0]], now) then [first[0]] else [];
      var one := if id in table && Due(table[id], now) then [id] else [];
      Regroup(head, DueIn(table, first[1..], now), one, DueIn(table, later, now));
    }
  }

  /** Jobs of `done` have moved on, the others are as they were. */
  ghost predicate Advanced(c: Cron, before: map<string, Job>, jobs: map<string, Job>, done: seq<string>, now: int,
                           succeeds: string -> bool)
  {
    && jobs.Keys == before.Keys
    && forall id :: id in jobs ==>
         jobs[id] == if id in done then Advance(c, before[id], before[id], now, succeeds(id)) else before[id]
  }

  lemma AdvanceOne(c: Cron, before: map<string, Job>, jobs: map<string, Job>, taken: seq<string>, k: nat, now: int,
                   succeeds: string -> bool)
    requires k < |taken| && Advanced(c, before, jobs, taken[..k], now, succeeds)
    requires taken[k] in before && taken[k] !in taken[..k]
    ensures var id := taken[k];
            Advanced(c, before, jobs[id := Advance(c, jobs[id], jobs[id], now, succeeds(id))], taken[..k + 1], now, succeeds)
  {
    assert taken[..k + 1] == taken[..k] + [taken[k]];
  }

  lemma TakenAreDue(table: map<string, Job>, order: seq<string>, now: int)
    requires forall i, j :: 0 <= i < j < |order| ==> order[i] != order[j]
    ensures var taken := Taken(table, order, now);
            && (forall i :: 0 <= i < |taken| ==> taken[i] in table && taken[i] !in taken[..i])
            && (forall id :: id in taken ==> id in order && Due(table[id], now))
  {
    DueInOrder(table, order, now);
    var due, taken := DueIn(table, order, now), Taken(table, order, now);
    assert forall i :: 0 <= i < |taken| ==> taken[i] == due[i] && taken[i] in due;
  }

  class CronTable {
    var jobs: map<string, Job>

    constructor (jobs: map<string, Job>)
      ensures this.jobs == jobs
    {
      this.jobs := jobs;
    }

    /**
     A tick with nothing beside it. Dispatching a job succeeds or fails as
     `succeeds` says; every job taken moves to its next state, no other does.
     */
    method DispatchDueJobs(c: Cron, order: seq<string>, now: int, succeeds: string -> bool)
      requires forall i, j :: 0 <= i < j < |order| ==> order[i] != order[j]
      modifies this
      ensures Advanced(c, old(jobs), jobs, Taken(old(jobs), order, now), now, succeeds)
      ensures jobs.Keys == old(jobs).Keys
      ensures forall id :: id in jobs ==>
                if id in Taken(old(jobs), order, now) then Dispatched(c, old(jobs)[id], old(jobs)[id], jobs[id], now, succeeds(id))
                else jobs[id] == old(jobs)[id]
    {
      TakenAreDue(jobs, order, now);
      var taken := Taken(jobs, order, now);
      ghost var before := jobs;
      for k := 0 to |taken|
        invariant Advanced(c, before, jobs, taken[..k], now, succeeds)
      {
        var id := taken[k];
        AdvanceOne(c, before, jobs, taken, k, now, succeeds);
        jobs := jobs[id := Advance(c, jobs[id], jobs[id], now, succeeds(id))];
      }
      assert taken[..|taken|] == taken;
      forall id | id in taken
        ensures Dispatched(c, before[id], before[id], jobs[id], now, succeeds(id))
      {
        AdvanceDispatches(c, before[id], before[id], now, succeeds(id));
      }
    }
  }

  // ── Runs of one job ───────────────────────────────────────────────────────

  /** A tick that has read the row at `now` and not yet written it. */
  datatype Flight = Flight(read: Job, now: int)

  /** The row, the ticks under way, the time reached, and what was dispatched: successes, attempts, failures since the last success. */
  datatype State = State(row: Job, flights: map<int, Flight>, clock: int, successes: seq<int>, attempts: nat, failedSince: nat)

  datatype Action =
    | Query(tick: int, now: int)
    | Finish(tick: int, ok: bool, written: bool)
    | InitNextRunAt(now: int)

  predicate Enabled(s: State, a: Action) {
    match a
    case Query(tick, now) => tick !in s.flights && s.clock <= now && Due(s.row, now)
    case Finish(tick, _, _) => tick in s.flights
    case InitNextRunAt(now) => s.clock <= now
  }

  function Apply(c: Cron, s: State, a: Action): State
    requires Enabled(s, a)
  {
    match a
    case Query(tick, now) => s.(flights := s.flights[tick := Flight(s.row, now)], clock := now)
    case Finish(tick, ok, written) =>
      var f := s.flights[tick];
      var fired := !f.read.internalHandler;
      State(if written then Advance(c, s.row, f.read, f.now, ok) else s.row, s.flights - {tick}, s.clock,
            if fired && ok then s.successes + [f.now] else s.successes, s.attempts + (if fired then 1 else 0),
            if !fired then s.failedSince else if ok then 0 else s.failedSince + 1)
    case InitNextRunAt(now) =>
      var next := NextRunAfter(c, s.row.schedule, now);
      s.(clock := now, row := if s.row.enabled && s.row.nextRunAt.None? && next.Some? then s.row.(nextRunAt := next) else s.row)
  }

  ghost predicate Runs(c: Cron, s: State, run: seq<Action>, t: State)
    decreases |run|
  {
    if run == [] then s == t else Enabled(s, run[0]) && Runs(c, Apply(c, s, run[0]), run[1..], t)
  }

  /** Ticks do not overlap on the job and every write succeeds. */
  predicate Careful(s: State, a: Action) {
    match a
    case Query(_, _) => s.flights == map[]
    case Finish(_, _, written) => written
    case InitNextRunAt(_) => true
  }

  ghost predicate CarefulRun(c: Cron, s: State, run: seq<Action>, t: State)
    decreases |run|
  {
    if run == [] then s == t
    else Enabled(s, run[0]) && Careful(s, run[0]) && CarefulRun(c, Apply(c, s, run[0]), run[1..], t)
  }

  /** A job nobody has tried yet. */
  predicate Initial(s: State) {
    && s.flights == map[] && s.successes == [] && s.attempts == 0 && s.failedSince == 0
    && s.row.failures == 0 && !s.row.internalHandler
  }

  ghost predicate CountedInv(s: State) {
    && !s.row.internalHandler && s.row.failures == s.failedSince
    && (forall i :: i in s.flights ==> !s.flights[i].read.internalHandler && s.flights[i].read.failures == s.failedSince)
    && (forall i, j :: i in s.flights && j in s.flights ==> i == j)
  }

  lemma {:induction false} CountedRun(c: Cron, s: State, run: seq<Action>, t: State)
    requires CountedInv(s) && CarefulRun(c, s, run, t)
    ensures CountedInv(t)
    decreases |run|
  {
    if run != [] {
      assert CountedInv(Apply(c, s, run[0]));
      CountedRun(c, Apply(c, s, run[0]), run[1..], t);
    }
  }

  /** The stored counter is the number of failures since the last success, for one-shot and recurring jobs alike. */
  lemma FailuresAreConsecutive(c: Cron, s: State, run: seq<Action>, t: State)
    requires Initial(s) && CarefulRun(c, s, run, t)
    ensures t.row.failures == t.failedSince
  {
    CountedRun(c, s, run, t);
  }

  // ── One-shot jobs ─────────────────────────────────────────────────────────

  ghost predicate OneShotInv(s: State) {
    && s.row.schedule.None? && !s.row.internalHandler
    && |s.successes| <= 1 && s.attempts <= 3
    && (s.row.enabled ==> s.successes == [] && s.attempts == s.row.failures < 3)
    && (!s.row.enabled ==> s.flights == map[])
    && (forall i :: i in s.flights ==> s.flights[i].read == s.row)
    && (forall i, j :: i in s.flights && j in s.flights ==> i == j)
  }

  lemma OneShotStep(c: Cron, s: State, a: Action)
    requires OneShotInv(s) && Enabled(s, a) && Careful(s, a)
    ensures OneShotInv(Apply(c, s, a))
  {
    if a.Finish? {
      assert forall i :: i in s.flights ==> i == a.tick;
      assert s.flights - {a.tick} == map[];
    }
  }

  lemma {:induction false} OneShotRun(c: Cron, s: State, run: seq<Action>, t: State)
    requires OneShotInv(s) && CarefulRun(c, s, run, t)
    ensures OneShotInv(t)
    decreases |run|
  {
    if run != [] {
      OneShotStep(c, s, run[0]);
      OneShotRun(c, Apply(c, s, run[0]), run[1..], t);
    }
  }

  /** A one-shot job succeeds at most once, is tried at most three times, and stops when it has succeeded or failed thrice. */
  lemma OneShotFiresOnce(c: Cron, s: State, run: seq<Action>, t: State)
    requires Initial(s) && s.row.schedule.None? && CarefulRun(c, s, run, t)
    ensures |t.successes| <= 1 && t.attempts <= 3
    ensures s.row.enabled ==> (t.row.enabled <==> t.successes == [] && t.attempts < 3)
  {
    if s.row.enabled {
      OneShotRun(c, s, run, t);
      StopsOnlyWhenDone(c, s, run, t);
    } else {
      OneShotRun(c, s, run, t);
    }
  }

  ghost predicate DoneInv(s: State) {
    OneShotInv(s) && (!s.row.enabled ==> |s.successes| == 1 || s.attempts == 3)
  }

  lemma {:induction false} StopsOnlyWhenDone(c: Cron, s: State, run: seq<Action>, t: State)
    requires DoneInv(s) && CarefulRun(c, s, run, t)
    ensures DoneInv(t)
    decreases |run|
  {
    if run != [] {
      OneShotStep(c, s, run[0]);
      StopsOnlyWhenDone(c, Apply(c, s, run[0]), run[1..], t);
    }
  }

  /** The row, and every tick that has read it, is a one-shot job that is dispatched. */
  predicate OneShot(s: State) {
    && s.row.schedule.None? && !s.row.internalHandler
    && forall i :: i in s.flights ==> s.flights[i].read.schedule.None? && !s.flights[i].read.internalHandler
  }

  /** Some run from here succeeds once more. */
  ghost predicate CanSucceed(c: Cron, s: State) {
    exists run, t :: Runs(c, s, run, t) && |t.successes| > |s.successes|
  }

  lemma {:induction false} IdleNeverSucceeds(c: Cron, s: State, run: seq<Action>, t: State)
    requires !s.row.enabled && s.flights == map[] && Runs(c, s, run, t)
    ensures t.successes == s.successes
    decreases |run|
  {
    if run != [] {
      IdleNeverSucceeds(c, Apply(c, s, run[0]), run[1..], t);
    }
  }

  lemma FlightSucceeds(c: Cron, s: State, tick: int)
    requires tick in s.flights && !s.flights[tick].read.internalHandler
    ensures CanSucceed(c, s)
  {
    var t := Apply(c, s, Finish(tick, true, true));
    assert [Finish(tick, true, true)][1..] == [];
    assert Runs(c, t, [], t);
    assert Runs(c, s, [Finish(tick, true, true)], t);
  }

  lemma EnabledRowSucceeds(c: Cron, s: State, tick: int)
    requires s.row.enabled && !s.row.internalHandler && tick !in s.flights
    ensures CanSucceed(c, s)
  {
    var due := if s.row.nextRunAt.Some? then s.row.nextRunAt.value else s.clock;
    var later := if due > s.clock then due else s.clock;
    var m := Apply(c, s, Query(tick, later));
    FlightSucceeds(c, m, tick);
    var run, t :| Runs(c, m, run, t) && |t.successes| > |m.successes|;
    assert ([Query(tick, later)] + run)[1..] == run;
    assert Runs(c, s, [Query(tick, later)] + run, t);
  }

  /**
   After a success, a one-shot job can succeed again exactly when the write that
   should have disabled its row was lost, or another tick has read the row too.
   */
  lemma MayFireAgainIff(c: Cron, s: State, tick: int, written: bool)
    requires OneShot(s) && Enabled(s, Finish(tick, true, written))
    ensures CanSucceed(c, Apply(c, s, Finish(tick, true, written)))
      <==> (!written && s.row.enabled) || exists i :: i in s.flights && i != tick
  {
    var s' := Apply(c, s, Finish(tick, true, written));
    if i :| i in s.flights && i != tick {
      FlightSucceeds(c, s', i);
    } else if !written && s.row.enabled {
      EnabledRowSucceeds(c, s', tick);
    } else {
      assert forall i :: i in s.flights ==> i == tick;
      assert s'.flights == map[];
      forall run, t | Runs(c, s', run, t)
        ensures t.successes == s'.successes
      {
        IdleNeverSucceeds(c, s', run, t);
      }
    }
  }

  /** Every due one-shot job can fire twice if a write is lost, and twice if two ticks overlap. */
  lemma LostOrOverlappingTicksFireTwice(c: Cron, s: State, now: int, later: int)
    requires Initial(s) && s.row.schedule.None? && Due(s.row, now) && s.clock <= now <= later
    ensures exists t :: Runs(c, s, [Query(0, now), Finish(0, true, false), Query(1, later), Finish(1, true, true)], t)
                        && |t.successes| == 2
    ensures exists t :: Runs(c, s, [Query(0, now), Query(1, later), Finish(0, true, true), Finish(1, true, true)], t)
                        && |t.successes| == 2
  {
    var q := Apply(c, s, Query(0, now));
    var lost := Apply(c, q, Finish(0, true, false));
    var t := Apply(c, Apply(c, lost, Query(1, later)), Finish(1, true, true));
    RunsFour(c, s, Query(0, now), Finish(0, true, false), Query(1, later), Finish(1, true, true));
    var both := Apply(c, q, Query(1, later));
    var u := Apply(c, Apply(c, both, Finish(0, true, true)), Finish(1, true, true));
    RunsFour(c, s, Query(0, now), Query(1, later), Finish(0, true, true), Finish(1, true, true));
  }

  lemma RunsFour(c: Cron, s: State, a0: Action, a1: Action, a2: Action, a3: Action)
    requires Enabled(s, a0)
    requires Enabled(Apply(c, s, a0), a1)
    requires Enabled(Apply(c, Apply(c, s, a0), a1), a2)
    requires Enabled(Apply(c, Apply(c, Apply(c, s, a0), a1), a2), a3)
    ensures Runs(c, s, [a0, a1, a2, a3], Apply(c, Apply(c, Apply(c, Apply(c, s, a0), a1), a2), a3))
  {
    assert [a0, a1, a2, a3][1..] == [a1, a2, a3];
    assert [a1, a2, a3][1..] == [a2, a3];
    assert [a2, a3][1..] == [a3];
    assert [a3][1..] == [];
    var s1 := Apply(c, s, a0);
    var s2 := Apply(c, s1, a1);
    var s3 := Apply(c, s2, a2);
    var s4 := Apply(c, s3, a3);
    assert Runs(c, s4, [], s4);
    assert Runs(c, s3, [a3], s4);
    assert Runs(c, s2, [a2, a3], s4);
    assert Runs(c, s1, [a1, a2, a3], s4);
  }

  // ── Recurring jobs ────────────────────────────────────────────────────────

  /** A recurring job is never disabled by its dispatches, however they overlap and whatever they fail at. */
  lemma {:induction false} RecurringStaysEnabled(c: Cron, s: State, run: seq<Action>, t: State)
    requires s.row.schedule.Some? && forall i :: i in s.flights ==> s.flights[i].read.schedule.Some?
    requires Runs(c, s, run, t)
    ensures t.row.enabled == s.row.enabled && t.row.schedule == s.row.schedule
    decreases |run|
  {
    if run != [] {
      RecurringStaysEnabled(c, Apply(c, s, run[0]), run[1..], t);
    }
  }

  /** An occurrence after t, no later than u. */
  ghost predicate OccursBetween(c: Cron, schedule: string, t: int, u: int) {
    exists o :: t < o <= u && c.occurs(schedule, o)
  }

  ghost predicate Spaced(c: Cron, schedule: string, times: seq<int>) {
    forall i :: 0 < i < |times| ==> OccursBetween(c, schedule, times[i - 1], times[i])
  }

  ghost predicate RecurringInv(c: Cron, schedule: string, s: State) {
    && s.row.schedule == Some(schedule) && !s.row.internalHandler
    && Spaced(c, schedule, s.successes)
    && (forall i :: i in s.flights ==>
          s.flights[i].read.schedule == Some(schedule) && !s.flights[i].read.internalHandler && s.flights[i].now <= s.clock)
    && (forall i, j :: i in s.flights && j in s.flights ==> i == j)
    && (s.successes != [] ==>
          var last := s.successes[|s.successes| - 1];
          && s.row.nextRunAt.Some? && s.row.nextRunAt.value > last && c.occurs(schedule, s.row.nextRunAt.value)
          && forall i :: i in s.flights ==> OccursBetween(c, schedule, last, s.flights[i].now))
  }

  lemma RecurringStep(c: Cron, schedule: string, s: State, a: Action)
    requires Faithful(c) && ValidSchedule(c, schedule) && RecurringInv(c, schedule, s) && Enabled(s, a) && Careful(s, a)
    ensures RecurringInv(c, schedule, Apply(c, s, a))
  {
  }

  lemma {:induction false} RecurringRun(c: Cron, schedule: string, s: State, run: seq<Action>, t: State)
    requires Faithful(c) && ValidSchedule(c, schedule) && RecurringInv(c, schedule, s) && CarefulRun(c, s, run, t)
    ensures RecurringInv(c, schedule, t)
    decreases |run|
  {
    if run != [] {
      RecurringStep(c, schedule, s, run[0]);
      RecurringRun(c, schedule, Apply(c, s, run[0]), run[1..], t);
    }
  }

  /** Between any two successes of a validly scheduled job lies an occurrence of its schedule. */
  lemma OccurrenceBetweenFires(c: Cron, s: State, run: seq<Action>, t: State, i: nat, j: nat)
    requires Faithful(c) && Initial(s) && s.row.schedule.Some? && ValidSchedule(c, s.row.schedule.value)
    requires CarefulRun(c, s, run, t) && i < j < |t.successes|
    ensures OccursBetween(c, s.row.schedule.value, t.successes[i], t.successes[j])
  {
    var schedule := s.row.schedule.value;
    RecurringRun(c, schedule, s, run, t);
    SpacedPairs(c, schedule, t.successes, i, j);
  }

  lemma {:induction false} SpacedPairs(c: Cron, schedule: string, times: seq<int>, i: nat, j: nat)
    requires Spaced(c, schedule, times) && i < j < |times|
    ensures OccursBetween(c, schedule, times[i], times[j])
    decreases j
  {
    if i < j - 1 {
      SpacedPairs(c, schedule, times, i, j - 1);
      var o :| times[i] < o <= times[j - 1] && c.occurs(schedule, o);
      assert OccursBetween(c, schedule, times[j - 1], times[j]);
    }
  }

  /** A job kept for an internal handler is never dispatched. */
  lemma {:induction false} InternalNeverFires(c: Cron, s: State, run: seq<Action>, t: State)
    requires s.row.internalHandler && (forall i :: i in s.flights ==> s.flights[i].read.internalHandler)
    requires Runs(c, s, run, t)
    ensures t.successes == s.successes && t.attempts == s.attempts
    decreases |run|
  {
    if run != [] {
      InternalNeverFires(c, Apply(c, s, run[0]), run[1..], t);
    }
  }
}
