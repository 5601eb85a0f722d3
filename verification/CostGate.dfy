/**
 Spend ceiling of packages/agent/src/cost-gate.ts - a per-process cache over a
 shared counter - and the weekly 80% alert of apps/api/src/agent-loop.ts. Amounts
 are exact reals; each call is one step.
 */
module CostGate {
  import opened Wrappers

  /** A workspace and a month. */
  datatype Key = Key(workspace: string, month: int)

  datatype Mode = Off | SoftWarn | HardBlock

  /** A ceiling that is absent or not positive is none. */
  datatype Settings = Settings(ceilingUsd: Option<real>, mode: Option<Mode>)

  datatype Decision = Pass | Warn80 | Warn100 | Block

  const SPEND_TTL_MS: int := 300000

  function Ceiling(s: Settings): Option<real> {
    if s.ceilingUsd.Some? && s.ceilingUsd.value > 0.0 then s.ceilingUsd else None
  }

  function DecideAgentCost(s: Settings, pricedUsd: real): Decision {
    match Ceiling(s)
    case None => Pass
    case Some(ceiling) =>
      var usage := pricedUsd / ceiling;
      var mode := if s.mode.Some? then s.mode.value else SoftWarn;
      if mode == Off then Pass
      else if usage >= 1.0 then (if mode == HardBlock then Block else Warn100)
      else if usage >= 0.8 then Warn80
      else Pass
  }

  function Severity(d: Decision): nat {
    match d case Pass => 0 case Warn80 => 1 case Warn100 => 2 case Block => 3
  }

  lemma ShareAtLeast(spent: real, ceiling: real, share: real)
    requires ceiling > 0.0
    ensures spent / ceiling >= share <==> spent >= share * ceiling
  {
    var x := spent / ceiling;
    assert x * ceiling == spent;
    if x >= share {
      assert (x - share) * ceiling >= 0.0;
    } else {
      assert (share - x) * ceiling > 0.0;
    }
  }

  /**
   The bands by amount: nothing below 80% of a positive ceiling or with the gate
   off, a warning up to the ceiling, and from there a block in hard mode and a
   second warning in any other. Spending more is never judged milder.
   */
  lemma DecisionByAmount(s: Settings, less: real, more: real)
    requires less <= more
    ensures Severity(DecideAgentCost(s, less)) <= Severity(DecideAgentCost(s, more))
    ensures DecideAgentCost(s, more)
      == if s.ceilingUsd.None? || s.ceilingUsd.value <= 0.0 || s.mode == Some(Off) || more < 0.8 * s.ceilingUsd.value then Pass
         else if more < s.ceilingUsd.value then Warn80
         else if s.mode == Some(HardBlock) then Block else Warn100
  {
    if Ceiling(s).Some? {
      var ceiling := Ceiling(s).value;
      ShareAtLeast(less, ceiling, 1.0);
      ShareAtLeast(less, ceiling, 0.8);
      ShareAtLeast(more, ceiling, 1.0);
      ShareAtLeast(more, ceiling, 0.8);
    }
  }

  // ── The shared counter ────────────────────────────────────────────────────

  /** Redis, with what each counter was seeded with and what has been added since. */
  class Counters {
    var counter: map<Key, real>
    ghost var seed: map<Key, real>
    ghost var added: map<Key, real>

    constructor ()
      ensures Valid() && counter == map[]
    {
      counter, seed, added := map[], map[], map[];
    }

    ghost predicate Valid()
      reads this
    {
      && seed.Keys == added.Keys == counter.Keys
      && forall k :: k in counter ==> counter[k] == seed[k] + added[k] && added[k] >= 0.0
    }

    /** INCRBYFLOAT: a missing counter starts from zero, whatever the database holds. */
    method Increase(k: Key, cost: real)
      requires Valid() && cost > 0.0
      modifies this
      ensures Valid()
      ensures seed == if k in old(counter) then old(seed) else old(seed)[k := 0.0]
      ensures added == old(added)[k := (if k in old(counter) then old(added)[k] else 0.0) + cost]
      ensures counter.Keys == old(counter).Keys + {k}
      ensures forall j :: j in old(counter) && j != k ==> counter[j] == old(counter)[j]
      ensures counter[k] == (if k in old(counter) then old(counter)[k] else 0.0) + cost
    {
      var before := if k in counter then counter[k] else 0.0;
      if k !in counter {
        seed, added := seed[k := 0.0], added[k := 0.0];
      }
      counter := counter[k := before + cost];
      added := added[k := added[k] + cost];
    }

    method Seed(k: Key, total: real)
      requires Valid() && k !in counter
      modifies this
      ensures Valid() && counter == old(counter)[k := total]
      ensures seed == old(seed)[k := total] && added == old(added)[k := 0.0]
    {
      counter, seed, added := counter[k := total], seed[k := total], added[k := 0.0];
    }
  }

  /** A cached amount: the month it was read in, and when it lapses. */
  datatype Entry = Entry(pricedUsd: real, month: int, expiresAt: int)

  /** One process. */
  class Process {
    const redis: Counters
    var cache: map<string, Entry>

    constructor (redis: Counters)
      ensures this.redis == redis && cache == map[]
    {
      this.redis := redis;
      cache := map[];
    }

    /** An entry is its month's counter; while there is none, because the database failed, it is zero. */
    ghost predicate EntryExact(w: string)
      reads this, redis
      requires w in cache
    {
      var k := Key(w, cache[w].month);
      if k in redis.counter then cache[w].pricedUsd == redis.counter[k] else cache[w].pricedUsd == 0.0
    }

    /** Every cached amount is its month's counter. */
    ghost predicate Exact()
      reads this, redis
    {
      forall w :: w in cache ==> EntryExact(w)
    }

    /** `loadSpend`: the cache, else the counter, else the database, which seeds the counter. */
    method LoadSpend(w: string, month: int, now: int, database: Option<real>) returns (pricedUsd: real)
      requires redis.Valid()
      modifies this, redis
      ensures redis.Valid() && (old(Exact()) ==> Exact())
      ensures w in cache && cache == old(cache)[w := cache[w]] && cache[w].pricedUsd == pricedUsd
      ensures var k := Key(w, month);
              if w in old(cache) && old(cache)[w].expiresAt > now then
                cache == old(cache) && redis.counter == old(redis.counter)
              else
                && cache[w] == Entry(pricedUsd, month, now + 300_000)
                && redis.counter == (if k in old(redis.counter) || database.None? then old(redis.counter)
                                     else old(redis.counter)[k := database.value])
                && pricedUsd == if k in redis.counter then redis.counter[k] else 0.0
    {
      if w in cache && cache[w].expiresAt > now {
        assert cache == cache[w := cache[w]];
        return cache[w].pricedUsd;
      }
      var k := Key(w, month);
      pricedUsd := 0.0;
      if k in redis.counter {
        pricedUsd := redis.counter[k];
      } else if database.Some? {
        pricedUsd := database.value;
        redis.Seed(k, pricedUsd);
      }
      cache := cache[w := Entry(pricedUsd, month, now + SPEND_TTL_MS)];
    }

    /** `recordSpend`: nothing for a cost that is not positive. */
    method RecordSpend(w: string, month: int, cost: real)
      requires redis.Valid()
      modifies this, redis
      ensures redis.Valid() && (old(Exact()) ==> Exact())
      ensures cost <= 0.0 ==> cache == old(cache) && redis.counter == old(redis.counter)
      ensures cost > 0.0 ==>
        var k := Key(w, month);
        && cache == old(cache) - {w}
        && redis.counter.Keys == old(redis.counter).Keys + {k}
        && redis.counter[k] == (if k in old(redis.counter) then old(redis.counter)[k] else 0.0) + cost
        && forall j :: j in old(redis.counter) && j != k ==> redis.counter[j] == old(redis.counter)[j]
    {
      if cost <= 0.0 {
        return;
      }
      cache := cache - {w};
      redis.Increase(Key(w, month), cost);
    }
  }

  // ── Runs of calls ─────────────────────────────────────────────────────────

  /** What happens to one workspace in one month, the database answering when asked. */
  datatype Call = Load(now: int, database: real) | Record(cost: real)

  function AfterCall(counter: Option<real>, c: Call): Option<real> {
    match c
    case Load(_, database) => if counter.Some? then counter else Some(database)
    case Record(cost) => if cost <= 0.0 then counter else Some((if counter.Some? then counter.value else 0.0) + cost)
  }

  /** The counter after calls, with no cache anywhere. */
  function CounterAfter(counter: Option<real>, calls: seq<Call>): Option<real> {
    if calls == [] then counter else AfterCall(CounterAfter(counter, calls[..|calls| - 1]), calls[|calls| - 1])
  }

  function CounterOf(counter: map<Key, real>, k: Key): Option<real> {
    if k in counter then Some(counter[k]) else None
  }

  /** The first thing that creates the counter: a load seeds it from the database, a recorded cost from zero. */
  function SeedOf(calls: seq<Call>): Option<real> {
    if calls == [] then None
    else match calls[0]
      case Load(_, database) => Some(database)
      case Record(cost) => if cost > 0.0 then Some(0.0) else SeedOf(calls[1..])
  }

  function Recorded(calls: seq<Call>): (sum: real)
    ensures sum >= 0.0
  {
    if calls == [] then 0.0
    else
      var last := calls[|calls| - 1];
      Recorded(calls[..|calls| - 1]) + if last.Record? && last.cost > 0.0 then last.cost else 0.0
  }

  lemma {:induction false} SeedOfPrefix(calls: seq<Call>)
    requires calls != []
    ensures var init := SeedOf(calls[..|calls| - 1]);
            SeedOf(calls) == if init.Some? then init else SeedOf([calls[|calls| - 1]])
  {
    var init, last := calls[..|calls| - 1], calls[|calls| - 1];
    if |calls| == 1 {
      assert calls == [last];
    } else {
      SeedOfPrefix(calls[1..]);
      assert calls[1..][..|calls| - 2] == init[1..];
    }
  }

  /** The counter is its seed and every cost recorded, counted once. */
  lemma {:induction false} CounterIsSeedPlusSum(calls: seq<Call>)
    ensures CounterAfter(None, calls) == match SeedOf(calls) case None => None case Some(seed) => Some(seed + Recorded(calls))
    ensures SeedOf(calls).None? ==> Recorded(calls) == 0.0
  {
    if calls != [] {
      CounterIsSeedPlusSum(calls[..|calls| - 1]);
      SeedOfPrefix(calls);
    }
  }

  /** A call that creates the counter when it is missing. */
  predicate Creates(c: Call) {
    c.Load? || c.cost > 0.0
  }

  lemma {:induction false} SeedIsFirst(calls: seq<Call>, i: nat)
    requires i < |calls| && Creates(calls[i]) && forall j :: 0 <= j < i ==> !Creates(calls[j])
    ensures SeedOf(calls) == Some(match calls[i] case Load(_, database) => database case Record(_) => 0.0)
    decreases |calls|
  {
    if i > 0 {
      assert !Creates(calls[0]);
      SeedIsFirst(calls[1..], i - 1);
    }
  }

  /**
   When the database held some total before the calls, the counter has all of it
   exactly when the call that created the counter was a load that read it, or
   there was nothing to read: a cost recorded first starts the counter at zero.
   */
  lemma CountsEverything(calls: seq<Call>, i: nat, held: real)
    requires i < |calls| && Creates(calls[i]) && forall j :: 0 <= j < i ==> !Creates(calls[j])
    ensures CounterAfter(None, calls) == Some(held + Recorded(calls))
      <==> if calls[i].Load? then calls[i].database == held else held == 0.0
  {
    SeedIsFirst(calls, i);
    CounterIsSeedPlusSum(calls);
  }

  lemma {:induction false} CounterGrows(counter: real, calls: seq<Call>)
    ensures CounterAfter(Some(counter), calls).Some? && CounterAfter(Some(counter), calls).value >= counter
  {
    if calls != [] {
      CounterGrows(counter, calls[..|calls| - 1]);
    }
  }

  lemma {:induction false} CounterOfConcat(counter: Option<real>, first: seq<Call>, rest: seq<Call>)
    ensures CounterAfter(counter, first + rest) == CounterAfter(CounterAfter(counter, first), rest)
    decreases |rest|
  {
    if rest == [] {
      assert first + rest == first;
    } else {
      CounterOfConcat(counter, first, rest[..|rest| - 1]);
      assert (first + rest)[..|first + rest| - 1] == first + rest[..|rest| - 1];
    }
  }

  /** An amount read earlier, here or in another process, is never judged more severely than the counter now. */
  lemma OldReadsAreMilder(s: Settings, counter: Option<real>, first: seq<Call>, rest: seq<Call>)
    requires CounterAfter(counter, first).Some?
    ensures CounterAfter(counter, first + rest).Some?
    ensures Severity(DecideAgentCost(s, CounterAfter(counter, first).value))
      <= Severity(DecideAgentCost(s, CounterAfter(counter, first + rest).value))
  {
    CounterOfConcat(counter, first, rest);
    CounterGrows(CounterAfter(counter, first).value, rest);
    DecisionByAmount(s, CounterAfter(counter, first).value, CounterAfter(counter, first + rest).value);
  }

  /** The entry of a workspace, if it has one, was read this month. */
  predicate ReadThisMonth(cache: map<string, Entry>, w: string, month: int) {
    w in cache ==> cache[w].month == month
  }

  method Serve(p: Process, w: string, month: int, c: Call) returns (read: Option<real>)
    requires p.redis.Valid() && p.Exact() && ReadThisMonth(p.cache, w, month)
    requires w in p.cache ==> Key(w, month) in p.redis.counter
    modifies p, p.redis
    ensures p.redis.Valid() && p.Exact() && ReadThisMonth(p.cache, w, month)
    ensures w in p.cache ==> Key(w, month) in p.redis.counter
    ensures CounterOf(p.redis.counter, Key(w, month)) == AfterCall(old(CounterOf(p.redis.counter, Key(w, month))), c)
    ensures read == if c.Load? then CounterOf(p.redis.counter, Key(w, month)) else None
  {
    match c {
      case Load(now, database) =>
        var pricedUsd := p.LoadSpend(w, month, now, Some(database));
        read := Some(pricedUsd);
      case Record(cost) =>
        p.RecordSpend(w, month, cost);
        read := None;
    }
  }

  /** The cached gate reads what an uncached one would, call for call. */
  method ServeAll(p: Process, w: string, month: int, calls: seq<Call>) returns (seen: seq<Option<real>>)
    requires p.redis.Valid() && p.Exact() && w !in p.cache
    modifies p, p.redis
    ensures p.redis.Valid() && p.Exact()
    ensures CounterOf(p.redis.counter, Key(w, month)) == CounterAfter(old(CounterOf(p.redis.counter, Key(w, month))), calls)
    ensures |seen| == |calls|
    ensures forall i :: 0 <= i < |calls| && calls[i].Load? ==>
              seen[i] == CounterAfter(old(CounterOf(p.redis.counter, Key(w, month))), calls[..i + 1])
  {
    seen := [];
    ghost var start := CounterOf(p.redis.counter, Key(w, month));
    for i := 0 to |calls|
      invariant p.redis.Valid() && p.Exact() && ReadThisMonth(p.cache, w, month)
      invariant w in p.cache ==> Key(w, month) in p.redis.counter
      invariant CounterOf(p.redis.counter, Key(w, month)) == CounterAfter(start, calls[..i])
      invariant |seen| == i
      invariant forall j :: 0 <= j < i && calls[j].Load? ==> seen[j] == CounterAfter(start, calls[..j + 1])
    {
      assert calls[..i + 1][..i] == calls[..i];
      var read := Serve(p, w, month, calls[i]);
      seen := seen + [read];
    }
    assert calls[..|calls|] == calls;
  }

  // ── The hourly warning ────────────────────────────────────────────────────

  const WARN_DEDUPE_MS: int := 3600000

  /** `shouldWarn` for one workspace and threshold: when it last said yes. */
  class WarnOnce {
    var last: int

    constructor ()
      ensures last == 0
    {
      last := 0;
    }

    method ShouldWarn(now: int) returns (warn: bool)
      modifies this
      ensures warn <==> now - old(last) >= 3_600_000
      ensures last == if warn then now else old(last)
    {
      if now - last < WARN_DEDUPE_MS {
        return false;
      }
      last := now;
      return true;
    }
  }

  /** Yes answers are an hour apart; a no has a yes, or the map's last, in the hour before it. */
  ghost predicate SpacedWarnings(start: int, nows: seq<int>, warns: seq<bool>)
    requires |nows| == |warns|
  {
    && (forall i, j :: 0 <= i < j < |nows| && warns[i] && warns[j] ==> nows[j] - nows[i] >= 3_600_000)
    && (forall j :: 0 <= j < |nows| && !warns[j] ==>
          nows[j] - start < 3_600_000 || exists i :: 0 <= i < j && warns[i] && nows[j] - nows[i] < 3_600_000)
  }

  /** Warnings are an hour apart, and a moment without one has one in the hour before it. */
  method WarnAll(warned: WarnOnce, nows: seq<int>) returns (warns: seq<bool>)
    requires forall i, j :: 0 <= i < j < |nows| ==> nows[i] <= nows[j]
    requires forall i :: 0 <= i < |nows| ==> warned.last <= nows[i]
    modifies warned
    ensures |warns| == |nows| && SpacedWarnings(old(warned.last), nows, warns)
  {
    warns := [];
    ghost var start := warned.last;
    for k := 0 to |nows|
      invariant |warns| == k && SpacedWarnings(start, nows[..k], warns)
      invariant warned.last == start || exists i :: 0 <= i < k && warns[i] && warned.last == nows[i]
      invariant forall i :: 0 <= i < k && warns[i] ==> nows[i] <= warned.last
    {
      var warn := warned.ShouldWarn(nows[k]);
      warns := warns + [warn];
    }
    assert nows[..|nows|] == nows;
  }

  // ── The weekly 80% alert ──────────────────────────────────────────────────

  /** A row of api_cost_tracking; the numeric columns may be missing in old rows. */
  datatype Week = Week(cost: Option<real>, ceiling: Option<real>, alerted: bool)

  function Cost(w: Week): real {
    if w.cost.Some? then w.cost.value else 0.0
  }

  /** The upsert of one task's cost: an inserted row is never alerted. */
  function Upserted(row: Option<Week>, cost: real, ceiling: real): Week {
    match row
    case None => Week(Some(cost), Some(ceiling), false)
    case Some(w) =>
      var limit := if w.ceiling.Some? then w.ceiling.value else ceiling;
      var total := Cost(w) + cost;
      Week(Some(total), Some(limit), total >= limit * 0.8 || w.alerted)
  }

  /** Whether the upsert reports the false-to-true crossing. */
  predicate Alerts(row: Option<Week>, cost: real, ceiling: real) {
    Upserted(row, cost, ceiling).alerted && !(row.Some? && row.value.alerted)
  }

  /**
   The week's row after the tasks' costs, from no row; the ceiling may be set
   anew between tasks.
   */
  function WeekAfter(costs: seq<real>, ceilings: seq<real>): Option<Week>
    requires |ceilings| == |costs|
  {
    if costs == [] then None
    else
      var n := |costs| - 1;
      Some(Upserted(WeekAfter(costs[..n], ceilings[..n]), costs[n], ceilings[n]))
  }

  function Sum(costs: seq<real>): real {
    if costs == [] then 0.0 else Sum(costs[..|costs| - 1]) + costs[|costs| - 1]
  }

  /** The i-th task of a week fires the alert. */
  predicate AlertsAt(costs: seq<real>, ceilings: seq<real>, i: nat)
    requires i < |costs| == |ceilings|
  {
    Alerts(WeekAfter(costs[..i], ceilings[..i]), costs[i], ceilings[i])
  }

  predicate Positive(costs: seq<real>) {
    forall i :: 0 <= i < |costs| ==> costs[i] > 0.0
  }

  /** The total of the first i + 1 tasks has reached 80%. */
  predicate Reached(costs: seq<real>, ceiling: real, i: nat)
    requires i < |costs|
  {
    Sum(costs[..i + 1]) >= ceiling * 0.8
  }

  /** The row holds the total, the week's first ceiling, and whether two tasks ran and the total reached 80% of it. */
  lemma {:induction false} WeekState(costs: seq<real>, ceilings: seq<real>)
    requires Positive(costs) && costs != [] && |ceilings| == |costs|
    ensures var w := WeekAfter(costs, ceilings).value;
            && w.cost == Some(Sum(costs)) && w.ceiling == Some(ceilings[0])
            && (w.alerted <==> |costs| > 1 && Sum(costs) >= ceilings[0] * 0.8)
  {
    var n := |costs| - 1;
    if n > 0 {
      WeekState(costs[..n], ceilings[..n]);
    } else {
      assert Sum(costs[..n]) == 0.0;
    }
  }

  /**
   The alert fires at the first task but the week's first whose total reaches
   80% of the ceiling the week began with: the row a week's first task inserts is
   never compared, and a ceiling set later in the week is not looked at.
   */
  lemma AlertsAtCrossing(costs: seq<real>, ceilings: seq<real>, i: nat)
    requires Positive(costs) && i < |costs| == |ceilings|
    ensures AlertsAt(costs, ceilings, i)
      <==> i > 0 && Reached(costs, ceilings[0], i) && (i > 1 ==> !Reached(costs, ceilings[0], i - 1))
  {
    assert costs[..i + 1][..i] == costs[..i] && ceilings[..i + 1][..i] == ceilings[..i];
    if i > 0 {
      WeekState(costs[..i], ceilings[..i]);
      WeekState(costs[..i + 1], ceilings[..i + 1]);
    }
  }

  /** A row without a total or a ceiling, as old ones are, counts from zero and takes the task's ceiling. */
  lemma OldRowStarts(cost: real, ceiling: real, alerted: bool)
    ensures Upserted(Some(Week(None, None, alerted)), cost, ceiling)
         == Week(Some(cost), Some(ceiling), cost >= ceiling * 0.8 || alerted)
    ensures Alerts(Some(Week(None, None, alerted)), cost, ceiling) <==> cost >= ceiling * 0.8 && !alerted
  {
  }

  lemma {:induction false} ReachedStays(costs: seq<real>, ceiling: real, i: nat, j: nat)
    requires Positive(costs) && i <= j < |costs| && Reached(costs, ceiling, i)
    ensures Reached(costs, ceiling, j)
    decreases j
  {
    if i < j {
      ReachedStays(costs, ceiling, i, j - 1);
      assert costs[..j + 1][..j] == costs[..j];
    }
  }

  /** At most one alert a week. */
  lemma AlertsOnce(costs: seq<real>, ceilings: seq<real>, i: nat, j: nat)
    requires Positive(costs) && i < |costs| == |ceilings| && j < |costs|
    requires AlertsAt(costs, ceilings, i) && AlertsAt(costs, ceilings, j)
    ensures i == j
  {
    AlertsAtCrossing(costs, ceilings, i);
    AlertsAtCrossing(costs, ceilings, j);
    if i < j - 1 {
      ReachedStays(costs, ceilings[0], i, j - 1);
    } else if j < i - 1 {
      ReachedStays(costs, ceilings[0], j, i - 1);
    }
  }

  /** A week that reaches 80% gets its alert, if a second task ran. */
  lemma AlertsIfReached(costs: seq<real>, ceilings: seq<real>) returns (i: nat)
    requires Positive(costs) && |ceilings| == |costs| > 1 && Sum(costs) >= ceilings[0] * 0.8
    ensures i < |costs| && AlertsAt(costs, ceilings, i)
  {
    i := 1;
    assert costs[..|costs|] == costs;
    while i + 1 < |costs| && !Reached(costs, ceilings[0], i)
      invariant 1 <= i < |costs|
      invariant i > 1 ==> !Reached(costs, ceilings[0], i - 1)
    {
      i := i + 1;
    }
    AlertsAtCrossing(costs, ceilings, i);
  }
}
