/**
 Session splitting by time gap: the offline walk of packages/db/split-sessions.ts
 and the rule apps/api/src/conversation-log.ts applies to each arriving message.
 A ulid is a name that a numbered supply never gives twice.
 */
module Sessions {
  import opened Wrappers

  datatype Row = Row(id: string, key: string, session: Option<string>, at: int)

  type Mint = nat -> string

  /** Every name of the supply is new. */
  ghost predicate Fresh(mint: Mint) {
    forall i: nat, j: nat :: i != j ==> mint(i) != mint(j)
  }

  // ── Runs ──────────────────────────────────────────────────────────────────

  /** How many of the marks are set. */
  function Count(breaks: seq<bool>): nat {
    if breaks == [] then 0 else Count(breaks[..|breaks| - 1]) + if breaks[|breaks| - 1] then 1 else 0
  }

  /** No mark is set after i, up to j. */
  predicate Unbroken(breaks: seq<bool>, i: nat, j: nat)
    requires i < |breaks| && j < |breaks|
  {
    forall k :: i < k <= j ==> !breaks[k]
  }

  /** Two positions of one run: no break between them. */
  predicate SameRun(breaks: seq<bool>, i: nat, j: nat)
    requires i < |breaks| && j < |breaks|
  {
    Unbroken(breaks, i, j) && Unbroken(breaks, j, i)
  }

  lemma {:induction false} CountBetween(breaks: seq<bool>, i: nat, j: nat)
    requires i <= j < |breaks|
    ensures Count(breaks[..i + 1]) <= Count(breaks[..j + 1])
    ensures Count(breaks[..i + 1]) == Count(breaks[..j + 1]) <==> Unbroken(breaks, i, j)
    decreases j
  {
    if i < j {
      CountBetween(breaks, i, j - 1);
      assert breaks[..j + 1][..j] == breaks[..j];
    }
  }

  lemma SameRunIsSameCount(breaks: seq<bool>, i: nat, j: nat)
    requires i < |breaks| && j < |breaks|
    ensures SameRun(breaks, i, j) <==> Count(breaks[..i + 1]) == Count(breaks[..j + 1])
  {
    if i <= j {
      CountBetween(breaks, i, j);
    } else {
      CountBetween(breaks, j, i);
    }
  }

  lemma CountPositive(breaks: seq<bool>, i: nat)
    requires i < |breaks| && breaks[0]
    ensures 1 <= Count(breaks[..i + 1]) <= Count(breaks)
  {
    CountBetween(breaks, 0, i);
    CountBetween(breaks, i, |breaks| - 1);
    assert breaks[..|breaks|] == breaks;
    assert breaks[..1][..0] == [];
  }

  /** The name of the run that position i is in, names before `base` being taken. */
  function Nth(mint: Mint, base: nat, breaks: seq<bool>, i: nat): string
    requires i < |breaks| && breaks[0]
  {
    CountPositive(breaks, i);
    mint(base + Count(breaks[..i + 1]) - 1)
  }

  lemma CountStep(breaks: seq<bool>, i: nat)
    requires i < |breaks|
    ensures Count(breaks[..i + 1]) == Count(breaks[..i]) + if breaks[i] then 1 else 0
  {
    assert breaks[..i + 1][..i] == breaks[..i];
  }

  // ── The offline walk ──────────────────────────────────────────────────────

  /** Where the walk mints: at the first row and after a gap longer than the timeout. */
  function Breaks(rows: seq<Row>, timeout: int): (b: seq<bool>)
    ensures |b| == |rows|
  {
    seq(|rows|, i requires 0 <= i < |rows| => i == 0 || rows[i].at - rows[i - 1].at > timeout)
  }

  lemma RunBetween(b: seq<bool>, i: nat, j: nat)
    requires i <= j < |b|
    ensures SameRun(b, i, j) <==> forall k :: i < k <= j ==> !b[k]
    ensures SameRun(b, j, i) <==> SameRun(b, i, j)
  {
    assert Unbroken(b, j, i);
  }

  /** Two rows are of one run when no gap between rows that follow each other, from the one to the other, exceeds the timeout. */
  lemma RunsAreGapFree(rows: seq<Row>, timeout: int, i: nat, j: nat)
    requires i <= j < |rows|
    ensures SameRun(Breaks(rows, timeout), i, j) <==> forall k :: i < k <= j ==> rows[k].at - rows[k - 1].at <= timeout
    ensures SameRun(Breaks(rows, timeout), j, i) <==> SameRun(Breaks(rows, timeout), i, j)
  {
    var b := Breaks(rows, timeout);
    RunBetween(b, i, j);
    forall k | i < k <= j
      ensures b[k] <==> rows[k].at - rows[k - 1].at > timeout
    {
    }
  }

  /** Names minted for the buckets before the b-th. */
  function Minted(buckets: seq<seq<Row>>, timeout: int): nat {
    if buckets == [] then 0 else Minted(buckets[..|buckets| - 1], timeout) + Count(Breaks(buckets[|buckets| - 1], timeout))
  }

  function SessionOf(buckets: seq<seq<Row>>, timeout: int, mint: Mint, b: nat, i: nat): string
    requires b < |buckets| && i < |buckets[b]|
  {
    Nth(mint, Minted(buckets[..b], timeout), Breaks(buckets[b], timeout), i)
  }

  lemma {:induction false} MintedMonotone(buckets: seq<seq<Row>>, timeout: int, b: nat, c: nat)
    requires b < c <= |buckets|
    ensures Minted(buckets[..b], timeout) + Count(Breaks(buckets[b], timeout)) <= Minted(buckets[..c], timeout)
    decreases c
  {
    assert buckets[..c][..c - 1] == buckets[..c - 1];
    if b < c - 1 {
      MintedMonotone(buckets, timeout, b, c - 1);
    }
  }

  /** Two rows share a session exactly when they share a bucket and no long gap lies between them. */
  lemma OfflinePartition(buckets: seq<seq<Row>>, timeout: int, mint: Mint, b: nat, i: nat, c: nat, j: nat)
    requires Fresh(mint) && b < |buckets| && i < |buckets[b]| && c < |buckets| && j < |buckets[c]|
    ensures SessionOf(buckets, timeout, mint, b, i) == SessionOf(buckets, timeout, mint, c, j)
      <==> b == c && SameRun(Breaks(buckets[b], timeout), i, j)
  {
    CountPositive(Breaks(buckets[b], timeout), i);
    CountPositive(Breaks(buckets[c], timeout), j);
    if b == c {
      SameRunIsSameCount(Breaks(buckets[b], timeout), i, j);
    } else if b < c {
      MintedMonotone(buckets, timeout, b, c);
    } else {
      MintedMonotone(buckets, timeout, c, b);
    }
  }

  datatype Update = Update(id: string, session: string)

  /** One update for every row whose session changes. */
  function UpdatesOf(rows: seq<Row>, sessions: seq<string>): seq<Update>
    requires |sessions| == |rows|
  {
    if rows == [] then []
    else
      var n := |rows| - 1;
      AddUpdate(UpdatesOf(rows[..n], sessions[..n]), rows[n], sessions[n])
  }

  function AddUpdate(updates: seq<Update>, r: Row, session: string): seq<Update> {
    if r.session != Some(session) then updates + [Update(r.id, session)] else updates
  }

  lemma UpdatesSnoc(rows: seq<Row>, r: Row, sessions: seq<string>, session: string)
    requires |sessions| == |rows|
    ensures UpdatesOf(rows + [r], sessions + [session]) == AddUpdate(UpdatesOf(rows, sessions), r, session)
  {
    assert (rows + [r])[..|rows|] == rows;
    assert (sessions + [session])[..|rows|] == sessions;
  }

  lemma UpdatesStep(rows: seq<Row>, sessions: seq<string>, i: nat, session: string)
    requires i < |rows| && |sessions| == i
    ensures UpdatesOf(rows[..i + 1], sessions + [session]) == AddUpdate(UpdatesOf(rows[..i], sessions), rows[i], session)
  {
    UpdatesSnoc(rows[..i], rows[i], sessions, session);
    assert rows[..i + 1] == rows[..i] + [rows[i]];
  }

  ghost predicate Named(sessions: seq<string>, breaks: seq<bool>, mint: Mint, base: nat)
    requires |sessions| <= |breaks| && (breaks != [] ==> breaks[0])
  {
    forall k :: 0 <= k < |sessions| ==> sessions[k] == Nth(mint, base, breaks, k)
  }

  lemma NamedStep(sessions: seq<string>, breaks: seq<bool>, mint: Mint, base: nat, i: nat, created: nat, session: string)
    requires |sessions| == i < |breaks| && breaks[0] && Named(sessions, breaks, mint, base)
    requires created == base + Count(breaks[..i + 1]) && created > 0 && session == mint(created - 1)
    ensures Named(sessions + [session], breaks, mint, base)
  {
    assert Nth(mint, base, breaks, i) == session;
  }

  /** The walk after i rows: what is open, what was minted, what is pending. */
  ghost predicate Walked(rows: seq<Row>, timeout: int, mint: Mint, base: nat, i: nat,
                         current: Option<string>, created: nat, sessions: seq<string>, updates: seq<Update>)
  {
    && i <= |rows| && |sessions| == i
    && created == base + Count(Breaks(rows, timeout)[..i])
    && (if i == 0 then current == None else created > 0 && current == Some(mint(created - 1)))
    && Named(sessions, Breaks(rows, timeout), mint, base)
    && updates == UpdatesOf(rows[..i], sessions)
  }

  lemma WalkMints(rows: seq<Row>, timeout: int, mint: Mint, base: nat, i: nat, current: Option<string>, created: nat,
                  created': nat, session: string)
    requires i < |rows| && created == base + Count(Breaks(rows, timeout)[..i])
    requires if i == 0 then current == None else created > 0 && current == Some(mint(created - 1))
    requires var starts := i == 0 || rows[i].at - rows[i - 1].at > timeout;
             && created' == created + (if starts then 1 else 0)
             && session == (if starts then mint(created) else current.value)
    ensures created' == base + Count(Breaks(rows, timeout)[..i + 1]) && created' > 0 && session == mint(created' - 1)
  {
    CountStep(Breaks(rows, timeout), i);
  }

  lemma WalkStep(rows: seq<Row>, timeout: int, mint: Mint, base: nat, i: nat, current: Option<string>, created: nat,
                 sessions: seq<string>, updates: seq<Update>, created': nat, updates': seq<Update>, session: string)
    requires Walked(rows, timeout, mint, base, i, current, created, sessions, updates) && i < |rows|
    requires var starts := i == 0 || rows[i].at - rows[i - 1].at > timeout;
             && created' == created + (if starts then 1 else 0)
             && session == (if starts then mint(created) else current.value)
    requires updates' == AddUpdate(updates, rows[i], session)
    ensures Walked(rows, timeout, mint, base, i + 1, Some(session), created', sessions + [session], updates')
  {
    WalkMints(rows, timeout, mint, base, i, current, created, created', session);
    NamedStep(sessions, Breaks(rows, timeout), mint, base, i, created', session);
    UpdatesStep(rows, sessions, i, session);
  }

  lemma WalkDone(rows: seq<Row>, timeout: int, mint: Mint, base: nat, current: Option<string>, created: nat,
                 sessions: seq<string>, updates: seq<Update>)
    requires Walked(rows, timeout, mint, base, |rows|, current, created, sessions, updates)
    ensures created == base + Count(Breaks(rows, timeout)) && updates == UpdatesOf(rows, sessions)
  {
    assert Breaks(rows, timeout)[..|rows|] == Breaks(rows, timeout) && rows[..|rows|] == rows;
  }

  /** One bucket: the sessions of its rows, and the updates that set them. */
  method WalkBucket(rows: seq<Row>, timeout: int, mint: Mint, base: nat)
    returns (sessions: seq<string>, updates: seq<Update>, created: nat)
    ensures |sessions| == |rows| && created == base + Count(Breaks(rows, timeout))
    ensures Named(sessions, Breaks(rows, timeout), mint, base)
    ensures updates == UpdatesOf(rows, sessions)
  {
    sessions, updates, created := [], [], base;
    var current: Option<string> := None;
    var lastMs := 0;
    for i := 0 to |rows|
      invariant Walked(rows, timeout, mint, base, i, current, created, sessions, updates)
      invariant i > 0 ==> lastMs == rows[i - 1].at
    {
      var r := rows[i];
      ghost var beforeCurrent, beforeCreated, beforeUpdates := current, created, updates;
      if current.None? || r.at - lastMs > timeout {
        current := Some(mint(created));
        created := created + 1;
      }
      var session := current.value;
      if r.session != current {
        updates := updates + [Update(r.id, session)];
      }
      WalkStep(rows, timeout, mint, base, i, beforeCurrent, beforeCreated, sessions, beforeUpdates, created, updates, session);
      sessions := sessions + [session];
      lastMs := r.at;
    }
    WalkDone(rows, timeout, mint, base, current, created, sessions, updates);
  }

  // ── All buckets ───────────────────────────────────────────────────────────

  predicate SameShape(buckets: seq<seq<Row>>, sessions: seq<seq<string>>) {
    |sessions| == |buckets| && forall b :: 0 <= b < |buckets| ==> |sessions[b]| == |buckets[b]|
  }

  function AllUpdates(buckets: seq<seq<Row>>, sessions: seq<seq<string>>): seq<Update>
    requires SameShape(buckets, sessions)
  {
    if buckets == [] then []
    else
      var n := |buckets| - 1;
      AllUpdates(buckets[..n], sessions[..n]) + UpdatesOf(buckets[n], sessions[n])
  }

  lemma AllUpdatesStep(buckets: seq<seq<Row>>, sessions: seq<seq<string>>, b: nat, last: seq<string>)
    requires b < |buckets| && SameShape(buckets[..b], sessions) && |last| == |buckets[b]|
    ensures SameShape(buckets[..b + 1], sessions + [last])
    ensures AllUpdates(buckets[..b + 1], sessions + [last]) == AllUpdates(buckets[..b], sessions) + UpdatesOf(buckets[b], last)
  {
    assert buckets[..b + 1][..b] == buckets[..b];
    assert (sessions + [last])[..b] == sessions;
  }

  ghost predicate AllNamed(sessions: seq<seq<string>>, buckets: seq<seq<Row>>, timeout: int, mint: Mint)
    requires |sessions| <= |buckets| && forall b :: 0 <= b < |sessions| ==> |sessions[b]| == |buckets[b]|
  {
    forall b :: 0 <= b < |sessions| ==> Named(sessions[b], Breaks(buckets[b], timeout), mint, Minted(buckets[..b], timeout))
  }

  method WalkAll(buckets: seq<seq<Row>>, timeout: int, mint: Mint)
    returns (sessions: seq<seq<string>>, updates: seq<Update>)
    ensures SameShape(buckets, sessions)
    ensures AllNamed(sessions, buckets, timeout, mint)
    ensures updates == AllUpdates(buckets, sessions)
  {
    sessions, updates := [], [];
    var created := 0;
    for b := 0 to |buckets|
      invariant SameShape(buckets[..b], sessions)
      invariant AllNamed(sessions, buckets, timeout, mint)
      invariant created == Minted(buckets[..b], timeout)
      invariant updates == AllUpdates(buckets[..b], sessions)
    {
      var last, pending, minted := WalkBucket(buckets[b], timeout, mint, created);
      AllUpdatesStep(buckets, sessions, b, last);
      assert buckets[..b + 1][..b] == buckets[..b];
      sessions, updates, created := sessions + [last], updates + pending, minted;
    }
    assert buckets[..|buckets|] == buckets;
  }

  // ── Applying the updates ──────────────────────────────────────────────────

  type Table = map<string, Option<string>>

  const BATCH_SIZE: nat := 500

  function Updated(table: Table, u: Update): Table {
    if u.id in table then table[u.id := Some(u.session)] else table
  }

  function Applied(table: Table, updates: seq<Update>): Table {
    if updates == [] then table else Updated(Applied(table, updates[..|updates| - 1]), updates[|updates| - 1])
  }

  lemma AppliedStep(table: Table, updates: seq<Update>, i: nat)
    requires i < |updates|
    ensures Applied(table, updates[..i + 1]) == Updated(Applied(table, updates[..i]), updates[i])
  {
    assert updates[..i + 1][..i] == updates[..i];
  }

  method ApplyInBatches(table: Table, updates: seq<Update>) returns (after: Table)
    ensures after == Applied(table, updates)
  {
    after := table;
    var i := 0;
    while i < |updates|
      invariant 0 <= i <= |updates|
      invariant after == Applied(table, updates[..i])
    {
      var end := if i + BATCH_SIZE <= |updates| then i + BATCH_SIZE else |updates|;
      var batch := updates[i..end];
      for k := 0 to |batch|
        invariant after == Applied(table, updates[..i + k])
      {
        assert batch[k] == updates[i + k];
        AppliedStep(table, updates, i + k);
        after := Updated(after, batch[k]);
      }
      i := end;
    }
    assert updates[..|updates|] == updates;
  }

  /** A row all of whose updates agree ends with their session, or the one it had. */
  lemma {:induction false} AppliedRow(table: Table, updates: seq<Update>, id: string, session: string)
    requires id in table && forall u :: u in updates && u.id == id ==> u.session == session
    ensures id in Applied(table, updates)
    ensures Update(id, session) in updates ==> Applied(table, updates)[id] == Some(session)
    ensures Update(id, session) !in updates ==> Applied(table, updates)[id] == table[id]
  {
    if updates != [] {
      var init, last := updates[..|updates| - 1], updates[|updates| - 1];
      assert updates == init + [last] && last in updates;
      AppliedRow(table, init, id, session);
    }
  }

  lemma {:induction false} InUpdatesOf(rows: seq<Row>, sessions: seq<string>, u: Update)
    requires |sessions| == |rows|
    ensures u in UpdatesOf(rows, sessions)
      <==> exists i :: 0 <= i < |rows| && rows[i].session != Some(sessions[i]) && u == Update(rows[i].id, sessions[i])
  {
    if rows != [] {
      var n := |rows| - 1;
      InUpdatesOf(rows[..n], sessions[..n], u);
      var before := UpdatesOf(rows[..n], sessions[..n]);
      assert u in UpdatesOf(rows, sessions) <==> u in before || (rows[n].session != Some(sessions[n]) && u == Update(rows[n].id, sessions[n]));
      if u in before {
        var i :| 0 <= i < n && rows[..n][i].session != Some(sessions[..n][i]) && u == Update(rows[..n][i].id, sessions[..n][i]);
        assert rows[i].session != Some(sessions[i]);
      }
      forall i | 0 <= i < n && rows[i].session != Some(sessions[i]) && u == Update(rows[i].id, sessions[i])
        ensures u in before
      {
        assert rows[..n][i] == rows[i] && sessions[..n][i] == sessions[i];
      }
    }
  }

  predicate InBucket(buckets: seq<seq<Row>>, sessions: seq<seq<string>>, b: nat, u: Update)
    requires SameShape(buckets, sessions)
  {
    b < |buckets| && u in UpdatesOf(buckets[b], sessions[b])
  }

  lemma LastBucketUpdates(buckets: seq<seq<Row>>, sessions: seq<seq<string>>, u: Update)
    requires SameShape(buckets, sessions) && buckets != []
    ensures var n := |buckets| - 1;
            && SameShape(buckets[..n], sessions[..n])
            && (u in AllUpdates(buckets, sessions) <==> u in AllUpdates(buckets[..n], sessions[..n]) || InBucket(buckets, sessions, n, u))
  {
  }

  lemma {:induction false} InAllUpdates(buckets: seq<seq<Row>>, sessions: seq<seq<string>>, u: Update)
    requires SameShape(buckets, sessions)
    ensures u in AllUpdates(buckets, sessions) <==> exists b: nat :: InBucket(buckets, sessions, b, u)
  {
    if buckets != [] {
      var n: nat := |buckets| - 1;
      var fewer, names := buckets[..n], sessions[..n];
      LastBucketUpdates(buckets, sessions, u);
      InAllUpdates(fewer, names, u);
      forall b: nat
        ensures InBucket(buckets, sessions, b, u) <==> InBucket(fewer, names, b, u) || (b == n && InBucket(buckets, sessions, n, u))
      {
        assert b < n ==> fewer[b] == buckets[b] && names[b] == sessions[b];
      }
    }
  }

  /** No id is in two places. */
  ghost predicate DistinctIds(buckets: seq<seq<Row>>) {
    forall b: nat, i: nat, c: nat, j: nat ::
      b < |buckets| && i < |buckets[b]| && c < |buckets| && j < |buckets[c]| && buckets[b][i].id == buckets[c][j].id ==> b == c && i == j
  }

  /** After the updates every row has the session the walk gave it. */
  lemma EveryRowUpdated(table: Table, buckets: seq<seq<Row>>, sessions: seq<seq<string>>, b: nat, i: nat)
    requires SameShape(buckets, sessions) && DistinctIds(buckets) && b < |buckets| && i < |buckets[b]|
    requires buckets[b][i].id in table && table[buckets[b][i].id] == buckets[b][i].session
    ensures buckets[b][i].id in Applied(table, AllUpdates(buckets, sessions))
    ensures Applied(table, AllUpdates(buckets, sessions))[buckets[b][i].id] == Some(sessions[b][i])
  {
    var r, s, updates := buckets[b][i], sessions[b][i], AllUpdates(buckets, sessions);
    forall u | u in updates && u.id == r.id
      ensures u.session == s
    {
      InAllUpdates(buckets, sessions, u);
      var c: nat :| InBucket(buckets, sessions, c, u);
      InUpdatesOf(buckets[c], sessions[c], u);
    }
    if r.session != Some(s) {
      InUpdatesOf(buckets[b], sessions[b], Update(r.id, s));
      InAllUpdates(buckets, sessions, Update(r.id, s));
      assert InBucket(buckets, sessions, b, Update(r.id, s));
    }
    AppliedRow(table, updates, r.id, s);
  }

  // ── The whole script ──────────────────────────────────────────────────────

  /** The rows of one bucket, in table order. */
  function Filter(rows: seq<Row>, key: string): seq<Row> {
    if rows == [] then []
    else
      var n := |rows| - 1;
      Filter(rows[..n], key) + if rows[n].key == key then [rows[n]] else []
  }

  /** A bucket has the rows of its key, each once, in table order. */
  lemma {:induction false} BucketInOrder(first: seq<Row>, r: Row, later: seq<Row>, key: string)
    ensures Filter(first + [r] + later, key) == Filter(first, key) + (if r.key == key then [r] else []) + Filter(later, key)
    decreases |later|
  {
    if later == [] {
      assert first + [r] + later == first + [r];
      assert (first + [r])[..|first|] == first;
    } else {
      var n := |later| - 1;
      BucketInOrder(first, r, later[..n], key);
      assert (first + [r] + later)[..|first| + 1 + n] == first + [r] + later[..n];
      var one := if later[n].key == key then [later[n]] else [];
      var head := Filter(first, key) + if r.key == key then [r] else [];
      assert head + Filter(later[..n], key) + one == head + (Filter(later[..n], key) + one);
    }
  }

  lemma {:induction false} InFilter(rows: seq<Row>, key: string, r: Row)
    ensures r in Filter(rows, key) <==> r in rows && r.key == key
  {
    if rows != [] {
      InFilter(rows[..|rows| - 1], key, r);
      assert rows == rows[..|rows| - 1] + [rows[|rows| - 1]];
    }
  }

  /** The buckets hold the rows, key by key. */
  ghost predicate Grouped(buckets: map<string, seq<Row>>, rows: seq<Row>) {
    forall k: string :: Filter(rows, k) == if k in buckets then buckets[k] else []
  }

  lemma GroupStep(buckets: map<string, seq<Row>>, rows: seq<Row>, r: Row, bucket: seq<Row>)
    requires Grouped(buckets, rows)
    requires bucket == (if r.key in buckets then buckets[r.key] else []) + [r]
    ensures Grouped(buckets[r.key := bucket], rows + [r])
  {
    assert (rows + [r])[..|rows|] == rows;
    forall k: string
      ensures Filter(rows + [r], k) == if k in buckets[r.key := bucket] then buckets[r.key := bucket][k] else []
    {
      assert Filter(rows + [r], k) == Filter(rows, k) + if r.key == k then [r] else [];
    }
  }

  ghost predicate Keyed(keys: seq<string>, buckets: map<string, seq<Row>>) {
    && (forall k :: k in keys <==> k in buckets)
    && (forall i, j :: 0 <= i < j < |keys| ==> keys[i] != keys[j])
  }

  /** The keys of the rows, each once, in the order they come. */
  function FirstKeys(rows: seq<Row>): seq<string> {
    if rows == [] then []
    else
      var keys, last := FirstKeys(rows[..|rows| - 1]), rows[|rows| - 1].key;
      if last in keys then keys else keys + [last]
  }

  lemma {:induction false} InFirstKeys(rows: seq<Row>, k: string)
    ensures k in FirstKeys(rows) <==> exists r :: r in rows && r.key == k
  {
    if rows != [] {
      InFirstKeys(rows[..|rows| - 1], k);
      assert rows == rows[..|rows| - 1] + [rows[|rows| - 1]];
    }
  }

  /** A row whose key no row before it has comes with a key that follows all keys before it. */
  lemma {:induction false} FirstKeysInOrder(first: seq<Row>, r: Row, later: seq<Row>)
    requires forall q :: q in first ==> q.key != r.key
    ensures FirstKeys(first) + [r.key] <= FirstKeys(first + [r] + later)
    decreases |later|
  {
    if later == [] {
      InFirstKeys(first, r.key);
      assert first + [r] + later == first + [r];
      assert (first + [r])[..|first|] == first;
    } else {
      var n := |later| - 1;
      FirstKeysInOrder(first, r, later[..n]);
      assert (first + [r] + later)[..|first| + 1 + n] == first + [r] + later[..n];
    }
  }

  ghost predicate Bucketed(keys: seq<string>, buckets: map<string, seq<Row>>, rows: seq<Row>) {
    Keyed(keys, buckets) && Grouped(buckets, rows) && keys == FirstKeys(rows)
  }

  lemma OldKeyStep(keys: seq<string>, buckets: map<string, seq<Row>>, rows: seq<Row>, r: Row)
    requires Bucketed(keys, buckets, rows) && r.key in buckets
    ensures Bucketed(keys, buckets[r.key := buckets[r.key] + [r]], rows + [r])
  {
    GroupStep(buckets, rows, r, buckets[r.key] + [r]);
    assert (rows + [r])[..|rows|] == rows;
  }

  lemma NewKeyStep(keys: seq<string>, buckets: map<string, seq<Row>>, rows: seq<Row>, r: Row)
    requires Bucketed(keys, buckets, rows) && r.key !in buckets
    ensures Bucketed(keys + [r.key], buckets[r.key := [r]], rows + [r])
  {
    assert [] + [r] == [r];
    GroupStep(buckets, rows, r, [r]);
    assert (rows + [r])[..|rows|] == rows;
  }

  /** Buckets in the order their first rows come. */
  method Bucket(rows: seq<Row>) returns (keys: seq<string>, buckets: map<string, seq<Row>>)
    ensures Keyed(keys, buckets) && Grouped(buckets, rows) && keys == FirstKeys(rows)
  {
    keys, buckets := [], map[];
    for i := 0 to |rows|
      invariant Bucketed(keys, buckets, rows[..i])
    {
      var r := rows[i];
      assert rows[..i + 1] == rows[..i] + [r];
      if r.key in buckets {
        OldKeyStep(keys, buckets, rows[..i], r);
        buckets := buckets[r.key := buckets[r.key] + [r]];
      } else {
        NewKeyStep(keys, buckets, rows[..i], r);
        keys := keys + [r.key];
        buckets := buckets[r.key := [r]];
      }
    }
    assert rows[..|rows|] == rows;
  }

  ghost predicate UniqueIds(rows: seq<Row>) {
    forall i, j :: 0 <= i < j < |rows| ==> rows[i].id != rows[j].id
  }

  lemma {:induction false} FilterKeepsUnique(rows: seq<Row>, key: string)
    requires UniqueIds(rows)
    ensures UniqueIds(Filter(rows, key))
  {
    if rows != [] {
      var n := |rows| - 1;
      FilterKeepsUnique(rows[..n], key);
      forall i | 0 <= i < |Filter(rows[..n], key)|
        ensures Filter(rows[..n], key)[i].id != rows[n].id
      {
        InFilter(rows[..n], key, Filter(rows[..n], key)[i]);
      }
    }
  }

  lemma BucketsAreDistinct(rows: seq<Row>, keys: seq<string>, buckets: seq<seq<Row>>)
    requires UniqueIds(rows) && |buckets| == |keys|
    requires forall i, j :: 0 <= i < j < |keys| ==> keys[i] != keys[j]
    requires forall b :: 0 <= b < |keys| ==> buckets[b] == Filter(rows, keys[b])
    ensures DistinctIds(buckets)
  {
    forall b: nat, i: nat, c: nat, j: nat |
      b < |buckets| && i < |buckets[b]| && c < |buckets| && j < |buckets[c]| && buckets[b][i].id == buckets[c][j].id
      ensures b == c && i == j
    {
      InFilter(rows, keys[b], buckets[b][i]);
      InFilter(rows, keys[c], buckets[c][j]);
      FilterKeepsUnique(rows, keys[b]);
    }
  }

  /** The table holds the rows as they were read. */
  ghost predicate Snapshot(table: Table, rows: seq<Row>) {
    forall r :: r in rows ==> r.id in table && table[r.id] == r.session
  }

  /** The i-th row of bucket k and the j-th of bucket l share a session exactly when they should. */
  ghost predicate SplitCorrectly(after: Table, rows: seq<Row>, timeout: int, k: string, i: nat, l: string, j: nat) {
    i < |Filter(rows, k)| && j < |Filter(rows, l)| ==>
      var r, q := Filter(rows, k)[i], Filter(rows, l)[j];
      && r.id in after && q.id in after && after[r.id].Some?
      && (after[r.id] == after[q.id] <==> k == l && SameRun(Breaks(Filter(rows, k), timeout), i, j))
  }

  /** Two rows share a session exactly when they share a bucket and no gap between them exceeds the timeout. */
  ghost predicate Partitioned(after: Table, rows: seq<Row>, timeout: int) {
    forall k: string, i: nat, l: string, j: nat :: SplitCorrectly(after, rows, timeout, k, i, l, j)
  }

  lemma RowOfBucket(table: Table, rows: seq<Row>, buckets: seq<seq<Row>>, sessions: seq<seq<string>>, timeout: int,
                    mint: Mint, b: nat, i: nat)
    requires SameShape(buckets, sessions) && AllNamed(sessions, buckets, timeout, mint) && DistinctIds(buckets)
    requires b < |buckets| && i < |buckets[b]| && Snapshot(table, rows) && buckets[b][i] in rows
    ensures var after := Applied(table, AllUpdates(buckets, sessions));
            buckets[b][i].id in after && after[buckets[b][i].id] == Some(SessionOf(buckets, timeout, mint, b, i))
  {
    EveryRowUpdated(table, buckets, sessions, b, i);
  }

  /** The buckets are those of the rows, one for each key. */
  ghost predicate BucketsOf(buckets: seq<seq<Row>>, keys: seq<string>, rows: seq<Row>) {
    && |buckets| == |keys|
    && (forall i, j :: 0 <= i < j < |keys| ==> keys[i] != keys[j])
    && (forall b :: 0 <= b < |keys| ==> buckets[b] == Filter(rows, keys[b]))
    && (forall k: string :: Filter(rows, k) != [] ==> k in keys)
  }

  lemma SplitPair(table: Table, rows: seq<Row>, keys: seq<string>, buckets: seq<seq<Row>>, sessions: seq<seq<string>>,
                  timeout: int, mint: Mint, k: string, i: nat, l: string, j: nat)
    requires Fresh(mint) && UniqueIds(rows) && Snapshot(table, rows) && BucketsOf(buckets, keys, rows)
    requires SameShape(buckets, sessions) && AllNamed(sessions, buckets, timeout, mint)
    ensures SplitCorrectly(Applied(table, AllUpdates(buckets, sessions)), rows, timeout, k, i, l, j)
  {
    if i < |Filter(rows, k)| && j < |Filter(rows, l)| {
      BucketsAreDistinct(rows, keys, buckets);
      var b: nat :| b < |keys| && keys[b] == k;
      var c: nat :| c < |keys| && keys[c] == l;
      InFilter(rows, k, buckets[b][i]);
      InFilter(rows, l, buckets[c][j]);
      RowOfBucket(table, rows, buckets, sessions, timeout, mint, b, i);
      RowOfBucket(table, rows, buckets, sessions, timeout, mint, c, j);
      OfflinePartition(buckets, timeout, mint, b, i, c, j);
      assert b == c <==> k == l;
    }
  }

  /** Every session after a run is one it minted. */
  ghost predicate NamedBy(after: Table, rows: seq<Row>, mint: Mint) {
    forall r :: r in rows ==> r.id in after && exists n: nat :: after[r.id] == Some(mint(n))
  }

  lemma MintedName(table: Table, rows: seq<Row>, keys: seq<string>, buckets: seq<seq<Row>>, sessions: seq<seq<string>>,
                   timeout: int, mint: Mint, r: Row)
    requires UniqueIds(rows) && Snapshot(table, rows) && BucketsOf(buckets, keys, rows) && r in rows
    requires SameShape(buckets, sessions) && AllNamed(sessions, buckets, timeout, mint)
    ensures var after := Applied(table, AllUpdates(buckets, sessions));
            r.id in after && exists n: nat :: after[r.id] == Some(mint(n))
  {
    InFilter(rows, r.key, r);
    BucketsAreDistinct(rows, keys, buckets);
    var b: nat :| b < |keys| && keys[b] == r.key;
    var i: nat :| i < |buckets[b]| && buckets[b][i] == r;
    RowOfBucket(table, rows, buckets, sessions, timeout, mint, b, i);
    var _ := SessionIsMinted(buckets, timeout, mint, b, i);
  }

  lemma SessionIsMinted(buckets: seq<seq<Row>>, timeout: int, mint: Mint, b: nat, i: nat) returns (n: nat)
    requires b < |buckets| && i < |buckets[b]|
    ensures SessionOf(buckets, timeout, mint, b, i) == mint(n)
  {
    CountPositive(Breaks(buckets[b], timeout), i);
    n := Minted(buckets[..b], timeout) + Count(Breaks(buckets[b], timeout)[..i + 1]) - 1;
  }

  lemma GroupsAreBuckets(rows: seq<Row>, keys: seq<string>, groups: map<string, seq<Row>>, buckets: seq<seq<Row>>)
    requires Keyed(keys, groups) && Grouped(groups, rows)
    requires |buckets| == |keys| && forall b :: 0 <= b < |keys| ==> buckets[b] == groups[keys[b]]
    ensures BucketsOf(buckets, keys, rows)
  {
  }

  lemma SplitDone(table: Table, rows: seq<Row>, keys: seq<string>, buckets: seq<seq<Row>>, sessions: seq<seq<string>>,
                  timeout: int, mint: Mint, after: Table)
    requires Fresh(mint) && UniqueIds(rows) && Snapshot(table, rows) && BucketsOf(buckets, keys, rows)
    requires SameShape(buckets, sessions) && AllNamed(sessions, buckets, timeout, mint)
    requires after == Applied(table, AllUpdates(buckets, sessions))
    ensures Partitioned(after, rows, timeout) && NamedBy(after, rows, mint)
  {
    forall k: string, i: nat, l: string, j: nat
      ensures SplitCorrectly(after, rows, timeout, k, i, l, j)
    {
      SplitPair(table, rows, keys, buckets, sessions, timeout, mint, k, i, l, j);
    }
    forall r | r in rows
      ensures r.id in after && exists n: nat :: after[r.id] == Some(mint(n))
    {
      MintedName(table, rows, keys, buckets, sessions, timeout, mint, r);
    }
  }

  method SplitSessions(table: Table, rows: seq<Row>, timeout: int, mint: Mint) returns (after: Table)
    requires Fresh(mint) && UniqueIds(rows) && Snapshot(table, rows)
    ensures Partitioned(after, rows, timeout) && NamedBy(after, rows, mint)
  {
    var keys, groups := Bucket(rows);
    var buckets := seq(|keys|, i requires 0 <= i < |keys| => groups[keys[i]]);
    var sessions, updates := WalkAll(buckets, timeout, mint);
    after := ApplyInBatches(table, updates);
    GroupsAreBuckets(rows, keys, groups, buckets);
    SplitDone(table, rows, keys, buckets, sessions, timeout, mint, after);
  }

  /** The rows as a second run reads them. */
  function Reread(rows: seq<Row>, table: Table): (r: seq<Row>)
    requires forall x :: x in rows ==> x.id in table
    ensures |r| == |rows| && forall i :: 0 <= i < |r| ==> r[i] == rows[i].(session := table[rows[i].id])
  {
    seq(|rows|, i requires 0 <= i < |rows| => rows[i].(session := table[rows[i].id]))
  }

  lemma RereadInit(rows: seq<Row>, table: Table)
    requires rows != [] && forall x :: x in rows ==> x.id in table
    ensures var n := |rows| - 1;
            && (forall x :: x in rows[..n] ==> x.id in table)
            && Reread(rows, table)[..n] == Reread(rows[..n], table) && Reread(rows, table)[n] == rows[n].(session := table[rows[n].id])
  {
  }

  lemma {:induction false} FilterOfReread(rows: seq<Row>, table: Table, key: string)
    requires forall x :: x in rows ==> x.id in table
    ensures var f, g := Filter(rows, key), Filter(Reread(rows, table), key);
            |f| == |g| && forall i :: 0 <= i < |f| ==> f[i].id == g[i].id && f[i].at == g[i].at
  {
    if rows != [] {
      var n := |rows| - 1;
      RereadInit(rows, table);
      FilterOfReread(rows[..n], table, key);
    }
  }

  lemma BreaksOfReread(rows: seq<Row>, table: Table, key: string, timeout: int)
    requires forall x :: x in rows ==> x.id in table
    ensures Breaks(Filter(rows, key), timeout) == Breaks(Filter(Reread(rows, table), key), timeout)
  {
    FilterOfReread(rows, table, key);
  }

  /** Two runs split alike: the names may differ, who shares one does not. */
  lemma RerunKeepsPartition(rows: seq<Row>, first: Table, second: Table, timeout: int, k: string, i: nat, l: string, j: nat)
    requires forall x :: x in rows ==> x.id in first
    requires Partitioned(first, rows, timeout) && Partitioned(second, Reread(rows, first), timeout)
    requires i < |Filter(rows, k)| && j < |Filter(rows, l)|
    ensures var r, q := Filter(rows, k)[i].id, Filter(rows, l)[j].id;
            && r in first && q in first && r in second && q in second
            && (first[r] == first[q] <==> second[r] == second[q])
  {
    FilterOfReread(rows, first, k);
    FilterOfReread(rows, first, l);
    BreaksOfReread(rows, first, k, timeout);
    assert SplitCorrectly(first, rows, timeout, k, i, l, j);
    assert SplitCorrectly(second, Reread(rows, first), timeout, k, i, l, j);
    assert SplitCorrectly(second, Reread(rows, first), timeout, l, j, k, i);
    assert SplitCorrectly(first, rows, timeout, l, j, k, i);
  }

  /** And every row's name does: a second run mints all of them anew. */
  lemma RerunChangesEveryId(rows: seq<Row>, first: Table, second: Table, mint: Mint, mint': Mint, r: Row)
    requires NamedBy(first, rows, mint) && NamedBy(second, Reread(rows, first), mint') && r in rows
    requires forall n: nat, n': nat :: mint(n) != mint'(n')
    ensures r.id in first && r.id in second && first[r.id] != second[r.id]
  {
    var i :| 0 <= i < |rows| && rows[i] == r;
    var again := Reread(rows, first)[i];
    assert again in Reread(rows, first) && again.id == r.id;
    var n: nat :| first[r.id] == Some(mint(n));
    var n': nat :| second[again.id] == Some(mint'(n'));
  }

  // ── The online rule ───────────────────────────────────────────────────────

  /** A row of the chat that names a session, and none that does is later; rows without one do not match the query. */
  predicate IsLatest(rows: seq<Row>, k: nat) {
    && k < |rows| && rows[k].session.Some?
    && forall i :: 0 <= i < |rows| && rows[i].session.Some? ==> rows[i].at <= rows[k].at
  }

  /** The session of an arrival: that of some latest row, unless the gap to it is too long. */
  ghost predicate Resolves(rows: seq<Row>, now: int, timeout: int, minted: string, session: string) {
    if forall i :: 0 <= i < |rows| ==> rows[i].session.None? then session == minted
    else exists k: nat :: IsLatest(rows, k) && session == Continue(rows[k], now, timeout, minted)
  }

  function Continue(latest: Row, now: int, timeout: int, minted: string): string {
    if latest.session.Some? && now - latest.at <= timeout then latest.session.value else minted
  }

  /** The conversations of one chat without threads. */
  class ConversationLog {
    var rows: seq<Row>

    constructor ()
      ensures rows == []
    {
      rows := [];
    }

    method ResolveChannelSessionId(now: int, timeout: int, minted: string) returns (session: string)
      ensures Resolves(rows, now, timeout, minted, session)
    {
      var latest: Option<nat> := None;
      for i := 0 to |rows|
        invariant latest.None? ==> forall j :: 0 <= j < i ==> rows[j].session.None?
        invariant latest.Some? ==> IsLatest(rows[..i], latest.value)
      {
        if rows[i].session.Some? && (latest.None? || rows[i].at > rows[latest.value].at) {
          latest := Some(i);
        }
      }
      assert rows[..|rows|] == rows;
      session := match latest case None => minted case Some(k) => Continue(rows[k], now, timeout, minted);
    }

    method RecordConversation(id: string, key: string, session: string, at: int)
      modifies this
      ensures rows == old(rows) + [Row(id, key, Some(session), at)]
    {
      rows := rows + [Row(id, key, Some(session), at)];
    }
  }

  /** Rows that arrived one after another: resolved at nows[i], stored at rows[i].at. */
  ghost predicate Arrived(rows: seq<Row>, nows: seq<int>, timeout: int, mint: Mint) {
    && |nows| == |rows|
    && forall i :: 0 <= i < |rows| ==> ArrivedAt(rows, nows[i], timeout, mint, i)
  }

  ghost predicate ArrivedAt(rows: seq<Row>, now: int, timeout: int, mint: Mint, i: nat)
    requires i < |rows|
  {
    && rows[i].session.Some?
    && Resolves(rows[..i], now, timeout, mint(i), rows[i].session.value)
    && (i > 0 ==> rows[i - 1].at <= now) && now <= rows[i].at
  }

  /** One arrival extends the log the way `Arrived` says. */
  method Arrive(log: ConversationLog, ghost nows: seq<int>, now: int, at: int, timeout: int, id: string, key: string, mint: Mint)
    requires Arrived(log.rows, nows, timeout, mint)
    requires now <= at && (log.rows != [] ==> log.rows[|log.rows| - 1].at <= now)
    modifies log
    ensures Arrived(log.rows, nows + [now], timeout, mint) && |log.rows| == |old(log.rows)| + 1
  {
    ghost var before := log.rows;
    var session := log.ResolveChannelSessionId(now, timeout, mint(|log.rows|));
    log.RecordConversation(id, key, session, at);
    assert log.rows[..|before|] == before;
    forall i | 0 <= i < |before|
      ensures ArrivedAt(log.rows, (nows + [now])[i], timeout, mint, i)
    {
      assert ArrivedAt(before, nows[i], timeout, mint, i);
      assert log.rows[..i] == before[..i];
    }
  }

  /** Where arrivals mint: at the first and after a gap, seen from the row before, that is too long. */
  function OnlineBreaks(rows: seq<Row>, nows: seq<int>, timeout: int): (b: seq<bool>)
    requires |nows| == |rows|
    ensures |b| == |rows|
  {
    seq(|rows|, i requires 0 <= i < |rows| => i == 0 || nows[i] - rows[i - 1].at > timeout)
  }

  /** Arrivals are of one run when none of them, after the first, came too long after the row stored before it. */
  lemma ArrivalRunsAreGapFree(rows: seq<Row>, nows: seq<int>, timeout: int, i: nat, j: nat)
    requires |nows| == |rows| && i <= j < |rows|
    ensures SameRun(OnlineBreaks(rows, nows, timeout), i, j) <==> forall k :: i < k <= j ==> nows[k] - rows[k - 1].at <= timeout
    ensures SameRun(OnlineBreaks(rows, nows, timeout), j, i) <==> SameRun(OnlineBreaks(rows, nows, timeout), i, j)
  {
    var b := OnlineBreaks(rows, nows, timeout);
    RunBetween(b, i, j);
    forall k | i < k <= j
      ensures b[k] <==> nows[k] - rows[k - 1].at > timeout
    {
    }
  }

  /** The position that started the run of i. */
  function Start(breaks: seq<bool>, i: nat): (s: nat)
    requires i < |breaks| && breaks[0]
    ensures s <= i && breaks[s] && Unbroken(breaks, s, i)
  {
    if breaks[i] then i else Start(breaks, i - 1)
  }

  lemma {:induction false} AtMonotone(rows: seq<Row>, nows: seq<int>, timeout: int, mint: Mint, i: nat, j: nat)
    requires Arrived(rows, nows, timeout, mint) && i <= j < |rows|
    ensures rows[i].at <= rows[j].at
    decreases j
  {
    if i < j {
      AtMonotone(rows, nows, timeout, mint, i, j - 1);
      assert ArrivedAt(rows, nows[j], timeout, mint, j);
    }
  }

  /** Rows stored at the time of the last one are in its run. */
  lemma {:induction false} TiesShareRun(rows: seq<Row>, nows: seq<int>, timeout: int, mint: Mint, k: nat, i: nat)
    requires Arrived(rows, nows, timeout, mint) && 0 <= timeout && k <= i < |rows| && rows[k].at == rows[i].at
    ensures var b := OnlineBreaks(rows, nows, timeout); Start(b, k) == Start(b, i)
    decreases i
  {
    if k < i {
      AtMonotone(rows, nows, timeout, mint, k, i - 1);
      assert ArrivedAt(rows, nows[i], timeout, mint, i);
      TiesShareRun(rows, nows, timeout, mint, k, i - 1);
    }
  }

  /** Some latest row before i, which decided its session. */
  lemma Decider(rows: seq<Row>, nows: seq<int>, timeout: int, mint: Mint, i: nat) returns (k: nat)
    requires Arrived(rows, nows, timeout, mint) && 0 < i < |rows|
    ensures k < i && rows[k].at == rows[i - 1].at
    ensures rows[i].session == Some(Continue(rows[k], nows[i], timeout, mint(i)))
  {
    assert ArrivedAt(rows, nows[i], timeout, mint, i) && ArrivedAt(rows, nows[i - 1], timeout, mint, i - 1);
    assert rows[..i][i - 1] == rows[i - 1];
    k :| IsLatest(rows[..i], k) && rows[i].session.value == Continue(rows[..i][k], nows[i], timeout, mint(i));
    AtMonotone(rows, nows, timeout, mint, k, i - 1);
    assert rows[..i][i - 1].at <= rows[..i][k].at;
  }

  lemma StartStep(rows: seq<Row>, nows: seq<int>, timeout: int, i: nat)
    requires |nows| == |rows| && 0 < i < |rows|
    ensures var b := OnlineBreaks(rows, nows, timeout);
            Start(b, i) == if nows[i] - rows[i - 1].at > timeout then i else Start(b, i - 1)
  {
  }

  /** Every arrival has the name minted when its run started. */
  lemma {:induction false} OnlineSession(rows: seq<Row>, nows: seq<int>, timeout: int, mint: Mint, i: nat)
    requires Arrived(rows, nows, timeout, mint) && 0 <= timeout && i < |rows|
    ensures rows[i].session == Some(mint(Start(OnlineBreaks(rows, nows, timeout), i)))
    decreases i
  {
    if i == 0 {
      assert ArrivedAt(rows, nows[0], timeout, mint, 0);
    } else {
      var k := Decider(rows, nows, timeout, mint, i);
      OnlineSession(rows, nows, timeout, mint, k);
      TiesShareRun(rows, nows, timeout, mint, k, i - 1);
      StartStep(rows, nows, timeout, i);
      assert rows[i].session == Some(if nows[i] - rows[i - 1].at <= timeout then rows[k].session.value else mint(i));
    }
  }

  lemma StartIsRun(breaks: seq<bool>, i: nat, j: nat)
    requires i < |breaks| && j < |breaks| && breaks[0]
    ensures Start(breaks, i) == Start(breaks, j) <==> SameRun(breaks, i, j)
  {
    var s, t := Start(breaks, i), Start(breaks, j);
    assert breaks[s] && breaks[t];
  }

  /** Arrivals share a session exactly when no gap between them was too long. */
  lemma OnlinePartition(rows: seq<Row>, nows: seq<int>, timeout: int, mint: Mint, i: nat, j: nat)
    requires Arrived(rows, nows, timeout, mint) && Fresh(mint) && 0 <= timeout && i < |rows| && j < |rows|
    ensures rows[i].session == rows[j].session <==> SameRun(OnlineBreaks(rows, nows, timeout), i, j)
  {
    OnlineSession(rows, nows, timeout, mint, i);
    OnlineSession(rows, nows, timeout, mint, j);
    StartIsRun(OnlineBreaks(rows, nows, timeout), i, j);
  }

  // ── Online and offline ────────────────────────────────────────────────────

  /** A gap is judged alike by the arrival rule and by the walk. */
  predicate GapAgrees(rows: seq<Row>, nows: seq<int>, online: int, offline: int, i: nat)
    requires 0 < i < |rows| == |nows|
  {
    nows[i] - rows[i - 1].at <= online <==> rows[i].at - rows[i - 1].at <= offline
  }

  ghost predicate SamePartition(rows: seq<Row>, walked: seq<string>)
    requires |walked| == |rows|
  {
    forall i, j :: 0 <= i < |rows| && 0 <= j < |rows| ==> (rows[i].session == rows[j].session <==> walked[i] == walked[j])
  }

  lemma WalkedPartition(rows: seq<Row>, timeout: int, mint: Mint, base: nat, walked: seq<string>, i: nat, j: nat)
    requires Fresh(mint) && |walked| == |rows| && Named(walked, Breaks(rows, timeout), mint, base)
    requires i < |rows| && j < |rows|
    ensures walked[i] == walked[j] <==> SameRun(Breaks(rows, timeout), i, j)
  {
    var b := Breaks(rows, timeout);
    assert walked[i] == Nth(mint, base, b, i) && walked[j] == Nth(mint, base, b, j);
    CountPositive(b, i);
    CountPositive(b, j);
    SameRunIsSameCount(b, i, j);
  }

  ghost predicate SameRuns(a: seq<bool>, b: seq<bool>)
    requires |a| == |b|
  {
    forall i, j :: 0 <= i < |a| && 0 <= j < |a| ==> (SameRun(a, i, j) <==> SameRun(b, i, j))
  }

  lemma RunsDetermineBreaks(a: seq<bool>, b: seq<bool>)
    requires |a| == |b| && (a != [] ==> a[0] && b[0])
    ensures SameRuns(a, b) <==> a == b
  {
    if SameRuns(a, b) {
      forall i | 0 < i < |a|
        ensures a[i] == b[i]
      {
        assert SameRun(a, i - 1, i) == !a[i] && SameRun(b, i - 1, i) == !b[i];
      }
    }
  }

  lemma AgreeingGaps(rows: seq<Row>, nows: seq<int>, online: int, offline: int)
    requires |nows| == |rows|
    ensures OnlineBreaks(rows, nows, online) == Breaks(rows, offline)
      <==> forall i :: 0 < i < |rows| ==> GapAgrees(rows, nows, online, offline, i)
  {
    var a, b := OnlineBreaks(rows, nows, online), Breaks(rows, offline);
    assert forall i :: 0 < i < |rows| ==> (GapAgrees(rows, nows, online, offline, i) <==> a[i] == b[i]);
  }

  ghost predicate FollowRuns(names: seq<string>, breaks: seq<bool>)
    requires |names| == |breaks|
  {
    forall i, j :: 0 <= i < |names| && 0 <= j < |names| ==> (names[i] == names[j] <==> SameRun(breaks, i, j))
  }

  ghost predicate RowsFollowRuns(rows: seq<Row>, breaks: seq<bool>)
    requires |rows| == |breaks|
  {
    forall i, j :: 0 <= i < |rows| && 0 <= j < |rows| ==> (rows[i].session == rows[j].session <==> SameRun(breaks, i, j))
  }

  lemma SamePartitionIsSameRuns(rows: seq<Row>, walked: seq<string>, a: seq<bool>, b: seq<bool>)
    requires |rows| == |walked| == |a| == |b| && RowsFollowRuns(rows, a) && FollowRuns(walked, b)
    ensures SamePartition(rows, walked) <==> SameRuns(a, b)
  {
    if SamePartition(rows, walked) {
      forall i, j | 0 <= i < |a| && 0 <= j < |a|
        ensures SameRun(a, i, j) <==> SameRun(b, i, j)
      {
        assert rows[i].session == rows[j].session <==> walked[i] == walked[j];
      }
    }
  }

  /**
   The sessions of arrivals and those the offline walk would give them group the
   rows alike exactly when every gap is judged alike; in particular when rows are
   stored at the time they are resolved and both use the same timeout.
   */
  lemma OnlineEqualsBatch(rows: seq<Row>, nows: seq<int>, online: int, offline: int, mint: Mint, mint': Mint,
                          base: nat, walked: seq<string>)
    requires Arrived(rows, nows, online, mint) && Fresh(mint) && Fresh(mint') && 0 <= online
    requires |walked| == |rows| && Named(walked, Breaks(rows, offline), mint', base)
    ensures SamePartition(rows, walked) <==> forall i :: 0 < i < |rows| ==> GapAgrees(rows, nows, online, offline, i)
  {
    var a, b := OnlineBreaks(rows, nows, online), Breaks(rows, offline);
    assert RowsFollowRuns(rows, a) by {
      forall i, j | 0 <= i < |rows| && 0 <= j < |rows|
        ensures rows[i].session == rows[j].session <==> SameRun(a, i, j)
      {
        OnlinePartition(rows, nows, online, mint, i, j);
      }
    }
    assert FollowRuns(walked, b) by {
      forall i, j | 0 <= i < |rows| && 0 <= j < |rows|
        ensures walked[i] == walked[j] <==> SameRun(b, i, j)
      {
        WalkedPartition(rows, offline, mint', base, walked, i, j);
      }
    }
    SamePartitionIsSameRuns(rows, walked, a, b);
    RunsDetermineBreaks(a, b);
    AgreeingGaps(rows, nows, online, offline);
  }

  /** Rows stored when they are resolved, and one timeout: the two always agree. */
  lemma SameClockSamePartition(rows: seq<Row>, nows: seq<int>, timeout: int, mint: Mint, mint': Mint, base: nat,
                               walked: seq<string>)
    requires Arrived(rows, nows, timeout, mint) && Fresh(mint) && Fresh(mint') && 0 <= timeout
    requires forall i :: 0 <= i < |rows| ==> nows[i] == rows[i].at
    requires |walked| == |rows| && Named(walked, Breaks(rows, timeout), mint', base)
    ensures SamePartition(rows, walked)
  {
    OnlineEqualsBatch(rows, nows, timeout, timeout, mint, mint', base, walked);
  }
}
