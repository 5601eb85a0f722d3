/**
 Cross-replica fan-out of workspace events (apps/api/src/sse-emitter.ts): local
 delivery at the origin, one Redis publish, and one lazily created subscriber
 per replica that skips its own publishes. Redis pub/sub hands each published
 message to every subscription open at that moment, or loses it.
 */
module SseFanout {

  type ReplicaId = nat
  type ConnId = nat
  type EmissionId = nat

  /** `openedAt` is the number of emissions made before the connection opened. */
  datatype Conn = Conn(ws: string, openedAt: nat)

  /** `inits` counts the calls of `initCrossReplicaSubscriber` that are past their guard and not done. */
  datatype Replica = Replica(conns: map<ConnId, Conn>, subscriptions: nat, initializing: bool, inits: nat)

  /** `sentTo` is history: the replicas that were subscribed when Redis took the publish. */
  datatype Emission = Emission(origin: ReplicaId, ws: string, sentTo: set<ReplicaId>)

  type Message = (ReplicaId, EmissionId)

  /** `copies` are the messages in flight; `handled` and `lost` are history. */
  datatype State = State(replicas: map<ReplicaId, Replica>, nextConn: ConnId, emissions: seq<Emission>,
                         copies: multiset<Message>, handled: multiset<Message>, lost: multiset<Message>,
                         delivered: multiset<(EmissionId, ReplicaId, ConnId)>, notified: multiset<Message>)

  datatype Action =
    | Join(r: ReplicaId)
    | Open(r: ReplicaId, ws: string)
    | Close(r: ReplicaId, c: ConnId)
    | InitBegin(r: ReplicaId, redisUp: bool)
    | InitDone(r: ReplicaId, ok: bool)
    | Emit(r: ReplicaId, ws: string, failing: set<ConnId>, published: bool)
    | Receive(m: Message, failing: set<ConnId>)
    | Lose(m: Message)

  predicate Enabled(s: State, a: Action) {
    match a
    case Join(r) => r !in s.replicas
    case Open(r, _) => r in s.replicas
    case Close(r, c) => r in s.replicas && c in s.replicas[r].conns
    case InitBegin(r, _) => r in s.replicas
    case InitDone(r, _) => r in s.replicas && s.replicas[r].inits > 0
    case Emit(r, _, _, _) => r in s.replicas
    case Receive(m, _) => m in s.copies && m.0 in s.replicas && m.1 < |s.emissions|
    case Lose(m) => m in s.copies
  }

  function Put(s: State, r: ReplicaId, replica: Replica): State {
    s.(replicas := s.replicas[r := replica])
  }

  /** `deliverLocal`: one frame to each open connection of the workspace; failing sockets are dropped. */
  function Deliver(s: State, r: ReplicaId, ws: string, n: EmissionId, failing: set<ConnId>): State
    requires r in s.replicas
  {
    var conns := s.replicas[r].conns;
    var kept := map c | c in conns && !(conns[c].ws == ws && c in failing) :: conns[c];
    Put(s, r, s.replicas[r].(conns := kept)).(delivered := s.delivered + multiset(Frames(conns, r, ws, n, failing)))
  }

  function Frames(conns: map<ConnId, Conn>, r: ReplicaId, ws: string, n: EmissionId, failing: set<ConnId>)
    : set<(EmissionId, ReplicaId, ConnId)>
  {
    set c | c in conns && conns[c].ws == ws && c !in failing :: (n, r, c)
  }

  function Subscribed(s: State): set<ReplicaId> {
    set r | r in s.replicas && s.replicas[r].subscriptions > 0
  }

  /** One copy of emission `n` per open subscription. */
  ghost function CopiesOf(s: State, targets: set<ReplicaId>, n: EmissionId): multiset<Message>
    requires targets <= s.replicas.Keys
    decreases |targets|
  {
    if targets == {} then multiset{}
    else
      var r :| r in targets;
      CopiesOf(s, targets - {r}, n) + multiset{}[(r, n) := s.replicas[r].subscriptions]
  }

  ghost function Apply(s: State, a: Action): State
    requires Enabled(s, a)
  {
    match a
    case Join(r) => Put(s, r, Replica(map[], 0, false, 0))
    case Open(r, ws) =>
      var replica := s.replicas[r];
      Put(s, r, replica.(conns := replica.conns[s.nextConn := Conn(ws, |s.emissions|)])).(nextConn := s.nextConn + 1)
    case Close(r, c) => Put(s, r, s.replicas[r].(conns := s.replicas[r].conns - {c}))
    case InitBegin(r, redisUp) =>
      var replica := s.replicas[r];
      if replica.subscriptions > 0 || replica.initializing || !redisUp then s
      else Put(s, r, replica.(initializing := true, inits := replica.inits + 1))
    case InitDone(r, ok) =>
      var replica := s.replicas[r];
      Put(s, r, replica.(initializing := false, inits := replica.inits - 1,
                         subscriptions := replica.subscriptions + (if ok then 1 else 0)))
    case Emit(r, ws, failing, published) =>
      var n := |s.emissions|;
      var sentTo := if published then Subscribed(s) else {};
      Deliver(s, r, ws, n, failing).(emissions := s.emissions + [Emission(r, ws, sentTo)],
                                     notified := s.notified + multiset{(r, n)},
                                     copies := s.copies + CopiesOf(s, sentTo, n))
    case Receive(m, failing) =>
      var s' := s.(copies := s.copies - multiset{m}, handled := s.handled + multiset{m});
      if s.emissions[m.1].origin == m.0 then s'
      else Deliver(s', m.0, s.emissions[m.1].ws, m.1, failing)
    case Lose(m) => s.(copies := s.copies - multiset{m}, lost := s.lost + multiset{m})
  }

  ghost predicate Runs(s: State, actions: seq<Action>, s': State)
    decreases |actions|
  {
    if actions == [] then s == s'
    else Enabled(s, actions[0]) && Runs(Apply(s, actions[0]), actions[1..], s')
  }

  const INIT := State(map[], 0, [], multiset{}, multiset{}, multiset{}, multiset{}, multiset{})

  // ── Invariant ─────────────────────────────────────────────────────────────

  /** At most one subscriber exists or is being made. */
  ghost predicate OneSubscriber(s: State) {
    forall r: ReplicaId :: r in s.replicas ==> SubscriberOk(s.replicas[r])
  }

  predicate SubscriberOk(replica: Replica) {
    && replica.subscriptions + replica.inits <= 1
    && (replica.inits > 0 ==> replica.initializing)
  }

  /** Each message is somewhere exactly once if it was sent, and nowhere if not. */
  ghost predicate MessagesConserved(s: State) {
    forall r: ReplicaId, n: EmissionId :: s.copies[(r, n)] + s.handled[(r, n)] + s.lost[(r, n)]
                   == if n < |s.emissions| && r in s.emissions[n].sentTo then 1 else 0
  }

  /** Emission `n` has been delivered at replica `r`. */
  ghost predicate ReachedReplica(s: State, n: EmissionId, r: ReplicaId) {
    n < |s.emissions| && (r == s.emissions[n].origin || (r, n) in s.handled)
  }

  ghost predicate DeliveredOk(s: State) {
    forall n: EmissionId, r: ReplicaId, c: ConnId :: DeliveredWell(s, n, r, c)
  }

  /** At most one frame, and only of an emission that reached the replica. */
  ghost predicate DeliveredWell(s: State, n: EmissionId, r: ReplicaId, c: ConnId) {
    && s.delivered[(n, r, c)] <= 1
    && (s.delivered[(n, r, c)] > 0 ==> ReachedReplica(s, n, r) && c < s.nextConn)
  }

  ghost predicate ConnsOk(s: State) {
    forall r: ReplicaId, c: ConnId :: r in s.replicas && c in s.replicas[r].conns ==>
      c < s.nextConn && s.replicas[r].conns[c].openedAt <= |s.emissions|
  }

  /**
   Of the emissions made since it opened, an open connection has exactly those of
   its workspace that reached its replica; of earlier ones, at most those of its
   workspace that came from elsewhere.
   */
  ghost predicate HasItsOwn(s: State) {
    forall r: ReplicaId, c: ConnId, n: EmissionId :: HasIfOwed(s, r, c, n)
  }

  ghost predicate HasIfOwed(s: State, r: ReplicaId, c: ConnId, n: EmissionId) {
    r in s.replicas && c in s.replicas[r].conns ==>
      && (s.replicas[r].conns[c].openedAt <= n ==> s.delivered[(n, r, c)] == if ShouldHave(s, r, c, n) then 1 else 0)
      && (s.delivered[(n, r, c)] > 0 ==> FromElsewhere(s, r, c, n) || ShouldHave(s, r, c, n))
  }

  ghost predicate FromElsewhere(s: State, r: ReplicaId, c: ConnId, n: EmissionId)
    requires r in s.replicas && c in s.replicas[r].conns
  {
    n < |s.emissions| && s.emissions[n].origin != r && (r, n) in s.handled && s.emissions[n].ws == s.replicas[r].conns[c].ws
  }

  ghost predicate ShouldHave(s: State, r: ReplicaId, c: ConnId, n: EmissionId) {
    && r in s.replicas && c in s.replicas[r].conns
    && ReachedReplica(s, n, r)
    && s.replicas[r].conns[c].ws == s.emissions[n].ws
    && s.replicas[r].conns[c].openedAt <= n
  }

  ghost predicate NotifiedOk(s: State) {
    forall r: ReplicaId, n: EmissionId :: s.notified[(r, n)] == if n < |s.emissions| && s.emissions[n].origin == r then 1 else 0
  }

  ghost predicate Inv(s: State) {
    OneSubscriber(s) && MessagesConserved(s) && DeliveredOk(s) && ConnsOk(s) && HasItsOwn(s) && NotifiedOk(s)
  }

  lemma {:induction false} CopiesCount(s: State, targets: set<ReplicaId>, n: EmissionId)
    requires targets <= s.replicas.Keys
    ensures forall r: ReplicaId, m: EmissionId :: CopiesOf(s, targets, n)[(r, m)] == if r in targets && m == n then s.replicas[r].subscriptions else 0
    decreases |targets|
  {
    if targets != {} {
      forall r | r in targets {
        CopiesCount(s, targets - {r}, n);
      }
    }
  }

  lemma MessagesStep(s: State, a: Action)
    requires Inv(s) && Enabled(s, a)
    ensures MessagesConserved(Apply(s, a))
  {
    if a.Emit? {
      var sentTo := if a.published then Subscribed(s) else {};
      CopiesCount(s, sentTo, |s.emissions|);
      assert forall r: ReplicaId :: r in Subscribed(s) ==> s.replicas[r].subscriptions == 1;
    }
  }

  /** One delivery writes to the open connections of the workspace, and drops those whose write fails. */
  lemma DeliverAt(s: State, r: ReplicaId, ws: string, n: EmissionId, failing: set<ConnId>, m: EmissionId, q: ReplicaId, c: ConnId)
    requires r in s.replicas
    ensures Deliver(s, r, ws, n, failing).delivered[(m, q, c)]
              == s.delivered[(m, q, c)]
                 + (if m == n && q == r && c in s.replicas[r].conns && s.replicas[r].conns[c].ws == ws && c !in failing then 1 else 0)
  {
    var conns := s.replicas[r].conns;
    assert (m, q, c) in Frames(conns, r, ws, n, failing) <==>
             m == n && q == r && c in conns && conns[c].ws == ws && c !in failing;
  }

  lemma EmitDelivers(s: State, a: Action, n: EmissionId, r: ReplicaId, c: ConnId)
    requires Inv(s) && Enabled(s, a) && a.Emit?
    ensures DeliveredWell(Apply(s, a), n, r, c) && HasIfOwed(Apply(s, a), r, c, n)
  {
    var s' := Apply(s, a);
    DeliverAt(s, a.r, a.ws, |s.emissions|, a.failing, n, r, c);
    assert s.handled[(r, |s.emissions|)] == 0;
    assert DeliveredWell(s, n, r, c) && HasIfOwed(s, r, c, n);
    assert ReachedReplica(s', n, r) <==> ReachedReplica(s, n, r) || (n == |s.emissions| && r == a.r);
    if r in s.replicas {
      DeliverKeeps(s, a.r, a.ws, |s.emissions|, a.failing, r);
    }
  }

  lemma ReceiveReaches(s: State, a: Action, n: EmissionId, r: ReplicaId)
    requires Inv(s) && Enabled(s, a) && a.Receive?
    ensures ReachedReplica(Apply(s, a), n, r) <==> ReachedReplica(s, n, r) || (r, n) == a.m
    ensures s.handled[a.m] == 0 && Apply(s, a).emissions == s.emissions
  {
    assert s.copies[(a.m.0, a.m.1)] + s.handled[(a.m.0, a.m.1)] + s.lost[(a.m.0, a.m.1)] <= 1;
  }

  lemma ReceiveDelivers(s: State, a: Action, n: EmissionId, r: ReplicaId, c: ConnId)
    requires Inv(s) && Enabled(s, a) && a.Receive?
    ensures DeliveredWell(Apply(s, a), n, r, c) && HasIfOwed(Apply(s, a), r, c, n)
  {
    var (q, k) := a.m;
    ReceiveReaches(s, a, n, r);
    assert DeliveredWell(s, n, r, c) && HasIfOwed(s, r, c, n);
    if s.emissions[k].origin != q {
      var m := s.(copies := s.copies - multiset{a.m}, handled := s.handled + multiset{a.m});
      DeliverAt(m, q, s.emissions[k].ws, k, a.failing, n, r, c);
      if r in s.replicas {
        DeliverKeeps(m, q, s.emissions[k].ws, k, a.failing, r);
      }
    }
  }

  lemma QuietDelivers(s: State, a: Action, n: EmissionId, r: ReplicaId, c: ConnId)
    requires DeliveredWell(s, n, r, c) && HasIfOwed(s, r, c, n) && Enabled(s, a) && !a.Emit? && !a.Receive?
    ensures DeliveredWell(Apply(s, a), n, r, c) && HasIfOwed(Apply(s, a), r, c, n)
  {
    assert ReachedReplica(Apply(s, a), n, r) <==> ReachedReplica(s, n, r);
  }

  lemma DeliveriesStep(s: State, a: Action)
    requires Inv(s) && Enabled(s, a)
    ensures DeliveredOk(Apply(s, a)) && HasItsOwn(Apply(s, a))
  {
    forall n: EmissionId, r: ReplicaId, c: ConnId
      ensures DeliveredWell(Apply(s, a), n, r, c) && HasIfOwed(Apply(s, a), r, c, n)
    {
      if a.Emit? {
        EmitDelivers(s, a, n, r, c);
      } else if a.Receive? {
        ReceiveDelivers(s, a, n, r, c);
      } else {
        assert DeliveredWell(s, n, r, c) && HasIfOwed(s, r, c, n);
        QuietDelivers(s, a, n, r, c);
      }
    }
  }

  /** A delivery takes away exactly the connections it failed to write to. */
  lemma DeliverKeeps(s: State, r: ReplicaId, ws: string, n: EmissionId, failing: set<ConnId>, q: ReplicaId)
    requires r in s.replicas && q in s.replicas
    ensures var t := Deliver(s, r, ws, n, failing);
            && t.replicas.Keys == s.replicas.Keys
            && t.replicas[q].(conns := map[]) == s.replicas[q].(conns := map[])
            && (forall c :: c in t.replicas[q].conns ==> c in s.replicas[q].conns && t.replicas[q].conns[c] == s.replicas[q].conns[c])
            && (forall c :: c in s.replicas[q].conns ==>
                  (c !in t.replicas[q].conns <==> q == r && s.replicas[q].conns[c].ws == ws && c in failing))
  {
  }

  /** What a step that delivers leaves of the replicas and the connection counter. */
  lemma DeliveringStep(s: State, a: Action, q: ReplicaId)
    requires Enabled(s, a) && (a.Emit? || a.Receive?) && q in s.replicas
    ensures var t := Apply(s, a);
            && t.replicas.Keys == s.replicas.Keys && t.nextConn == s.nextConn && |t.emissions| >= |s.emissions|
            && t.replicas[q].(conns := map[]) == s.replicas[q].(conns := map[])
            && forall c :: c in t.replicas[q].conns ==> c in s.replicas[q].conns && t.replicas[q].conns[c] == s.replicas[q].conns[c]
  {
    if a.Emit? {
      DeliverKeeps(s, a.r, a.ws, |s.emissions|, a.failing, q);
    } else if s.emissions[a.m.1].origin != a.m.0 {
      var s' := s.(copies := s.copies - multiset{a.m}, handled := s.handled + multiset{a.m});
      DeliverKeeps(s', a.m.0, s.emissions[a.m.1].ws, a.m.1, a.failing, q);
    }
  }

  ghost predicate ReplicaOk(s: State, r: ReplicaId) {
    r in s.replicas ==> SubscriberOk(s.replicas[r])
  }

  ghost predicate ConnOk(s: State, r: ReplicaId, c: ConnId) {
    r in s.replicas && c in s.replicas[r].conns ==> c < s.nextConn && s.replicas[r].conns[c].openedAt <= |s.emissions|
  }

  lemma OtherStep(s: State, a: Action, r: ReplicaId, c: ConnId)
    requires Enabled(s, a) && !a.Emit? && !a.Receive?
    ensures ReplicaOk(s, r) ==> ReplicaOk(Apply(s, a), r)
    ensures ConnOk(s, r, c) ==> ConnOk(Apply(s, a), r, c)
  {
  }

  lemma ReplicaStep(s: State, a: Action, r: ReplicaId, c: ConnId)
    requires Enabled(s, a)
    ensures ReplicaOk(s, r) ==> ReplicaOk(Apply(s, a), r)
    ensures ConnOk(s, r, c) ==> ConnOk(Apply(s, a), r, c)
  {
    if !a.Emit? && !a.Receive? {
      OtherStep(s, a, r, c);
    } else {
      var q := if a.Emit? then a.r else a.m.0;
      DeliveringStep(s, a, if r in s.replicas then r else q);
    }
  }

  ghost predicate AllOk(s: State) {
    (forall r :: ReplicaOk(s, r)) && (forall r, c :: ConnOk(s, r, c))
  }

  lemma AllOkIs(s: State)
    ensures AllOk(s) <==> OneSubscriber(s) && ConnsOk(s)
  {
    if AllOk(s) {
      forall r: ReplicaId | r in s.replicas
        ensures SubscriberOk(s.replicas[r])
      {
        assert ReplicaOk(s, r);
      }
      forall r: ReplicaId, c: ConnId | r in s.replicas && c in s.replicas[r].conns
        ensures c < s.nextConn && s.replicas[r].conns[c].openedAt <= |s.emissions|
      {
        assert ConnOk(s, r, c);
      }
    }
  }

  lemma ReplicasStep(s: State, a: Action)
    requires OneSubscriber(s) && ConnsOk(s) && Enabled(s, a)
    ensures OneSubscriber(Apply(s, a)) && ConnsOk(Apply(s, a))
  {
    var s' := Apply(s, a);
    AllOkIs(s);
    forall r: ReplicaId
      ensures ReplicaOk(s', r)
    {
      ReplicaStep(s, a, r, 0);
    }
    forall r: ReplicaId, c: ConnId
      ensures ConnOk(s', r, c)
    {
      ReplicaStep(s, a, r, c);
    }
    AllOkIs(s');
  }

  lemma NotifiedStep(s: State, a: Action)
    requires NotifiedOk(s) && Enabled(s, a)
    ensures NotifiedOk(Apply(s, a))
  {
  }

  lemma InvStep(s: State, a: Action)
    requires Inv(s) && Enabled(s, a)
    ensures Inv(Apply(s, a))
  {
    MessagesStep(s, a);
    ReplicasStep(s, a);
    NotifiedStep(s, a);
    DeliveriesStep(s, a);
  }

  lemma {:induction false} InvRun(s: State, actions: seq<Action>, s': State)
    requires Inv(s) && Runs(s, actions, s')
    ensures Inv(s')
    decreases |actions|
  {
    if actions != [] {
      InvStep(s, actions[0]);
      InvRun(Apply(s, actions[0]), actions[1..], s');
    }
  }

  /**
   Over every run: no connection gets an emission twice, internal handlers run
   once and at the origin only, and a replica never has two subscribers.
   */
  lemma AtMostOnce(actions: seq<Action>, s: State)
    requires Runs(INIT, actions, s)
    ensures forall n: EmissionId, r: ReplicaId, c: ConnId :: s.delivered[(n, r, c)] <= 1
    ensures forall n: EmissionId, r: ReplicaId :: s.notified[(r, n)] == if n < |s.emissions| && s.emissions[n].origin == r then 1 else 0
    ensures forall r: ReplicaId :: r in s.replicas ==> s.replicas[r].subscriptions <= 1
  {
    InvRun(INIT, actions, s);
    forall n: EmissionId, r: ReplicaId, c: ConnId
      ensures s.delivered[(n, r, c)] <= 1
    {
      assert DeliveredWell(s, n, r, c);
    }
  }

  // ── One emission, from its publish on ─────────────────────────────────────

  /**
   What an emission records and sends: one copy for every open subscription when
   the publish succeeds, none otherwise, and the origin's internal handlers.
   */
  lemma EmitExact(s: State, o: ReplicaId, ws: string, failing: set<ConnId>, published: bool)
    requires o in s.replicas
    ensures var s', n := Apply(s, Emit(o, ws, failing, published)), |s.emissions|;
            && |s'.emissions| == n + 1 && s'.emissions[..n] == s.emissions
            && s'.emissions[n].origin == o && s'.emissions[n].ws == ws
            && (forall r: ReplicaId :: r in s'.emissions[n].sentTo <==> published && r in s.replicas && s.replicas[r].subscriptions > 0)
            && (forall r: ReplicaId, k: EmissionId :: s'.copies[(r, k)]
                  == s.copies[(r, k)] + if published && k == n && r in s.replicas then s.replicas[r].subscriptions else 0)
            && s'.notified == s.notified + multiset{(o, n)}
  {
    var sentTo := if published then Subscribed(s) else {};
    CopiesCount(s, sentTo, |s.emissions|);
  }

  /** The workspace a step delivers to at replica `r`, if it does. */
  ghost predicate Delivers(s: State, a: Action, r: ReplicaId, ws: string)
    requires Enabled(s, a)
  {
    || (a.Emit? && a.r == r && a.ws == ws)
    || (a.Receive? && a.m.0 == r && s.emissions[a.m.1].origin != r && s.emissions[a.m.1].ws == ws)
  }

  /** What becomes of connection `c` of replica `r`: lost to `Close` or a failed write only, opened by `Open` only. */
  ghost predicate ConnectionRight(s: State, a: Action, r: ReplicaId, c: ConnId)
    requires Enabled(s, a) && r in s.replicas
  {
    var s' := Apply(s, a);
    && r in s'.replicas
    && (c in s.replicas[r].conns ==>
          (c !in s'.replicas[r].conns <==> a == Close(r, c) || (Delivers(s, a, r, s.replicas[r].conns[c].ws) && c in a.failing)))
    && (c !in s.replicas[r].conns ==> (c in s'.replicas[r].conns <==> a.Open? && a.r == r && c == s.nextConn))
    && (c in s'.replicas[r].conns ==>
          s'.replicas[r].conns[c] == if c in s.replicas[r].conns then s.replicas[r].conns[c] else Conn(a.ws, |s.emissions|))
  }

  lemma DeliveryConnections(s: State, a: Action, r: ReplicaId, c: ConnId)
    requires Enabled(s, a) && r in s.replicas && (a.Emit? || a.Receive?)
    ensures ConnectionRight(s, a, r, c)
  {
    if a.Emit? {
      DeliverKeeps(s, a.r, a.ws, |s.emissions|, a.failing, r);
    } else if s.emissions[a.m.1].origin != a.m.0 {
      var m := s.(copies := s.copies - multiset{a.m}, handled := s.handled + multiset{a.m});
      DeliverKeeps(m, a.m.0, s.emissions[a.m.1].ws, a.m.1, a.failing, r);
    }
  }

  lemma ConnectionsExact(s: State, a: Action, r: ReplicaId, c: ConnId)
    requires Inv(s) && Enabled(s, a) && r in s.replicas
    ensures ConnectionRight(s, a, r, c)
  {
    if a.Emit? || a.Receive? {
      DeliveryConnections(s, a, r, c);
    }
  }

  /** A replica gains a subscriber when an init finishes well, and starts one only while it has none. */
  lemma SubscriptionsExact(s: State, a: Action, r: ReplicaId)
    requires Enabled(s, a) && r in s.replicas
    ensures r in Apply(s, a).replicas
    ensures var was, now := s.replicas[r], Apply(s, a).replicas[r];
            && now.subscriptions == was.subscriptions + (if a == InitDone(r, true) then 1 else 0)
            && (now.inits > was.inits <==> a == InitBegin(r, true) && was.subscriptions == 0 && !was.initializing)
            && (now.inits < was.inits <==> a.InitDone? && a.r == r)
            && now.initializing == (if a.InitDone? && a.r == r then false else was.initializing || now.inits > was.inits)
  {
    if a.Emit? || a.Receive? {
      DeliveringStep(s, a, r);
    }
  }

  /** A replica can always open, emit and try to subscribe, and a copy on its way can arrive or be lost. */
  lemma NothingBlocks(s: State, r: ReplicaId, m: Message, ws: string, failing: set<ConnId>)
    requires Inv(s) && r in s.replicas && m in s.copies && m.0 in s.replicas
    ensures Enabled(s, Open(r, ws)) && Enabled(s, Emit(r, ws, failing, true)) && Enabled(s, InitBegin(r, true))
    ensures s.replicas[r].inits > 0 ==> Enabled(s, InitDone(r, true))
    ensures Enabled(s, Receive(m, failing)) && Enabled(s, Lose(m))
  {
    assert s.copies[(m.0, m.1)] > 0;
  }

  /** What has happened since `m`: emissions added, connections closed, and new ones opened after its emissions. */
  ghost predicate Since(m: State, s: State) {
    && m.emissions <= s.emissions && m.nextConn <= s.nextConn
    && forall r: ReplicaId, c: ConnId :: r in s.replicas && c in s.replicas[r].conns ==> OpenedSince(m, s.replicas[r].conns[c], r, c)
  }

  ghost predicate OpenedSince(m: State, conn: Conn, r: ReplicaId, c: ConnId) {
    if c < m.nextConn then r in m.replicas && c in m.replicas[r].conns && m.replicas[r].conns[c] == conn
    else conn.openedAt >= |m.emissions|
  }

  lemma SinceStep(m: State, s: State, a: Action)
    requires Since(m, s) && Enabled(s, a)
    ensures Since(m, Apply(s, a))
  {
    var s' := Apply(s, a);
    forall r: ReplicaId, c: ConnId | r in s'.replicas && c in s'.replicas[r].conns
      ensures OpenedSince(m, s'.replicas[r].conns[c], r, c)
    {
      if r in s.replicas && (a.Emit? || a.Receive?) {
        DeliveringStep(s, a, r);
      }
    }
  }

  lemma {:induction false} SinceRun(m: State, s: State, actions: seq<Action>, s': State)
    requires Since(m, s) && Runs(s, actions, s')
    ensures Since(m, s')
    decreases |actions|
  {
    if actions != [] {
      SinceStep(m, s, actions[0]);
      SinceRun(m, Apply(s, actions[0]), actions[1..], s');
    }
  }

  /** The emission was made at `r`, or `r` had a subscriber then and its copy was neither lost nor is under way. */
  ghost predicate Arrived(m: State, o: ReplicaId, published: bool, s: State, r: ReplicaId) {
    || r == o
    || (published && r in m.replicas && m.replicas[r].subscriptions > 0
        && (r, |m.emissions|) !in s.copies && (r, |m.emissions|) !in s.lost)
  }

  lemma ArrivedIff(m: State, o: ReplicaId, ws: string, failing: set<ConnId>, published: bool, s: State, r: ReplicaId)
    requires Inv(m) && o in m.replicas && Inv(s) && Apply(m, Emit(o, ws, failing, published)).emissions <= s.emissions
    ensures ReachedReplica(s, |m.emissions|, r) <==> Arrived(m, o, published, s, r)
    ensures s.emissions[|m.emissions|].origin == o && s.emissions[|m.emissions|].ws == ws
  {
    var n := |m.emissions|;
    EmitExact(m, o, ws, failing, published);
    assert s.emissions[n] == Apply(m, Emit(o, ws, failing, published)).emissions[n];
    assert s.copies[(r, n)] + s.handled[(r, n)] + s.lost[(r, n)] == if r in s.emissions[n].sentTo then 1 else 0;
  }

  /**
   A run cut at an emission. A connection open then, and still at the end, has it
   exactly once if it is of that workspace and the emission arrived at its
   replica, and never otherwise. One opened later has it at most once, and then
   it is of that workspace and its replica received the copy after it opened.
   */
  lemma ExactlyOnce(before: seq<Action>, m: State, o: ReplicaId, ws: string, failing: set<ConnId>, published: bool,
                    after: seq<Action>, s: State, r: ReplicaId, c: ConnId)
    requires Runs(INIT, before, m) && o in m.replicas && Runs(Apply(m, Emit(o, ws, failing, published)), after, s)
    requires r in s.replicas && c in s.replicas[r].conns
    ensures var had := s.delivered[(|m.emissions|, r, c)];
            if r in m.replicas && c in m.replicas[r].conns then
              had == if m.replicas[r].conns[c].ws == ws && Arrived(m, o, published, s, r) then 1 else 0
            else had <= 1 && (had == 1 ==> s.replicas[r].conns[c].ws == ws && r != o && Arrived(m, o, published, s, r))
  {
    var n, m' := |m.emissions|, Apply(m, Emit(o, ws, failing, published));
    InvRun(INIT, before, m);
    InvStep(m, Emit(o, ws, failing, published));
    InvRun(m', after, s);
    SinceRun(m', m', after, s);
    EmittedConn(m, o, ws, failing, published, r, c);
    CutAtEmission(m, o, ws, failing, published, s, r, c);
  }

  lemma CutAtEmission(m: State, o: ReplicaId, ws: string, failing: set<ConnId>, published: bool, s: State, r: ReplicaId, c: ConnId)
    requires Inv(m) && o in m.replicas && Inv(s) && Since(Apply(m, Emit(o, ws, failing, published)), s)
    requires r in s.replicas && c in s.replicas[r].conns
    ensures var had := s.delivered[(|m.emissions|, r, c)];
            if r in m.replicas && c in m.replicas[r].conns then
              had == if m.replicas[r].conns[c].ws == ws && Arrived(m, o, published, s, r) then 1 else 0
            else had <= 1 && (had == 1 ==> s.replicas[r].conns[c].ws == ws && r != o && Arrived(m, o, published, s, r))
  {
    var n := |m.emissions|;
    EmittedConn(m, o, ws, failing, published, r, c);
    ArrivedIff(m, o, ws, failing, published, s, r);
    assert OpenedSince(Apply(m, Emit(o, ws, failing, published)), s.replicas[r].conns[c], r, c);
    assert HasIfOwed(s, r, c, n) && DeliveredWell(s, n, r, c);
  }

  lemma EmittedConn(m: State, o: ReplicaId, ws: string, failing: set<ConnId>, published: bool, r: ReplicaId, c: ConnId)
    requires Inv(m) && o in m.replicas
    ensures var m' := Apply(m, Emit(o, ws, failing, published));
            && m'.nextConn == m.nextConn && m'.replicas.Keys == m.replicas.Keys
            && (r in m.replicas ==> forall d :: d in m'.replicas[r].conns ==>
                  d in m.replicas[r].conns && m'.replicas[r].conns[d] == m.replicas[r].conns[d])
            && (r in m.replicas && c in m.replicas[r].conns ==>
                  c < m.nextConn && m.replicas[r].conns[c].openedAt <= |m.emissions|)
  {
    if r in m.replicas {
      DeliveringStep(m, Emit(o, ws, failing, published), r);
    }
  }
}
