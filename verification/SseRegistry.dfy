/**
 The SSE client registry of apps/api/src/sse-emitter.ts: connections per
 workspace, and the derived per-user counters that its connection caps rely on.
 Composite string keys are pairs here; user and workspace ids have no colon.
 */
module SseRegistry {
  import opened Wrappers

  type WorkspaceId = string
  type UserId = string
  type ConnId = nat

  const MAX_CONNECTIONS_PER_USER_PER_WORKSPACE := 5
  const MAX_CONNECTIONS_PER_WORKSPACE := 50

  type UserKey = (WorkspaceId, UserId)
  type OwnerKey = (WorkspaceId, ConnId)

  function Clients(clients: map<WorkspaceId, set<ConnId>>, ws: WorkspaceId): set<ConnId> {
    if ws in clients then clients[ws] else {}
  }

  function Count(counts: map<UserKey, nat>, user: UserKey): nat {
    if user in counts then counts[user] else 0
  }

  /** The connections a user owns. */
  function OwnedBy(owners: map<OwnerKey, UserKey>, user: UserKey): set<OwnerKey> {
    set k | k in owners && owners[k] == user
  }

  /** Every counter is the number of connections its user owns, and no counter is zero. */
  ghost predicate CountersAgree(owners: map<OwnerKey, UserKey>, counts: map<UserKey, nat>) {
    && (forall user :: user in counts ==> counts[user] > 0)
    && (forall user :: CounterAgrees(owners, counts, user))
  }

  ghost predicate CounterAgrees(owners: map<OwnerKey, UserKey>, counts: map<UserKey, nat>, user: UserKey) {
    |OwnedBy(owners, user)| == Count(counts, user)
  }

  lemma OwnOneMore(owners: map<OwnerKey, UserKey>, counts: map<UserKey, nat>, key: OwnerKey, user: UserKey)
    requires CountersAgree(owners, counts) && key !in owners
    ensures CountersAgree(owners[key := user], counts[user := Count(counts, user) + 1])
  {
    var owners', counts' := owners[key := user], counts[user := Count(counts, user) + 1];
    forall u
      ensures CounterAgrees(owners', counts', u)
    {
      assert CounterAgrees(owners, counts, u);
      if u == user {
        assert OwnedBy(owners[key := user], u) == OwnedBy(owners, u) + {key};
      } else {
        assert OwnedBy(owners[key := user], u) == OwnedBy(owners, u);
      }
    }
  }

  /** The counter after one connection is given up; a counter that would reach zero is deleted. */
  function Decremented(counts: map<UserKey, nat>, user: UserKey): map<UserKey, nat> {
    if Count(counts, user) <= 1 then counts - {user} else counts[user := counts[user] - 1]
  }

  lemma OwnOneLess(owners: map<OwnerKey, UserKey>, counts: map<UserKey, nat>, key: OwnerKey)
    requires CountersAgree(owners, counts) && key in owners
    ensures CountersAgree(owners - {key}, Decremented(counts, owners[key]))
    ensures owners[key] in counts
  {
    var user := owners[key];
    var counts' := Decremented(counts, user);
    assert CounterAgrees(owners, counts, user);
    assert key in OwnedBy(owners, user);
    assert |OwnedBy(owners, user)| > 0;
    forall u
      ensures CounterAgrees(owners - {key}, counts', u)
    {
      assert CounterAgrees(owners, counts, u);
      if u == user {
        assert OwnedBy(owners - {key}, u) == OwnedBy(owners, u) - {key};
      } else {
        assert OwnedBy(owners - {key}, u) == OwnedBy(owners, u);
      }
    }
  }

  /** An owned connection is a live connection of its owner's workspace. */
  ghost predicate OwnersAreLive(owners: map<OwnerKey, UserKey>, clients: map<WorkspaceId, set<ConnId>>) {
    forall k :: k in owners ==> owners[k].0 == k.0 && k.1 in Clients(clients, k.0)
  }

  ghost predicate WorkspaceOk(clients: map<WorkspaceId, set<ConnId>>, ws: WorkspaceId, lastId: nat) {
    && |Clients(clients, ws)| <= MAX_CONNECTIONS_PER_WORKSPACE
    && forall id :: id in Clients(clients, ws) ==> id <= lastId
  }

  ghost predicate WorkspacesOk(clients: map<WorkspaceId, set<ConnId>>, lastId: nat) {
    forall ws :: WorkspaceOk(clients, ws, lastId)
  }

  function Joined(clients: map<WorkspaceId, set<ConnId>>, ws: WorkspaceId, id: ConnId): map<WorkspaceId, set<ConnId>> {
    clients[ws := Clients(clients, ws) + {id}]
  }

  function Left(clients: map<WorkspaceId, set<ConnId>>, ws: WorkspaceId, id: ConnId): map<WorkspaceId, set<ConnId>> {
    if ws in clients then clients[ws := clients[ws] - {id}] else clients
  }

  ghost predicate Unused(clients: map<WorkspaceId, set<ConnId>>, id: ConnId) {
    forall ws :: ws in clients ==> id !in clients[ws]
  }

  lemma JoinKeepsWorkspaces(clients: map<WorkspaceId, set<ConnId>>, ws: WorkspaceId, lastId: nat, id: ConnId)
    requires WorkspacesOk(clients, lastId) && |Clients(clients, ws)| < MAX_CONNECTIONS_PER_WORKSPACE && id == lastId + 1
    ensures WorkspacesOk(Joined(clients, ws, id), id) && Unused(clients, id)
  {
    forall w
      ensures WorkspaceOk(Joined(clients, ws, id), w, id)
    {
      assert WorkspaceOk(clients, w, lastId);
    }
    forall w | w in clients
      ensures id !in clients[w]
    {
      assert WorkspaceOk(clients, w, lastId);
    }
  }

  /** What every operation keeps: derived counters that agree, live owners, and both caps. */
  ghost predicate RegistryOk(clients: map<WorkspaceId, set<ConnId>>, counts: map<UserKey, nat>,
                             owners: map<OwnerKey, UserKey>, lastId: nat) {
    && CountersAgree(owners, counts)
    && OwnersAreLive(owners, clients)
    && WorkspacesOk(clients, lastId)
    && (forall user :: user in counts ==> counts[user] <= MAX_CONNECTIONS_PER_USER_PER_WORKSPACE)
  }

  lemma AnonymousJoins(clients: map<WorkspaceId, set<ConnId>>, counts: map<UserKey, nat>, owners: map<OwnerKey, UserKey>,
                       lastId: nat, ws: WorkspaceId)
    requires RegistryOk(clients, counts, owners, lastId) && |Clients(clients, ws)| < MAX_CONNECTIONS_PER_WORKSPACE
    ensures RegistryOk(Joined(clients, ws, lastId + 1), counts, owners, lastId + 1) && Unused(clients, lastId + 1)
  {
    JoinKeepsWorkspaces(clients, ws, lastId, lastId + 1);
  }

  function CountedFor(counts: map<UserKey, nat>, ws: WorkspaceId, user: Option<UserId>): map<UserKey, nat> {
    if user.Some? then counts[(ws, user.value) := Count(counts, (ws, user.value)) + 1] else counts
  }

  function OwnedFor(owners: map<OwnerKey, UserKey>, ws: WorkspaceId, id: ConnId, user: Option<UserId>): map<OwnerKey, UserKey> {
    if user.Some? then owners[(ws, id) := (ws, user.value)] else owners
  }

  /** There is room for one more connection, of the workspace and, if it names a user, of that user. */
  predicate HasRoom(clients: map<WorkspaceId, set<ConnId>>, counts: map<UserKey, nat>, ws: WorkspaceId, user: Option<UserId>) {
    && |Clients(clients, ws)| < MAX_CONNECTIONS_PER_WORKSPACE
    && (user.Some? ==> Count(counts, (ws, user.value)) < MAX_CONNECTIONS_PER_USER_PER_WORKSPACE)
  }

  lemma ConnectionJoins(clients: map<WorkspaceId, set<ConnId>>, counts: map<UserKey, nat>, owners: map<OwnerKey, UserKey>,
                        lastId: nat, ws: WorkspaceId, user: Option<UserId>)
    requires RegistryOk(clients, counts, owners, lastId) && HasRoom(clients, counts, ws, user)
    ensures RegistryOk(Joined(clients, ws, lastId + 1), CountedFor(counts, ws, user), OwnedFor(owners, ws, lastId + 1, user),
                       lastId + 1)
    ensures Unused(clients, lastId + 1)
  {
    AnonymousJoins(clients, counts, owners, lastId, ws);
    if user.Some? {
      OwnOneMore(owners, counts, (ws, lastId + 1), (ws, user.value));
    }
  }

  lemma LeaveKeepsWorkspaces(clients: map<WorkspaceId, set<ConnId>>, ws: WorkspaceId, id: ConnId, lastId: nat)
    requires WorkspacesOk(clients, lastId)
    ensures WorkspacesOk(Left(clients, ws, id), lastId)
  {
    forall w
      ensures WorkspaceOk(Left(clients, ws, id), w, lastId)
    {
      assert WorkspaceOk(clients, w, lastId);
      if ws in clients {
        Smaller(clients[ws], id);
      }
    }
  }

  lemma LeaveKeepsOwners(owners: map<OwnerKey, UserKey>, clients: map<WorkspaceId, set<ConnId>>, ws: WorkspaceId, id: ConnId)
    requires OwnersAreLive(owners, clients)
    ensures OwnersAreLive(owners - {(ws, id)}, Left(clients, ws, id))
  {
  }

  class SseEmitter {
    var clients: map<WorkspaceId, set<ConnId>>
    var userConnCounts: map<UserKey, nat>
    var connOwners: map<OwnerKey, UserKey>
    var connId: nat

    ghost predicate Valid()
      reads this
    {
      RegistryOk(clients, userConnCounts, connOwners, connId)
    }

    constructor ()
      ensures Valid() && clients == map[] && connOwners == map[] && userConnCounts == map[]
    {
      clients, userConnCounts, connOwners, connId := map[], map[], map[], 0;
      new;
      assert forall user :: CounterAgrees(connOwners, userConnCounts, user) by {
        assert forall user :: OwnedBy(connOwners, user) == {};
      }
    }

    method RegisterClient(ws: WorkspaceId, userId: Option<UserId>) returns (id: Option<ConnId>)
      requires Valid()
      modifies this
      ensures Valid()
      ensures id.Some? <==>
                && (ws in old(clients) ==> |old(clients)[ws]| < 50)
                && (userId.Some? && (ws, userId.value) in old(userConnCounts) ==> old(userConnCounts)[(ws, userId.value)] < 5)
      ensures id.None? ==> unchanged(this)
      ensures id.Some? ==>
                && Unused(old(clients), id.value)
                && clients == old(clients)[ws := (if ws in old(clients) then old(clients)[ws] else {}) + {id.value}]
                && (userId.None? ==> connOwners == old(connOwners) && userConnCounts == old(userConnCounts))
                && (userId.Some? ==>
                      var user := (ws, userId.value);
                      && connOwners == old(connOwners)[(ws, id.value) := user]
                      && userConnCounts == old(userConnCounts)[user := 1 + if user in old(userConnCounts) then old(userConnCounts)[user] else 0])
    {
      if |Clients(clients, ws)| >= MAX_CONNECTIONS_PER_WORKSPACE {
        return None;
      }
      if userId.Some? && Count(userConnCounts, (ws, userId.value)) >= MAX_CONNECTIONS_PER_USER_PER_WORKSPACE {
        return None;
      }
      ConnectionJoins(clients, userConnCounts, connOwners, connId, ws, userId);
      userConnCounts := CountedFor(userConnCounts, ws, userId);
      connId := connId + 1;
      clients := Joined(clients, ws, connId);
      connOwners := OwnedFor(connOwners, ws, connId, userId);
      id := Some(connId);
    }

    method UnregisterClient(ws: WorkspaceId, id: ConnId)
      requires Valid()
      modifies this
      ensures Valid() && connId == old(connId)
      ensures clients == if ws in old(clients) then old(clients)[ws := old(clients)[ws] - {id}] else old(clients)
      ensures connOwners == old(connOwners) - {(ws, id)}
      ensures (ws, id) !in old(connOwners) ==> userConnCounts == old(userConnCounts)
      ensures (ws, id) in old(connOwners) ==>
                var user := old(connOwners)[(ws, id)];
                && user in old(userConnCounts)
                && userConnCounts == if old(userConnCounts)[user] == 1 then old(userConnCounts) - {user}
                                     else old(userConnCounts)[user := old(userConnCounts)[user] - 1]
    {
      LeaveKeepsWorkspaces(clients, ws, id, connId);
      LeaveKeepsOwners(connOwners, clients, ws, id);
      if ws in clients {
        clients := clients[ws := clients[ws] - {id}];
      }
      if (ws, id) in connOwners {
        OwnOneLess(connOwners, userConnCounts, (ws, id));
        var userKey := connOwners[(ws, id)];
        var count := userConnCounts[userKey] - 1;
        if count <= 0 {
          userConnCounts := userConnCounts - {userKey};
        } else {
          userConnCounts := userConnCounts[userKey := count];
        }
        connOwners := connOwners - {(ws, id)};
      } else {
        assert connOwners - {(ws, id)} == connOwners;
      }
    }

    /** Writes one frame to each connection of a workspace; a socket that throws is unregistered. */
    method DeliverLocal(ws: WorkspaceId, gone: set<ConnId>) returns (delivered: bool, written: multiset<ConnId>)
      requires Valid()
      modifies this
      ensures Valid() && connId == old(connId)
      ensures written == multiset(Clients(old(clients), ws) - gone)
      ensures delivered <==> Clients(old(clients), ws) - gone != {}
      ensures clients == if ws in old(clients) then old(clients)[ws := old(clients)[ws] - gone] else old(clients)
      ensures forall k :: k in connOwners <==> k in old(connOwners) && !(k.0 == ws && k.1 in gone)
    {
      delivered, written := false, multiset{};
      if ws !in clients {
        return;
      }
      var pending := clients[ws];
      ghost var was, ownersWere := clients, connOwners;
      assert was[ws] - (gone - was[ws]) == was[ws];
      while pending != {}
        invariant Valid() && connId == old(connId) && ws in was
        invariant DeliveryState(was, ownersWere, ws, gone, pending, clients, connOwners, written)
        invariant delivered <==> written != multiset{}
      {
        var id :| id in pending;
        assert id in clients[ws];
        DeliverOne(was, ownersWere, ws, gone, pending, clients, connOwners, written, id);
        pending := pending - {id};
        if id in gone {
          UnregisterClient(ws, id);
        } else {
          written := written + multiset{id};
          delivered := true;
        }
      }
      DeliverDone(was, ownersWere, ws, gone, clients, connOwners, written);
    }

    /** The five-minute sweep removes empty workspaces; no counter is ever stale. */
    method Sweep()
      requires Valid()
      modifies this
      ensures Valid() && userConnCounts == old(userConnCounts) && connOwners == old(connOwners)
      ensures forall ws :: Clients(clients, ws) == Clients(old(clients), ws)
      ensures forall ws :: ws in clients ==> clients[ws] != {}
    {
      clients := map ws | ws in clients && clients[ws] != {} :: clients[ws];
      userConnCounts := map user | user in userConnCounts && userConnCounts[user] > 0 :: userConnCounts[user];
      assert userConnCounts == old(userConnCounts);
      forall w
        ensures WorkspaceOk(clients, w, connId)
      {
        assert WorkspaceOk(old(clients), w, connId);
      }
    }
  }

  /** Connections of `ws` outside `pending` have been written to, or dropped when their socket was gone. */
  ghost predicate DeliveryState(was: map<WorkspaceId, set<ConnId>>, ownersWere: map<OwnerKey, UserKey>, ws: WorkspaceId,
                                gone: set<ConnId>, pending: set<ConnId>, clients: map<WorkspaceId, set<ConnId>>,
                                owners: map<OwnerKey, UserKey>, written: multiset<ConnId>)
    requires ws in was
  {
    && pending <= was[ws]
    && clients == was[ws := was[ws] - (gone - pending)]
    && written == multiset((was[ws] - pending) - gone)
    && (forall k :: k in owners <==> k in ownersWere && !(k.0 == ws && k.1 in gone - pending && k.1 in was[ws]))
  }

  lemma DeliverOne(was: map<WorkspaceId, set<ConnId>>, ownersWere: map<OwnerKey, UserKey>, ws: WorkspaceId,
                   gone: set<ConnId>, pending: set<ConnId>, clients: map<WorkspaceId, set<ConnId>>,
                   owners: map<OwnerKey, UserKey>, written: multiset<ConnId>, id: ConnId)
    requires ws in was && DeliveryState(was, ownersWere, ws, gone, pending, clients, owners, written) && id in pending
    ensures id in gone ==>
              DeliveryState(was, ownersWere, ws, gone, pending - {id}, clients[ws := clients[ws] - {id}], owners - {(ws, id)}, written)
    ensures id !in gone ==>
              DeliveryState(was, ownersWere, ws, gone, pending - {id}, clients, owners, written + multiset{id})
  {
    if id in gone {
      assert was[ws] - (gone - (pending - {id})) == (was[ws] - (gone - pending)) - {id};
      assert was[ws] - (pending - {id}) - gone == was[ws] - pending - gone;
    } else {
      assert gone - (pending - {id}) == gone - pending;
      assert was[ws] - (pending - {id}) - gone == (was[ws] - pending - gone) + {id};
    }
  }

  lemma Smaller(ids: set<ConnId>, id: ConnId)
    ensures |ids - {id}| <= |ids|
  {
    assert ids == (ids - {id}) + (ids * {id});
  }

  lemma DeliverDone(was: map<WorkspaceId, set<ConnId>>, ownersWere: map<OwnerKey, UserKey>, ws: WorkspaceId,
                    gone: set<ConnId>, clients: map<WorkspaceId, set<ConnId>>, owners: map<OwnerKey, UserKey>,
                    written: multiset<ConnId>)
    requires ws in was && DeliveryState(was, ownersWere, ws, gone, {}, clients, owners, written)
    requires OwnersAreLive(ownersWere, was)
    ensures written == multiset(was[ws] - gone)
    ensures written != multiset{} <==> was[ws] - gone != {}
    ensures clients == was[ws := was[ws] - gone]
    ensures forall k :: k in owners <==> k in ownersWere && !(k.0 == ws && k.1 in gone)
  {
    assert was[ws] - {} == was[ws] && gone - {} == gone;
    if was[ws] - gone != {} {
      var id :| id in was[ws] - gone;
      assert id in written;
    }
  }
}
