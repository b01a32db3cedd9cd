/** The peer registry and the client pool (peer/mod.rs, app/client_pool.rs): the operations
    on a value, and the classes that perform them in place. */
module Peers {
  import opened Wrappers
  import Crypto

  const U32_MAX: nat := 0xFFFF_FFFF

  type DeviceId = string
  /** An IP address and port. */
  type Addr = nat
  /** The identity of an HTTP client object. */
  type Client = nat
  /** A reading of the monotonic clock in nanoseconds. */
  type Instant = nat

  datatype TrustState = Approved | Banned | Pending

  /** What a handshake establishes about a peer. */
  datatype Identity = Identity(deviceId: DeviceId, deviceName: string, addr: Addr, pubkey: Crypto.PublicKey, aesKey: Crypto.Key)

  datatype PeerState = PeerState(
    identity: Identity,
    lastSync: Option<Instant>,
    lastHeartbeat: Option<Instant>,
    heartbeatFailures: nat,
    sendFailures: nat,
    trust: TrustState,
    lastSeen: map<Crypto.AadKind, Crypto.u64>)

  function NewPeer(identity: Identity): PeerState {
    PeerState(identity, None, None, 0, 0, Approved, map[])
  }

  /** Registry and pool together. */
  datatype Registry = Registry(
    inner: map<DeviceId, PeerState>,
    approved: set<DeviceId>,
    banned: set<DeviceId>,
    pool: map<DeviceId, Client>)

  const EMPTY := Registry(map[], {}, {}, map[])

  function Elements(ids: seq<DeviceId>): set<DeviceId> { set id | id in ids }

  /** `order` lists the members of `all`, each once. */
  ghost predicate Lists(order: seq<DeviceId>, all: set<DeviceId>) {
    && (forall i, j | 0 <= i < j < |order| :: order[i] != order[j])
    && (forall x :: x in order <==> x in all)
  }

  lemma ListsOneMore(order: seq<DeviceId>, all: set<DeviceId>, todo: set<DeviceId>, id: DeviceId)
    requires Lists(order, all - todo) && id in todo && todo <= all
    ensures Lists(order + [id], all - (todo - {id}))
  {
    var more := order + [id];
    assert forall i | 0 <= i < |order| :: order[i] in order;
    assert forall x :: x in more <==> x in order || x == id;
  }

  // ---------------------------------------------------------------------------
  // The operations on values
  // ---------------------------------------------------------------------------

  function Inserted(r: Registry, p: PeerState): Registry { r.(inner := r.inner[p.identity.deviceId := p]) }

  function WithClient(r: Registry, id: DeviceId, c: Client): Registry { r.(pool := r.pool[id := c]) }

  function Removed(r: Registry, id: DeviceId): Registry {
    Registry(r.inner - {id}, r.approved - {id}, r.banned - {id}, r.pool - {id})
  }

  function Cleared(r: Registry): Registry { Registry(map[], {}, {}, r.pool) }

  function Stored(r: Registry, id: DeviceId, p: PeerState): Registry { r.(inner := r.inner[id := p]) }

  function ApprovedPeer(r: Registry, id: DeviceId): Registry {
    r.(approved := r.approved + {id}, banned := r.banned - {id},
       inner := if id in r.inner then r.inner[id := r.inner[id].(trust := Approved)] else r.inner)
  }

  function BannedPeer(r: Registry, id: DeviceId): Registry {
    Registry(r.inner - {id}, r.approved - {id}, r.banned + {id}, if id in r.inner then r.pool - {id} else r.pool)
  }

  function Saturating(n: nat): nat { if n < U32_MAX then n else U32_MAX }

  function HeartbeatOk(r: Registry, id: DeviceId, now: Instant): Registry {
    if id in r.inner then Stored(r, id, r.inner[id].(heartbeatFailures := 0, lastHeartbeat := Some(now))) else r
  }

  function HeartbeatFailed(r: Registry, id: DeviceId): Registry {
    if id in r.inner then Stored(r, id, r.inner[id].(heartbeatFailures := Saturating(r.inner[id].heartbeatFailures + 1))) else r
  }

  function FailuresReset(r: Registry, id: DeviceId): Registry {
    if id in r.inner then Stored(r, id, r.inner[id].(heartbeatFailures := 0)) else r
  }

  function SendOk(r: Registry, id: DeviceId, now: Instant): Registry {
    if id in r.inner then Stored(r, id, r.inner[id].(sendFailures := 0, lastSync := Some(now))) else r
  }

  function SendFailed(r: Registry, id: DeviceId): Registry {
    if id in r.inner then Stored(r, id, r.inner[id].(sendFailures := Saturating(r.inner[id].sendFailures + 1))) else r
  }

  /** The sequence number is above every one accepted for this kind since the peer was inserted. */
  predicate IsNew(r: Registry, id: DeviceId, kind: Crypto.AadKind, seqNo: Crypto.u64) {
    id in r.inner && (kind in r.inner[id].lastSeen ==> r.inner[id].lastSeen[kind] < seqNo)
  }

  function Seen(r: Registry, id: DeviceId, kind: Crypto.AadKind, seqNo: Crypto.u64): Registry {
    if IsNew(r, id, kind, seqNo)
    then Stored(r, id, r.inner[id].(lastSeen := r.inner[id].lastSeen[kind := seqNo]))
    else r
  }

  // ---------------------------------------------------------------------------
  // The objects
  // ---------------------------------------------------------------------------

  class ClientPool {
    var clients: map<DeviceId, Client>

    constructor ()
      ensures clients == map[]
    {
      clients := map[];
    }

    method Insert(id: DeviceId, client: Client)
      modifies this
      ensures clients == old(clients)[id := client]
    {
      clients := clients[id := client];
    }

    /** `replace`: the new client is built before the lock is taken. */
    method Replace(id: DeviceId, newClient: Client)
      modifies this
      ensures clients == old(clients)[id := newClient]
    {
      clients := clients[id := newClient];
    }

    /** `remove`, and `remove_for_rebuild` without the result. */
    method Remove(id: DeviceId) returns (removed: Option<Client>)
      modifies this
      ensures clients == old(clients) - {id}
      ensures removed == if id in old(clients) then Some(old(clients)[id]) else None
    {
      removed := if id in clients then Some(clients[id]) else None;
      clients := clients - {id};
    }

    /** Never creates a client. */
    function Get(id: DeviceId): Option<Client>
      reads this
    {
      if id in clients then Some(clients[id]) else None
    }
  }

  class PeerRegistry {
    var inner: map<DeviceId, PeerState>
    var approved: set<DeviceId>
    var banned: set<DeviceId>
    const clientPool: ClientPool

    function View(): Registry
      reads this, clientPool
    {
      Registry(inner, approved, banned, clientPool.clients)
    }

    constructor (clientPool: ClientPool)
      ensures this.clientPool == clientPool
      ensures View() == EMPTY.(pool := clientPool.clients)
    {
      inner, approved, banned := map[], {}, {};
      this.clientPool := clientPool;
    }

    predicate IsKnown(id: DeviceId)
      reads this
    {
      id in inner
    }

    predicate IsApproved(id: DeviceId)
      reads this
    {
      id in approved
    }

    predicate IsBanned(id: DeviceId)
      reads this
    {
      id in banned
    }

    method Insert(state: PeerState)
      modifies this
      ensures View() == Inserted(old(View()), state)
      ensures inner == old(inner)[state.identity.deviceId := state] && approved == old(approved) && banned == old(banned)
    {
      inner := inner[state.identity.deviceId := state];
    }

    method Remove(id: DeviceId) returns (removed: Option<PeerState>)
      modifies this, clientPool
      ensures View() == Removed(old(View()), id)
      ensures inner == old(inner) - {id} && approved == old(approved) - {id} && banned == old(banned) - {id}
      ensures clientPool.clients == old(clientPool.clients) - {id}
      ensures removed == if id in old(inner) then Some(old(inner)[id]) else None
    {
      removed := if id in inner then Some(inner[id]) else None;
      inner := inner - {id};
      approved := approved - {id};
      banned := banned - {id};
      var _ := clientPool.Remove(id);
    }

    method Clear()
      modifies this
      ensures View() == Cleared(old(View()))
      ensures inner == map[] && approved == {} && banned == {}
    {
      inner := map[];
      approved := {};
      banned := {};
    }

    method Approve(id: DeviceId)
      modifies this
      ensures View() == ApprovedPeer(old(View()), id)
      ensures approved == old(approved) + {id} && banned == old(banned) - {id} && inner.Keys == old(inner.Keys)
      ensures forall x | x in inner :: inner[x] == if x == id then old(inner[x]).(trust := Approved) else old(inner[x])
    {
      approved := approved + {id};
      banned := banned - {id};
      if id in inner {
        inner := inner[id := inner[id].(trust := Approved)];
      }
    }

    method Ban(id: DeviceId)
      modifies this, clientPool
      ensures View() == BannedPeer(old(View()), id)
      ensures approved == old(approved) - {id} && banned == old(banned) + {id} && inner == old(inner) - {id}
      ensures clientPool.clients == if id in old(inner) then old(clientPool.clients) - {id} else old(clientPool.clients)
    {
      approved := approved - {id};
      banned := banned + {id};
      var wasPeer := id in inner;
      inner := inner - {id};
      if wasPeer {
        var _ := clientPool.Remove(id);
      }
    }

    method RecordHeartbeatOk(id: DeviceId, now: Instant)
      modifies this
      ensures View() == HeartbeatOk(old(View()), id, now)
      ensures approved == old(approved) && banned == old(banned) && inner.Keys == old(inner.Keys)
      ensures forall x | x in inner ::
        inner[x] == if x == id then old(inner[x]).(heartbeatFailures := 0, lastHeartbeat := Some(now)) else old(inner[x])
    {
      if id in inner {
        inner := inner[id := inner[id].(heartbeatFailures := 0, lastHeartbeat := Some(now))];
      }
    }

    method RecordHeartbeatFail(id: DeviceId) returns (count: nat)
      modifies this
      ensures View() == HeartbeatFailed(old(View()), id)
      ensures approved == old(approved) && banned == old(banned) && inner.Keys == old(inner.Keys)
      ensures forall x | x in inner :: inner[x] == if x == id then old(inner[x]).(heartbeatFailures := count) else old(inner[x])
      ensures count == if id !in old(inner) then 0 else
        if old(inner[id]).heartbeatFailures < U32_MAX then old(inner[id]).heartbeatFailures + 1 else U32_MAX
    {
      if id in inner {
        var p := inner[id];
        count := if p.heartbeatFailures < U32_MAX then p.heartbeatFailures + 1 else U32_MAX;
        inner := inner[id := p.(heartbeatFailures := count)];
      } else {
        count := 0;
      }
    }

    method ResetHeartbeatFailures(id: DeviceId)
      modifies this
      ensures View() == FailuresReset(old(View()), id)
      ensures approved == old(approved) && banned == old(banned) && inner.Keys == old(inner.Keys)
      ensures forall x | x in inner :: inner[x] == if x == id then old(inner[x]).(heartbeatFailures := 0) else old(inner[x])
    {
      if id in inner {
        inner := inner[id := inner[id].(heartbeatFailures := 0)];
      }
    }

    method RecordSendOk(id: DeviceId, now: Instant)
      modifies this
      ensures View() == SendOk(old(View()), id, now)
      ensures approved == old(approved) && banned == old(banned) && inner.Keys == old(inner.Keys)
      ensures forall x | x in inner :: inner[x] == if x == id then old(inner[x]).(sendFailures := 0, lastSync := Some(now)) else old(inner[x])
    {
      if id in inner {
        inner := inner[id := inner[id].(sendFailures := 0, lastSync := Some(now))];
      }
    }

    method RecordSendFail(id: DeviceId) returns (count: nat)
      modifies this
      ensures View() == SendFailed(old(View()), id)
      ensures approved == old(approved) && banned == old(banned) && inner.Keys == old(inner.Keys)
      ensures forall x | x in inner :: inner[x] == if x == id then old(inner[x]).(sendFailures := count) else old(inner[x])
      ensures count == if id !in old(inner) then 0 else
        if old(inner[id]).sendFailures < U32_MAX then old(inner[id]).sendFailures + 1 else U32_MAX
    {
      if id in inner {
        var p := inner[id];
        count := if p.sendFailures < U32_MAX then p.sendFailures + 1 else U32_MAX;
        inner := inner[id := p.(sendFailures := count)];
      } else {
        count := 0;
      }
    }

    method SeenSeqAndUpdate(id: DeviceId, kind: Crypto.AadKind, seqNo: Crypto.u64) returns (isNew: bool)
      modifies this
      ensures View() == Seen(old(View()), id, kind, seqNo)
      ensures isNew <==> id in old(inner) && (kind in old(inner[id]).lastSeen ==> old(inner[id]).lastSeen[kind] < seqNo)
      ensures isNew <==> IsNew(old(View()), id, kind, seqNo)
      ensures approved == old(approved) && banned == old(banned)
      ensures inner == if isNew
        then old(inner)[id := old(inner[id]).(lastSeen := old(inner[id]).lastSeen[kind := seqNo])] else old(inner)
    {
      if id !in inner {
        return false;
      }
      var p := inner[id];
      if kind in p.lastSeen && seqNo <= p.lastSeen[kind] {
        return false;
      }
      inner := inner[id := p.(lastSeen := p.lastSeen[kind := seqNo])];
      isNew := true;
    }
  }
}
