/** The handlers, dials and worker steps of one node (network/handlers, network/client.rs,
    app/heartbeat_worker.rs): each does its checks and writes in the order of the source, and what it
    does to the registry is an event, or a run of events, of `Events`. */
module Node {
  import opened Selection
  import opened Wrappers
  import opened Peers
  import opened Events
  import Crypto
  import History
  import RateLimit
  import Sanitize
  import Utf8

  const GOSSIP_MAX_CONCURRENT: nat := 3
  const FORCE_REBUILD_LIMIT: nat := 3
  const APPLY_QUEUE_BOUND: nat := 64

  datatype NetworkError = RateLimited | DeviceIdConflict | NotInPeers | BannedOrigin | BadRequest | DecryptFailed
  datatype Reply<+T> = Ok(value: T) | Err(error: NetworkError)

  datatype PeerStub = PeerStub(deviceId: DeviceId, addr: Addr)

  /** A public key is `None` when its transfer encoding does not parse. */
  datatype HandshakeReq = HandshakeReq(deviceId: DeviceId, deviceName: string, pubkey: Option<Crypto.PublicKey>)
  datatype HandshakeResp = HandshakeResp(
    deviceId: DeviceId, deviceName: Option<string>, pubkey: Option<Crypto.PublicKey>, peers: seq<PeerStub>)

  datatype Announce = Announce(deviceId: DeviceId, addr: Addr, origin: DeviceId)

  /** What a completed dial starts: stub dials, and announces by receiver. */
  datatype DialTasks = DialTasks(stubs: seq<PeerStub>, announces: map<DeviceId, Announce>)

  datatype ClipboardReq = ClipboardReq(origin: DeviceId, seqNo: Crypto.u64, kind: string, body: Crypto.Sealed)

  /** The answer a dial got, with the secret and the client made for it. */
  datatype Answer = Answer(resp: HandshakeResp, addr: Addr, secret: Crypto.Secret, client: Client)

  /** The key exchange and the sanitizer of device names that a node works with. */
  datatype Env = Env(kx: Crypto.KeyExchange, sanitizeName: string -> string)

  // ---------------------------------------------------------------------------
  // What the steps compute
  // ---------------------------------------------------------------------------

  predicate Offers(r: Registry, s: PeerStub, except: DeviceId) {
    && s.deviceId in r.inner && s.deviceId != except
    && r.inner[s.deviceId].trust == Approved && s.addr == r.inner[s.deviceId].identity.addr
  }

  /** The Approved peers but `except`, each once, in any order. */
  ghost predicate IsStubList(stubs: seq<PeerStub>, r: Registry, except: DeviceId) {
    && (forall i, j | 0 <= i < j < |stubs| :: stubs[i].deviceId != stubs[j].deviceId)
    && (forall s :: s in stubs <==> Offers(r, s, except))
  }

  function Unknown(stubs: seq<PeerStub>, me: DeviceId, r: Registry): seq<PeerStub> {
    Select(stubs, (s: PeerStub) => s.deviceId != me && s.deviceId !in r.inner)
  }

  function FirstUnknown(stubs: seq<PeerStub>, me: DeviceId, r: Registry): seq<PeerStub> {
    var all := Unknown(stubs, me, r);
    if |all| <= GOSSIP_MAX_CONCURRENT then all else all[..GOSSIP_MAX_CONCURRENT]
  }

  /** A dial picks only strangers, at most three, and passes one over only when it has three. */
  lemma FirstUnknownIsGreedy(stubs: seq<PeerStub>, me: DeviceId, r: Registry, s: PeerStub)
    ensures var picked := FirstUnknown(stubs, me, r);
      && |picked| <= GOSSIP_MAX_CONCURRENT
      && (s in picked ==> s in stubs && s.deviceId != me && s.deviceId !in r.inner)
      && (s in stubs && s.deviceId != me && s.deviceId !in r.inner && s !in picked ==> |picked| == GOSSIP_MAX_CONCURRENT)
  {
    SelectMembers(stubs, (s: PeerStub) => s.deviceId != me && s.deviceId !in r.inner);
  }

  /** The picked stubs are the first strangers of the list, in its order; a stranger is passed over only behind three. */
  lemma FirstUnknownKeepsOrder(stubs: seq<PeerStub>, me: DeviceId, r: Registry) returns (at: seq<nat>)
    ensures |FirstUnknown(stubs, me, r)| == |at| <= 3
    ensures forall i | 0 <= i < |at| :: at[i] < |stubs| && FirstUnknown(stubs, me, r)[i] == stubs[at[i]]
    ensures forall i, j | 0 <= i < j < |at| :: at[i] < at[j]
    ensures forall i | 0 <= i < |at| :: stubs[at[i]].deviceId != me && stubs[at[i]].deviceId !in r.inner
    ensures forall k: nat | k < |stubs| && stubs[k].deviceId != me && stubs[k].deviceId !in r.inner && k !in at ::
      |at| == 3 && at[2] < k
  {
    var all := KeepsOrder(stubs, (s: PeerStub) => s.deviceId != me && s.deviceId !in r.inner);
    assert forall i | 0 <= i < |all| :: all[i] in all;
    at := if |all| <= 3 then all else all[..3];
    forall k: nat | k < |stubs| && stubs[k].deviceId != me && stubs[k].deviceId !in r.inner && k !in at ensures |at| == 3 && at[2] < k {
      BehindThree(all, k);
    }
  }

  /** The check a stub dial starts with. */
  predicate StartsStubDial(r: Registry, expected: DeviceId) { expected !in r.inner && expected !in r.banned }

  predicate HearsAnnounce(r: Registry, id: DeviceId, newPeer: DeviceId) {
    id in r.inner && r.inner[id].trust == Approved && id != newPeer && id in r.pool
  }

  function Announces(r: Registry, newPeer: DeviceId, addr: Addr, me: DeviceId): map<DeviceId, Announce> {
    map id | id in r.inner && HearsAnnounce(r, id, newPeer) :: Announce(newPeer, addr, me)
  }

  /** A peer as either side of a handshake knows it: the key comes from the own secret and the other's public key. */
  function PeerIdentity(kx: Crypto.KeyExchange, id: DeviceId, name: string, addr: Addr, secret: Crypto.Secret,
      pubkey: Crypto.PublicKey): Identity
  {
    Identity(id, name, addr, pubkey, kx.derive(secret, pubkey))
  }

  function ServedIdentity(env: Env, req: HandshakeReq, secret: Crypto.Secret, addr: Addr): Identity
    requires req.pubkey.Some?
  {
    PeerIdentity(env.kx, req.deviceId, env.sanitizeName(req.deviceName), addr, secret, req.pubkey.value)
  }

  /** The answer names the server by its id, but carries the requester's own name back. */
  function ServedResp(env: Env, me: DeviceId, req: HandshakeReq, secret: Crypto.Secret, stubs: seq<PeerStub>): HandshakeResp {
    HandshakeResp(me, Some(env.sanitizeName(req.deviceName)), Some(env.kx.publicOf(secret)), stubs)
  }

  function DialledIdentity(env: Env, a: Answer): Identity
    requires a.resp.pubkey.Some?
  {
    var name := match a.resp.deviceName case None => "" case Some(n) => n;
    PeerIdentity(env.kx, a.resp.deviceId, env.sanitizeName(name), a.addr, a.secret, a.resp.pubkey.value)
  }

  /** Since the server echoes the requester's name, what a dialler stores as its peer's name is its own. */
  lemma DiallerStoresItsOwnName(env: Env, server: DeviceId, req: HandshakeReq, stubs: seq<PeerStub>,
      serverSecret: Crypto.Secret, addr: Addr, secret: Crypto.Secret, client: Client)
    requires env.sanitizeName == Sanitize.SanitizeDeviceName
    ensures DialledIdentity(env, Answer(ServedResp(env, server, req, serverSecret, stubs), addr, secret, client)).deviceName
      == Sanitize.SanitizeDeviceName(req.deviceName)
  {
    Sanitize.DeviceNameNormalForm(req.deviceName);
  }

  /** The dial returns `Ok`. */
  predicate DialSucceeds(me: DeviceId, r: Registry, resp: HandshakeResp) {
    resp.deviceId != me && resp.deviceId !in r.banned && resp.pubkey.Some?
  }

  function AfterDial(env: Env, me: DeviceId, r: Registry, a: Answer): Registry {
    if DialSucceeds(me, r, a.resp) then Admit(r, DialledIdentity(env, a), a.client) else r
  }

  /** A forced rebuild; `redial` is the answer to the re-dial, if one came. */
  function AfterRebuild(env: Env, me: DeviceId, r: Registry, shutting: bool, id: DeviceId, newClient: Client,
      redial: Option<Answer>): Registry
  {
    if shutting || !Authorised(r, id) then r else
    var replaced := WithClient(r, id, newClient);
    if redial.None? || !DialSucceeds(me, replaced, redial.value.resp) then replaced
    else FailuresReset(AfterDial(env, me, replaced, redial.value), id)
  }

  function RebuildEvents(env: Env, me: DeviceId, r: Registry, shutting: bool, id: DeviceId, newClient: Client,
      redial: Option<Answer>): seq<Event>
  {
    if shutting || !Authorised(r, id) then []
    else if redial.None? || !DialSucceeds(me, r, redial.value.resp) then [Replaced(id, newClient)]
    else [Replaced(id, newClient), Dialled(DialledIdentity(env, redial.value), redial.value.client), RebuildDone(id)]
  }

  lemma RunReplaced(me: DeviceId, r: Registry, id: DeviceId, c: Client)
    requires Authorised(r, id)
    ensures RunFrom(me, r, [Replaced(id, c)]) == WithClient(r, id, c)
  {
    RunSnoc(me, r, [], Replaced(id, c));
    assert [] + [Replaced(id, c)] == [Replaced(id, c)];
  }

  lemma RunDialled(env: Env, me: DeviceId, r: Registry, e: Event, r1: Registry, a: Answer)
    requires RunFrom(me, r, [e]) == r1 && DialSucceeds(me, r1, a.resp)
    ensures RunFrom(me, r, [e, Dialled(DialledIdentity(env, a), a.client)]) == AfterDial(env, me, r1, a)
  {
    var d := Dialled(DialledIdentity(env, a), a.client);
    RunSnoc(me, r, [e], d);
    assert [e] + [d] == [e, d];
  }

  lemma RunReset(me: DeviceId, r: Registry, e: Event, d: Event, r2: Registry, id: DeviceId)
    requires RunFrom(me, r, [e, d]) == r2
    ensures RunFrom(me, r, [e, d, RebuildDone(id)]) == FailuresReset(r2, id)
  {
    RunSnoc(me, r, [e, d], RebuildDone(id));
    assert [e, d] + [RebuildDone(id)] == [e, d, RebuildDone(id)];
  }

  /** A rebuild is a run of at most three events, so whatever runs keep, rebuilds keep. */
  lemma RebuildIsARun(env: Env, me: DeviceId, r: Registry, shutting: bool, id: DeviceId, newClient: Client,
      redial: Option<Answer>)
    ensures AfterRebuild(env, me, r, shutting, id, newClient, redial)
      == RunFrom(me, r, RebuildEvents(env, me, r, shutting, id, newClient, redial))
  {
    if !shutting && Authorised(r, id) {
      var e, r1 := Replaced(id, newClient), WithClient(r, id, newClient);
      RunReplaced(me, r, id, newClient);
      if redial.Some? && DialSucceeds(me, r, redial.value.resp) {
        var a := redial.value;
        RunDialled(env, me, r, e, r1, a);
        RunReset(me, r, e, Dialled(DialledIdentity(env, a), a.client), AfterDial(env, me, r1, a), id);
      }
    }
  }

  lemma AdmissionKeepsInv(me: DeviceId, r: Registry, p: Identity, c: Client)
    requires Inv(me, r) && p.deviceId != me
    ensures Inv(me, Admit(r, p, c))
  {
  }

  lemma ReplacedKeepsInv(me: DeviceId, r: Registry, id: DeviceId, c: Client)
    requires Inv(me, r)
    ensures Authorised(r, id) ==> Inv(me, WithClient(r, id, c))
  {
  }

  lemma RebuildKeepsInv(env: Env, me: DeviceId, r: Registry, shutting: bool, id: DeviceId, newClient: Client,
      redial: Option<Answer>)
    requires Inv(me, r)
    ensures Inv(me, AfterRebuild(env, me, r, shutting, id, newClient, redial))
  {
    RebuildIsARun(env, me, r, shutting, id, newClient, redial);
    RunFromKeepsInv(me, r, RebuildEvents(env, me, r, shutting, id, newClient, redial));
  }

  /** What a rebuild of a member that is not banned leaves: its new client; and if its re-dial is answered by a server
      that is taken on, the server's fresh state and client, and no failed pings. */
  lemma RebuildWrites(env: Env, me: DeviceId, r: Registry, id: DeviceId, newClient: Client, redial: Option<Answer>)
    requires id in r.inner && id !in r.banned
    ensures AfterRebuild(env, me, r, true, id, newClient, redial) == r
    ensures redial.None? || redial.value.resp.deviceId == me || redial.value.resp.deviceId in r.banned || redial.value.resp.pubkey.None? ==>
      AfterRebuild(env, me, r, false, id, newClient, redial) == r.(pool := r.pool[id := newClient])
    ensures redial.Some? && redial.value.resp.deviceId != me && redial.value.resp.deviceId !in r.banned && redial.value.resp.pubkey.Some? ==>
      var server, r' := redial.value.resp.deviceId, AfterRebuild(env, me, r, false, id, newClient, redial);
      && r'.pool == r.pool[id := newClient][server := redial.value.client]
      && r'.approved == r.approved + {server} && r'.banned == r.banned && r'.inner.Keys == r.inner.Keys + {server}
      && r'.inner[server] == PeerState(
           Identity(server, env.sanitizeName(if redial.value.resp.deviceName.Some? then redial.value.resp.deviceName.value else ""),
                    redial.value.addr, redial.value.resp.pubkey.value, env.kx.derive(redial.value.secret, redial.value.resp.pubkey.value)),
           None, None, 0, 0, Approved, map[])
      && forall x | x in r.inner && x != server :: r'.inner[x] == if x == id then r.inner[x].(heartbeatFailures := 0) else r.inner[x]
  {
  }

  /** Why a handshake is refused, the checks in the order of the handler; `None` when it is served. */
  function HandshakeError(me: DeviceId, r: Registry, allowed: bool, req: HandshakeReq): Option<NetworkError> {
    if !allowed then Some(RateLimited)
    else if req.deviceId == me then Some(DeviceIdConflict)
    else if req.deviceId in r.banned then Some(BannedOrigin)
    else if req.pubkey.None? then Some(BadRequest)
    else None
  }

  /** A refused handshake changes nothing; a served one admits the requester and returns the other Approved peers. */
  ghost predicate AnswersHandshake(env: Env, me: DeviceId, r: Registry, r': Registry, allowed: bool, req: HandshakeReq,
      addr: Addr, secret: Crypto.Secret, client: Client, reply: Reply<HandshakeResp>)
  {
    match HandshakeError(me, r, allowed, req)
    case Some(e) => reply == Err(e) && r' == r
    case None =>
      && r' == Apply(me, r, Served(ServedIdentity(env, req, secret, addr), client))
      && reply.Ok? && IsStubList(reply.value.peers, r', req.deviceId)
      && reply.value == ServedResp(env, me, req, secret, reply.value.peers)
  }

  /** A served handshake is one event. */
  lemma ServingIsAnEvent(env: Env, me: DeviceId, r: Registry, allowed: bool, req: HandshakeReq,
      addr: Addr, secret: Crypto.Secret, client: Client)
    requires HandshakeError(me, r, allowed, req).None?
    ensures var p := ServedIdentity(env, req, secret, addr);
      Apply(me, r, Served(p, client)) == Admit(r, p, client)
  {
  }

  /** What becomes of an announce: an error, nothing (`None`), or a dial to the announced address. */
  function AnnounceOutcome(me: DeviceId, r: Registry, a: Announce): Reply<Option<Addr>> {
    if a.origin !in r.approved then Err(NotInPeers)
    else if a.deviceId == me then Err(DeviceIdConflict)
    else if a.deviceId in r.banned then Err(BannedOrigin)
    else if a.deviceId in r.inner then Ok(None)
    else Ok(Some(a.addr))
  }

  /** The error for a message from an origin that may not send it. */
  function OriginError(r: Registry, origin: DeviceId): Option<NetworkError> {
    if origin !in r.inner then Some(NotInPeers) else if origin in r.banned then Some(BannedOrigin) else None
  }

  /** A ping round's handling of one peer, whose times `lastSync` and `lastHeartbeat` were read when the round
      started; up to two rebuilds, each with its new client and the answer to its re-dial. */
  function AfterPing(env: Env, me: DeviceId, r: Registry, shutting: bool, id: DeviceId, ok: bool, now: Instant,
      hiddenDead: bool, first: (Client, Option<Answer>), second: (Client, Option<Answer>)): Registry
  {
    var recorded := if ok then HeartbeatOk(r, id, now) else HeartbeatFailed(r, id);
    var count := if id in recorded.inner then recorded.inner[id].heartbeatFailures else 0;
    var rebuilt := if !ok && FORCE_REBUILD_LIMIT <= count
      then AfterRebuild(env, me, recorded, shutting, id, first.0, first.1) else recorded;
    if hiddenDead then AfterRebuild(env, me, rebuilt, shutting, id, second.0, second.1) else rebuilt
  }

  /** What handling a ping leaves when no re-dial is answered: the record of it, and a new client for a member that is
      not banned, after three failures in a row or when it is found hidden-dead. */
  lemma PingWrites(env: Env, me: DeviceId, r: Registry, shutting: bool, id: DeviceId, ok: bool, now: Instant,
      lastSync: Option<Instant>, lastHeartbeat: Option<Instant>, roundStart: Instant, first: Client, second: Client)
    requires id in r.inner && r.inner[id].heartbeatFailures <= U32_MAX
    ensures var p := r.inner[id];
      var failures := if ok then 0 else if p.heartbeatFailures < U32_MAX then p.heartbeatFailures + 1 else U32_MAX;
      var dead := lastSync.Some? && lastSync.value + 30_000_000_000 < roundStart
        && (lastHeartbeat.None? || lastHeartbeat.value + 15_000_000_000 < roundStart);
      AfterPing(env, me, r, shutting, id, ok, now, HiddenDead(lastSync, lastHeartbeat, roundStart), (first, None), (second, None))
        == r.(inner := r.inner[id := p.(heartbeatFailures := failures, lastHeartbeat := if ok then Some(now) else p.lastHeartbeat)],
              pool := if shutting || id in r.banned then r.pool
                      else if dead then r.pool[id := second]
                      else if !ok && 3 <= failures then r.pool[id := first] else r.pool)
  {
    var recorded := if ok then HeartbeatOk(r, id, now) else HeartbeatFailed(r, id);
    assert id in recorded.inner && recorded.banned == r.banned;
    if !shutting && id !in r.banned {
      RebuildWrites(env, me, recorded, id, first, None);
      var rebuilt := if !ok && FORCE_REBUILD_LIMIT <= recorded.inner[id].heartbeatFailures
        then AfterRebuild(env, me, recorded, false, id, first, None) else recorded;
      RebuildWrites(env, me, rebuilt, id, second, None);
      assert r.pool[id := first][id := second] == r.pool[id := second];
    }
  }

  function PingEvent(id: DeviceId, ok: bool, now: Instant): Event { if ok then PingOk(id, now) else PingFailed(id) }

  lemma PingEventRecords(me: DeviceId, r: Registry, id: DeviceId, ok: bool, now: Instant)
    ensures RunFrom(me, r, [PingEvent(id, ok, now)]) == if ok then HeartbeatOk(r, id, now) else HeartbeatFailed(r, id)
  {
    RunSnoc(me, r, [], PingEvent(id, ok, now));
    assert [] + [PingEvent(id, ok, now)] == [PingEvent(id, ok, now)];
  }

  /** Handling a ping, up to two rebuilds included, is a run of events. */
  lemma PingIsARun(env: Env, me: DeviceId, r: Registry, shutting: bool, id: DeviceId, ok: bool, now: Instant,
      hiddenDead: bool, first: (Client, Option<Answer>), second: (Client, Option<Answer>)) returns (es: seq<Event>)
    ensures RunFrom(me, r, es) == AfterPing(env, me, r, shutting, id, ok, now, hiddenDead, first, second)
  {
    PingEventRecords(me, r, id, ok, now);
    es := [PingEvent(id, ok, now)];
    var recorded := RunFrom(me, r, es);
    if !ok && FORCE_REBUILD_LIMIT <= (if id in recorded.inner then recorded.inner[id].heartbeatFailures else 0) {
      es := ThenRebuild(env, me, r, es, shutting, id, first);
    }
    if hiddenDead {
      es := ThenRebuild(env, me, r, es, shutting, id, second);
    }
  }

  lemma ThenRebuild(env: Env, me: DeviceId, r: Registry, before: seq<Event>, shutting: bool, id: DeviceId,
      rebuild: (Client, Option<Answer>)) returns (es: seq<Event>)
    ensures RunFrom(me, r, es) == AfterRebuild(env, me, RunFrom(me, r, before), shutting, id, rebuild.0, rebuild.1)
  {
    var now := RunFrom(me, r, before);
    var events := RebuildEvents(env, me, now, shutting, id, rebuild.0, rebuild.1);
    RebuildIsARun(env, me, now, shutting, id, rebuild.0, rebuild.1);
    RunConcat(me, r, before, events);
    es := before + events;
  }

  /** What a ping round meets at one peer: whether the peer answered and when, and the clients and answers of the
      rebuilds it may come to. */
  datatype Ping = Ping(answered: bool, at: Instant, first: (Client, Option<Answer>), second: (Client, Option<Answer>))

  /** `order` lists the members of `all`, each once, stopping short of some only when it has `limit` of them. */
  ghost predicate ListsUpTo(order: seq<DeviceId>, all: set<DeviceId>, limit: nat) {
    exists rest | rest <= all && Lists(order, all - rest) :: |order| <= limit && (rest == {} || |order| == limit)
  }

  /** A ping round, peer by peer. Whether a peer counts as hidden-dead is decided on `start`, the registry when the
      round began; whether it can be pinged at all on its client now. */
  function AfterRound(env: Env, me: DeviceId, start: Registry, shutting: bool, order: seq<DeviceId>,
      pings: map<DeviceId, Ping>, roundStart: Instant): Registry
    requires forall id | id in order :: id in start.inner && id in pings
  {
    if order == [] then start else
    var init, id := order[..|order| - 1], order[|order| - 1];
    var r, p, ping := AfterRound(env, me, start, shutting, init, pings, roundStart), start.inner[id], pings[id];
    AfterPing(env, me, r, shutting, id, ping.answered && id in r.pool, ping.at,
              HiddenDead(p.lastSync, p.lastHeartbeat, roundStart), ping.first, ping.second)
  }

  lemma RoundGoesOn(env: Env, me: DeviceId, start: Registry, shutting: bool, order: seq<DeviceId>, id: DeviceId,
      pings: map<DeviceId, Ping>, roundStart: Instant)
    requires forall x | x in order + [id] :: x in start.inner && x in pings
    ensures id in start.inner && id in pings && forall x | x in order :: x in start.inner && x in pings
    ensures var r, p, ping := AfterRound(env, me, start, shutting, order, pings, roundStart), start.inner[id], pings[id];
      AfterRound(env, me, start, shutting, order + [id], pings, roundStart)
        == AfterPing(env, me, r, shutting, id, ping.answered && id in r.pool, ping.at,
                     HiddenDead(p.lastSync, p.lastHeartbeat, roundStart), ping.first, ping.second)
  {
    assert (order + [id])[|order|] == id;
    forall x | x in order ensures x in order + [id] {
    }
    assert (order + [id])[..|order|] == order;
  }

  /** A whole ping round is a run of events. */
  lemma {:induction false} RoundIsARun(env: Env, me: DeviceId, start: Registry, shutting: bool, order: seq<DeviceId>,
      pings: map<DeviceId, Ping>, roundStart: Instant) returns (es: seq<Event>)
    requires forall id | id in order :: id in start.inner && id in pings
    ensures RunFrom(me, start, es) == AfterRound(env, me, start, shutting, order, pings, roundStart)
  {
    es := [];
    if order != [] {
      var init, id := order[..|order| - 1], order[|order| - 1];
      var before := RoundIsARun(env, me, start, shutting, init, pings, roundStart);
      var r, p, ping := RunFrom(me, start, before), start.inner[id], pings[id];
      var last := PingIsARun(env, me, r, shutting, id, ping.answered && id in r.pool, ping.at,
                             HiddenDead(p.lastSync, p.lastHeartbeat, roundStart), ping.first, ping.second);
      RunConcat(me, start, before, last);
      es := before + last;
    }
  }

  // ---------------------------------------------------------------------------
  // Broadcasts
  // ---------------------------------------------------------------------------

  function Reply200(replies: map<DeviceId, Instant>, id: DeviceId): Option<Instant> {
    if id in replies then Some(replies[id]) else None
  }

  /** What the outcome of a broadcast writes into a peer's state; `reply` is the time of a 200, if one came. */
  function BroadcastOutcome(p: PeerState, hasClient: bool, reply: Option<Instant>): PeerState {
    if hasClient && reply.Some? then p.(sendFailures := 0, lastSync := reply)
    else p.(sendFailures := Saturating(p.sendFailures + 1))
  }

  function AfterBroadcast(r: Registry, ids: set<DeviceId>, replies: map<DeviceId, Instant>): Registry {
    r.(inner := map id | id in r.inner ::
      if id in ids then BroadcastOutcome(r.inner[id], id in r.pool, Reply200(replies, id)) else r.inner[id])
  }

  function Recorded(r: Registry, id: DeviceId, reply: Option<Instant>): Registry {
    if id in r.pool && reply.Some? then SendOk(r, id, reply.value) else SendFailed(r, id)
  }

  function BroadcastEvent(r: Registry, id: DeviceId, reply: Option<Instant>): Event {
    if id in r.pool && reply.Some? then BroadcastOk(id, reply.value) else BroadcastFailed(id)
  }

  /** Recording the outcomes one by one, in any order, comes to recording them all. */
  lemma BroadcastStep(r: Registry, done: set<DeviceId>, id: DeviceId, replies: map<DeviceId, Instant>)
    requires id in r.inner && id !in done
    ensures Recorded(AfterBroadcast(r, done, replies), id, Reply200(replies, id)) == AfterBroadcast(r, done + {id}, replies)
  {
    var before, after := AfterBroadcast(r, done, replies), AfterBroadcast(r, done + {id}, replies);
    assert after.inner == before.inner[id := BroadcastOutcome(r.inner[id], id in r.pool, Reply200(replies, id))];
  }

  function BroadcastEvents(r: Registry, ids: seq<DeviceId>, replies: map<DeviceId, Instant>): seq<Event> {
    seq(|ids|, i requires 0 <= i < |ids| => BroadcastEvent(r, ids[i], Reply200(replies, ids[i])))
  }

  /** A broadcast is a run of one event per peer, in any order of the peers. */
  lemma {:induction false} BroadcastIsARun(me: DeviceId, r: Registry, ids: seq<DeviceId>, replies: map<DeviceId, Instant>)
    requires forall i | 0 <= i < |ids| :: ids[i] in r.inner
    requires forall i, j | 0 <= i < j < |ids| :: ids[i] != ids[j]
    ensures RunFrom(me, r, BroadcastEvents(r, ids, replies)) == AfterBroadcast(r, Elements(ids), replies)
  {
    if ids == [] {
      NothingBroadcast(r, replies);
    } else {
      var init, id := ids[..|ids| - 1], ids[|ids| - 1];
      var e := BroadcastEvent(r, id, Reply200(replies, id));
      BroadcastIsARun(me, r, init, replies);
      BroadcastStep(r, Elements(init), id, replies);
      assert Elements(ids) == Elements(init) + {id};
      assert BroadcastEvents(r, ids, replies) == BroadcastEvents(r, init, replies) + [e];
      RunSnoc(me, r, BroadcastEvents(r, init, replies), e);
      RecordedIsAnEvent(me, AfterBroadcast(r, Elements(init), replies), id, Reply200(replies, id));
    }
  }

  lemma OneMoreDone(all: set<DeviceId>, todo: set<DeviceId>, id: DeviceId)
    requires id in todo && todo <= all
    ensures all - (todo - {id}) == (all - todo) + {id} && id !in all - todo
  {
  }

  lemma RecordedIsAnEvent(me: DeviceId, r: Registry, id: DeviceId, reply: Option<Instant>)
    ensures Apply(me, r, BroadcastEvent(r, id, reply)) == Recorded(r, id, reply)
  {
  }

  lemma NothingBroadcast(r: Registry, replies: map<DeviceId, Instant>)
    ensures AfterBroadcast(r, {}, replies) == r
  {
    assert AfterBroadcast(r, {}, replies).inner == r.inner;
  }

  function ApprovedPeers(r: Registry): set<DeviceId> {
    set id | id in r.inner && r.inner[id].trust == Approved
  }

  function KindOf(kind: string): Crypto.AadKind { if kind == "image_png" then Crypto.ImagePng else Crypto.Text }

  /** What a clipboard message comes to. */
  datatype Received =
    | Refused(error: NetworkError)
    | Replay
    | NotText
    | Accepted(text: string)

  function Receive(aead: Crypto.Aead, r: Registry, req: ClipboardReq): Received {
    var kind := KindOf(req.kind);
    if req.origin !in r.inner then Refused(NotInPeers)
    else if req.origin in r.banned then Refused(BannedOrigin)
    else if !IsNew(r, req.origin, kind, req.seqNo) then Replay
    else
      match aead.decrypt(r.inner[req.origin].identity.aesKey, req.body, Crypto.Aad(kind, req.origin, req.seqNo))
      case None => Refused(DecryptFailed)
      case Some(plaintext) =>
        match Utf8.Decode(plaintext)
        case None => NotText
        case Some(text) => Accepted(text)
  }

  /** The checks in order, and what is decrypted: the body, under the key stored for the origin. */
  lemma ReceiveSays(aead: Crypto.Aead, r: Registry, req: ClipboardReq)
    ensures req.origin !in r.inner ==> Receive(aead, r, req) == Refused(NotInPeers)
    ensures req.origin in r.inner && req.origin in r.banned ==> Receive(aead, r, req) == Refused(BannedOrigin)
    ensures req.origin in r.inner && req.origin !in r.banned ==>
      var kind, p := if req.kind == "image_png" then Crypto.ImagePng else Crypto.Text, r.inner[req.origin];
      var plain := aead.decrypt(p.identity.aesKey, req.body, Crypto.Aad(kind, req.origin, req.seqNo));
      Receive(aead, r, req) ==
        if kind in p.lastSeen && req.seqNo <= p.lastSeen[kind] then Replay
        else if plain.None? then Refused(DecryptFailed)
        else if Utf8.Decode(plain.value).None? then NotText
        else Accepted(Utf8.Decode(plain.value).value)
  {
  }

  /** The history entry for a received text. */
  function RemoteEntry(r: Registry, origin: DeviceId, entryId: string, text: string, hash: string -> string): History.Entry
    requires origin in r.inner
  {
    History.Entry(entryId, History.Remote(r.inner[origin].identity.deviceName), Some(hash(text)), text)
  }

  /** The request that carries `plaintext` to a peer that shares `key`. */
  function Seal(aead: Crypto.Aead, kind: Crypto.AadKind, plaintext: seq<Utf8.byte>, seqNo: Crypto.u64, me: DeviceId,
      key: Crypto.Key, nonce: nat): ClipboardReq
  {
    ClipboardReq(me, seqNo, if kind == Crypto.ImagePng then "image_png" else "text",
                 aead.encrypt(key, nonce, plaintext, Crypto.Aad(kind, me, seqNo)))
  }

  /** What is broadcast, whoever gets it. */
  datatype Message = Message(aead: Crypto.Aead, kind: Crypto.AadKind, plaintext: seq<Utf8.byte>, seqNo: Crypto.u64, me: DeviceId)

  function At(nonces: map<DeviceId, nat>, id: DeviceId): nat { if id in nonces then nonces[id] else 0 }

  function SealedFor(m: Message, key: Crypto.Key, nonce: nat): ClipboardReq {
    Seal(m.aead, m.kind, m.plaintext, m.seqNo, m.me, key, nonce)
  }

  /** What a broadcast sends to those of `ids` that have a client. */
  function Requests(m: Message, r: Registry, ids: set<DeviceId>, nonces: map<DeviceId, nat>): map<DeviceId, ClipboardReq> {
    map id | id in ids && id in r.inner && id in r.pool :: SealedFor(m, r.inner[id].identity.aesKey, At(nonces, id))
  }

  lemma RequestsStep(m: Message, r: Registry, done: set<DeviceId>, id: DeviceId, nonces: map<DeviceId, nat>)
    requires id in r.inner
    ensures Requests(m, r, done + {id}, nonces)
      == if id in r.pool then Requests(m, r, done, nonces)[id := SealedFor(m, r.inner[id].identity.aesKey, At(nonces, id))]
         else Requests(m, r, done, nonces)
  {
  }

  /** A broadcast goes to every Approved peer with a client, sealed with that peer's key and its own nonce. */
  lemma RequestsCarry(m: Message, r: Registry, nonces: map<DeviceId, nat>)
    requires m.kind == Crypto.Text || m.kind == Crypto.ImagePng
    ensures var sent := Requests(m, r, ApprovedPeers(r), nonces);
      && (forall id :: id in sent <==> id in r.inner && r.inner[id].trust == Approved && id in r.pool)
      && forall id | id in sent ::
           && sent[id].origin == m.me && sent[id].seqNo == m.seqNo
           && sent[id].kind == (if m.kind == Crypto.Text then "text" else "image_png")
           && sent[id].body == m.aead.encrypt(r.inner[id].identity.aesKey, if id in nonces then nonces[id] else 0, m.plaintext,
                                              Crypto.Aad(m.kind, m.me, m.seqNo))
  {
  }

  /** Every Approved peer gets its outcome recorded: a sync time for a 200 over an existing client, else a failure. */
  lemma BroadcastWrites(r: Registry, replies: map<DeviceId, Instant>)
    ensures var r' := AfterBroadcast(r, ApprovedPeers(r), replies);
      && r'.inner.Keys == r.inner.Keys && r'.approved == r.approved && r'.banned == r.banned && r'.pool == r.pool
      && forall id | id in r.inner ::
           var p := r.inner[id];
           r'.inner[id] ==
             if p.trust != Approved then p
             else if id in r.pool && id in replies then p.(sendFailures := 0, lastSync := Some(replies[id]))
             else p.(sendFailures := if p.sendFailures < U32_MAX then p.sendFailures + 1 else U32_MAX)
  {
  }

  // ---------------------------------------------------------------------------
  // The node
  // ---------------------------------------------------------------------------

  class AppState {
    const myDeviceId: DeviceId
    const peers: PeerRegistry
    const clientPool: ClientPool
    const rateLimiter: RateLimit.RateLimiter
    const history: History.HistoryStore
    const env: Env
    const aead: Crypto.Aead
    const sha256Hex: string -> string
    /** The texts waiting for the clipboard thread, and whether that thread still takes them. */
    var applyQueue: seq<string>
    var applyOpen: bool

    ghost predicate Valid()
      reads peers, peers.clientPool, rateLimiter
    {
      peers.clientPool == clientPool && rateLimiter.Valid() && Inv(myDeviceId, View())
    }

    function View(): Registry
      reads peers, peers.clientPool
    {
      peers.View()
    }

    constructor (myDeviceId: DeviceId, kx: Crypto.KeyExchange, aead: Crypto.Aead, sha256Hex: string -> string)
      ensures Valid() && View() == EMPTY && history.inner == [] && applyQueue == [] && applyOpen
      ensures this.myDeviceId == myDeviceId && env == Env(kx, Sanitize.SanitizeDeviceName)
    {
      this.myDeviceId, this.aead, this.sha256Hex := myDeviceId, aead, sha256Hex;
      env := Env(kx, Sanitize.SanitizeDeviceName);
      var pool := new ClientPool();
      var registry := new PeerRegistry(pool);
      clientPool, peers := pool, registry;
      rateLimiter := new RateLimit.RateLimiter();
      history := new History.HistoryStore();
      applyQueue, applyOpen := [], true;
    }

    /** The three writes of a completed handshake, pool first. */
    method AdmitPeer(identity: Identity, client: Client)
      requires Valid() && identity.deviceId != myDeviceId
      modifies peers, clientPool
      ensures Valid() && View() == Admit(old(View()), identity, client)
      ensures View() == Registry(
        old(peers.inner)[identity.deviceId := PeerState(identity, None, None, 0, 0, Approved, map[])],
        old(peers.approved) + {identity.deviceId}, old(peers.banned) - {identity.deviceId},
        old(clientPool.clients)[identity.deviceId := client])
    {
      AdmissionKeepsInv(myDeviceId, View(), identity, client);
      clientPool.Insert(identity.deviceId, client);
      peers.Insert(NewPeer(identity));
      peers.Approve(identity.deviceId);
    }

    /** The list of peers attached to a handshake response. */
    method GossipPeers(requester: DeviceId) returns (stubs: seq<PeerStub>)
      ensures IsStubList(stubs, View(), requester)
      ensures forall s | s in stubs ::
        && s.deviceId in peers.inner && s.deviceId != requester
        && peers.inner[s.deviceId].trust == Approved && s.addr == peers.inner[s.deviceId].identity.addr
      ensures forall id | id in peers.inner && id != requester && peers.inner[id].trust == Approved ::
        PeerStub(id, peers.inner[id].identity.addr) in stubs
    {
      stubs := [];
      var todo := peers.inner.Keys;
      while todo != {}
        invariant todo <= peers.inner.Keys
        invariant forall i, j | 0 <= i < j < |stubs| :: stubs[i].deviceId != stubs[j].deviceId
        invariant forall s :: s in stubs <==> Offers(View(), s, requester) && s.deviceId !in todo
        decreases |todo|
      {
        var id :| id in todo;
        todo := todo - {id};
        var p := peers.inner[id];
        if p.trust == Approved && id != requester {
          stubs := stubs + [PeerStub(id, p.identity.addr)];
        }
      }
    }

    /** Steps 5 to 7 of the handshake: derive the key, admit the requester, and answer. */
    method ServeHandshake(req: HandshakeReq, name: string, addr: Addr, secret: Crypto.Secret, client: Client) returns (resp: HandshakeResp)
      requires Valid() && req.pubkey.Some? && req.deviceId != myDeviceId
      modifies peers, clientPool
      ensures Valid()
      ensures View() == Admit(old(View()),
        PeerIdentity(env.kx, req.deviceId, name, addr, secret, req.pubkey.value), client)
      ensures View() == Registry(
        old(peers.inner)[req.deviceId := PeerState(
          Identity(req.deviceId, name, addr, req.pubkey.value, env.kx.derive(secret, req.pubkey.value)),
          None, None, 0, 0, Approved, map[])],
        old(peers.approved) + {req.deviceId}, old(peers.banned) - {req.deviceId}, old(clientPool.clients)[req.deviceId := client])
      ensures IsStubList(resp.peers, View(), req.deviceId)
      ensures forall s | s in resp.peers ::
        && s.deviceId in peers.inner && s.deviceId != req.deviceId
        && peers.inner[s.deviceId].trust == Approved && s.addr == peers.inner[s.deviceId].identity.addr
      ensures forall id | id in peers.inner && id != req.deviceId && peers.inner[id].trust == Approved ::
        PeerStub(id, peers.inner[id].identity.addr) in resp.peers
      ensures resp == HandshakeResp(myDeviceId, Some(name), Some(env.kx.publicOf(secret)), resp.peers)
    {
      var key := env.kx.derive(secret, req.pubkey.value);
      AdmitPeer(Identity(req.deviceId, name, addr, req.pubkey.value, key), client);
      var stubs := GossipPeers(req.deviceId);
      resp := HandshakeResp(myDeviceId, Some(name), Some(env.kx.publicOf(secret)), stubs);
    }

    /** POST /handshake from the requester's address, at time `now`; `secret` and `client` are made for it. */
    method HandleHandshake(now: Instant, ip: RateLimit.Ip, addr: Addr, req: HandshakeReq, secret: Crypto.Secret, client: Client)
      returns (reply: Reply<HandshakeResp>, ghost allowed: bool)
      requires Valid() && rateLimiter.clock <= now
      modifies peers, clientPool, rateLimiter
      ensures Valid()
      ensures allowed == RateLimit.Admits(old(rateLimiter.log), now, RateLimit.Pair(ip, req.deviceId))
      ensures rateLimiter.log == old(rateLimiter.log) + (if allowed then [RateLimit.Admission(now, RateLimit.Pair(ip, req.deviceId))] else [])
      ensures AnswersHandshake(env, myDeviceId, old(View()), View(), allowed, req, addr, secret, client, reply)
      ensures !allowed ==> reply == Err(RateLimited)
      ensures allowed && req.deviceId == myDeviceId ==> reply == Err(DeviceIdConflict)
      ensures allowed && req.deviceId != myDeviceId && req.deviceId in old(peers.banned) ==> reply == Err(BannedOrigin)
      ensures reply.Ok? <==> allowed && req.deviceId != myDeviceId && req.deviceId !in old(peers.banned) && req.pubkey.Some?
      ensures reply.Err? ==> View() == old(View())
      ensures reply.Ok? ==> View() == Registry(
        old(peers.inner)[req.deviceId := PeerState(
          Identity(req.deviceId, env.sanitizeName(req.deviceName), addr, req.pubkey.value, env.kx.derive(secret, req.pubkey.value)),
          None, None, 0, 0, Approved, map[])],
        old(peers.approved) + {req.deviceId}, old(peers.banned) - {req.deviceId}, old(clientPool.clients)[req.deviceId := client])
      ensures reply.Ok? ==> forall s | s in reply.value.peers ::
        && s.deviceId in peers.inner && s.deviceId != req.deviceId
        && peers.inner[s.deviceId].trust == Approved && s.addr == peers.inner[s.deviceId].identity.addr
      ensures reply.Ok? ==> forall id | id in peers.inner && id != req.deviceId && peers.inner[id].trust == Approved ::
        PeerStub(id, peers.inner[id].identity.addr) in reply.value.peers
      ensures reply.Ok? ==> reply.value == HandshakeResp(
        myDeviceId, Some(env.sanitizeName(req.deviceName)), Some(env.kx.publicOf(secret)), reply.value.peers)
    {
      var decision := rateLimiter.CheckHandshake(now, RateLimit.Pair(ip, req.deviceId));
      allowed := decision == RateLimit.Allowed;
      if decision == RateLimit.TooManyRequests {
        return Err(RateLimited), false;
      }
      var name := env.sanitizeName(req.deviceName);
      if req.deviceId == myDeviceId {
        return Err(DeviceIdConflict), allowed;
      }
      if peers.IsBanned(req.deviceId) {
        return Err(BannedOrigin), allowed;
      }
      if req.pubkey.None? {
        return Err(BadRequest), allowed;
      }
      ServingIsAnEvent(env, myDeviceId, View(), allowed, req, addr, secret, client);
      var resp := ServeHandshake(req, name, addr, secret, client);
      reply := Ok(resp);
    }

    /** `dial_handshake` from the answer on: the stub dials and announces it starts, or `None` for an error. */
    method FinishDial(a: Answer) returns (tasks: Option<DialTasks>)
      requires Valid()
      modifies peers, clientPool
      ensures Valid() && View() == AfterDial(env, myDeviceId, old(View()), a)
      ensures tasks == if DialSucceeds(myDeviceId, old(View()), a.resp)
        then Some(DialTasks(FirstUnknown(a.resp.peers, myDeviceId, View()), Announces(View(), a.resp.deviceId, a.addr, myDeviceId)))
        else None
      ensures tasks.Some? <==> a.resp.deviceId != myDeviceId && a.resp.deviceId !in old(peers.banned) && a.resp.pubkey.Some?
      ensures tasks.None? ==> View() == old(View())
      ensures tasks.Some? ==> View() == Registry(
        old(peers.inner)[a.resp.deviceId := PeerState(
          Identity(a.resp.deviceId, env.sanitizeName(if a.resp.deviceName.Some? then a.resp.deviceName.value else ""), a.addr,
                   a.resp.pubkey.value, env.kx.derive(a.secret, a.resp.pubkey.value)),
          None, None, 0, 0, Approved, map[])],
        old(peers.approved) + {a.resp.deviceId}, old(peers.banned) - {a.resp.deviceId},
        old(clientPool.clients)[a.resp.deviceId := a.client])
      ensures tasks.Some? ==> forall to :: to in tasks.value.announces <==>
        to in peers.inner && peers.inner[to].trust == Approved && to != a.resp.deviceId && to in clientPool.clients
      ensures tasks.Some? ==> forall to | to in tasks.value.announces ::
        var sent := tasks.value.announces[to];
        sent.deviceId == a.resp.deviceId && sent.addr == a.addr && sent.origin == myDeviceId
    {
      var id := a.resp.deviceId;
      if id == myDeviceId || peers.IsBanned(id) || a.resp.pubkey.None? {
        return None;
      }
      var name := match a.resp.deviceName case None => "" case Some(n) => n;
      var key := env.kx.derive(a.secret, a.resp.pubkey.value);
      AdmitPeer(Identity(id, env.sanitizeName(name), a.addr, a.resp.pubkey.value, key), a.client);
      var stubs := FirstUnknown(a.resp.peers, myDeviceId, View());
      var announces := BroadcastAnnounce(id, a.addr);
      tasks := Some(DialTasks(stubs, announces));
    }

    /** `broadcast_announce`: one announce to every Approved peer that has a client, except the new peer. */
    method BroadcastAnnounce(newPeer: DeviceId, addr: Addr) returns (announces: map<DeviceId, Announce>)
      requires Valid()
      ensures announces == Announces(View(), newPeer, addr, myDeviceId)
      ensures forall to :: to in announces <==>
        to in peers.inner && peers.inner[to].trust == Approved && to != newPeer && to in clientPool.clients
      ensures forall to | to in announces ::
        announces[to].deviceId == newPeer && announces[to].addr == addr && announces[to].origin == myDeviceId
    {
      announces := map[];
      var todo := peers.inner.Keys;
      while todo != {}
        invariant todo <= peers.inner.Keys
        invariant announces == map id | id in View().inner && id !in todo && HearsAnnounce(View(), id, newPeer)
          :: Announce(newPeer, addr, myDeviceId)
        decreases |todo|
      {
        var id :| id in todo;
        todo := todo - {id};
        if peers.inner[id].trust == Approved && id != newPeer && clientPool.Get(id).Some? {
          announces := announces[id := Announce(newPeer, addr, myDeviceId)];
        }
      }
    }

    /** The check `gossip_dial_stub` starts with. */
    method StartStubDial(expected: DeviceId) returns (dials: bool)
      ensures dials <==> StartsStubDial(View(), expected)
      ensures dials <==> expected !in peers.inner && expected !in peers.banned
    {
      dials := !(peers.IsKnown(expected) || peers.IsBanned(expected));
    }

    /** `gossip_dial_stub` from the answer on: no further gossip. */
    method FinishStubDial(a: Answer)
      requires Valid()
      modifies peers, clientPool
      ensures Valid()
      ensures View() == if a.resp.pubkey.None? then old(View())
        else Apply(myDeviceId, old(View()), StubDialled(DialledIdentity(env, a), a.client))
      ensures View() ==
        if a.resp.deviceId != myDeviceId && a.resp.deviceId !in old(peers.banned) && a.resp.deviceId !in old(peers.inner) && a.resp.pubkey.Some?
        then Registry(
          old(peers.inner)[a.resp.deviceId := PeerState(
            Identity(a.resp.deviceId, env.sanitizeName(if a.resp.deviceName.Some? then a.resp.deviceName.value else ""), a.addr,
                     a.resp.pubkey.value, env.kx.derive(a.secret, a.resp.pubkey.value)),
            None, None, 0, 0, Approved, map[])],
          old(peers.approved) + {a.resp.deviceId}, old(peers.banned) - {a.resp.deviceId},
          old(clientPool.clients)[a.resp.deviceId := a.client])
        else old(View())
    {
      var id := a.resp.deviceId;
      if id == myDeviceId || peers.IsBanned(id) {
        return;
      }
      if peers.IsKnown(id) {
        return;
      }
      if a.resp.pubkey.None? {
        return;
      }
      var key := env.kx.derive(a.secret, a.resp.pubkey.value);
      var name := match a.resp.deviceName case None => "" case Some(n) => n;
      AdmitPeer(Identity(id, env.sanitizeName(name), a.addr, a.resp.pubkey.value, key), a.client);
    }

    /** POST /peers/announce: no registry change; a dial only to a stranger an Approved peer vouches for. */
    method HandlePeersAnnounce(a: Announce) returns (reply: Reply<Option<Addr>>)
      ensures reply == AnnounceOutcome(myDeviceId, View(), a)
      ensures a.origin !in peers.approved ==> reply == Err(NotInPeers)
      ensures a.origin in peers.approved && a.deviceId == myDeviceId ==> reply == Err(DeviceIdConflict)
      ensures a.origin in peers.approved && a.deviceId != myDeviceId && a.deviceId in peers.banned ==> reply == Err(BannedOrigin)
      ensures a.origin in peers.approved && a.deviceId != myDeviceId && a.deviceId !in peers.banned ==>
        reply == Ok(if a.deviceId in peers.inner then None else Some(a.addr))
    {
      if !peers.IsApproved(a.origin) {
        return Err(NotInPeers);
      }
      if a.deviceId == myDeviceId {
        return Err(DeviceIdConflict);
      }
      if peers.IsBanned(a.deviceId) {
        return Err(BannedOrigin);
      }
      if peers.IsKnown(a.deviceId) {
        return Ok(None);
      }
      reply := Ok(Some(a.addr));
    }

    /** POST /peers/trust. */
    method HandleTrust(origin: DeviceId, subject: DeviceId, seqNo: Crypto.u64) returns (error: Option<NetworkError>)
      requires Valid()
      modifies peers
      ensures Valid()
      ensures error == OriginError(old(View()), origin)
      ensures error == if origin !in old(peers.inner) then Some(NotInPeers)
        else if origin in old(peers.banned) then Some(BannedOrigin) else None
      ensures View() == Apply(myDeviceId, old(View()), TrustGossip(origin, subject, seqNo))
      ensures var heard := error.None?
          && (Crypto.Trust in old(peers.inner[origin]).lastSeen ==> old(peers.inner[origin]).lastSeen[Crypto.Trust] < seqNo);
        && peers.approved == (if heard then old(peers.approved) + {subject} else old(peers.approved))
        && peers.banned == (if heard then old(peers.banned) - {subject} else old(peers.banned))
        && peers.inner.Keys == old(peers.inner.Keys)
    {
      ApplyKeepsInv(myDeviceId, View(), TrustGossip(origin, subject, seqNo));
      if !peers.IsKnown(origin) {
        return Some(NotInPeers);
      }
      if peers.IsBanned(origin) {
        return Some(BannedOrigin);
      }
      var isNew := peers.SeenSeqAndUpdate(origin, Crypto.Trust, seqNo);
      if isNew {
        peers.Approve(subject);
      }
      error := None;
    }

    /** POST /peers/ban. */
    method HandleBan(origin: DeviceId, subject: DeviceId, seqNo: Crypto.u64) returns (error: Option<NetworkError>)
      requires Valid()
      modifies peers, peers.clientPool
      ensures Valid()
      ensures error == OriginError(old(View()), origin)
      ensures error == if origin !in old(peers.inner) then Some(NotInPeers)
        else if origin in old(peers.banned) then Some(BannedOrigin) else None
      ensures View() == Apply(myDeviceId, old(View()), BanGossip(origin, subject, seqNo))
      ensures var heard := error.None?
          && (Crypto.Ban in old(peers.inner[origin]).lastSeen ==> old(peers.inner[origin]).lastSeen[Crypto.Ban] < seqNo);
        && peers.approved == (if heard then old(peers.approved) - {subject} else old(peers.approved))
        && peers.banned == (if heard then old(peers.banned) + {subject} else old(peers.banned))
        && peers.inner.Keys == (if heard then old(peers.inner.Keys) - {subject} else old(peers.inner.Keys))
        && clientPool.clients == (if heard && subject in old(peers.inner) then old(clientPool.clients) - {subject} else old(clientPool.clients))
    {
      ApplyKeepsInv(myDeviceId, View(), BanGossip(origin, subject, seqNo));
      if !peers.IsKnown(origin) {
        return Some(NotInPeers);
      }
      if peers.IsBanned(origin) {
        return Some(BannedOrigin);
      }
      var isNew := peers.SeenSeqAndUpdate(origin, Crypto.Ban, seqNo);
      if isNew {
        peers.Ban(subject);
      }
      error := None;
    }

    /** POST /peers/leave: known origin, then a fresh sequence number, then removal. */
    method HandleLeave(origin: DeviceId, seqNo: Crypto.u64) returns (error: Option<NetworkError>)
      requires Valid()
      modifies peers, peers.clientPool
      ensures Valid()
      ensures error == if origin in old(View()).inner then None else Some(NotInPeers)
      ensures View() == Apply(myDeviceId, old(View()), Left(origin, seqNo))
      ensures View() ==
        if error.None? && (Crypto.Leave in old(peers.inner[origin]).lastSeen ==> old(peers.inner[origin]).lastSeen[Crypto.Leave] < seqNo)
        then Registry(old(peers.inner) - {origin}, old(peers.approved) - {origin}, old(peers.banned) - {origin},
                      old(clientPool.clients) - {origin})
        else old(View())
    {
      ApplyKeepsInv(myDeviceId, View(), Left(origin, seqNo));
      if !peers.IsKnown(origin) {
        return Some(NotInPeers);
      }
      var isNew := peers.SeenSeqAndUpdate(origin, Crypto.Leave, seqNo);
      if isNew {
        var _ := peers.Remove(origin);
      }
      error := None;
    }

    /** POST /heartbeat. */
    method HandleHeartbeat(origin: DeviceId, now: Instant) returns (error: Option<NetworkError>)
      requires Valid()
      modifies peers
      ensures Valid()
      ensures error == OriginError(old(View()), origin)
      ensures error == if origin !in old(peers.inner) then Some(NotInPeers)
        else if origin in old(peers.banned) then Some(BannedOrigin) else None
      ensures View() == Apply(myDeviceId, old(View()), Heartbeat(origin, now))
    {
      ApplyKeepsInv(myDeviceId, View(), Heartbeat(origin, now));
      if !peers.IsKnown(origin) {
        return Some(NotInPeers);
      }
      if peers.IsBanned(origin) {
        return Some(BannedOrigin);
      }
      peers.RecordHeartbeatOk(origin, now);
      error := None;
    }

    /** The `approve_peer` command refuses unknown devices; `reject_peer` takes any. */
    method ApprovePeerCommand(id: DeviceId) returns (ok: bool)
      requires Valid()
      modifies peers
      ensures Valid()
      ensures ok <==> id in old(View()).inner
      ensures View() == Apply(myDeviceId, old(View()), ApproveCommand(id))
      ensures ok ==> peers.approved == old(peers.approved) + {id} && peers.banned == old(peers.banned) - {id}
      ensures !ok ==> View() == old(View())
    {
      ApplyKeepsInv(myDeviceId, View(), ApproveCommand(id));
      ok := peers.IsKnown(id);
      if ok {
        peers.Approve(id);
      }
    }

    method RejectPeerCommand(id: DeviceId)
      requires Valid()
      modifies peers, peers.clientPool
      ensures Valid()
      ensures View() == Apply(myDeviceId, old(View()), RejectCommand(id))
      ensures View() == Registry(
        old(peers.inner) - {id}, old(peers.approved) - {id}, old(peers.banned) + {id},
        if id in old(peers.inner) then old(clientPool.clients) - {id} else old(clientPool.clients))
    {
      ApplyKeepsInv(myDeviceId, View(), RejectCommand(id));
      peers.Ban(id);
    }

    /** POST /clipboard: who may send, then the sequence number, then decryption. What decrypts to text goes to
        the history, and to the clipboard thread unless its queue is full or it has gone. */
    method HandleClipboard(req: ClipboardReq, entryId: string) returns (outcome: Received)
      requires Valid()
      modifies peers, history, this`applyQueue
      ensures Valid()
      ensures outcome == Receive(aead, old(View()), req)
      ensures View() == Apply(myDeviceId, old(View()), Clipboard(req.origin, KindOf(req.kind), req.seqNo))
      ensures outcome.Accepted? && !(old(history.inner) != [] && old(history.inner)[0].contentHash == Some(sha256Hex(outcome.text))) ==>
        && history.inner != [] && history.inner[0].text == outcome.text && history.inner[0].id == entryId
        && history.inner[0].contentHash == Some(sha256Hex(outcome.text))
        && history.inner[0].source == History.Remote(old(peers.inner[req.origin]).identity.deviceName)
      ensures history.inner == if outcome.Accepted?
        then History.Pushed(old(history.inner), RemoteEntry(old(View()), req.origin, entryId, outcome.text, sha256Hex))
        else old(history.inner)
      ensures applyQueue == if outcome.Accepted? && applyOpen && |old(applyQueue)| < APPLY_QUEUE_BOUND
        then old(applyQueue) + [outcome.text] else old(applyQueue)
    {
      ApplyKeepsInv(myDeviceId, View(), Clipboard(req.origin, KindOf(req.kind), req.seqNo));
      if !peers.IsKnown(req.origin) {
        return Refused(NotInPeers);
      }
      if peers.IsBanned(req.origin) {
        return Refused(BannedOrigin);
      }
      var kind := if req.kind == "image_png" then Crypto.ImagePng else Crypto.Text;
      var isNew := peers.SeenSeqAndUpdate(req.origin, kind, req.seqNo);
      if !isNew {
        return Replay;
      }
      var p := peers.inner[req.origin];
      var aad := Crypto.BuildAad(kind, req.origin, req.seqNo);
      var decrypted := aead.decrypt(p.identity.aesKey, req.body, aad);
      if decrypted.None? {
        return Refused(DecryptFailed);
      }
      var decoded := Utf8.Decode(decrypted.value);
      if decoded.None? {
        return NotText;
      }
      var text := decoded.value;
      history.Push(History.Entry(entryId, History.Remote(p.identity.deviceName), Some(sha256Hex(text)), text));
      if applyOpen && |applyQueue| < APPLY_QUEUE_BOUND {
        applyQueue := applyQueue + [text];
      }
      outcome := Accepted(text);
    }

    /** One peer's part of a broadcast: seal, send if there is a client, and record the outcome. */
    method SendTo(id: DeviceId, key: Crypto.Key, kind: Crypto.AadKind, plaintext: seq<Utf8.byte>, seqNo: Crypto.u64,
        nonce: nat, reply: Option<Instant>) returns (sent: Option<ClipboardReq>)
      requires Valid() && (kind == Crypto.Text || kind == Crypto.ImagePng)
      modifies peers
      ensures Valid()
      ensures View() == Recorded(old(View()), id, reply)
      ensures sent == if id in clientPool.clients
        then Some(Seal(aead, kind, plaintext, seqNo, myDeviceId, key, nonce)) else None
      ensures sent.Some? ==>
        && sent.value.origin == myDeviceId && sent.value.seqNo == seqNo
        && sent.value.kind == (if kind == Crypto.Text then "text" else "image_png")
        && sent.value.body == aead.encrypt(key, nonce, plaintext, Crypto.Aad(kind, myDeviceId, seqNo))
    {
      RecordedIsAnEvent(myDeviceId, View(), id, reply);
      ApplyKeepsInv(myDeviceId, View(), BroadcastEvent(View(), id, reply));
      var aad := Crypto.BuildAad(kind, myDeviceId, seqNo);
      var body := aead.encrypt(key, nonce, plaintext, aad);
      var req := ClipboardReq(myDeviceId, seqNo, if kind == Crypto.Text then "text" else "image_png", body);
      if clientPool.Get(id).None? {
        var _ := peers.RecordSendFail(id);
        return None;
      }
      match reply {
        case Some(at) => peers.RecordSendOk(id, at);
        case None => var _ := peers.RecordSendFail(id);
      }
      sent := Some(req);
    }

    /** `broadcast_clipboard`: one request per Approved peer with a client, sealed with that peer's key, and every
        outcome recorded; `replies` has the time of each peer's 200, `nonces` what the sealer draws. */
    method BroadcastClipboard(kind: Crypto.AadKind, plaintext: seq<Utf8.byte>, seqNo: Crypto.u64,
        nonces: map<DeviceId, nat>, replies: map<DeviceId, Instant>) returns (sent: map<DeviceId, ClipboardReq>)
      requires Valid() && (kind == Crypto.Text || kind == Crypto.ImagePng)
      modifies peers
      ensures Valid()
      ensures View() == AfterBroadcast(old(View()), ApprovedPeers(old(View())), replies)
      ensures sent == Requests(Message(aead, kind, plaintext, seqNo, myDeviceId), old(View()), ApprovedPeers(old(View())), nonces)
    {
      ghost var r := View();
      ghost var m := Message(aead, kind, plaintext, seqNo, myDeviceId);
      sent := map[];
      var snapshot := peers.inner;
      var todo := ApprovedPeers(View());
      ghost var all := todo;
      NothingBroadcast(r, replies);
      assert all - todo == {};
      while todo != {}
        invariant Valid() && todo <= all && snapshot == r.inner
        invariant View() == AfterBroadcast(r, all - todo, replies)
        invariant sent == Requests(m, r, all - todo, nonces)
        decreases |todo|
      {
        var id :| id in todo;
        OneMoreDone(all, todo, id);
        BroadcastStep(r, all - todo, id, replies);
        RequestsStep(m, r, all - todo, id, nonces);
        var req := SendTo(id, snapshot[id].identity.aesKey, kind, plaintext, seqNo, At(nonces, id), Reply200(replies, id));
        if req.Some? {
          sent := sent[id := req.value];
        }
        todo := todo - {id};
      }
      assert all - todo == all;
    }

    /** `force_rebuild_connection` as one step; the check it repeats after the replacement can only fail when
        another thread interferes, which `Interleaving` covers. */
    method ForceRebuildConnection(shutting: bool, id: DeviceId, newClient: Client, redial: Option<Answer>)
      requires Valid()
      modifies peers, clientPool
      ensures Valid() && View() == AfterRebuild(env, myDeviceId, old(View()), shutting, id, newClient, redial)
      ensures shutting || id !in old(peers.inner) || id in old(peers.banned) ==> View() == old(View())
      ensures !shutting && id in old(peers.inner) && id !in old(peers.banned) ==>
        var replaced := old(clientPool.clients)[id := newClient];
        clientPool.clients ==
          if redial.Some? && redial.value.resp.deviceId != myDeviceId && redial.value.resp.deviceId !in old(peers.banned)
            && redial.value.resp.pubkey.Some?
          then replaced[redial.value.resp.deviceId := redial.value.client] else replaced
    {
      RebuildKeepsInv(env, myDeviceId, View(), shutting, id, newClient, redial);
      ReplacedKeepsInv(myDeviceId, View(), id, newClient);
      if shutting {
        return;
      }
      if !peers.IsKnown(id) || peers.IsBanned(id) {
        return;
      }
      clientPool.Replace(id, newClient);
      if redial.Some? {
        var tasks := FinishDial(redial.value);
        if tasks.Some? {
          peers.ResetHeartbeatFailures(id);
        }
      }
    }

    /** `handle_ping_result`, with `detect_hidden_dead` on the times the round started from. */
    method HandlePingResult(shutting: bool, id: DeviceId, ok: bool, now: Instant, lastSync: Option<Instant>,
        lastHeartbeat: Option<Instant>, roundStart: Instant, first: (Client, Option<Answer>), second: (Client, Option<Answer>))
      requires Valid()
      modifies peers, clientPool
      ensures Valid()
      ensures View() == AfterPing(env, myDeviceId, old(View()), shutting, id, ok, now,
                                  HiddenDead(lastSync, lastHeartbeat, roundStart), first, second)
    {
      PingEventRecords(myDeviceId, View(), id, ok, now);
      RunFromKeepsInv(myDeviceId, View(), [PingEvent(id, ok, now)]);
      if ok {
        peers.RecordHeartbeatOk(id, now);
      } else {
        var count := peers.RecordHeartbeatFail(id);
        if FORCE_REBUILD_LIMIT <= count {
          ForceRebuildConnection(shutting, id, first.0, first.1);
        }
      }
      var syncStale := lastSync.Some? && HIDDEN_DEAD_SYNC < roundStart - lastSync.value;
      if !syncStale {
        return;
      }
      var heartbeatStale := lastHeartbeat.None? || HIDDEN_DEAD_HEARTBEAT < roundStart - lastHeartbeat.value;
      if heartbeatStale {
        ForceRebuildConnection(shutting, id, second.0, second.1);
      }
    }

    /** One task of a round: the ping, which needs a client, and what its result comes to. */
    method PingOne(shutting: bool, id: DeviceId, seen: PeerState, ping: Ping, roundStart: Instant)
      requires Valid()
      modifies peers, clientPool
      ensures Valid()
      ensures View() == AfterPing(env, myDeviceId, old(View()), shutting, id, ping.answered && id in old(View()).pool, ping.at,
                                  HiddenDead(seen.lastSync, seen.lastHeartbeat, roundStart), ping.first, ping.second)
    {
      var hasClient := clientPool.Get(id).Some?;
      HandlePingResult(shutting, id, ping.answered && hasClient, ping.at, seen.lastSync, seen.lastHeartbeat, roundStart,
                       ping.first, ping.second);
    }

    /** `run_ping_round`: the Approved peers of the snapshot are pinged, each once, in any order: all of them, or as
        many as are started before the worker is cancelled. */
    method RunPingRound(shutting: bool, pings: map<DeviceId, Ping>, roundStart: Instant, beforeCancel: nat)
      returns (ghost order: seq<DeviceId>)
      requires Valid() && ApprovedPeers(View()) <= pings.Keys
      modifies peers, clientPool
      ensures Valid()
      ensures ListsUpTo(order, ApprovedPeers(old(View())), beforeCancel)
      ensures |order| <= beforeCancel && forall i, j | 0 <= i < j < |order| :: order[i] != order[j]
      ensures forall id | id in order :: id in old(peers.inner) && old(peers.inner[id]).trust == Approved
      ensures |order| < beforeCancel ==> forall id | id in old(peers.inner) && old(peers.inner[id]).trust == Approved :: id in order
      ensures View() == AfterRound(env, myDeviceId, old(View()), shutting, order, pings, roundStart)
    {
      order := [];
      ghost var start := View();
      var snapshot := peers.inner;
      var todo := ApprovedPeers(View());
      ghost var all := todo;
      var started := 0;
      while todo != {} && started < beforeCancel
        invariant Valid() && todo <= all && snapshot == start.inner
        invariant Lists(order, all - todo) && |order| == started <= beforeCancel
        invariant View() == AfterRound(env, myDeviceId, start, shutting, order, pings, roundStart)
        decreases |todo|
      {
        var id :| id in todo;
        ListsOneMore(order, all, todo, id);
        todo := todo - {id};
        started := started + 1;
        PingOne(shutting, id, snapshot[id], pings[id], roundStart);
        RoundGoesOn(env, myDeviceId, start, shutting, order, id, pings, roundStart);
        order := order + [id];
      }
      if todo == {} {
        assert all - todo == all;
      }
    }
  }
}
