/** One node as a sequence of atomic handler steps: what every run keeps, why bans are
    sticky, and what the liveness fields remember of the log of events. */
module Events {
  import opened Wrappers
  import opened Peers
  import Crypto

  /** A handler, command or worker step, after the checks that need no registry. */
  datatype Event =
    /** A handshake served; a handshake or a stub handshake dialled and answered. */
    | Served(identity: Identity, client: Client)
    | Dialled(identity: Identity, client: Client)
    | StubDialled(identity: Identity, client: Client)
    /** POST /peers/leave, /peers/trust, /peers/ban, /clipboard and /heartbeat from `origin`. */
    | Left(origin: DeviceId, seqNo: Crypto.u64)
    | TrustGossip(origin: DeviceId, subject: DeviceId, seqNo: Crypto.u64)
    | BanGossip(origin: DeviceId, subject: DeviceId, seqNo: Crypto.u64)
    | Clipboard(origin: DeviceId, kind: Crypto.AadKind, seqNo: Crypto.u64)
    | Heartbeat(origin: DeviceId, now: Instant)
    /** The approve and reject buttons. */
    | ApproveCommand(id: DeviceId)
    | RejectCommand(id: DeviceId)
    /** The heartbeat worker: a ping answered or not, a client replaced, the counter reset after a re-dial. */
    | PingOk(id: DeviceId, now: Instant)
    | PingFailed(id: DeviceId)
    | Replaced(id: DeviceId, client: Client)
    | RebuildDone(id: DeviceId)
    /** The outcome of a clipboard broadcast to one peer. */
    | BroadcastOk(id: DeviceId, now: Instant)
    | BroadcastFailed(id: DeviceId)
    | Shutdown

  /** The three writes every completed handshake ends with: pool, registry, trust. */
  function Admit(r: Registry, identity: Identity, client: Client): Registry {
    ApprovedPeer(Inserted(WithClient(r, identity.deviceId, client), NewPeer(identity)), identity.deviceId)
  }

  /** The event inserts a new state for its peer. */
  predicate Admits(me: DeviceId, r: Registry, e: Event) {
    match e
    case Served(p, _) => p.deviceId != me && p.deviceId !in r.banned
    case Dialled(p, _) => p.deviceId != me && p.deviceId !in r.banned
    case StubDialled(p, _) => p.deviceId != me && p.deviceId !in r.banned && p.deviceId !in r.inner
    case _ => false
  }

  predicate Authorised(r: Registry, origin: DeviceId) { origin in r.inner && origin !in r.banned }

  function Apply(me: DeviceId, r: Registry, e: Event): Registry {
    match e
    case Served(p, c) => if Admits(me, r, e) then Admit(r, p, c) else r
    case Dialled(p, c) => if Admits(me, r, e) then Admit(r, p, c) else r
    case StubDialled(p, c) => if Admits(me, r, e) then Admit(r, p, c) else r
    case Left(o, s) => if IsNew(r, o, Crypto.Leave, s) then Removed(Seen(r, o, Crypto.Leave, s), o) else r
    case TrustGossip(o, subject, s) =>
      if Authorised(r, o) && IsNew(r, o, Crypto.Trust, s) then ApprovedPeer(Seen(r, o, Crypto.Trust, s), subject) else r
    case BanGossip(o, subject, s) =>
      if Authorised(r, o) && IsNew(r, o, Crypto.Ban, s) then BannedPeer(Seen(r, o, Crypto.Ban, s), subject) else r
    case Clipboard(o, kind, s) => if Authorised(r, o) then Seen(r, o, kind, s) else r
    case Heartbeat(o, now) => if Authorised(r, o) then HeartbeatOk(r, o, now) else r
    case ApproveCommand(id) => if id in r.inner then ApprovedPeer(r, id) else r
    case RejectCommand(id) => BannedPeer(r, id)
    case PingOk(id, now) => HeartbeatOk(r, id, now)
    case PingFailed(id) => HeartbeatFailed(r, id)
    case Replaced(id, c) => if Authorised(r, id) then WithClient(r, id, c) else r
    case RebuildDone(id) => FailuresReset(r, id)
    case BroadcastOk(id, now) => SendOk(r, id, now)
    case BroadcastFailed(id) => SendFailed(r, id)
    case Shutdown => Cleared(r)
  }

  function RunFrom(me: DeviceId, r: Registry, es: seq<Event>): Registry {
    if es == [] then r else Apply(me, RunFrom(me, r, es[..|es| - 1]), es[|es| - 1])
  }

  /** The state after a run that starts with nothing known. */
  function Run(me: DeviceId, es: seq<Event>): Registry { RunFrom(me, EMPTY, es) }

  lemma RunSnoc(me: DeviceId, r: Registry, es: seq<Event>, e: Event)
    ensures RunFrom(me, r, es + [e]) == Apply(me, RunFrom(me, r, es), e)
  {
    assert (es + [e])[..|es|] == es;
  }

  /** Runs compose. */
  lemma {:induction false} RunConcat(me: DeviceId, r: Registry, a: seq<Event>, b: seq<Event>)
    ensures RunFrom(me, r, a + b) == RunFrom(me, RunFrom(me, r, a), b)
  {
    if b == [] {
      assert a + b == a;
    } else {
      RunConcat(me, r, a, b[..|b| - 1]);
      assert a + b == (a + b[..|b| - 1]) + [b[|b| - 1]];
      RunSnoc(me, r, a + b[..|b| - 1], b[|b| - 1]);
    }
  }

  // ---------------------------------------------------------------------------
  // The invariant
  // ---------------------------------------------------------------------------

  ghost predicate Inv(me: DeviceId, r: Registry) {
    && (forall id | id in r.inner :: r.inner[id].identity.deviceId == id && r.inner[id].trust == Approved)
    && r.inner.Keys <= r.approved
    && r.approved !! r.banned
    && me !in r.inner && me !in r.pool
    && r.inner.Keys <= r.pool.Keys
  }

  lemma ApplyKeepsTrust(me: DeviceId, r: Registry, e: Event)
    requires Inv(me, r)
    ensures Apply(me, r, e).inner.Keys <= Apply(me, r, e).approved && Apply(me, r, e).approved !! Apply(me, r, e).banned
  {
  }

  lemma ApplyKeepsClients(me: DeviceId, r: Registry, e: Event)
    requires Inv(me, r)
    ensures var r' := Apply(me, r, e); me !in r'.inner && me !in r'.pool && r'.inner.Keys <= r'.pool.Keys
  {
  }

  lemma ApplyKeepsInv(me: DeviceId, r: Registry, e: Event)
    requires Inv(me, r)
    ensures Inv(me, Apply(me, r, e))
  {
    ApplyKeepsTrust(me, r, e);
    ApplyKeepsClients(me, r, e);
    forall id | id in Apply(me, r, e).inner
      ensures Apply(me, r, e).inner[id].identity.deviceId == id && Apply(me, r, e).inner[id].trust == Approved
    {
      assert id in r.inner ==> r.inner[id].identity.deviceId == id && r.inner[id].trust == Approved;
    }
  }

  predicate NoShutdown(es: seq<Event>) { forall i | 0 <= i < |es| :: es[i] != Shutdown }

  /** In every run: members are approved and not banned, the node itself is in neither table, every member has
      a client, and until the first shutdown there are no other clients. */
  lemma {:induction false} EveryRunKeepsInv(me: DeviceId, es: seq<Event>)
    ensures Inv(me, Run(me, es))
    ensures NoShutdown(es) ==> Run(me, es).inner.Keys == Run(me, es).pool.Keys
  {
    if es != [] {
      var init, e := es[..|es| - 1], es[|es| - 1];
      EveryRunKeepsInv(me, init);
      ApplyKeepsInv(me, Run(me, init), e);
      if NoShutdown(es) {
        assert NoShutdown(init);
        ApplyKeepsTablesEqual(me, Run(me, init), e);
      }
    }
  }

  lemma TablesStayEqual(me: DeviceId, r: Registry, e: Event)
    requires r.inner.Keys == r.pool.Keys && e != Shutdown
    ensures Apply(me, r, e).inner.Keys == Apply(me, r, e).pool.Keys
  {
  }

  /** Registry and pool come apart exactly by a shutdown with members left. */
  lemma ApplyKeepsTablesEqual(me: DeviceId, r: Registry, e: Event)
    requires r.inner.Keys == r.pool.Keys
    ensures Apply(me, r, e).inner.Keys == Apply(me, r, e).pool.Keys <==> !(e == Shutdown && r.inner.Keys != {})
  {
    if e != Shutdown {
      TablesStayEqual(me, r, e);
    }
  }

  /** An accepted trust message about somebody who is not a member. */
  predicate VouchesForStranger(r: Registry, e: Event) {
    e.TrustGossip? && Authorised(r, e.origin) && IsNew(r, e.origin, Crypto.Trust, e.seqNo) && e.subject !in r.inner
  }

  /** The approved set and the members come apart exactly by a trust message about a stranger, so "approved if and
      only if a member with trust state Approved" is not an invariant of the code. */
  lemma ApprovedLeavesMembersIff(me: DeviceId, r: Registry, e: Event)
    requires Inv(me, r) && r.approved == r.inner.Keys
    ensures Apply(me, r, e).approved == Apply(me, r, e).inner.Keys <==> !VouchesForStranger(r, e)
  {
  }

  lemma StrangerCanBeApproved(me: DeviceId, p: Identity, c: Client, stranger: DeviceId)
    requires p.deviceId != me && stranger != p.deviceId
    ensures var r := Run(me, [Served(p, c), TrustGossip(p.deviceId, stranger, 1)]);
      stranger in r.approved && stranger !in r.inner
  {
    var es := [Served(p, c), TrustGossip(p.deviceId, stranger, 1)];
    assert es[..1] == [Served(p, c)] && [Served(p, c)][..0] == [];
    assert RunFrom(me, EMPTY, [Served(p, c)]) == Admit(EMPTY, p, c);
  }

  /** Shutdown does not touch the pool, so from then on clients may outlive their peers. */
  lemma ShutdownLeavesClients(me: DeviceId, p: Identity, c: Client)
    requires p.deviceId != me
    ensures var r := Run(me, [Served(p, c), Shutdown]);
      p.deviceId !in r.inner && p.deviceId in r.pool
  {
    assert [Served(p, c), Shutdown][..1] == [Served(p, c)] && [Served(p, c)][..0] == [];
    assert RunFrom(me, EMPTY, [Served(p, c)]) == Admit(EMPTY, p, c);
  }

  // ---------------------------------------------------------------------------
  // Who comes and goes
  // ---------------------------------------------------------------------------

  /** The events that ban a peer. */
  predicate Bans(r: Registry, e: Event, id: DeviceId) {
    || e == RejectCommand(id)
    || (e.BanGossip? && e.subject == id && Authorised(r, e.origin) && IsNew(r, e.origin, Crypto.Ban, e.seqNo))
  }

  /** The events that take a peer out of the registry. */
  predicate Removes(r: Registry, e: Event, id: DeviceId) {
    || e == Shutdown
    || Bans(r, e, id)
    || (e.Left? && e.origin == id && IsNew(r, id, Crypto.Leave, e.seqNo))
  }

  /** A peer is a member after an event exactly when the event admitted it, or it was one and was not removed. */
  lemma MembersComeAndGo(me: DeviceId, r: Registry, e: Event, id: DeviceId)
    ensures id in Apply(me, r, e).inner <==> AdmitsPeer(me, r, e, id) || (id in r.inner && !Removes(r, e, id))
  {
  }

  /** A peer gets banned by exactly these events, and is then neither approved nor registered. */
  lemma BannedExactlyByBans(me: DeviceId, r: Registry, e: Event, id: DeviceId)
    requires id !in r.banned
    ensures id in Apply(me, r, e).banned <==> Bans(r, e, id)
    ensures Bans(r, e, id) ==> id !in Apply(me, r, e).approved && id !in Apply(me, r, e).inner
  {
  }

  // ---------------------------------------------------------------------------
  // Bans are sticky
  // ---------------------------------------------------------------------------

  /** The events that lift a ban: an accepted trust message that names the peer, and shutdown. */
  predicate Lifts(r: Registry, e: Event, id: DeviceId) {
    || e == Shutdown
    || (e.TrustGossip? && e.subject == id && Authorised(r, e.origin) && IsNew(r, e.origin, Crypto.Trust, e.seqNo))
  }

  /** A banned peer stops being banned by exactly these events. */
  lemma UnbannedExactlyByLifting(me: DeviceId, r: Registry, e: Event, id: DeviceId)
    requires Inv(me, r) && id in r.banned
    ensures id !in Apply(me, r, e).banned <==> Lifts(r, e, id)
  {
  }

  /** None of the events lifts a ban of `id` where it happens. */
  predicate NoneLifts(me: DeviceId, r: Registry, es: seq<Event>, id: DeviceId) {
    es == [] ||
    (NoneLifts(me, r, es[..|es| - 1], id) && !Lifts(RunFrom(me, r, es[..|es| - 1]), es[|es| - 1], id))
  }

  lemma {:induction false} BannedStayBanned(me: DeviceId, r: Registry, es: seq<Event>, id: DeviceId)
    requires Inv(me, r) && id in r.banned && NoneLifts(me, r, es, id)
    ensures Inv(me, RunFrom(me, r, es)) && id in RunFrom(me, r, es).banned
  {
    if es != [] {
      var now := RunFrom(me, r, es[..|es| - 1]);
      BannedStayBanned(me, r, es[..|es| - 1], id);
      ApplyKeepsInv(me, now, es[|es| - 1]);
      UnbannedExactlyByLifting(me, now, es[|es| - 1], id);
    }
  }

  lemma BannedAreOut(me: DeviceId, r: Registry, id: DeviceId)
    requires Inv(me, r) && id in r.banned
    ensures id !in r.inner && id !in r.approved
  {
    assert id in r.inner ==> id in r.approved;
  }

  /** From any reachable state on, a banned peer stays banned and out of the registry until one of them happens,
      however many handshakes, dials, announces, leaves, rebuilds, approvals and refused trust messages name it. */
  lemma BansAreSticky(me: DeviceId, before: seq<Event>, after: seq<Event>, id: DeviceId)
    requires id in Run(me, before).banned && NoneLifts(me, Run(me, before), after, id)
    ensures var r := Run(me, before + after); id in r.banned && id !in r.inner && id !in r.approved
  {
    EveryRunKeepsInv(me, before);
    BannedStayBanned(me, Run(me, before), after, id);
    RunConcat(me, EMPTY, before, after);
    BannedAreOut(me, RunFrom(me, Run(me, before), after), id);
  }

  lemma {:induction false} RunFromKeepsInv(me: DeviceId, r: Registry, es: seq<Event>)
    requires Inv(me, r)
    ensures Inv(me, RunFrom(me, r, es))
  {
    if es != [] {
      RunFromKeepsInv(me, r, es[..|es| - 1]);
      ApplyKeepsInv(me, RunFrom(me, r, es[..|es| - 1]), es[|es| - 1]);
    }
  }

  // ---------------------------------------------------------------------------
  // Liveness fields and the event log
  // ---------------------------------------------------------------------------

  predicate AdmitsPeer(me: DeviceId, r: Registry, e: Event, id: DeviceId) { Admits(me, r, e) && e.identity.deviceId == id }

  /** Failed pings of `id` since its last successful heartbeat, reset or insertion. */
  function FailuresSince(me: DeviceId, es: seq<Event>, id: DeviceId): nat {
    if es == [] then 0 else
    var init, e := es[..|es| - 1], es[|es| - 1];
    if ResetsFailures(me, Run(me, init), e, id) then 0
    else FailuresSince(me, init, id) + (if e == PingFailed(id) then 1 else 0)
  }

  /** The time of the latest broadcast to `id` that succeeded since its insertion. */
  function LatestBroadcast(me: DeviceId, es: seq<Event>, id: DeviceId): Option<Instant> {
    if es == [] then None else
    var init, e := es[..|es| - 1], es[|es| - 1];
    if AdmitsPeer(me, Run(me, init), e, id) then None
    else if e.BroadcastOk? && e.id == id then Some(e.now)
    else LatestBroadcast(me, init, id)
  }

  ghost predicate FailuresMatch(me: DeviceId, es: seq<Event>, id: DeviceId) {
    id in Run(me, es).inner ==>
      Run(me, es).inner[id].heartbeatFailures == Saturating(FailuresSince(me, es, id))
  }

  ghost predicate SyncMatches(me: DeviceId, es: seq<Event>, id: DeviceId) {
    id in Run(me, es).inner ==> Run(me, es).inner[id].lastSync == LatestBroadcast(me, es, id)
  }

  predicate ResetsFailures(me: DeviceId, r: Registry, e: Event, id: DeviceId) {
    AdmitsPeer(me, r, e, id) || (e.PingOk? && e.id == id) || (e.Heartbeat? && e.origin == id) || e == RebuildDone(id)
  }

  lemma ResetStep(me: DeviceId, r: Registry, e: Event, id: DeviceId)
    requires Inv(me, r) && id in Apply(me, r, e).inner && ResetsFailures(me, r, e, id)
    ensures Apply(me, r, e).inner[id].heartbeatFailures == 0
  {
  }

  lemma CountStep(me: DeviceId, r: Registry, e: Event, id: DeviceId)
    requires Inv(me, r) && id in Apply(me, r, e).inner && !ResetsFailures(me, r, e, id)
    ensures id in r.inner
    ensures var before := r.inner[id].heartbeatFailures;
      Apply(me, r, e).inner[id].heartbeatFailures == if e == PingFailed(id) then Saturating(before + 1) else before
  {
  }

  lemma SyncStep(me: DeviceId, r: Registry, e: Event, id: DeviceId)
    requires Inv(me, r) && id in Apply(me, r, e).inner
    ensures var after := Apply(me, r, e).inner[id].lastSync;
      if AdmitsPeer(me, r, e, id) then after == None
      else id in r.inner && after == if e.BroadcastOk? && e.id == id then Some(e.now) else r.inner[id].lastSync
  {
  }

  /** In every run the failure count of a member is the number of failed pings since its last success, reset or
      insertion, saturating at the 32-bit limit, and its last sync time is that of the latest successful
      broadcast since its insertion: no heartbeat moves it. */
  lemma {:induction false} LivenessFieldsAreTheLog(me: DeviceId, es: seq<Event>, id: DeviceId)
    ensures FailuresMatch(me, es, id) && SyncMatches(me, es, id)
  {
    if es != [] {
      var init, e := es[..|es| - 1], es[|es| - 1];
      LivenessFieldsAreTheLog(me, init, id);
      EveryRunKeepsInv(me, init);
      if id in Run(me, es).inner {
        if ResetsFailures(me, Run(me, init), e, id) {
          ResetStep(me, Run(me, init), e, id);
        } else {
          CountStep(me, Run(me, init), e, id);
        }
        SyncStep(me, Run(me, init), e, id);
      }
    }
  }

  /** The time of the latest heartbeat of `id`, in either direction, since its insertion. */
  function LatestHeartbeat(me: DeviceId, es: seq<Event>, id: DeviceId): Option<Instant> {
    if es == [] then None else
    var init, e := es[..|es| - 1], es[|es| - 1];
    if AdmitsPeer(me, Run(me, init), e, id) then None
    else if (e.PingOk? && e.id == id) || (e.Heartbeat? && e.origin == id) then Some(e.now)
    else LatestHeartbeat(me, init, id)
  }

  /** Broadcasts to `id` that failed since the last one that succeeded, or since its insertion. */
  function SendFailuresSince(me: DeviceId, es: seq<Event>, id: DeviceId): nat {
    if es == [] then 0 else
    var init, e := es[..|es| - 1], es[|es| - 1];
    if AdmitsPeer(me, Run(me, init), e, id) || (e.BroadcastOk? && e.id == id) then 0
    else SendFailuresSince(me, init, id) + (if e == BroadcastFailed(id) then 1 else 0)
  }

  lemma HeartbeatStep(me: DeviceId, r: Registry, e: Event, id: DeviceId)
    requires Inv(me, r) && id in Apply(me, r, e).inner
    ensures var after := Apply(me, r, e).inner[id].lastHeartbeat;
      if AdmitsPeer(me, r, e, id) then after == None
      else (id in r.inner && after ==
        if (e.PingOk? && e.id == id) || (e.Heartbeat? && e.origin == id) then Some(e.now) else r.inner[id].lastHeartbeat)
  {
  }

  lemma SendStep(me: DeviceId, r: Registry, e: Event, id: DeviceId)
    requires Inv(me, r) && id in Apply(me, r, e).inner
    ensures var after := Apply(me, r, e).inner[id].sendFailures;
      if AdmitsPeer(me, r, e, id) || (e.BroadcastOk? && e.id == id) then after == 0
      else (id in r.inner && after ==
        if e == BroadcastFailed(id) then Saturating(r.inner[id].sendFailures + 1) else r.inner[id].sendFailures)
  {
  }

  /** Likewise its last heartbeat time is that of the latest heartbeat, and its send failures are the failed
      broadcasts since the last successful one. */
  lemma {:induction false} TrafficFieldsAreTheLog(me: DeviceId, es: seq<Event>, id: DeviceId)
    requires id in Run(me, es).inner
    ensures Run(me, es).inner[id].lastHeartbeat == LatestHeartbeat(me, es, id)
    ensures Run(me, es).inner[id].sendFailures == Saturating(SendFailuresSince(me, es, id))
  {
    var init, e := es[..|es| - 1], es[|es| - 1];
    EveryRunKeepsInv(me, init);
    HeartbeatStep(me, Run(me, init), e, id);
    SendStep(me, Run(me, init), e, id);
    if id in Run(me, init).inner {
      TrafficFieldsAreTheLog(me, init, id);
    }
  }

  /** The client made at the latest admission of `id`, or at the latest replacement that found it a member. */
  function LatestClient(me: DeviceId, es: seq<Event>, id: DeviceId): Option<Client> {
    if es == [] then None else
    var init, e := es[..|es| - 1], es[|es| - 1];
    if AdmitsPeer(me, Run(me, init), e, id) then Some(e.client)
    else if e.Replaced? && e.id == id && id in Run(me, init).inner then Some(e.client)
    else LatestClient(me, init, id)
  }

  lemma ClientStep(me: DeviceId, r: Registry, e: Event, id: DeviceId)
    requires Inv(me, r) && id in Apply(me, r, e).inner
    ensures id in Apply(me, r, e).pool
    ensures var after := Apply(me, r, e).pool[id];
      if AdmitsPeer(me, r, e, id) then after == e.client
      else id in r.inner && id in r.pool && after == if e.Replaced? && e.id == id then e.client else r.pool[id]
  {
    ApplyKeepsClients(me, r, e);
    if id in r.inner {
      assert id in r.approved && id !in r.banned;
    }
  }

  /** In every run a member's client is the newest one made for it: no older connection outlives a handshake or a
      replacement. */
  lemma {:induction false} ClientIsTheLatest(me: DeviceId, es: seq<Event>, id: DeviceId)
    requires id in Run(me, es).inner
    ensures id in Run(me, es).pool && Some(Run(me, es).pool[id]) == LatestClient(me, es, id)
  {
    var init, e := es[..|es| - 1], es[|es| - 1];
    EveryRunKeepsInv(me, init);
    ClientStep(me, Run(me, init), e, id);
    if id in Run(me, init).inner {
      ClientIsTheLatest(me, init, id);
    }
  }

  const HIDDEN_DEAD_SYNC: nat := 30_000_000_000
  const HIDDEN_DEAD_HEARTBEAT: nat := 15_000_000_000

  /** `detect_hidden_dead` on the state a ping round saw when it started at `now`: it has synchronised, but not
      for 30 s, and has had no heartbeat for 15 s. */
  predicate HiddenDead(lastSync: Option<Instant>, lastHeartbeat: Option<Instant>, now: Instant) {
    && lastSync.Some? && lastSync.value + HIDDEN_DEAD_SYNC < now
    && (lastHeartbeat.Some? ==> lastHeartbeat.value + HIDDEN_DEAD_HEARTBEAT < now)
  }

  lemma {:induction false} LatestBroadcastHappened(me: DeviceId, es: seq<Event>, id: DeviceId, j: nat)
    requires j < |es| && AdmitsPeer(me, Run(me, es[..j]), es[j], id)
    requires LatestBroadcast(me, es, id).Some?
    ensures exists k :: j < k < |es| && es[k] == BroadcastOk(id, LatestBroadcast(me, es, id).value)
  {
    var init := es[..|es| - 1];
    var e := es[|es| - 1];
    if AdmitsPeer(me, Run(me, init), e, id) {
    } else if e.BroadcastOk? && e.id == id {
    } else {
      assert init[..j] == es[..j];
      LatestBroadcastHappened(me, init, id, j);
      var k :| j < k < |init| && init[k] == BroadcastOk(id, LatestBroadcast(me, init, id).value);
      assert es[k] == init[k];
    }
  }

  /** A peer re-dialled at step `j` is found hidden-dead in a round that starts later only if a broadcast to it
      succeeded in between, more than 30 s before that round. */
  lemma HiddenDeadNeedsABroadcast(me: DeviceId, es: seq<Event>, id: DeviceId, j: nat, now: Instant)
    requires j < |es| && AdmitsPeer(me, Run(me, es[..j]), es[j], id)
    requires id in Run(me, es).inner
    requires HiddenDead(Run(me, es).inner[id].lastSync, Run(me, es).inner[id].lastHeartbeat, now)
    ensures exists k :: j < k < |es| && es[k].BroadcastOk? && es[k].id == id && es[k].now + HIDDEN_DEAD_SYNC < now
  {
    LivenessFieldsAreTheLog(me, es, id);
    LatestBroadcastHappened(me, es, id, j);
  }
}
