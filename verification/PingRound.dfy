/** A ping round as it is run: one task per peer, and the tasks overlap. It still ends as if they had run one after
    the other. */
module PingRound {
  import opened Wrappers
  import opened Peers
  import opened Events
  import opened Node

  /** What a round was started with. */
  datatype Round = Round(env: Env, me: DeviceId, start: Registry, shutting: bool, pings: map<DeviceId, Ping>, roundStart: Instant)

  /** Where a task is; the two rebuilds are the one after too many failures and the one of a hidden-dead peer. */
  datatype Stage =
    | ToPing
    | ToRecord(ok: bool)
    | ToJudge
    | ToRebuild(second: bool)
    | ToRedial(second: bool)
    | ToReset(second: bool)
    | Finished

  predicate Pinged(p: Round, id: DeviceId) { id in p.start.inner && id in p.pings }

  predicate FoundDead(p: Round, id: DeviceId)
    requires Pinged(p, id)
  {
    HiddenDead(p.start.inner[id].lastSync, p.start.inner[id].lastHeartbeat, p.roundStart)
  }

  function Rebuild(p: Round, id: DeviceId, second: bool): (Client, Option<Answer>)
    requires Pinged(p, id)
  {
    if second then p.pings[id].second else p.pings[id].first
  }

  function AfterIt(second: bool): Stage { if second then Finished else ToJudge }

  /** One step of the task of `id`. */
  function Advance(p: Round, id: DeviceId, r: Registry, stage: Stage): (Registry, Stage)
    requires Pinged(p, id)
  {
    match stage
    case ToPing => (r, ToRecord(p.pings[id].answered && id in r.pool))
    case ToRecord(ok) => if ok then (HeartbeatOk(r, id, p.pings[id].at), ToJudge) else CountFailure(r, id)
    case ToJudge => (r, if FoundDead(p, id) then ToRebuild(true) else Finished)
    case ToRebuild(second) =>
      if p.shutting || !Authorised(r, id) then (r, AfterIt(second))
      else (WithClient(r, id, Rebuild(p, id, second).0), ToRedial(second))
    case ToRedial(second) =>
      var redial := Rebuild(p, id, second).1;
      if redial.None? || !DialSucceeds(p.me, r, redial.value.resp) then (r, AfterIt(second))
      else (AfterDial(p.env, p.me, r, redial.value), ToReset(second))
    case ToReset(second) => (FailuresReset(r, id), AfterIt(second))
    case Finished => (r, Finished)
  }

  function CountFailure(r: Registry, id: DeviceId): (Registry, Stage) {
    var counted := HeartbeatFailed(r, id);
    var count := if id in counted.inner then counted.inner[id].heartbeatFailures else 0;
    (counted, if FORCE_REBUILD_LIMIT <= count then ToRebuild(false) else ToJudge)
  }

  datatype World = World(r: Registry, stages: map<DeviceId, Stage>)

  function Step(p: Round, w: World, id: DeviceId): World
    requires id in w.stages && Pinged(p, id)
  {
    var next := Advance(p, id, w.r, w.stages[id]);
    World(next.0, w.stages[id := next.1])
  }

  ghost predicate Schedules(p: Round, w: World, schedule: seq<DeviceId>) {
    && (forall id | id in w.stages :: Pinged(p, id))
    && forall i | 0 <= i < |schedule| :: schedule[i] in w.stages
  }

  /** The state a schedule leads to; it names the tasks that move, one after the other. */
  ghost function Run(p: Round, w: World, schedule: seq<DeviceId>): World
    requires Schedules(p, w, schedule)
    decreases |schedule|
  {
    if schedule == [] then w else Run(p, Step(p, w, schedule[0]), schedule[1..])
  }

  predicate AllFinished(w: World) { forall id | id in w.stages :: w.stages[id] == Finished }

  // ---------------------------------------------------------------------------
  // Whatever the overlap, the round is a run of events
  // ---------------------------------------------------------------------------

  /** The event that a step is, if it changes anything. */
  function EventOf(p: Round, id: DeviceId, r: Registry, stage: Stage): Option<Event>
    requires Pinged(p, id)
  {
    match stage
    case ToRecord(ok) => Some(PingEvent(id, ok, p.pings[id].at))
    case ToRebuild(second) => if !p.shutting && Authorised(r, id) then Some(Replaced(id, Rebuild(p, id, second).0)) else None
    case ToRedial(second) => RedialEvent(p, r, Rebuild(p, id, second).1)
    case ToReset(_) => Some(RebuildDone(id))
    case _ => None
  }

  function RedialEvent(p: Round, r: Registry, redial: Option<Answer>): Option<Event> {
    if redial.Some? && DialSucceeds(p.me, r, redial.value.resp)
    then Some(Dialled(DialledIdentity(p.env, redial.value), redial.value.client)) else None
  }

  function Applied(me: DeviceId, r: Registry, e: Option<Event>): Registry { if e.None? then r else Apply(me, r, e.value) }

  lemma RedialIsAnEvent(p: Round, r: Registry, redial: Answer)
    requires DialSucceeds(p.me, r, redial.resp)
    ensures Applied(p.me, r, RedialEvent(p, r, Some(redial))) == AfterDial(p.env, p.me, r, redial)
  {
  }

  lemma PingIsAnEvent(me: DeviceId, r: Registry, id: DeviceId, ok: bool, at: Instant)
    ensures Apply(me, r, PingEvent(id, ok, at)) == if ok then HeartbeatOk(r, id, at) else HeartbeatFailed(r, id)
  {
  }

  lemma AdvanceIsAnEvent(p: Round, id: DeviceId, r: Registry, stage: Stage)
    requires Pinged(p, id)
    ensures Advance(p, id, r, stage).0 == Applied(p.me, r, EventOf(p, id, r, stage))
  {
    match stage {
      case ToRecord(ok) => PingIsAnEvent(p.me, r, id, ok, p.pings[id].at);
      case ToRedial(second) =>
        var redial := Rebuild(p, id, second).1;
        if redial.Some? && DialSucceeds(p.me, r, redial.value.resp) {
          RedialIsAnEvent(p, r, redial.value);
        }
      case _ =>
    }
  }

  lemma AppliedIsARun(me: DeviceId, r: Registry, e: Option<Event>) returns (es: seq<Event>)
    ensures RunFrom(me, r, es) == Applied(me, r, e)
  {
    es := [];
    if e.Some? {
      RunSnoc(me, r, [], e.value);
      es := [] + [e.value];
    }
  }

  lemma {:induction false} OverlapIsARun(p: Round, w: World, schedule: seq<DeviceId>) returns (es: seq<Event>)
    requires Schedules(p, w, schedule)
    ensures RunFrom(p.me, w.r, es) == Run(p, w, schedule).r
    decreases |schedule|
  {
    es := [];
    if schedule != [] {
      var w' := Step(p, w, schedule[0]);
      AdvanceIsAnEvent(p, schedule[0], w.r, w.stages[schedule[0]]);
      var first := AppliedIsARun(p.me, w.r, EventOf(p, schedule[0], w.r, w.stages[schedule[0]]));
      var rest := OverlapIsARun(p, w', schedule[1..]);
      RunConcat(p.me, w.r, first, rest);
      es := first + rest;
    }
  }

  // ---------------------------------------------------------------------------
  // Tasks of different peers do not meet
  // ---------------------------------------------------------------------------

  /** What a registry holds about one device. */
  datatype Entry = Entry(state: Option<PeerState>, approved: bool, banned: bool, client: Option<Client>)

  function EntryOf(r: Registry, id: DeviceId): Entry {
    Entry(if id in r.inner then Some(r.inner[id]) else None, id in r.approved, id in r.banned,
          if id in r.pool then Some(r.pool[id]) else None)
  }

  /** The re-dials of the task are answered, if at all, by the device they are meant for. */
  predicate OwnAnswers(p: Round, id: DeviceId) {
    Pinged(p, id) ==>
      && (p.pings[id].first.1.Some? ==> p.pings[id].first.1.value.resp.deviceId == id)
      && (p.pings[id].second.1.Some? ==> p.pings[id].second.1.value.resp.deviceId == id)
  }

  lemma OthersStay(p: Round, id: DeviceId, r: Registry, stage: Stage, other: DeviceId)
    requires Pinged(p, id) && OwnAnswers(p, id) && other != id
    ensures EntryOf(Advance(p, id, r, stage).0, other) == EntryOf(r, other)
  {
  }

  /** A step of a task depends on nothing but the entry of its peer. */
  lemma StepIsLocal(p: Round, id: DeviceId, r1: Registry, r2: Registry, stage: Stage)
    requires Pinged(p, id) && OwnAnswers(p, id) && EntryOf(r1, id) == EntryOf(r2, id)
    ensures var n1, n2 := Advance(p, id, r1, stage), Advance(p, id, r2, stage);
      n1.1 == n2.1 && EntryOf(n1.0, id) == EntryOf(n2.0, id)
  {
    assert (id in r1.inner <==> id in r2.inner) && (id in r1.inner ==> r1.inner[id] == r2.inner[id]);
    match stage {
      case ToRecord(_) => RecordIsLocal(r1, r2, id, p.pings[id].at);
      case ToRedial(second) => RedialIsLocal(p, id, r1, r2, second);
      case _ =>
    }
  }

  lemma RecordIsLocal(r1: Registry, r2: Registry, id: DeviceId, at: Instant)
    requires EntryOf(r1, id) == EntryOf(r2, id)
    ensures EntryOf(HeartbeatOk(r1, id, at), id) == EntryOf(HeartbeatOk(r2, id, at), id)
    ensures CountFailure(r1, id).1 == CountFailure(r2, id).1
    ensures EntryOf(CountFailure(r1, id).0, id) == EntryOf(CountFailure(r2, id).0, id)
  {
    assert (id in r1.inner <==> id in r2.inner) && (id in r1.inner ==> r1.inner[id] == r2.inner[id]);
  }

  lemma RedialIsLocal(p: Round, id: DeviceId, r1: Registry, r2: Registry, second: bool)
    requires Pinged(p, id) && OwnAnswers(p, id) && EntryOf(r1, id) == EntryOf(r2, id)
    ensures var n1, n2 := Advance(p, id, r1, ToRedial(second)), Advance(p, id, r2, ToRedial(second));
      n1.1 == n2.1 && EntryOf(n1.0, id) == EntryOf(n2.0, id)
  {
  }

  // ---------------------------------------------------------------------------
  // A task on its own
  // ---------------------------------------------------------------------------

  /** A bound on the steps the task has left. */
  function Left(stage: Stage): nat {
    match stage
    case ToPing => 9
    case ToRecord(_) => 8
    case ToRebuild(second) => if second then 3 else 7
    case ToRedial(second) => if second then 2 else 6
    case ToReset(second) => if second then 1 else 5
    case ToJudge => 4
    case Finished => 0
  }

  /** The registry once the task has run to its end with no other task moving. */
  function Rest(p: Round, id: DeviceId, r: Registry, stage: Stage): Registry
    requires Pinged(p, id)
    decreases Left(stage)
  {
    if stage == Finished then r else
    var next := Advance(p, id, r, stage);
    Rest(p, id, next.0, next.1)
  }

  lemma {:induction false} RestIsLocal(p: Round, id: DeviceId, r1: Registry, r2: Registry, stage: Stage)
    requires Pinged(p, id) && OwnAnswers(p, id) && EntryOf(r1, id) == EntryOf(r2, id)
    ensures EntryOf(Rest(p, id, r1, stage), id) == EntryOf(Rest(p, id, r2, stage), id)
    decreases Left(stage)
  {
    if stage != Finished {
      StepIsLocal(p, id, r1, r2, stage);
      var n1, n2 := Advance(p, id, r1, stage), Advance(p, id, r2, stage);
      RestIsLocal(p, id, n1.0, n2.0, n1.1);
    }
  }

  lemma {:induction false} RestLeavesOthers(p: Round, id: DeviceId, r: Registry, stage: Stage, other: DeviceId)
    requires Pinged(p, id) && OwnAnswers(p, id) && other != id
    ensures EntryOf(Rest(p, id, r, stage), other) == EntryOf(r, other)
    decreases Left(stage)
  {
    if stage != Finished {
      OthersStay(p, id, r, stage, other);
      var next := Advance(p, id, r, stage);
      RestLeavesOthers(p, id, next.0, next.1, other);
    }
  }

  /** A rebuild from its check to its end. */
  lemma RestOfRebuild(p: Round, id: DeviceId, r: Registry, second: bool)
    requires Pinged(p, id)
    ensures Rest(p, id, r, ToRebuild(second))
      == Rest(p, id, AfterRebuild(p.env, p.me, r, p.shutting, id, Rebuild(p, id, second).0, Rebuild(p, id, second).1), AfterIt(second))
  {
    if !p.shutting && Authorised(r, id) {
      var replaced, redial := WithClient(r, id, Rebuild(p, id, second).0), Rebuild(p, id, second).1;
      assert Rest(p, id, r, ToRebuild(second)) == Rest(p, id, replaced, ToRedial(second));
      if redial.Some? && DialSucceeds(p.me, replaced, redial.value.resp) {
        var dialled := AfterDial(p.env, p.me, replaced, redial.value);
        assert Rest(p, id, replaced, ToRedial(second)) == Rest(p, id, dialled, ToReset(second));
        assert Rest(p, id, dialled, ToReset(second)) == Rest(p, id, FailuresReset(dialled, id), AfterIt(second));
      }
    }
  }

  lemma RestOfJudging(p: Round, id: DeviceId, r: Registry)
    requires Pinged(p, id)
    ensures Rest(p, id, r, ToJudge)
      == if FoundDead(p, id) then AfterRebuild(p.env, p.me, r, p.shutting, id, p.pings[id].second.0, p.pings[id].second.1) else r
  {
    if FoundDead(p, id) {
      RestOfRebuild(p, id, r, true);
    }
  }

  /** The task as one step. */
  function Undisturbed(p: Round, id: DeviceId, r: Registry): Registry
    requires Pinged(p, id)
  {
    var ping := p.pings[id];
    AfterPing(p.env, p.me, r, p.shutting, id, ping.answered && id in r.pool, ping.at, FoundDead(p, id), ping.first, ping.second)
  }

  lemma RestOfPing(p: Round, id: DeviceId, r: Registry)
    requires Pinged(p, id)
    ensures Rest(p, id, r, ToPing) == Undisturbed(p, id, r)
  {
    var ping := p.pings[id];
    var ok := ping.answered && id in r.pool;
    assert Rest(p, id, r, ToPing) == Rest(p, id, r, ToRecord(ok));
    var next := Advance(p, id, r, ToRecord(ok));
    if next.1 == ToRebuild(false) {
      RestOfRebuild(p, id, next.0, false);
      RestOfJudging(p, id, AfterRebuild(p.env, p.me, next.0, p.shutting, id, ping.first.0, ping.first.1));
    } else {
      RestOfJudging(p, id, next.0);
    }
  }

  // ---------------------------------------------------------------------------
  // The round
  // ---------------------------------------------------------------------------

  predicate AllPinged(p: Round, order: seq<DeviceId>) { forall id | id in order :: Pinged(p, id) && OwnAnswers(p, id) }

  /** The tasks of `order` one after the other. */
  function InTurn(p: Round, order: seq<DeviceId>): Registry
    requires AllPinged(p, order)
  {
    AfterRound(p.env, p.me, p.start, p.shutting, order, p.pings, p.roundStart)
  }

  /** All tasks of `order` are about to start. */
  function Begun(p: Round, order: seq<DeviceId>): World { World(p.start, map id | id in order :: ToPing) }

  /** What the task of `id` still has to do ends, for its peer, where it would have ended before. */
  ghost predicate SameEnd(p: Round, w: World, w': World, id: DeviceId)
    requires Pinged(p, id)
  {
    && w'.stages.Keys == w.stages.Keys
    && if id in w.stages then EntryOf(Rest(p, id, w'.r, w'.stages[id]), id) == EntryOf(Rest(p, id, w.r, w.stages[id]), id)
       else EntryOf(w'.r, id) == EntryOf(w.r, id)
  }

  lemma StepKeepsEnd(p: Round, w: World, x: DeviceId, id: DeviceId)
    requires x in w.stages && Pinged(p, x) && OwnAnswers(p, x) && Pinged(p, id) && OwnAnswers(p, id)
    ensures SameEnd(p, w, Step(p, w, x), id)
  {
    if x != id {
      OthersStay(p, x, w.r, w.stages[x], id);
      if id in w.stages {
        RestIsLocal(p, id, w.r, Step(p, w, x).r, w.stages[id]);
      }
    }
  }

  lemma {:induction false} RunKeepsEnd(p: Round, w: World, schedule: seq<DeviceId>, id: DeviceId)
    requires Schedules(p, w, schedule) && (forall x | x in w.stages :: OwnAnswers(p, x)) && Pinged(p, id) && OwnAnswers(p, id)
    ensures SameEnd(p, w, Run(p, w, schedule), id)
    decreases |schedule|
  {
    if schedule != [] {
      StepKeepsEnd(p, w, schedule[0], id);
      RunKeepsEnd(p, Step(p, w, schedule[0]), schedule[1..], id);
    }
  }

  lemma {:induction false} RunLeavesOthers(p: Round, w: World, schedule: seq<DeviceId>, id: DeviceId)
    requires Schedules(p, w, schedule) && (forall x | x in w.stages :: OwnAnswers(p, x)) && id !in w.stages
    ensures EntryOf(Run(p, w, schedule).r, id) == EntryOf(w.r, id)
    decreases |schedule|
  {
    if schedule != [] {
      OthersStay(p, schedule[0], w.r, w.stages[schedule[0]], id);
      RunLeavesOthers(p, Step(p, w, schedule[0]), schedule[1..], id);
    }
  }

  /** One after the other, each task ends for its peer where it would have ended alone. */
  lemma {:induction false} OneByOne(p: Round, order: seq<DeviceId>, id: DeviceId)
    requires forall i, j | 0 <= i < j < |order| :: order[i] != order[j]
    requires AllPinged(p, order)
    ensures EntryOf(InTurn(p, order), id)
      == if id in order then EntryOf(Rest(p, id, p.start, ToPing), id) else EntryOf(p.start, id)
  {
    if order != [] {
      var init, x := order[..|order| - 1], order[|order| - 1];
      assert id in order <==> id in init || id == x;
      OneByOne(p, init, id);
      var r := InTurn(p, init);
      RestOfPing(p, x, r);
      if x == id {
        RestIsLocal(p, id, r, p.start, ToPing);
      } else {
        RestLeavesOthers(p, x, r, ToPing, id);
      }
    }
  }

  lemma SameEntries(r1: Registry, r2: Registry)
    requires forall id :: EntryOf(r1, id) == EntryOf(r2, id)
    ensures r1 == r2
  {
    assert forall id :: (id in r1.inner <==> id in r2.inner) && (id in r1.inner ==> r1.inner[id] == r2.inner[id]) by {
      forall id ensures (id in r1.inner <==> id in r2.inner) && (id in r1.inner ==> r1.inner[id] == r2.inner[id]) {
        assert EntryOf(r1, id) == EntryOf(r2, id);
      }
    }
    forall id ensures (id in r1.pool <==> id in r2.pool) && (id in r1.pool ==> r1.pool[id] == r2.pool[id]) {
      assert EntryOf(r1, id) == EntryOf(r2, id);
    }
    forall id ensures (id in r1.approved <==> id in r2.approved) && (id in r1.banned <==> id in r2.banned) {
      assert EntryOf(r1, id) == EntryOf(r2, id);
    }
    assert r1.inner == r2.inner && r1.pool == r2.pool && r1.approved == r2.approved && r1.banned == r2.banned;
  }

  /** If every re-dial that is answered is answered by the device it was meant for, the tasks of a round end, in
      whatever overlap, in the registry that they would have ended in one after the other, in any order. */
  lemma OverlapEndsAsOneByOne(p: Round, order: seq<DeviceId>, schedule: seq<DeviceId>)
    requires forall i, j | 0 <= i < j < |order| :: order[i] != order[j]
    requires AllPinged(p, order)
    requires Schedules(p, Begun(p, order), schedule) && AllFinished(Run(p, Begun(p, order), schedule))
    ensures Run(p, Begun(p, order), schedule).r == InTurn(p, order)
  {
    var w := Begun(p, order);
    var end := Run(p, w, schedule);
    var after := InTurn(p, order);
    forall id ensures EntryOf(end.r, id) == EntryOf(after, id) {
      OneByOne(p, order, id);
      if id in order {
        RunKeepsEnd(p, w, schedule, id);
        assert Rest(p, id, end.r, end.stages[id]) == end.r;
      } else {
        RunLeavesOthers(p, w, schedule, id);
      }
    }
    SameEntries(end.r, after);
  }

  /** Otherwise the order can matter: a peer whose device answers at another peer's address is admitted anew by the
      other's task, which forgets a failed ping counted before. */
  lemma StrangeAnswersMakeOrderMatter(p: Round, a: DeviceId, b: DeviceId, answer: Answer)
    requires a != b && p.me != b && !p.shutting && Pinged(p, a) && Pinged(p, b)
    requires Authorised(p.start, a) && b !in p.start.banned
    requires p.start.inner[a].lastSync == None && p.start.inner[b].lastSync == None
    requires p.start.inner[a].heartbeatFailures == FORCE_REBUILD_LIMIT - 1 && p.start.inner[b].heartbeatFailures == 0
    requires !p.pings[a].answered && !p.pings[b].answered
    requires p.pings[a].first.1 == Some(answer) && answer.resp.deviceId == b && answer.resp.pubkey.Some?
    ensures b in Undisturbed(p, b, Undisturbed(p, a, p.start)).inner && b in Undisturbed(p, a, Undisturbed(p, b, p.start)).inner
    ensures Undisturbed(p, b, Undisturbed(p, a, p.start)).inner[b].heartbeatFailures == 1
    ensures Undisturbed(p, a, Undisturbed(p, b, p.start)).inner[b].heartbeatFailures == 0
  {
  }

  /** With no re-dial answered, the round gives a new client to exactly those of its peers that are not banned and
      that fail their ping for the third time in a row or more, or were found hidden-dead when it started; every
      other client stays. */
  lemma WhoIsRebuilt(p: Round, order: seq<DeviceId>, id: DeviceId)
    requires forall i, j | 0 <= i < j < |order| :: order[i] != order[j]
    requires AllPinged(p, order) && id in order && !p.shutting
    requires p.pings[id].first.1.None? && p.pings[id].second.1.None? && p.start.inner[id].heartbeatFailures <= U32_MAX
    ensures var peer, ping := p.start.inner[id], p.pings[id];
      var ok := ping.answered && id in p.start.pool;
      var dead := peer.lastSync.Some? && peer.lastSync.value + 30_000_000_000 < p.roundStart
        && (peer.lastHeartbeat.None? || peer.lastHeartbeat.value + 15_000_000_000 < p.roundStart);
      var client := if id in p.start.banned then EntryOf(p.start, id).client
        else if dead then Some(ping.second.0)
        else if !ok && 3 <= peer.heartbeatFailures + 1 then Some(ping.first.0) else EntryOf(p.start, id).client;
      EntryOf(InTurn(p, order), id).client == client
  {
    var peer, ping := p.start.inner[id], p.pings[id];
    OneByOne(p, order, id);
    RestOfPing(p, id, p.start);
    PingWrites(p.env, p.me, p.start, false, id, ping.answered && id in p.start.pool, ping.at, peer.lastSync, peer.lastHeartbeat,
               p.roundStart, ping.first.0, ping.second.0);
    assert ping.first == (ping.first.0, None) && ping.second == (ping.second.0, None);
  }
}
