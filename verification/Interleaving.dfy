/** The peer registry and the client pool at lock grain: every critical section is one step,
    and any number of threads interleave between steps. Only membership is modelled. */
module Interleaving {
  type Id = string

  datatype Shared = Shared(inner: set<Id>, approved: set<Id>, banned: set<Id>, pool: set<Id>)

  /** The critical section a thread enters next, named after the operation it belongs to. */
  datatype Pc =
    // approve
    | ApproveTrust(id: Id) | ApproveInner(id: Id)
    // ban
    | BanTrust(id: Id) | BanInner(id: Id) | BanPool(id: Id)
    // remove
    | RemoveInner(id: Id) | RemoveApproved(id: Id) | RemoveBanned(id: Id) | RemovePool(id: Id)
    // clear
    | ClearInner | ClearApproved | ClearBanned
    // a handshake from either side, once the peer has answered; a stub dial also checks that the peer is new
    | DialBanned(id: Id) | StubBanned(id: Id) | StubKnown(id: Id) | InsertPool(id: Id) | InsertInner(id: Id)
    // force_rebuild_connection up to the re-dial
    | RebuildKnown(id: Id) | RebuildBanned(id: Id) | Replace(id: Id)
    | RecheckKnown(id: Id) | RecheckBanned(id: Id) | Cleanup(id: Id)
    | Done

  function Memory(m: Shared, pc: Pc): Shared {
    match pc
    case ApproveTrust(id) => m.(approved := m.approved + {id}, banned := m.banned - {id})
    case BanTrust(id) => m.(approved := m.approved - {id}, banned := m.banned + {id})
    case BanInner(id) => m.(inner := m.inner - {id})
    case BanPool(id) => m.(pool := m.pool - {id})
    case RemoveInner(id) => m.(inner := m.inner - {id})
    case RemoveApproved(id) => m.(approved := m.approved - {id})
    case RemoveBanned(id) => m.(banned := m.banned - {id})
    case RemovePool(id) => m.(pool := m.pool - {id})
    case ClearInner => m.(inner := {})
    case ClearApproved => m.(approved := {})
    case ClearBanned => m.(banned := {})
    case InsertPool(id) => m.(pool := m.pool + {id})
    case InsertInner(id) => m.(inner := m.inner + {id})
    case Replace(id) => m.(pool := m.pool + {id})
    case Cleanup(id) => m.(pool := m.pool - {id})
    case _ => m
  }

  function Next(m: Shared, pc: Pc): Pc {
    match pc
    case ApproveTrust(id) => ApproveInner(id)
    case BanTrust(id) => BanInner(id)
    case BanInner(id) => if id in m.inner then BanPool(id) else Done
    case RemoveInner(id) => RemoveApproved(id)
    case RemoveApproved(id) => RemoveBanned(id)
    case RemoveBanned(id) => RemovePool(id)
    case ClearInner => ClearApproved
    case ClearApproved => ClearBanned
    case DialBanned(id) => if id in m.banned then Done else InsertPool(id)
    case StubBanned(id) => if id in m.banned then Done else StubKnown(id)
    case StubKnown(id) => if id in m.inner then Done else InsertPool(id)
    case InsertPool(id) => InsertInner(id)
    case InsertInner(id) => ApproveTrust(id)
    case RebuildKnown(id) => if id in m.inner then RebuildBanned(id) else Done
    case RebuildBanned(id) => if id in m.banned then Done else Replace(id)
    case Replace(id) => RecheckKnown(id)
    case RecheckKnown(id) => if id in m.inner then RecheckBanned(id) else Cleanup(id)
    case RecheckBanned(id) => if id in m.banned then Cleanup(id) else Done
    case _ => Done
  }

  datatype Config = Config(memory: Shared, threads: seq<Pc>)

  function Step(c: Config, i: nat): (c': Config)
    requires i < |c.threads|
    ensures |c'.threads| == |c.threads|
  {
    Config(Memory(c.memory, c.threads[i]), c.threads[i := Next(c.memory, c.threads[i])])
  }

  predicate Schedules(schedule: seq<nat>, threads: nat) { forall k | 0 <= k < |schedule| :: schedule[k] < threads }

  /** The configuration a schedule leads to; it names the threads that move, one after the other. */
  function Run(c: Config, schedule: seq<nat>): (c': Config)
    requires Schedules(schedule, |c.threads|)
    ensures |c'.threads| == |c.threads|
    decreases |schedule|
  {
    if schedule == [] then c else Run(Step(c, schedule[0]), schedule[1..])
  }

  // ---------------------------------------------------------------------------
  // Trust exclusion
  // ---------------------------------------------------------------------------

  /** In every interleaving of any operations, also between their sections, nobody is approved and banned. */
  lemma {:induction false} ApprovedAndBannedStayDisjoint(c: Config, schedule: seq<nat>)
    requires c.memory.approved !! c.memory.banned && Schedules(schedule, |c.threads|)
    ensures Run(c, schedule).memory.approved !! Run(c, schedule).memory.banned
    decreases |schedule|
  {
    if schedule != [] {
      ApprovedAndBannedStayDisjoint(Step(c, schedule[0]), schedule[1..]);
    }
  }

  // ---------------------------------------------------------------------------
  // Rebuilds leave no orphan clients
  // ---------------------------------------------------------------------------

  /** The steps of rebuilds, bans and removes. */
  predicate Rebuilding(pc: Pc) {
    || pc.BanTrust? || pc.BanInner? || pc.BanPool?
    || pc.RemoveInner? || pc.RemoveApproved? || pc.RemoveBanned? || pc.RemovePool?
    || pc.RebuildKnown? || pc.RebuildBanned? || pc.Replace? || pc.RecheckKnown? || pc.RecheckBanned? || pc.Cleanup?
    || pc.Done?
  }

  /** The thread will remove `id` from the pool, or will find out that it has to. */
  predicate WillDrop(pc: Pc, id: Id) {
    (pc.BanPool? || pc.RemoveApproved? || pc.RemoveBanned? || pc.RemovePool? || pc.RecheckKnown? || pc.Cleanup?) && pc.id == id
  }

  ghost predicate Accounted(c: Config, id: Id) {
    var m := c.memory;
    // a client without a peer has somebody who will drop it
    && (id in m.pool && id !in m.inner ==> exists i :: 0 <= i < |c.threads| && WillDrop(c.threads[i], id))
    // a peer that is banned, without client, or about to lose it is about to be removed by a ban
    && ((id in m.inner && (id in m.banned || id !in m.pool || Cleanup(id) in c.threads)) ==> BanInner(id) in c.threads)
    // whoever has removed a peer leaves it removed
    && (id in m.inner ==>
          && BanPool(id) !in c.threads && RemoveApproved(id) !in c.threads
          && RemoveBanned(id) !in c.threads && RemovePool(id) !in c.threads)
  }

  ghost predicate Inv(c: Config) {
    && (forall i | 0 <= i < |c.threads| :: Rebuilding(c.threads[i]))
    && forall id :: Accounted(c, id)
  }

  lemma Replaced(threads: seq<Pc>, i: nat, other: Pc)
    requires i < |threads|
    ensures forall pc | pc in threads[i := other] :: pc == other || pc in threads
    ensures forall pc | pc in threads && pc != threads[i] :: pc in threads[i := other]
    ensures other in threads[i := other] && threads[i] in threads
  {
    forall pc | pc in threads && pc != threads[i] ensures pc in threads[i := other] {
      var j :| 0 <= j < |threads| && threads[j] == pc;
      assert threads[i := other][j] == pc;
    }
    assert threads[i := other][i] == other;
  }

  lemma StepAccounts(c: Config, i: nat, id: Id)
    requires i < |c.threads| && Rebuilding(c.threads[i]) && Accounted(c, id)
    ensures Accounted(Step(c, i), id)
  {
    var c', pc := Step(c, i), c.threads[i];
    Replaced(c.threads, i, Next(c.memory, pc));
    assert c'.threads[i] == Next(c.memory, pc);
    if id in c'.memory.pool && id !in c'.memory.inner && !WillDrop(c'.threads[i], id) {
      var j :| 0 <= j < |c.threads| && WillDrop(c.threads[j], id);
      assert c'.threads[j] == if j == i then Next(c.memory, pc) else c.threads[j];
      assert WillDrop(c'.threads[j], id);
    }
  }

  lemma {:induction false} RunAccounts(c: Config, schedule: seq<nat>)
    requires Inv(c) && Schedules(schedule, |c.threads|)
    ensures Inv(Run(c, schedule))
    decreases |schedule|
  {
    if schedule != [] {
      var i := schedule[0];
      forall id ensures Accounted(Step(c, i), id) {
        StepAccounts(c, i, id);
      }
      RunAccounts(Step(c, i), schedule[1..]);
    }
  }

  /** Any number of rebuilds, bans and removes of any peers, in every interleaving, starting from a pool that
      fits the registry and from no banned member: once all have finished, the pool fits the registry. */
  lemma RebuildLeavesNoOrphan(m: Shared, threads: seq<Pc>, schedule: seq<nat>)
    requires m.pool == m.inner && m.banned !! m.inner
    requires forall i | 0 <= i < |threads| :: threads[i].RebuildKnown? || threads[i].BanTrust? || threads[i].RemoveInner?
    requires Schedules(schedule, |threads|)
    requires forall i | 0 <= i < |threads| :: Run(Config(m, threads), schedule).threads[i] == Done
    ensures Run(Config(m, threads), schedule).memory.pool == Run(Config(m, threads), schedule).memory.inner
  {
    var c := Run(Config(m, threads), schedule);
    RunAccounts(Config(m, threads), schedule);
    forall id ensures id in c.memory.pool <==> id in c.memory.inner {
      assert Accounted(c, id);
    }
  }

  // ---------------------------------------------------------------------------
  // What the assumptions exclude
  // ---------------------------------------------------------------------------

  /** A handshake that has passed its ban check undoes a ban made meanwhile: bans are safe only between
      whole operations. */
  lemma HandshakeOvertakesBan(id: Id)
    ensures var c := Config(Shared({}, {}, {}, {}), [DialBanned(id), BanTrust(id)]);
      var end := Run(c, [0, 1, 1, 0, 0, 0, 0]);
      end.threads == [Done, Done] && end.memory == Shared({id}, {id}, {}, {id})
  {
    var c := Config(Shared({}, {}, {}, {}), [DialBanned(id), BanTrust(id)]);
    var banned := Config(Shared({}, {}, {id}, {}), [InsertPool(id), Done]);
    var end := Config(Shared({id}, {id}, {}, {id}), [Done, Done]);
    assert Step(Step(Step(c, 0), 1), 1) == banned;
    assert Step(Step(Step(Step(banned, 0), 0), 0), 0) == end;
    RunThree(c, 0, 1, 1, [0, 0, 0, 0]);
    RunThree(banned, 0, 0, 0, [0]);
    assert [0][1..] == [];
  }

  /** A handshake and a remove of the same peer can leave the peer without a client. */
  lemma HandshakeOvertakesRemove(id: Id)
    ensures var c := Config(Shared({}, {}, {}, {}), [DialBanned(id), RemoveInner(id)]);
      var end := Run(c, [0, 0, 1, 1, 1, 1, 0, 0, 0]);
      end.threads == [Done, Done] && end.memory == Shared({id}, {id}, {}, {})
  {
    var c := Config(Shared({}, {}, {}, {}), [DialBanned(id), RemoveInner(id)]);
    var removing := Config(Shared({}, {}, {}, {id}), [InsertInner(id), RemoveApproved(id)]);
    assert Step(Step(Step(c, 0), 0), 1) == removing;
    RunThree(c, 0, 0, 1, [1, 1, 1, 0, 0, 0]);
    RemoveThenInsert(id);
  }

  lemma RemoveThenInsert(id: Id)
    ensures Run(Config(Shared({}, {}, {}, {id}), [InsertInner(id), RemoveApproved(id)]), [1, 1, 1, 0, 0, 0])
      == Config(Shared({id}, {id}, {}, {}), [Done, Done])
  {
    var removing := Config(Shared({}, {}, {}, {id}), [InsertInner(id), RemoveApproved(id)]);
    var removed := Config(Shared({}, {}, {}, {}), [InsertInner(id), Done]);
    assert Step(Step(Step(removing, 1), 1), 1) == removed;
    RunThree(removing, 1, 1, 1, [0, 0, 0]);
    assert Step(Step(Step(removed, 0), 0), 0) == Config(Shared({id}, {id}, {}, {}), [Done, Done]);
    RunThree(removed, 0, 0, 0, []);
  }

  lemma RunOne(c: Config, a: nat, rest: seq<nat>)
    requires a < |c.threads| && Schedules(rest, |c.threads|)
    ensures Schedules([a] + rest, |c.threads|) && Run(c, [a] + rest) == Run(Step(c, a), rest)
  {
    assert ([a] + rest)[1..] == rest;
  }

  lemma RunThree(c: Config, a: nat, b: nat, d: nat, rest: seq<nat>)
    requires Schedules(rest, |c.threads|) && a < |c.threads| && b < |c.threads| && d < |c.threads|
    ensures Schedules([a, b, d] + rest, |c.threads|)
    ensures Run(c, [a, b, d] + rest) == Run(Step(Step(Step(c, a), b), d), rest)
  {
    RunOne(Step(Step(c, a), b), d, rest);
    RunOne(Step(c, a), b, [d] + rest);
    RunOne(c, a, [b] + ([d] + rest));
    assert [a, b, d] + rest == [a] + ([b] + ([d] + rest));
  }
}
