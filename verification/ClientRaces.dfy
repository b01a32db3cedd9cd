/** Clients under concurrency: exactly which operations on a peer can, by their timing alone, leave it registered
    without a client. */
module ClientRaces {
  import opened Interleaving

  /** The thread is about to shake hands with the peer. */
  predicate Handshake(pc: Pc, id: Id) { pc == DialBanned(id) || pc == StubBanned(id) }

  /** The thread is about to do something that lifts bans of the peer. */
  predicate Pardons(pc: Pc, id: Id) { pc == ApproveTrust(id) || pc == ClearInner }

  predicate Starting(pc: Pc) {
    || pc.DialBanned? || pc.StubBanned? || pc.RemoveInner? || pc.BanTrust? || pc.RebuildKnown? || pc.ClearInner? || pc.ApproveTrust?
  }

  /** Every thread is about to start one of the operations, on any peer. */
  predicate AllStarting(threads: seq<Pc>) { forall i | 0 <= i < |threads| :: Starting(threads[i]) }

  predicate Lost(m: Shared, id: Id) { id in m.inner && id !in m.pool }

  predicate AllDone(c: Config) { forall i | 0 <= i < |c.threads| :: c.threads[i] == Done }

  /** The schedule finishes every thread and leaves the peer without its client. */
  ghost predicate Loses(c: Config, id: Id, schedule: seq<nat>) {
    Schedules(schedule, |c.threads|) && AllDone(Run(c, schedule)) && Lost(Run(c, schedule).memory, id)
  }

  predicate SomeHandshake(threads: seq<Pc>, id: Id) { exists h :: 0 <= h < |threads| && Handshake(threads[h], id) }

  predicate TwoHandshakes(threads: seq<Pc>, id: Id) {
    exists g, h :: 0 <= g < h < |threads| && Handshake(threads[g], id) && Handshake(threads[h], id)
  }

  /** A ban, or a rebuild and a clear: what can take the client of a peer it has found registered. */
  predicate Droppers(threads: seq<Pc>, id: Id) {
    BanTrust(id) in threads || (RebuildKnown(id) in threads && ClearInner in threads)
  }

  /** Something lifts the ban of the peer, and others can take its client then. */
  predicate DroppersAfterPardon(threads: seq<Pc>, id: Id) {
    exists p :: 0 <= p < |threads| && Pardons(threads[p], id) && Droppers(threads[p := Done], id)
  }

  /** A handshake against a remove; or against droppers that find the peer registered, be it from the start or by a
      second handshake, for which a banned peer must be pardoned first. */
  predicate Losable(c: Config, id: Id) {
    || (SomeHandshake(c.threads, id) && RemoveInner(id) in c.threads)
    || (id in c.memory.inner && SomeHandshake(c.threads, id) && Droppers(c.threads, id))
    || (TwoHandshakes(c.threads, id)
        && if id in c.memory.banned then DroppersAfterPardon(c.threads, id) else Droppers(c.threads, id))
  }

  // ---------------------------------------------------------------------------
  // Otherwise it cannot be lost
  // ---------------------------------------------------------------------------

  /** In or past its ban check, before its insertion into the registry. */
  predicate Inserting(pc: Pc, id: Id) { Handshake(pc, id) || Admitting(pc, id) }

  predicate Admitting(pc: Pc, id: Id) { pc == StubKnown(id) || pc == InsertPool(id) || pc == InsertInner(id) }

  predicate Removing(pc: Pc, id: Id) {
    (pc.RemoveInner? || pc.RemoveApproved? || pc.RemoveBanned? || pc.RemovePool?) && pc.id == id
  }

  predicate Banning(pc: Pc, id: Id) { (pc.BanTrust? || pc.BanInner? || pc.BanPool?) && pc.id == id }

  predicate Clearing(pc: Pc) { pc.ClearInner? || pc.ClearApproved? || pc.ClearBanned? }

  predicate Approving(pc: Pc, id: Id) { pc == ApproveTrust(id) || pc == ApproveInner(id) }

  /** The rebuild has found the peer registered and not banned, and goes on to look again. */
  predicate Replacing(pc: Pc, id: Id) { pc == Replace(id) || pc == RecheckKnown(id) || pc == RecheckBanned(id) }

  /** The rebuild has found the peer registered. */
  predicate Entered(pc: Pc, id: Id) { pc == RebuildBanned(id) || Replacing(pc, id) || pc == Cleanup(id) }

  /** The thread is going to take the client of a peer it has unregistered. */
  predicate Dropping(pc: Pc, id: Id) { pc == BanPool(id) || (Removing(pc, id) && !pc.RemoveInner?) }

  /** Nobody inserts the peer any more. If it is registered, nobody has unregistered it, and its client is lost or
      about to be taken only when a ban is going to unregister it. */
  ghost predicate NoneInserts(c: Config, id: Id) {
    && (forall i | 0 <= i < |c.threads| :: !Inserting(c.threads[i], id))
    && (id in c.memory.inner ==>
          && (forall i | 0 <= i < |c.threads| :: !Dropping(c.threads[i], id))
          && (BanInner(id) !in c.threads ==>
                && id in c.memory.pool && Cleanup(id) !in c.threads
                && (id in c.memory.banned ==> forall i | 0 <= i < |c.threads| :: !Replacing(c.threads[i], id))))
  }

  /** Thread `h` is the only one that may insert the peer, and until it has, nobody finds the peer. */
  ghost predicate OneInserts(c: Config, id: Id, h: nat) {
    && h < |c.threads| && Inserting(c.threads[h], id) && id !in c.memory.inner
    && (c.threads[h] == InsertInner(id) ==> id in c.memory.pool)
    && forall i | 0 <= i < |c.threads| :: !Removing(c.threads[i], id) && c.threads[i] != BanPool(id) && !Entered(c.threads[i], id)
         && (i != h ==> !Inserting(c.threads[i], id))
  }

  /** The peer is banned, nobody pardons it, and no handshake has passed its check. */
  ghost predicate BannedOut(c: Config, id: Id) {
    && id in c.memory.banned && id !in c.memory.inner
    && forall i | 0 <= i < |c.threads| :: !Removing(c.threads[i], id) && !Approving(c.threads[i], id) && !Admitting(c.threads[i], id)
         && !Clearing(c.threads[i])
  }

  /** Nobody takes a client of the peer. */
  ghost predicate NoneDrops(c: Config, id: Id) {
    && (id in c.memory.inner || InsertInner(id) in c.threads ==> id in c.memory.pool)
    && forall i | 0 <= i < |c.threads| :: !Removing(c.threads[i], id) && !Banning(c.threads[i], id)
         && c.threads[i] != RebuildKnown(id) && !Entered(c.threads[i], id)
  }

  /** Once registered or about to be, the peer stays so, unbanned; so a rebuild that has found it finds it again. */
  ghost predicate StaysIn(c: Config, id: Id) {
    && (id in c.memory.inner || InsertInner(id) in c.threads ==> id in c.memory.pool)
    && (id in c.memory.inner ==> id !in c.memory.banned)
    && forall i | 0 <= i < |c.threads| :: !Removing(c.threads[i], id) && !Banning(c.threads[i], id) && !Clearing(c.threads[i])
         && c.threads[i] != Cleanup(id) && (Entered(c.threads[i], id) ==> id in c.memory.inner)
         && (Admitting(c.threads[i], id) ==> id !in c.memory.banned)
  }

  /** The peer is banned until the only clear there is, in thread `k`, comes to its end. */
  ghost predicate OneClears(c: Config, id: Id, k: nat) {
    && k < |c.threads| && Clearing(c.threads[k]) && id in c.memory.banned && id !in c.memory.inner
    && forall i | 0 <= i < |c.threads| :: !Removing(c.threads[i], id) && !Banning(c.threads[i], id) && !Approving(c.threads[i], id)
         && !Admitting(c.threads[i], id) && !Entered(c.threads[i], id) && (i != k ==> !Clearing(c.threads[i]))
  }

  ghost predicate Safe(c: Config, id: Id) {
    || NoneInserts(c, id) || BannedOut(c, id) || NoneDrops(c, id) || StaysIn(c, id)
    || (exists h :: OneInserts(c, id, h)) || exists k :: OneClears(c, id, k)
  }

  lemma NoneInsertsStep(c: Config, id: Id, i: nat)
    requires i < |c.threads| && NoneInserts(c, id)
    ensures NoneInserts(Step(c, i), id)
  {
    Replaced(c.threads, i, Next(c.memory, c.threads[i]));
  }

  lemma OnlyHandshakeStep(c: Config, id: Id, h: nat)
    requires h < |c.threads| && OneInserts(c, id, h)
    ensures OneInserts(Step(c, h), id, h) || NoneInserts(Step(c, h), id)
  {
    Replaced(c.threads, h, Next(c.memory, c.threads[h]));
  }

  lemma OneInsertsStep(c: Config, id: Id, i: nat, h: nat)
    requires i < |c.threads| && OneInserts(c, id, h) && i != h
    ensures OneInserts(Step(c, i), id, h)
  {
    assert Step(c, i).threads[h] == c.threads[h];
  }

  lemma BannedOutStep(c: Config, id: Id, i: nat)
    requires i < |c.threads| && BannedOut(c, id)
    ensures BannedOut(Step(c, i), id)
  {
  }

  lemma NoneDropsStep(c: Config, id: Id, i: nat)
    requires i < |c.threads| && NoneDrops(c, id)
    ensures NoneDrops(Step(c, i), id)
  {
    Replaced(c.threads, i, Next(c.memory, c.threads[i]));
  }

  lemma StaysInStep(c: Config, id: Id, i: nat)
    requires i < |c.threads| && StaysIn(c, id)
    ensures StaysIn(Step(c, i), id)
  {
    Replaced(c.threads, i, Next(c.memory, c.threads[i]));
  }

  lemma OneClearsStep(c: Config, id: Id, i: nat, k: nat)
    requires i < |c.threads| && OneClears(c, id, k)
    ensures OneClears(Step(c, i), id, k) || StaysIn(Step(c, i), id)
  {
    Replaced(c.threads, i, Next(c.memory, c.threads[i]));
  }

  lemma SafeStep(c: Config, id: Id, i: nat)
    requires i < |c.threads| && Safe(c, id)
    ensures Safe(Step(c, i), id)
  {
    if NoneInserts(c, id) {
      NoneInsertsStep(c, id, i);
    } else if BannedOut(c, id) {
      BannedOutStep(c, id, i);
    } else if NoneDrops(c, id) {
      NoneDropsStep(c, id, i);
    } else if StaysIn(c, id) {
      StaysInStep(c, id, i);
    } else if h :| OneInserts(c, id, h) {
      if i == h {
        OnlyHandshakeStep(c, id, h);
      } else {
        OneInsertsStep(c, id, i, h);
      }
    } else {
      var k :| OneClears(c, id, k);
      OneClearsStep(c, id, i, k);
    }
  }

  predicate HasClient(m: Shared, id: Id) { id in m.inner ==> id in m.pool }

  predicate NoRebuilds(threads: seq<Pc>, id: Id) {
    forall i | 0 <= i < |threads| :: threads[i] != RebuildKnown(id) && !Entered(threads[i], id)
  }

  lemma SafeKeepsClient(c: Config, id: Id, i: nat)
    requires i < |c.threads| && Safe(c, id) && HasClient(c.memory, id) && NoRebuilds(c.threads, id)
    ensures HasClient(Step(c, i).memory, id) && NoRebuilds(Step(c, i).threads, id)
  {
  }

  /** At no point of any schedule is the peer registered without its client, except just before a ban unregisters
      it; and that takes a rebuild too, which has found the peer banned. */
  lemma {:induction false} StaysSafe(c: Config, id: Id, schedule: seq<nat>)
    requires Safe(c, id) && Schedules(schedule, |c.threads|)
    ensures Lost(Run(c, schedule).memory, id) ==> BanInner(id) in Run(c, schedule).threads
    ensures HasClient(c.memory, id) && NoRebuilds(c.threads, id) ==> !Lost(Run(c, schedule).memory, id)
    decreases |schedule|
  {
    if schedule != [] {
      SafeStep(c, id, schedule[0]);
      if HasClient(c.memory, id) && NoRebuilds(c.threads, id) {
        SafeKeepsClient(c, id, schedule[0]);
      }
      StaysSafe(Step(c, schedule[0]), id, schedule[1..]);
    }
  }

  lemma UnlosableIsSafe(c: Config, id: Id)
    requires AllStarting(c.threads) && (id in c.memory.pool <==> id in c.memory.inner)
    requires !(id in c.memory.inner && id in c.memory.banned) && !Losable(c, id)
    ensures Safe(c, id)
  {
    if h: nat :| h < |c.threads| && Handshake(c.threads[h], id) {
      if id !in c.memory.inner && !TwoHandshakes(c.threads, id) {
        assert OneInserts(c, id, h);
      } else if id in c.memory.banned {
        UnpardonedIsSafe(c, id);
      } else {
        WithoutDroppersIsSafe(c, id);
      }
    } else {
      assert NoneInserts(c, id);
    }
  }

  lemma WithoutDroppersIsSafe(c: Config, id: Id)
    requires AllStarting(c.threads) && (id in c.memory.inner ==> id in c.memory.pool && id !in c.memory.banned)
    requires RemoveInner(id) !in c.threads && !Droppers(c.threads, id)
    ensures NoneDrops(c, id) || StaysIn(c, id)
  {
    if RebuildKnown(id) in c.threads {
      assert StaysIn(c, id);
    } else {
      assert NoneDrops(c, id);
    }
  }

  /** Next to a thread that pardons the peer there is no ban, and no clear if there is a rebuild. */
  lemma NoDroppersBeside(threads: seq<Pc>, id: Id, p: nat)
    requires p < |threads| && Pardons(threads[p], id) && !DroppersAfterPardon(threads, id)
    ensures BanTrust(id) !in threads
    ensures RebuildKnown(id) in threads ==> forall k | 0 <= k < |threads| && k != p :: threads[k] != ClearInner
  {
    Replaced(threads, p, Done);
    var others := threads[p := Done];
    assert !Droppers(others, id);
    assert BanTrust(id) !in others;
    if RebuildKnown(id) in threads {
      assert RebuildKnown(id) in others;
      forall k | 0 <= k < |threads| && k != p ensures threads[k] != ClearInner {
        assert others[k] == threads[k];
      }
    }
  }

  lemma UnpardonedIsSafe(c: Config, id: Id)
    requires AllStarting(c.threads) && id !in c.memory.pool && id !in c.memory.inner && id in c.memory.banned
    requires RemoveInner(id) !in c.threads && !DroppersAfterPardon(c.threads, id)
    ensures Safe(c, id)
  {
    if p: nat :| p < |c.threads| && Pardons(c.threads[p], id) {
      NoDroppersBeside(c.threads, id, p);
      if !Droppers(c.threads, id) {
        WithoutDroppersIsSafe(c, id);
      } else {
        var k: nat :| k < |c.threads| && c.threads[k] == ClearInner;
        OnlyClearPardons(c, id, k);
      }
    } else {
      assert BannedOut(c, id);
    }
  }

  /** Besides a rebuild, one clear is safe if nothing else pardons the peer. */
  lemma OnlyClearPardons(c: Config, id: Id, k: nat)
    requires AllStarting(c.threads) && id !in c.memory.inner && id in c.memory.banned && RemoveInner(id) !in c.threads
    requires !DroppersAfterPardon(c.threads, id) && k < |c.threads| && c.threads[k] == ClearInner && RebuildKnown(id) in c.threads
    ensures OneClears(c, id, k)
  {
    NoDroppersBeside(c.threads, id, k);
    forall i: nat | i < |c.threads| && i != k ensures !Pardons(c.threads[i], id) {
      if Pardons(c.threads[i], id) {
        NoDroppersBeside(c.threads, id, i);
      }
    }
  }

  // ---------------------------------------------------------------------------
  // Reachability
  // ---------------------------------------------------------------------------

  ghost predicate Reaches(c: Config, c': Config) {
    exists schedule :: Schedules(schedule, |c.threads|) && Run(c, schedule) == c'
  }

  lemma {:induction false} RunConcat(c: Config, a: seq<nat>, b: seq<nat>)
    requires Schedules(a, |c.threads|) && Schedules(b, |c.threads|)
    ensures Schedules(a + b, |c.threads|) && Run(c, a + b) == Run(Run(c, a), b)
    decreases |a|
  {
    if a == [] {
      assert a + b == b;
    } else {
      RunConcat(Step(c, a[0]), a[1..], b);
      assert a + b == [a[0]] + (a[1..] + b);
      RunOne(c, a[0], a[1..] + b);
    }
  }

  lemma Then(c: Config, c1: Config, c2: Config)
    requires Reaches(c, c1) && Reaches(c1, c2)
    ensures Reaches(c, c2)
  {
    var a :| Schedules(a, |c.threads|) && Run(c, a) == c1;
    var b :| Schedules(b, |c1.threads|) && Run(c1, b) == c2;
    RunConcat(c, a, b);
  }

  lemma ThenStep(c: Config, c1: Config, i: nat)
    requires Reaches(c, c1) && i < |c1.threads|
    ensures Reaches(c, Step(c1, i))
  {
    RunOne(c1, i, []);
    assert Run(c1, [i] + []) == Step(c1, i);
    Then(c, c1, Step(c1, i));
  }

  lemma Here(c: Config)
    ensures Reaches(c, c)
  {
    assert Run(c, []) == c;
  }

  // ---------------------------------------------------------------------------
  // Running the bystanders to their end
  // ---------------------------------------------------------------------------

  /** A bound on the steps the thread has left. */
  function Left(pc: Pc): nat {
    match pc
    case StubBanned(_) => 6
    case RebuildKnown(_) => 6
    case DialBanned(_) => 5
    case StubKnown(_) => 5
    case RebuildBanned(_) => 5
    case InsertPool(_) => 4
    case RemoveInner(_) => 4
    case Replace(_) => 4
    case InsertInner(_) => 3
    case BanTrust(_) => 3
    case RemoveApproved(_) => 3
    case ClearInner => 3
    case RecheckKnown(_) => 3
    case ApproveTrust(_) => 2
    case BanInner(_) => 2
    case RemoveBanned(_) => 2
    case ClearApproved => 2
    case RecheckBanned(_) => 2
    case Done => 0
    case _ => 1
  }

  function TotalLeft(threads: seq<Pc>): nat {
    if threads == [] then 0 else TotalLeft(threads[..|threads| - 1]) + Left(threads[|threads| - 1])
  }

  lemma {:induction false} StepUsesUp(threads: seq<Pc>, i: nat, pc: Pc)
    requires i < |threads| && Left(pc) < Left(threads[i])
    ensures TotalLeft(threads[i := pc]) < TotalLeft(threads)
  {
    var init, threads' := threads[..|threads| - 1], threads[i := pc];
    if i < |init| {
      StepUsesUp(init, i, pc);
      assert threads'[..|threads'| - 1] == init[i := pc];
    } else {
      assert threads'[..|threads'| - 1] == init;
    }
  }

  lemma StepLeavesLess(c: Config, i: nat)
    requires i < |c.threads| && c.threads[i] != Done
    ensures TotalLeft(Step(c, i).threads) < TotalLeft(c.threads)
  {
    StepUsesUp(c.threads, i, Next(c.memory, c.threads[i]));
  }

  /** All threads but those of `keep` run to their end, which does not move those. */
  lemma {:induction false} Drain(c: Config, keep: set<nat>) returns (c': Config)
    ensures Reaches(c, c') && |c'.threads| == |c.threads|
    ensures forall i: nat | i < |c.threads| :: c'.threads[i] == if i in keep then c.threads[i] else Done
    decreases TotalLeft(c.threads)
  {
    if i: nat :| i < |c.threads| && i !in keep && c.threads[i] != Done {
      var c1 := Step(c, i);
      StepLeavesLess(c, i);
      c' := Drain(c1, keep);
      Here(c);
      ThenStep(c, c, i);
      Then(c, c1, c');
    } else {
      c' := c;
      Here(c);
    }
  }

  // ---------------------------------------------------------------------------
  // The races
  // ---------------------------------------------------------------------------

  ghost predicate CanLose(c: Config, id: Id) { exists c' :: Reaches(c, c') && AllDone(c') && Lost(c'.memory, id) }

  lemma Later(c: Config, c1: Config, id: Id)
    requires Reaches(c, c1) && CanLose(c1, id)
    ensures CanLose(c, id)
  {
    var c' :| Reaches(c1, c') && AllDone(c') && Lost(c'.memory, id);
    Then(c, c1, c');
  }

  lemma After(c: Config, i: nat, id: Id)
    requires i < |c.threads| && CanLose(Step(c, i), id)
    ensures CanLose(c, id)
  {
    Here(c);
    ThenStep(c, c, i);
    Later(c, Step(c, i), id);
  }

  /** With all others finished and the client already gone, the insertion alone loses it. */
  lemma InsertsLast(c: Config, id: Id, h: nat)
    requires h < |c.threads| && c.threads[h] == InsertInner(id) && id !in c.memory.pool
    requires forall i | 0 <= i < |c.threads| && i != h :: c.threads[i] == Done
    ensures CanLose(c, id)
  {
    var c1 := Step(c, h);
    var c2 := Step(c1, h);
    var c3 := Step(c2, h);
    Here(c3);
    assert AllDone(c3) && Lost(c3.memory, id);
    After(c2, h, id);
    After(c1, h, id);
    After(c, h, id);
  }

  predicate AboutToDrop(pc: Pc, id: Id) { pc == BanPool(id) || pc == RemovePool(id) || pc == Cleanup(id) }

  /** A handshake about to insert a client, and somebody about to take it: all others finish, then it is inserted,
      taken, and its peer registered. */
  lemma ClientTaken(c: Config, id: Id, h: nat, t: nat)
    requires h < |c.threads| && t < |c.threads| && c.threads[h] == InsertPool(id) && AboutToDrop(c.threads[t], id)
    ensures CanLose(c, id)
  {
    var c1 := Drain(c, {h, t});
    var c2 := Step(c1, h);
    InsertsLast(Step(c2, t), id, h);
    After(c2, t, id);
    After(c1, h, id);
    Later(c, c1, id);
  }

  lemma PassesKnown(c: Config, id: Id, h: nat, t: nat)
    requires h < |c.threads| && t < |c.threads| && id !in c.memory.inner
    requires (c.threads[h] == InsertPool(id) || c.threads[h] == StubKnown(id)) && AboutToDrop(c.threads[t], id)
    ensures CanLose(c, id)
  {
    if c.threads[h] == StubKnown(id) {
      ClientTaken(Step(c, h), id, h, t);
      After(c, h, id);
    } else {
      ClientTaken(c, id, h, t);
    }
  }

  /** A remove lifts any ban and any membership, so a handshake can follow it up to the last step. */
  lemma RemoveRace(c: Config, id: Id, h: nat, r: nat)
    requires h < |c.threads| && r < |c.threads| && Handshake(c.threads[h], id) && c.threads[r] == RemoveInner(id)
    ensures CanLose(c, id)
  {
    var c1 := Step(c, r);
    var c2 := Step(c1, r);
    var c3 := Step(c2, r);
    PassesKnown(Step(c3, h), id, h, r);
    After(c3, h, id);
    After(c2, r, id);
    After(c1, r, id);
    After(c, r, id);
  }

  /** A handshake past its ban check, and a ban that finds the peer registered. */
  lemma BanRace(c: Config, id: Id, h: nat, b: nat)
    requires h < |c.threads| && b < |c.threads| && id in c.memory.inner
    requires (c.threads[h] == InsertPool(id) || c.threads[h] == StubKnown(id)) && c.threads[b] == BanTrust(id)
    ensures CanLose(c, id)
  {
    var c1 := Step(c, b);
    PassesKnown(Step(c1, b), id, h, b);
    After(c1, b, id);
    After(c, b, id);
  }

  /** The rebuild has missed the peer, and is going to clean up after itself. */
  lemma MissedRace(c: Config, id: Id, h: nat, r: nat)
    requires h < |c.threads| && r < |c.threads| && id !in c.memory.inner
    requires (c.threads[h] == InsertPool(id) || c.threads[h] == StubKnown(id)) && c.threads[r] == RecheckKnown(id)
    ensures CanLose(c, id)
  {
    PassesKnown(Step(c, r), id, h, r);
    After(c, r, id);
  }

  /** A handshake past its ban check, and a rebuild that finds the peer registered before a clear and not after it. */
  lemma RebuildRace(c: Config, id: Id, h: nat, r: nat, k: nat)
    requires h < |c.threads| && r < |c.threads| && k < |c.threads| && id in c.memory.inner && id !in c.memory.banned
    requires c.threads[h] == InsertPool(id) || c.threads[h] == StubKnown(id)
    requires c.threads[r] == RebuildKnown(id) && c.threads[k] == ClearInner
    ensures CanLose(c, id)
  {
    var c1 := Step(c, r);
    var c2 := Step(c1, r);
    var c3 := Step(c2, r);
    MissedRace(Step(c3, k), id, h, r);
    After(c3, k, id);
    After(c2, r, id);
    After(c1, r, id);
    After(c, r, id);
  }

  lemma MemberRace(c: Config, id: Id, h: nat)
    requires h < |c.threads| && id in c.memory.inner && id !in c.memory.banned && Droppers(c.threads, id)
    requires c.threads[h] == InsertPool(id) || c.threads[h] == StubKnown(id)
    ensures CanLose(c, id)
  {
    if b: nat :| b < |c.threads| && c.threads[b] == BanTrust(id) {
      BanRace(c, id, h, b);
    } else {
      var r: nat :| r < |c.threads| && c.threads[r] == RebuildKnown(id);
      var k: nat :| k < |c.threads| && c.threads[k] == ClearInner;
      RebuildRace(c, id, h, r, k);
    }
  }

  /** Steps of other threads do not move the droppers. */
  lemma DroppersStay(threads: seq<Pc>, id: Id, i: nat, pc: Pc)
    requires i < |threads| && Droppers(threads, id)
    requires threads[i] != BanTrust(id) && threads[i] != RebuildKnown(id) && threads[i] != ClearInner
    ensures Droppers(threads[i := pc], id)
  {
    Replaced(threads, i, pc);
  }

  lemma MemberLoses(c: Config, id: Id, h: nat)
    requires h < |c.threads| && Handshake(c.threads[h], id) && id in c.memory.inner && id !in c.memory.banned && Droppers(c.threads, id)
    ensures CanLose(c, id)
  {
    DroppersStay(c.threads, id, h, Next(c.memory, c.threads[h]));
    MemberRace(Step(c, h), id, h);
    After(c, h, id);
  }

  /** A handshake with a stranger who is not banned comes to its insertion. */
  lemma Checked(c: Config, id: Id, h: nat) returns (c': Config)
    requires h < |c.threads| && Handshake(c.threads[h], id) && id !in c.memory.banned && id !in c.memory.inner
    ensures Reaches(c, c') && c' == Config(c.memory, c.threads[h := InsertPool(id)])
  {
    Here(c);
    ThenStep(c, c, h);
    c' := Step(c, h);
    if c.threads[h].StubBanned? {
      ThenStep(c, c', h);
      c' := Step(c', h);
    }
  }

  /** The first of two handshakes registers the peer; the second then races whoever drops clients. */
  lemma SecondRaces(c: Config, id: Id, g: nat, h: nat)
    requires g < |c.threads| && h < |c.threads| && g != h && id !in c.memory.banned && Droppers(c.threads, id)
    requires c.threads[g] == InsertPool(id) && c.threads[h] == InsertPool(id)
    ensures CanLose(c, id)
  {
    var c1 := Step(c, g);
    DroppersStay(c.threads, id, g, InsertInner(id));
    DroppersStay(c1.threads, id, g, ApproveTrust(id));
    MemberRace(Step(c1, g), id, h);
    After(c1, g, id);
    After(c, g, id);
  }

  lemma StrangerLoses(c: Config, id: Id, g: nat, h: nat)
    requires g < |c.threads| && h < |c.threads| && g != h && Handshake(c.threads[g], id) && Handshake(c.threads[h], id)
    requires id !in c.memory.inner && id !in c.memory.banned && Droppers(c.threads, id)
    ensures CanLose(c, id)
  {
    var c1 := Checked(c, id, g);
    var c2 := Checked(c1, id, h);
    DroppersStay(c.threads, id, g, InsertPool(id));
    DroppersStay(c1.threads, id, h, InsertPool(id));
    SecondRaces(c2, id, g, h);
    Later(c1, c2, id);
    Later(c, c1, id);
  }

  /** An approve or a clear runs to where the ban is lifted, and nobody else moves. */
  lemma Pardoned(c: Config, id: Id, p: nat) returns (c': Config, pc: Pc)
    requires p < |c.threads| && Pardons(c.threads[p], id) && id !in c.memory.inner
    ensures Reaches(c, c') && id !in c'.memory.banned && id !in c'.memory.inner && c'.threads == c.threads[p := pc]
  {
    Here(c);
    ThenStep(c, c, p);
    c' := Step(c, p);
    if c.threads[p].ClearInner? {
      ThenStep(c, c', p);
      c' := Step(c', p);
      ThenStep(c, c', p);
      c' := Step(c', p);
    }
    pc := c'.threads[p];
  }

  lemma BannedLoses(c: Config, id: Id, g: nat, h: nat, p: nat)
    requires g < |c.threads| && h < |c.threads| && g != h && Handshake(c.threads[g], id) && Handshake(c.threads[h], id)
    requires id !in c.memory.inner && p < |c.threads| && Pardons(c.threads[p], id) && Droppers(c.threads[p := Done], id)
    ensures CanLose(c, id)
  {
    var c', pc := Pardoned(c, id, p);
    DroppersStay(c.threads[p := Done], id, p, pc);
    assert c.threads[p := Done][p := pc] == c.threads[p := pc];
    StrangerLoses(c', id, g, h);
    Later(c, c', id);
  }

  lemma LosableIsLost(c: Config, id: Id)
    requires AllStarting(c.threads) && !(id in c.memory.inner && id in c.memory.banned) && Losable(c, id)
    ensures CanLose(c, id)
  {
    if SomeHandshake(c.threads, id) && RemoveInner(id) in c.threads {
      var h: nat :| h < |c.threads| && Handshake(c.threads[h], id);
      var r: nat :| r < |c.threads| && c.threads[r] == RemoveInner(id);
      RemoveRace(c, id, h, r);
    } else if id in c.memory.inner {
      var h: nat :| h < |c.threads| && Handshake(c.threads[h], id);
      MemberLoses(c, id, h);
    } else {
      var g: nat, h: nat :| g < h < |c.threads| && Handshake(c.threads[g], id) && Handshake(c.threads[h], id);
      if id in c.memory.banned {
        var p: nat :| p < |c.threads| && Pardons(c.threads[p], id) && Droppers(c.threads[p := Done], id);
        BannedLoses(c, id, g, h, p);
      } else {
        StrangerLoses(c, id, g, h);
      }
    }
  }

  /** Any number of operations of all kinds on any peers, starting from a pool that fits the registry and from no
      banned member: some schedule that finishes them all leaves the peer registered without a client if and only if
      the start is losable. */
  lemma ClientIsLostIffLosable(c: Config, id: Id)
    requires AllStarting(c.threads) && (id in c.memory.pool <==> id in c.memory.inner)
    requires !(id in c.memory.inner && id in c.memory.banned)
    ensures (exists schedule :: Loses(c, id, schedule)) <==> Losable(c, id)
  {
    if Losable(c, id) {
      LosableIsLost(c, id);
      var c' :| Reaches(c, c') && AllDone(c') && Lost(c'.memory, id);
      var schedule :| Schedules(schedule, |c.threads|) && Run(c, schedule) == c';
      assert Loses(c, id, schedule);
    } else {
      UnlosableIsSafe(c, id);
      forall schedule | Schedules(schedule, |c.threads|) ensures !Loses(c, id, schedule) {
        StaysSafe(c, id, schedule);
      }
    }
  }
}
