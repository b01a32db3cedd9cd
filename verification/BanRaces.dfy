/** Bans under concurrency: exactly which threads can still lift a ban that is in place. */
module BanRaces {
  import opened Interleaving

  /** The thread is in a remove, a clear or an approval, or in a handshake past its ban check. */
  predicate Lifting(pc: Pc, id: Id) {
    || ((pc.InsertPool? || pc.InsertInner? || pc.ApproveTrust? || pc.RemoveInner? || pc.RemoveApproved? || pc.RemoveBanned?)
        && pc.id == id)
    || pc.ClearInner? || pc.ClearApproved? || pc.ClearBanned?
  }

  /** The thread is in a ban that has yet to take the peer out of the registry. */
  predicate Kicking(pc: Pc, id: Id) { (pc.BanTrust? || pc.BanInner?) && pc.id == id }

  /** A stub dial past its ban check, which only a registered peer stops. */
  predicate StubPasses(c: Config, id: Id) {
    StubKnown(id) in c.threads
    && (id !in c.memory.inner || exists j :: 0 <= j < |c.threads| && Kicking(c.threads[j], id))
  }

  predicate Liftable(c: Config, id: Id) {
    (exists i :: 0 <= i < |c.threads| && Lifting(c.threads[i], id)) || StubPasses(c, id)
  }

  /** No step makes a ban liftable that was not, and only a lifting thread lifts it. */
  lemma StepMakesNothingLiftable(c: Config, id: Id, i: nat)
    requires id in c.memory.banned && i < |c.threads|
    ensures Liftable(Step(c, i), id) ==> Liftable(c, id)
    ensures id !in Step(c, i).memory.banned ==> Liftable(c, id)
  {
    var c', pc := Step(c, i), c.threads[i];
    if k :| 0 <= k < |c'.threads| && Lifting(c'.threads[k], id) {
      assert Lifting(c.threads[k], id) || (k == i && pc == StubKnown(id) && id !in c.memory.inner);
    } else if StubPasses(c', id) {
      var k :| 0 <= k < |c'.threads| && c'.threads[k] == StubKnown(id);
      assert c.threads[k] == StubKnown(id);
      if j :| 0 <= j < |c'.threads| && Kicking(c'.threads[j], id) {
        assert Kicking(c.threads[j], id);
      } else {
        assert id !in c.memory.inner || Kicking(pc, id) || Lifting(pc, id);
      }
    }
  }

  lemma {:induction false} StaysBanned(c: Config, id: Id, schedule: seq<nat>)
    requires id in c.memory.banned && !Liftable(c, id) && Schedules(schedule, |c.threads|)
    ensures id in Run(c, schedule).memory.banned
    decreases |schedule|
  {
    if schedule != [] {
      StepMakesNothingLiftable(c, id, schedule[0]);
      StaysBanned(Step(c, schedule[0]), id, schedule[1..]);
    }
  }

  /** How many of its own steps a lifting thread needs. */
  function StepsToLift(pc: Pc): nat {
    match pc
    case ApproveTrust(_) => 1
    case RemoveBanned(_) => 1
    case ClearBanned => 1
    case InsertInner(_) => 2
    case RemoveApproved(_) => 2
    case ClearApproved => 2
    case _ => 3
  }

  ghost predicate Unbans(c: Config, id: Id, schedule: seq<nat>) {
    Schedules(schedule, |c.threads|) && id !in Run(c, schedule).memory.banned
  }

  lemma Before(c: Config, id: Id, i: nat, rest: seq<nat>)
    requires i < |c.threads| && Unbans(Step(c, i), id, rest)
    ensures Unbans(c, id, [i] + rest)
  {
    RunOne(c, i, rest);
  }

  lemma {:induction false} LiftingLifts(c: Config, id: Id, i: nat) returns (schedule: seq<nat>)
    requires i < |c.threads| && Lifting(c.threads[i], id)
    ensures Unbans(c, id, schedule)
    decreases StepsToLift(c.threads[i])
  {
    var rest := [];
    if StepsToLift(c.threads[i]) != 1 {
      rest := LiftingLifts(Step(c, i), id, i);
    }
    Before(c, id, i, rest);
    schedule := [i] + rest;
  }

  lemma StubLifts(c: Config, id: Id, i: nat) returns (schedule: seq<nat>)
    requires i < |c.threads| && c.threads[i] == StubKnown(id) && StubPasses(c, id)
    ensures Unbans(c, id, schedule)
  {
    if id !in c.memory.inner {
      var rest := LiftingLifts(Step(c, i), id, i);
      Before(c, id, i, rest);
      schedule := [i] + rest;
    } else {
      var j :| 0 <= j < |c.threads| && Kicking(c.threads[j], id);
      schedule := KickThenStub(c, id, i, j);
    }
  }

  lemma KickThenStub(c: Config, id: Id, i: nat, j: nat) returns (schedule: seq<nat>)
    requires i < |c.threads| && c.threads[i] == StubKnown(id)
    requires j < |c.threads| && Kicking(c.threads[j], id)
    ensures Unbans(c, id, schedule)
    decreases c.threads[j].BanTrust?
  {
    var c' := Step(c, j);
    var rest;
    if c.threads[j].BanTrust? {
      rest := KickThenStub(c', id, i, j);
    } else {
      var last := LiftingLifts(Step(c', i), id, i);
      Before(c', id, i, last);
      rest := [i] + last;
    }
    Before(c, id, j, rest);
    schedule := [j] + rest;
  }

  /** A ban that is in place can be lifted by some schedule exactly when some thread is already past the point
      where it would have noticed the ban, or is one that lifts bans on purpose. Otherwise it stays in every
      schedule, whatever handshakes, rebuilds and further bans are still to come. */
  lemma BanIsLiftedIffLiftable(c: Config, id: Id)
    requires id in c.memory.banned
    ensures (exists schedule :: Unbans(c, id, schedule)) <==> Liftable(c, id)
  {
    if i: nat :| i < |c.threads| && Lifting(c.threads[i], id) {
      var schedule := LiftingLifts(c, id, i);
    } else if StubPasses(c, id) {
      var i: nat :| i < |c.threads| && c.threads[i] == StubKnown(id);
      var schedule := StubLifts(c, id, i);
    } else {
      forall schedule | Schedules(schedule, |c.threads|) ensures !Unbans(c, id, schedule) {
        StaysBanned(c, id, schedule);
      }
    }
  }
}
