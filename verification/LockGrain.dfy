/** The two models of the registry agree: an operation of `Interleaving` that runs without interference does
    to membership what the same operation of `Peers`, or event of `Events`, does in one step. */
module LockGrain {
  import opened Peers
  import opened Interleaving
  import Events

  function Membership(r: Registry): Shared { Shared(r.inner.Keys, r.approved, r.banned, r.pool.Keys) }

  /** The memory after a thread has made `n` steps with nobody else running. */
  function Alone(m: Shared, pc: Pc, n: nat): Shared
    decreases n
  {
    if n == 0 then m else Alone(Memory(m, pc), Next(m, pc), n - 1)
  }

  function Zeros(n: nat): seq<nat> { seq(n, i => 0) }

  /** That is the run of `Interleaving` with one thread. */
  lemma {:induction false} AloneIsARun(m: Shared, pc: Pc, n: nat)
    ensures Run(Config(m, [pc]), Zeros(n)).memory == Alone(m, pc, n)
    decreases n
  {
    if n != 0 {
      var c := Config(m, [pc]);
      AloneIsARun(Memory(m, pc), Next(m, pc), n - 1);
      assert Step(c, 0) == Config(Memory(m, pc), [Next(m, pc)]);
      assert Zeros(n)[1..] == Zeros(n - 1);
      assert Run(c, Zeros(n)) == Run(Step(c, 0), Zeros(n)[1..]);
    }
  }

  lemma {:induction false} DoneStays(m: Shared, n: nat)
    ensures Alone(m, Done, n) == m
    decreases n
  {
    if n != 0 {
      DoneStays(m, n - 1);
    }
  }

  lemma OneStep(m: Shared, pc: Pc, n: nat)
    requires 1 <= n
    ensures Alone(m, pc, n) == Alone(Memory(m, pc), Next(m, pc), n - 1)
  {
  }

  // What the operations do to membership, given the six turns or fewer they need -----------------------------

  function Approved(m: Shared, id: Id): Shared { m.(approved := m.approved + {id}, banned := m.banned - {id}) }

  lemma ApproveOn(m: Shared, id: Id, n: nat)
    requires 2 <= n
    ensures Alone(m, ApproveTrust(id), n) == Approved(m, id)
  {
    OneStep(m, ApproveTrust(id), n);
    OneStep(Approved(m, id), ApproveInner(id), n - 1);
    DoneStays(Approved(m, id), n - 2);
  }

  function Banned(m: Shared, id: Id): Shared {
    Shared(m.inner - {id}, m.approved - {id}, m.banned + {id}, if id in m.inner then m.pool - {id} else m.pool)
  }

  lemma BanOn(m: Shared, id: Id, n: nat)
    requires 3 <= n
    ensures Alone(m, BanTrust(id), n) == Banned(m, id)
  {
    var m1 := Memory(m, BanTrust(id));
    var m2 := Memory(m1, BanInner(id));
    OneStep(m, BanTrust(id), n);
    OneStep(m1, BanInner(id), n - 1);
    OneStep(m2, BanPool(id), n - 2);
    DoneStays(Banned(m, id), n - 2);
    DoneStays(Banned(m, id), n - 3);
  }

  function Gone(m: Shared, id: Id): Shared { Shared(m.inner - {id}, m.approved - {id}, m.banned - {id}, m.pool - {id}) }

  lemma RemoveOn(m: Shared, id: Id, n: nat)
    requires 4 <= n
    ensures Alone(m, RemoveInner(id), n) == Gone(m, id)
  {
    var m1 := Memory(m, RemoveInner(id));
    var m2 := Memory(m1, RemoveApproved(id));
    var m3 := Memory(m2, RemoveBanned(id));
    OneStep(m, RemoveInner(id), n);
    OneStep(m1, RemoveApproved(id), n - 1);
    OneStep(m2, RemoveBanned(id), n - 2);
    OneStep(m3, RemovePool(id), n - 3);
    DoneStays(Gone(m, id), n - 4);
  }

  lemma ClearOn(m: Shared, n: nat)
    requires 3 <= n
    ensures Alone(m, ClearInner, n) == Shared({}, {}, {}, m.pool)
  {
    var m1 := Memory(m, ClearInner);
    var m2 := Memory(m1, ClearApproved);
    OneStep(m, ClearInner, n);
    OneStep(m1, ClearApproved, n - 1);
    OneStep(m2, ClearBanned, n - 2);
    DoneStays(Shared({}, {}, {}, m.pool), n - 3);
  }

  function Entered(m: Shared, id: Id): Shared { Approved(m.(pool := m.pool + {id}, inner := m.inner + {id}), id) }

  /** The second half of every handshake: the client, the state, the approval. */
  lemma InsertionOn(m: Shared, id: Id, n: nat)
    requires 4 <= n
    ensures Alone(m, InsertPool(id), n) == Entered(m, id)
  {
    var m1 := Memory(m, InsertPool(id));
    OneStep(m, InsertPool(id), n);
    OneStep(m1, InsertInner(id), n - 1);
    ApproveOn(Memory(m1, InsertInner(id)), id, n - 2);
  }

  lemma DialOn(m: Shared, id: Id, n: nat)
    requires 5 <= n
    ensures Alone(m, DialBanned(id), n) == if id in m.banned then m else Entered(m, id)
  {
    OneStep(m, DialBanned(id), n);
    DoneStays(m, n - 1);
    InsertionOn(m, id, n - 1);
  }

  lemma StubDialOn(m: Shared, id: Id, n: nat)
    requires 6 <= n
    ensures Alone(m, StubBanned(id), n) == if id in m.banned || id in m.inner then m else Entered(m, id)
  {
    OneStep(m, StubBanned(id), n);
    OneStep(m, StubKnown(id), n - 1);
    DoneStays(m, n - 1);
    DoneStays(m, n - 2);
    InsertionOn(m, id, n - 2);
  }

  lemma ReplaceOn(m: Shared, id: Id, n: nat)
    requires 3 <= n && id in m.inner && id !in m.banned
    ensures Alone(m, Replace(id), n) == m.(pool := m.pool + {id})
  {
    var m' := m.(pool := m.pool + {id});
    OneStep(m, Replace(id), n);
    OneStep(m', RecheckKnown(id), n - 1);
    OneStep(m', RecheckBanned(id), n - 2);
    DoneStays(m', n - 3);
  }

  lemma RebuildOn(m: Shared, id: Id, n: nat)
    requires 5 <= n
    ensures Alone(m, RebuildKnown(id), n) == if id in m.inner && id !in m.banned then m.(pool := m.pool + {id}) else m
  {
    OneStep(m, RebuildKnown(id), n);
    if id in m.inner {
      OneStep(m, RebuildBanned(id), n - 1);
      if id in m.banned {
        DoneStays(m, n - 2);
      } else {
        ReplaceOn(m, id, n - 2);
      }
    } else {
      DoneStays(m, n - 1);
    }
  }

  // And the atomic operations do the same ---------------------------------------------------------------------

  lemma ApproveAlone(r: Registry, id: Id, n: nat)
    requires 2 <= n
    ensures Alone(Membership(r), ApproveTrust(id), n) == Membership(ApprovedPeer(r, id))
  {
    ApproveOn(Membership(r), id, n);
  }

  lemma BanAlone(r: Registry, id: Id, n: nat)
    requires 3 <= n
    ensures Alone(Membership(r), BanTrust(id), n) == Membership(BannedPeer(r, id))
  {
    BanOn(Membership(r), id, n);
  }

  lemma RemoveAlone(r: Registry, id: Id, n: nat)
    requires 4 <= n
    ensures Alone(Membership(r), RemoveInner(id), n) == Membership(Removed(r, id))
  {
    RemoveOn(Membership(r), id, n);
  }

  lemma ClearAlone(r: Registry, n: nat)
    requires 3 <= n
    ensures Alone(Membership(r), ClearInner, n) == Membership(Cleared(r))
  {
    ClearOn(Membership(r), n);
  }

  lemma AdmittedMembership(r: Registry, p: Identity, c: Client)
    ensures Membership(Events.Admit(r, p, c)) == Entered(Membership(r), p.deviceId)
  {
  }

  /** A dial and a stub dial, from the answer on. */
  lemma DialAlone(r: Registry, p: Identity, c: Client, n: nat)
    requires 5 <= n
    ensures Alone(Membership(r), DialBanned(p.deviceId), n)
      == Membership(if p.deviceId in r.banned then r else Events.Admit(r, p, c))
  {
    DialOn(Membership(r), p.deviceId, n);
    AdmittedMembership(r, p, c);
  }

  lemma StubDialAlone(r: Registry, p: Identity, c: Client, n: nat)
    requires 6 <= n
    ensures Alone(Membership(r), StubBanned(p.deviceId), n)
      == Membership(if p.deviceId in r.banned || p.deviceId in r.inner then r else Events.Admit(r, p, c))
  {
    StubDialOn(Membership(r), p.deviceId, n);
    AdmittedMembership(r, p, c);
  }

  /** A forced rebuild up to its re-dial. */
  lemma RebuildAlone(r: Registry, id: Id, c: Client, n: nat)
    requires 5 <= n
    ensures Alone(Membership(r), RebuildKnown(id), n)
      == Membership(if Events.Authorised(r, id) then WithClient(r, id, c) else r)
  {
    RebuildOn(Membership(r), id, n);
  }
}
