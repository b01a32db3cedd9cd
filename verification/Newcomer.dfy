/** A newcomer joins a full mesh: what every schedule without failures comes to. */
module Newcomer {
  import opened Peers
  import opened Gossip
  import Node

  /** Everyone among `members` knows everyone else. */
  function Mesh(members: set<DeviceId>): set<(DeviceId, DeviceId)> {
    set x, y | x in members && y in members && x != y :: (x, y)
  }

  /** `c` and each of `xs` know one another. */
  function Mutual(c: DeviceId, xs: set<DeviceId>): set<(DeviceId, DeviceId)> {
    (set x | x in xs :: (c, x)) + (set x | x in xs :: (x, c))
  }

  /** The newcomer `c`, the member `b` it dials, and the mesh. */
  datatype Scene = Scene(c: DeviceId, b: DeviceId, members: set<DeviceId>)

  predicate Fits(w: Scene) { w.c !in w.members && w.b in w.members }

  function Others(w: Scene): set<DeviceId> { w.members - {w.b} }

  /** The user of the newcomer has dialled `b`, and nothing else is under way. */
  function Start(w: Scene): State { State(w.members + {w.c}, Mesh(w.members), [FullReq(w.c, w.b)], 0) }

  /** Steps without failures, in any order, for as long as something is under way. */
  ghost predicate Clean(run: nat -> State, i: nat) {
    || (exists k, order :: Possible(run(i), Handle(k, order)) && run(i + 1) == Step(run(i), Handle(k, order)))
    || (Quiet(run(i)) && run(i + 1) == run(i))
  }

  // ---------------------------------------------------------------------------
  // The phases
  // ---------------------------------------------------------------------------

  ghost predicate Answered(w: Scene, s: State) {
    exists stubs :: s.items == [FullRep(w.c, w.b, stubs)] && Lists(stubs, Others(w)) && s.known == Mesh(w.members) + {(w.b, w.c)}
  }

  predicate IsStubWork(w: Scene, picked: set<DeviceId>, known: set<(DeviceId, DeviceId)>, item: Item) {
    && (item.StubTask? || item.StubReq? || item.StubRep?)
    && item.d == w.c && item.s in picked
    && (item.StubRep? ==> (item.s, w.c) in known)
  }

  predicate Joined(w: Scene, known: set<(DeviceId, DeviceId)>, x: DeviceId) { (w.c, x) in known && (x, w.c) in known }

  predicate InWork(w: Scene, items: seq<Item>, x: DeviceId) {
    StubTask(w.c, x) in items || StubReq(w.c, x) in items || StubRep(w.c, x) in items
  }

  /** Stub dials to `picked` are under way: each of them has joined or is being worked on. */
  ghost predicate Spreading(w: Scene, picked: set<DeviceId>, s: State) {
    && picked <= Others(w)
    && Mesh(w.members) + Mutual(w.c, {w.b}) <= s.known <= Mesh(w.members) + Mutual(w.c, picked + {w.b})
    && (forall x | x in picked :: (w.c, x) in s.known ==> Joined(w, s.known, x))
    && (forall item | item in s.items :: IsStubWork(w, picked, s.known, item))
    && (forall x | x in picked :: Joined(w, s.known, x) || InWork(w, s.items, x))
  }

  /** At most three of the others are picked, and all of them when there are no more than three. */
  predicate Quota(w: Scene, picked: set<DeviceId>) {
    |picked| == if |Others(w)| <= Node.GOSSIP_MAX_CONCURRENT then |Others(w)| else Node.GOSSIP_MAX_CONCURRENT
  }

  ghost predicate Phase(w: Scene, s: State) {
    && s.dials == 0
    && (s == Start(w) || Answered(w, s) || exists picked :: Quota(w, picked) && Spreading(w, picked, s))
  }

  // ---------------------------------------------------------------------------
  // Each step moves along the phases
  // ---------------------------------------------------------------------------

  lemma OnlyOne(w: Scene, s: State, item: Item, k: nat, order: seq<DeviceId>)
    requires s.items == [item] && Possible(s, Handle(k, order))
    ensures k == 0 && Without(s.items, 0) == [] && s.items[0] == item
  {
  }

  lemma ServerAnswers(w: Scene, s: State, k: nat, order: seq<DeviceId>)
    requires Fits(w) && s == Start(w) && Possible(s, Handle(k, order))
    ensures Answered(w, Step(s, Handle(k, order)))
  {
    OnlyOne(w, s, FullReq(w.c, w.b), k, order);
    var known := s.known + {(w.b, w.c)};
    assert PeersOf(known, w.b) - {w.c} == Others(w);
    assert Step(s, Handle(k, order)).items == [FullRep(w.c, w.b, order)];
  }

  lemma {:induction false} DistinctCount(xs: seq<DeviceId>)
    requires forall i, j | 0 <= i < j < |xs| :: xs[i] != xs[j]
    ensures |Elements(xs)| == |xs|
  {
    if xs != [] {
      var init, last := xs[..|xs| - 1], xs[|xs| - 1];
      DistinctCount(init);
      assert Elements(xs) == Elements(init) + {last};
    }
  }

  lemma PicksAQuota(w: Scene, stubs: seq<DeviceId>)
    requires Fits(w) && Lists(stubs, Others(w))
    ensures Quota(w, Elements(Picked(stubs, w.c, {w.b}))) && Elements(Picked(stubs, w.c, {w.b})) <= Others(w)
  {
    assert forall i | 0 <= i < |stubs| :: stubs[i] in Others(w);
    assert Strangers(stubs, w.c, {w.b}) == stubs;
    DistinctCount(Picked(stubs, w.c, {w.b}));
    DistinctCount(stubs);
    assert Elements(stubs) == Others(w);
  }

  lemma KnowsOnlyItsServer(w: Scene)
    requires Fits(w)
    ensures PeersOf(Mesh(w.members) + {(w.b, w.c)} + {(w.c, w.b)}, w.c) == {w.b}
    ensures Mesh(w.members) + {(w.b, w.c)} + {(w.c, w.b)} == Mesh(w.members) + Mutual(w.c, {w.b})
  {
  }

  lemma StubTasksSpread(w: Scene, list: seq<DeviceId>, s: State)
    requires Fits(w) && Elements(list) <= Others(w)
    requires s.known == Mesh(w.members) + Mutual(w.c, {w.b}) && s.items == StubTasks(w.c, list)
    ensures Spreading(w, Elements(list), s)
  {
    forall x | x in Elements(list) ensures InWork(w, s.items, x) {
      var i :| 0 <= i < |list| && list[i] == x;
      assert s.items[i] == StubTask(w.c, x);
    }
  }

  /** The newcomer knows only its server, so it has no one to announce the server to; it picks stub dials. */
  lemma DiallerSpreads(w: Scene, s: State, k: nat, order: seq<DeviceId>) returns (picked: set<DeviceId>)
    requires Fits(w) && Answered(w, s) && Possible(s, Handle(k, order))
    ensures Quota(w, picked) && Spreading(w, picked, Step(s, Handle(k, order)))
  {
    var stubs :| s.items == [FullRep(w.c, w.b, stubs)] && Lists(stubs, Others(w)) && s.known == Mesh(w.members) + {(w.b, w.c)};
    OnlyOne(w, s, FullRep(w.c, w.b, stubs), k, order);
    KnowsOnlyItsServer(w);
    DistinctCount(order);
    assert Elements(order) == {};
    var list := Picked(stubs, w.c, {w.b});
    picked := Elements(list);
    PicksAQuota(w, stubs);
    var s' := Step(s, Handle(k, order));
    assert s'.items == StubTasks(w.c, list);
    StubTasksSpread(w, list, s');
  }

  lemma StubWorkSpreads(w: Scene, picked: set<DeviceId>, s: State, k: nat, order: seq<DeviceId>)
    requires Fits(w) && Spreading(w, picked, s) && Possible(s, Handle(k, order))
    ensures Spreading(w, picked, Step(s, Handle(k, order)))
  {
    var item := s.items[k];
    assert item in s.items && IsStubWork(w, picked, s.known, item);
    var x, known := item.s, s.known + Learns(item);
    var s' := Step(s, Handle(k, order));
    var more := Becomes(known, item, order);
    forall y | y in s'.items ensures IsStubWork(w, picked, known, y) {
      if y in Without(s.items, k) {
        assert y in s.items;
      }
    }
    forall y | y in picked ensures Joined(w, known, y) || InWork(w, s'.items, y) {
      if !Joined(w, s.known, y) {
        if y == x {
          WorkGoesOn(w, s, k, order);
        } else {
          WorkStays(w, s, k, more, y);
        }
      }
    }
  }

  lemma WorkStays(w: Scene, s: State, k: nat, more: seq<Item>, y: DeviceId)
    requires k < |s.items| && InWork(w, s.items, y)
    requires (s.items[k].StubTask? || s.items[k].StubReq? || s.items[k].StubRep?) && s.items[k].s != y
    ensures InWork(w, Without(s.items, k) + more, y)
  {
    var item := if StubTask(w.c, y) in s.items then StubTask(w.c, y)
      else if StubReq(w.c, y) in s.items then StubReq(w.c, y) else StubRep(w.c, y);
    StaysUnderWay(s.items, k, more, item);
  }

  lemma WorkGoesOn(w: Scene, s: State, k: nat, order: seq<DeviceId>)
    requires Fits(w) && k < |s.items|
    requires var item := s.items[k];
      && (item.StubTask? || item.StubReq? || item.StubRep?) && item.d == w.c && item.s in w.members
      && (item.StubRep? ==> (item.s, w.c) in s.known)
      && ((w.c, item.s) in s.known ==> Joined(w, s.known, item.s))
    ensures var s', x := Step(s, Handle(k, order)), s.items[k].s; Joined(w, s'.known, x) || InWork(w, s'.items, x)
  {
    var item := s.items[k];
    var more := Becomes(s.known + Learns(item), item, order);
    if more != [] {
      assert (Without(s.items, k) + more)[|s.items| - 1] == more[0];
    }
  }

  lemma StepMovesOn(w: Scene, s: State, k: nat, order: seq<DeviceId>)
    requires Fits(w) && Phase(w, s) && Possible(s, Handle(k, order))
    ensures Phase(w, Step(s, Handle(k, order)))
  {
    if s == Start(w) {
      ServerAnswers(w, s, k, order);
    } else if Answered(w, s) {
      var picked := DiallerSpreads(w, s, k, order);
    } else {
      var picked :| Quota(w, picked) && Spreading(w, picked, s);
      StubWorkSpreads(w, picked, s, k, order);
    }
  }

  // ---------------------------------------------------------------------------
  // The theorem
  // ---------------------------------------------------------------------------

  /** The mesh as before, plus the newcomer, mutually known with `b` and exactly the picked others. */
  ghost predicate JoinedWith(w: Scene, s: State, picked: set<DeviceId>) {
    picked <= Others(w) && Quota(w, picked) && s.known == Mesh(w.members) + Mutual(w.c, picked + {w.b})
  }

  lemma {:induction false} PhaseHolds(w: Scene, run: nat -> State, i: nat)
    requires Fits(w) && run(0) == Start(w) && forall j :: Clean(run, j)
    ensures Phase(w, run(i))
  {
    if i != 0 {
      PhaseHolds(w, run, i - 1);
      assert Clean(run, i - 1);
      if !(Quiet(run(i - 1)) && run(i) == run(i - 1)) {
        var k, order :| Possible(run(i - 1), Handle(k, order)) && run(i) == Step(run(i - 1), Handle(k, order));
        StepMovesOn(w, run(i - 1), k, order);
      }
    }
  }

  lemma QuietPhase(w: Scene, s: State)
    requires Fits(w) && Phase(w, s) && Quiet(s)
    ensures exists picked :: JoinedWith(w, s, picked)
  {
    var picked :| Quota(w, picked) && Spreading(w, picked, s);
    forall p | p in Mutual(w.c, picked + {w.b}) ensures p in s.known {
      var x := if p.0 == w.c then p.1 else p.0;
      assert x in picked + {w.b};
      if x in picked {
        assert Joined(w, s.known, x);
      } else {
        assert p in Mutual(w.c, {w.b});
      }
    }
    assert s.known == Mesh(w.members) + Mutual(w.c, picked + {w.b});
    assert JoinedWith(w, s, picked);
  }

  /** If a fresh node dials a member of a full mesh and nothing fails, then every schedule becomes quiet, and when
      it is quiet the newcomer is mutually registered with that member and with exactly min(3, k) of its k peers,
      and nothing else has changed. */
  lemma NewcomerMeetsAtMostFour(w: Scene, run: nat -> State)
    requires Fits(w) && run(0) == Start(w) && forall i :: Clean(run, i)
    ensures exists j: nat :: Quiet(run(j))
    ensures forall j: nat | Quiet(run(j)) :: exists picked :: JoinedWith(w, run(j), picked)
  {
    forall i: nat ensures Follows(run, i) {
      assert Clean(run, i);
    }
    EveryScheduleSettles(run);
    forall j: nat | Quiet(run(j)) ensures exists picked :: JoinedWith(w, run(j), picked) {
      PhaseHolds(w, run, j);
      QuietPhase(w, run(j));
    }
  }

  lemma SubsetOfSameSize(a: set<DeviceId>, b: set<DeviceId>)
    requires a <= b && |a| == |b|
    ensures a == b
  {
    assert b == a + (b - a);
  }

  /** The result is a full mesh exactly when the member had at most three other peers. */
  lemma FullMeshIffAtMostFourMembers(w: Scene, s: State, picked: set<DeviceId>)
    requires Fits(w) && JoinedWith(w, s, picked)
    ensures s.known == Mesh(w.members + {w.c}) <==> |Others(w)| <= Node.GOSSIP_MAX_CONCURRENT
  {
    if |Others(w)| <= Node.GOSSIP_MAX_CONCURRENT {
      SubsetOfSameSize(picked, Others(w));
      assert picked + {w.b} == w.members;
      assert Mesh(w.members) + Mutual(w.c, w.members) == Mesh(w.members + {w.c});
    } else {
      assert picked != Others(w) && !(Others(w) <= picked);
      var x :| x in Others(w) && x !in picked;
      assert (w.c, x) in Mesh(w.members + {w.c}) && (w.c, x) !in s.known;
    }
  }
}
