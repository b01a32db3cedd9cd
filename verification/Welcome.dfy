/** A member of a full mesh dials a fresh node: its announces make everyone dial, and the mesh completes whatever
    its size. */
module Welcome {
  import opened Peers
  import opened Gossip
  import opened Newcomer
  import opened Selection

  /** The user of the member `b` has dialled the newcomer, and nothing else is under way. */
  function Dialled(w: Scene): State { State(w.members + {w.c}, Mesh(w.members), [FullReq(w.b, w.c)], 0) }

  // ---------------------------------------------------------------------------
  // The phases
  // ---------------------------------------------------------------------------

  /** The newcomer has answered, with nobody to tell of. */
  predicate Greeted(w: Scene, s: State) {
    s.items == [FullRep(w.b, w.c, [])] && s.known == Mesh(w.members) + {(w.c, w.b)}
  }

  /** The kinds of item there are from then on: announces of the newcomer among members, and their dials of it. */
  predicate IsWelcome(w: Scene, known: set<(DeviceId, DeviceId)>, item: Item) {
    match item
    case Announce(o, t, about) => about == w.c && t in w.members
    case FullReq(d, s) => s == w.c && d in w.members
    case FullRep(d, s, stubs) => s == w.c && d in w.members && (w.c, d) in known && forall x | x in stubs :: x in w.members
    case _ => false
  }

  /** The item will bring the member and the newcomer together. */
  predicate Brings(w: Scene, item: Item, x: DeviceId) {
    match item
    case Announce(_, t, _) => t == x
    case FullReq(d, _) => d == x
    case FullRep(d, _, _) => d == x
    case _ => false
  }

  predicate Welcomed(w: Scene, s: State, x: DeviceId) {
    Joined(w, s.known, x) || exists i :: 0 <= i < |s.items| && Brings(w, s.items[i], x)
  }

  /** Nothing else is known or under way, and no member knows the newcomer alone. */
  ghost predicate Orderly(w: Scene, s: State) {
    && Mesh(w.members) <= s.known <= Mesh(w.members + {w.c})
    && (forall x | x in w.members :: (x, w.c) in s.known ==> (w.c, x) in s.known)
    && (forall i | 0 <= i < |s.items| :: IsWelcome(w, s.known, s.items[i]))
  }

  ghost predicate Welcoming(w: Scene, s: State) { Orderly(w, s) && forall x | x in w.members :: Welcomed(w, s, x) }

  ghost predicate Stage(w: Scene, s: State) {
    s.dials == 0 && (s == Dialled(w) || Greeted(w, s) || Welcoming(w, s))
  }

  // ---------------------------------------------------------------------------
  // Each step moves along the phases
  // ---------------------------------------------------------------------------

  lemma NewcomerAnswers(w: Scene, s: State, k: nat, order: seq<DeviceId>)
    requires Fits(w) && s == Dialled(w) && Possible(s, Handle(k, order))
    ensures Greeted(w, Step(s, Handle(k, order)))
  {
    OnlyOne(w, s, FullReq(w.b, w.c), k, order);
    assert PeersOf(s.known + {(w.c, w.b)}, w.c) - {w.b} == {};
    DistinctCount(order);
    assert Elements(order) == {};
    assert Step(s, Handle(k, order)).items == [FullRep(w.b, w.c, order)];
  }

  lemma NoStrangers(stubs: seq<DeviceId>, me: DeviceId, mine: set<DeviceId>)
    requires forall i | 0 <= i < |stubs| :: stubs[i] == me || stubs[i] in mine
    ensures Strangers(stubs, me, mine) == []
  {
    SelectsNothing(stubs, (x: DeviceId) => x != me && x !in mine);
  }

  /** A member that completes its dial picks nobody, since it knows everyone the newcomer can tell of, and announces
      the newcomer to all other members. */
  lemma CompletedDial(w: Scene, known: set<(DeviceId, DeviceId)>, d: DeviceId, stubs: seq<DeviceId>, order: seq<DeviceId>)
    requires Fits(w) && d in w.members && Mesh(w.members) <= known <= Mesh(w.members + {w.c}) && (d, w.c) in known
    requires forall x | x in stubs :: x in w.members
    requires Lists(order, PeersOf(known, d) - {w.c})
    ensures Becomes(known, FullRep(d, w.c, stubs), order) == Announces(d, w.c, order)
    ensures forall x :: x in order <==> x in w.members && x != d
  {
    forall x | x in w.members && x != d ensures x in PeersOf(known, d) {
      assert (d, x) in Mesh(w.members);
    }
    assert forall i | 0 <= i < |stubs| :: stubs[i] in stubs;
    NoStrangers(stubs, d, PeersOf(known, d));
    assert StubTasks(d, []) + Announces(d, w.c, order) == Announces(d, w.c, order);
    forall x | x in PeersOf(known, d) - {w.c} ensures x in w.members && x != d {
      assert (d, x) in Mesh(w.members + {w.c});
    }
  }

  lemma AnnouncesWelcome(w: Scene, order: seq<DeviceId>, s: State)
    requires Fits(w) && s.known == Mesh(w.members) + Mutual(w.c, {w.b}) && s.items == Announces(w.b, w.c, order)
    requires forall x :: x in order <==> x in w.members && x != w.b
    ensures Welcoming(w, s)
  {
    assert forall i | 0 <= i < |order| :: order[i] in order;
    forall x | x in w.members ensures Welcomed(w, s, x) {
      if x != w.b {
        var i :| 0 <= i < |order| && order[i] == x;
        assert Brings(w, s.items[i], x);
      }
    }
  }

  lemma FirstDialCompletes(w: Scene, s: State, k: nat, order: seq<DeviceId>)
    requires Fits(w) && Greeted(w, s) && Possible(s, Handle(k, order))
    ensures Welcoming(w, Step(s, Handle(k, order)))
  {
    OnlyOne(w, s, FullRep(w.b, w.c, []), k, order);
    var known := s.known + {(w.b, w.c)};
    assert known == Mesh(w.members) + Mutual(w.c, {w.b});
    CompletedDial(w, known, w.b, [], order);
    AnnouncesWelcome(w, order, Step(s, Handle(k, order)));
  }

  /** What the step does to items: those left stay what they were, and the new ones are of the right kind. */
  lemma StaysOrderly(w: Scene, s: State, k: nat, order: seq<DeviceId>)
    requires Fits(w) && Orderly(w, s) && Possible(s, Handle(k, order))
    ensures Orderly(w, Step(s, Handle(k, order)))
  {
    var item := s.items[k];
    var known := s.known + Learns(item);
    assert IsWelcome(w, s.known, item);
    var more := Becomes(known, item, order);
    assert forall i | 0 <= i < |more| :: IsWelcome(w, known, more[i]) by {
      BecomesWelcome(w, s.known, item, order);
    }
    var rest := Without(s.items, k);
    forall i | 0 <= i < |rest| ensures IsWelcome(w, known, rest[i]) {
      assert rest[i] == s.items[if i < k then i else i + 1];
      assert IsWelcome(w, s.known, rest[i]);
    }
  }

  lemma BecomesWelcome(w: Scene, before: set<(DeviceId, DeviceId)>, item: Item, order: seq<DeviceId>)
    requires Fits(w) && Mesh(w.members) <= before <= Mesh(w.members + {w.c}) && IsWelcome(w, before, item)
    requires Lists(order, Listed(before + Learns(item), item))
    ensures var known := before + Learns(item);
      forall i | 0 <= i < |Becomes(known, item, order)| :: IsWelcome(w, known, Becomes(known, item, order)[i])
  {
    var known := before + Learns(item);
    match item {
      case FullReq(d, s) =>
        forall x | x in order ensures x in w.members {
          assert (w.c, x) in Mesh(w.members + {w.c});
        }
      case FullRep(d, s, stubs) =>
        CompletedDial(w, known, d, stubs, order);
        assert forall i | 0 <= i < |order| :: order[i] in order;
      case Announce(_, _, _) =>
    }
  }

  lemma StillBrings(w: Scene, items: seq<Item>, k: nat, more: seq<Item>, x: DeviceId, j: nat)
    requires k < |items| && j < |items| && j != k && Brings(w, items[j], x)
    ensures exists i :: 0 <= i < |Without(items, k) + more| && Brings(w, (Without(items, k) + more)[i], x)
  {
    ItemAfter(items, k, more, j);
  }

  lemma StaysWelcomed(w: Scene, s: State, k: nat, order: seq<DeviceId>, x: DeviceId)
    requires Fits(w) && Welcoming(w, s) && Possible(s, Handle(k, order)) && x in w.members
    ensures Welcomed(w, Step(s, Handle(k, order)), x)
  {
    var item, s' := s.items[k], Step(s, Handle(k, order));
    var more := Becomes(s'.known, item, order);
    assert IsWelcome(w, s.known, item);
    if !Joined(w, s.known, x) {
      var j :| 0 <= j < |s.items| && Brings(w, s.items[j], x);
      if j != k {
        StillBrings(w, s.items, k, more, x, j);
      } else if !item.FullRep? && more != [] {
        assert s'.items[|s.items| - 1] == more[0];
      }
    }
  }

  lemma StepWelcomes(w: Scene, s: State, k: nat, order: seq<DeviceId>)
    requires Fits(w) && Stage(w, s) && Possible(s, Handle(k, order))
    ensures Stage(w, Step(s, Handle(k, order)))
  {
    if s == Dialled(w) {
      NewcomerAnswers(w, s, k, order);
    } else if Greeted(w, s) {
      FirstDialCompletes(w, s, k, order);
    } else {
      StaysOrderly(w, s, k, order);
      forall x | x in w.members ensures Welcomed(w, Step(s, Handle(k, order)), x) {
        StaysWelcomed(w, s, k, order, x);
      }
    }
  }

  // ---------------------------------------------------------------------------
  // The theorem
  // ---------------------------------------------------------------------------

  lemma {:induction false} StageHolds(w: Scene, run: nat -> State, i: nat)
    requires Fits(w) && run(0) == Dialled(w) && forall j :: Clean(run, j)
    ensures Stage(w, run(i))
  {
    if i != 0 {
      StageHolds(w, run, i - 1);
      assert Clean(run, i - 1);
      if !(Quiet(run(i - 1)) && run(i) == run(i - 1)) {
        var k, order :| Possible(run(i - 1), Handle(k, order)) && run(i) == Step(run(i - 1), Handle(k, order));
        StepWelcomes(w, run(i - 1), k, order);
      }
    }
  }

  lemma QuietIsComplete(w: Scene, s: State)
    requires Fits(w) && Stage(w, s) && Quiet(s)
    ensures s.known == Mesh(w.members + {w.c})
  {
    forall p | p in Mesh(w.members + {w.c}) ensures p in s.known {
      if p.0 == w.c || p.1 == w.c {
        var x := if p.0 == w.c then p.1 else p.0;
        assert Welcomed(w, s, x);
      } else {
        assert p in Mesh(w.members);
      }
    }
  }

  /** If a member of a full mesh dials a fresh node and nothing fails, every schedule becomes quiet, and when it is
      quiet the mesh is full again, the newcomer included, however many members there are. */
  lemma MemberDialCompletesTheMesh(w: Scene, run: nat -> State)
    requires Fits(w) && run(0) == Dialled(w) && forall i :: Clean(run, i)
    ensures exists j: nat :: Quiet(run(j))
    ensures forall j: nat | Quiet(run(j)) :: run(j).known == Mesh(w.members + {w.c})
  {
    forall i: nat ensures Follows(run, i) {
      assert Clean(run, i);
    }
    EveryScheduleSettles(run);
    forall j: nat | Quiet(run(j)) ensures run(j).known == Mesh(w.members + {w.c}) {
      StageHolds(w, run, j);
      QuietIsComplete(w, run(j));
    }
  }
}
