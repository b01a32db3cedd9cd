/** The gossip membership protocol as a state machine over any finite set of nodes: dials, stub dials and
    announces in flight, any of which may fail at any time. Every schedule settles. */
module Gossip {
  import opened Peers
  import opened Selection
  import Node

  /** Something under way. A full dial is a `FullReq` until the server has it, and a `FullRep` until the dialler
      has the answer; likewise a stub dial, which is first a task waiting to start. */
  datatype Item =
    | FullReq(d: DeviceId, s: DeviceId)
    | FullRep(d: DeviceId, s: DeviceId, stubs: seq<DeviceId>)
    | StubTask(d: DeviceId, s: DeviceId)
    | StubReq(d: DeviceId, s: DeviceId)
    | StubRep(d: DeviceId, s: DeviceId)
    | Announce(origin: DeviceId, to: DeviceId, about: DeviceId)

  /** `(a, b) in known` when `a` has `b` in its registry; `dials` counts the user's dials still to come. */
  datatype State = State(nodes: set<DeviceId>, known: set<(DeviceId, DeviceId)>, items: seq<Item>, dials: nat)

  datatype Choice =
    | UserDial(d: DeviceId, s: DeviceId)
    /** The item is lost, times out, or is refused: by the limiter, for a ban, or for an origin not approved. */
    | Fail(i: nat)
    /** The item is taken up; `order` is the order in which a registry lists its peers. */
    | Handle(i: nat, order: seq<DeviceId>)

  function PeersOf(known: set<(DeviceId, DeviceId)>, a: DeviceId): set<DeviceId> {
    set p | p in known && p.0 == a :: p.1
  }

  /** The first three of `stubs` that are strangers to `me`. */
  function Picked(stubs: seq<DeviceId>, me: DeviceId, mine: set<DeviceId>): seq<DeviceId> {
    var all := Strangers(stubs, me, mine);
    if |all| <= Node.GOSSIP_MAX_CONCURRENT then all else all[..Node.GOSSIP_MAX_CONCURRENT]
  }

  function Strangers(stubs: seq<DeviceId>, me: DeviceId, mine: set<DeviceId>): seq<DeviceId> {
    Select(stubs, (x: DeviceId) => x != me && x !in mine)
  }

  function StubTasks(d: DeviceId, picked: seq<DeviceId>): seq<Item> {
    seq(|picked|, i requires 0 <= i < |picked| => StubTask(d, picked[i]))
  }

  function Announces(d: DeviceId, about: DeviceId, order: seq<DeviceId>): seq<Item> {
    seq(|order|, i requires 0 <= i < |order| => Announce(d, order[i], about))
  }

  /** What the node concerned learns when `item` is taken up. */
  function Learns(item: Item): set<(DeviceId, DeviceId)> {
    match item
    case FullReq(d, s) => if d == s then {} else {(s, d)}
    case StubReq(d, s) => if d == s then {} else {(s, d)}
    case FullRep(d, s, _) => {(d, s)}
    case StubRep(d, s) => {(d, s)}
    case _ => {}
  }

  /** What `item` turns into, once what it taught is known. Only a completed full dial gossips: it starts at most
      three stub dials, and announces the node it dialled, and that node only, to its other peers. */
  function Becomes(known: set<(DeviceId, DeviceId)>, item: Item, order: seq<DeviceId>): seq<Item> {
    match item
    case FullReq(d, s) => if d == s then [] else [FullRep(d, s, order)]
    case FullRep(d, s, stubs) => StubTasks(d, Picked(stubs, d, PeersOf(known, d))) + Announces(d, s, order)
    case StubTask(d, s) => if (d, s) in known then [] else [StubReq(d, s)]
    case StubReq(d, s) => if d == s then [] else [StubRep(d, s)]
    case StubRep(_, _) => []
    case Announce(_, to, about) => if about == to || (to, about) in known then [] else [FullReq(to, about)]
  }

  /** The peers the taken-up item makes a registry list: those of the server but the requester, for the answer;
      those of the dialler but the server, for the announces. */
  function Listed(known: set<(DeviceId, DeviceId)>, item: Item): set<DeviceId> {
    match item
    case FullReq(d, s) => PeersOf(known, s) - {d}
    case FullRep(d, s, _) => PeersOf(known, d) - {s}
    case _ => {}
  }

  function Without(items: seq<Item>, i: nat): seq<Item>
    requires i < |items|
  {
    items[..i] + items[i + 1..]
  }

  /** Where an item of this state is in the next one. */
  lemma ItemAfter(items: seq<Item>, k: nat, more: seq<Item>, j: nat)
    requires k < |items| && j < |items| && j != k
    ensures var i := if j < k then j else j - 1; 0 <= i < |Without(items, k) + more| && (Without(items, k) + more)[i] == items[j]
  {
  }

  /** Where an item of the next state comes from. */
  lemma ItemBefore(items: seq<Item>, k: nat, more: seq<Item>, i: nat)
    requires k < |items| && i < |Without(items, k) + more|
    ensures var item := (Without(items, k) + more)[i];
      if i < |items| - 1 then item == items[if i < k then i else i + 1] else item == more[i - (|items| - 1)]
  {
  }

  lemma StaysUnderWay(items: seq<Item>, k: nat, more: seq<Item>, item: Item)
    requires k < |items| && item in items && item != items[k]
    ensures item in Without(items, k) + more
  {
    var i :| 0 <= i < |items| && items[i] == item;
    ItemAfter(items, k, more, i);
  }

  ghost predicate Possible(s: State, c: Choice) {
    match c
    case UserDial(d, t) => 0 < s.dials && d in s.nodes && t in s.nodes
    case Fail(i) => i < |s.items|
    case Handle(i, order) => i < |s.items| && Lists(order, Listed(s.known + Learns(s.items[i]), s.items[i]))
  }

  function Step(s: State, c: Choice): State
    requires c.UserDial? || c.i < |s.items|
    requires c.UserDial? ==> 0 < s.dials
  {
    match c
    case UserDial(d, t) => s.(items := s.items + [FullReq(d, t)], dials := s.dials - 1)
    case Fail(i) => s.(items := Without(s.items, i))
    case Handle(i, order) =>
      var known := s.known + Learns(s.items[i]);
      s.(known := known, items := Without(s.items, i) + Becomes(known, s.items[i], order))
  }

  ghost predicate Next(s: State, s': State) { exists c :: Possible(s, c) && s' == Step(s, c) }

  /** Nothing is under way, and the user is done. */
  predicate Quiet(s: State) { s.items == [] && s.dials == 0 }

  // ---------------------------------------------------------------------------
  // Well-formed states
  // ---------------------------------------------------------------------------

  predicate Among(nodes: set<DeviceId>, item: Item) {
    match item
    case FullRep(d, s, stubs) => d in nodes && s in nodes && forall x | x in stubs :: x in nodes
    case Announce(o, t, a) => o in nodes && t in nodes && a in nodes
    case _ => item.d in nodes && item.s in nodes
  }

  predicate AllAmong(nodes: set<DeviceId>, items: seq<Item>) { forall i | 0 <= i < |items| :: Among(nodes, items[i]) }

  function Pairs(nodes: set<DeviceId>): set<(DeviceId, DeviceId)> { set a, b | a in nodes && b in nodes :: (a, b) }

  predicate Valid(s: State) { s.known <= Pairs(s.nodes) && AllAmong(s.nodes, s.items) }

  lemma PeersAmong(nodes: set<DeviceId>, known: set<(DeviceId, DeviceId)>, a: DeviceId)
    requires known <= Pairs(nodes)
    ensures PeersOf(known, a) <= nodes
  {
  }

  lemma PickedAmong(stubs: seq<DeviceId>, me: DeviceId, mine: set<DeviceId>)
    ensures forall x | x in Picked(stubs, me, mine) :: x in stubs && x != me && x !in mine
  {
    SelectMembers(stubs, (x: DeviceId) => x != me && x !in mine);
  }

  lemma BecomesAmong(nodes: set<DeviceId>, known: set<(DeviceId, DeviceId)>, item: Item, order: seq<DeviceId>)
    requires known <= Pairs(nodes) && Among(nodes, item) && Lists(order, Listed(known, item))
    ensures AllAmong(nodes, Becomes(known, item, order))
  {
    match item {
      case FullReq(d, s) => PeersAmong(nodes, known, s);
      case FullRep(d, s, stubs) =>
        PeersAmong(nodes, known, d);
        var picked := Picked(stubs, d, PeersOf(known, d));
        PickedAmong(stubs, d, PeersOf(known, d));
        assert AllAmong(nodes, StubTasks(d, picked)) by {
          forall i | 0 <= i < |picked| ensures picked[i] in nodes {
            assert picked[i] in stubs;
          }
        }
        assert AllAmong(nodes, Announces(d, s, order)) by {
          forall i | 0 <= i < |order| ensures order[i] in nodes {
            assert order[i] in Listed(known, item);
          }
        }
      case _ =>
    }
  }

  lemma StepKeepsValid(s: State, c: Choice)
    requires Valid(s) && Possible(s, c)
    ensures Valid(Step(s, c))
  {
    if c.Handle? {
      var item := s.items[c.i];
      assert Among(s.nodes, item);
      BecomesAmong(s.nodes, s.known + Learns(item), item, c.order);
    }
  }

  // ---------------------------------------------------------------------------
  // The measure
  // ---------------------------------------------------------------------------

  /** Dials to peers already known, announces, and everything else, each counted by the stages it has left. */
  datatype Load = Load(dials: nat, announces: nat, rest: nat)

  function Plus(a: Load, b: Load): Load { Load(a.dials + b.dials, a.announces + b.announces, a.rest + b.rest) }

  function Stages(item: Item): nat {
    match item
    case StubTask(_, _) => 3
    case FullReq(_, _) => 2
    case StubReq(_, _) => 2
    case _ => 1
  }

  function LoadOf(known: set<(DeviceId, DeviceId)>, item: Item): Load {
    if item.Announce? then Load(0, 1, 0)
    else if (item.FullReq? || item.FullRep?) && (item.d, item.s) in known then Load(Stages(item), 0, 0)
    else Load(0, 0, Stages(item))
  }

  function Sum(ls: seq<Load>): Load {
    if ls == [] then Load(0, 0, 0) else Plus(Sum(ls[..|ls| - 1]), ls[|ls| - 1])
  }

  function Loads(known: set<(DeviceId, DeviceId)>, items: seq<Item>): seq<Load> {
    seq(|items|, i requires 0 <= i < |items| => LoadOf(known, items[i]))
  }

  function Total(known: set<(DeviceId, DeviceId)>, items: seq<Item>): Load { Sum(Loads(known, items)) }

  lemma {:induction false} SumConcat(a: seq<Load>, b: seq<Load>)
    ensures Sum(a + b) == Plus(Sum(a), Sum(b))
  {
    if b == [] {
      assert a + b == a;
    } else {
      var init, last := b[..|b| - 1], b[|b| - 1];
      SumConcat(a, init);
      assert (a + b)[..|a + b| - 1] == a + init;
      PlusAssociates(Sum(a), Sum(init), last);
    }
  }

  lemma PlusAssociates(a: Load, b: Load, c: Load)
    ensures Plus(Plus(a, b), c) == Plus(a, Plus(b, c)) && Plus(a, b) == Plus(b, a)
  {
  }

  lemma TotalConcat(known: set<(DeviceId, DeviceId)>, a: seq<Item>, b: seq<Item>)
    ensures Total(known, a + b) == Plus(Total(known, a), Total(known, b))
  {
    var la, lb := Loads(known, a), Loads(known, b);
    assert Loads(known, a + b) == la + lb;
    SumConcat(la, lb);
  }

  lemma TotalOne(known: set<(DeviceId, DeviceId)>, item: Item)
    ensures Total(known, [item]) == LoadOf(known, item)
  {
    var ls := Loads(known, [item]);
    assert ls[..|ls| - 1] == [] && Sum([]) == Load(0, 0, 0);
  }

  lemma TotalWithout(known: set<(DeviceId, DeviceId)>, items: seq<Item>, i: nat)
    requires i < |items|
    ensures Total(known, items) == Plus(Total(known, Without(items, i)), LoadOf(known, items[i]))
  {
    var l, r := items[..i], items[i + 1..];
    assert items == l + ([items[i]] + r);
    TotalConcat(known, l, [items[i]] + r);
    TotalConcat(known, [items[i]], r);
    TotalConcat(known, l, r);
    TotalOne(known, items[i]);
    PlusAssociates(Total(known, l), Total(known, r), LoadOf(known, items[i]));
    PlusAssociates(LoadOf(known, items[i]), Total(known, r), Load(0, 0, 0));
  }

  function Unknown(s: State): nat { |Pairs(s.nodes) - s.known| }

  /** The lexicographic order on (user dials, unknown pairs, dials to known peers, announces, the rest). */
  predicate Smaller(s': State, s: State) {
    var l', l := Total(s'.known, s'.items), Total(s.known, s.items);
    || s'.dials < s.dials
    || (s'.dials == s.dials && Unknown(s') < Unknown(s))
    || (s'.dials == s.dials && Unknown(s') == Unknown(s) && l'.dials < l.dials)
    || (s'.dials == s.dials && Unknown(s') == Unknown(s) && l'.dials == l.dials && l'.announces < l.announces)
    || (s'.dials == s.dials && Unknown(s') == Unknown(s) && l'.dials == l.dials && l'.announces == l.announces && l'.rest < l.rest)
  }

  predicate Lighter(l': Load, l: Load) {
    || l'.dials < l.dials
    || (l'.dials == l.dials && l'.announces < l.announces)
    || (l'.dials == l.dials && l'.announces == l.announces && l'.rest < l.rest)
  }

  lemma {:induction false} NoDialsIn(ls: seq<Load>)
    requires forall i | 0 <= i < |ls| :: ls[i].dials == 0
    ensures Sum(ls).dials == 0
  {
    if ls != [] {
      NoDialsIn(ls[..|ls| - 1]);
    }
  }

  lemma NoneOrOneLighter(known: set<(DeviceId, DeviceId)>, item: Item, order: seq<DeviceId>)
    requires Learns(item) <= known && !item.FullRep?
    ensures Lighter(Total(known, Becomes(known, item, order)), LoadOf(known, item))
  {
    var after := Becomes(known, item, order);
    if after == [] {
      assert Loads(known, after) == [];
    } else {
      assert after == [after[0]];
      TotalOne(known, after[0]);
    }
  }

  /** When it teaches nothing new, what an item turns into weighs less than the item. */
  lemma BecomesLighter(known: set<(DeviceId, DeviceId)>, item: Item, order: seq<DeviceId>)
    requires Learns(item) <= known
    ensures Lighter(Total(known, Becomes(known, item, order)), LoadOf(known, item))
  {
    if item.FullRep? {
      assert (item.d, item.s) in known;
      NoDialsIn(Loads(known, Becomes(known, item, order)));
    } else {
      NoneOrOneLighter(known, item, order);
    }
  }

  lemma LearningShrinksUnknown(nodes: set<DeviceId>, known: set<(DeviceId, DeviceId)>, p: (DeviceId, DeviceId))
    requires p in Pairs(nodes) && p !in known
    ensures |Pairs(nodes) - (known + {p})| < |Pairs(nodes) - known|
  {
    assert Pairs(nodes) - known == (Pairs(nodes) - (known + {p})) + {p};
  }

  lemma HandlingShrinks(s: State, i: nat, order: seq<DeviceId>)
    requires Valid(s) && Possible(s, Handle(i, order))
    ensures Smaller(Step(s, Handle(i, order)), s)
  {
    var item := s.items[i];
    assert Among(s.nodes, item);
    if Learns(item) <= s.known {
      assert s.known + Learns(item) == s.known;
      BecomesLighter(s.known, item, order);
      TotalWithout(s.known, s.items, i);
      TotalConcat(s.known, Without(s.items, i), Becomes(s.known, item, order));
    } else {
      var p :| p in Learns(item) && p !in s.known;
      assert Learns(item) == {p};
      LearningShrinksUnknown(s.nodes, s.known, p);
    }
  }

  /** Every step, failures included, shrinks the measure. */
  lemma StepShrinks(s: State, c: Choice)
    requires Valid(s) && Possible(s, c)
    ensures Smaller(Step(s, c), s)
  {
    match c {
      case UserDial(_, _) =>
      case Fail(i) => TotalWithout(s.known, s.items, i);
      case Handle(i, order) => HandlingShrinks(s, i, order);
    }
  }

  // ---------------------------------------------------------------------------
  // Every schedule settles
  // ---------------------------------------------------------------------------

  /** A schedule goes on while anything is possible. */
  ghost predicate Follows(run: nat -> State, i: nat) {
    Next(run(i), run(i + 1)) || (Quiet(run(i)) && run(i + 1) == run(i))
  }

  /** Only quiet states have no next one. */
  lemma StuckIffQuiet(s: State)
    requires Valid(s) && s.nodes != {}
    ensures Quiet(s) <==> !exists s' :: Next(s, s')
  {
    if s.items != [] {
      assert Possible(s, Fail(0));
      assert Next(s, Step(s, Fail(0)));
    } else if 0 < s.dials {
      var d :| d in s.nodes;
      assert Possible(s, UserDial(d, d));
      assert Next(s, Step(s, UserDial(d, d)));
    }
  }

  lemma {:induction false} SomeOrder(all: set<DeviceId>) returns (order: seq<DeviceId>)
    ensures Lists(order, all)
  {
    if all == {} {
      order := [];
    } else {
      var x :| x in all;
      var rest := SomeOrder(all - {x});
      order := rest + [x];
      assert forall i | 0 <= i < |rest| :: rest[i] in rest;
      assert forall y :: y in order <==> y in rest || y == x;
    }
  }

  /** Whatever is under way can be taken up, so there are schedules without failures. */
  lemma WorkIsPossible(s: State, i: nat) returns (order: seq<DeviceId>)
    requires i < |s.items|
    ensures Possible(s, Handle(i, order))
  {
    order := SomeOrder(Listed(s.known + Learns(s.items[i]), s.items[i]));
  }

  lemma {:induction false} QuietComes(run: nat -> State, i: nat) returns (j: nat)
    requires Valid(run(i)) && forall k | i <= k :: Follows(run, k)
    ensures i <= j && Quiet(run(j)) && Valid(run(j))
    decreases run(i).dials, Unknown(run(i)), Total(run(i).known, run(i).items).dials,
              Total(run(i).known, run(i).items).announces, Total(run(i).known, run(i).items).rest
  {
    j := i;
    assert Follows(run, i);
    if !Quiet(run(i)) {
      var c :| Possible(run(i), c) && run(i + 1) == Step(run(i), c);
      StepKeepsValid(run(i), c);
      StepShrinks(run(i), c);
      j := QuietComes(run, i + 1);
    }
  }

  lemma {:induction false} QuietStays(run: nat -> State, j: nat, k: nat)
    requires Quiet(run(j)) && j <= k && forall l | j <= l :: Follows(run, l)
    ensures run(k) == run(j)
    decreases k
  {
    if j < k {
      QuietStays(run, j, k - 1);
      assert Follows(run, k - 1);
    }
  }

  /** Over any finite set of nodes without removals, after finitely many user dials every schedule of dials, stub
      dials, announces and failures reaches a state where nothing is under way, and stays there. */
  lemma EveryScheduleSettles(run: nat -> State)
    requires Valid(run(0)) && forall i :: Follows(run, i)
    ensures exists j: nat :: Quiet(run(j)) && forall k | j <= k :: run(k) == run(j)
  {
    var j := QuietComes(run, 0);
    forall k | j <= k ensures run(k) == run(j) {
      QuietStays(run, j, k);
    }
  }
}
