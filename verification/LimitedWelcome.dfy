/** A member of a full mesh dials a fresh node whose handshake limiter counts: nothing is lost, all happens within
    one window, and only the size of the mesh decides whether it completes. */
module LimitedWelcome {
  import opened Peers
  import opened Gossip
  import opened Newcomer
  import opened Welcome
  import RateLimit

  /** The network, and the devices the newcomer's limiter has admitted so far. */
  datatype Limited = Limited(net: State, log: seq<DeviceId>)

  function Times(log: seq<DeviceId>, d: DeviceId): nat { multiset(log)[d] }

  predicate Admits(log: seq<DeviceId>, d: DeviceId) {
    Times(log, d) < RateLimit.MAX_PER_PAIR_IN_WINDOW && |log| < RateLimit.MAX_GLOBAL_IN_WINDOW
  }

  /** A handshake that the newcomer serves. */
  predicate Limits(w: Scene, item: Item) { (item.FullReq? || item.StubReq?) && item.s == w.c }

  /** Taking up an item; a handshake over the limit is refused, and nobody tries it again. */
  function Take(w: Scene, l: Limited, k: nat, order: seq<DeviceId>): Limited
    requires k < |l.net.items|
  {
    var item := l.net.items[k];
    if !Limits(w, item) then l.(net := Step(l.net, Handle(k, order)))
    else if Admits(l.log, item.d) then Limited(Step(l.net, Handle(k, order)), l.log + [item.d])
    else l.(net := Step(l.net, Fail(k)))
  }

  ghost predicate Moves(w: Scene, l: Limited, l': Limited) {
    exists k, order :: Possible(l.net, Handle(k, order)) && l' == Take(w, l, k, order)
  }

  ghost predicate Path(w: Scene, path: seq<Limited>) {
    path != [] && forall i | 0 <= i < |path| - 1 :: Moves(w, path[i], path[i + 1])
  }

  ghost predicate Arrives(w: Scene, l: Limited, l': Limited) {
    exists path :: Path(w, path) && path[0] == l && path[|path| - 1] == l'
  }

  function DialledFresh(w: Scene): Limited { Limited(Dialled(w), []) }

  /** The state some schedule comes to rest in. */
  ghost predicate Ends(w: Scene, l: Limited) { Arrives(w, DialledFresh(w), l) && Quiet(l.net) }

  predicate Complete(w: Scene, l: Limited) { l.net.known == Mesh(w.members + {w.c}) }

  // ---------------------------------------------------------------------------
  // The limiter within one window
  // ---------------------------------------------------------------------------

  function Devices(log: RateLimit.Log): (ds: seq<DeviceId>)
    ensures |ds| == |log|
  {
    seq(|log|, i requires 0 <= i < |log| => log[i].pair.device)
  }

  /** Every admission is of the window that ends now, and every device dials from one address. */
  predicate OneWindow(log: RateLimit.Log, now: nat, addressOf: DeviceId -> RateLimit.Ip) {
    forall i | 0 <= i < |log| :: now < log[i].at + RateLimit.WINDOW && log[i].pair.ip == addressOf(log[i].pair.device)
  }

  lemma {:induction false} FreshAreAll(log: RateLimit.Log, now: nat, addressOf: DeviceId -> RateLimit.Ip, d: DeviceId)
    requires OneWindow(log, now, addressOf)
    ensures RateLimit.Fresh(RateLimit.AllTimes(log), now) == |log|
    ensures RateLimit.Fresh(RateLimit.PairTimes(log, RateLimit.Pair(addressOf(d), d)), now) == Times(Devices(log), d)
  {
    if log != [] {
      var init, last := log[..|log| - 1], log[|log| - 1];
      FreshAreAll(init, now, addressOf, d);
      assert Devices(log) == Devices(init) + [last.pair.device];
    }
  }

  /** Within one window the limiter decides as `Admits` does. */
  lemma LimiterAdmits(log: RateLimit.Log, now: nat, addressOf: DeviceId -> RateLimit.Ip, d: DeviceId)
    requires OneWindow(log, now, addressOf)
    ensures RateLimit.Admits(log, now, RateLimit.Pair(addressOf(d), d)) <==> Admits(Devices(log), d)
  {
    FreshAreAll(log, now, addressOf, d);
  }

  // ---------------------------------------------------------------------------
  // What every schedule keeps
  // ---------------------------------------------------------------------------

  /** An answer to the member is under way. */
  predicate Replies(items: seq<Item>, x: DeviceId) { exists i :: 0 <= i < |items| && items[i].FullRep? && items[i].d == x }

  /** Once the first dial has completed: exactly the admitted members are known to the newcomer, and each of them
      knows it too or is about to. */
  ghost predicate Ongoing(w: Scene, l: Limited) {
    && Orderly(w, l.net) && l.net.dials == 0 && |l.log| <= RateLimit.MAX_GLOBAL_IN_WINDOW
    && (forall x | x in l.log :: x in w.members && (Joined(w, l.net.known, x) || Replies(l.net.items, x)))
    && (forall x | x in w.members && (w.c, x) in l.net.known :: x in l.log)
  }

  lemma StillReplies(items: seq<Item>, k: nat, more: seq<Item>, x: DeviceId)
    requires k < |items| && Replies(items, x) && !(items[k].FullRep? && items[k].d == x)
    ensures Replies(Without(items, k) + more, x)
  {
    var j :| 0 <= j < |items| && items[j].FullRep? && items[j].d == x;
    ItemAfter(items, k, more, j);
  }

  /** A refused handshake is only dropped. */
  lemma RefusalStaysOrderly(w: Scene, s: State, k: nat)
    requires Orderly(w, s) && k < |s.items|
    ensures Orderly(w, Step(s, Fail(k)))
  {
    var rest := Without(s.items, k);
    assert rest + [] == rest;
    forall i | 0 <= i < |rest| ensures IsWelcome(w, s.known, rest[i]) {
      ItemBefore(s.items, k, [], i);
    }
  }

  // What a step does, kind by kind --------------------------------------------------------------------------------

  /** What an announce of the newcomer makes a member do. */
  function Dials(w: Scene, l: Limited, t: DeviceId): seq<Item> { if (t, w.c) in l.net.known then [] else [FullReq(t, w.c)] }

  lemma TakesAnnounce(w: Scene, l: Limited, k: nat, order: seq<DeviceId>)
    requires Fits(w) && Ongoing(w, l) && k < |l.net.items| && l.net.items[k].Announce?
    ensures l.net.items[k].to in w.members
    ensures Take(w, l, k, order) == l.(net := l.net.(items := Without(l.net.items, k) + Dials(w, l, l.net.items[k].to)))
  {
    assert IsWelcome(w, l.net.known, l.net.items[k]);
    assert l.net.known + {} == l.net.known;
  }

  function Served(w: Scene, l: Limited, k: nat, order: seq<DeviceId>): Limited
    requires k < |l.net.items| && l.net.items[k].FullReq?
  {
    var d := l.net.items[k].d;
    Limited(l.net.(known := l.net.known + {(w.c, d)}, items := Without(l.net.items, k) + [FullRep(d, w.c, order)]), l.log + [d])
  }

  lemma TakesRequest(w: Scene, l: Limited, k: nat, order: seq<DeviceId>)
    requires Fits(w) && Ongoing(w, l) && k < |l.net.items| && l.net.items[k].FullReq?
    ensures l.net.items[k].s == w.c && l.net.items[k].d in w.members
    ensures Take(w, l, k, order)
      == if Admits(l.log, l.net.items[k].d) then Served(w, l, k, order) else l.(net := l.net.(items := Without(l.net.items, k) + []))
  {
    assert IsWelcome(w, l.net.known, l.net.items[k]);
    assert Without(l.net.items, k) + [] == Without(l.net.items, k);
  }

  function Completed(w: Scene, l: Limited, k: nat, order: seq<DeviceId>): Limited
    requires k < |l.net.items| && l.net.items[k].FullRep?
  {
    var d := l.net.items[k].d;
    l.(net := l.net.(known := l.net.known + {(d, w.c)}, items := Without(l.net.items, k) + Announces(d, w.c, order)))
  }

  lemma TakesReply(w: Scene, l: Limited, k: nat, order: seq<DeviceId>)
    requires Fits(w) && Ongoing(w, l) && Possible(l.net, Handle(k, order)) && l.net.items[k].FullRep?
    ensures l.net.items[k].d in w.members && Take(w, l, k, order) == Completed(w, l, k, order)
    ensures forall x :: x in order <==> x in w.members && x != l.net.items[k].d
  {
    var item := l.net.items[k];
    assert IsWelcome(w, l.net.known, item);
    CompletedDial(w, l.net.known + {(item.d, w.c)}, item.d, item.stubs, order);
  }

  lemma StaysAnswered(w: Scene, l: Limited, k: nat, order: seq<DeviceId>, x: DeviceId)
    requires Fits(w) && Ongoing(w, l) && Possible(l.net, Handle(k, order)) && x in Take(w, l, k, order).log
    ensures var l' := Take(w, l, k, order); x in w.members && (Joined(w, l'.net.known, x) || Replies(l'.net.items, x))
  {
    var item, l' := l.net.items[k], Take(w, l, k, order);
    assert IsWelcome(w, l.net.known, item);
    if item.FullReq? && Admits(l.log, item.d) && x == item.d {
      TakesRequest(w, l, k, order);
      assert l'.net.items[|l.net.items| - 1] == FullRep(x, w.c, order);
    } else if !Joined(w, l.net.known, x) && !(item.FullRep? && item.d == x) {
      StillReplies(l.net.items, k, [], x);
      assert Without(l.net.items, k) + [] == Without(l.net.items, k);
      StillReplies(l.net.items, k, Becomes(l.net.known + Learns(item), item, order), x);
    }
  }

  /** What every step keeps, whether it is a refusal or not. */
  lemma StaysOngoing(w: Scene, l: Limited, k: nat, order: seq<DeviceId>)
    requires Fits(w) && Ongoing(w, l) && Possible(l.net, Handle(k, order))
    ensures Ongoing(w, Take(w, l, k, order))
  {
    var item, l' := l.net.items[k], Take(w, l, k, order);
    assert IsWelcome(w, l.net.known, item);
    if item.FullReq? && !Admits(l.log, item.d) {
      RefusalStaysOrderly(w, l.net, k);
    } else {
      StaysOrderly(w, l.net, k, order);
    }
    forall x | x in l'.log ensures x in w.members && (Joined(w, l'.net.known, x) || Replies(l'.net.items, x)) {
      StaysAnswered(w, l, k, order, x);
    }
  }

  /** Whoever was admitted once is brought together with the newcomer, and nobody else is. */
  lemma QuietIsCompleteIffAllAdmitted(w: Scene, l: Limited)
    requires Fits(w) && Ongoing(w, l) && Quiet(l.net)
    ensures Complete(w, l) <==> forall x | x in w.members :: x in l.log
  {
    if forall x | x in w.members :: x in l.log {
      forall p | p in Mesh(w.members + {w.c}) ensures p in l.net.known {
        if p.0 == w.c || p.1 == w.c {
          var x := if p.0 == w.c then p.1 else p.0;
          assert x in l.log;
        } else {
          assert p in Mesh(w.members);
        }
      }
    } else {
      var x :| x in w.members && x !in l.log;
      assert (w.c, x) in Mesh(w.members + {w.c});
    }
  }

  // ---------------------------------------------------------------------------
  // The first dial
  // ---------------------------------------------------------------------------

  /** The server of the announces has completed its dial, and it is the only one admitted. */
  ghost predicate Begun(w: Scene, l: Limited) {
    && Ongoing(w, l) && l.log == [w.b] && l.net.known == Mesh(w.members) + Mutual(w.c, {w.b})
    && exists order :: l.net.items == Announces(w.b, w.c, order) && Lists(order, Others(w))
  }

  lemma FirstDialBegins(w: Scene, l: Limited, k: nat, order: seq<DeviceId>)
    requires Fits(w) && Greeted(w, l.net) && l.net.dials == 0 && l.log == [w.b] && Possible(l.net, Handle(k, order))
    ensures Begun(w, Take(w, l, k, order))
  {
    var l' := Take(w, l, k, order);
    OnlyOne(w, l.net, FullRep(w.b, w.c, []), k, order);
    FirstDialCompletes(w, l.net, k, order);
    var known := l.net.known + {(w.b, w.c)};
    assert known == Mesh(w.members) + Mutual(w.c, {w.b});
    CompletedDial(w, known, w.b, [], order);
    assert l'.net.items == Announces(w.b, w.c, order);
    assert PeersOf(known, w.b) - {w.c} == Others(w);
  }

  lemma FirstDialServed(w: Scene, k: nat, order: seq<DeviceId>)
    requires Fits(w) && Possible(Dialled(w), Handle(k, order))
    ensures var l := Take(w, DialledFresh(w), k, order); Greeted(w, l.net) && l.net.dials == 0 && l.log == [w.b]
  {
    OnlyOne(w, Dialled(w), FullReq(w.b, w.c), k, order);
    NewcomerAnswers(w, Dialled(w), k, order);
  }

  // ---------------------------------------------------------------------------
  // At most four others: every member is admitted in time
  // ---------------------------------------------------------------------------

  /** The member that will make, or has made, the dial the item stands for. */
  function DiallerOf(item: Item): DeviceId { if item.Announce? then item.to else item.d }

  /** A dial of the member is still to be served. */
  predicate Asks(items: seq<Item>, x: DeviceId) {
    exists i :: 0 <= i < |items| && (items[i].Announce? || items[i].FullReq?) && DiallerOf(items[i]) == x
  }

  /** The member was admitted once, has completed that dial, and will not dial again. */
  predicate Through(w: Scene, l: Limited, f: DeviceId) {
    (f, w.c) in l.net.known && Times(l.log, f) == 1 && FullReq(f, w.c) !in l.net.items
  }

  /** Nobody but the server of the announces has completed a dial: each of the others works on one, its first. */
  ghost predicate Early(w: Scene, l: Limited) {
    && (forall x | x in Others(w) :: (x, w.c) !in l.net.known && Times(l.log, x) <= 1)
    && (forall i | 0 <= i < |l.net.items| :: DiallerOf(l.net.items[i]) in Others(w))
    && (forall i, j | 0 <= i < j < |l.net.items| :: DiallerOf(l.net.items[i]) != DiallerOf(l.net.items[j]))
    && (forall i | 0 <= i < |l.net.items| && !l.net.items[i].FullRep? :: DiallerOf(l.net.items[i]) !in l.log)
  }

  ghost predicate OneThrough(w: Scene, l: Limited) { exists f :: f in Others(w) && Through(w, l, f) }

  ghost predicate Paced(w: Scene, l: Limited) {
    && Ongoing(w, l) && Through(w, l, w.b) && (Early(w, l) || OneThrough(w, l))
    && (forall x | x in l.log :: Times(l.log, x) <= RateLimit.MAX_PER_PAIR_IN_WINDOW)
    && (forall x | x in w.members && x !in l.log :: Asks(l.net.items, x))
  }

  lemma {:induction false} SizeWithin(m: multiset<DeviceId>, ids: set<DeviceId>, cap: nat)
    requires forall x | x in m :: x in ids && m[x] <= cap
    ensures |m| <= cap * |ids|
    decreases |ids|
  {
    if ids == {} {
      assert m == multiset{};
    } else {
      var x :| x in ids;
      SizeWithin(m[x := 0], ids - {x}, cap);
      assert |ids| == |ids - {x}| + 1;
      assert cap * |ids| == cap * |ids - {x}| + cap;
    }
  }

  lemma MembersLeft(w: Scene, x: DeviceId)
    requires Fits(w) && x in w.members
    ensures |w.members - {x}| == |Others(w)|
  {
    assert w.members == (w.members - {x}) + {x} && w.members == Others(w) + {w.b};
  }

  lemma OthersLeft(w: Scene, f: DeviceId, x: DeviceId)
    requires Fits(w) && x in Others(w) && f in Others(w) && f != x
    ensures |w.members - {w.b, f, x}| == |Others(w)| - 2
  {
    assert Others(w) == (w.members - {w.b, f, x}) + {f, x} && |{f, x}| == 2;
  }

  /** A member that has not been admitted yet finds room: the server of the announces has used one of the ten
      admissions, the first other member to complete its dial one, and two more at most three each. */
  lemma RoomForTheNext(w: Scene, l: Limited, x: DeviceId)
    requires Fits(w) && |Others(w)| <= 4 && Paced(w, l) && x in w.members && x !in l.log
    ensures Admits(l.log, x)
  {
    var m := multiset(l.log);
    assert forall y :: y in m <==> y in l.log;
    if Early(w, l) {
      MembersLeft(w, x);
      SizeWithin(m, w.members - {x}, 1);
    } else {
      var f :| f in Others(w) && Through(w, l, f);
      OthersLeft(w, f, x);
      var rest := m[w.b := 0][f := 0];
      SizeWithin(rest, w.members - {w.b, f, x}, 3);
      assert |m| == |rest| + 2;
    }
  }

  lemma StillAsks(items: seq<Item>, k: nat, more: seq<Item>, x: DeviceId)
    requires k < |items| && Asks(items, x) && DiallerOf(items[k]) != x
    ensures Asks(Without(items, k) + more, x)
  {
    var j :| 0 <= j < |items| && (items[j].Announce? || items[j].FullReq?) && DiallerOf(items[j]) == x;
    ItemAfter(items, k, more, j);
  }

  lemma StaysThrough(w: Scene, l: Limited, k: nat, order: seq<DeviceId>, f: DeviceId)
    requires Fits(w) && Ongoing(w, l) && Possible(l.net, Handle(k, order)) && Through(w, l, f)
    ensures Through(w, Take(w, l, k, order), f)
  {
    var item, l' := l.net.items[k], Take(w, l, k, order);
    assert IsWelcome(w, l.net.known, item) && item in l.net.items;
    if item.Announce? {
      TakesAnnounce(w, l, k, order);
    } else if item.FullReq? {
      TakesRequest(w, l, k, order);
    } else {
      TakesReply(w, l, k, order);
    }
    assert forall x | x in Without(l.net.items, k) :: x in l.net.items;
  }

  lemma AnnounceStaysEarly(w: Scene, l: Limited, k: nat, order: seq<DeviceId>)
    requires Fits(w) && Ongoing(w, l) && k < |l.net.items| && Early(w, l) && l.net.items[k].Announce?
    ensures Early(w, Take(w, l, k, order))
  {
    TakesAnnounce(w, l, k, order);
  }

  lemma RequestStaysEarly(w: Scene, l: Limited, k: nat, order: seq<DeviceId>)
    requires Fits(w) && Ongoing(w, l) && k < |l.net.items| && Early(w, l) && l.net.items[k].FullReq?
    ensures Early(w, Take(w, l, k, order))
  {
    var d := l.net.items[k].d;
    TakesRequest(w, l, k, order);
    if Admits(l.log, d) {
      DiallersStayApart(l.net.items, k, FullRep(d, w.c, order));
    }
  }

  /** An item replaced by one of the same dialler. */
  lemma DiallersStayApart(items: seq<Item>, k: nat, more: Item)
    requires k < |items| && DiallerOf(more) == DiallerOf(items[k])
    requires forall i, j | 0 <= i < j < |items| :: DiallerOf(items[i]) != DiallerOf(items[j])
    ensures var after := Without(items, k) + [more];
      forall i, j | 0 <= i < j < |after| :: DiallerOf(after[i]) != DiallerOf(after[j])
  {
  }

  /** The first of the others to complete its dial has no second one under way. */
  lemma FirstIsThrough(w: Scene, l: Limited, k: nat, order: seq<DeviceId>)
    requires Fits(w) && Ongoing(w, l) && Possible(l.net, Handle(k, order)) && Early(w, l) && l.net.items[k].FullRep?
    ensures Through(w, Take(w, l, k, order), l.net.items[k].d)
  {
    TakesReply(w, l, k, order);
    assert IsWelcome(w, l.net.known, l.net.items[k]);
  }

  lemma StillAsked(w: Scene, l: Limited, k: nat, order: seq<DeviceId>, x: DeviceId)
    requires Fits(w) && |Others(w)| <= 4 && Paced(w, l) && Possible(l.net, Handle(k, order))
    requires x in w.members && x !in Take(w, l, k, order).log
    ensures Asks(Take(w, l, k, order).net.items, x)
  {
    var item, l' := l.net.items[k], Take(w, l, k, order);
    assert IsWelcome(w, l.net.known, item);
    if item.Announce? {
      TakesAnnounce(w, l, k, order);
      if item.to == x {
        assert l'.net.items[|l.net.items| - 1] == FullReq(x, w.c);
      } else {
        StillAsks(l.net.items, k, Dials(w, l, item.to), x);
      }
    } else if item.FullReq? {
      TakesRequest(w, l, k, order);
      RoomForTheNext(w, l, x);
      StillAsks(l.net.items, k, if Admits(l.log, item.d) then [FullRep(item.d, w.c, order)] else [], x);
    } else {
      TakesReply(w, l, k, order);
      assert item.d in l.log;
      StillAsks(l.net.items, k, Announces(item.d, w.c, order), x);
    }
  }

  lemma StaysEarlyOrThrough(w: Scene, l: Limited, k: nat, order: seq<DeviceId>)
    requires Fits(w) && Ongoing(w, l) && Possible(l.net, Handle(k, order)) && (Early(w, l) || OneThrough(w, l))
    ensures Early(w, Take(w, l, k, order)) || OneThrough(w, Take(w, l, k, order))
  {
    if f :| f in Others(w) && Through(w, l, f) {
      StaysThrough(w, l, k, order, f);
    } else if l.net.items[k].FullRep? {
      FirstIsThrough(w, l, k, order);
    } else if l.net.items[k].Announce? {
      AnnounceStaysEarly(w, l, k, order);
    } else {
      assert IsWelcome(w, l.net.known, l.net.items[k]);
      RequestStaysEarly(w, l, k, order);
    }
  }

  lemma StaysPaced(w: Scene, l: Limited, k: nat, order: seq<DeviceId>)
    requires Fits(w) && |Others(w)| <= 4 && Paced(w, l) && Possible(l.net, Handle(k, order))
    ensures Paced(w, Take(w, l, k, order))
  {
    StaysOngoing(w, l, k, order);
    StaysThrough(w, l, k, order, w.b);
    StaysEarlyOrThrough(w, l, k, order);
    forall x | x in w.members && x !in Take(w, l, k, order).log ensures Asks(Take(w, l, k, order).net.items, x) {
      StillAsked(w, l, k, order, x);
    }
  }

  lemma BegunIsPaced(w: Scene, l: Limited)
    requires Fits(w) && Begun(w, l)
    ensures Paced(w, l)
  {
    var order :| l.net.items == Announces(w.b, w.c, order) && Lists(order, Others(w));
    assert forall i | 0 <= i < |order| :: order[i] in order;
    forall x | x in Others(w) ensures Asks(l.net.items, x) {
      var i :| 0 <= i < |order| && order[i] == x;
      assert l.net.items[i] == Announce(w.b, x, w.c);
    }
    assert Early(w, l);
  }

  // ---------------------------------------------------------------------------
  // Putting schedules together
  // ---------------------------------------------------------------------------

  lemma Onward(w: Scene, l: Limited, l1: Limited, l2: Limited)
    requires Arrives(w, l, l1) && Arrives(w, l1, l2)
    ensures Arrives(w, l, l2)
  {
    var p :| Path(w, p) && p[0] == l && p[|p| - 1] == l1;
    var q :| Path(w, q) && q[0] == l1 && q[|q| - 1] == l2;
    var path := p + q[1..];
    forall i | 0 <= i < |path| - 1 ensures Moves(w, path[i], path[i + 1]) {
      if i < |p| - 1 {
        assert Moves(w, p[i], p[i + 1]);
      } else {
        assert Moves(w, q[i - |p| + 1], q[i - |p| + 2]);
      }
    }
    assert Path(w, path) && path[|path| - 1] == l2;
  }

  lemma Here(w: Scene, l: Limited)
    ensures Arrives(w, l, l)
  {
    assert Path(w, [l]);
  }

  lemma TakeUp(w: Scene, l: Limited, k: nat) returns (l': Limited, order: seq<DeviceId>)
    requires Fits(w) && k < |l.net.items|
    ensures Possible(l.net, Handle(k, order)) && l' == Take(w, l, k, order) && Arrives(w, l, l')
    ensures Ongoing(w, l) ==> Ongoing(w, l')
    ensures Valid(l.net) ==> Valid(l'.net)
  {
    order := WorkIsPossible(l.net, k);
    l' := Take(w, l, k, order);
    assert Moves(w, l, l');
    assert Path(w, [l, l']);
    TakingKeepsValid(w, l, k, order);
    if Ongoing(w, l) {
      StaysOngoing(w, l, k, order);
    }
  }

  lemma TakingKeepsValid(w: Scene, l: Limited, k: nat, order: seq<DeviceId>)
    requires Possible(l.net, Handle(k, order))
    ensures Valid(l.net) ==> Valid(Take(w, l, k, order).net) && Smaller(Take(w, l, k, order).net, l.net)
  {
    if Valid(l.net) {
      StepKeepsValid(l.net, Handle(k, order));
      StepKeepsValid(l.net, Fail(k));
      StepShrinks(l.net, Handle(k, order));
      StepShrinks(l.net, Fail(k));
    }
  }

  /** Any schedule, continued at will, comes to rest; whom the newcomer has admitted, it has admitted. */
  lemma {:induction false} Rest(w: Scene, l: Limited) returns (end: Limited)
    requires Fits(w) && Ongoing(w, l) && Valid(l.net)
    ensures Arrives(w, l, end) && Quiet(end.net) && Ongoing(w, end) && l.log <= end.log
    decreases l.net.dials, Unknown(l.net), Total(l.net.known, l.net.items).dials, Total(l.net.known, l.net.items).announces,
              Total(l.net.known, l.net.items).rest
  {
    end := l;
    Here(w, l);
    if !Quiet(l.net) {
      var l', order := TakeUp(w, l, 0);
      TakingKeepsValid(w, l, 0, order);
      end := Rest(w, l');
      Onward(w, l, l', end);
    }
  }

  lemma Begin(w: Scene) returns (l: Limited)
    requires Fits(w)
    ensures Arrives(w, DialledFresh(w), l) && Begun(w, l) && Valid(l.net)
  {
    var l1, order1 := TakeUp(w, DialledFresh(w), 0);
    FirstDialServed(w, 0, order1);
    var order;
    l, order := TakeUp(w, l1, 0);
    FirstDialBegins(w, l1, 0, order);
    Onward(w, DialledFresh(w), l1, l);
  }

  /** All announces but the one of `o` to `y` are still under way. */
  ghost predicate Spares(w: Scene, l: Limited, l': Limited, o: DeviceId, y: DeviceId) {
    forall p, z | (p != o || z != y) && Announce(p, z, w.c) in l.net.items :: Announce(p, z, w.c) in l'.net.items
  }

  /** The same members know the newcomer. */
  ghost predicate SameDiallers(w: Scene, l: Limited, l': Limited) {
    forall x :: (x, w.c) in l'.net.known <==> (x, w.c) in l.net.known
  }

  /** Another member hears an announce and is admitted; it has yet to get its answer. */
  lemma AdmitOne(w: Scene, l: Limited, o: DeviceId, y: DeviceId) returns (l': Limited)
    requires Fits(w) && Ongoing(w, l) && Valid(l.net) && Announce(o, y, w.c) in l.net.items && (y, w.c) !in l.net.known && Admits(l.log, y)
    ensures Arrives(w, l, l') && Ongoing(w, l') && Valid(l'.net) && l'.log == l.log + [y] && Replies(l'.net.items, y)
    ensures Spares(w, l, l', o, y) && SameDiallers(w, l, l')
  {
    var k: nat :| k < |l.net.items| && l.net.items[k] == Announce(o, y, w.c);
    var l1, order1 := TakeUp(w, l, k);
    TakesAnnounce(w, l, k, order1);
    var k1 := |l.net.items| - 1;
    assert l1.net.items[k1] == FullReq(y, w.c) && Without(l1.net.items, k1) == Without(l.net.items, k);
    var order;
    l', order := TakeUp(w, l1, k1);
    TakesRequest(w, l1, k1, order);
    assert l'.net.items[k1] == FullRep(y, w.c, order);
    Onward(w, l, l1, l');
    forall p, z | (p != o || z != y) && Announce(p, z, w.c) in l.net.items ensures Announce(p, z, w.c) in l'.net.items {
      StaysUnderWay(l.net.items, k, [FullRep(y, w.c, order)], Announce(p, z, w.c));
    }
  }

  /** A member gets its answer, and announces the newcomer to all others. */
  lemma CompleteOne(w: Scene, l: Limited, y: DeviceId) returns (l': Limited)
    requires Fits(w) && Ongoing(w, l) && Valid(l.net) && Replies(l.net.items, y)
    ensures Arrives(w, l, l') && Ongoing(w, l') && Valid(l'.net) && l'.log == l.log
    ensures Spares(w, l, l', w.c, w.c) && l'.net.known == l.net.known + {(y, w.c)}
    ensures forall z | z in w.members && z != y :: Announce(y, z, w.c) in l'.net.items
  {
    var k: nat :| k < |l.net.items| && l.net.items[k].FullRep? && l.net.items[k].d == y;
    var order;
    l', order := TakeUp(w, l, k);
    TakesReply(w, l, k, order);
    forall z | z in w.members && z != y ensures Announce(y, z, w.c) in l'.net.items {
      var i :| 0 <= i < |order| && order[i] == z;
      assert l'.net.items[|l.net.items| - 1 + i] == Announce(y, z, w.c);
    }
    forall p, z | Announce(p, z, w.c) in l.net.items ensures Announce(p, z, w.c) in l'.net.items {
      StaysUnderWay(l.net.items, k, Announces(y, w.c, order), Announce(p, z, w.c));
    }
  }

  // ---------------------------------------------------------------------------
  // At least five others: a schedule that leaves one out
  // ---------------------------------------------------------------------------

  /** The announces to all others but `y` are still under way, and all others but `y` know the newcomer as before. */
  ghost predicate SparesOthers(w: Scene, l: Limited, l': Limited, y: DeviceId) {
    && (forall p, z | z != y && Announce(p, z, w.c) in l.net.items :: Announce(p, z, w.c) in l'.net.items)
    && (forall x | x != y :: (x, w.c) in l'.net.known <==> (x, w.c) in l.net.known)
  }

  /** The announces of `o` to `zs` are under way. */
  ghost predicate Announced(w: Scene, l: Limited, o: DeviceId, zs: set<DeviceId>) {
    forall z | z in zs :: Announce(o, z, w.c) in l.net.items
  }

  ghost predicate AllNew(w: Scene, l: Limited, zs: set<DeviceId>) {
    forall z | z in zs :: (z, w.c) !in l.net.known && z !in l.log && z in w.members
  }

  /** A member that has heard of the newcomer from two others before its dial completes dials twice. */
  lemma AdmitTwo(w: Scene, l: Limited, o1: DeviceId, o2: DeviceId, y: DeviceId) returns (l': Limited)
    requires Fits(w) && Ongoing(w, l) && Valid(l.net) && o1 != o2 && (y, w.c) !in l.net.known && y !in l.log && |l.log| <= 8
    requires Announce(o1, y, w.c) in l.net.items && Announce(o2, y, w.c) in l.net.items
    ensures Arrives(w, l, l') && Ongoing(w, l') && Valid(l'.net) && l'.log == l.log + [y, y] && Replies(l'.net.items, y)
    ensures SparesOthers(w, l, l', y) && SameDiallers(w, l, l')
    ensures forall p | p != o1 && p != o2 && Announce(p, y, w.c) in l.net.items :: Announce(p, y, w.c) in l'.net.items
  {
    var l1 := AdmitOne(w, l, o1, y);
    l' := AdmitOne(w, l1, o2, y);
    Onward(w, l, l1, l');
  }

  lemma AdmitThree(w: Scene, l: Limited, o1: DeviceId, o2: DeviceId, o3: DeviceId, y: DeviceId) returns (l': Limited)
    requires Fits(w) && Ongoing(w, l) && Valid(l.net) && o1 != o2 && o1 != o3 && o2 != o3
    requires (y, w.c) !in l.net.known && y !in l.log && |l.log| <= 7
    requires Announce(o1, y, w.c) in l.net.items && Announce(o2, y, w.c) in l.net.items && Announce(o3, y, w.c) in l.net.items
    ensures Arrives(w, l, l') && Ongoing(w, l') && Valid(l'.net) && l'.log == l.log + [y, y, y] && SparesOthers(w, l, l', y)
  {
    var l1 := AdmitTwo(w, l, o1, o2, y);
    l' := AdmitOne(w, l1, o3, y);
    Onward(w, l, l1, l');
  }

  /** The first of the others dials once, and completes. */
  lemma FirstCompletes(w: Scene, l: Limited, y: DeviceId, zs: set<DeviceId>) returns (l': Limited)
    requires Fits(w) && Begun(w, l) && Valid(l.net) && y in Others(w) && zs <= Others(w) - {y}
    ensures Arrives(w, l, l') && Ongoing(w, l') && Valid(l'.net) && l'.log == [w.b, y] && AllNew(w, l', zs)
    ensures Announced(w, l', w.b, zs) && Announced(w, l', y, zs)
  {
    BegunAnnounces(w, l);
    var l1 := AdmitOne(w, l, w.b, y);
    l' := CompleteOne(w, l1, y);
    Onward(w, l, l1, l');
  }

  /** The second dials twice, and completes. */
  lemma SecondCompletes(w: Scene, l: Limited, y1: DeviceId, y2: DeviceId, zs: set<DeviceId>) returns (l': Limited)
    requires Fits(w) && Ongoing(w, l) && Valid(l.net) && y1 != w.b && y2 !in zs && |l.log| <= 8 && AllNew(w, l, {y2} + zs)
    requires Announced(w, l, w.b, {y2} + zs) && Announced(w, l, y1, {y2} + zs)
    ensures Arrives(w, l, l') && Ongoing(w, l') && Valid(l'.net) && l'.log == l.log + [y2, y2] && AllNew(w, l', zs)
    ensures Announced(w, l', w.b, zs) && Announced(w, l', y1, zs) && Announced(w, l', y2, zs)
  {
    assert y2 in {y2} + zs;
    var l1 := AdmitTwo(w, l, w.b, y1, y2);
    l' := CompleteOne(w, l1, y2);
    Onward(w, l, l1, l');
  }

  lemma BegunAnnounces(w: Scene, l: Limited)
    requires Fits(w) && Begun(w, l)
    ensures Announced(w, l, w.b, Others(w)) && AllNew(w, l, Others(w))
  {
    var order :| l.net.items == Announces(w.b, w.c, order) && Lists(order, Others(w));
    forall z | z in Others(w) ensures Announce(w.b, z, w.c) in l.net.items {
      var i :| 0 <= i < |order| && order[i] == z;
      assert l.net.items[i] == Announce(w.b, z, w.c);
    }
  }

  lemma TwoComplete(w: Scene, y1: DeviceId, y2: DeviceId, zs: set<DeviceId>) returns (l: Limited)
    requires Fits(w) && {y1} + ({y2} + zs) <= Others(w) && y1 != y2 && y1 !in zs && y2 !in zs
    ensures Arrives(w, DialledFresh(w), l) && Ongoing(w, l) && Valid(l.net) && l.log == [w.b, y1] + [y2, y2] && AllNew(w, l, zs)
    ensures Announced(w, l, w.b, zs) && Announced(w, l, y1, zs) && Announced(w, l, y2, zs)
  {
    var l1 := Begin(w);
    var l2 := FirstCompletes(w, l1, y1, {y2} + zs);
    l := SecondCompletes(w, l2, y1, y2, zs);
    Onward(w, DialledFresh(w), l1, l2);
    Onward(w, DialledFresh(w), l2, l);
  }

  /** Four of the others use up what the server of the announces has left. */
  lemma FourFillTheWindow(w: Scene, y1: DeviceId, y2: DeviceId, y3: DeviceId, y4: DeviceId) returns (l: Limited)
    requires Fits(w) && {y1, y2, y3, y4} <= Others(w) && y1 != y2 && y3 !in {y1, y2} && y4 !in {y1, y2, y3}
    ensures Arrives(w, DialledFresh(w), l) && Ongoing(w, l) && Valid(l.net)
    ensures l.log == [w.b, y1] + [y2, y2] + [y3, y3, y3] + [y4, y4, y4]
  {
    assert {y1} + ({y2} + {y3, y4}) == {y1, y2, y3, y4};
    var l1 := TwoComplete(w, y1, y2, {y3, y4});
    assert y3 in {y3, y4} && y4 in {y3, y4};
    var l2 := AdmitThree(w, l1, w.b, y1, y2, y3);
    l := AdmitThree(w, l2, w.b, y1, y2, y4);
    Onward(w, DialledFresh(w), l1, l2);
    Onward(w, DialledFresh(w), l2, l);
  }

  lemma Draw(all: set<DeviceId>) returns (x: DeviceId, rest: set<DeviceId>)
    requires all != {}
    ensures x in all && x !in rest && rest <= all && |rest| == |all| - 1
  {
    x :| x in all;
    rest := all - {x};
  }

  lemma FiveOf(all: set<DeviceId>) returns (y1: DeviceId, y2: DeviceId, y3: DeviceId, y4: DeviceId, x: DeviceId)
    requires 5 <= |all|
    ensures {y1, y2, y3, y4} <= all && x in all && y1 != y2 && y3 !in {y1, y2} && y4 !in {y1, y2, y3} && x !in {y1, y2, y3, y4}
  {
    var rest;
    y1, rest := Draw(all);
    y2, rest := Draw(rest);
    y3, rest := Draw(rest);
    y4, rest := Draw(rest);
    x, rest := Draw(rest);
  }

  lemma LeftOut(w: Scene, l: Limited, x: DeviceId) returns (end: Limited)
    requires Fits(w) && Arrives(w, DialledFresh(w), l) && Ongoing(w, l) && Valid(l.net)
    requires |l.log| == RateLimit.MAX_GLOBAL_IN_WINDOW && x in Others(w) && x !in l.log
    ensures Ends(w, end) && !Complete(w, end)
  {
    end := Rest(w, l);
    Onward(w, DialledFresh(w), l, end);
    assert end.log == l.log;
    QuietIsCompleteIffAllAdmitted(w, end);
  }

  lemma OnlyThese<T>(a: seq<T>, b: seq<T>, c: seq<T>, d: seq<T>, x: T)
    requires x !in a && x !in b && x !in c && x !in d
    ensures x !in a + b + c + d && |a + b + c + d| == |a| + |b| + |c| + |d|
  {
  }

  lemma SomeoneLeftOut(w: Scene) returns (end: Limited)
    requires Fits(w) && 5 <= |Others(w)|
    ensures Ends(w, end) && !Complete(w, end)
  {
    var y1, y2, y3, y4, x := FiveOf(Others(w));
    var l := FourFillTheWindow(w, y1, y2, y3, y4);
    OnlyThese([w.b, y1], [y2, y2], [y3, y3, y3], [y4, y4, y4], x);
    end := LeftOut(w, l, x);
  }

  // ---------------------------------------------------------------------------
  // At most nine others: a schedule that completes the mesh
  // ---------------------------------------------------------------------------

  /** All that are still to come are admitted once before anybody gets an answer. */
  lemma {:induction false} AdmitAll(w: Scene, l: Limited, todo: set<DeviceId>) returns (l': Limited)
    requires Fits(w) && Ongoing(w, l) && Valid(l.net) && Announced(w, l, w.b, todo) && AllNew(w, l, todo)
    requires |l.log| + |todo| <= RateLimit.MAX_GLOBAL_IN_WINDOW
    ensures Arrives(w, l, l') && Ongoing(w, l') && Valid(l'.net) && l.log <= l'.log && forall x | x in todo :: x in l'.log
    decreases |todo|
  {
    if todo == {} {
      l' := l;
      Here(w, l);
    } else {
      var x :| x in todo;
      var l1 := AdmitOne(w, l, w.b, x);
      l' := AdmitAll(w, l1, todo - {x});
      Onward(w, l, l1, l');
      assert x in l1.log;
    }
  }

  lemma AllAdmitted(w: Scene) returns (end: Limited)
    requires Fits(w) && |Others(w)| < RateLimit.MAX_GLOBAL_IN_WINDOW
    ensures Ends(w, end) && Complete(w, end)
  {
    var l := Begin(w);
    BegunAnnounces(w, l);
    var l1 := AdmitAll(w, l, Others(w));
    end := Rest(w, l1);
    Onward(w, DialledFresh(w), l, l1);
    Onward(w, DialledFresh(w), l1, end);
    forall x | x in w.members ensures x in end.log {
      assert x in l.log || x in Others(w);
      assert x in l1.log;
    }
    QuietIsCompleteIffAllAdmitted(w, end);
  }

  // ---------------------------------------------------------------------------
  // The theorem
  // ---------------------------------------------------------------------------

  ghost predicate Phases(w: Scene, l: Limited) {
    l == DialledFresh(w) || (Greeted(w, l.net) && l.net.dials == 0 && l.log == [w.b]) || Paced(w, l)
  }

  lemma StepKeepsPhases(w: Scene, l: Limited, k: nat, order: seq<DeviceId>)
    requires Fits(w) && |Others(w)| <= 4 && Phases(w, l) && Possible(l.net, Handle(k, order))
    ensures Phases(w, Take(w, l, k, order))
  {
    if l == DialledFresh(w) {
      FirstDialServed(w, k, order);
    } else if Paced(w, l) {
      StaysPaced(w, l, k, order);
    } else {
      FirstDialBegins(w, l, k, order);
      BegunIsPaced(w, Take(w, l, k, order));
    }
  }

  lemma {:induction false} PathKeeps(w: Scene, path: seq<Limited>, i: nat)
    requires Fits(w) && Path(w, path) && path[0] == DialledFresh(w) && i < |path|
    ensures Ongoing(w, path[i]) && (|Others(w)| <= 4 ==> Phases(w, path[i]))
  {
    if i == 0 {
      StartIsOngoing(w);
    } else {
      PathKeeps(w, path, i - 1);
      assert Moves(w, path[i - 1], path[i - 1 + 1]);
      var k, order :| Possible(path[i - 1].net, Handle(k, order)) && path[i] == Take(w, path[i - 1], k, order);
      StaysOngoing(w, path[i - 1], k, order);
      if |Others(w)| <= 4 {
        StepKeepsPhases(w, path[i - 1], k, order);
      }
    }
  }

  lemma StartIsOngoing(w: Scene)
    requires Fits(w)
    ensures Ongoing(w, DialledFresh(w))
  {
  }

  lemma EndsComplete(w: Scene, l: Limited)
    requires Fits(w) && Ends(w, l) && |Others(w)| <= 4
    ensures Complete(w, l)
  {
    var path :| Path(w, path) && path[0] == DialledFresh(w) && path[|path| - 1] == l;
    PathKeeps(w, path, |path| - 1);
    QuietIsCompleteIffAllAdmitted(w, l);
    assert forall x | x in w.members && x !in l.log :: Asks(l.net.items, x);
  }

  lemma CompleteHasRoom(w: Scene, l: Limited)
    requires Fits(w) && Ends(w, l) && Complete(w, l)
    ensures |Others(w)| < RateLimit.MAX_GLOBAL_IN_WINDOW
  {
    var path :| Path(w, path) && path[0] == DialledFresh(w) && path[|path| - 1] == l;
    PathKeeps(w, path, |path| - 1);
    QuietIsCompleteIffAllAdmitted(w, l);
    AllIn(w.members, l.log);
    assert w.members == Others(w) + {w.b};
  }

  lemma {:induction false} AllIn(ids: set<DeviceId>, log: seq<DeviceId>)
    requires forall x | x in ids :: x in log
    ensures |ids| <= |log|
  {
    if log == [] {
      assert ids == {};
    } else {
      var init, last := log[..|log| - 1], log[|log| - 1];
      AllIn(ids - {last}, init);
      assert ids - {last} + {last} >= ids;
      assert |ids| <= |ids - {last}| + 1;
    }
  }

  /** When the newcomer's limiter counts, no message is lost and all happens within one window: every schedule ends
      in the full mesh if and only if the member that dialled has at most four others, and some schedule does if and
      only if it has at most nine. */
  lemma MeshCompletesIffAtMostFourOthers(w: Scene)
    requires Fits(w)
    ensures (forall l | Ends(w, l) :: Complete(w, l)) <==> |Others(w)| <= 4
    ensures (exists l :: Ends(w, l) && Complete(w, l)) <==> |Others(w)| < RateLimit.MAX_GLOBAL_IN_WINDOW
  {
    if |Others(w)| <= 4 {
      forall l | Ends(w, l) ensures Complete(w, l) {
        EndsComplete(w, l);
      }
    } else {
      var end := SomeoneLeftOut(w);
    }
    if |Others(w)| < RateLimit.MAX_GLOBAL_IN_WINDOW {
      var end := AllAdmitted(w);
    } else {
      forall l | Ends(w, l) ensures !Complete(w, l) {
        if Complete(w, l) {
          CompleteHasRoom(w, l);
        }
      }
    }
  }

  // ---------------------------------------------------------------------------
  // Endless schedules
  // ---------------------------------------------------------------------------

  ghost predicate Unfailing(w: Scene, run: nat -> Limited, i: nat) {
    Moves(w, run(i), run(i + 1)) || (Quiet(run(i).net) && run(i + 1) == run(i))
  }

  lemma {:induction false} RunArrives(w: Scene, run: nat -> Limited, i: nat)
    requires forall j :: Unfailing(w, run, j)
    ensures Arrives(w, run(0), run(i))
  {
    Here(w, run(0));
    if i != 0 {
      RunArrives(w, run, i - 1);
      assert Unfailing(w, run, i - 1);
      if Moves(w, run(i - 1), run(i)) {
        assert Path(w, [run(i - 1), run(i)]);
        Onward(w, run(0), run(i - 1), run(i));
      }
    }
  }

  /** Every such schedule comes to rest, in one of the ends the theorem is about. */
  lemma EveryLimitedScheduleEnds(w: Scene, run: nat -> Limited)
    requires Fits(w) && run(0) == DialledFresh(w) && forall i :: Unfailing(w, run, i)
    ensures exists j: nat :: Quiet(run(j).net)
    ensures forall j: nat | Quiet(run(j).net) :: Ends(w, run(j))
  {
    var nets := (i: nat) => run(i).net;
    forall i: nat ensures Follows(nets, i) {
      assert Unfailing(w, run, i);
      if Moves(w, run(i), run(i + 1)) {
        var k, order :| Possible(run(i).net, Handle(k, order)) && run(i + 1) == Take(w, run(i), k, order);
        assert Possible(nets(i), Fail(k)) && Possible(nets(i), Handle(k, order));
        assert Next(nets(i), nets(i + 1));
      }
    }
    EveryScheduleSettles(nets);
    var j: nat :| Quiet(nets(j));
    assert Quiet(run(j).net);
    forall j: nat | Quiet(run(j).net) ensures Ends(w, run(j)) {
      RunArrives(w, run, j);
    }
  }
}
