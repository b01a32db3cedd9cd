/** The steps of `Gossip` are what the handlers of `Node` do, seen through the members of each registry. */
module GossipHandlers {
  import opened Wrappers
  import opened Peers
  import Events
  import Gossip
  import Node

  /** `known` has exactly the members of `r` for node `me`. */
  ghost predicate Shows(known: set<(DeviceId, DeviceId)>, me: DeviceId, r: Registry) {
    forall x :: (me, x) in known <==> x in r.inner
  }

  lemma ShownPeers(known: set<(DeviceId, DeviceId)>, me: DeviceId, r: Registry)
    requires Shows(known, me, r)
    ensures Gossip.PeersOf(known, me) == r.inner.Keys
  {
    forall x | x in r.inner ensures x in Gossip.PeersOf(known, me) {
      assert (me, x) in known;
    }
  }

  function Ids(stubs: seq<Node.PeerStub>): seq<DeviceId> {
    seq(|stubs|, i requires 0 <= i < |stubs| => stubs[i].deviceId)
  }

  /** A served handshake teaches the server its dialler, and answers with a list of its other members. */
  lemma ServingStep(known: set<(DeviceId, DeviceId)>, s: DeviceId, r: Registry, p: Identity, c: Client, stubs: seq<Node.PeerStub>)
    requires Events.Inv(s, r) && Shows(known, s, r) && Events.Admits(s, r, Events.Served(p, c))
    requires var r' := Events.Admit(r, p, c); Node.IsStubList(stubs, r', p.deviceId)
    ensures var item, r' := Gossip.FullReq(p.deviceId, s), Events.Admit(r, p, c);
      var known' := known + Gossip.Learns(item);
      Shows(known', s, r') && Lists(Ids(stubs), Gossip.Listed(known', item))
  {
    var item, r' := Gossip.FullReq(p.deviceId, s), Events.Admit(r, p, c);
    var known' := known + Gossip.Learns(item);
    assert Shows(known', s, r');
    ShownPeers(known', s, r');
    Events.ApplyKeepsInv(s, r, Events.Served(p, c));
    OffersListMembers(r', stubs, p.deviceId);
  }

  lemma OffersListMembers(r: Registry, stubs: seq<Node.PeerStub>, except: DeviceId)
    requires Node.IsStubList(stubs, r, except) && forall x | x in r.inner :: r.inner[x].trust == Approved
    ensures Lists(Ids(stubs), r.inner.Keys - {except})
  {
    var ids := Ids(stubs);
    forall x | x in r.inner.Keys - {except} ensures x in ids {
      var stub := Node.PeerStub(x, r.inner[x].identity.addr);
      assert Node.Offers(r, stub, except) && stub in stubs;
      var i :| 0 <= i < |stubs| && stubs[i] == stub;
      assert ids[i] == x;
    }
    forall x | x in ids ensures x in r.inner.Keys - {except} {
      var i :| 0 <= i < |ids| && ids[i] == x;
      assert stubs[i] in stubs && Node.Offers(r, stubs[i], except);
    }
  }

  lemma {:induction false} StrangerIds(stubs: seq<Node.PeerStub>, me: DeviceId, r: Registry)
    ensures Ids(Node.Unknown(stubs, me, r)) == Gossip.Strangers(Ids(stubs), me, r.inner.Keys)
  {
    if stubs != [] {
      StrangerIds(stubs[1..], me, r);
      assert Ids(stubs)[1..] == Ids(stubs[1..]);
    }
  }

  /** A completed dial starts stub dials to the picked strangers, and announces its server to every other member. */
  lemma DiallingStep(known: set<(DeviceId, DeviceId)>, me: DeviceId, r: Registry, stubs: seq<Node.PeerStub>, s: DeviceId, addr: Addr)
    requires Events.Inv(me, r) && Shows(known, me, r)
    ensures Ids(Node.FirstUnknown(stubs, me, r)) == Gossip.Picked(Ids(stubs), me, Gossip.PeersOf(known, me))
    ensures Node.Announces(r, s, addr, me).Keys == Gossip.Listed(known, Gossip.FullRep(me, s, Ids(stubs)))
  {
    ShownPeers(known, me, r);
    StrangerIds(stubs, me, r);
    var all := Node.Unknown(stubs, me, r);
    assert |Ids(all)| == |all|;
    forall x | x in r.inner ensures x in r.pool && r.inner[x].trust == Approved {
      assert x in r.inner.Keys;
    }
  }

  /** An announce from an approved origin, about a peer not banned, makes its receiver dial exactly when the handler
      says so; every other announce is refused, which `Gossip` counts as a failure. */
  lemma AnnounceStep(known: set<(DeviceId, DeviceId)>, me: DeviceId, r: Registry, a: Node.Announce)
    requires Shows(known, me, r)
    ensures var outcome := Node.AnnounceOutcome(me, r, a);
      if a.origin in r.approved && a.deviceId !in r.banned
      then Gossip.Becomes(known, Gossip.Announce(a.origin, me, a.deviceId), [])
        == if outcome == Node.Ok(Some(a.addr)) then [Gossip.FullReq(me, a.deviceId)] else []
      else outcome.Err?
  {
    assert (me, a.deviceId) in known <==> a.deviceId in r.inner;
  }

  /** The announce a dialler sends to `to` is the protocol's: a receiver that approves the dialler, and to whom the
      server is neither itself nor banned, dials the server's address, unless it knows the server already. */
  lemma AnnounceArrives(known: set<(DeviceId, DeviceId)>, me: DeviceId, r: Registry, s: DeviceId, addr: Addr, to: DeviceId, far: Registry)
    requires to in Node.Announces(r, s, addr, me) && Shows(known, to, far)
    requires me in far.approved && s != to && s !in far.banned
    ensures var outcome := Node.AnnounceOutcome(to, far, Node.Announces(r, s, addr, me)[to]);
      && outcome == Node.Ok(if s in far.inner then None else Some(addr))
      && Gossip.Becomes(known, Gossip.Announce(me, to, s), [])
           == if outcome == Node.Ok(Some(addr)) then [Gossip.FullReq(to, s)] else []
  {
    AnnounceStep(known, to, far, Node.Announces(r, s, addr, me)[to]);
  }

  /** A stub task goes on to its request exactly when the check it starts with lets it. */
  lemma StubTaskStep(known: set<(DeviceId, DeviceId)>, me: DeviceId, r: Registry, s: DeviceId)
    requires Shows(known, me, r)
    ensures s !in r.banned ==>
      Gossip.Becomes(known, Gossip.StubTask(me, s), []) == if Node.StartsStubDial(r, s) then [Gossip.StubReq(me, s)] else []
  {
    assert (me, s) in known <==> s in r.inner;
  }

  /** A server cannot tell a stub dial from a full one: it learns its dialler alike. */
  lemma StubServingStep(known: set<(DeviceId, DeviceId)>, s: DeviceId, r: Registry, p: Identity, c: Client)
    requires Shows(known, s, r) && Events.Admits(s, r, Events.Served(p, c))
    ensures Shows(known + Gossip.Learns(Gossip.StubReq(p.deviceId, s)), s, Events.Apply(s, r, Events.Served(p, c)))
  {
  }

  /** A stub dial that is answered teaches the dialler its server, also when it had got to know it meanwhile; and it
      gossips no further. */
  lemma StubAnswerStep(known: set<(DeviceId, DeviceId)>, me: DeviceId, r: Registry, p: Identity, c: Client, order: seq<DeviceId>)
    requires Shows(known, me, r) && p.deviceId != me && p.deviceId !in r.banned
    ensures var item := Gossip.StubRep(me, p.deviceId);
      && Shows(known + Gossip.Learns(item), me, Events.Apply(me, r, Events.StubDialled(p, c)))
      && Gossip.Becomes(known + Gossip.Learns(item), item, order) == []
  {
    assert (me, p.deviceId) in known <==> p.deviceId in r.inner;
  }
}
