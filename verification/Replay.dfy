/** Replay protection over whole runs of one node: which messages of a peer are accepted, and that a
    sealed clipboard message takes effect at most once. */
module Replay {
  import opened Wrappers
  import opened Peers
  import opened Events
  import Crypto
  import Node

  datatype Msg = Msg(origin: DeviceId, kind: Crypto.AadKind, seqNo: Crypto.u64)

  function MessageOf(e: Event): Option<Msg> {
    match e
    case Left(o, s) => Some(Msg(o, Crypto.Leave, s))
    case TrustGossip(o, _, s) => Some(Msg(o, Crypto.Trust, s))
    case BanGossip(o, _, s) => Some(Msg(o, Crypto.Ban, s))
    case Clipboard(o, kind, s) => Some(Msg(o, kind, s))
    case _ => None
  }

  /** The handler of `e` gets past its sequence check. */
  predicate Accepts(r: Registry, e: Event, m: Msg) {
    MessageOf(e) == Some(m) && Authorised(r, m.origin) && IsNew(r, m.origin, m.kind, m.seqNo)
  }

  predicate AcceptsFrom(r: Registry, e: Event, o: DeviceId, kind: Crypto.AadKind) {
    MessageOf(e).Some? && MessageOf(e).value.origin == o && MessageOf(e).value.kind == kind && Accepts(r, e, MessageOf(e).value)
  }

  /** The sequence numbers of kind `kind` accepted from `o` since its state was last inserted, in order. */
  function Accepted(me: DeviceId, es: seq<Event>, o: DeviceId, kind: Crypto.AadKind): seq<Crypto.u64> {
    if es == [] then [] else
    var init, e := es[..|es| - 1], es[|es| - 1];
    if AdmitsPeer(me, Run(me, init), e, o) then []
    else if AcceptsFrom(Run(me, init), e, o, kind) then Accepted(me, init, o, kind) + [MessageOf(e).value.seqNo]
    else Accepted(me, init, o, kind)
  }

  predicate Increasing(s: seq<Crypto.u64>) { forall i, j | 0 <= i < j < |s| :: s[i] < s[j] }

  predicate AllBelow(s: seq<Crypto.u64>, x: Crypto.u64) { forall y | y in s :: y < x }

  /** The map of last seen numbers is the last one accepted of each kind. */
  predicate Remembers(lastSeen: map<Crypto.AadKind, Crypto.u64>, kind: Crypto.AadKind, accepted: seq<Crypto.u64>) {
    if accepted == [] then kind !in lastSeen else kind in lastSeen && lastSeen[kind] == accepted[|accepted| - 1]
  }

  lemma QuietStep(me: DeviceId, r: Registry, e: Event, o: DeviceId)
    requires o in Apply(me, r, e).inner && !AdmitsPeer(me, r, e, o) && MessageOf(e).None?
    ensures o in r.inner && Apply(me, r, e).inner[o].lastSeen == r.inner[o].lastSeen
  {
  }

  lemma MessageStep(me: DeviceId, r: Registry, e: Event, o: DeviceId)
    requires o in Apply(me, r, e).inner && MessageOf(e).Some?
    ensures o in r.inner
    ensures var seen, m := r.inner[o].lastSeen, MessageOf(e).value;
      Apply(me, r, e).inner[o].lastSeen == if m.origin == o && Accepts(r, e, m) then seen[m.kind := m.seqNo] else seen
  {
  }

  lemma SeenStep(me: DeviceId, r: Registry, e: Event, o: DeviceId, kind: Crypto.AadKind)
    requires o in Apply(me, r, e).inner && !AdmitsPeer(me, r, e, o)
    ensures o in r.inner
    ensures var seen, seen' := r.inner[o].lastSeen, Apply(me, r, e).inner[o].lastSeen;
      if AcceptsFrom(r, e, o, kind) then kind in seen' && seen'[kind] == MessageOf(e).value.seqNo
      else (kind in seen' <==> kind in seen) && (kind in seen ==> seen'[kind] == seen[kind])
  {
    if MessageOf(e).None? {
      QuietStep(me, r, e, o);
    } else {
      MessageStep(me, r, e, o);
    }
  }

  lemma IncreasingSnoc(s: seq<Crypto.u64>, x: Crypto.u64)
    requires Increasing(s) && (s != [] ==> s[|s| - 1] < x)
    ensures Increasing(s + [x])
  {
    if s != [] {
      assert forall i | 0 <= i < |s| :: s[i] <= s[|s| - 1];
    }
  }

  /** Accepted numbers strictly increase within a session, and a member's state remembers the last of each kind. */
  lemma {:induction false} AcceptedNumbersIncrease(me: DeviceId, es: seq<Event>, o: DeviceId, kind: Crypto.AadKind)
    ensures Increasing(Accepted(me, es, o, kind))
    ensures o in Run(me, es).inner ==> Remembers(Run(me, es).inner[o].lastSeen, kind, Accepted(me, es, o, kind))
  {
    if es != [] {
      var init, e := es[..|es| - 1], es[|es| - 1];
      var r := Run(me, init);
      AcceptedNumbersIncrease(me, init, o, kind);
      EveryRunKeepsInv(me, init);
      if AdmitsPeer(me, r, e, o) {
        AdmissionForgets(me, r, e, o);
      } else {
        if AcceptsFrom(r, e, o, kind) {
          IncreasingSnoc(Accepted(me, init, o, kind), MessageOf(e).value.seqNo);
        }
        if o in Run(me, es).inner {
          SeenStep(me, r, e, o, kind);
        }
      }
    }
  }

  lemma AdmissionForgets(me: DeviceId, r: Registry, e: Event, o: DeviceId)
    requires AdmitsPeer(me, r, e, o)
    ensures o in Apply(me, r, e).inner && Apply(me, r, e).inner[o].lastSeen == map[]
    ensures Apply(me, r, e).inner[o].identity == e.identity
  {
  }

  lemma NewIffLarger(lastSeen: map<Crypto.AadKind, Crypto.u64>, kind: Crypto.AadKind, accepted: seq<Crypto.u64>, x: Crypto.u64)
    requires Increasing(accepted) && Remembers(lastSeen, kind, accepted)
    ensures (kind in lastSeen ==> lastSeen[kind] < x) <==> AllBelow(accepted, x)
  {
    if accepted != [] {
      var last := accepted[|accepted| - 1];
      assert last in accepted;
      forall y | y in accepted && last < x ensures y < x {
        var i :| 0 <= i < |accepted| && accepted[i] == y;
        assert i < |accepted| - 1 ==> accepted[i] < last;
      }
    }
  }

  /** What a state owes to the numbers accepted from `o`. */
  predicate Faithful(r: Registry, o: DeviceId, kind: Crypto.AadKind, accepted: seq<Crypto.u64>) {
    && Increasing(accepted)
    && (o in r.inner ==> o !in r.banned && Remembers(r.inner[o].lastSeen, kind, accepted))
  }

  lemma AcceptsIffLarger(r: Registry, e: Event, m: Msg, accepted: seq<Crypto.u64>)
    requires MessageOf(e) == Some(m) && Faithful(r, m.origin, m.kind, accepted)
    ensures Accepts(r, e, m) <==> m.origin in r.inner && AllBelow(accepted, m.seqNo)
  {
    if m.origin in r.inner {
      NewIffLarger(r.inner[m.origin].lastSeen, m.kind, accepted, m.seqNo);
    }
  }

  lemma RunIsFaithful(me: DeviceId, es: seq<Event>, o: DeviceId, kind: Crypto.AadKind)
    ensures Faithful(Run(me, es), o, kind, Accepted(me, es, o, kind))
  {
    EveryRunKeepsInv(me, es);
    AcceptedNumbersIncrease(me, es, o, kind);
    var r := Run(me, es);
    assert o in r.inner ==> o in r.approved;
  }

  /** In every reachable state a message is accepted exactly when its origin is a member and its number exceeds
      every number accepted for its kind since that member was inserted. */
  lemma AcceptedIffNewest(me: DeviceId, es: seq<Event>, e: Event, m: Msg)
    requires MessageOf(e) == Some(m)
    ensures Accepts(Run(me, es), e, m)
      <==> m.origin in Run(me, es).inner && AllBelow(Accepted(me, es, m.origin, m.kind), m.seqNo)
  {
    RunIsFaithful(me, es, m.origin, m.kind);
    AcceptsIffLarger(Run(me, es), e, m, Accepted(me, es, m.origin, m.kind));
  }

  predicate AdmittedAt(me: DeviceId, es: seq<Event>, k: nat, o: DeviceId) {
    k < |es| && AdmitsPeer(me, Run(me, es[..k]), es[k], o)
  }

  lemma {:induction false} StaysAccepted(me: DeviceId, es: seq<Event>, i: nat, j: nat, m: Msg)
    requires i < j <= |es| && Accepts(Run(me, es[..i]), es[i], m)
    requires forall k: nat | i < k < j :: !AdmittedAt(me, es, k, m.origin)
    ensures m.seqNo in Accepted(me, es[..j], m.origin, m.kind)
  {
    var now := es[..j];
    assert now[..|now| - 1] == es[..j - 1] && now[|now| - 1] == es[j - 1];
    if i < j - 1 {
      StaysAccepted(me, es, i, j - 1, m);
      assert !AdmittedAt(me, es, j - 1, m.origin);
    } else {
      var before := Accepted(me, es[..i], m.origin, m.kind);
      assert Accepted(me, now, m.origin, m.kind) == before + [m.seqNo];
      assert (before + [m.seqNo])[|before|] == m.seqNo;
    }
  }

  /** Under any duplication and reordering, a second acceptance of one (origin, kind, number) needs the origin to
      have been inserted again in between. */
  lemma AcceptedTwiceNeedsReadmission(me: DeviceId, es: seq<Event>, i: nat, j: nat, m: Msg)
    requires i < j < |es| && Accepts(Run(me, es[..i]), es[i], m) && Accepts(Run(me, es[..j]), es[j], m)
    ensures exists k: nat :: i < k < j && AdmittedAt(me, es, k, m.origin)
  {
    if forall k: nat | i < k < j :: !AdmittedAt(me, es, k, m.origin) {
      StaysAccepted(me, es, i, j, m);
      AcceptedIffNewest(me, es[..j], es[j], m);
    }
  }

  // ---------------------------------------------------------------------------
  // Across sessions
  // ---------------------------------------------------------------------------

  lemma IdentityStep(me: DeviceId, r: Registry, e: Event, o: DeviceId)
    requires Inv(me, r) && o in Apply(me, r, e).inner && !AdmitsPeer(me, r, e, o)
    ensures o in r.inner && Apply(me, r, e).inner[o].identity == r.inner[o].identity
  {
  }

  /** A member is who its latest admission said it is. */
  lemma {:induction false} MemberWasAdmitted(me: DeviceId, es: seq<Event>, o: DeviceId) returns (k: nat)
    requires o in Run(me, es).inner
    ensures AdmittedAt(me, es, k, o) && es[k].identity == Run(me, es).inner[o].identity
    ensures forall l: nat | k < l < |es| :: !AdmittedAt(me, es, l, o)
  {
    var init, e := es[..|es| - 1], es[|es| - 1];
    EveryRunKeepsInv(me, init);
    if AdmitsPeer(me, Run(me, init), e, o) {
      AdmissionForgets(me, Run(me, init), e, o);
      k := |es| - 1;
    } else {
      IdentityStep(me, Run(me, init), e, o);
      k := MemberWasAdmitted(me, init, o);
      assert init[..k] == es[..k];
      forall l: nat | k < l < |es| ensures !AdmittedAt(me, es, l, o) {
        if l < |init| {
          assert !AdmittedAt(me, init, l, o) && init[..l] == es[..l];
        }
      }
    }
  }

  /** In every run, the address a handshake answer lists for a peer is the one its latest admission came with. */
  lemma ListedAddressIsTheLatest(me: DeviceId, es: seq<Event>, requester: DeviceId, stubs: seq<Node.PeerStub>, s: Node.PeerStub)
    returns (k: nat)
    requires Node.IsStubList(stubs, Run(me, es), requester) && s in stubs
    ensures AdmittedAt(me, es, k, s.deviceId) && s.addr == es[k].identity.addr && s.deviceId != requester
    ensures forall l: nat | k < l < |es| :: !AdmittedAt(me, es, l, s.deviceId)
  {
    assert Node.Offers(Run(me, es), s, requester);
    k := MemberWasAdmitted(me, es, s.deviceId);
  }

  /** No two admissions of a peer agree on a key: every handshake has its own ephemeral secrets. */
  ghost predicate FreshKeys(me: DeviceId, es: seq<Event>, o: DeviceId) {
    forall k: nat, l: nat | k < l < |es| && AdmittedAt(me, es, k, o) && AdmittedAt(me, es, l, o) ::
      es[k].identity.aesKey != es[l].identity.aesKey
  }

  /** They do not if this node draws for each a secret that no earlier one involved, on either side. */
  lemma OwnSecretsMakeFreshKeys(kx: Crypto.KeyExchange, me: DeviceId, es: seq<Event>, o: DeviceId,
      mine: nat -> Crypto.Secret, theirs: nat -> Crypto.Secret)
    requires Crypto.NoCollisions(kx)
    requires forall k: nat | k < |es| && AdmittedAt(me, es, k, o) ::
      es[k].identity.aesKey == kx.derive(mine(k), kx.publicOf(theirs(k)))
    requires forall k: nat, l: nat | k < l < |es| && AdmittedAt(me, es, k, o) && AdmittedAt(me, es, l, o) ::
      mine(l) != mine(k) && mine(l) != theirs(k)
    ensures FreshKeys(me, es, o)
  {
    forall k: nat, l: nat | k < l < |es| && AdmittedAt(me, es, k, o) && AdmittedAt(me, es, l, o)
      ensures es[k].identity.aesKey != es[l].identity.aesKey
    {
      assert mine(l) != mine(k) && mine(l) != theirs(k);
    }
  }

  lemma KeysDifferAfterReadmission(me: DeviceId, es: seq<Event>, i: nat, m: nat, j: nat, o: DeviceId)
    requires i < m < j < |es| && AdmittedAt(me, es, m, o) && FreshKeys(me, es, o)
    requires o in Run(me, es[..i]).inner && o in Run(me, es[..j]).inner
    ensures Run(me, es[..i]).inner[o].identity.aesKey != Run(me, es[..j]).inner[o].identity.aesKey
  {
    var k := MemberWasAdmitted(me, es[..i], o);
    var l := MemberWasAdmitted(me, es[..j], o);
    assert es[..i][..k] == es[..k] && es[..j][..l] == es[..l] && es[..j][..m] == es[..m];
    assert AdmittedAt(me, es[..j], m, o);
    assert AdmittedAt(me, es, k, o) && AdmittedAt(me, es, l, o);
  }

  /** A sealed clipboard message takes effect at most once over a whole run, sessions and all: within a session
      the number stops it, and across sessions the key does. */
  lemma SealedMessageAppliesOnce(me: DeviceId, es: seq<Event>, i: nat, j: nat, aead: Crypto.Aead, message: Node.Message,
      key: Crypto.Key, nonce: nat)
    requires Crypto.Ideal(aead) && message.aead == aead && FreshKeys(me, es, message.me)
    requires message.kind == Crypto.Text || message.kind == Crypto.ImagePng
    requires i < j < |es| && es[i] == es[j] == Clipboard(message.me, message.kind, message.seqNo)
    ensures var req := Node.SealedFor(message, key, nonce);
      !(Node.Receive(aead, Run(me, es[..i]), req).Accepted? && Node.Receive(aead, Run(me, es[..j]), req).Accepted?)
  {
    var req := Node.SealedFor(message, key, nonce);
    var m := Msg(message.me, message.kind, message.seqNo);
    if Node.Receive(aead, Run(me, es[..i]), req).Accepted? && Node.Receive(aead, Run(me, es[..j]), req).Accepted? {
      AcceptedTwiceNeedsReadmission(me, es, i, j, m);
      var k: nat :| i < k < j && AdmittedAt(me, es, k, m.origin);
      KeysDifferAfterReadmission(me, es, i, k, j, m.origin);
    }
  }
}
