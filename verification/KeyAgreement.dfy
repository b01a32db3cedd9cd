/** Key agreement between any number of nodes, and what it means for a broadcast: handshakes as requests
    and replies in flight, interleaved with every other event, as long as the handshakes of one pair of
    nodes do not overlap. */
module KeyAgreement {
  import opened Wrappers
  import opened Peers
  import Crypto
  import Events
  import History
  import Node
  import Replay
  import Utf8

  datatype Stage = Requested | Answered(secret: Crypto.Secret)

  /** A handshake between its first request byte and its end; `stub` marks a gossip stub dial. */
  datatype Flight = Flight(stub: bool, secret: Crypto.Secret, stage: Stage)

  /** Registries by node, and flights by (dialler, server). */
  datatype System = System(nodes: map<DeviceId, Registry>, flights: map<(DeviceId, DeviceId), Flight>)

  const INITIAL := System(map[], map[])

  /** Names, addresses and clients play no part in the keys, so any will do. */
  datatype Action =
    | Dial(d: DeviceId, s: DeviceId, stub: bool, secret: Crypto.Secret)
    | Serve(d: DeviceId, s: DeviceId, secret: Crypto.Secret, name: string, addr: Addr, client: Client)
    | Complete(d: DeviceId, s: DeviceId, name: string, addr: Addr, client: Client)
    /** The request never arrived, or was refused. */
    | GiveUp(d: DeviceId, s: DeviceId)
    /** Served, but the answer never arrived. */
    | LoseReply(d: DeviceId, s: DeviceId)
    /** Any event of one node that admits nobody. */
    | Local(n: DeviceId, e: Events.Event)

  function RegistryOf(y: System, n: DeviceId): Registry { if n in y.nodes then y.nodes[n] else EMPTY }

  function WithRegistry(y: System, n: DeviceId, r: Registry): System { y.(nodes := y.nodes[n := r]) }

  function Landed(y: System, d: DeviceId, s: DeviceId): System { y.(flights := y.flights - {(d, s)}) }

  predicate InFlight(y: System, d: DeviceId, s: DeviceId) { (d, s) in y.flights }

  predicate Waiting(y: System, d: DeviceId, s: DeviceId) { InFlight(y, d, s) && y.flights[(d, s)].stage.Requested? }

  /** The server has taken the dialler on, but the dialler still waits. */
  predicate Halfway(y: System, d: DeviceId, s: DeviceId) { InFlight(y, d, s) && y.flights[(d, s)].stage.Answered? }

  /** A dial may start unless the pair has one already; a stub dial is for strangers only. */
  predicate MayDial(y: System, d: DeviceId, s: DeviceId, stub: bool) {
    && d != s && !InFlight(y, d, s) && !InFlight(y, s, d)
    && (stub ==> s !in RegistryOf(y, d).inner && s !in RegistryOf(y, d).banned)
  }

  /** The dialler, as the server gets to know it. */
  function DiallerSeen(kx: Crypto.KeyExchange, y: System, a: Action): Identity
    requires a.Serve? && InFlight(y, a.d, a.s)
  {
    Node.PeerIdentity(kx, a.d, a.name, a.addr, a.secret, kx.publicOf(y.flights[(a.d, a.s)].secret))
  }

  /** The server, as the dialler gets to know it. */
  function ServerSeen(kx: Crypto.KeyExchange, y: System, a: Action): Identity
    requires a.Complete? && Halfway(y, a.d, a.s)
  {
    var f := y.flights[(a.d, a.s)];
    Node.PeerIdentity(kx, a.s, a.name, a.addr, f.secret, kx.publicOf(f.stage.secret))
  }

  function Serving(kx: Crypto.KeyExchange, y: System, a: Action): System
    requires a.Serve? && Waiting(y, a.d, a.s)
  {
    var p := DiallerSeen(kx, y, a);
    if !Events.Admits(a.s, RegistryOf(y, a.s), Events.Served(p, a.client)) then y else
    var answered := y.flights[(a.d, a.s)].(stage := Answered(a.secret));
    WithRegistry(y, a.s, Events.Admit(RegistryOf(y, a.s), p, a.client)).(flights := y.flights[(a.d, a.s) := answered])
  }

  function Completing(kx: Crypto.KeyExchange, y: System, a: Action): System
    requires a.Complete? && Halfway(y, a.d, a.s)
  {
    var p, r := ServerSeen(kx, y, a), RegistryOf(y, a.d);
    var e := if y.flights[(a.d, a.s)].stub then Events.StubDialled(p, a.client) else Events.Dialled(p, a.client);
    Landed(if Events.Admits(a.d, r, e) then WithRegistry(y, a.d, Events.Admit(r, p, a.client)) else y, a.d, a.s)
  }

  predicate AdmitsNobody(e: Events.Event) { !e.Served? && !e.Dialled? && !e.StubDialled? }

  /** An action that is not possible changes nothing. */
  function Step(kx: Crypto.KeyExchange, y: System, a: Action): System {
    match a
    case Dial(d, s, stub, secret) =>
      if MayDial(y, d, s, stub) then y.(flights := y.flights[(d, s) := Flight(stub, secret, Requested)]) else y
    case Serve(d, s, _, _, _, _) => if Waiting(y, d, s) then Serving(kx, y, a) else y
    case Complete(d, s, _, _, _) => if Halfway(y, d, s) then Completing(kx, y, a) else y
    case GiveUp(d, s) => if Waiting(y, d, s) then Landed(y, d, s) else y
    case LoseReply(d, s) => if Halfway(y, d, s) then Landed(y, d, s) else y
    case Local(n, e) => if AdmitsNobody(e) then WithRegistry(y, n, Events.Apply(n, RegistryOf(y, n), e)) else y
  }

  function Run(kx: Crypto.KeyExchange, actions: seq<Action>): System {
    if actions == [] then INITIAL else Step(kx, Run(kx, actions[..|actions| - 1]), actions[|actions| - 1])
  }

  // ---------------------------------------------------------------------------
  // What every step keeps
  // ---------------------------------------------------------------------------

  function KeyOf(r: Registry, id: DeviceId): Option<Crypto.Key> {
    if id in r.inner then Some(r.inner[id].identity.aesKey) else None
  }

  function KeyAt(y: System, n: DeviceId, id: DeviceId): Option<Crypto.Key> { KeyOf(RegistryOf(y, n), id) }

  ghost predicate NodeOk(y: System, n: DeviceId) { Events.Inv(n, RegistryOf(y, n)) }

  predicate OnPair(act: Action, a: DeviceId, b: DeviceId) {
    !act.Local? && ((act.d == a && act.s == b) || (act.d == b && act.s == a))
  }

  /** The server takes the dialler on. */
  predicate TakesOn(kx: Crypto.KeyExchange, y: System, act: Action) {
    act.Serve? && Waiting(y, act.d, act.s)
    && Events.Admits(act.s, RegistryOf(y, act.s), Events.Served(DiallerSeen(kx, y, act), act.client))
  }

  /** The keys the servers derived in the handshakes of the pair, in order. */
  function ServedKeys(kx: Crypto.KeyExchange, actions: seq<Action>, a: DeviceId, b: DeviceId): seq<Crypto.Key> {
    if actions == [] then [] else
    var init, act := actions[..|actions| - 1], actions[|actions| - 1];
    KeysAfter(kx, Run(kx, init), act, a, b, ServedKeys(kx, init, a, b))
  }

  function KeysAfter(kx: Crypto.KeyExchange, y: System, act: Action, a: DeviceId, b: DeviceId, ks: seq<Crypto.Key>): seq<Crypto.Key> {
    if OnPair(act, a, b) && TakesOn(kx, y, act) then ks + [DiallerSeen(kx, y, act).aesKey] else ks
  }

  /** Of the handshakes of the pair that were served and are over, the last one lost its answer. */
  predicate Split(kx: Crypto.KeyExchange, actions: seq<Action>, a: DeviceId, b: DeviceId) {
    actions != [] &&
    var init, act := actions[..|actions| - 1], actions[|actions| - 1];
    SplitAfter(Run(kx, init), act, a, b, Split(kx, init, a, b))
  }

  predicate SplitAfter(y: System, act: Action, a: DeviceId, b: DeviceId, split: bool) {
    if OnPair(act, a, b) && (act.LoseReply? || act.Complete?) && Halfway(y, act.d, act.s) then act.LoseReply? else split
  }

  predicate Agree(k1: Option<Crypto.Key>, k2: Option<Crypto.Key>) { k1.Some? && k2.Some? ==> k1 == k2 }

  /** The key, if there is one, is of the last handshake served; of an earlier one; of any. */
  predicate OfLast(k: Option<Crypto.Key>, ks: seq<Crypto.Key>) { k.Some? ==> ks != [] && k.value == ks[|ks| - 1] }

  predicate OfEarlier(k: Option<Crypto.Key>, ks: seq<Crypto.Key>) { k.Some? ==> ks != [] && k.value in ks[..|ks| - 1] }

  predicate OfSome(k: Option<Crypto.Key>, ks: seq<Crypto.Key>) { k.Some? ==> k.value in ks }

  /** The two keys are of different handshakes, one of them the last. */
  predicate Apart(k1: Option<Crypto.Key>, k2: Option<Crypto.Key>, ks: seq<Crypto.Key>) {
    (OfLast(k1, ks) && OfEarlier(k2, ks)) || (OfLast(k2, ks) && OfEarlier(k1, ks))
  }

  /** What a pair of nodes knows of itself: the keys for one another, and the flights from the first and the second. */
  datatype Pair = Pair(k1: Option<Crypto.Key>, k2: Option<Crypto.Key>, f1: Option<Flight>, f2: Option<Flight>)

  function FlightAt(y: System, d: DeviceId, s: DeviceId): Option<Flight> { if InFlight(y, d, s) then Some(y.flights[(d, s)]) else None }

  function PairOf(y: System, a: DeviceId, b: DeviceId): Pair {
    Pair(KeyAt(y, a, b), KeyAt(y, b, a), FlightAt(y, a, b), FlightAt(y, b, a))
  }

  predicate Between(f: Option<Flight>) { f.Some? && f.value.stage.Answered? }

  /** A flight, with the keys of its dialler and its server and the flight the other way. */
  predicate FlightOk(kx: Crypto.KeyExchange, f: Option<Flight>, dialler: Option<Crypto.Key>, server: Option<Crypto.Key>,
      back: Option<Flight>, ks: seq<Crypto.Key>)
  {
    f.Some? ==>
      && back.None?
      && (f.value.stub ==> dialler.None?)
      && (f.value.stage.Answered? ==>
            && ks != [] && ks[|ks| - 1] == kx.derive(f.value.stage.secret, kx.publicOf(f.value.secret))
            && OfLast(server, ks) && OfEarlier(dialler, ks))
  }

  /** Every key is of some handshake; and with none halfway, the keys agree, or are of different handshakes if the
      last one lost its answer. */
  predicate PairOk(kx: Crypto.KeyExchange, p: Pair, split: bool, ks: seq<Crypto.Key>) {
    && FlightOk(kx, p.f1, p.k1, p.k2, p.f2, ks) && FlightOk(kx, p.f2, p.k2, p.k1, p.f1, ks)
    && OfSome(p.k1, ks) && OfSome(p.k2, ks)
    && (Between(p.f1) || Between(p.f2) || if split then Apart(p.k1, p.k2, ks) else Agree(p.k1, p.k2))
  }

  lemma SwapPair(kx: Crypto.KeyExchange, y: System, a: DeviceId, b: DeviceId, split: bool, ks: seq<Crypto.Key>)
    ensures PairOk(kx, PairOf(y, a, b), split, ks) <==> PairOk(kx, PairOf(y, b, a), split, ks)
  {
  }

  predicate Forgets(k: Option<Crypto.Key>, k': Option<Crypto.Key>) { k' == None || k' == k }

  lemma ForgettingKeeps(kx: Crypto.KeyExchange, p: Pair, p': Pair, split: bool, ks: seq<Crypto.Key>)
    requires PairOk(kx, p, split, ks) && p'.f1 == p.f1 && p'.f2 == p.f2 && Forgets(p.k1, p'.k1) && Forgets(p.k2, p'.k2)
    ensures PairOk(kx, p', split, ks)
  {
  }

  /** An event that admits nobody can only make a node forget a key. */
  lemma LocalKeys(me: DeviceId, r: Registry, e: Events.Event, id: DeviceId)
    requires Events.Inv(me, r) && !Events.AdmitsPeer(me, r, e, id)
    ensures Forgets(KeyOf(r, id), KeyOf(Events.Apply(me, r, e), id))
  {
    if id in Events.Apply(me, r, e).inner {
      Replay.IdentityStep(me, r, e, id);
    }
  }

  lemma AdmitKeys(me: DeviceId, r: Registry, p: Identity, c: Client, id: DeviceId)
    requires Events.Inv(me, r) && p.deviceId != me
    ensures Events.Inv(me, Events.Admit(r, p, c))
    ensures KeyOf(Events.Admit(r, p, c), id) == if id == p.deviceId then Some(p.aesKey) else KeyOf(r, id)
  {
  }

  /** Every node's registry stays consistent. */
  lemma StepKeepsNodes(kx: Crypto.KeyExchange, y: System, a: Action, n: DeviceId)
    requires NodeOk(y, n)
    ensures NodeOk(Step(kx, y, a), n)
  {
    match a {
      case Serve(d, s, _, _, _, client) =>
        if Waiting(y, d, s) && n == s && d != s {
          AdmitKeys(n, RegistryOf(y, n), DiallerSeen(kx, y, a), client, d);
        }
      case Complete(d, s, _, _, client) =>
        if Halfway(y, d, s) && n == d && d != s {
          AdmitKeys(n, RegistryOf(y, n), ServerSeen(kx, y, a), client, s);
        }
      case Local(m, e) =>
        if n == m {
          Events.ApplyKeepsInv(n, RegistryOf(y, n), e);
        }
      case _ =>
    }
  }

  /** What other pairs do leaves the keys and flights of this one alone. */
  lemma ElsewhereKeeps(kx: Crypto.KeyExchange, y: System, act: Action, a: DeviceId, b: DeviceId)
    requires !act.Local? && !OnPair(act, a, b) && NodeOk(y, a)
    ensures var y' := Step(kx, y, act); KeyAt(y', a, b) == KeyAt(y, a, b) && FlightAt(y', a, b) == FlightAt(y, a, b)
  {
    match act {
      case Serve(d, s, _, _, _, client) =>
        if Waiting(y, d, s) && a == s && d != s {
          AdmitKeys(a, RegistryOf(y, a), DiallerSeen(kx, y, act), client, b);
        }
      case Complete(d, s, _, _, client) =>
        if Halfway(y, d, s) && a == d && d != s {
          AdmitKeys(a, RegistryOf(y, a), ServerSeen(kx, y, act), client, b);
        }
      case _ =>
    }
  }

  lemma LocalForgets(kx: Crypto.KeyExchange, y: System, n: DeviceId, e: Events.Event, a: DeviceId, b: DeviceId)
    requires NodeOk(y, a)
    ensures var y' := Step(kx, y, Local(n, e)); Forgets(KeyAt(y, a, b), KeyAt(y', a, b)) && FlightAt(y', a, b) == FlightAt(y, a, b)
  {
    if AdmitsNobody(e) && n == a {
      LocalKeys(a, RegistryOf(y, a), e, b);
    }
  }

  /** The pair before and after a served handshake, a completed one, and the other steps of its own. */
  lemma ServeStep(kx: Crypto.KeyExchange, y: System, act: Action, p: Pair)
    requires act.Serve? && TakesOn(kx, y, act) && NodeOk(y, act.s) && p == PairOf(y, act.d, act.s) && p.f2.None?
    ensures var k := kx.derive(act.secret, kx.publicOf(p.f1.value.secret));
      && DiallerSeen(kx, y, act).aesKey == k
      && PairOf(Step(kx, y, act), act.d, act.s) == Pair(p.k1, Some(k), Some(p.f1.value.(stage := Answered(act.secret))), None)
  {
    AdmitKeys(act.s, RegistryOf(y, act.s), DiallerSeen(kx, y, act), act.client, act.d);
  }

  lemma CompleteStep(kx: Crypto.KeyExchange, y: System, act: Action, p: Pair)
    requires act.Complete? && NodeOk(y, act.d) && p == PairOf(y, act.d, act.s)
    requires act.d != act.s && Between(p.f1) && p.f2.None? && (p.f1.value.stub ==> p.k1.None?)
    ensures var p', k := PairOf(Step(kx, y, act), act.d, act.s), kx.derive(p.f1.value.secret, kx.publicOf(p.f1.value.stage.secret));
      p'.k2 == p.k2 && p'.f1 == None && p'.f2 == None && (p'.k1 == Some(k) || p'.k1 == None)
  {
    var r := RegistryOf(y, act.d);
    AdmitKeys(act.d, r, ServerSeen(kx, y, act), act.client, act.s);
    assert act.s in r.inner ==> act.s in r.approved;
  }

  lemma OtherStep(kx: Crypto.KeyExchange, y: System, act: Action, p: Pair)
    requires (act.Dial? || act.GiveUp? || act.LoseReply?) && act.d != act.s && p == PairOf(y, act.d, act.s)
    ensures var p' := PairOf(Step(kx, y, act), act.d, act.s);
      && p'.k1 == p.k1 && p'.k2 == p.k2 && p'.f2 == p.f2
      && p'.f1 == match act
           case Dial(d, s, stub, secret) => if MayDial(y, d, s, stub) then Some(Flight(stub, secret, Requested)) else p.f1
           case GiveUp(_, _) => if p.f1.Some? && !Between(p.f1) then None else p.f1
           case _ => if Between(p.f1) then None else p.f1
  {
  }

  lemma ServeKeeps(kx: Crypto.KeyExchange, y: System, act: Action, split: bool, ks: seq<Crypto.Key>)
    requires act.Serve? && NodeOk(y, act.s) && PairOk(kx, PairOf(y, act.d, act.s), split, ks)
    ensures PairOk(kx, PairOf(Step(kx, y, act), act.d, act.s), split, KeysAfter(kx, y, act, act.d, act.s, ks))
  {
    if TakesOn(kx, y, act) {
      var p := PairOf(y, act.d, act.s);
      ServeStep(kx, y, act, p);
      assert (ks + [DiallerSeen(kx, y, act).aesKey])[..|ks|] == ks;
    }
  }

  /** A stub dial finds its server still unknown, since no other handshake of the pair ran meanwhile; so every
      completion either stores the server's key or, when the server is banned, finds it not listed. */
  lemma CompleteKeeps(kx: Crypto.KeyExchange, y: System, act: Action, split: bool, ks: seq<Crypto.Key>)
    requires Crypto.Symmetric(kx) && act.Complete? && NodeOk(y, act.d) && PairOk(kx, PairOf(y, act.d, act.s), split, ks)
    ensures PairOk(kx, PairOf(Step(kx, y, act), act.d, act.s), SplitAfter(y, act, act.d, act.s, split), ks)
    ensures Halfway(y, act.d, act.s) ==> Agree(KeyAt(Step(kx, y, act), act.d, act.s), KeyAt(Step(kx, y, act), act.s, act.d))
  {
    if Halfway(y, act.d, act.s) {
      var p := PairOf(y, act.d, act.s);
      CompleteStep(kx, y, act, p);
      assert kx.derive(p.f1.value.secret, kx.publicOf(p.f1.value.stage.secret))
          == kx.derive(p.f1.value.stage.secret, kx.publicOf(p.f1.value.secret));
    }
  }

  lemma OnPairKeeps(kx: Crypto.KeyExchange, y: System, act: Action, split: bool, ks: seq<Crypto.Key>)
    requires Crypto.Symmetric(kx) && !act.Local?
    requires NodeOk(y, act.d) && NodeOk(y, act.s) && PairOk(kx, PairOf(y, act.d, act.s), split, ks)
    ensures PairOk(kx, PairOf(Step(kx, y, act), act.d, act.s), SplitAfter(y, act, act.d, act.s, split),
                   KeysAfter(kx, y, act, act.d, act.s, ks))
  {
    if act.Serve? {
      ServeKeeps(kx, y, act, split, ks);
    } else if act.Complete? {
      CompleteKeeps(kx, y, act, split, ks);
    } else if act.d != act.s {
      OtherStep(kx, y, act, PairOf(y, act.d, act.s));
    }
  }

  lemma OnPairKeepsEither(kx: Crypto.KeyExchange, y: System, act: Action, a: DeviceId, b: DeviceId, split: bool, ks: seq<Crypto.Key>)
    requires Crypto.Symmetric(kx) && NodeOk(y, a) && NodeOk(y, b) && PairOk(kx, PairOf(y, a, b), split, ks) && OnPair(act, a, b)
    ensures PairOk(kx, PairOf(Step(kx, y, act), a, b), SplitAfter(y, act, a, b, split), KeysAfter(kx, y, act, a, b, ks))
  {
    SwapPair(kx, y, a, b, split, ks);
    OnPairKeeps(kx, y, act, split, ks);
    SwapPair(kx, Step(kx, y, act), a, b, SplitAfter(y, act, a, b, split), KeysAfter(kx, y, act, a, b, ks));
  }

  lemma LocalKeeps(kx: Crypto.KeyExchange, y: System, act: Action, a: DeviceId, b: DeviceId, split: bool, ks: seq<Crypto.Key>)
    requires act.Local? && NodeOk(y, a) && NodeOk(y, b) && PairOk(kx, PairOf(y, a, b), split, ks)
    ensures PairOk(kx, PairOf(Step(kx, y, act), a, b), split, ks)
  {
    LocalForgets(kx, y, act.n, act.e, a, b);
    LocalForgets(kx, y, act.n, act.e, b, a);
    ForgettingKeeps(kx, PairOf(y, a, b), PairOf(Step(kx, y, act), a, b), split, ks);
  }

  lemma StepKeepsPair(kx: Crypto.KeyExchange, y: System, act: Action, a: DeviceId, b: DeviceId, split: bool, ks: seq<Crypto.Key>)
    requires Crypto.Symmetric(kx) && NodeOk(y, a) && NodeOk(y, b) && PairOk(kx, PairOf(y, a, b), split, ks)
    ensures PairOk(kx, PairOf(Step(kx, y, act), a, b), SplitAfter(y, act, a, b, split), KeysAfter(kx, y, act, a, b, ks))
  {
    if act.Local? {
      LocalKeeps(kx, y, act, a, b, split, ks);
    } else if OnPair(act, a, b) {
      OnPairKeepsEither(kx, y, act, a, b, split, ks);
    } else {
      ElsewhereKeeps(kx, y, act, a, b);
      ElsewhereKeeps(kx, y, act, b, a);
    }
  }

  /** The invariant of every run. */
  ghost predicate RunOk(kx: Crypto.KeyExchange, actions: seq<Action>, a: DeviceId, b: DeviceId) {
    var y := Run(kx, actions);
    NodeOk(y, a) && NodeOk(y, b) && PairOk(kx, PairOf(y, a, b), Split(kx, actions, a, b), ServedKeys(kx, actions, a, b))
  }

  lemma {:induction false} EveryRunKeepsPairs(kx: Crypto.KeyExchange, actions: seq<Action>, a: DeviceId, b: DeviceId)
    requires Crypto.Symmetric(kx)
    ensures RunOk(kx, actions, a, b)
  {
    if actions != [] {
      var init, act := actions[..|actions| - 1], actions[|actions| - 1];
      var y := Run(kx, init);
      EveryRunKeepsPairs(kx, init, a, b);
      StepKeepsPair(kx, y, act, a, b, Split(kx, init, a, b), ServedKeys(kx, init, a, b));
      StepKeepsNodes(kx, y, act, a);
      StepKeepsNodes(kx, y, act, b);
    }
  }

  /** The two nodes list each other, and none of their handshakes is halfway. */
  predicate Settled(y: System, a: DeviceId, b: DeviceId) {
    && b in RegistryOf(y, a).inner && a in RegistryOf(y, b).inner
    && !Halfway(y, a, b) && !Halfway(y, b, a)
  }

  /** No two handshakes of the pair come to one key: each has its own ephemeral secrets. */
  predicate Distinct(ks: seq<Crypto.Key>) { forall i, j | 0 <= i < j < |ks| :: ks[i] != ks[j] }

  /** In every run, whatever else fails in the network, two nodes that list each other hold the same key whenever
      none of their handshakes is halfway and the last one served did not lose its answer: the next completed
      handshake repairs what a lost answer has broken. If handshakes never repeat a key, they hold the same key
      only then. */
  lemma MutualPeersShareTheirKey(kx: Crypto.KeyExchange, actions: seq<Action>, a: DeviceId, b: DeviceId)
    requires Crypto.Symmetric(kx) && Settled(Run(kx, actions), a, b)
    ensures !Split(kx, actions, a, b) ==> KeyAt(Run(kx, actions), a, b) == KeyAt(Run(kx, actions), b, a)
    ensures Distinct(ServedKeys(kx, actions, a, b)) ==>
      (KeyAt(Run(kx, actions), a, b) == KeyAt(Run(kx, actions), b, a) <==> !Split(kx, actions, a, b))
  {
    EveryRunKeepsPairs(kx, actions, a, b);
    var y, ks := Run(kx, actions), ServedKeys(kx, actions, a, b);
    if Split(kx, actions, a, b) && Distinct(ks) {
      ApartKeysDiffer(KeyAt(y, a, b), KeyAt(y, b, a), ks);
    }
  }

  lemma ApartKeysDiffer(k1: Option<Crypto.Key>, k2: Option<Crypto.Key>, ks: seq<Crypto.Key>)
    requires Apart(k1, k2, ks) && Distinct(ks) && k1.Some? && k2.Some?
    ensures k1 != k2
  {
    assert forall i | 0 <= i < |ks| - 1 :: ks[i] != ks[|ks| - 1];
  }

  // ---------------------------------------------------------------------------
  // Own secrets make distinct keys
  // ---------------------------------------------------------------------------

  predicate Draws(act: Action) { act.Dial? || act.Serve? }

  /** The ephemeral secrets drawn so far, in dials and in answers. */
  function Secrets(actions: seq<Action>): set<Crypto.Secret> {
    set i | 0 <= i < |actions| && Draws(actions[i]) :: actions[i].secret
  }

  /** No secret is drawn twice. */
  predicate OwnSecrets(actions: seq<Action>) {
    forall i, j | 0 <= i < j < |actions| && Draws(actions[i]) && Draws(actions[j]) :: actions[i].secret != actions[j].secret
  }

  ghost predicate DerivedFrom(kx: Crypto.KeyExchange, k: Crypto.Key, secrets: set<Crypto.Secret>) {
    exists s, t :: s in secrets && t in secrets && k == kx.derive(s, kx.publicOf(t))
  }

  /** Flights carry drawn secrets, and the keys the pair's servers came to are of drawn secrets. */
  ghost predicate Drawn(kx: Crypto.KeyExchange, actions: seq<Action>, a: DeviceId, b: DeviceId) {
    && (forall p | p in Run(kx, actions).flights :: Run(kx, actions).flights[p].secret in Secrets(actions))
    && forall k | k in ServedKeys(kx, actions, a, b) :: DerivedFrom(kx, k, Secrets(actions))
  }

  lemma SecretsGrow(actions: seq<Action>)
    requires actions != []
    ensures var init, act := actions[..|actions| - 1], actions[|actions| - 1];
      Secrets(actions) == Secrets(init) + if Draws(act) then {act.secret} else {}
  {
    var init, act := actions[..|actions| - 1], actions[|actions| - 1];
    forall i | 0 <= i < |init| && Draws(init[i]) ensures init[i].secret in Secrets(actions) {
      assert actions[i] == init[i];
    }
  }

  lemma {:induction false} SecretsAreDrawn(kx: Crypto.KeyExchange, actions: seq<Action>, a: DeviceId, b: DeviceId)
    ensures Drawn(kx, actions, a, b)
  {
    if actions != [] {
      var init, act := actions[..|actions| - 1], actions[|actions| - 1];
      SecretsAreDrawn(kx, init, a, b);
      SecretsGrow(actions);
      forall k | k in ServedKeys(kx, actions, a, b) ensures DerivedFrom(kx, k, Secrets(actions)) {
        if k in ServedKeys(kx, init, a, b) {
          assert DerivedFrom(kx, k, Secrets(init));
        } else {
          assert k == kx.derive(act.secret, kx.publicOf(Run(kx, init).flights[(act.d, act.s)].secret));
        }
      }
    }
  }

  /** If no secret is drawn twice, and only the same two secrets come to the same key, no two handshakes of the pair
      come to one key. */
  lemma {:induction false} OwnSecretsMakeDistinctKeys(kx: Crypto.KeyExchange, actions: seq<Action>, a: DeviceId, b: DeviceId)
    requires Crypto.NoCollisions(kx) && OwnSecrets(actions)
    ensures Distinct(ServedKeys(kx, actions, a, b))
  {
    if actions != [] {
      var init, act := actions[..|actions| - 1], actions[|actions| - 1];
      var ks := ServedKeys(kx, init, a, b);
      OwnSecretsMakeDistinctKeys(kx, init, a, b);
      SecretsAreDrawn(kx, init, a, b);
      if OnPair(act, a, b) && TakesOn(kx, Run(kx, init), act) {
        assert act.secret !in Secrets(init);
        forall i | 0 <= i < |ks| ensures ks[i] != DiallerSeen(kx, Run(kx, init), act).aesKey {
          assert ks[i] in ks;
          var s, t :| s in Secrets(init) && t in Secrets(init) && ks[i] == kx.derive(s, kx.publicOf(t));
        }
      }
    }
  }

  /** So with ephemeral secrets that are never drawn twice, two settled nodes that list each other hold the same key
      if and only if the last handshake served between them kept its answer. */
  lemma SharedKeyIffAnswerKept(kx: Crypto.KeyExchange, actions: seq<Action>, a: DeviceId, b: DeviceId)
    requires Crypto.Symmetric(kx) && Crypto.NoCollisions(kx) && OwnSecrets(actions) && Settled(Run(kx, actions), a, b)
    ensures KeyAt(Run(kx, actions), a, b) == KeyAt(Run(kx, actions), b, a) <==> !Split(kx, actions, a, b)
  {
    OwnSecretsMakeDistinctKeys(kx, actions, a, b);
    MutualPeersShareTheirKey(kx, actions, a, b);
  }

  lemma RunSnoc(kx: Crypto.KeyExchange, actions: seq<Action>, a: Action)
    ensures Run(kx, actions + [a]) == Step(kx, Run(kx, actions), a)
  {
    assert (actions + [a])[..|actions|] == actions;
  }

  predicate Idle(y: System, a: DeviceId, b: DeviceId) { !InFlight(y, a, b) && !InFlight(y, b, a) }

  predicate Trusting(y: System, a: DeviceId, b: DeviceId) {
    b !in RegistryOf(y, a).banned && a !in RegistryOf(y, b).banned
  }

  lemma ServedOnly(kx: Crypto.KeyExchange, y: System, a: DeviceId, b: DeviceId, s: Crypto.Secret, t: Crypto.Secret, addr: Addr, c: Client)
    requires a != b && Idle(y, a, b) && Trusting(y, a, b) && NodeOk(y, b)
    ensures var y' := Step(kx, Step(kx, y, Dial(a, b, false, s)), Serve(a, b, t, "", addr, c));
      && Halfway(y', a, b) && !InFlight(y', b, a) && Trusting(y', a, b)
      && y'.flights[(a, b)] == Flight(false, s, Answered(t))
      && KeyAt(y', a, b) == KeyAt(y, a, b) && KeyAt(y', b, a) == Some(kx.derive(t, kx.publicOf(s)))
      && RegistryOf(y', a) == RegistryOf(y, a)
  {
    var dialled := Step(kx, y, Dial(a, b, false, s));
    AdmitKeys(b, RegistryOf(y, b), DiallerSeen(kx, dialled, Serve(a, b, t, "", addr, c)), c, a);
  }

  lemma CompletedToo(kx: Crypto.KeyExchange, a: DeviceId, b: DeviceId, s: Crypto.Secret, t: Crypto.Secret, addr: Addr, c: Client)
    requires a != b
    ensures var y := Run(kx, [Dial(a, b, false, s), Serve(a, b, t, "", addr, c), Complete(a, b, "", addr, c)]);
      Idle(y, a, b) && Trusting(y, a, b) && NodeOk(y, b) && KeyAt(y, a, b) == Some(kx.derive(s, kx.publicOf(t)))
  {
    var dial, serve, complete := Dial(a, b, false, s), Serve(a, b, t, "", addr, c), Complete(a, b, "", addr, c);
    RunOfTwo(kx, [], dial, serve);
    assert [] + [dial, serve] == [dial, serve];
    ServedOnly(kx, INITIAL, a, b, s, t, addr, c);
    var y := Run(kx, [dial, serve]);
    StepKeepsNodes(kx, INITIAL, dial, b);
    StepKeepsNodes(kx, Step(kx, INITIAL, dial), serve, b);
    RunSnoc(kx, [dial, serve], complete);
    assert [dial, serve] + [complete] == [dial, serve, complete];
    AdmitKeys(a, RegistryOf(y, a), ServerSeen(kx, y, complete), c, b);
  }

  lemma ServedAndLost(kx: Crypto.KeyExchange, actions: seq<Action>, a: DeviceId, b: DeviceId, s: Crypto.Secret, t: Crypto.Secret,
      addr: Addr, c: Client)
    requires var y := Run(kx, actions); a != b && Idle(y, a, b) && Trusting(y, a, b) && NodeOk(y, b)
    ensures var y, y' := Run(kx, actions), Run(kx, actions + [Dial(a, b, false, s), Serve(a, b, t, "", addr, c), LoseReply(a, b)]);
      Idle(y', a, b) && KeyAt(y', a, b) == KeyAt(y, a, b) && KeyAt(y', b, a) == Some(kx.derive(t, kx.publicOf(s)))
  {
    var dial, serve := Dial(a, b, false, s), Serve(a, b, t, "", addr, c);
    RunOfTwo(kx, actions, dial, serve);
    ServedOnly(kx, Run(kx, actions), a, b, s, t, addr, c);
    RunSnoc(kx, actions + [dial, serve], LoseReply(a, b));
    assert actions + [dial, serve] + [LoseReply(a, b)] == actions + [dial, serve, LoseReply(a, b)];
  }

  /** One lost answer is enough to split them: after a completed handshake, a second one that is served but not
      completed leaves each side with its own key. */
  lemma LostReplySplitsKeys(kx: Crypto.KeyExchange, a: DeviceId, b: DeviceId, s1: Crypto.Secret, t1: Crypto.Secret,
      s2: Crypto.Secret, t2: Crypto.Secret, addr: Addr, c: Client)
    requires a != b
    ensures var y := Run(kx, [Dial(a, b, false, s1), Serve(a, b, t1, "", addr, c), Complete(a, b, "", addr, c)]
                             + [Dial(a, b, false, s2), Serve(a, b, t2, "", addr, c), LoseReply(a, b)]);
      && Idle(y, a, b)
      && KeyAt(y, a, b) == Some(kx.derive(s1, kx.publicOf(t1))) && KeyAt(y, b, a) == Some(kx.derive(t2, kx.publicOf(s2)))
  {
    CompletedToo(kx, a, b, s1, t1, addr, c);
    ServedAndLost(kx, [Dial(a, b, false, s1), Serve(a, b, t1, "", addr, c), Complete(a, b, "", addr, c)], a, b, s2, t2, addr, c);
  }

  lemma RunOfTwo(kx: Crypto.KeyExchange, actions: seq<Action>, a: Action, b: Action)
    ensures Run(kx, actions + [a, b]) == Step(kx, Step(kx, Run(kx, actions), a), b)
  {
    RunSnoc(kx, actions, a);
    RunSnoc(kx, actions + [a], b);
    assert actions + [a] + [b] == actions + [a, b];
  }

  // ---------------------------------------------------------------------------
  // Delivery
  // ---------------------------------------------------------------------------

  /** What a plaintext comes to at the receiver. */
  function AsText(plaintext: seq<Utf8.byte>): Node.Received {
    match Utf8.Decode(plaintext) case None => Node.NotText case Some(text) => Node.Accepted(text)
  }

  /** What opening `req` under `key` gives, whatever its bytes mean. */
  function Opened(aead: Crypto.Aead, key: Crypto.Key, req: Node.ClipboardReq): Option<seq<Utf8.byte>> {
    aead.decrypt(key, req.body, Crypto.Aad(Node.KindOf(req.kind), req.origin, req.seqNo))
  }

  /** A sealed message is opened exactly by the key it was sealed with: the receiver rebuilds the kind from its
      string, and with it the additional data. */
  lemma OpensWithTheKey(m: Node.Message, r: Registry, key: Crypto.Key, nonce: nat)
    requires Crypto.Ideal(m.aead) && (m.kind == Crypto.Text || m.kind == Crypto.ImagePng)
    requires m.me in r.inner && m.me !in r.banned && IsNew(r, m.me, m.kind, m.seqNo)
    ensures Node.Receive(m.aead, r, Node.SealedFor(m, key, nonce))
      == if r.inner[m.me].identity.aesKey == key then AsText(m.plaintext) else Node.Refused(Node.DecryptFailed)
    ensures Opened(m.aead, r.inner[m.me].identity.aesKey, Node.SealedFor(m, key, nonce))
      == if r.inner[m.me].identity.aesKey == key then Some(m.plaintext) else None
  {
    assert Node.KindOf(Node.SealedFor(m, key, nonce).kind) == m.kind;
  }

  /** Whatever happened before, a broadcast of a fresh number reaches every mutual peer as the exact plaintext; the
      peer takes it as text if it is text, and ignores it otherwise. */
  lemma BroadcastReachesMutualPeers(kx: Crypto.KeyExchange, actions: seq<Action>, b: DeviceId, m: Node.Message, nonces: map<DeviceId, nat>)
    requires Crypto.Symmetric(kx) && Crypto.Ideal(m.aead)
    requires m.kind == Crypto.Text || m.kind == Crypto.ImagePng
    requires Settled(Run(kx, actions), m.me, b) && !Split(kx, actions, m.me, b)
    requires IsNew(RegistryOf(Run(kx, actions), b), m.me, m.kind, m.seqNo)
    ensures var ra, rb := RegistryOf(Run(kx, actions), m.me), RegistryOf(Run(kx, actions), b);
      var sent := Node.Requests(m, ra, Node.ApprovedPeers(ra), nonces);
      && b in sent
      && Opened(m.aead, rb.inner[m.me].identity.aesKey, sent[b]) == Some(m.plaintext)
      && Node.Receive(m.aead, rb, sent[b]) == AsText(m.plaintext)
  {
    var y := Run(kx, actions);
    var ra, rb := RegistryOf(y, m.me), RegistryOf(y, b);
    EveryRunKeepsPairs(kx, actions, m.me, b);
    MutualPeersShareTheirKey(kx, actions, m.me, b);
    assert b in ra.pool && ra.inner[b].trust == Approved;
    assert m.me in rb.approved;
    OpensWithTheKey(m, rb, ra.inner[b].identity.aesKey, Node.At(nonces, b));
  }

  /** A broadcast text heads the history of every mutual peer: under the name the peer stores for the sender and a new
      id, unless an entry with its hash is at the head already, which then stays. */
  lemma BroadcastTextHeadsHistory(kx: Crypto.KeyExchange, actions: seq<Action>, b: DeviceId, m: Node.Message,
      nonces: map<DeviceId, nat>, text: string, shown: seq<History.Entry>, entryId: string, hash: string -> string)
    requires Crypto.Symmetric(kx) && Crypto.Ideal(m.aead) && (m.kind == Crypto.Text || m.kind == Crypto.ImagePng)
    requires m.plaintext == Utf8.Encode(text)
    requires Settled(Run(kx, actions), m.me, b) && !Split(kx, actions, m.me, b)
    requires IsNew(RegistryOf(Run(kx, actions), b), m.me, m.kind, m.seqNo)
    ensures var ra, rb := RegistryOf(Run(kx, actions), m.me), RegistryOf(Run(kx, actions), b);
      var sent := Node.Requests(m, ra, Node.ApprovedPeers(ra), nonces);
      && b in sent && Node.Receive(m.aead, rb, sent[b]) == Node.Accepted(text)
    ensures var rb := RegistryOf(Run(kx, actions), b);
      var after := History.Pushed(shown, Node.RemoteEntry(rb, m.me, entryId, text, hash));
      if shown != [] && shown[0].contentHash == Some(hash(text)) then after == shown else
      && after != []
      && after[0] == History.Entry(entryId, History.Remote(rb.inner[m.me].identity.deviceName), Some(hash(text)), text)
  {
    BroadcastReachesMutualPeers(kx, actions, b, m, nonces);
    Utf8.DecodeOfEncode(text);
  }
}
