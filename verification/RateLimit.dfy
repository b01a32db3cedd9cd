/** The sliding-window handshake limiter (peer/rate_limit.rs) against a plain log of admissions. */
module RateLimit {
  const MAX_PER_PAIR_IN_WINDOW := 3
  const MAX_GLOBAL_IN_WINDOW := 10
  /** Sixty seconds in nanoseconds, the grain of `Instant`. */
  const WINDOW: nat := 60_000_000_000

  type Ip = nat
  datatype Pair = Pair(ip: Ip, device: string)
  datatype Admission = Admission(at: nat, pair: Pair)
  datatype Decision = Allowed | TooManyRequests

  // ---------------------------------------------------------------------------
  // The specification: a log of admissions, oldest first
  // ---------------------------------------------------------------------------

  type Log = seq<Admission>

  function AllTimes(log: Log): seq<nat> {
    if log == [] then [] else AllTimes(log[..|log| - 1]) + [log[|log| - 1].at]
  }

  function PairTimes(log: Log, p: Pair): seq<nat> {
    if log == [] then []
    else if log[|log| - 1].pair == p then PairTimes(log[..|log| - 1], p) + [log[|log| - 1].at]
    else PairTimes(log[..|log| - 1], p)
  }

  /** How many of `ts` are younger than the window at `now`. */
  function Fresh(ts: seq<nat>, now: nat): nat {
    if ts == [] then 0
    else Fresh(ts[..|ts| - 1], now) + (if now < ts[|ts| - 1] + WINDOW then 1 else 0)
  }

  /** The admissions younger than a minute, and those of the pair among them. */
  function Young(log: Log, now: nat): set<nat> { set i: nat | i < |log| && now < log[i].at + 60_000_000_000 }

  function YoungOf(log: Log, now: nat, p: Pair): set<nat> {
    set i: nat | i < |log| && log[i].pair == p && now < log[i].at + 60_000_000_000
  }

  lemma {:induction false} FreshCountsAll(log: Log, now: nat)
    ensures Fresh(AllTimes(log), now) == |Young(log, now)|
  {
    if log != [] {
      var init, last: nat := log[..|log| - 1], |log| - 1;
      FreshCountsAll(init, now);
      assert Young(log, now) == Young(init, now) + if now < log[last].at + 60_000_000_000 then {last} else {};
    }
  }

  lemma {:induction false} FreshCountsPair(log: Log, now: nat, p: Pair)
    ensures Fresh(PairTimes(log, p), now) == |YoungOf(log, now, p)|
  {
    if log != [] {
      var init, last: nat := log[..|log| - 1], |log| - 1;
      FreshCountsPair(init, now, p);
      assert YoungOf(log, now, p)
        == YoungOf(init, now, p) + if log[last].pair == p && now < log[last].at + 60_000_000_000 then {last} else {};
    }
  }

  predicate Admits(log: Log, now: nat, p: Pair) {
    && Fresh(PairTimes(log, p), now) < MAX_PER_PAIR_IN_WINDOW
    && Fresh(AllTimes(log), now) < MAX_GLOBAL_IN_WINDOW
  }

  predicate Ordered(ts: seq<nat>) { forall i, j | 0 <= i < j < |ts| :: ts[i] <= ts[j] }

  /** Every entry was admitted on the strength of the entries before it. */
  predicate Lawful(log: Log) {
    log != [] ==>
      var init, last := log[..|log| - 1], log[|log| - 1];
      Lawful(init) && Admits(init, last.at, last.pair)
  }

  // ---------------------------------------------------------------------------
  // Every window obeys the limits
  // ---------------------------------------------------------------------------

  /** How many of `ts` fall in the half-open window starting at `w`. */
  function InWindow(ts: seq<nat>, w: nat): nat {
    if ts == [] then 0
    else InWindow(ts[..|ts| - 1], w) + (if w <= ts[|ts| - 1] < w + WINDOW then 1 else 0)
  }

  /** Each time saw fewer than `cap` fresh times before it. */
  predicate Capped(ts: seq<nat>, cap: nat) {
    ts != [] ==> Capped(ts[..|ts| - 1], cap) && Fresh(ts[..|ts| - 1], ts[|ts| - 1]) < cap
  }

  lemma {:induction false} WindowWithinFresh(ts: seq<nat>, w: nat, now: nat)
    requires now < w + WINDOW
    ensures InWindow(ts, w) <= Fresh(ts, now)
  {
    if ts != [] {
      WindowWithinFresh(ts[..|ts| - 1], w, now);
    }
  }

  lemma {:induction false} CappedWindows(ts: seq<nat>, cap: nat, w: nat)
    requires Capped(ts, cap)
    ensures InWindow(ts, w) <= cap
  {
    if ts != [] {
      var init, last := ts[..|ts| - 1], ts[|ts| - 1];
      CappedWindows(init, cap, w);
      if w <= last < w + WINDOW {
        WindowWithinFresh(init, w, last);
      }
    }
  }

  lemma {:induction false} TimesAreCapped(log: Log, p: Pair)
    requires Lawful(log)
    ensures Capped(AllTimes(log), MAX_GLOBAL_IN_WINDOW)
    ensures Capped(PairTimes(log, p), MAX_PER_PAIR_IN_WINDOW)
  {
    if log != [] {
      var init, last := log[..|log| - 1], log[|log| - 1];
      TimesAreCapped(init, p);
      CappedSnoc(AllTimes(init), last.at, MAX_GLOBAL_IN_WINDOW);
      if last.pair == p {
        CappedSnoc(PairTimes(init, p), last.at, MAX_PER_PAIR_IN_WINDOW);
      }
    }
  }

  lemma CappedSnoc(ts: seq<nat>, t: nat, cap: nat)
    requires Capped(ts, cap) && Fresh(ts, t) < cap
    ensures Capped(ts + [t], cap)
  {
    assert (ts + [t])[..|ts|] == ts;
  }

  /** In every half-open minute a lawful log has at most 3 admissions a pair and 10 in total. */
  lemma WindowsObeyLimits(log: Log, p: Pair, w: nat)
    requires Lawful(log)
    ensures InWindow(PairTimes(log, p), w) <= MAX_PER_PAIR_IN_WINDOW
    ensures InWindow(AllTimes(log), w) <= MAX_GLOBAL_IN_WINDOW
  {
    TimesAreCapped(log, p);
    CappedWindows(PairTimes(log, p), MAX_PER_PAIR_IN_WINDOW, w);
    CappedWindows(AllTimes(log), MAX_GLOBAL_IN_WINDOW, w);
  }

  // ---------------------------------------------------------------------------
  // Lazily pruned queues
  // ---------------------------------------------------------------------------

  /** `q` is `ts` without some leading times that have expired by `clock`. */
  ghost predicate Prunes(q: seq<nat>, ts: seq<nat>, clock: nat) {
    && |q| <= |ts|
    && q == ts[|ts| - |q|..]
    && forall i | 0 <= i < |ts| - |q| :: ts[i] + WINDOW <= clock
  }

  lemma {:induction false} AllExpired(ts: seq<nat>, now: nat)
    requires forall i | 0 <= i < |ts| :: ts[i] + WINDOW <= now
    ensures Fresh(ts, now) == 0
  {
    if ts != [] {
      AllExpired(ts[..|ts| - 1], now);
    }
  }

  /** Once its expired front is gone, a queue's length is the number of fresh times. */
  lemma {:induction false} PrunedLength(q: seq<nat>, ts: seq<nat>, now: nat)
    requires Prunes(q, ts, now) && Ordered(ts)
    requires q == [] || now < q[0] + WINDOW
    ensures |q| == Fresh(ts, now)
  {
    if q == [] {
      AllExpired(ts, now);
    } else {
      var ts', q' := ts[..|ts| - 1], q[..|q| - 1];
      assert q[0] == ts[|ts| - |q|] && q[|q| - 1] == ts[|ts| - 1];
      assert q' == ts'[|ts'| - |q'|..];
      PrunedLength(q', ts', now);
    }
  }

  lemma PrunesSnoc(q: seq<nat>, ts: seq<nat>, clock: nat, t: nat)
    requires Prunes(q, ts, clock)
    ensures Prunes(q + [t], ts + [t], clock)
  {
  }

  function Stamps(q: seq<(nat, string)>): seq<nat> { seq(|q|, i requires 0 <= i < |q| => q[i].0) }

  function QueueOf(perPair: map<Pair, seq<nat>>, p: Pair): seq<nat> {
    if p in perPair then perPair[p] else []
  }

  ghost predicate PairOk(perPair: map<Pair, seq<nat>>, log: Log, clock: nat, p: Pair) {
    Prunes(QueueOf(perPair, p), PairTimes(log, p), clock)
  }

  /** The queues hold what the log says, up to expired times not pruned yet. */
  ghost predicate Represents(perPair: map<Pair, seq<nat>>, global: seq<(nat, string)>, log: Log, clock: nat) {
    && Prunes(Stamps(global), AllTimes(log), clock)
    && forall p :: PairOk(perPair, log, clock, p)
  }

  ghost predicate Timed(log: Log, clock: nat) {
    forall i, j | 0 <= i <= j < |log| :: log[i].at <= log[j].at <= clock
  }

  lemma {:induction false} TimesOrdered(log: Log, clock: nat, p: Pair)
    requires Timed(log, clock)
    ensures Ordered(AllTimes(log)) && Ordered(PairTimes(log, p))
    ensures forall t | t in AllTimes(log) || t in PairTimes(log, p) :: log != [] && t <= log[|log| - 1].at
  {
    if log != [] {
      var init, last := log[..|log| - 1], log[|log| - 1].at;
      TimesOrdered(init, clock, p);
      OrderedSnoc(AllTimes(init), last);
      OrderedSnoc(PairTimes(init, p), last);
    }
  }

  lemma OrderedSnoc(ts: seq<nat>, t: nat)
    requires Ordered(ts) && forall x | x in ts :: x <= t
    ensures Ordered(ts + [t])
  {
    assert forall i | 0 <= i < |ts| :: ts[i] in ts;
  }

  lemma LogSnoc(log: Log, a: Admission, p: Pair)
    ensures AllTimes(log + [a]) == AllTimes(log) + [a.at]
    ensures PairTimes(log + [a], p) == if p == a.pair then PairTimes(log, p) + [a.at] else PairTimes(log, p)
  {
    assert (log + [a])[..|log|] == log;
  }

  lemma LawfulSnoc(log: Log, a: Admission)
    requires Lawful(log) && Admits(log, a.at, a.pair)
    ensures Lawful(log + [a])
  {
    assert (log + [a])[..|log|] == log;
  }

  lemma PairOkSnoc(perPair: map<Pair, seq<nat>>, log: Log, clock: nat, a: Admission, p: Pair)
    requires PairOk(perPair, log, clock, p)
    ensures PairOk(perPair[a.pair := QueueOf(perPair, a.pair) + [a.at]], log + [a], clock, p)
  {
    LogSnoc(log, a, p);
    if p == a.pair {
      PrunesSnoc(QueueOf(perPair, p), PairTimes(log, p), clock, a.at);
    }
  }

  lemma RepresentsSnoc(perPair: map<Pair, seq<nat>>, global: seq<(nat, string)>, log: Log, clock: nat, a: Admission)
    requires Represents(perPair, global, log, clock)
    ensures Represents(perPair[a.pair := QueueOf(perPair, a.pair) + [a.at]],
                       global + [(a.at, a.pair.device)], log + [a], clock)
  {
    LogSnoc(log, a, a.pair);
    assert Stamps(global + [(a.at, a.pair.device)]) == Stamps(global) + [a.at];
    PrunesSnoc(Stamps(global), AllTimes(log), clock, a.at);
    var perPair' := perPair[a.pair := QueueOf(perPair, a.pair) + [a.at]];
    forall p ensures PairOk(perPair', log + [a], clock, p) {
      PairOkSnoc(perPair, log, clock, a, p);
    }
  }

  lemma RepresentsPruned(perPair: map<Pair, seq<nat>>, global: seq<(nat, string)>, log: Log, clock: nat, now: nat,
      pair: Pair, queue: seq<nat>)
    requires Represents(perPair, global, log, clock) && clock <= now && Prunes(queue, PairTimes(log, pair), now)
    ensures Represents(perPair[pair := queue], global, log, now)
  {
    var perPair' := perPair[pair := queue];
    forall p ensures PairOk(perPair', log, now, p) {
      assert PairOk(perPair, log, clock, p);
    }
  }

  ghost predicate Sound(perPair: map<Pair, seq<nat>>, global: seq<(nat, string)>, log: Log, clock: nat) {
    Lawful(log) && Timed(log, clock) && Represents(perPair, global, log, clock)
  }

  lemma SoundSnoc(perPair: map<Pair, seq<nat>>, global: seq<(nat, string)>, log: Log, now: nat, pair: Pair)
    requires Sound(perPair, global, log, now) && Admits(log, now, pair)
    ensures Sound(perPair[pair := QueueOf(perPair, pair) + [now]], global + [(now, pair.device)],
                  log + [Admission(now, pair)], now)
  {
    LawfulSnoc(log, Admission(now, pair));
    RepresentsSnoc(perPair, global, log, now, Admission(now, pair));
  }

  lemma SoundPair(perPair: map<Pair, seq<nat>>, global: seq<(nat, string)>, log: Log, clock: nat, now: nat, p: Pair)
    requires Sound(perPair, global, log, clock) && clock <= now
    ensures Prunes(QueueOf(perPair, p), PairTimes(log, p), now) && Ordered(PairTimes(log, p))
  {
    assert PairOk(perPair, log, clock, p);
    TimesOrdered(log, clock, p);
  }

  lemma SoundPruned(perPair: map<Pair, seq<nat>>, global: seq<(nat, string)>, log: Log, clock: nat, now: nat,
      pair: Pair, queue: seq<nat>)
    requires Sound(perPair, global, log, clock) && clock <= now && Prunes(queue, PairTimes(log, pair), now)
    ensures Sound(perPair[pair := queue], global, log, now)
  {
    RepresentsPruned(perPair, global, log, clock, now, pair, queue);
  }

  lemma SoundGlobal(perPair: map<Pair, seq<nat>>, global: seq<(nat, string)>, pruned: seq<(nat, string)>, log: Log, now: nat)
    requires Sound(perPair, global, log, now) && Prunes(Stamps(pruned), AllTimes(log), now)
    ensures Sound(perPair, pruned, log, now)
  {
  }

  lemma Unstamp(perPair: map<Pair, seq<nat>>, pair: Pair, now: nat)
    requires pair in perPair
    ensures var stamped := perPair[pair] + [now];
      perPair[pair := stamped][pair := stamped[..|stamped| - 1]] == perPair
  {
    var stamped := perPair[pair] + [now];
    assert stamped[..|stamped| - 1] == perPair[pair];
  }

  class RateLimiter {
    var perPair: map<Pair, seq<nat>>
    var global: seq<(nat, string)>
    /** The admissions so far, and the latest reading of the clock. */
    ghost var log: Log
    ghost var clock: nat

    ghost predicate Valid()
      reads this
    {
      Sound(perPair, global, log, clock)
    }

    constructor ()
      ensures Valid() && log == [] && clock == 0
    {
      perPair, global, log, clock := map[], [], [], 0;
    }

    /** The pruning loop of a pair's queue, which holds the times `ts` but for some expired ones. */
    method PopExpired(stamps: seq<nat>, now: nat, ghost ts: seq<nat>) returns (queue: seq<nat>)
      requires Prunes(stamps, ts, now) && Ordered(ts)
      ensures Prunes(queue, ts, now) && |queue| == Fresh(ts, now)
    {
      queue := stamps;
      while queue != [] && WINDOW <= now - queue[0]
        invariant Prunes(queue, ts, now)
      {
        queue := queue[1..];
      }
      PrunedLength(queue, ts, now);
    }

    /** Pops the pair's expired stamps. */
    method PrunePair(now: nat, pair: Pair)
      requires Valid() && clock <= now
      modifies this`perPair, this`clock
      ensures clock == now && Valid()
      ensures pair in perPair && |perPair[pair]| == Fresh(PairTimes(log, pair), now)
    {
      SoundPair(perPair, global, log, clock, now, pair);
      var queue := PopExpired(if pair in perPair then perPair[pair] else [], now, PairTimes(log, pair));
      SoundPruned(perPair, global, log, clock, now, pair, queue);
      clock := now;
      perPair := perPair[pair := queue];
    }

    /** Pops the expired stamps of all pairs together. */
    method PruneGlobal(now: nat, ghost pruned: map<Pair, seq<nat>>)
      requires Sound(pruned, global, log, now)
      modifies this`global
      ensures Sound(pruned, global, log, now) && |global| == Fresh(AllTimes(log), now)
    {
      TimesOrdered(log, now, Pair(0, ""));
      ghost var before := global;
      while global != [] && WINDOW <= now - global[0].0
        invariant Prunes(Stamps(global), AllTimes(log), now)
      {
        assert Stamps(global[1..]) == Stamps(global)[1..];
        global := global[1..];
      }
      PrunedLength(Stamps(global), AllTimes(log), now);
      SoundGlobal(pruned, before, global, log, now);
    }

    /** Takes back the stamp the pair just got. */
    method RollBack(now: nat, pair: Pair, ghost pruned: map<Pair, seq<nat>>)
      requires Sound(pruned, global, log, clock)
      requires pair in pruned && perPair == pruned[pair := pruned[pair] + [now]]
      modifies this`perPair
      ensures Valid() && perPair == pruned
    {
      if pair in perPair {
        var stamped := perPair[pair];
        Unstamp(pruned, pair, now);
        perPair := perPair[pair := if stamped == [] then [] else stamped[..|stamped| - 1]];
      }
    }

    /** Records the admission; the pair has its stamp already. */
    method Admit(now: nat, pair: Pair, ghost pruned: map<Pair, seq<nat>>)
      requires Sound(pruned, global, log, clock) && clock == now && Admits(log, now, pair)
      requires pair in pruned && perPair == pruned[pair := pruned[pair] + [now]]
      modifies this`global, this`log
      ensures Valid() && log == old(log) + [Admission(now, pair)]
    {
      SoundSnoc(pruned, global, log, now, pair);
      global := global + [(now, pair.device)];
      log := log + [Admission(now, pair)];
    }

    /** The part under the global lock: admit, or take back the stamp the pair just got. */
    method CheckGlobal(now: nat, pair: Pair, ghost pruned: map<Pair, seq<nat>>) returns (d: Decision)
      requires Sound(pruned, global, log, clock) && clock == now
      requires pair in pruned && perPair == pruned[pair := pruned[pair] + [now]]
      requires Fresh(PairTimes(log, pair), now) < MAX_PER_PAIR_IN_WINDOW
      modifies this`perPair, this`global, this`log
      ensures Valid()
      ensures d == if Fresh(AllTimes(old(log)), now) < MAX_GLOBAL_IN_WINDOW then Allowed else TooManyRequests
      ensures log == if d == Allowed then old(log) + [Admission(now, pair)] else old(log)
    {
      PruneGlobal(now, pruned);
      if MAX_GLOBAL_IN_WINDOW <= |global| {
        RollBack(now, pair, pruned);
        d := TooManyRequests;
      } else {
        Admit(now, pair, pruned);
        d := Allowed;
      }
    }

    /** `check_handshake`: allowed exactly when the log admits it, and only then logged. A refusal, also
        the one that takes the pair's stamp back, leaves the log as it was. */
    method CheckHandshake(now: nat, pair: Pair) returns (d: Decision)
      requires Valid() && clock <= now
      modifies this
      ensures Valid() && clock == now
      ensures d == Allowed <==> Admits(old(log), now, pair)
      ensures d == Allowed <==> (
        && |set i: nat | i < |old(log)| && old(log)[i].pair == pair && now < old(log)[i].at + 60_000_000_000| < 3
        && |set i: nat | i < |old(log)| && now < old(log)[i].at + 60_000_000_000| < 10)
      ensures log == if d == Allowed then old(log) + [Admission(now, pair)] else old(log)
    {
      FreshCountsAll(log, now);
      FreshCountsPair(log, now, pair);
      PrunePair(now, pair);
      if MAX_PER_PAIR_IN_WINDOW <= |perPair[pair]| {
        return TooManyRequests;
      }
      ghost var pruned := perPair;
      perPair := perPair[pair := perPair[pair] + [now]];
      d := CheckGlobal(now, pair, pruned);
    }
  }

  // ---------------------------------------------------------------------------
  // Racing threads: each critical section on its own, with clock readings in any order
  // ---------------------------------------------------------------------------

  datatype Queues = Queues(perPair: map<Pair, seq<nat>>, global: seq<nat>)
  datatype Section = PairSection(now: nat, pair: Pair) | GlobalSection(now: nat, pair: Pair)

  function Expire(q: seq<nat>, now: nat): (r: seq<nat>)
    ensures |r| <= |q|
  {
    if q != [] && q[0] + WINDOW <= now then Expire(q[1..], now) else q
  }

  function Execute(s: Queues, section: Section): Queues {
    match section
    case PairSection(now, p) =>
      var q := Expire(QueueOf(s.perPair, p), now);
      s.(perPair := s.perPair[p := if MAX_PER_PAIR_IN_WINDOW <= |q| then q else q + [now]])
    case GlobalSection(now, p) =>
      var g := Expire(s.global, now);
      if MAX_GLOBAL_IN_WINDOW <= |g| then
        var q := QueueOf(s.perPair, p);
        s.(global := g, perPair := if q == [] then s.perPair else s.perPair[p := q[..|q| - 1]])
      else s.(global := g + [now])
  }

  function Interleave(sections: seq<Section>): Queues {
    if sections == [] then Queues(map[], []) else Execute(Interleave(sections[..|sections| - 1]), sections[|sections| - 1])
  }

  /** However the sections of any number of threads interleave, no queue outgrows its limit. */
  lemma {:induction false} RacingQueuesStayCapped(sections: seq<Section>, p: Pair)
    ensures |QueueOf(Interleave(sections).perPair, p)| <= MAX_PER_PAIR_IN_WINDOW
    ensures |Interleave(sections).global| <= MAX_GLOBAL_IN_WINDOW
  {
    if sections != [] {
      RacingQueuesStayCapped(sections[..|sections| - 1], p);
    }
  }
}
