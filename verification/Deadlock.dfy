/** The locks of the peer registry, the client pool and the rate limiter: every operation
    as the exact order in which it takes and drops them, and freedom from deadlock. */
module Deadlock {
  /** Declared in the order in which nested acquisitions happen. */
  datatype Lock = ApprovedLock | BannedLock | GlobalLock | PerPairLock | InnerLock | PoolLock
  datatype Mode = Read | Write
  datatype Action = Acquire(lock: Lock, mode: Mode) | Release(lock: Lock)

  function Rank(l: Lock): nat {
    match l
    case ApprovedLock => 0
    case BannedLock => 1
    case GlobalLock => 2
    case PerPairLock => 3
    case InnerLock => 4
    case PoolLock => 5
  }

  // ---------------------------------------------------------------------------
  // The operations
  // ---------------------------------------------------------------------------

  datatype Operation =
    | ReadInner | ReadApproved | ReadBanned | ReadPool
    /** insert, record_*, seen_seq_and_update, update_aes_key, reset_heartbeat_failures. */
    | WriteInner
    /** The pool's insert, replace, remove and remove_for_rebuild. */
    | WritePool
    | Remove | Clear | Approve
    | Ban(wasPeer: bool)
    | HandshakeRefusedPerPair | HandshakeRefusedGlobally | HandshakeAllowed

  function Section(l: Lock, mode: Mode): seq<Action> { [Acquire(l, mode), Release(l)] }

  /** approve and ban hold the approved lock while they take the banned lock. */
  const TRUST_SECTION: seq<Action> :=
    [Acquire(ApprovedLock, Write), Acquire(BannedLock, Write), Release(BannedLock), Release(ApprovedLock)]

  function Trace(op: Operation): seq<Action> {
    match op
    case ReadInner => Section(InnerLock, Read)
    case ReadApproved => Section(ApprovedLock, Read)
    case ReadBanned => Section(BannedLock, Read)
    case ReadPool => Section(PoolLock, Read)
    case WriteInner => Section(InnerLock, Write)
    case WritePool => Section(PoolLock, Write)
    case Remove =>
      Section(InnerLock, Write) + (Section(ApprovedLock, Write) + (Section(BannedLock, Write) + Section(PoolLock, Write)))
    case Clear => Section(InnerLock, Write) + (Section(ApprovedLock, Write) + Section(BannedLock, Write))
    case Approve => TRUST_SECTION + Section(InnerLock, Write)
    case Ban(wasPeer) =>
      TRUST_SECTION + (Section(InnerLock, Write) + (if wasPeer then Section(PoolLock, Write) else []))
    case HandshakeRefusedPerPair => Section(PerPairLock, Write)
    case HandshakeRefusedGlobally =>
      Section(PerPairLock, Write)
      + [Acquire(GlobalLock, Write), Acquire(PerPairLock, Write), Release(PerPairLock), Release(GlobalLock)]
    case HandshakeAllowed => Section(PerPairLock, Write) + Section(GlobalLock, Write)
  }

  function Program(ops: seq<Operation>): seq<Action> {
    if ops == [] then [] else Trace(ops[0]) + Program(ops[1..])
  }

  // ---------------------------------------------------------------------------
  // Lock discipline
  // ---------------------------------------------------------------------------

  /** From `held`, the actions take locks only above those held, drop only what is held, and end empty-handed. */
  predicate Disciplined(held: set<Lock>, actions: seq<Action>)
    decreases |actions|
  {
    if actions == [] then held == {} else
    match actions[0]
    case Acquire(l, _) => (forall h | h in held :: Rank(h) < Rank(l)) && Disciplined(held + {l}, actions[1..])
    case Release(l) => l in held && Disciplined(held - {l}, actions[1..])
  }

  lemma {:induction false} DisciplinedConcat(held: set<Lock>, a: seq<Action>, b: seq<Action>)
    requires Disciplined(held, a) && Disciplined({}, b)
    ensures Disciplined(held, a + b)
    decreases |a|
  {
    if a == [] {
      assert a + b == b;
    } else {
      var held' := if a[0].Acquire? then held + {a[0].lock} else held - {a[0].lock};
      DisciplinedConcat(held', a[1..], b);
      assert (a + b)[1..] == a[1..] + b;
    }
  }

  lemma SectionIsDisciplined(l: Lock, mode: Mode)
    ensures Disciplined({}, Section(l, mode))
  {
    var s := Section(l, mode);
    assert s[1..] == [Release(l)] && s[1..][1..] == [];
    assert {} + {l} - {l} == {};
  }

  lemma NestedIsDisciplined(outer: Lock, inner: Lock)
    requires Rank(outer) < Rank(inner)
    ensures Disciplined({}, [Acquire(outer, Write), Acquire(inner, Write), Release(inner), Release(outer)])
  {
    var s := [Acquire(outer, Write), Acquire(inner, Write), Release(inner), Release(outer)];
    assert s[1..] == [Acquire(inner, Write), Release(inner), Release(outer)];
    assert s[1..][1..] == [Release(inner), Release(outer)];
    assert s[1..][1..][1..] == [Release(outer)];
    assert {outer} - {outer} == {};
    assert Disciplined({outer}, s[1..][1..][1..]);
    assert {outer} + {inner} - {inner} == {outer};
    assert Disciplined({outer} + {inner}, s[1..][1..]);
    assert {} + {outer} == {outer};
    assert Disciplined({outer}, s[1..]);
  }

  lemma TraceIsDisciplined(op: Operation)
    ensures Disciplined({}, Trace(op))
  {
    forall l, mode ensures Disciplined({}, Section(l, mode)) {
      SectionIsDisciplined(l, mode);
    }
    NestedIsDisciplined(ApprovedLock, BannedLock);
    NestedIsDisciplined(GlobalLock, PerPairLock);
    match op {
      case Remove =>
        DisciplinedConcat({}, Section(BannedLock, Write), Section(PoolLock, Write));
        DisciplinedConcat({}, Section(ApprovedLock, Write), Section(BannedLock, Write) + Section(PoolLock, Write));
        DisciplinedConcat({}, Section(InnerLock, Write),
          Section(ApprovedLock, Write) + (Section(BannedLock, Write) + Section(PoolLock, Write)));
      case Clear =>
        DisciplinedConcat({}, Section(ApprovedLock, Write), Section(BannedLock, Write));
        DisciplinedConcat({}, Section(InnerLock, Write), Section(ApprovedLock, Write) + Section(BannedLock, Write));
      case Approve =>
        DisciplinedConcat({}, TRUST_SECTION, Section(InnerLock, Write));
      case Ban(wasPeer) =>
        var pool := if wasPeer then Section(PoolLock, Write) else [];
        DisciplinedConcat({}, Section(InnerLock, Write), pool);
        DisciplinedConcat({}, TRUST_SECTION, Section(InnerLock, Write) + pool);
      case HandshakeRefusedGlobally =>
        DisciplinedConcat({}, Section(PerPairLock, Write),
          [Acquire(GlobalLock, Write), Acquire(PerPairLock, Write), Release(PerPairLock), Release(GlobalLock)]);
      case HandshakeAllowed =>
        DisciplinedConcat({}, Section(PerPairLock, Write), Section(GlobalLock, Write));
      case _ =>
    }
  }

  lemma {:induction false} ProgramIsDisciplined(ops: seq<Operation>)
    ensures Disciplined({}, Program(ops))
  {
    if ops != [] {
      TraceIsDisciplined(ops[0]);
      ProgramIsDisciplined(ops[1..]);
      DisciplinedConcat({}, Trace(ops[0]), Program(ops[1..]));
    }
  }

  // ---------------------------------------------------------------------------
  // Threads
  // ---------------------------------------------------------------------------

  datatype Thread = Thread(todo: seq<Action>, reading: set<Lock>, writing: set<Lock>) {
    function Held(): set<Lock> { reading + writing }

    predicate Wants(l: Lock, mode: Mode) { todo != [] && todo[0] == Acquire(l, mode) }
  }

  type Threads = seq<Thread>

  predicate Free(ts: Threads, l: Lock) { forall j | 0 <= j < |ts| :: l !in ts[j].Held() }

  predicate NoWriter(ts: Threads, l: Lock) { forall j | 0 <= j < |ts| :: l !in ts[j].writing }

  /** Thread `i` can make its next action. The locks are fair: a reader also waits for writers in the queue. */
  predicate CanMove(ts: Threads, i: nat)
    requires i < |ts|
  {
    && ts[i].todo != []
    && match ts[i].todo[0]
       case Release(_) => true
       case Acquire(l, Write) => Free(ts, l)
       case Acquire(l, Read) => NoWriter(ts, l) && forall j | 0 <= j < |ts| :: !ts[j].Wants(l, Write)
  }

  function Move(t: Thread): Thread
    requires t.todo != []
  {
    match t.todo[0]
    case Release(l) => Thread(t.todo[1..], t.reading - {l}, t.writing - {l})
    case Acquire(l, Write) => Thread(t.todo[1..], t.reading, t.writing + {l})
    case Acquire(l, Read) => Thread(t.todo[1..], t.reading + {l}, t.writing)
  }

  /** A schedule names the threads that move, one after the other; each must be able to. */
  predicate Schedulable(ts: Threads, schedule: seq<nat>)
    decreases |schedule|
  {
    schedule == [] ||
    (schedule[0] < |ts| && CanMove(ts, schedule[0])
     && Schedulable(ts[schedule[0] := Move(ts[schedule[0]])], schedule[1..]))
  }

  function Reached(ts: Threads, schedule: seq<nat>): Threads
    requires Schedulable(ts, schedule)
    decreases |schedule|
  {
    if schedule == [] then ts
    else Reached(ts[schedule[0] := Move(ts[schedule[0]])], schedule[1..])
  }

  predicate AllDisciplined(ts: Threads) {
    forall i | 0 <= i < |ts| :: Disciplined(ts[i].Held(), ts[i].todo)
  }

  lemma MoveKeepsDiscipline(t: Thread)
    requires t.todo != [] && Disciplined(t.Held(), t.todo)
    ensures Disciplined(Move(t).Held(), Move(t).todo)
  {
    match t.todo[0] {
      case Acquire(l, _) => assert Move(t).Held() == t.Held() + {l};
      case Release(l) => assert Move(t).Held() == t.Held() - {l};
    }
  }

  /** The unfinished thread that waits for the highest lock. */
  lemma {:induction false} HighestWaiter(ts: Threads) returns (i: nat)
    requires exists k :: 0 <= k < |ts| && ts[k].todo != [] && ts[k].todo[0].Acquire?
    ensures i < |ts| && ts[i].todo != [] && ts[i].todo[0].Acquire?
    ensures forall j | 0 <= j < |ts| && ts[j].todo != [] && ts[j].todo[0].Acquire? ::
      Rank(ts[j].todo[0].lock) <= Rank(ts[i].todo[0].lock)
  {
    i :| i < |ts| && ts[i].todo != [] && ts[i].todo[0].Acquire?;
    for k := 0 to |ts|
      invariant i < |ts| && ts[i].todo != [] && ts[i].todo[0].Acquire?
      invariant forall j | 0 <= j < k && ts[j].todo != [] && ts[j].todo[0].Acquire? ::
        Rank(ts[j].todo[0].lock) <= Rank(ts[i].todo[0].lock)
    {
      if ts[k].todo != [] && ts[k].todo[0].Acquire? && Rank(ts[i].todo[0].lock) < Rank(ts[k].todo[0].lock) {
        i := k;
      }
    }
  }

  lemma SomeoneMoves(ts: Threads, k: nat) returns (i: nat)
    requires AllDisciplined(ts) && k < |ts| && ts[k].todo != []
    ensures i < |ts| && CanMove(ts, i)
  {
    if r: nat :| r < |ts| && ts[r].todo != [] && ts[r].todo[0].Release? {
      return r;
    }
    assert ts[k].todo[0].Acquire?;
    i := HighestWaiter(ts);
    var l := ts[i].todo[0].lock;
    forall j | 0 <= j < |ts| ensures l !in ts[j].Held() {
      assert Disciplined(ts[j].Held(), ts[j].todo);
    }
    if ts[i].todo[0].mode == Read {
      if w: nat :| w < |ts| && ts[w].Wants(l, Write) {
        i := w;
      }
    }
  }

  lemma {:induction false} ReachedIsDisciplined(ts: Threads, schedule: seq<nat>)
    requires AllDisciplined(ts) && Schedulable(ts, schedule)
    ensures AllDisciplined(Reached(ts, schedule)) && |Reached(ts, schedule)| == |ts|
    decreases |schedule|
  {
    if schedule != [] {
      var i := schedule[0];
      assert Disciplined(ts[i].Held(), ts[i].todo);
      MoveKeepsDiscipline(ts[i]);
      ReachedIsDisciplined(ts[i := Move(ts[i])], schedule[1..]);
    }
  }

  function Spawn(programs: seq<seq<Operation>>): Threads {
    seq(|programs|, i requires 0 <= i < |programs| => Thread(Program(programs[i]), {}, {}))
  }

  lemma SpawnIsDisciplined(programs: seq<seq<Operation>>)
    ensures AllDisciplined(Spawn(programs))
  {
    var ts := Spawn(programs);
    forall i | 0 <= i < |ts| ensures Disciplined(ts[i].Held(), ts[i].todo) {
      ProgramIsDisciplined(programs[i]);
      assert ts[i].Held() == {};
    }
  }

  /** Any number of threads, each running any sequence of operations: whatever the schedule so far, as long
      as some thread `k` has not finished, some thread can move. */
  lemma NoDeadlock(programs: seq<seq<Operation>>, schedule: seq<nat>, k: nat)
    requires Schedulable(Spawn(programs), schedule)
    requires k < |Reached(Spawn(programs), schedule)| && Reached(Spawn(programs), schedule)[k].todo != []
    ensures exists i: nat :: i < |Reached(Spawn(programs), schedule)| && CanMove(Reached(Spawn(programs), schedule), i)
  {
    SpawnIsDisciplined(programs);
    ReachedIsDisciplined(Spawn(programs), schedule);
    var i := SomeoneMoves(Reached(Spawn(programs), schedule), k);
  }

  // ---------------------------------------------------------------------------
  // Every run can be completed
  // ---------------------------------------------------------------------------

  function Remaining(ts: Threads): nat { if ts == [] then 0 else |ts[0].todo| + Remaining(ts[1..]) }

  lemma {:induction false} MoveUsesOneAction(ts: Threads, i: nat)
    requires i < |ts| && ts[i].todo != []
    ensures Remaining(ts[i := Move(ts[i])]) == Remaining(ts) - 1
  {
    var ts' := ts[i := Move(ts[i])];
    if i != 0 {
      MoveUsesOneAction(ts[1..], i - 1);
      assert ts'[1..] == ts[1..][i - 1 := Move(ts[i])];
    } else {
      assert ts'[1..] == ts[1..];
    }
  }

  predicate AllDone(ts: Threads) { forall j | 0 <= j < |ts| :: ts[j].todo == [] }

  lemma {:induction false} CanFinish(ts: Threads) returns (rest: seq<nat>)
    requires AllDisciplined(ts)
    ensures Schedulable(ts, rest) && |rest| == Remaining(ts)
    ensures AllDone(Reached(ts, rest))
    decreases Remaining(ts)
  {
    if k: nat :| k < |ts| && ts[k].todo != [] {
      var i := SomeoneMoves(ts, k);
      MoveUsesOneAction(ts, i);
      var ts' := ts[i := Move(ts[i])];
      assert Disciplined(ts[i].Held(), ts[i].todo);
      MoveKeepsDiscipline(ts[i]);
      var after := CanFinish(ts');
      rest := [i] + after;
      assert rest[1..] == after;
      assert Reached(ts, rest) == Reached(ts', after);
    } else {
      rest := [];
      NothingRemains(ts);
    }
  }

  lemma {:induction false} NothingRemains(ts: Threads)
    requires AllDone(ts)
    ensures Remaining(ts) == 0
  {
    if ts != [] {
      assert ts[0].todo == [];
      NothingRemains(ts[1..]);
    }
  }

  /** From every state the threads can reach, some continuation finishes them all, one action a step. */
  lemma EveryRunCanBeCompleted(programs: seq<seq<Operation>>, schedule: seq<nat>) returns (rest: seq<nat>)
    requires Schedulable(Spawn(programs), schedule)
    ensures var ts := Reached(Spawn(programs), schedule);
      && Schedulable(ts, rest) && |rest| == Remaining(ts) && |Reached(ts, rest)| == |programs|
      && AllDone(Reached(ts, rest))
  {
    SpawnIsDisciplined(programs);
    ReachedIsDisciplined(Spawn(programs), schedule);
    var ts := Reached(Spawn(programs), schedule);
    rest := CanFinish(ts);
    ReachedIsDisciplined(ts, rest);
  }
}
