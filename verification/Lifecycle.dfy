/** Startup, unwinding and shutdown (app/lifecycle.rs): every resource that is started is
    stopped exactly once, on every failing start and under any overlap of shutdowns. */
module Lifecycle {
  import opened Wrappers

  datatype Phase = Booting | Running | Shutting | Dead
  datatype StartupError = PortBind | ClipboardSpawn

  /** The places where `Lifecycle` keeps a handle. */
  datatype Slot = Watcher | ServerTx | ServerTask | Heartbeat | HealthTask | LogGuard

  const LEAVE_DEADLINE_MS: nat := 1500
  const HEALTH_JOIN_DEADLINE_MS: nat := 500
  const CLIPBOARD_DEADLINE_MS: nat := 100
  const SERVER_SHUTDOWN_DEADLINE_MS: nat := 500

  function Waited(takes: nat, deadline: nat): (waited: nat)
    ensures waited <= takes && waited <= deadline && (waited == takes || waited == deadline)
  {
    if takes <= deadline then takes else deadline
  }

  lemma NothingElse(held: set<Slot>)
    ensures held - {Heartbeat, Watcher} - (if Heartbeat in held then {} else {HealthTask}) - {ServerTx, ServerTask} - {LogGuard}
      == if Heartbeat in held then held * {HealthTask} else {}
  {
    forall s | s in held ensures s in {Heartbeat, Watcher, HealthTask, ServerTx, ServerTask, LogGuard} {
      SixSlots(s);
    }
  }

  lemma SixSlots(s: Slot)
    ensures s in {Heartbeat, Watcher, HealthTask, ServerTx, ServerTask, LogGuard}
  {
  }

  function Then(order: seq<Slot>, slot: Slot, held: set<Slot>): seq<Slot> { if slot in held then order + [slot] else order }

  /** The heartbeat worker, or else the plain health task. */
  function ThenWorker(order: seq<Slot>, held: set<Slot>): seq<Slot> {
    if Heartbeat in held then order + [Heartbeat] else Then(order, HealthTask, held)
  }

  /** What a shutdown acts on, in order: the worker, the watcher, the server, and the log last. */
  function InOrder(order: seq<Slot>, held: set<Slot>): seq<Slot> {
    Then(Then(Then(Then(ThenWorker(order, held), Watcher, held), ServerTx, held), ServerTask, held), LogGuard, held)
  }

  lemma ShutdownOrder(held: set<Slot>)
    ensures held == {Watcher, ServerTx, ServerTask, Heartbeat, LogGuard} ==>
      InOrder([], held) == [Heartbeat, Watcher, ServerTx, ServerTask, LogGuard]
    ensures held == {Watcher, ServerTx, ServerTask, HealthTask, LogGuard} ==>
      InOrder([], held) == [HealthTask, Watcher, ServerTx, ServerTask, LogGuard]
  {
  }

  /** Of every kind of handle, those still held and those acted on make up those stored. */
  ghost predicate Balanced(stored: multiset<Slot>, acted: multiset<Slot>, held: set<Slot>) {
    forall s: Slot :: stored[s] == acted[s] + (if s in held then 1 else 0)
  }

  class Lifecycle {
    var phase: Phase
    var healthCancelled: bool
    /** The slots that hold `Some` handle. */
    var held: set<Slot>
    /** Every handle ever stored, and every handle taken out and acted on, with repetition. */
    ghost var stored: multiset<Slot>
    ghost var acted: multiset<Slot>
    /** The same in the order it happened. */
    ghost var order: seq<Slot>

    ghost predicate Conserved()
      reads this`stored, this`acted, this`held
    {
      Balanced(stored, acted, held)
    }

    constructor ()
      ensures phase == Booting && held == {} && stored == acted == multiset{} && order == [] && Conserved()
    {
      phase, healthCancelled, held := Booting, false, {};
      stored, acted, order := multiset{}, multiset{}, [];
    }

    method Store(slot: Slot)
      requires Conserved() && slot !in held
      modifies this`held, this`stored
      ensures Conserved() && held == old(held) + {slot}
    {
      held := held + {slot};
      stored := stored + multiset{slot};
    }

    /** `take()` on the slot, and the use of what it returns: stop, signal or join. */
    method TakeAndAct(slot: Slot) returns (taken: bool)
      requires Conserved()
      modifies this`held, this`acted, this`order
      ensures Conserved() && held == old(held) - {slot} && (taken <==> slot in old(held))
      ensures order == Then(old(order), slot, old(held))
    {
      taken := slot in held;
      if taken {
        acted, order := acted + multiset{slot}, order + [slot];
        held := held - {slot};
      }
    }

    /** Seven-step start on a new `Lifecycle`. `haveRx` is false when the apply channel has been handed out
        before; `spawned` and `bound` are what the clipboard thread and the TCP listener answer. A start that
        fails ends `Dead` and holds nothing: everything it had stored was acted on, once. */
    method Start(haveRx: bool, spawned: bool, bound: bool) returns (error: Option<StartupError>)
      requires Conserved() && phase == Booting && held <= {LogGuard}
      modifies this
      ensures Conserved()
      ensures error == if haveRx && !spawned then Some(ClipboardSpawn) else if !bound then Some(PortBind) else None
      ensures error.Some? ==> phase == Dead && held == {}
      ensures error.None? ==> phase == Running
      ensures error.None? ==>
        held == old(held) + {ServerTx, ServerTask, Heartbeat} + (if haveRx then {Watcher} else {})
    {
      var had;
      if haveRx {
        if !spawned {
          had := TakeAndAct(LogGuard);
          phase := Dead;
          return Some(ClipboardSpawn);
        }
        Store(Watcher);
      }
      if !bound {
        had := TakeAndAct(Watcher);
        had := TakeAndAct(LogGuard);
        phase := Dead;
        return Some(PortBind);
      }
      Store(ServerTx);
      Store(ServerTask);
      Store(Heartbeat);
      phase := Running;
      error := None;
    }

    /** Step 4: stop the heartbeat worker, or else the plain health task, then the clipboard watcher. */
    method StopWorkers(health: nat, clipboard: nat) returns (waited: nat)
      requires Conserved()
      modifies this`held, this`acted, this`order
      ensures Conserved() && waited <= HEALTH_JOIN_DEADLINE_MS + CLIPBOARD_DEADLINE_MS
      ensures waited == (if Heartbeat in old(held) || HealthTask in old(held) then Waited(health, 500) else 0)
        + (if Watcher in old(held) then Waited(clipboard, 100) else 0)
      ensures order == Then(ThenWorker(old(order), old(held)), Watcher, old(held))
      ensures held == old(held) - {Heartbeat, Watcher} - (if Heartbeat in old(held) then {} else {HealthTask})
    {
      waited := 0;
      var had := TakeAndAct(Heartbeat);
      if had {
        waited := Waited(health, HEALTH_JOIN_DEADLINE_MS);
      } else {
        had := TakeAndAct(HealthTask);
        if had {
          waited := Waited(health, HEALTH_JOIN_DEADLINE_MS);
        }
      }
      had := TakeAndAct(Watcher);
      if had {
        waited := waited + Waited(clipboard, CLIPBOARD_DEADLINE_MS);
      }
    }

    /** Step 5: signal the server and join it. */
    method StopServer(server: nat) returns (waited: nat)
      requires Conserved()
      modifies this`held, this`acted, this`order
      ensures Conserved() && waited == if ServerTask in old(held) then Waited(server, 500) else 0
      ensures order == Then(Then(old(order), ServerTx, old(held)), ServerTask, old(held))
      ensures held == old(held) - {ServerTx, ServerTask}
    {
      waited := 0;
      var had := TakeAndAct(ServerTx);
      had := TakeAndAct(ServerTask);
      if had {
        waited := Waited(server, SERVER_SHUTDOWN_DEADLINE_MS);
      }
    }

    /** Steps 4 to 6: the workers, the server, and the log guard. */
    method StopAll(health: nat, clipboard: nat, server: nat) returns (waited: nat)
      requires Conserved()
      modifies this`held, this`acted, this`order
      ensures Conserved() && held == if Heartbeat in old(held) then old(held) * {HealthTask} else {}
      ensures waited ==
        (if Heartbeat in old(held) || HealthTask in old(held) then Waited(health, 500) else 0)
        + (if Watcher in old(held) then Waited(clipboard, 100) else 0)
        + (if ServerTask in old(held) then Waited(server, 500) else 0)
      ensures order == InOrder(old(order), old(held))
    {
      ghost var before := held;
      waited := StopWorkers(health, clipboard);
      ghost var left := held;
      assert forall s | s in {ServerTx, ServerTask, LogGuard} :: s in left <==> s in before;
      var inServer := StopServer(server);
      waited := waited + inServer;
      var had := TakeAndAct(LogGuard);
      NothingElse(before);
    }

    /** One shutdown call on its own; the arguments are how long each wait would take without its deadline. */
    method Shutdown(leave: nat, health: nat, clipboard: nat, server: nat) returns (waited: nat)
      requires Conserved()
      modifies this
      ensures Conserved() && waited <= 2600
      ensures old(phase) == Shutting || old(phase) == Dead ==>
        waited == 0 && phase == old(phase) && held == old(held) && acted == old(acted)
      ensures old(phase) == Booting || old(phase) == Running ==> phase == Dead && healthCancelled
      ensures old(phase) == Booting || old(phase) == Running ==>
        && waited == Waited(leave, 1500)
             + (if Heartbeat in old(held) || HealthTask in old(held) then Waited(health, 500) else 0)
             + (if Watcher in old(held) then Waited(clipboard, 100) else 0)
             + (if ServerTask in old(held) then Waited(server, 500) else 0)
        && order == InOrder(old(order), old(held))
      ensures old(phase) == Booting || old(phase) == Running ==>
        held == if Heartbeat in old(held) then old(held) * {HealthTask} else {}
    {
      if phase == Shutting || phase == Dead {
        return 0;
      }
      phase := Shutting;
      healthCancelled := true;
      waited := Waited(leave, LEAVE_DEADLINE_MS);
      var inSteps := StopAll(health, clipboard, server);
      waited := waited + inSteps;
      phase := Dead;
    }
  }

  // ---------------------------------------------------------------------------
  // Overlapping shutdown calls
  // ---------------------------------------------------------------------------

  /** Where a call stands: what it does next. A call that found the phase past `Running` returned early. */
  datatype Call =
    | AtCheck | AtPhase | AtHeartbeat | AtHealthTask | AtWatcher | AtServerTx | AtServerTask | AtGuard | AtDead
    | Finished | ReturnedEarly

  datatype World = World(phase: Phase, held: set<Slot>, acted: multiset<Slot>, calls: seq<Call>)

  /** The slot this step takes from, if any. */
  function Takes(c: Call): Option<Slot> {
    match c
    case AtHeartbeat => Some(Heartbeat)
    case AtHealthTask => Some(HealthTask)
    case AtWatcher => Some(Watcher)
    case AtServerTx => Some(ServerTx)
    case AtServerTask => Some(ServerTask)
    case AtGuard => Some(LogGuard)
    case _ => None
  }

  function NextCall(c: Call, phase: Phase, held: set<Slot>): Call {
    match c
    case AtCheck => if phase == Shutting || phase == Dead then ReturnedEarly else AtPhase
    case AtPhase => AtHeartbeat
    case AtHeartbeat => if Heartbeat in held then AtWatcher else AtHealthTask
    case AtHealthTask => AtWatcher
    case AtWatcher => AtServerTx
    case AtServerTx => AtServerTask
    case AtServerTask => AtGuard
    case AtGuard => AtDead
    case AtDead => Finished
    case _ => c
  }

  function NextPhase(c: Call, phase: Phase): Phase {
    match c case AtPhase => Shutting case AtDead => Dead case _ => phase
  }

  /** Call `i` makes its next step; each step is one lock, so calls interleave freely between steps. */
  function Step(w: World, i: nat): (w': World)
    requires i < |w.calls|
    ensures |w'.calls| == |w.calls|
  {
    var c := w.calls[i];
    var slot := Takes(c);
    var found := slot.Some? && slot.value in w.held;
    World(NextPhase(c, w.phase),
          if found then w.held - {slot.value} else w.held,
          if found then w.acted + multiset{slot.value} else w.acted,
          w.calls[i := NextCall(c, w.phase, w.held)])
  }

  /** Any schedule: the sequence of calls that get to move. */
  function Run(w: World, schedule: seq<nat>): (w': World)
    requires forall k | 0 <= k < |schedule| :: schedule[k] < |w.calls|
    ensures |w'.calls| == |w.calls|
  {
    if schedule == [] then w
    else Step(Run(w, schedule[..|schedule| - 1]), schedule[|schedule| - 1])
  }

  /** A lone call that finds everything takes it in the order of `InOrder`. */
  lemma LoneCallOrder(phase: Phase)
    requires phase == Running || phase == Booting
    ensures var all := {Watcher, ServerTx, ServerTask, Heartbeat, LogGuard};
      var c2 := NextCall(NextCall(AtCheck, phase, all), phase, all);
      var c3 := NextCall(c2, Shutting, all);
      var c4 := NextCall(c3, Shutting, all - {Heartbeat});
      var c5 := NextCall(c4, Shutting, {ServerTx, ServerTask, LogGuard});
      var c6 := NextCall(c5, Shutting, {ServerTask, LogGuard});
      var c7 := NextCall(c6, Shutting, {LogGuard});
      && [Takes(c2), Takes(c3), Takes(c4), Takes(c5), Takes(c6)]
           == [Some(Heartbeat), Some(Watcher), Some(ServerTx), Some(ServerTask), Some(LogGuard)]
      && c7 == AtDead && NextCall(c7, Shutting, {}) == Finished
      && NextPhase(NextCall(AtCheck, phase, all), phase) == Shutting && NextPhase(c7, Shutting) == Dead
  {
  }

  predicate InProgress(c: Call) {
    c.AtHeartbeat? || c.AtHealthTask? || c.AtWatcher? || c.AtServerTx? || c.AtServerTask? || c.AtGuard? || c.AtDead?
  }

  /** The slots a call in this position has already emptied. */
  function Emptied(c: Call): set<Slot> {
    match c
    case AtHealthTask | AtWatcher => {Heartbeat}
    case AtServerTx => {Heartbeat, Watcher}
    case AtServerTask => {Heartbeat, Watcher, ServerTx}
    case AtGuard => {Heartbeat, Watcher, ServerTx, ServerTask}
    case AtDead | Finished => {Heartbeat, Watcher, ServerTx, ServerTask, LogGuard}
    case _ => {}
  }

  ghost predicate Inv(w: World, all: multiset<Slot>) {
    && Balanced(all, w.acted, w.held)
    && PhaseFits(w)
    && forall i | 0 <= i < |w.calls| :: Emptied(w.calls[i]) !! w.held
  }

  ghost predicate PhaseFits(w: World) {
    && w.phase != Booting
    && (w.phase == Running ==> forall i | 0 <= i < |w.calls| :: w.calls[i].AtCheck? || w.calls[i].AtPhase?)
    && (w.phase == Shutting ==> exists i :: 0 <= i < |w.calls| && InProgress(w.calls[i]))
    && (w.phase == Dead ==> exists i :: 0 <= i < |w.calls| && w.calls[i].Finished?)
  }

  lemma StepBalances(w: World, i: nat, all: multiset<Slot>)
    requires Balanced(all, w.acted, w.held) && i < |w.calls|
    requires forall j | 0 <= j < |w.calls| :: Emptied(w.calls[j]) !! w.held
    ensures Balanced(all, Step(w, i).acted, Step(w, i).held)
    ensures forall j | 0 <= j < |w.calls| :: Emptied(Step(w, i).calls[j]) !! Step(w, i).held
  {
    var c, slot := w.calls[i], Takes(w.calls[i]);
    EmptiedGrows(c, w.phase, w.held);
    forall j | 0 <= j < |w.calls| ensures Emptied(Step(w, i).calls[j]) !! Step(w, i).held {
      assert Emptied(w.calls[j]) !! w.held;
    }
  }

  /** A step empties no slot but the one it takes from. */
  lemma EmptiedGrows(c: Call, phase: Phase, held: set<Slot>)
    ensures Emptied(NextCall(c, phase, held)) <= Emptied(c) + (if Takes(c).Some? then {Takes(c).value} else {})
  {
  }

  lemma StepFitsPhase(w: World, i: nat)
    requires PhaseFits(w) && i < |w.calls|
    ensures PhaseFits(Step(w, i))
  {
    var w' := Step(w, i);
    assert forall j | 0 <= j < |w.calls| && j != i :: w'.calls[j] == w.calls[j];
    if w'.phase == Shutting && !InProgress(w'.calls[i]) {
      var j :| 0 <= j < |w.calls| && InProgress(w.calls[j]);
      assert InProgress(w'.calls[j]);
    } else if w'.phase == Dead && !w'.calls[i].Finished? {
      var j :| 0 <= j < |w.calls| && w.calls[j].Finished?;
      assert w'.calls[j].Finished?;
    }
  }

  lemma {:induction false} RunKeepsInv(w: World, schedule: seq<nat>, all: multiset<Slot>)
    requires Inv(w, all)
    requires forall k | 0 <= k < |schedule| :: schedule[k] < |w.calls|
    ensures Inv(Run(w, schedule), all)
  {
    if schedule != [] {
      RunKeepsInv(w, schedule[..|schedule| - 1], all);
      StepBalances(Run(w, schedule[..|schedule| - 1]), schedule[|schedule| - 1], all);
      StepFitsPhase(Run(w, schedule[..|schedule| - 1]), schedule[|schedule| - 1]);
    }
  }

  predicate Returned(c: Call) { c.Finished? || c.ReturnedEarly? }

  lemma AllReturned(w: World, all: multiset<Slot>)
    requires Inv(w, all) && all[HealthTask] == 0 && w.calls != []
    requires forall i | 0 <= i < |w.calls| :: Returned(w.calls[i])
    ensures w.phase == Dead && w.held == {}
  {
    assert Returned(w.calls[0]);
    var j :| 0 <= j < |w.calls| && w.calls[j].Finished?;
    assert Emptied(w.calls[j]) !! w.held;
    assert forall s: Slot :: s in Emptied(Finished) || s == HealthTask;
  }

  /** After a completed start, any number of shutdown calls in any overlap: no handle is acted on twice at
      any time, and once all calls have returned every handle has been acted on and the phase is Dead. */
  lemma ShutdownsConserveHandles(held: set<Slot>, callers: nat, schedule: seq<nat>)
    requires HealthTask !in held && 1 <= callers
    requires forall k | 0 <= k < |schedule| :: schedule[k] < callers
    ensures var w := Run(World(Running, held, multiset{}, seq(callers, i => AtCheck)), schedule);
      && (forall s :: w.acted[s] + (if s in w.held then 1 else 0) == if s in held then 1 else 0)
      && ((forall i | 0 <= i < callers :: Returned(w.calls[i])) ==> w.phase == Dead && w.held == {})
  {
    var w0 := World(Running, held, multiset{}, seq(callers, i => AtCheck));
    var all := multiset(held);
    assert Inv(w0, all);
    RunKeepsInv(w0, schedule, all);
    var w := Run(w0, schedule);
    assert Balanced(all, w.acted, w.held);
    if forall i | 0 <= i < callers :: Returned(w.calls[i]) {
      AllReturned(w, all);
    }
  }
}
