/** Starting and stopping the Android service (TunnelService.java) and the
    process-wide run slot (camex-jni.c), over all interleavings of the main
    and worker threads of several service instances. */
module TunnelService {

  /* ---- the fields under each instance's lock, and the run slot ---- */

  datatype Fields = Fields(startGeneration: nat, stopGeneration: nat, acquired: bool)

  datatype Slot = Slot(busy: bool, running: bool)

  const NEW_FIELDS := Fields(0, 0, false)

  class RunSlot {
    var busy: bool
    var running: bool

    function Value(): Slot
      reads this
    {
      Slot(busy, running)
    }

    constructor ()
      ensures Value() == Slot(false, true)
    {
      busy, running := false, true;
    }

    /** nativeAcquire: one atomic step under the slot's mutex. */
    method Acquire() returns (ok: bool)
      modifies this
      ensures ok == !old(busy) && Value() == if ok then Slot(true, true) else old(Value())
    {
      ok := false;
      if !busy {
        busy := true;
        running := true;
        ok := true;
      }
    }

    /** nativeRelease */
    method Release()
      modifies this
      ensures Value() == old(Value()).(busy := false)
    {
      busy := false;
    }

    /** nativeStop */
    method Stop()
      modifies this
      ensures Value() == old(Value()).(running := false)
    {
      running := false;
    }
  }

  /** What an attempt to take the slot for a start comes to. */
  datatype Attempt = Cancelled | Taken | Busy

  function Tried(f: Fields, slot: Slot, generation: nat): Attempt {
    if generation <= f.stopGeneration then Cancelled else if slot.busy then Busy else Taken
  }

  /** The synchronized blocks of a service instance. */
  datatype Block = NumberStart | TryAcquire | EndRun | RequestStop

  /** What a block makes of the instance's fields and of the slot, for the
      start `g` of its worker. */
  function Done(b: Block, f: Fields, slot: Slot, g: nat): (Fields, Slot) {
    match b
    case NumberStart => (f.(startGeneration := f.startGeneration + 1), slot)
    case TryAcquire => if Tried(f, slot, g) == Taken then (f.(acquired := true), Slot(true, true)) else (f, slot)
    case EndRun => (f.(acquired := false), slot.(busy := false))
    case RequestStop =>
      (f.(stopGeneration := f.startGeneration), if f.acquired then slot.(running := false) else slot)
  }

  class Service {
    var startGeneration: nat
    var stopGeneration: nat
    var acquired: bool

    function Value(): Fields
      reads this
    {
      Fields(startGeneration, stopGeneration, acquired)
    }

    constructor ()
      ensures Value() == NEW_FIELDS
    {
      startGeneration, stopGeneration, acquired := 0, 0, false;
    }

    /** The number of a new start (onStartCommand). */
    method NumberStart() returns (generation: nat)
      modifies this
      ensures generation == startGeneration
      ensures forall slot :: (Value(), slot) == Done(Block.NumberStart, old(Value()), slot, 0)
    {
      startGeneration := startGeneration + 1;
      generation := startGeneration;
    }

    /** One round of acquireRun. */
    method TryAcquire(generation: nat, slot: RunSlot) returns (r: Attempt)
      modifies this, slot
      ensures r == Tried(old(Value()), old(slot.Value()), generation)
      ensures (Value(), slot.Value()) == Done(Block.TryAcquire, old(Value()), old(slot.Value()), generation)
    {
      if generation <= stopGeneration {
        return Cancelled;
      }
      var ok := slot.Acquire();
      if ok {
        acquired := true;
        return Taken;
      }
      r := Busy;
    }

    /** The end of a run. */
    method EndRun(slot: RunSlot)
      modifies this, slot
      ensures (Value(), slot.Value()) == Done(Block.EndRun, old(Value()), old(slot.Value()), 0)
    {
      acquired := false;
      slot.Release();
    }

    /** requestStop */
    method RequestStop(slot: RunSlot)
      modifies this, slot
      ensures (Value(), slot.Value()) == Done(Block.RequestStop, old(Value()), old(slot.Value()), 0)
    {
      stopGeneration := startGeneration;
      if acquired {
        slot.Stop();
      }
    }
  }

  /* ---- all threads, each block in its single memory steps ---- */

  /** The worker thread: `Got` and `Releasing` are inside a synchronized
      block, between its two writes. */
  datatype Worker = Idle | Trying(g: nat) | Got(g: nat) | Running(g: nat) | Ending(g: nat) | Releasing(g: nat)

  /** The main thread: `Stopping` is inside requestStop, after it has taken
      note of the stop and before it has asked the run to end. */
  datatype MainThread = Ready | Stopping

  datatype Intent = StartIntent | StopIntent

  /** `queue` are the starts waiting for the worker; `log` is the history of
      the intents that took effect. */
  datatype Instance = Instance(f: Fields, queue: seq<nat>, worker: Worker, main: MainThread, log: seq<Intent>)
  {
    predicate LockFree() {
      main.Ready? && !worker.Got? && !worker.Releasing?
    }

    /** It holds the run slot. */
    predicate Holds() {
      worker.Got? || worker.Running? || worker.Ending? || worker.Releasing?
    }
  }

  const NEW_INSTANCE := Instance(NEW_FIELDS, [], Idle, Ready, [])

  /** `endedItself`: the present run has cleared `running` on its own. */
  datatype World = World(instances: seq<Instance>, slot: Slot, endedItself: bool)

  datatype Action = Create | Start | StopBegin | StopEnd
                  | Begin | Try | GiveUp | Mark | EndsItself | RunEnds | Unmark | Release

  datatype Step = Step(i: nat, action: Action)

  /** What a step of an instance does to it. A step it is not ready for does
      nothing. */
  function Moved(x: Instance, slot: Slot, a: Action): Instance {
    match a
    case Create => x
    case Start =>
      if !x.LockFree() then x
      else x.(f := x.f.(startGeneration := x.f.startGeneration + 1), queue := x.queue + [x.f.startGeneration + 1],
              log := x.log + [StartIntent])
    case StopBegin =>
      if !x.LockFree() then x
      else x.(f := x.f.(stopGeneration := x.f.startGeneration), main := Stopping, log := x.log + [StopIntent])
    case StopEnd =>
      if !x.main.Stopping? then x else x.(main := Ready)
    case Begin =>
      if !x.worker.Idle? || x.queue == [] then x else x.(worker := Trying(x.queue[0]), queue := x.queue[1..])
    case Try =>
      if !x.worker.Trying? || !x.LockFree() then x
      else
        (match Tried(x.f, slot, x.worker.g)
         case Cancelled => x.(worker := Idle)
         case Busy => x
         case Taken => x.(worker := Got(x.worker.g)))
    case GiveUp =>
      if !x.worker.Trying? then x else x.(worker := Idle)
    case Mark =>
      if !x.worker.Got? then x else x.(f := x.f.(acquired := true), worker := Running(x.worker.g))
    case EndsItself => x
    case RunEnds =>
      if !x.worker.Running? then x else x.(worker := Ending(x.worker.g))
    case Unmark =>
      if !x.worker.Ending? || !x.LockFree() then x
      else x.(f := x.f.(acquired := false), worker := Releasing(x.worker.g))
    case Release =>
      if !x.worker.Releasing? then x else x.(worker := Idle)
  }

  /** What it does to the slot. */
  function MovedSlot(x: Instance, slot: Slot, a: Action): Slot {
    if a == Try && x.worker.Trying? && x.LockFree() && Tried(x.f, slot, x.worker.g) == Taken then Slot(true, true)
    else if a == Release && x.worker.Releasing? then slot.(busy := false)
    else if a == StopEnd && x.main.Stopping? && x.f.acquired then slot.(running := false)
    else if a == EndsItself && x.worker.Running? then slot.(running := false)
    else slot
  }

  function Next(w: World, s: Step): World {
    if s.action == Create then w.(instances := w.instances + [NEW_INSTANCE])
    else if s.i >= |w.instances| then w
    else
      var x := w.instances[s.i];
      World(w.instances[s.i := Moved(x, w.slot, s.action)], MovedSlot(x, w.slot, s.action),
            Ended(x, w.slot, w.endedItself, s.action))
  }

  function Ended(x: Instance, slot: Slot, endedItself: bool, a: Action): bool {
    if a == EndsItself && x.worker.Running? then true
    else if Moved(x, slot, a).worker.Got? && !x.worker.Got? then false
    else endedItself
  }

  function After(w: World, steps: seq<Step>): World {
    if steps == [] then w else Next(After(w, steps[..|steps| - 1]), steps[|steps| - 1])
  }

  const INITIAL := World([], Slot(false, true), false)

  /* ---- history ---- */

  /** How many starts were issued. */
  function Starts(log: seq<Intent>): nat {
    if log == [] then 0 else Starts(log[..|log| - 1]) + if log[|log| - 1].StartIntent? then 1 else 0
  }

  /** A Stop came after start number `g`. */
  ghost predicate Covered(log: seq<Intent>, g: nat) {
    exists k :: 0 <= k < |log| && log[k].StopIntent? && g <= Starts(log[..k])
  }

  lemma {:induction false} StartsGrow(log: seq<Intent>, k: nat)
    requires k <= |log|
    ensures Starts(log[..k]) <= Starts(log)
  {
    if k == |log| {
      assert log[..k] == log;
    } else {
      assert log[..|log| - 1][..k] == log[..k];
      StartsGrow(log[..|log| - 1], k);
    }
  }

  lemma CoveredAfter(log: seq<Intent>, e: Intent, g: nat)
    ensures Starts(log + [e]) == Starts(log) + if e.StartIntent? then 1 else 0
    ensures Covered(log + [e], g) <==> Covered(log, g) || (e.StopIntent? && g <= Starts(log))
  {
    var log' := log + [e];
    assert log'[..|log|] == log;
    if Covered(log, g) {
      var k :| 0 <= k < |log| && log[k].StopIntent? && g <= Starts(log[..k]);
      assert log'[..k] == log[..k] && log'[k] == log[k];
    }
    if k :| 0 <= k < |log'| && log'[k].StopIntent? && g <= Starts(log'[..k]) {
      assert k < |log| ==> log'[..k] == log[..k] && log'[k] == log[k];
    }
  }

  /* ---- what every step keeps ---- */

  /** The numbers and the history of an instance agree, and its lock-guarded
      flag says whether it runs. */
  ghost predicate InstanceOk(x: Instance) {
    && x.f.startGeneration == Starts(x.log)
    && (forall g :: g > 0 ==> (g <= x.f.stopGeneration <==> Covered(x.log, g)))
    && x.f.stopGeneration <= x.f.startGeneration
    && (x.main.Stopping? ==> x.f.stopGeneration == x.f.startGeneration)
    && (forall k | 0 <= k < |x.queue| :: x.queue[k] == x.f.startGeneration - |x.queue| + 1 + k > 0)
    && (!x.worker.Idle? ==> 0 < x.worker.g <= x.f.startGeneration - |x.queue|)
    && (x.f.acquired <==> x.worker.Running? || x.worker.Ending?)
    && (x.worker.Got? ==> x.f.stopGeneration < x.worker.g && x.main.Ready?)
    && (x.worker.Releasing? ==> x.main.Ready?)
  }

  /** `running` for the holder `x` of the slot: cleared exactly by a Stop that
      covers its start, or by itself. */
  ghost predicate RunningOk(x: Instance, running: bool, endedItself: bool)
    requires x.Holds()
  {
    && (x.worker.Got? ==> running && !endedItself)
    && (!x.worker.Got? && x.main.Ready? ==> (running <==> !endedItself && !Covered(x.log, x.worker.g)))
    && ((x.worker.Running? || x.worker.Ending?) && x.main.Stopping? ==>
          Covered(x.log, x.worker.g) && (running ==> !endedItself))
  }

  ghost predicate Inv(w: World) {
    && (forall i | 0 <= i < |w.instances| :: InstanceOk(w.instances[i]))
    && (forall i, j | 0 <= i < j < |w.instances| :: !(w.instances[i].Holds() && w.instances[j].Holds()))
    && (w.slot.busy <==> exists i :: 0 <= i < |w.instances| && w.instances[i].Holds())
    && (forall i | 0 <= i < |w.instances| ::
          w.instances[i].Holds() ==> RunningOk(w.instances[i], w.slot.running, w.endedItself))
  }

  lemma MovedKeepsInstance(x: Instance, slot: Slot, a: Action)
    requires InstanceOk(x)
    ensures InstanceOk(Moved(x, slot, a))
  {
    var y := Moved(x, slot, a);
    if y.log != x.log {
      var e := if a == Start then StartIntent else StopIntent;
      forall g | g > 0
        ensures g <= y.f.stopGeneration <==> Covered(y.log, g)
      {
        CoveredAfter(x.log, e, g);
        if Covered(x.log, g) {
          CoveredWasStarted(x.log, g);
        }
      }
      CoveredAfter(x.log, e, 0);
    }
  }

  lemma CoveredWasStarted(log: seq<Intent>, g: nat)
    requires Covered(log, g)
    ensures g <= Starts(log)
  {
    var k :| 0 <= k < |log| && log[k].StopIntent? && g <= Starts(log[..k]);
    StartsGrow(log, k);
  }

  lemma MovedKeepsRunning(x: Instance, slot: Slot, endedItself: bool, a: Action)
    requires InstanceOk(x) && (x.Holds() ==> RunningOk(x, slot.running, endedItself))
    ensures var y := Moved(x, slot, a);
            y.Holds() ==> RunningOk(y, MovedSlot(x, slot, a).running, Ended(x, slot, endedItself, a))
  {
    hide Covered;
    var y := Moved(x, slot, a);
    if y.Holds() && y.log != x.log {
      CoveredAfter(x.log, if a == Start then StartIntent else StopIntent, y.worker.g);
    }
  }

  /** While another instance holds the slot, no step of this one touches it:
      its Stop does not clear the other's run. */
  lemma OthersRunIsLeftAlone(w: World, s: Step, j: nat)
    requires Inv(w) && j < |w.instances| && w.instances[j].Holds() && s.i != j
    ensures Next(w, s).slot == w.slot && Next(w, s).endedItself == w.endedItself
  {
    if s.action != Create && s.i < |w.instances| {
      assert !w.instances[s.i].Holds();
      assert w.slot.busy;
    }
  }

  lemma NextKeepsInv(w: World, s: Step)
    requires Inv(w)
    ensures Inv(Next(w, s))
  {
    hide InstanceOk, RunningOk, Moved, MovedSlot;
    var w' := Next(w, s);
    if s.action == Create {
      assert forall i | 0 <= i < |w.instances| :: w'.instances[i] == w.instances[i];
      NewIsOk(w');
    } else if s.i < |w.instances| {
      MovedKeepsInstance(w.instances[s.i], w.slot, s.action);
      MovedKeepsRunning(w.instances[s.i], w.slot, w.endedItself, s.action);
      SlotFollowsHolder(w, s);
      forall j | 0 <= j < |w.instances| && j != s.i && w.instances[j].Holds()
        ensures RunningOk(w.instances[j], w'.slot.running, w'.endedItself) && !w'.instances[s.i].Holds()
      {
        OthersRunIsLeftAlone(w, s, j);
        NotTwice(w, s, j);
      }
    }
  }

  lemma NewIsOk(w: World)
    ensures InstanceOk(NEW_INSTANCE) && !NEW_INSTANCE.Holds()
  {
  }

  lemma NotTwice(w: World, s: Step, j: nat)
    requires Inv(w) && s.action != Create && s.i < |w.instances| && j < |w.instances| && j != s.i
    requires w.instances[j].Holds()
    ensures !Next(w, s).instances[s.i].Holds()
  {
    assert !w.instances[s.i].Holds();
    assert w.slot.busy;
  }

  lemma SlotFollowsHolder(w: World, s: Step)
    requires Inv(w) && s.action != Create && s.i < |w.instances|
    ensures var w' := Next(w, s);
            w'.slot.busy <==> exists i :: 0 <= i < |w'.instances| && w'.instances[i].Holds()
  {
    var w' := Next(w, s);
    if w.slot.busy {
      var j :| 0 <= j < |w.instances| && w.instances[j].Holds();
      if j != s.i {
        OthersRunIsLeftAlone(w, s, j);
        assert w'.instances[j].Holds();
      } else {
        forall k | 0 <= k < |w.instances| && k != j
          ensures !w'.instances[k].Holds()
        {
          assert w'.instances[k] == w.instances[k];
        }
        assert w'.slot.busy <==> w'.instances[s.i].Holds();
      }
    } else {
      forall k | 0 <= k < |w.instances|
        ensures !w.instances[k].Holds()
      {
      }
      assert w'.slot.busy <==> w'.instances[s.i].Holds();
    }
  }

  lemma {:induction false} InvInEveryRun(steps: seq<Step>)
    ensures Inv(After(INITIAL, steps))
  {
    if steps != [] {
      InvInEveryRun(steps[..|steps| - 1]);
      NextKeepsInv(After(INITIAL, steps[..|steps| - 1]), steps[|steps| - 1]);
    }
  }

  /** In every interleaving of any number of instances: at most one holds the
      run slot, and the slot is taken exactly while one does. Unless a Stop
      is under way in the holder, `running` is 0 exactly if the run ended
      itself or its start is covered by a Stop of the holder. */
  lemma OneRunAndItsStops(steps: seq<Step>, i: nat, j: nat)
    requires var w := After(INITIAL, steps);
             i < |w.instances| && j < |w.instances| && w.instances[i].Holds()
    ensures var w := After(INITIAL, steps);
            var x := w.instances[i];
            && w.slot.busy && (w.instances[j].Holds() ==> i == j)
            && (x.main.Ready? ==> (!w.slot.running <==> w.endedItself || Covered(x.log, x.worker.g)))
  {
    InvInEveryRun(steps);
    var w := After(INITIAL, steps);
    var x := w.instances[i];
    assert InstanceOk(x) && RunningOk(x, w.slot.running, w.endedItself);
    if x.worker.Got? {
      assert x.worker.g <= x.f.stopGeneration <==> Covered(x.log, x.worker.g);
    }
  }

  /** `running` goes to 0 only by the run itself, or by a Stop of the instance
      that runs, which covers the start it runs for. */
  lemma WhoClearsRunning(w: World, s: Step)
    requires Inv(w) && w.slot.running && !Next(w, s).slot.running
    ensures s.i < |w.instances| && (w.instances[s.i].worker.Running? || w.instances[s.i].worker.Ending?)
    ensures s.action == EndsItself
            || (s.action == StopEnd && Covered(w.instances[s.i].log, w.instances[s.i].worker.g))
  {
    var x := w.instances[s.i];
    assert InstanceOk(x);
    assert s.action == StopEnd ==> x.worker.Running? || x.worker.Ending?;
    assert x.Holds() ==> RunningOk(x, w.slot.running, w.endedItself);
  }

  /** A start is given up for a Stop exactly if the Stop came after it. */
  lemma OnlyLaterStopsCancel(w: World, i: nat)
    requires Inv(w) && i < |w.instances| && w.instances[i].worker.Trying? && w.instances[i].LockFree()
    ensures var x := w.instances[i];
            Next(w, Step(i, Try)).instances[i].worker == Idle <==> Covered(x.log, x.worker.g)
  {
    var x := w.instances[i];
    assert InstanceOk(x);
    assert x.worker.g <= x.f.stopGeneration <==> Covered(x.log, x.worker.g);
  }

  /** A Start issued now is not covered by any Stop before it; and starts get
      to the worker in their order. */
  lemma NewStartIsNotCovered(w: World, i: nat)
    requires Inv(w) && i < |w.instances| && w.instances[i].LockFree()
    ensures var y := Next(w, Step(i, Start)).instances[i];
            |y.queue| == |w.instances[i].queue| + 1 && !Covered(y.log, y.queue[|y.queue| - 1])
            && forall k | 0 <= k < |y.queue| - 1 :: y.queue[k] < y.queue[|y.queue| - 1]
  {
    var x := w.instances[i];
    assert InstanceOk(x);
    var g := x.f.startGeneration + 1;
    CoveredAfter(x.log, StartIntent, g);
    assert g <= x.f.stopGeneration <==> Covered(x.log, g);
  }

  /* ---- the blocks, run without interruption, are these steps ---- */

  /** The steps of a block of instance `i`. */
  function StepsOf(b: Block, i: nat, r: Attempt): seq<Step> {
    match b
    case NumberStart => [Step(i, Start)]
    case TryAcquire => if r == Taken then [Step(i, Try), Step(i, Mark)] else [Step(i, Try)]
    case EndRun => [Step(i, Unmark), Step(i, Release)]
    case RequestStop => [Step(i, StopBegin), Step(i, StopEnd)]
  }

  /** The instance is where it enters the block, and its lock is free. */
  predicate Enters(x: Instance, b: Block) {
    x.LockFree() && (b.TryAcquire? ==> x.worker.Trying?) && (b.EndRun? ==> x.worker.Ending?)
  }

  function GenerationOf(x: Instance): nat {
    if x.worker.Idle? then 0 else x.worker.g
  }

  lemma AfterTwo(w: World, s: Step, t: Step)
    ensures After(w, [s]) == Next(w, s) && After(w, [s, t]) == Next(Next(w, s), t)
  {
    hide Next;
    assert [s][..0] == [] && [s, t][..1] == [s];
  }

  /** A block run without interruption, which is what the methods of `Service`
      do, is what its memory steps come to one after the other; the lock is
      free again and no other instance has changed. */
  lemma BlockIsSteps(w: World, i: nat, b: Block)
    requires i < |w.instances| && Enters(w.instances[i], b)
    ensures var x := w.instances[i];
            var g := GenerationOf(x);
            var w' := After(w, StepsOf(b, i, Tried(x.f, w.slot, g)));
            && |w'.instances| == |w.instances|
            && (forall j | 0 <= j < |w.instances| && j != i :: w'.instances[j] == w.instances[j])
            && (w'.instances[i].f, w'.slot) == Done(b, x.f, w.slot, g)
            && w'.instances[i].LockFree()
            && w'.endedItself == (w.endedItself && !(b.TryAcquire? && Tried(x.f, w.slot, g) == Taken))
  {
    hide After;
    var steps := StepsOf(b, i, Tried(w.instances[i].f, w.slot, GenerationOf(w.instances[i])));
    AfterTwo(w, steps[0], if |steps| > 1 then steps[1] else steps[0]);
  }
}
