/**
 The generation-barrier worker pools (ChurnConnectorPool and HealthyProbePool) as one transition
 system: a coordinator and any number of persistent workers that share a mutex, two condition
 variables, a generation counter, a completed-worker count and an atomic claim index.

 Every action is one atomic step of one thread: a critical section, one atomic instruction, one
 unlocked access, a wake-up. Threads interleave in any order and any sleeping thread may wake
 spuriously. Fields marked "history" are written but never read by a guard.
 */
module WorkerPool {
  import opened Totals
  import opened Wrappers

  datatype Phase = Connect | Exchange

  datatype ProbeFailure = NoFailure | ConnectFailure | SendFailure | ReceiveFailure | PayloadMismatch

  datatype Attempt = Attempt(connected: bool, succeeded: bool, failure: ProbeFailure)

  const FRESH := Attempt(false, false, NoFailure)

  /** `holder` (history): the worker that claimed the slot and has not finished it.
      `log` (history): the workers that processed it in this generation.
      `base` (history): the attempt as it was when the phase was launched. */
  datatype Slot = Slot(attempt: Attempt, base: Attempt, holder: Option<nat>, log: seq<nat>)

  datatype WorkerPc =
    | Ready                 // about to evaluate the wait predicate under the lock
    | Asleep                // blocked on workAvailable_
    | Claim                 // about to fetch_add the claim index
    | Check(index: nat)     // about to compare the claimed index with the slot count
    | Process(index: nat)   // owns slot `index`
    | Finish                // about to take the lock and report completion
    | Exited

  datatype Worker = Worker(pc: WorkerPc, observed: nat, phase: Phase)

  datatype CoordPc =
    | Idle
    | Resized               // slots replaced, phase not launched yet
    | Launched              // generation bumped, notify_all not issued yet
    | Waiting               // about to evaluate completedWorkers_ == workerCount_
    | Sleeping              // blocked on batchComplete_
    | Reading(batch: seq<Attempt>)  // copying slots_ out without the lock
    | Stopping              // stopping_ set, notify_all not issued yet
    | Joining
    | Joined

  datatype State = State(
    workers: seq<Worker>, coord: CoordPc, generation: nat, completed: nat, next: nat,
    failures: nat, phase: Phase, slots: seq<Slot>, stopping: bool)

  datatype Action =
    | Resize(count: nat) | Launch(phase: Phase) | NotifyWorkers | CheckDone | WakeCoordinator
    | ReadSlot | EndRead | Stop | NotifyStop | Join
    | Evaluate(w: nat) | WakeWorker(w: nat) | ClaimIndex(w: nat) | TestIndex(w: nat)
    | Work(w: nat, after: Attempt) | Complete(w: nat)

  function Init(n: nat): State {
    State(seq(n, _ => Worker(Ready, 0, Connect)), Idle, 0, 0, 0, 0, Connect, [], false)
  }

  /** What one pass of the worker loop may do to the slot it owns. */
  predicate Outcome(phase: Phase, before: Attempt, after: Attempt) {
    match phase
    case Connect =>
      after == before.(connected := true) || after == before.(failure := ConnectFailure)
    case Exchange =>
      if !before.connected then after == before
      else
        || after == before.(succeeded := true)
        || (after.failure in {SendFailure, ReceiveFailure, PayloadMismatch}
            && after == before.(failure := after.failure))
  }

  predicate Enabled(s: State, a: Action) {
    match a
    case Resize(_) => s.coord.Idle?
    case Launch(p) => if p.Connect? then s.coord.Resized? else s.coord.Idle?
    case NotifyWorkers => s.coord.Launched?
    case CheckDone => s.coord.Waiting?
    case WakeCoordinator => s.coord.Sleeping?
    case ReadSlot => s.coord.Reading? && |s.coord.batch| < |s.slots|
    case EndRead => s.coord.Reading? && |s.coord.batch| >= |s.slots|
    case Stop => s.coord.Idle?
    case NotifyStop => s.coord.Stopping?
    case Join => s.coord.Joining? && forall i :: 0 <= i < |s.workers| ==> s.workers[i].pc.Exited?
    case Evaluate(w) => w < |s.workers| && s.workers[w].pc.Ready?
    case WakeWorker(w) => w < |s.workers| && s.workers[w].pc.Asleep?
    case ClaimIndex(w) => w < |s.workers| && s.workers[w].pc.Claim?
    case TestIndex(w) => w < |s.workers| && s.workers[w].pc.Check?
    case Work(w, after) =>
      && w < |s.workers| && s.workers[w].pc.Process?
      && (s.workers[w].pc.index < |s.slots| ==>
            Outcome(s.workers[w].phase, s.slots[s.workers[w].pc.index].attempt, after))
    case Complete(w) => w < |s.workers| && s.workers[w].pc.Finish?
  }

  function SetPc(s: State, w: nat, pc: WorkerPc): State
    requires w < |s.workers|
  {
    s.(workers := s.workers[w := s.workers[w].(pc := pc)])
  }

  /** notify_all on workAvailable_. */
  function Roused(workers: seq<Worker>): seq<Worker> {
    seq(|workers|, i requires 0 <= i < |workers| =>
      if workers[i].pc.Asleep? then workers[i].(pc := Ready) else workers[i])
  }

  function Rebased(slots: seq<Slot>): seq<Slot> {
    seq(|slots|, i requires 0 <= i < |slots| => Slot(slots[i].attempt, slots[i].attempt, None, []))
  }

  function Apply(s: State, a: Action): State
    requires Enabled(s, a)
  {
    match a
    case Resize(k) => s.(coord := Resized, slots := seq(k, _ => Slot(FRESH, FRESH, None, [])))
    case Launch(p) =>
      s.(coord := Launched, phase := p, next := 0, failures := 0, completed := 0,
         generation := s.generation + 1, slots := Rebased(s.slots))
    case NotifyWorkers => s.(coord := Waiting, workers := Roused(s.workers))
    case CheckDone => s.(coord := if s.completed == |s.workers| then Reading([]) else Sleeping)
    case WakeCoordinator => s.(coord := Waiting)
    case ReadSlot => s.(coord := Reading(s.coord.batch + [s.slots[|s.coord.batch|].attempt]))
    case EndRead => s.(coord := Idle)
    case Stop => s.(coord := Stopping, stopping := true)
    case NotifyStop => s.(coord := Joining, workers := Roused(s.workers))
    case Join => s.(coord := Joined)
    case Evaluate(w) =>
      if s.stopping then SetPc(s, w, Exited)
      else if s.generation != s.workers[w].observed then
        s.(workers := s.workers[w := Worker(Claim, s.generation, s.phase)])
      else SetPc(s, w, Asleep)
    case WakeWorker(w) => SetPc(s, w, Ready)
    case ClaimIndex(w) =>
      var claimed := SetPc(s, w, Check(s.next)).(next := s.next + 1);
      if s.next < |s.slots| then
        claimed.(slots := s.slots[s.next := s.slots[s.next].(holder := Some(w))])
      else claimed
    case TestIndex(w) =>
      var index := s.workers[w].pc.index;
      SetPc(s, w, if index >= |s.slots| then Finish else Process(index))
    case Work(w, after) =>
      var index := s.workers[w].pc.index;
      var moved := SetPc(s, w, Claim);
      if index < |s.slots| then
        var slot := s.slots[index];
        moved.(slots := s.slots[index := slot.(attempt := after, holder := None, log := slot.log + [w])],
               failures := if s.workers[w].phase.Connect? && !after.connected then s.failures + 1 else s.failures)
      else moved
    case Complete(w) =>
      var done := SetPc(s, w, Ready).(completed := s.completed + 1);
      if done.completed == |s.workers| && s.coord.Sleeping? then done.(coord := Waiting) else done
  }

  // --- Runs ------------------------------------------------------------------------------------

  predicate Executable(s: State, run: seq<Action>)
    decreases |run|
  {
    run == [] || (Enabled(s, run[0]) && Executable(Apply(s, run[0]), run[1..]))
  }

  function After(s: State, run: seq<Action>): State
    requires Executable(s, run)
    decreases |run|
  {
    if run == [] then s else After(Apply(s, run[0]), run[1..])
  }

  // --- The inductive invariant -----------------------------------------------------------------

  predicate InPhase(s: State) { s.coord.Launched? || s.coord.Waiting? || s.coord.Sleeping? }

  predicate InLoop(pc: WorkerPc) { pc.Claim? || pc.Check? || pc.Process? || pc.Finish? }

  predicate Holds(pc: WorkerPc, index: nat) { pc == Check(index) || pc == Process(index) }

  predicate Finished(w: Worker, generation: nat) {
    (w.pc.Ready? || w.pc.Asleep?) && w.observed == generation
  }

  function FinishedWeight(generation: nat): Worker -> nat {
    w => if Finished(w, generation) then 1 else 0
  }

  /** Workers that already drew an index past the last slot. */
  predicate Overshot(w: Worker, generation: nat, size: nat) {
    Finished(w, generation) || w.pc.Finish? || (w.pc.Check? && w.pc.index >= size)
  }

  function OvershotWeight(generation: nat, size: nat): Worker -> nat {
    w => if Overshot(w, generation, size) then 1 else 0
  }

  function MissedWeight(): Slot -> nat {
    (slot: Slot) => if slot.log != [] && !slot.attempt.connected then 1 else 0
  }

  function Excess(next: nat, size: nat): nat { if next > size then next - size else 0 }

  predicate WorkerOk(s: State, i: nat)
    requires i < |s.workers|
  {
    var w := s.workers[i];
    && w.observed <= s.generation <= w.observed + 1
    && (InLoop(w.pc) ==> InPhase(s) && w.observed == s.generation && w.phase == s.phase)
    && (w.observed < s.generation ==> InPhase(s) && (w.pc.Ready? || w.pc.Asleep?))
    && (w.pc.Asleep? && w.observed < s.generation ==> s.coord.Launched?)
    && (w.pc.Asleep? && s.stopping ==> s.coord.Stopping?)
    && (w.pc.Exited? ==> s.stopping)
    && (w.pc.Check? ==> w.pc.index < s.next)
    && (w.pc.Process? ==> w.pc.index < |s.slots|)
    && (forall k: nat | k < |s.slots| && Holds(w.pc, k) :: s.slots[k].holder == Some(i))
  }

  predicate SlotOk(s: State, k: nat)
    requires k < |s.slots|
  {
    var slot := s.slots[k];
    if k >= s.next then slot.holder == None && slot.log == [] && slot.attempt == slot.base
    else if slot.holder.Some? then
      && slot.log == [] && slot.attempt == slot.base
      && slot.holder.value < |s.workers| && Holds(s.workers[slot.holder.value].pc, k)
    else |slot.log| == 1 && Outcome(s.phase, slot.base, slot.attempt)
  }

  predicate Control(s: State) {
    && |s.workers| >= 1
    && (s.stopping <==> s.coord.Stopping? || s.coord.Joining? || s.coord.Joined?)
    && (s.coord.Sleeping? ==> s.completed < |s.workers|)
    && (InPhase(s) || s.coord.Reading? ==> s.generation >= 1)
    && (s.coord.Resized? ==> forall k :: 0 <= k < |s.slots| ==> s.slots[k].attempt == FRESH)
    && (s.coord.Reading? ==>
          && |s.coord.batch| <= |s.slots|
          && forall k :: 0 <= k < |s.coord.batch| ==> s.coord.batch[k] == s.slots[k].attempt)
  }

  predicate Counts(s: State) {
    (InPhase(s) || s.coord.Reading?) ==>
      && s.completed == Total(FinishedWeight(s.generation), s.workers)
      && Excess(s.next, |s.slots|) == Total(OvershotWeight(s.generation, |s.slots|), s.workers)
      && (s.phase.Connect? ==> s.failures == Total(MissedWeight(), s.slots))
      && (s.coord.Reading? ==> s.completed == |s.workers|)
  }

  predicate Slots(s: State) {
    (InPhase(s) || s.coord.Reading?) ==>
      && (forall k :: 0 <= k < |s.slots| ==> SlotOk(s, k))
      && (s.phase.Connect? ==> forall k :: 0 <= k < |s.slots| ==> s.slots[k].base == FRESH)
  }

  predicate Workers(s: State) {
    forall i :: 0 <= i < |s.workers| ==> WorkerOk(s, i)
  }

  predicate Inv(s: State) { Control(s) && Workers(s) && Slots(s) && Counts(s) }

  lemma InitEstablishes(n: nat)
    requires n >= 1
    ensures Inv(Init(n))
  {
  }

  // --- Coordinator steps -----------------------------------------------------------------------

  lemma ResizeKeeps(s: State, k: nat)
    requires Inv(s) && Enabled(s, Resize(k))
    ensures Inv(Apply(s, Resize(k)))
  {
    var t := Apply(s, Resize(k));
    forall i | 0 <= i < |t.workers| ensures WorkerOk(t, i) { assert WorkerOk(s, i); }
  }

  lemma LaunchKeeps(s: State, p: Phase)
    requires Inv(s) && Enabled(s, Launch(p))
    ensures Inv(Apply(s, Launch(p)))
  {
    var t := Apply(s, Launch(p));
    forall i | 0 <= i < |t.workers|
      ensures WorkerOk(t, i) && t.workers[i].observed < t.generation && !InLoop(t.workers[i].pc)
    {
      assert WorkerOk(s, i);
    }
    TotalUniform(FinishedWeight(t.generation), t.workers, 0);
    TotalUniform(OvershotWeight(t.generation, |t.slots|), t.workers, 0);
    TotalUniform(MissedWeight(), t.slots, 0);
  }

  lemma RouseKeepsCounts(s: State, t: State)
    requires t.workers == Roused(s.workers)
    ensures Total(FinishedWeight(s.generation), s.workers) == Total(FinishedWeight(s.generation), t.workers)
    ensures Total(OvershotWeight(s.generation, |s.slots|), s.workers)
         == Total(OvershotWeight(s.generation, |s.slots|), t.workers)
  {
    TotalSame(FinishedWeight(s.generation), s.workers, FinishedWeight(s.generation), t.workers);
    TotalSame(OvershotWeight(s.generation, |s.slots|), s.workers,
              OvershotWeight(s.generation, |s.slots|), t.workers);
  }

  lemma NotifyKeeps(s: State, a: Action)
    requires Inv(s) && Enabled(s, a) && (a.NotifyWorkers? || a.NotifyStop?)
    ensures Inv(Apply(s, a))
  {
    var t := Apply(s, a);
    RouseKeepsCounts(s, t);
    forall i | 0 <= i < |t.workers| ensures WorkerOk(t, i) { assert WorkerOk(s, i); }
    forall k | 0 <= k < |t.slots| && (InPhase(t) || t.coord.Reading?) ensures SlotOk(t, k) {
      assert SlotOk(s, k);
    }
  }

  lemma CheckDoneKeeps(s: State)
    requires Inv(s) && Enabled(s, CheckDone)
    ensures Inv(Apply(s, CheckDone))
  {
    var t := Apply(s, CheckDone);
    TotalFull(FinishedWeight(s.generation), s.workers);
    forall k | 0 <= k < |t.slots| ensures SlotOk(t, k) { assert SlotOk(s, k); }
    forall i | 0 <= i < |t.workers| ensures WorkerOk(t, i) {
      assert WorkerOk(s, i);
      assert FinishedWeight(s.generation)(s.workers[i]) <= 1;
    }
  }

  lemma OtherCoordinatorKeeps(s: State, a: Action)
    requires Inv(s) && Enabled(s, a)
    requires a.WakeCoordinator? || a.ReadSlot? || a.EndRead? || a.Stop? || a.Join?
    ensures Inv(Apply(s, a))
  {
    var t := Apply(s, a);
    forall i | 0 <= i < |t.workers| ensures WorkerOk(t, i) { assert WorkerOk(s, i); }
    forall k | 0 <= k < |t.slots| && (InPhase(t) || t.coord.Reading?) ensures SlotOk(t, k) {
      assert SlotOk(s, k);
    }
  }

  // --- Worker steps ----------------------------------------------------------------------------

  /** The two worker counts move by exactly what the updated worker contributes. */
  lemma WorkerUpdateCounts(s: State, w: nat, to: Worker, generation: nat, size: nat)
    requires w < |s.workers|
    ensures var updated := s.workers[w := to];
      && Total(FinishedWeight(generation), updated) + FinishedWeight(generation)(s.workers[w])
         == Total(FinishedWeight(generation), s.workers) + FinishedWeight(generation)(to)
      && Total(OvershotWeight(generation, size), updated) + OvershotWeight(generation, size)(s.workers[w])
         == Total(OvershotWeight(generation, size), s.workers) + OvershotWeight(generation, size)(to)
  {
    TotalUpdate(FinishedWeight(generation), s.workers, w, to);
    TotalUpdate(OvershotWeight(generation, size), s.workers, w, to);
  }

  /** A step that only moves worker `w`, keeps its claim and at most wakes the coordinator. */
  lemma MoveKeeps(s: State, t: State, w: nat)
    requires Inv(s) && w < |s.workers| == |t.workers|
    requires t.workers == s.workers[w := t.workers[w]]
    requires t.(workers := s.workers, coord := s.coord, completed := s.completed) == s
    requires t.coord == s.coord || (s.coord.Sleeping? && t.coord.Waiting?)
    requires WorkerOk(t, w)
    requires forall k: nat | k < |s.slots| && Holds(s.workers[w].pc, k) :: Holds(t.workers[w].pc, k)
    ensures Workers(t) && Slots(t)
  {
    forall i | 0 <= i < |t.workers| ensures WorkerOk(t, i) { assert WorkerOk(s, i); }
    forall k | 0 <= k < |t.slots| && (InPhase(t) || t.coord.Reading?) ensures SlotOk(t, k) {
      assert SlotOk(s, k);
    }
  }

  lemma EvaluateKeeps(s: State, w: nat)
    requires Inv(s) && Enabled(s, Evaluate(w))
    ensures Inv(Apply(s, Evaluate(w)))
  {
    var t := Apply(s, Evaluate(w));
    assert WorkerOk(s, w);
    WorkerUpdateCounts(s, w, t.workers[w], s.generation, |s.slots|);
    MoveKeeps(s, t, w);
  }

  lemma WakeWorkerKeeps(s: State, w: nat)
    requires Inv(s) && Enabled(s, WakeWorker(w))
    ensures Inv(Apply(s, WakeWorker(w)))
  {
    var t := Apply(s, WakeWorker(w));
    assert WorkerOk(s, w);
    WorkerUpdateCounts(s, w, t.workers[w], s.generation, |s.slots|);
    MoveKeeps(s, t, w);
  }

  lemma TestKeeps(s: State, w: nat)
    requires Inv(s) && Enabled(s, TestIndex(w))
    ensures Inv(Apply(s, TestIndex(w)))
  {
    var t := Apply(s, TestIndex(w));
    assert WorkerOk(s, w);
    WorkerUpdateCounts(s, w, t.workers[w], s.generation, |s.slots|);
    MoveKeeps(s, t, w);
  }

  lemma CompleteCounts(s: State, w: nat)
    requires Inv(s) && Enabled(s, Complete(w))
    ensures Control(Apply(s, Complete(w))) && Counts(Apply(s, Complete(w)))
  {
    var t := Apply(s, Complete(w));
    assert WorkerOk(s, w);
    WorkerUpdateCounts(s, w, t.workers[w], s.generation, |s.slots|);
    TotalFull(FinishedWeight(t.generation), t.workers);
  }

  lemma CompleteKeeps(s: State, w: nat)
    requires Inv(s) && Enabled(s, Complete(w))
    ensures Inv(Apply(s, Complete(w)))
  {
    assert WorkerOk(s, w);
    CompleteCounts(s, w);
    MoveKeeps(s, Apply(s, Complete(w)), w);
  }

  /** A step that moves worker `w` and touches only slot `k`, which `w` takes or gives back. */
  lemma SlotStepKeeps(s: State, t: State, w: nat, k: nat)
    requires Inv(s) && w < |s.workers| == |t.workers| && k < |s.slots| == |t.slots|
    requires t.workers == s.workers[w := t.workers[w]] && t.slots == s.slots[k := t.slots[k]]
    requires t.(workers := s.workers, slots := s.slots, next := s.next, failures := s.failures) == s
    requires InPhase(s) && s.next <= t.next && (t.next == s.next || (t.next == s.next + 1 && k == s.next))
    requires WorkerOk(t, w) && SlotOk(t, k) && t.slots[k].base == s.slots[k].base
    requires s.slots[k].holder in {None, Some(w)}
    requires forall j: nat | j < |s.slots| && j != k :: !Holds(s.workers[w].pc, j)
    ensures Workers(t) && Slots(t)
  {
    forall i | 0 <= i < |t.workers| ensures WorkerOk(t, i) { assert WorkerOk(s, i); }
    forall j | 0 <= j < |t.slots| ensures SlotOk(t, j) { assert SlotOk(s, j); }
  }

  lemma ClaimCounts(s: State, w: nat)
    requires Inv(s) && Enabled(s, ClaimIndex(w))
    ensures Control(Apply(s, ClaimIndex(w))) && Counts(Apply(s, ClaimIndex(w)))
  {
    var t := Apply(s, ClaimIndex(w));
    assert WorkerOk(s, w);
    WorkerUpdateCounts(s, w, t.workers[w], s.generation, |s.slots|);
    if s.next < |s.slots| { TotalUpdate(MissedWeight(), s.slots, s.next, t.slots[s.next]); }
  }

  lemma ClaimKeeps(s: State, w: nat)
    requires Inv(s) && Enabled(s, ClaimIndex(w))
    ensures Inv(Apply(s, ClaimIndex(w)))
  {
    var t := Apply(s, ClaimIndex(w));
    ClaimCounts(s, w);
    assert WorkerOk(s, w);
    if s.next < |s.slots| {
      assert SlotOk(s, s.next);
      SlotStepKeeps(s, t, w, s.next);
    } else {
      OvershootKeeps(s, t, w);
    }
  }

  lemma OvershootKeeps(s: State, t: State, w: nat)
    requires Inv(s) && Enabled(s, ClaimIndex(w)) && s.next >= |s.slots| && t == Apply(s, ClaimIndex(w))
    ensures Workers(t) && Slots(t)
  {
    assert WorkerOk(s, w);
    forall i | 0 <= i < |t.workers| ensures WorkerOk(t, i) { assert WorkerOk(s, i); }
    forall k | 0 <= k < |t.slots| ensures SlotOk(t, k) { assert SlotOk(s, k); }
  }

  lemma WorkKeeps(s: State, w: nat, after: Attempt)
    requires Inv(s) && Enabled(s, Work(w, after))
    ensures Inv(Apply(s, Work(w, after)))
  {
    var t := Apply(s, Work(w, after));
    assert WorkerOk(s, w);
    var index := s.workers[w].pc.index;
    assert Holds(s.workers[w].pc, index);
    assert SlotOk(s, index);
    WorkerUpdateCounts(s, w, t.workers[w], s.generation, |s.slots|);
    TotalUpdate(MissedWeight(), s.slots, index, t.slots[index]);
    SlotStepKeeps(s, t, w, index);
  }

  lemma StepKeeps(s: State, a: Action)
    requires Inv(s) && Enabled(s, a)
    ensures Inv(Apply(s, a))
  {
    match a
    case Resize(k) => ResizeKeeps(s, k);
    case Launch(p) => LaunchKeeps(s, p);
    case NotifyWorkers => NotifyKeeps(s, a);
    case NotifyStop => NotifyKeeps(s, a);
    case CheckDone => CheckDoneKeeps(s);
    case WakeCoordinator => OtherCoordinatorKeeps(s, a);
    case ReadSlot => OtherCoordinatorKeeps(s, a);
    case EndRead => OtherCoordinatorKeeps(s, a);
    case Stop => OtherCoordinatorKeeps(s, a);
    case Join => OtherCoordinatorKeeps(s, a);
    case Evaluate(w) => EvaluateKeeps(s, w);
    case WakeWorker(w) => WakeWorkerKeeps(s, w);
    case TestIndex(w) => TestKeeps(s, w);
    case ClaimIndex(w) => ClaimKeeps(s, w);
    case Work(w, after) => WorkKeeps(s, w, after);
    case Complete(w) => CompleteKeeps(s, w);
  }

  lemma {:induction false} RunKeeps(s: State, run: seq<Action>)
    requires Inv(s) && Executable(s, run)
    ensures Inv(After(s, run))
    decreases |run|
  {
    if run != [] {
      StepKeeps(s, run[0]);
      RunKeeps(Apply(s, run[0]), run[1..]);
    }
  }

  // --- What every run guarantees ---------------------------------------------------------------

  function Attempts(slots: seq<Slot>): (r: seq<Attempt>)
    ensures |r| == |slots|
  {
    seq(|slots|, i requires 0 <= i < |slots| => slots[i].attempt)
  }

  function ConnectedWeight(): Attempt -> nat { (a: Attempt) => if a.connected then 1 else 0 }

  /** The barrier: outside a phase nobody is in the claim loop, inside it the completed count is
      exact, and a worker that joins does so for the very next generation. */
  lemma BarrierHolds(n: nat, run: seq<Action>)
    requires n >= 1 && Executable(Init(n), run)
    ensures var s := After(Init(n), run);
      && (forall i :: 0 <= i < |s.workers| ==> s.workers[i].observed <= s.generation <= s.workers[i].observed + 1)
      && (!InPhase(s) ==> forall i :: 0 <= i < |s.workers| ==>
            !InLoop(s.workers[i].pc) && s.workers[i].observed == s.generation)
      && (InPhase(s) ==> s.completed == Total(FinishedWeight(s.generation), s.workers))
      && (forall w: nat | Enabled(s, Evaluate(w)) && Apply(s, Evaluate(w)).workers[w].pc.Claim? ::
            s.workers[w].observed + 1 == s.generation)
  {
    InitEstablishes(n);
    RunKeeps(Init(n), run);
    var s := After(Init(n), run);
    forall i | 0 <= i < |s.workers|
      ensures s.workers[i].observed <= s.generation <= s.workers[i].observed + 1
      ensures !InPhase(s) ==> !InLoop(s.workers[i].pc) && s.workers[i].observed == s.generation
    {
      assert WorkerOk(s, i);
    }
  }

  lemma {:induction false} MissedPlusConnected(slots: seq<Slot>)
    requires forall k :: 0 <= k < |slots| ==> slots[k].log != []
    ensures Total(MissedWeight(), slots) + Total(ConnectedWeight(), Attempts(slots)) == |slots|
  {
    if slots != [] {
      assert Attempts(slots)[1..] == Attempts(slots[1..]);
      MissedPlusConnected(slots[1..]);
    }
  }

  /** A completed phase: every slot processed once, every worker overshot once, and the unlocked
      copy the coordinator returns is the slot vector itself, with failures and clients adding up. */
  lemma PhaseComplete(n: nat, run: seq<Action>)
    requires n >= 1 && Executable(Init(n), run) && After(Init(n), run).coord.Reading?
    ensures var s := After(Init(n), run);
      && s.next == |s.slots| + n
      && (forall k :: 0 <= k < |s.slots| ==>
            |s.slots[k].log| == 1 && Outcome(s.phase, s.slots[k].base, s.slots[k].attempt))
      && s.coord.batch <= Attempts(s.slots)
      && (s.phase.Connect? ==>
            && s.failures + Total(ConnectedWeight(), Attempts(s.slots)) == |s.slots|
            && forall k :: 0 <= k < |s.slots| ==> Outcome(Connect, FRESH, s.slots[k].attempt))
  {
    InitEstablishes(n);
    RunKeeps(Init(n), run);
    RunKeepsWorkers(Init(n), run);
    var s := After(Init(n), run);
    TotalFull(FinishedWeight(s.generation), s.workers);
    TotalUniform(OvershotWeight(s.generation, |s.slots|), s.workers, 1);
    forall i | 0 <= i < |s.workers| ensures !InLoop(s.workers[i].pc) { assert WorkerOk(s, i); }
    forall k | 0 <= k < |s.slots|
      ensures |s.slots[k].log| == 1 && Outcome(s.phase, s.slots[k].base, s.slots[k].attempt)
    {
      assert SlotOk(s, k);
    }
    MissedPlusConnected(s.slots);
  }

  lemma {:induction false} RunKeepsWorkers(s: State, run: seq<Action>)
    requires Executable(s, run)
    ensures |After(s, run).workers| == |s.workers|
    decreases |run|
  {
    if run != [] { RunKeepsWorkers(Apply(s, run[0]), run[1..]); }
  }

  // --- From one batch to the next --------------------------------------------------------------

  function Bases(slots: seq<Slot>): (r: seq<Attempt>)
    ensures |r| == |slots|
  {
    seq(|slots|, i requires 0 <= i < |slots| => slots[i].base)
  }

  /** What a state has to do with the attempts `earlier` read at the end of generation `g`: the slots
      still hold them until the next launch, and an Exchange launched next starts from them. */
  predicate Succeeds(s: State, g: nat, earlier: seq<Attempt>) {
    && s.generation >= g
    && (s.generation == g ==> !InPhase(s))
    && (s.generation == g && (s.coord.Reading? || s.coord.Idle?) ==> Attempts(s.slots) == earlier)
    && (s.generation == g + 1 && s.phase.Exchange? && (InPhase(s) || s.coord.Reading?) ==> Bases(s.slots) == earlier)
  }

  lemma SlotStepSucceeds(s: State, a: Action, g: nat, earlier: seq<Attempt>)
    requires Inv(s) && Enabled(s, a) && Succeeds(s, g, earlier) && (a.ClaimIndex? || a.Work?)
    ensures Succeeds(Apply(s, a), g, earlier)
  {
    assert WorkerOk(s, a.w);
    var t := Apply(s, a);
    assert InPhase(s) && Bases(t.slots) == Bases(s.slots);
  }

  lemma StepSucceeds(s: State, a: Action, g: nat, earlier: seq<Attempt>)
    requires Inv(s) && Enabled(s, a) && Succeeds(s, g, earlier)
    ensures Succeeds(Apply(s, a), g, earlier)
  {
    var t := Apply(s, a);
    if a.ClaimIndex? || a.Work? {
      SlotStepSucceeds(s, a, g, earlier);
    } else if a.Launch? {
      assert Bases(t.slots) == Attempts(s.slots);
    }
  }

  lemma {:induction false} RunSucceeds(s: State, run: seq<Action>, g: nat, earlier: seq<Attempt>)
    requires Inv(s) && Executable(s, run) && Succeeds(s, g, earlier)
    ensures Succeeds(After(s, run), g, earlier)
    decreases |run|
  {
    if run != [] {
      StepKeeps(s, run[0]);
      StepSucceeds(s, run[0], g, earlier);
      RunSucceeds(Apply(s, run[0]), run[1..], g, earlier);
    }
  }

  /** What a state has to do with the request for `count` slots made in generation `g`: the slots stay
      that many, until the launch and through the Connect phase it starts. */
  predicate Serves(s: State, g: nat, count: nat) {
    && s.generation >= g
    && (s.generation == g ==> s.coord.Resized? && |s.slots| == count)
    && (s.generation == g + 1 && (InPhase(s) || s.coord.Reading?) ==> |s.slots| == count && s.phase.Connect?)
  }

  lemma StepServes(s: State, a: Action, g: nat, count: nat)
    requires Inv(s) && Enabled(s, a) && Serves(s, g, count)
    ensures Serves(Apply(s, a), g, count)
  {
    if a.ClaimIndex? || a.Work? { assert WorkerOk(s, a.w); }
  }

  lemma {:induction false} RunServes(s: State, run: seq<Action>, g: nat, count: nat)
    requires Inv(s) && Executable(s, run) && Serves(s, g, count)
    ensures Serves(After(s, run), g, count)
    decreases |run|
  {
    if run != [] {
      StepKeeps(s, run[0]);
      StepServes(s, run[0], g, count);
      RunServes(Apply(s, run[0]), run[1..], g, count);
    }
  }

  predicate ConnectBatch(attempts: seq<Attempt>) {
    forall i :: 0 <= i < |attempts| ==> Outcome(Connect, FRESH, attempts[i])
  }

  predicate ExchangeBatch(before: seq<Attempt>, after: seq<Attempt>) {
    |before| == |after| && forall i :: 0 <= i < |before| ==> Outcome(Exchange, before[i], after[i])
  }

  /** connectBatch(count): whatever the schedule, what it hands back is `count` attempts, each tried
      once from scratch, and the failures counted are the ones among them. */
  lemma ConnectReturns(n: nat, run: seq<Action>, count: nat, more: seq<Action>)
    requires n >= 1 && Executable(Init(n), run) && Enabled(After(Init(n), run), Resize(count))
    requires var s := Apply(After(Init(n), run), Resize(count));
      Executable(s, more) && Enabled(After(s, more), EndRead) && After(s, more).generation == s.generation + 1
    ensures var s := Apply(After(Init(n), run), Resize(count)); var t := After(s, more);
      && t.phase.Connect? && |t.coord.batch| == count && ConnectBatch(t.coord.batch)
      && t.failures + Total(ConnectedWeight(), t.coord.batch) == count
  {
    var before := After(Init(n), run);
    var s := Apply(before, Resize(count));
    InitEstablishes(n);
    RunKeeps(Init(n), run);
    StepKeeps(before, Resize(count));
    RunServes(s, more, s.generation, count);
    var whole := [Resize(count)] + more;
    assert whole[1..] == more;
    AfterConcat(Init(n), run, whole);
    PhaseComplete(n, run + whole);
    var t := After(s, more);
    assert t.coord.batch == Attempts(t.slots);
  }

  /** exchangeAndCloseBatch: the batch it hands back pairs off with the batch handed back before it,
      whatever the workers did in between. */
  lemma ExchangeReturns(n: nat, run: seq<Action>, more: seq<Action>)
    requires n >= 1 && Executable(Init(n), run) && Executable(After(Init(n), run), more)
    requires var s := After(Init(n), run); var t := After(s, more);
      && Enabled(s, EndRead) && Enabled(t, EndRead)
      && t.generation == s.generation + 1 && t.phase.Exchange?
    ensures ExchangeBatch(After(Init(n), run).coord.batch, After(After(Init(n), run), more).coord.batch)
  {
    var s := After(Init(n), run);
    InitEstablishes(n);
    RunKeeps(Init(n), run);
    PhaseComplete(n, run);
    RunSucceeds(s, more, s.generation, s.coord.batch);
    AfterConcat(Init(n), run, more);
    PhaseComplete(n, run + more);
    var t := After(s, more);
    assert t.coord.batch == Attempts(t.slots) && Bases(t.slots) == s.coord.batch;
  }

  lemma {:induction false} AfterConcat(s: State, run: seq<Action>, more: seq<Action>)
    requires Executable(s, run) && Executable(After(s, run), more)
    ensures Executable(s, run + more) && After(s, run + more) == After(After(s, run), more)
    decreases |run|
  {
    if run == [] {
      assert run + more == more;
    } else {
      assert (run + more)[1..] == run[1..] + more;
      AfterConcat(Apply(s, run[0]), run[1..], more);
    }
  }

  // --- No lost wake-up, and every phase ends ---------------------------------------------------

  predicate Spurious(a: Action) { a.WakeCoordinator? || a.WakeWorker? }

  /** Until the pool is joined some thread can move without any spurious wake-up. */
  lemma SomeThreadCanMove(s: State) returns (a: Action)
    requires Inv(s) && !s.coord.Joined?
    ensures Enabled(s, a) && !Spurious(a)
  {
    match s.coord
    case Idle => a := Stop;
    case Resized => a := Launch(Connect);
    case Launched => a := NotifyWorkers;
    case Waiting => a := CheckDone;
    case Reading(b) => a := if |b| < |s.slots| then ReadSlot else EndRead;
    case Stopping => a := NotifyStop;
    case Sleeping =>
      var w := TotalNotFull(FinishedWeight(s.generation), s.workers);
      assert WorkerOk(s, w);
      a := WorkerMove(s, w);
    case Joining =>
      if i :| 0 <= i < |s.workers| && !s.workers[i].pc.Exited? {
        assert WorkerOk(s, i);
        a := Evaluate(i);
      } else {
        a := Join;
      }
  }

  function WorkerMove(s: State, w: nat): (a: Action)
    requires w < |s.workers| && (s.workers[w].pc.Ready? || InLoop(s.workers[w].pc))
    requires s.workers[w].pc.Process? ==> s.workers[w].pc.index < |s.slots|
    ensures Enabled(s, a) && !Spurious(a)
  {
    match s.workers[w].pc
    case Ready => Evaluate(w)
    case Claim => ClaimIndex(w)
    case Check(_) => TestIndex(w)
    case Process(k) =>
      var before := s.slots[k].attempt;
      Work(w, if s.workers[w].phase.Exchange? && !before.connected then before
              else if s.workers[w].phase.Exchange? then before.(succeeded := true)
              else before.(connected := true))
    case Finish => Complete(w)
  }

  function Rank(generation: nat): Worker -> nat {
    (w: Worker) =>
      match w.pc
      case Ready => if w.observed == generation then 1 else 4
      case Asleep => if w.observed == generation then 0 else 5
      case Claim => 3
      case Check(_) => 5
      case Process(_) => 4
      case Finish => 4
      case Exited => 0
  }

  function CoordRank(s: State): nat {
    if s.coord.Launched? then |s.workers| + 2 else if s.coord.Waiting? then 1 else 0
  }

  /** Steps left in the phase, an upper bound under any schedule. */
  function Measure(s: State): int {
    3 * (|s.slots| + |s.workers| - s.next) + Total(Rank(s.generation), s.workers) + CoordRank(s)
  }

  lemma NextBounded(s: State)
    requires Inv(s) && (InPhase(s) || s.coord.Reading?)
    ensures s.next <= |s.slots| + |s.workers| && Measure(s) >= 0
  {
    TotalFull(OvershotWeight(s.generation, |s.slots|), s.workers);
  }

  lemma LoopStepDecreases(s: State, a: Action)
    requires Inv(s) && InPhase(s) && Enabled(s, a) && (a.ClaimIndex? || a.TestIndex? || a.Work?)
    ensures Measure(Apply(s, a)) < Measure(s)
  {
    TotalUpdate(Rank(s.generation), s.workers, a.w, Apply(s, a).workers[a.w]);
  }

  lemma ParkStepDecreases(s: State, a: Action)
    requires Inv(s) && InPhase(s) && Enabled(s, a) && (a.Evaluate? || a.Complete?)
    ensures Measure(Apply(s, a)) < Measure(s)
  {
    assert WorkerOk(s, a.w);
    TotalUpdate(Rank(s.generation), s.workers, a.w, Apply(s, a).workers[a.w]);
  }

  /** Every step but a spurious wake-up brings the phase closer to its end. */
  lemma StepDecreases(s: State, a: Action)
    requires Inv(s) && InPhase(s) && Enabled(s, a) && !Spurious(a)
    ensures Measure(Apply(s, a)) < Measure(s)
  {
    match a
    case NotifyWorkers =>
      TotalWithin(Rank(s.generation), Roused(s.workers), Rank(s.generation), s.workers, 1);
    case CheckDone =>
    case Evaluate(_) => ParkStepDecreases(s, a);
    case Complete(_) => ParkStepDecreases(s, a);
    case ClaimIndex(_) => LoopStepDecreases(s, a);
    case TestIndex(_) => LoopStepDecreases(s, a);
    case Work(_, _) => LoopStepDecreases(s, a);
  }

  /** A spurious wake-up costs its thread one more look at its condition. */
  lemma WakeUpCosts(s: State, a: Action)
    requires Inv(s) && InPhase(s) && Enabled(s, a) && Spurious(a)
    ensures Measure(Apply(s, a)) <= Measure(s) + 1
  {
    if a.WakeWorker? { TotalUpdate(Rank(s.generation), s.workers, a.w, Apply(s, a).workers[a.w]); }
  }

  function WakeUps(run: seq<Action>): nat {
    if run == [] then 0 else (if Spurious(run[0]) then 1 else 0) + WakeUps(run[1..])
  }

  /** Any schedule that starts every step within the phase. */
  predicate PhaseRun(s: State, run: seq<Action>)
    decreases |run|
  {
    run == [] || (InPhase(s) && Enabled(s, run[0]) && PhaseRun(Apply(s, run[0]), run[1..]))
  }

  /** Every schedule of a phase is bounded, but for two steps for each spurious wake-up in it. */
  lemma {:induction false} PhaseTerminates(s: State, run: seq<Action>)
    requires Inv(s) && (InPhase(s) || s.coord.Reading?) && PhaseRun(s, run)
    ensures |run| <= Measure(s) + 2 * WakeUps(run)
    decreases |run|
  {
    NextBounded(s);
    if run != [] {
      StepKeeps(s, run[0]);
      if Spurious(run[0]) { WakeUpCosts(s, run[0]); } else { StepDecreases(s, run[0]); }
      PhaseTerminates(Apply(s, run[0]), run[1..]);
    }
  }

  /** No bound holds without that term: a sleeping coordinator may wake and look any number of times. */
  function Restless(k: nat): seq<Action> { if k == 0 then [] else [WakeCoordinator, CheckDone] + Restless(k - 1) }

  lemma {:induction false} WakeUpsUnbounded(s: State, k: nat)
    requires Inv(s) && s.coord.Sleeping?
    ensures PhaseRun(s, Restless(k)) && |Restless(k)| == 2 * k
  {
    if k > 0 {
      var woken := Apply(s, WakeCoordinator);
      assert Apply(woken, CheckDone) == s;
      var run := Restless(k);
      assert run[0] == WakeCoordinator && run[1..][0] == CheckDone && run[1..][1..] == Restless(k - 1);
      WakeUpsUnbounded(s, k - 1);
    }
  }

  lemma {:induction false} PhaseRunIsRun(s: State, run: seq<Action>)
    requires Inv(s) && (InPhase(s) || s.coord.Reading?) && PhaseRun(s, run)
    ensures Executable(s, run)
    ensures InPhase(After(s, run)) || After(s, run).coord.Reading?
    decreases |run|
  {
    if run != [] {
      StepKeeps(s, run[0]);
      PhaseRunIsRun(Apply(s, run[0]), run[1..]);
    }
  }

  /** A phase that has no step left but spurious wake-ups has reached the unlocked read. */
  lemma PhaseEndsReading(s: State, run: seq<Action>)
    requires Inv(s) && (InPhase(s) || s.coord.Reading?) && PhaseRun(s, run)
    ensures Executable(s, run)
    ensures var t := After(s, run);
      (InPhase(t) ==> forall a :: Enabled(t, a) ==> Spurious(a)) ==> t.coord.Reading?
  {
    PhaseRunIsRun(s, run);
    RunKeeps(s, run);
    var t := After(s, run);
    if InPhase(t) { var a := SomeThreadCanMove(t); }
  }

  /** A launched phase over k slots and n workers lasts at most 3k + 9n + 2 steps, and two more for each
      spurious wake-up. */
  lemma LaunchBudget(s: State, p: Phase, run: seq<Action>)
    requires Inv(s) && Enabled(s, Launch(p)) && PhaseRun(Apply(s, Launch(p)), run)
    ensures |run| <= 3 * |s.slots| + 9 * |s.workers| + 2 + 2 * WakeUps(run)
  {
    LaunchKeeps(s, p);
    var t := Apply(s, Launch(p));
    forall i | 0 <= i < |t.workers| ensures Rank(t.generation)(t.workers[i]) <= 5 {
      assert WorkerOk(t, i);
    }
    TotalWithin(Rank(t.generation), t.workers, (w: Worker) => 0, t.workers, 5);
    TotalUniform((w: Worker) => 0, t.workers, 0);
    PhaseTerminates(t, run);
  }
}
