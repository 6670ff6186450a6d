/**
 The coalesced completion check of the core benchmark. Connection callbacks on any number of I/O
 threads and the driver thread mark an event and then try to queue one check on the base loop; the
 base loop clears the queued flag before it looks. Every action below is one atomic access.

 Callbacks are anonymous, so the state keeps how many of them stand at each program point:
 `marked` between the mark and the compare-exchange, `won` after a successful compare-exchange and
 before tryQueue, `failing` after a rejected tryQueue cleared the flag and before fail().
 */
module CompletionCheck {

  datatype BasePc =
    | Idle
    | Task                       // took a queued check, flag not cleared yet
    | TestStop                   // checkCompletion: finishing / stopRequested
    | TestDriver                 // driverDone()
    | LoadFirst                  // connected() != disconnected(), whose operands C++ may read in either order
    | LoadDisconnected(seen: nat)  // disconnected(), against the connected() just read
    | LoadConnected(seen: nat)   // connected(), against the disconnected() just read
    | TestMap(seen: nat)         // server.connectionCount()
    | RequestStop(seen: nat)     // requestStop(false)

  datatype State = State(
    connected: nat, disconnected: nat, driverDone: bool,
    queuedFlag: bool, marked: nat, won: nat, failing: nat, tasks: nat,
    base: BasePc, retryArmed: bool, stopRequested: bool, finishing: bool,
    stops: nat, failed: bool, timedOut: bool)

  datatype Action =
    // environment: connections come and go, the driver finishes, the deadline fires, the server stops
    | MarkConnected | MarkDisconnected | MarkDriverDone | OverallTimeout | StopFinished
    // scheduleCompletionCheck on a callback or driver thread
    | CompareExchange | QueueAccepted | QueueRejected | RecordFailure
    // the base loop
    | TakeTask | ClearFlag | RetryFires | LookAtStop | LookAtDriver | ReadConnected | ReadDisconnected
    | CompareDisconnected | CompareConnected | LookAtMap(count: nat) | IssueStop

  const INIT := State(0, 0, false, false, 0, 0, 0, 0, Idle, false, false, false, 0, false, false)

  predicate Enabled(s: State, a: Action) {
    match a
    case MarkConnected => true
    case MarkDisconnected => s.disconnected < s.connected
    case MarkDriverDone => !s.driverDone
    case OverallTimeout => s.base.Idle? && !s.timedOut
    case StopFinished => s.base.Idle? && s.stopRequested
    case CompareExchange => s.marked > 0
    case QueueAccepted => s.won > 0
    case QueueRejected => s.won > 0
    case RecordFailure => s.failing > 0
    case TakeTask => s.base.Idle? && s.tasks > 0
    case ClearFlag => s.base.Task?
    case RetryFires => s.base.Idle? && s.retryArmed
    case LookAtStop => s.base.TestStop?
    case LookAtDriver => s.base.TestDriver?
    case ReadConnected => s.base.LoadFirst?
    case ReadDisconnected => s.base.LoadFirst?
    case CompareDisconnected => s.base.LoadDisconnected?
    case CompareConnected => s.base.LoadConnected?
    case LookAtMap(_) => s.base.TestMap?
    case IssueStop => s.base.RequestStop?
  }

  /** requestStop: stopGracefully is called the first time only. */
  function Stopped(s: State): State {
    if s.stopRequested then s else s.(stopRequested := true, stops := s.stops + 1)
  }

  function Apply(s: State, a: Action): State
    requires Enabled(s, a)
  {
    match a
    case MarkConnected => s.(connected := s.connected + 1)
    case MarkDisconnected => s.(disconnected := s.disconnected + 1, marked := s.marked + 1)
    case MarkDriverDone => s.(driverDone := true, marked := s.marked + 1)
    case OverallTimeout =>
      if s.finishing then s.(timedOut := true) else Stopped(s.(timedOut := true, failed := true))
    case StopFinished => s.(finishing := true)
    case CompareExchange =>
      if s.queuedFlag then s.(marked := s.marked - 1)
      else s.(marked := s.marked - 1, queuedFlag := true, won := s.won + 1)
    case QueueAccepted => s.(won := s.won - 1, tasks := s.tasks + 1)
    case QueueRejected => s.(won := s.won - 1, queuedFlag := false, failing := s.failing + 1)
    case RecordFailure => s.(failing := s.failing - 1, failed := true)
    case TakeTask => s.(tasks := s.tasks - 1, base := Task)
    case ClearFlag => s.(queuedFlag := false, base := TestStop)
    case RetryFires => s.(retryArmed := false, base := TestStop)
    case LookAtStop => s.(base := if s.finishing || s.stopRequested then Idle else TestDriver)
    case LookAtDriver => s.(base := if s.driverDone then LoadFirst else Idle)
    case ReadConnected => s.(base := LoadDisconnected(s.connected))
    case ReadDisconnected => s.(base := LoadConnected(s.disconnected))
    case CompareDisconnected =>
      s.(base := if s.base.seen == s.disconnected then TestMap(s.base.seen) else Idle)
    case CompareConnected =>
      s.(base := if s.base.seen == s.connected then TestMap(s.base.seen) else Idle)
    case LookAtMap(count) =>
      if count != 0 then s.(base := Idle, retryArmed := true) else s.(base := RequestStop(s.base.seen))
    case IssueStop => Stopped(s).(base := Idle)
  }

  predicate Executable(s: State, run: seq<Action>)
    decreases |run|
  {
    run == [] || (Enabled(s, run[0]) && Executable(Apply(s, run[0]), run[1..]))
  }

  function After(s: State, run: seq<Action>): State
    requires Executable(s, run)
    decreases |run|
  {
    if run == [] then s else After(Apply(s, run[0]), run[1..])
  }

  // --- Invariant -------------------------------------------------------------------------------

  /** The run is over: the driver finished and every connection it caused has gone away. */
  predicate Complete(s: State) { s.driverDone && s.connected == s.disconnected }

  /** Something still on its way will make the base loop look and see the completed run. */
  predicate CheckPending(s: State) {
    || s.marked > 0 || s.queuedFlag || s.retryArmed
    || s.base.TestStop? || s.base.TestDriver? || s.base.LoadFirst?
    || (Counted(s.base) && s.base.seen == s.connected)
  }

  /** The base loop has read a count. */
  predicate Counted(base: BasePc) {
    base.LoadDisconnected? || base.LoadConnected? || base.TestMap? || base.RequestStop?
  }

  predicate PastDriver(base: BasePc) { base.LoadFirst? || Counted(base) }

  predicate Inv(s: State) {
    && s.disconnected <= s.connected
    // the flag stands for exactly one check between its compare-exchange and its clearing
    && s.won + s.tasks + (if s.base.Task? then 1 else 0) == (if s.queuedFlag then 1 else 0)
    && s.stops == (if s.stopRequested then 1 else 0)
    && (s.finishing ==> s.stopRequested)
    && (s.timedOut && !s.failed ==> s.finishing)
    && (s.base.TestDriver? || PastDriver(s.base) ==> !s.stopRequested)
    && (PastDriver(s.base) ==> s.driverDone)
    && (s.base.LoadDisconnected? ==> s.base.seen <= s.connected)
    && (s.base.LoadConnected? || s.base.TestMap? || s.base.RequestStop? ==> s.base.seen <= s.disconnected)
    && (Complete(s) && !s.stopRequested ==> CheckPending(s) || s.failing > 0 || s.failed)
  }

  predicate Environment(a: Action) {
    a.MarkConnected? || a.MarkDisconnected? || a.MarkDriverDone? || a.OverallTimeout? || a.StopFinished?
  }

  predicate Scheduling(a: Action) {
    a.CompareExchange? || a.QueueAccepted? || a.QueueRejected? || a.RecordFailure?
  }

  predicate Reading(a: Action) {
    a.ReadConnected? || a.ReadDisconnected? || a.CompareDisconnected? || a.CompareConnected?
  }

  predicate Deciding(a: Action) { a.LookAtMap? || a.IssueStop? }

  predicate Entry(a: Action) { a.TakeTask? || a.ClearFlag? || a.RetryFires? || a.LookAtStop? || a.LookAtDriver? }

  lemma EnvironmentKeeps(s: State, a: Action)
    requires Inv(s) && Enabled(s, a) && Environment(a)
    ensures Inv(Apply(s, a))
  {
  }

  lemma SchedulingKeeps(s: State, a: Action)
    requires Inv(s) && Enabled(s, a) && Scheduling(a)
    ensures Inv(Apply(s, a))
  {
  }

  lemma EntryKeeps(s: State, a: Action)
    requires Inv(s) && Enabled(s, a) && Entry(a)
    ensures Inv(Apply(s, a))
  {
  }

  lemma ReadingKeeps(s: State, a: Action)
    requires Inv(s) && Enabled(s, a) && Reading(a)
    ensures Inv(Apply(s, a))
  {
  }

  lemma DecidingKeeps(s: State, a: Action)
    requires Inv(s) && Enabled(s, a) && Deciding(a)
    ensures Inv(Apply(s, a))
  {
  }

  lemma StepKeeps(s: State, a: Action)
    requires Inv(s) && Enabled(s, a)
    ensures Inv(Apply(s, a))
  {
    if Environment(a) { EnvironmentKeeps(s, a); }
    else if Scheduling(a) { SchedulingKeeps(s, a); }
    else if Entry(a) { EntryKeeps(s, a); }
    else if Reading(a) { ReadingKeeps(s, a); }
    else { DecidingKeeps(s, a); }
  }

  lemma {:induction false} RunKeeps(s: State, run: seq<Action>)
    requires Inv(s) && Executable(s, run)
    ensures Inv(After(s, run))
    decreases |run|
  {
    if run != [] {
      StepKeeps(s, run[0]);
      RunKeeps(Apply(s, run[0]), run[1..]);
    }
  }

  /** No completion check is lost, at most one is outstanding, and stop is requested at most once. */
  lemma NoCheckIsLost(run: seq<Action>)
    requires Executable(INIT, run)
    ensures var s := After(INIT, run);
      && (Complete(s) && !s.stopRequested ==> CheckPending(s) || s.failing > 0 || s.failed)
      && s.won + s.tasks <= 1
      && s.stops <= 1
  {
    RunKeeps(INIT, run);
  }

  // --- What the stop is based on ---------------------------------------------------------------

  lemma {:induction false} Extended(s: State, run: seq<Action>, a: Action)
    requires Executable(s, run) && Enabled(After(s, run), a)
    ensures Executable(s, run + [a]) && After(s, run + [a]) == Apply(After(s, run), a)
    decreases |run|
  {
    if run == [] {
      assert run + [a] == [a] && [a][1..] == [];
    } else {
      assert (run + [a])[1..] == run[1..] + [a];
      Extended(Apply(s, run[0]), run[1..], a);
    }
  }

  lemma {:induction false} Shortened(s: State, run: seq<Action>)
    requires run != [] && Executable(s, run)
    ensures var front, last := run[..|run| - 1], run[|run| - 1];
      Executable(s, front) && Enabled(After(s, front), last) && After(s, run) == Apply(After(s, front), last)
    decreases |run|
  {
    var front := run[..|run| - 1];
    if |run| > 1 {
      assert front[1..] == run[1..][..|run[1..]| - 1];
      Shortened(Apply(s, run[0]), run[1..]);
    }
  }

  /** At some moment of the run the driver was done and exactly `seen` connections had been counted. */
  ghost predicate WasCounted(run: seq<Action>, seen: nat) {
    exists i :: 0 <= i <= |run| && CountedAt(run[..i], seen)
  }

  predicate CountedAt(part: seq<Action>, seen: nat) {
    Executable(INIT, part) && After(INIT, part).driverDone && After(INIT, part).connected == seen
  }

  /** The base loop holds a number of connections. */
  predicate HoldsConnected(base: BasePc) { base.LoadDisconnected? || base.TestMap? || base.RequestStop? }

  /** Where a held number comes from: it was held before, or it is the count read in this step. */
  predicate Stems(s: State, t: State) {
    HoldsConnected(t.base) ==>
      || (s.driverDone && s.connected == t.base.seen)
      || (HoldsConnected(s.base) && s.base.seen == t.base.seen)
  }

  predicate Compared(base: BasePc) { base.TestMap? || base.RequestStop? }

  /** Unless connected() was read first, a comparison that succeeds does so in a completed state. */
  predicate Confirms(s: State, t: State) {
    !s.base.LoadDisconnected? ==>
      !t.base.LoadDisconnected? && (Compared(t.base) ==> Compared(s.base) || Complete(s))
  }

  lemma EnvironmentMovesNothing(s: State, a: Action)
    requires Enabled(s, a) && Environment(a)
    ensures Apply(s, a).base == s.base
  {
    match a
    case MarkConnected => assert Apply(s, MarkConnected).base == s.base;
    case MarkDisconnected => assert Apply(s, MarkDisconnected).base == s.base;
    case MarkDriverDone => assert Apply(s, MarkDriverDone).base == s.base;
    case OverallTimeout => assert Apply(s, OverallTimeout).base == s.base;
    case StopFinished => assert Apply(s, StopFinished).base == s.base;
  }

  lemma SchedulingMovesNothing(s: State, a: Action)
    requires Enabled(s, a) && Scheduling(a)
    ensures Apply(s, a).base == s.base
  {
    match a
    case CompareExchange => assert Apply(s, CompareExchange).base == s.base;
    case QueueAccepted => assert Apply(s, QueueAccepted).base == s.base;
    case QueueRejected => assert Apply(s, QueueRejected).base == s.base;
    case RecordFailure => assert Apply(s, RecordFailure).base == s.base;
  }

  lemma EntryCountsNothing(s: State, a: Action)
    requires Enabled(s, a) && Entry(a)
    ensures !Counted(Apply(s, a).base)
  {
  }

  lemma ReadingMoves(s: State, a: Action)
    requires Inv(s) && Enabled(s, a) && Reading(a)
    ensures Stems(s, Apply(s, a)) && (!a.ReadConnected? ==> Confirms(s, Apply(s, a)))
  {
  }

  lemma DecidingMoves(s: State, a: Action)
    requires Enabled(s, a) && Deciding(a)
    ensures Stems(s, Apply(s, a)) && Confirms(s, Apply(s, a))
  {
  }

  lemma StepMoves(s: State, a: Action)
    requires Inv(s) && Enabled(s, a)
    ensures Stems(s, Apply(s, a)) && (!a.ReadConnected? ==> Confirms(s, Apply(s, a)))
  {
    if Environment(a) { EnvironmentMovesNothing(s, a); }
    else if Scheduling(a) { SchedulingMovesNothing(s, a); }
    else if Entry(a) { EntryCountsNothing(s, a); }
    else if Reading(a) { ReadingMoves(s, a); }
    else { DecidingMoves(s, a); }
  }

  /** The moment at which the number the base loop holds was the number of connections. */
  lemma {:induction false} HeldSince(run: seq<Action>) returns (i: nat)
    requires Executable(INIT, run) && HoldsConnected(After(INIT, run).base)
    ensures i <= |run| && CountedAt(run[..i], After(INIT, run).base.seen)
    decreases |run|
  {
    assert run != [];
    var front := run[..|run| - 1];
    var s, t := LastStep(run);
    if s.driverDone && s.connected == t.base.seen {
      i := |front|;
    } else {
      i := HeldSince(front);
      assert run[..i] == front[..i];
    }
  }

  lemma LastStep(run: seq<Action>) returns (s: State, t: State)
    requires run != [] && Executable(INIT, run)
    ensures Executable(INIT, run[..|run| - 1]) && s == After(INIT, run[..|run| - 1]) && t == After(INIT, run)
    ensures Stems(s, t)
  {
    Shortened(INIT, run);
    s, t := After(INIT, run[..|run| - 1]), After(INIT, run);
    RunKeeps(INIT, run[..|run| - 1]);
    StepMoves(s, run[|run| - 1]);
  }

  /** The check stops the server only after the driver was done, and only once as many connections have
      been reported closed as had been counted at some moment since. */
  lemma StopIsJustified(run: seq<Action>)
    requires Executable(INIT, run) && Enabled(After(INIT, run), IssueStop)
    ensures var s := After(INIT, run);
      && WasCounted(run, s.base.seen) && s.base.seen <= s.disconnected <= s.connected
      && s.stops == 0 && Apply(s, IssueStop).stops == 1
  {
    RunKeeps(INIT, run);
    var i := HeldSince(run);
  }

  predicate DisconnectedFirst(run: seq<Action>) { forall i :: 0 <= i < |run| ==> !run[i].ReadConnected? }
  predicate ConnectedFirst(run: seq<Action>) { forall i :: 0 <= i < |run| ==> !run[i].ReadDisconnected? }

  ghost predicate WasComplete(run: seq<Action>) { exists i :: 0 <= i <= |run| && CompleteAt(run[..i]) }

  predicate CompleteAt(part: seq<Action>) { Executable(INIT, part) && Complete(After(INIT, part)) }

  lemma WasCompleteLater(front: seq<Action>, a: Action)
    requires WasComplete(front) || CompleteAt(front)
    ensures WasComplete(front + [a])
  {
    var longer := front + [a];
    if CompleteAt(front) {
      assert longer[..|front|] == front;
    } else {
      var i :| 0 <= i <= |front| && CompleteAt(front[..i]);
      assert longer[..i] == front[..i];
    }
  }

  lemma {:induction false} ComparedWasComplete(run: seq<Action>)
    requires Executable(INIT, run) && DisconnectedFirst(run)
    ensures !After(INIT, run).base.LoadDisconnected?
    ensures Compared(After(INIT, run).base) ==> WasComplete(run)
    decreases |run|
  {
    if run != [] {
      var front, a := run[..|run| - 1], run[|run| - 1];
      Shortened(INIT, run);
      RunKeeps(INIT, front);
      assert forall i :: 0 <= i < |front| ==> front[i] == run[i];
      ComparedWasComplete(front);
      StepMoves(After(INIT, front), a);
      assert run == front + [a];
      if Compared(After(INIT, run).base) { WasCompleteLater(front, a); }
    }
  }

  /** Compiled to read disconnected() first, the check stops the server only if the run was complete at
      some moment. */
  lemma DisconnectedFirstIsExact(run: seq<Action>)
    requires Executable(INIT, run) && DisconnectedFirst(run) && Enabled(After(INIT, run), IssueStop)
    ensures WasComplete(run)
  {
    ComparedWasComplete(run);
  }

  /** No prefix of the run ends in a completed state. */
  predicate Incomplete(run: seq<Action>) {
    forall i :: 0 <= i <= |run| ==> Executable(INIT, run[..i]) && !Complete(After(INIT, run[..i]))
  }

  lemma IncompleteExtended(run: seq<Action>, a: Action)
    requires Executable(INIT, run) && Incomplete(run)
    requires Enabled(After(INIT, run), a) && !Complete(Apply(After(INIT, run), a))
    ensures Executable(INIT, run + [a]) && After(INIT, run + [a]) == Apply(After(INIT, run), a)
    ensures Incomplete(run + [a])
  {
    Extended(INIT, run, a);
    var longer := run + [a];
    forall i | 0 <= i <= |longer| ensures Executable(INIT, longer[..i]) && !Complete(After(INIT, longer[..i])) {
      if i <= |run| { assert longer[..i] == run[..i]; } else { assert longer[..i] == longer; }
    }
  }

  /** A run to `s` that reads connected() first and was complete at no moment. */
  ghost predicate Reaches(run: seq<Action>, s: State) {
    Executable(INIT, run) && After(INIT, run) == s && ConnectedFirst(run) && Incomplete(run)
  }

  lemma Played(run: seq<Action>, s: State, a: Action) returns (longer: seq<Action>, t: State)
    requires Reaches(run, s) && Enabled(s, a) && !Complete(Apply(s, a)) && !a.ReadDisconnected?
    ensures longer == run + [a] && t == Apply(s, a) && Reaches(longer, t)
  {
    IncompleteExtended(run, a);
    longer, t := run + [a], Apply(s, a);
  }

  /** One connection is open, the driver is done, and its check is queued. */
  lemma CheckQueued() returns (run: seq<Action>, s: State)
    ensures Reaches(run, s) && s.base.Idle? && s.tasks == 1 && s.driverDone && !s.stopRequested && !s.finishing
    ensures s.connected == 1 && s.disconnected == 0
  {
    run, s := [], INIT;
    run, s := Played(run, s, MarkConnected);
    run, s := Played(run, s, MarkDriverDone);
    run, s := Played(run, s, CompareExchange);
    run, s := Played(run, s, QueueAccepted);
  }

  lemma CheckStarted() returns (run: seq<Action>, s: State)
    ensures Reaches(run, s) && s.base.LoadFirst? && s.driverDone && s.connected == 1 && s.disconnected == 0
  {
    run, s := CheckQueued();
    run, s := Played(run, s, TakeTask);
    run, s := Played(run, s, ClearFlag);
    run, s := Played(run, s, LookAtStop);
    run, s := Played(run, s, LookAtDriver);
  }

  /** One connection opens and the other closes between the two reads. */
  lemma CountsRaced() returns (run: seq<Action>, s: State)
    ensures Reaches(run, s) && s.base == LoadDisconnected(1) && s.connected == 2 && s.disconnected == 1
  {
    run, s := CheckStarted();
    run, s := Played(run, s, ReadConnected);
    run, s := Played(run, s, MarkConnected);
    run, s := Played(run, s, MarkDisconnected);
  }

  /** Compiled to read connected() first, the check may stop the server with a connection open, in a run
      that was complete at no moment. */
  lemma ConnectedFirstMayOvertake() returns (run: seq<Action>, s: State)
    ensures Reaches(run, s) && Enabled(s, IssueStop) && s.connected == 2 && s.disconnected == 1
  {
    run, s := CountsRaced();
    run, s := Played(run, s, CompareDisconnected);
    run, s := Played(run, s, LookAtMap(0));
  }

  // --- Convergence -----------------------------------------------------------------------------

  /** Steps the benchmark takes by itself, whatever the connection map still holds. */
  predicate Internal(a: Action) { !Environment(a) }

  /** A look at a connection map that is not empty yet, after which the check is retried. */
  predicate FindsMapBusy(a: Action) { a.LookAtMap? && a.count != 0 }

  function BusyLooks(run: seq<Action>): nat {
    if run == [] then 0 else (if FindsMapBusy(run[0]) then 1 else 0) + BusyLooks(run[1..])
  }

  function BaseRank(base: BasePc): nat {
    match base
    case Idle => 0
    case Task => 7
    case TestStop => 6
    case TestDriver => 5
    case LoadFirst => 4
    case LoadDisconnected(_) => 3
    case LoadConnected(_) => 3
    case TestMap(_) => 2
    case RequestStop(_) => 1
  }

  function Measure(s: State): nat {
    10 * s.marked + 9 * s.won + 8 * s.tasks + (if s.retryArmed then 7 else 0) + s.failing + BaseRank(s.base)
  }

  predicate SameCounts(s: State, t: State) {
    t.connected == s.connected && t.disconnected == s.disconnected && t.driverDone == s.driverDone
  }

  /** A step that touches neither the marks nor the queue on its way to the base loop. */
  predicate SameQueue(s: State, t: State) { t.marked == s.marked && t.won == s.won && t.failing == s.failing }

  lemma ExchangeDecreases(s: State)
    requires Enabled(s, CompareExchange)
    ensures Measure(Apply(s, CompareExchange)) < Measure(s) && SameCounts(s, Apply(s, CompareExchange))
  {
  }

  lemma QueueingDecreases(s: State, a: Action)
    requires Enabled(s, a) && (a.QueueAccepted? || a.QueueRejected? || a.RecordFailure?)
    ensures Measure(Apply(s, a)) < Measure(s) && SameCounts(s, Apply(s, a))
  {
    assert Apply(s, a).base == s.base && Apply(s, a).retryArmed == s.retryArmed;
  }

  lemma SchedulingDecreases(s: State, a: Action)
    requires Enabled(s, a) && Scheduling(a)
    ensures Measure(Apply(s, a)) < Measure(s) && SameCounts(s, Apply(s, a))
  {
    if a.CompareExchange? { ExchangeDecreases(s); } else { QueueingDecreases(s, a); }
  }

  lemma EntryDecreases(s: State, a: Action)
    requires Enabled(s, a) && Entry(a)
    ensures Measure(Apply(s, a)) < Measure(s) && SameCounts(s, Apply(s, a))
  {
    assert SameQueue(s, Apply(s, a));
  }

  lemma ReadingDecreases(s: State, a: Action)
    requires Enabled(s, a) && Reading(a)
    ensures Measure(Apply(s, a)) < Measure(s) && SameCounts(s, Apply(s, a))
  {
    assert SameQueue(s, Apply(s, a));
  }

  lemma DecidingDecreases(s: State, a: Action)
    requires Enabled(s, a) && Deciding(a)
    ensures Measure(Apply(s, a)) < Measure(s) + (if FindsMapBusy(a) then 6 else 0) && SameCounts(s, Apply(s, a))
  {
    match a
    case IssueStop => assert Apply(s, a).base == Idle;
    case LookAtMap(count) =>
      assert Apply(s, a) ==
        if count != 0 then s.(base := Idle, retryArmed := true) else s.(base := RequestStop(s.base.seen));
  }

  /** Each step but a look at a busy map lowers the measure; such a look raises it by at most five. */
  lemma InternalDecreases(s: State, a: Action)
    requires Enabled(s, a) && Internal(a)
    ensures Measure(Apply(s, a)) < Measure(s) + (if FindsMapBusy(a) then 6 else 0)
    ensures SameCounts(s, Apply(s, a))
  {
    if Scheduling(a) { SchedulingDecreases(s, a); }
    else if Entry(a) { EntryDecreases(s, a); }
    else if Reading(a) { ReadingDecreases(s, a); }
    else { DecidingDecreases(s, a); }
  }

  predicate InternalRun(run: seq<Action>) { forall i :: 0 <= i < |run| ==> Internal(run[i]) }

  ghost predicate Quiet(s: State) { forall a :: Internal(a) ==> !Enabled(s, a) }

  /** A completed run that is neither stopping nor failed always has an internal step to take. */
  lemma NextStep(s: State) returns (a: Action)
    requires Inv(s) && Complete(s) && !s.stopRequested && !s.failed
    ensures Internal(a) && Enabled(s, a)
  {
    match s.base
    case Task => a := ClearFlag;
    case TestStop => a := LookAtStop;
    case TestDriver => a := LookAtDriver;
    case LoadFirst => a := ReadConnected;
    case LoadDisconnected(_) => a := CompareDisconnected;
    case LoadConnected(_) => a := CompareConnected;
    case TestMap(_) => a := LookAtMap(0);
    case RequestStop(_) => a := IssueStop;
    case Idle =>
      a := if s.marked > 0 then CompareExchange else if s.won > 0 then QueueAccepted
           else if s.tasks > 0 then TakeTask else if s.retryArmed then RetryFires else RecordFailure;
  }

  lemma {:induction false} ConvergesFrom(s: State, run: seq<Action>)
    requires Inv(s) && Complete(s) && Executable(s, run) && InternalRun(run)
    ensures |run| <= Measure(s) + 6 * BusyLooks(run)
    ensures Quiet(After(s, run)) ==> After(s, run).stopRequested || After(s, run).failed
    decreases |run|
  {
    if run == [] {
      if !s.stopRequested && !s.failed { var a := NextStep(s); }
    } else {
      StepKeeps(s, run[0]);
      InternalDecreases(s, run[0]);
      ConvergesFrom(Apply(s, run[0]), run[1..]);
    }
  }

  /** From any reachable completed state, every schedule of the remaining internal steps is at most as
      long as the measure plus six steps for each look that finds the connection map busy, and it can
      end only with the stop requested or a failure on record. */
  lemma CompletedRunStops(history: seq<Action>, run: seq<Action>)
    requires Executable(INIT, history) && Complete(After(INIT, history))
    requires Executable(After(INIT, history), run) && InternalRun(run)
    ensures var s := After(INIT, history);
      && |run| <= Measure(s) + 6 * BusyLooks(run)
      && (Quiet(After(s, run)) ==> After(s, run).stopRequested || After(s, run).failed)
  {
    RunKeeps(INIT, history);
    ConvergesFrom(After(INIT, history), run);
  }
}
