/**
 The recovery phase of the capacity benchmark: the monitor that waits for a stable window, and the
 strided readers that drain every slow socket until it closes.
 */
module Recovery {
  import opened Striding
  import opened Totals
  import opened Wrappers

  // --- The stable window -----------------------------------------------------------------------

  /** One pass of the monitor loop: the clock at the loop guard, whether a reader has failed, the
      sampled state, the clock read when a window opens and the clock read when its length is tested. */
  datatype Sample = Sample(entered: nat, readerFailed: bool, quiescent: bool, since: nat, tested: nat)

  /** How the loop ends, and at which sample; the last two throw. */
  datatype Verdict = Recovered(at: nat) | ReaderFailed(at: nat) | TimedOut

  predicate ClockAdvances(started: nat, trace: seq<Sample>) {
    && (forall i :: 0 <= i < |trace| ==> started <= trace[i].entered <= trace[i].since <= trace[i].tested)
    && (forall i :: 0 < i < |trace| ==> trace[i - 1].tested <= trace[i].entered)
  }

  /** The first sample of the unbroken quiescent run that ends at k. */
  function RunStart(trace: seq<Sample>, k: nat): (start: nat)
    requires k < |trace| && trace[k].quiescent
    ensures start <= k && forall i :: start <= i <= k ==> trace[i].quiescent
    ensures start == 0 || !trace[start - 1].quiescent
  {
    if k > 0 && trace[k - 1].quiescent then RunStart(trace, k - 1) else k
  }

  /** The window test succeeds at k: quiescent since some sample, for at least `stable`. */
  predicate StableAt(trace: seq<Sample>, k: nat, stable: nat)
    requires k < |trace|
  {
    trace[k].quiescent && trace[k].tested - trace[RunStart(trace, k)].since >= stable
  }

  /** The loop gets past its first n samples. */
  ghost predicate Undecided(trace: seq<Sample>, n: nat, deadline: nat, stable: nat)
    requires n <= |trace|
  {
    forall i :: 0 <= i < n ==> trace[i].entered < deadline && !trace[i].readerFailed && !StableAt(trace, i, stable)
  }

  /** The recovery loop over whatever the clock, the readers and the samples turn out to be. */
  method MonitorRecovery(trace: seq<Sample>, deadline: nat, stable: nat) returns (verdict: Verdict)
    ensures verdict.Recovered? ==>
              && verdict.at < |trace| && Undecided(trace, verdict.at, deadline, stable)
              && trace[verdict.at].entered < deadline && !trace[verdict.at].readerFailed
              && StableAt(trace, verdict.at, stable)
    ensures verdict.ReaderFailed? ==>
              && verdict.at < |trace| && Undecided(trace, verdict.at, deadline, stable)
              && trace[verdict.at].entered < deadline && trace[verdict.at].readerFailed
    ensures verdict.TimedOut? ==>
              exists end :: 0 <= end <= |trace| && Undecided(trace, end, deadline, stable)
                            && (end == |trace| || trace[end].entered >= deadline)
  {
    var stableSince: Option<nat> := None;
    var i := 0;
    while i < |trace| && trace[i].entered < deadline
      invariant i <= |trace| && Undecided(trace, i, deadline, stable)
      invariant stableSince == if i > 0 && trace[i - 1].quiescent
                               then Some(trace[RunStart(trace, i - 1)].since) else None
    {
      if trace[i].readerFailed { return ReaderFailed(i); }
      if trace[i].quiescent {
        if stableSince.None? { stableSince := Some(trace[i].since); }
        assert stableSince == Some(trace[RunStart(trace, i)].since);
        if trace[i].tested - stableSince.value >= stable { return Recovered(i); }
      } else {
        stableSince := None;
      }
      i := i + 1;
    }
    assert Undecided(trace, i, deadline, stable) && (i == |trace| || trace[i].entered >= deadline);
    verdict := TimedOut;
  }

  lemma {:induction false} ClockOrder(started: nat, trace: seq<Sample>, j: nat, k: nat)
    requires ClockAdvances(started, trace) && j <= k < |trace|
    ensures started <= trace[j].since && trace[j].since <= trace[k].tested && trace[j].tested <= trace[k].tested
    decreases k
  {
    if j < k { ClockOrder(started, trace, j, k - 1); }
  }

  /** Both checkers ask that a recovered run lasted at least the stable window: it always did. */
  lemma RecoveryOutlastsWindow(started: nat, trace: seq<Sample>, k: nat, stable: nat, finished: nat)
    requires ClockAdvances(started, trace) && k < |trace| && StableAt(trace, k, stable)
    requires trace[k].tested <= finished
    ensures finished - started >= stable
  {
    ClockOrder(started, trace, RunStart(trace, k), k);
  }

  /** Any non-quiescent sample restarts the window: the stable time counts from after it. */
  lemma WindowRestarts(started: nat, trace: seq<Sample>, i: nat, k: nat, stable: nat)
    requires ClockAdvances(started, trace) && i < k < |trace|
    requires !trace[i].quiescent && StableAt(trace, k, stable)
    ensures trace[k].tested - trace[i].tested >= stable
  {
    var start := RunStart(trace, k);
    assert i < start;
    ClockOrder(started, trace, i, start - 1);
    assert trace[start - 1].tested <= trace[start].since;
  }

  // --- The strided readers ---------------------------------------------------------------------

  function OpenWeight(): bool -> nat { (closed: bool) => if closed then 0 else 1 }

  /** What one look at every socket reports: which of them are closed by now. */
  method LookAtSockets(clients: nat) returns (drained: seq<bool>)
    ensures |drained| == clients
  {
    drained := [];
    while |drained| < clients
      invariant |drained| <= clients
      decreases clients - |drained|
    {
      var closed: bool := *;
      drained := drained + [closed];
    }
  }

  /** Cell k of worker w follows the socket at client index w + k * workers. */
  predicate CellFollows(closed: seq<bool>, before: seq<bool>, drained: seq<bool>, w: nat, workers: nat, k: nat)
    requires k < |closed| == |before|
  {
    var index := Position(w, workers, k);
    index < |drained| && closed[k] == (before[k] || drained[index])
  }

  /** One pass of worker w over its sockets; `remaining` stays the number of open cells. */
  method Sweep(w: nat, workers: nat, drained: seq<bool>, before: seq<bool>, openBefore: nat)
    returns (closed: seq<bool>, remaining: nat, newlyClosed: nat)
    requires w < workers && |before| == Share(w, workers, |drained|) && openBefore == Total(OpenWeight(), before)
    ensures |closed| == |before| && remaining == Total(OpenWeight(), closed) && newlyClosed + remaining == openBefore
    ensures forall k :: 0 <= k < |closed| ==> CellFollows(closed, before, drained, w, workers, k)
  {
    closed, remaining, newlyClosed := before, openBefore, 0;
    var index, localIndex := w, 0;
    while index < |drained|
      invariant index == Position(w, workers, localIndex)
      invariant localIndex + Share(index, workers, |drained|) == |before|
      invariant |closed| == |before| && remaining == Total(OpenWeight(), closed)
      invariant newlyClosed + remaining == openBefore
      invariant forall k {:trigger CellFollows(closed, before, drained, w, workers, k)} ::
        0 <= k < localIndex ==> CellFollows(closed, before, drained, w, workers, k)
      invariant forall k :: localIndex <= k < |closed| ==> closed[k] == before[k]
      decreases |drained| - index
    {
      ghost var was := closed;
      if !closed[localIndex] && drained[index] {
        TotalUpdate(OpenWeight(), closed, localIndex, true);
        closed := closed[localIndex := true];
        remaining := remaining - 1;
        newlyClosed := newlyClosed + 1;
      }
      forall k | 0 <= k <= localIndex ensures CellFollows(closed, before, drained, w, workers, k) {
        assert k < localIndex ==> CellFollows(was, before, drained, w, workers, k);
      }
      index := index + workers;
      localIndex := localIndex + 1;
    }
  }

  /** One bounded reader; false if the shutdown deadline passes, after `patience` further passes. A
      reader that finishes has closed every socket of its share, one that does not has closed fewer. */
  method ReaderMain(w: nat, workers: nat, clients: nat, patience: nat) returns (finished: bool, closedSockets: nat)
    requires w < workers
    ensures closedSockets <= Share(w, workers, clients)
    ensures finished <==> closedSockets == Share(w, workers, clients)
  {
    var closed: seq<bool> := [];
    var index := w;
    while index < clients
      invariant |closed| + Share(index, workers, clients) == Share(w, workers, clients)
      invariant forall k :: 0 <= k < |closed| ==> !closed[k]
      decreases clients - index
    {
      closed := closed + [false];
      index := index + workers;
    }
    TotalUniform(OpenWeight(), closed, 1);
    var remaining := |closed|;
    closedSockets := 0;
    var left: int := patience;
    while remaining != 0
      invariant |closed| == Share(w, workers, clients)
      invariant remaining == Total(OpenWeight(), closed) && closedSockets + remaining == |closed|
      invariant left >= 0 || remaining == 0
      decreases left
    {
      var drained := LookAtSockets(clients);
      var newlyClosed;
      closed, remaining, newlyClosed := Sweep(w, workers, drained, closed, remaining);
      closedSockets := closedSockets + newlyClosed;
      if remaining != 0 && left == 0 { return false, closedSockets; }
      left := left - 1;
    }
    finished := true;
  }

  /** All readers of one run: every worker finishes exactly if each client socket was closed. */
  method RunReaders(concurrency: nat, clients: nat, patience: nat)
    returns (workers: nat, finished: bool, closedSockets: nat)
    requires concurrency >= 1 && clients >= 1
    ensures workers == if concurrency < clients then concurrency else clients
    ensures closedSockets <= clients
    ensures finished <==> closedSockets == clients
  {
    workers := if concurrency < clients then concurrency else clients;
    closedSockets, finished := 0, true;
    for w := 0 to workers
      invariant closedSockets <= DealtTo(w, workers, clients)
      invariant finished <==> closedSockets == DealtTo(w, workers, clients)
    {
      var done, count := ReaderMain(w, workers, clients, patience);
      closedSockets := closedSockets + count;
      finished := finished && done;
    }
    SharesCoverAll(workers, clients);
  }

  // --- The readers side by side ----------------------------------------------------------------

  datatype ReaderPc = Draining | Adding | Finished | Failed

  /** `remaining` is the reader's own count of open sockets; Adding, it has yet to bump the shared count. */
  datatype Reader = Reader(pc: ReaderPc, remaining: nat)

  datatype State = State(readers: seq<Reader>, closedSockets: nat)

  datatype Action = FindClosed(w: nat) | Add(w: nat) | Finish(w: nat) | GiveUp(w: nat)

  function Start(workers: nat, clients: nat): State
    requires workers > 0
  {
    State(seq(workers, w requires 0 <= w < workers => Reader(Draining, Share(w, workers, clients))), 0)
  }

  predicate Enabled(s: State, a: Action) {
    && a.w < |s.readers|
    && match a
       case FindClosed(w) => s.readers[w].pc.Draining? && s.readers[w].remaining > 0
       case Add(w) => s.readers[w].pc.Adding?
       case Finish(w) => s.readers[w].pc.Draining? && s.readers[w].remaining == 0
       case GiveUp(w) => s.readers[w].pc.Draining? && s.readers[w].remaining > 0
  }

  function Put(s: State, w: nat, to: Reader): State
    requires w < |s.readers|
  {
    s.(readers := s.readers[w := to])
  }

  function Apply(s: State, a: Action): State
    requires Enabled(s, a)
  {
    match a
    case FindClosed(w) => Put(s, w, Reader(Adding, s.readers[w].remaining - 1))
    case Add(w) => Put(s, w, Reader(Draining, s.readers[w].remaining)).(closedSockets := s.closedSockets + 1)
    case Finish(w) => Put(s, w, Reader(Finished, 0))
    case GiveUp(w) => Put(s, w, Reader(Failed, s.readers[w].remaining))
  }

  predicate Executable(s: State, run: seq<Action>)
    decreases |run|
  {
    run == [] || (Enabled(s, run[0]) && Executable(Apply(s, run[0]), run[1..]))
  }

  function After(s: State, run: seq<Action>): State
    requires Executable(s, run)
    decreases |run|
  {
    if run == [] then s else After(Apply(s, run[0]), run[1..])
  }

  /** The sockets a reader has not yet added to the shared count. */
  function Outstanding(): Reader -> nat { (r: Reader) => r.remaining + (if r.pc.Adding? then 1 else 0) }

  predicate ReaderOk(r: Reader) { (r.pc.Finished? ==> r.remaining == 0) && (r.pc.Failed? ==> r.remaining > 0) }

  predicate Inv(s: State, clients: nat) {
    && s.closedSockets + Total(Outstanding(), s.readers) == clients
    && forall w :: 0 <= w < |s.readers| ==> ReaderOk(s.readers[w])
  }

  lemma {:induction false} SharesTotal(readers: seq<Reader>, from: nat, workers: nat, clients: nat)
    requires from + |readers| == workers > 0
    requires forall i :: 0 <= i < |readers| ==> readers[i] == Reader(Draining, Share(from + i, workers, clients))
    ensures DealtTo(from, workers, clients) + Total(Outstanding(), readers) == DealtTo(workers, workers, clients)
  {
    if readers != [] { SharesTotal(readers[1..], from + 1, workers, clients); }
  }

  lemma StepKeeps(s: State, a: Action, clients: nat)
    requires Inv(s, clients) && Enabled(s, a)
    ensures Inv(Apply(s, a), clients) && |Apply(s, a).readers| == |s.readers|
  {
    assert ReaderOk(s.readers[a.w]);
    TotalUpdate(Outstanding(), s.readers, a.w, Apply(s, a).readers[a.w]);
  }

  lemma {:induction false} RunKeeps(s: State, run: seq<Action>, clients: nat)
    requires Inv(s, clients) && Executable(s, run)
    ensures Inv(After(s, run), clients) && |After(s, run).readers| == |s.readers|
    decreases |run|
  {
    if run != [] {
      StepKeeps(s, run[0], clients);
      RunKeeps(Apply(s, run[0]), run[1..], clients);
    }
  }

  predicate Exited(r: Reader) { r.pc.Finished? || r.pc.Failed? }

  /** However the readers interleave, the shared count never exceeds the clients, and once all readers have
      exited it equals the clients exactly if none of them gave up. */
  lemma ReadersAccountForAll(workers: nat, clients: nat, run: seq<Action>)
    requires workers > 0 && Executable(Start(workers, clients), run)
    ensures var s := After(Start(workers, clients), run);
      && s.closedSockets <= clients
      && ((forall w :: 0 <= w < |s.readers| ==> Exited(s.readers[w])) ==>
            (s.closedSockets == clients <==> forall w :: 0 <= w < |s.readers| ==> s.readers[w].pc.Finished?))
  {
    var start := Start(workers, clients);
    SharesTotal(start.readers, 0, workers, clients);
    SharesCoverAll(workers, clients);
    RunKeeps(start, run, clients);
    AllFinished(After(start, run), clients);
  }

  lemma AllFinished(s: State, clients: nat)
    requires Inv(s, clients)
    ensures (forall w :: 0 <= w < |s.readers| ==> Exited(s.readers[w])) ==>
              (s.closedSockets == clients <==> forall w :: 0 <= w < |s.readers| ==> s.readers[w].pc.Finished?)
  {
    if forall w :: 0 <= w < |s.readers| ==> s.readers[w].pc.Finished? {
      forall w | 0 <= w < |s.readers| ensures Outstanding()(s.readers[w]) == 0 { assert ReaderOk(s.readers[w]); }
      TotalUniform(Outstanding(), s.readers, 0);
    } else if forall w :: 0 <= w < |s.readers| ==> Exited(s.readers[w]) {
      var w :| 0 <= w < |s.readers| && !s.readers[w].pc.Finished?;
      assert ReaderOk(s.readers[w]);
      TotalUpdate(Outstanding(), s.readers, w, Reader(Finished, 0));
    }
  }
}
