/**
 The paced batch loops that feed the benchmark reports (healthy probes and connection churn), and
 the conservation equations that finalizeChecks and the Python validators re-check.
 */
module BatchAccounting {
  import opened Arithmetic
  import opened Sorting
  import opened Totals
  import opened WorkerPool
  import opened Wrappers

  /** rate * duration / 1000; the option limits keep the product far below 64 bits. */
  function ExpectedAttempts(perSecond: nat, durationMs: nat): nat { perSecond * durationMs / 1000 }

  // --- Healthy probes --------------------------------------------------------------------------

  datatype HealthyProbe = HealthyProbe(
    attempted: nat, clientConnected: nat, serverAccepted: nat, probeSucceeded: nat, serverClosed: nat,
    batches: nat, connectFailures: nat, sendFailures: nat, receiveFailures: nat, payloadMismatches: nat)

  function PostConnectFailures(p: HealthyProbe): nat { p.sendFailures + p.receiveFailures + p.payloadMismatches }
  function TotalFailures(p: HealthyProbe): nat { p.connectFailures + PostConnectFailures(p) }

  /** Any batch connectBatch(count) may hand back; WorkerPool.ConnectReturns proves that there is no other. */
  method PoolConnect(count: nat) returns (attempts: seq<Attempt>)
    ensures |attempts| == count && ConnectBatch(attempts)
  {
    attempts := [];
    while |attempts| < count
      invariant |attempts| <= count && ConnectBatch(attempts)
      decreases count - |attempts|
    {
      var connected: bool := *;
      attempts := attempts + [if connected then FRESH.(connected := true) else FRESH.(failure := ConnectFailure)];
    }
  }

  /** Any batch exchangeAndCloseBatch may hand back after `before`, by WorkerPool.ExchangeReturns. */
  method PoolExchange(before: seq<Attempt>) returns (after: seq<Attempt>)
    ensures ExchangeBatch(before, after)
  {
    after := [];
    while |after| < |before|
      invariant |after| <= |before| && ExchangeBatch(before[..|after|], after)
      decreases |before| - |after|
    {
      var a := before[|after|];
      var sent: bool, received: bool, equal: bool := *, *, *;
      after := after + [if !a.connected then a
                        else if !sent then a.(failure := SendFailure)
                        else if !received then a.(failure := ReceiveFailure)
                        else if equal then a.(succeeded := true) else a.(failure := PayloadMismatch)];
    }
  }

  method TallyConnects(attempts: seq<Attempt>) returns (connected: nat, failed: nat)
    ensures connected == Total(ConnectedWeight(), attempts) && connected + failed == |attempts|
  {
    connected, failed := 0, 0;
    for i := 0 to |attempts|
      invariant connected == Total(ConnectedWeight(), attempts[..i]) && connected + failed == i
    {
      assert attempts[..i + 1] == attempts[..i] + [attempts[i]];
      TotalAppend(ConnectedWeight(), attempts[..i], attempts[i]);
      if attempts[i].connected { connected := connected + 1; } else { failed := failed + 1; }
    }
    assert attempts[..|attempts|] == attempts;
  }

  function SucceededWeight(): Attempt -> nat { (a: Attempt) => if a.connected && a.succeeded then 1 else 0 }

  function FailedWeight(failure: ProbeFailure): Attempt -> nat {
    (a: Attempt) => if a.connected && !a.succeeded && a.failure == failure then 1 else 0
  }

  /** The switch over the exchange results; what has no recorded cause counts as a receive failure. */
  method TallyExchange(attempts: seq<Attempt>)
    returns (succeeded: nat, connect: nat, send: nat, receive: nat, mismatch: nat)
    ensures succeeded == Total(SucceededWeight(), attempts)
    ensures connect == Total(FailedWeight(ConnectFailure), attempts)
    ensures send == Total(FailedWeight(SendFailure), attempts)
    ensures receive == Total(FailedWeight(ReceiveFailure), attempts) + Total(FailedWeight(NoFailure), attempts)
    ensures mismatch == Total(FailedWeight(PayloadMismatch), attempts)
  {
    succeeded, connect, send, receive, mismatch := 0, 0, 0, 0, 0;
    for i := 0 to |attempts|
      invariant succeeded == Total(SucceededWeight(), attempts[..i])
      invariant connect == Total(FailedWeight(ConnectFailure), attempts[..i])
      invariant send == Total(FailedWeight(SendFailure), attempts[..i])
      invariant receive ==
        Total(FailedWeight(ReceiveFailure), attempts[..i]) + Total(FailedWeight(NoFailure), attempts[..i])
      invariant mismatch == Total(FailedWeight(PayloadMismatch), attempts[..i])
    {
      var attempt := attempts[i];
      assert attempts[..i + 1] == attempts[..i] + [attempt];
      TalliesAppend(attempts[..i], attempt);
      if !attempt.connected { continue; }
      if attempt.succeeded {
        succeeded := succeeded + 1;
        continue;
      }
      match attempt.failure {
        case ConnectFailure => connect := connect + 1;
        case SendFailure => send := send + 1;
        case ReceiveFailure => receive := receive + 1;
        case PayloadMismatch => mismatch := mismatch + 1;
        case NoFailure => receive := receive + 1;
      }
    }
    assert attempts[..|attempts|] == attempts;
  }

  lemma TalliesAppend(attempts: seq<Attempt>, a: Attempt)
    ensures Total(SucceededWeight(), attempts + [a]) == Total(SucceededWeight(), attempts) + SucceededWeight()(a)
    ensures forall f :: Total(FailedWeight(f), attempts + [a]) == Total(FailedWeight(f), attempts) + FailedWeight(f)(a)
  {
    TotalAppend(SucceededWeight(), attempts, a);
    forall f ensures Total(FailedWeight(f), attempts + [a]) == Total(FailedWeight(f), attempts) + FailedWeight(f)(a) {
      TotalAppend(FailedWeight(f), attempts, a);
    }
  }

  /** What both phases together may leave of one attempt. */
  predicate Settled(a: Attempt) {
    if !a.connected then a == FRESH.(failure := ConnectFailure)
    else if a.succeeded then a.failure.NoFailure?
    else a.failure in {SendFailure, ReceiveFailure, PayloadMismatch}
  }

  lemma ExchangeSettles(before: seq<Attempt>, after: seq<Attempt>)
    requires ConnectBatch(before) && ExchangeBatch(before, after)
    ensures Total(ConnectedWeight(), before) == Total(ConnectedWeight(), after)
    ensures forall i :: 0 <= i < |after| ==> Settled(after[i])
  {
    forall i | 0 <= i < |after| ensures before[i].connected == after[i].connected && Settled(after[i]) {
      assert Outcome(Connect, FRESH, before[i]) && Outcome(Exchange, before[i], after[i]);
    }
    TotalSame(ConnectedWeight(), before, ConnectedWeight(), after);
  }

  /** Every attempt is a success or one failure, every connected client a success or a post-connect
      failure. */
  predicate ProbeBalanced(p: HealthyProbe) {
    && p.attempted == p.probeSucceeded + TotalFailures(p)
    && p.clientConnected == p.probeSucceeded + PostConnectFailures(p)
  }

  /** The report counts the attempts made, one counter per way an attempt can end. */
  predicate Records(p: HealthyProbe, history: seq<Attempt>) {
    && (forall i :: 0 <= i < |history| ==> Settled(history[i]))
    && p.attempted == |history| && p.clientConnected == Total(ConnectedWeight(), history)
    && p.connectFailures + p.clientConnected == |history|
    && p.probeSucceeded == Total(SucceededWeight(), history)
    && p.sendFailures == Total(FailedWeight(SendFailure), history)
    && p.receiveFailures == Total(FailedWeight(ReceiveFailure), history)
    && p.payloadMismatches == Total(FailedWeight(PayloadMismatch), history)
  }

  lemma {:induction false} SettledSplit(history: seq<Attempt>)
    requires forall i :: 0 <= i < |history| ==> Settled(history[i])
    ensures Total(ConnectedWeight(), history) ==
              Total(SucceededWeight(), history) + Total(FailedWeight(SendFailure), history)
              + Total(FailedWeight(ReceiveFailure), history) + Total(FailedWeight(PayloadMismatch), history)
    ensures Total(FailedWeight(ConnectFailure), history) == 0 && Total(FailedWeight(NoFailure), history) == 0
  {
    if history != [] {
      assert Settled(history[0]);
      SettledSplit(history[1..]);
    }
  }

  /** A report that counts what happened balances. */
  lemma RecordsBalance(p: HealthyProbe, history: seq<Attempt>)
    requires Records(p, history)
    ensures ProbeBalanced(p)
  {
    SettledSplit(history);
  }

  /** Every counter of a batch is added to the counter of the run. */
  function Plus(p: HealthyProbe, q: HealthyProbe): HealthyProbe {
    p.(attempted := p.attempted + q.attempted, batches := p.batches + 1,
       clientConnected := p.clientConnected + q.clientConnected,
       connectFailures := p.connectFailures + q.connectFailures,
       probeSucceeded := p.probeSucceeded + q.probeSucceeded,
       sendFailures := p.sendFailures + q.sendFailures,
       receiveFailures := p.receiveFailures + q.receiveFailures,
       payloadMismatches := p.payloadMismatches + q.payloadMismatches)
  }

  lemma RecordsAppend(p: HealthyProbe, history: seq<Attempt>, q: HealthyProbe, batch: seq<Attempt>)
    requires Records(p, history) && Records(q, batch)
    ensures Records(Plus(p, q), history + batch)
  {
    TotalConcat(ConnectedWeight(), history, batch);
    TotalConcat(SucceededWeight(), history, batch);
    TotalConcat(FailedWeight(SendFailure), history, batch);
    TotalConcat(FailedWeight(ReceiveFailure), history, batch);
    TotalConcat(FailedWeight(PayloadMismatch), history, batch);
  }

  const NOTHING := HealthyProbe(0, 0, 0, 0, 0, 0, 0, 0, 0, 0)

  /** One batch: both pool phases and the two counting loops; None when a server wait times out. */
  method ProbeBatch(size: nat) returns (result: Option<HealthyProbe>, ghost batch: seq<Attempt>)
    ensures result.Some? ==> |batch| == size && Records(result.value, batch)
  {
    var attempts := PoolConnect(size);
    var connected, failed := TallyConnects(attempts);
    var accepted: bool := *;
    if !accepted { return None, []; }
    var exchanged := PoolExchange(attempts);
    ExchangeSettles(attempts, exchanged);
    SettledSplit(exchanged);
    var succeeded, connect, send, receive, mismatch := TallyExchange(exchanged);
    var closed: bool := *;
    if !closed { return None, []; }
    batch := exchanged;
    result := Some(NOTHING.(
      attempted := size, clientConnected := connected, connectFailures := failed + connect, probeSucceeded := succeeded,
      sendFailures := send, receiveFailures := receive, payloadMismatches := mismatch));
  }

  /** The body of the pacing loop: one batch, added to the report. */
  method AddBatch(p: HealthyProbe, ghost history: seq<Attempt>, size: nat)
    returns (next: Option<HealthyProbe>, ghost after: seq<Attempt>)
    requires Records(p, history)
    ensures next.Some? ==>
              && history <= after && Records(next.value, after)
              && next.value.attempted == p.attempted + size && next.value.batches == p.batches + 1
  {
    var result;
    ghost var batch;
    result, batch := ProbeBatch(size);
    if result.None? { return None, history; }
    RecordsAppend(p, history, result.value, batch);
    next, after := Some(Plus(p, result.value)), history + batch;
  }

  /** What a run of runHealthyProbes that returns normally guarantees. */
  predicate ProbeRun(p: HealthyProbe, perSecond: nat, durationMs: nat, batchSize: nat)
    requires batchSize > 0
  {
    && p.attempted == ExpectedAttempts(perSecond, durationMs)
    && p.batches == CeilDiv(p.attempted, batchSize)
    && ProbeBalanced(p)
  }

  lemma BatchTaken(remaining: nat, size: nat)
    requires size > 0 && remaining > 0
    ensures BatchesFor(remaining, size) == 1 + BatchesFor(remaining - NextBatch(remaining, size), size)
  {
  }

  /** A fresh report. */
  method EmptyReport() returns (p: HealthyProbe, ghost history: seq<Attempt>)
    ensures p.attempted == 0 && p.batches == 0 && Records(p, history)
  {
    p, history := NOTHING, [];
  }

  /** The pacing loop: batches of `batchSize` until `expected` attempts are made. */
  method ProbeInBatches(expected: nat, batchSize: nat)
    returns (returned: bool, p: HealthyProbe, ghost history: seq<Attempt>)
    requires batchSize > 0
    ensures returned ==>
              p.attempted == expected && p.batches == BatchesFor(expected, batchSize) && Records(p, history)
  {
    p, history := EmptyReport();
    while p.attempted < expected
      invariant p.attempted <= expected && Records(p, history)
      invariant p.batches + BatchesFor(expected - p.attempted, batchSize) == BatchesFor(expected, batchSize)
      decreases expected - p.attempted
    {
      var size := NextBatch(expected - p.attempted, batchSize);
      BatchTaken(expected - p.attempted, batchSize);
      var next;
      next, history := AddBatch(p, history, size);
      if next.None? { return false, p, history; }
      p := next.value;
    }
    returned := true;
  }

  /** runHealthyProbes; false when a wait timed out. The server counters are whatever the waits let
      through: at least one accept and one close per connected client. */
  method RunHealthyProbes(perSecond: nat, durationMs: nat, batchSize: nat)
    returns (returned: bool, p: HealthyProbe, ghost history: seq<Attempt>)
    requires batchSize > 0
    ensures returned ==> ProbeRun(p, perSecond, durationMs, batchSize) && Records(p, history)
    ensures returned ==> p.serverAccepted >= p.clientConnected && p.serverClosed >= p.clientConnected
  {
    var expected := ExpectedAttempts(perSecond, durationMs);
    returned, p, history := ProbeInBatches(expected, batchSize);
    if !returned { return; }
    BatchesIsCeiling(expected, batchSize);
    RecordsBalance(p, history);
    var extraAccepts: nat, extraCloses: nat :| true;
    p := p.(serverAccepted := p.clientConnected + extraAccepts, serverClosed := p.clientConnected + extraCloses);
  }

  /** finalizeChecks: healthyProbeAccounted. */
  predicate HealthyProbeAccounted(p: HealthyProbe, perSecond: nat, durationMs: nat, batchSize: nat)
    requires batchSize > 0
  {
    && p.attempted == perSecond * durationMs / 1000
    && p.batches == (perSecond * durationMs / 1000 + batchSize - 1) / batchSize
    && p.attempted == p.probeSucceeded + TotalFailures(p)
    && p.clientConnected == p.probeSucceeded + PostConnectFailures(p)
    && p.serverAccepted == p.clientConnected
  }

  /** The integer clauses of the Python profile validator. */
  predicate ProfileValidatorAccepts(p: HealthyProbe, perSecond: nat, durationMs: nat, batchSize: nat)
    requires batchSize > 0
  {
    var expected := perSecond * durationMs / 1000;
    && expected > 0 && p.attempted == expected
    && p.batches == (expected + batchSize - 1) / batchSize
    && p.attempted == p.probeSucceeded + TotalFailures(p)
    && p.clientConnected == p.probeSucceeded + PostConnectFailures(p)
    && p.serverAccepted == p.clientConnected && p.serverClosed == p.serverAccepted
    && TotalFailures(p) == 0
  }

  /** What both checkers add to the equations every run satisfies by itself. */
  lemma ProbeRunVerdict(p: HealthyProbe, perSecond: nat, durationMs: nat, batchSize: nat)
    requires batchSize > 0 && ProbeRun(p, perSecond, durationMs, batchSize)
    ensures HealthyProbeAccounted(p, perSecond, durationMs, batchSize) <==> p.serverAccepted == p.clientConnected
    ensures ProfileValidatorAccepts(p, perSecond, durationMs, batchSize) <==>
      && p.attempted > 0 && p.probeSucceeded == p.attempted
      && p.serverAccepted == p.attempted && p.serverClosed == p.attempted
  {
  }

  // --- Connection churn ------------------------------------------------------------------------

  /** The accept counts per owner loop after one more accept on `owner`. */
  function Bumped(entries: seq<(nat, nat)>, owner: nat): seq<(nat, nat)> {
    if entries == [] then [(owner, 1)]
    else if entries[0].0 == owner then [(owner, entries[0].1 + 1)] + entries[1..]
    else [entries[0]] + Bumped(entries[1..], owner)
  }

  function CountOf(): ((nat, nat)) -> nat { (e: (nat, nat)) => e.1 }

  lemma {:induction false} BumpedNew(entries: seq<(nat, nat)>, owner: nat)
    requires forall k :: 0 <= k < |entries| ==> entries[k].0 != owner
    ensures Bumped(entries, owner) == entries + [(owner, 1)]
  {
    if entries != [] {
      BumpedNew(entries[1..], owner);
      assert entries + [(owner, 1)] == [entries[0]] + (entries[1..] + [(owner, 1)]);
    }
  }

  lemma {:induction false} BumpedFound(entries: seq<(nat, nat)>, owner: nat, i: nat)
    requires i < |entries| && entries[i].0 == owner && forall k :: 0 <= k < i ==> entries[k].0 != owner
    ensures Bumped(entries, owner) == entries[i := (owner, entries[i].1 + 1)]
  {
    var bumped := (owner, entries[i].1 + 1);
    if i == 0 {
      assert entries[0 := bumped] == [bumped] + entries[1..];
    } else {
      BumpedFound(entries[1..], owner, i - 1);
      assert entries[i := bumped] == [entries[0]] + entries[1..][i - 1 := bumped];
    }
  }

  lemma {:induction false} BumpedTotal(entries: seq<(nat, nat)>, owner: nat)
    ensures Total(CountOf(), Bumped(entries, owner)) == Total(CountOf(), entries) + 1
  {
    if entries != [] && entries[0].0 != owner { BumpedTotal(entries[1..], owner); }
  }

  class SharedState {
    var workerAcceptCounts: seq<(nat, nat)>
    var connected: nat
    var disconnected: nat

    ghost predicate Valid()
      reads this
    {
      connected == Total(CountOf(), workerAcceptCounts)
    }

    constructor ()
      ensures Valid() && connected == 0 && disconnected == 0 && workerAcceptCounts == []
    {
      workerAcceptCounts, connected, disconnected := [], 0, 0;
    }

    method MarkConnected(owner: nat)
      requires Valid()
      modifies this`workerAcceptCounts, this`connected
      ensures Valid() && connected == old(connected) + 1
      ensures workerAcceptCounts == Bumped(old(workerAcceptCounts), owner)
    {
      BumpedTotal(workerAcceptCounts, owner);
      connected := connected + 1;
      var i := 0;
      while i < |workerAcceptCounts| && workerAcceptCounts[i].0 != owner
        invariant i <= |workerAcceptCounts| && forall k :: 0 <= k < i ==> workerAcceptCounts[k].0 != owner
      {
        i := i + 1;
      }
      if i == |workerAcceptCounts| {
        BumpedNew(workerAcceptCounts, owner);
        workerAcceptCounts := workerAcceptCounts + [(owner, 1)];
      } else {
        BumpedFound(workerAcceptCounts, owner, i);
        workerAcceptCounts := workerAcceptCounts[i := (owner, workerAcceptCounts[i].1 + 1)];
      }
    }
  }

  function Itself(): nat -> nat { (x: nat) => x }
  function AsKey(): nat -> real { (x: nat) => x as real }

  predicate Ascending(s: seq<nat>) { forall i, j :: 0 <= i < j < |s| ==> s[i] <= s[j] }

  lemma SortAscends(s: seq<nat>)
    ensures var sorted := Sort(AsKey(), s);
      Ascending(sorted) && |sorted| == |s| && Total(Itself(), sorted) == Total(Itself(), s)
  {
    SortSorts(AsKey(), s);
    TotalOfSort(Itself(), AsKey(), s);
    var sorted := Sort(AsKey(), s);
    forall i, j | 0 <= i < j < |sorted| ensures sorted[i] <= sorted[j] {
      assert AsKey()(sorted[i]) <= AsKey()(sorted[j]);
    }
  }

  function OwnerCounts(entries: seq<(nat, nat)>): seq<nat> {
    seq(|entries|, i requires 0 <= i < |entries| => entries[i].1)
  }

  function Zeros(n: nat): seq<nat> { seq(n, _ => 0) }

  /** The counts of all owner loops, padded with zeros for loops that accepted nothing, sorted. */
  function ReportedCounts(entries: seq<(nat, nat)>, workers: nat): seq<nat>
    requires |entries| <= workers
  {
    Sort(AsKey(), Sort(AsKey(), OwnerCounts(entries)) + Zeros(workers - |entries|))
  }

  lemma {:induction false} TotalOfCounts(entries: seq<(nat, nat)>, counts: seq<nat>)
    requires |counts| == |entries| && forall i :: 0 <= i < |entries| ==> counts[i] == entries[i].1
    ensures Total(Itself(), counts) == Total(CountOf(), entries)
  {
    if entries != [] { TotalOfCounts(entries[1..], counts[1..]); }
  }

  /** The reported list is the owners' counts and one zero for every other loop, in ascending order. */
  lemma ReportedCountsAddUp(entries: seq<(nat, nat)>, workers: nat)
    requires |entries| <= workers
    ensures var counts := ReportedCounts(entries, workers);
      && Ascending(counts) && |counts| == workers && Total(Itself(), counts) == Total(CountOf(), entries)
      && multiset(counts) == multiset(OwnerCounts(entries)) + multiset(Zeros(workers - |entries|))
  {
    var raw, zeros := OwnerCounts(entries), Zeros(workers - |entries|);
    TotalOfCounts(entries, raw);
    SortAscends(raw);
    TotalUniform(Itself(), zeros, 0);
    TotalConcat(Itself(), Sort(AsKey(), raw), zeros);
    SortAscends(Sort(AsKey(), raw) + zeros);
    SortPermutes(AsKey(), raw);
    SortPermutes(AsKey(), Sort(AsKey(), raw) + zeros);
  }

  datatype Churn = Churn(attempted: nat, accepted: nat, connectFailures: nat, closed: nat, batches: nat,
                         workerAcceptCounts: seq<nat>)

  /** The integer clauses of the Python churn validator. */
  predicate ChurnValidatorAccepts(c: Churn, perSecond: nat, durationMs: nat, connections: nat, threads: nat)
    requires connections > 0
  {
    var expected := perSecond * durationMs / 1000;
    && expected > 0 && c.attempted == expected
    && c.batches == (expected + connections - 1) / connections
    && c.attempted == c.accepted + c.connectFailures
    && c.accepted == c.closed && c.accepted > 0
    && |c.workerAcceptCounts| == (if threads > 1 then threads else 1)
    && Ascending(c.workerAcceptCounts) && Total(Itself(), c.workerAcceptCounts) == c.accepted
  }

  /** One reported connect per client of the batch, on any owner loops. */
  method ReportConnects(state: SharedState, clients: nat)
    requires state.Valid()
    modifies state
    ensures state.Valid() && state.connected == old(state.connected) + clients
    ensures state.disconnected == old(state.disconnected)
  {
    for k := 0 to clients
      invariant state.Valid() && state.connected == old(state.connected) + k
      invariant state.disconnected == old(state.disconnected)
    {
      var owner: nat := *;
      state.MarkConnected(owner);
    }
  }

  /** The churn loop: batches of `connections` until `expected` connects were attempted. */
  method ChurnInBatches(expected: nat, connections: nat, state: SharedState) returns (returned: bool, c: Churn)
    requires connections > 0 && state.Valid() && state.connected == state.disconnected == 0
    modifies state
    ensures returned ==>
              && state.Valid() && state.connected == state.disconnected == c.accepted
              && c.attempted == expected == c.accepted + c.connectFailures
              && c.batches == BatchesFor(expected, connections)
  {
    c := Churn(0, 0, 0, 0, 0, []);
    while c.attempted < expected
      invariant state.Valid() && c.attempted <= expected
      invariant c.attempted == c.accepted + c.connectFailures
      invariant state.connected == state.disconnected == c.accepted
      invariant c.batches + BatchesFor(expected - c.attempted, connections) == BatchesFor(expected, connections)
      decreases expected - c.attempted
    {
      var batch := NextBatch(expected - c.attempted, connections);
      BatchTaken(expected - c.attempted, connections);
      var attempts := PoolConnect(batch);
      var clients, failures := TallyConnects(attempts);
      c := c.(attempted := c.attempted + batch, connectFailures := c.connectFailures + failures,
              accepted := c.accepted + clients, batches := c.batches + 1);
      ReportConnects(state, clients);
      var inTime: bool := *;
      if !inTime { return false, c; }
      state.disconnected := state.disconnected + clients;
    }
    returned := true;
  }

  /** runConnectionChurn against a server that reports every successful client exactly once, on any
      owner loop; false when a wait timed out or more loops reported than are configured. A run that
      returns is accepted exactly if it attempted and accepted anything at all. */
  method RunConnectionChurn(perSecond: nat, durationMs: nat, connections: nat, threads: nat)
    returns (returned: bool, c: Churn)
    requires connections > 0
    ensures returned ==>
              && c.attempted == ExpectedAttempts(perSecond, durationMs)
              && c.batches == CeilDiv(c.attempted, connections)
              && c.attempted == c.accepted + c.connectFailures && c.accepted == c.closed
              && (ChurnValidatorAccepts(c, perSecond, durationMs, connections, threads) <==> c.accepted > 0)
  {
    var expected := ExpectedAttempts(perSecond, durationMs);
    var state := new SharedState();
    returned, c := ChurnInBatches(expected, connections, state);
    if !returned { return; }
    BatchesIsCeiling(expected, connections);
    var workers := if threads > 1 then threads else 1;
    if |state.workerAcceptCounts| > workers { return false, c; }
    ReportedCountsAddUp(state.workerAcceptCounts, workers);
    c := c.(accepted := state.connected, closed := state.disconnected,
            workerAcceptCounts := ReportedCounts(state.workerAcceptCounts, workers));
  }
}
