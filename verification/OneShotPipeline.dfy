/**
 The io_uring one-shot benchmark: a window of Send operations, each followed by one Receive, driven
 by terminal notices that the engine delivers in any order.
 */
module OneShotPipeline {
  import opened Totals
  import opened UringEngine

  const WORD: nat := 0x1_0000_0000

  /** The generation in the high 32 bits, the slot in the low 32 bits. */
  function IdentityKey(id: Identity): nat { id.generation * WORD + id.slot }

  function KeySlot(key: nat): nat { key % WORD }
  function KeyGeneration(key: nat): nat { key / WORD }

  /** On 32-bit slots the key loses nothing. */
  lemma KeyRoundTrips(id: Identity)
    requires id.slot < WORD
    ensures KeySlot(IdentityKey(id)) == id.slot && KeyGeneration(IdentityKey(id)) == id.generation
  {
  }

  /** Distinct identities on 32-bit slots have distinct keys. */
  lemma KeyIsInjective(a: Identity, b: Identity)
    requires a.slot < WORD && b.slot < WORD
    ensures IdentityKey(a) == IdentityKey(b) <==> a == b
  {
    KeyRoundTrips(a);
    KeyRoundTrips(b);
  }

  datatype PendingOperation = PendingOperation(startedAt: nat, kind: OperationKind)

  datatype Reason =
    | DidNotConverge | UnexpectedIdentity | OperationFailed | SubmissionRejected
    | PendingNotEmpty | AccountingMismatch | PeerFailed

  datatype Outcome = Converged | Failed(reason: Reason)

  /** What the environment alone can cause: a deadline, a failed or short operation, a broken peer. */
  predicate External(reason: Reason) { reason in {DidNotConverge, OperationFailed, PeerFailed} }

  function ReceiveKeys(pending: map<nat, PendingOperation>): set<nat> {
    set key | key in pending && pending[key].kind.Receive?
  }

  // --- The pending map against the engine's slots ----------------------------------------------

  predicate Busy(slot: OpSlot) { slot.active || slot.noticePending }

  predicate SlotMirrored(slots: seq<OpSlot>, pending: map<nat, PendingOperation>, k: nat)
    requires k < |slots|
  {
    Busy(slots[k]) ==>
      var key := IdentityKey(Identity(k, slots[k].generation));
      key in pending && pending[key].kind == slots[k].kind
  }

  predicate EntryMirrored(slots: seq<OpSlot>, key: nat) {
    && KeySlot(key) < |slots| && Busy(slots[KeySlot(key)])
    && slots[KeySlot(key)].generation == KeyGeneration(key)
  }

  /** Exactly one entry per busy slot, filed under the slot's current identity, with its kind. */
  ghost predicate Mirror(slots: seq<OpSlot>, pending: map<nat, PendingOperation>) {
    && (forall k {:trigger SlotMirrored(slots, pending, k)} :: 0 <= k < |slots| ==> SlotMirrored(slots, pending, k))
    && (forall key {:trigger EntryMirrored(slots, key)} :: key in pending ==> EntryMirrored(slots, key))
  }

  lemma MirrorInsert(slots: seq<OpSlot>, pending: map<nat, PendingOperation>, id: Identity, slot: OpSlot,
                     operation: PendingOperation)
    requires Mirror(slots, pending) && |slots| < WORD && id.slot < |slots| && !Busy(slots[id.slot])
    requires Busy(slot) && slot.generation == id.generation && slot.kind == operation.kind
    ensures IdentityKey(id) !in pending
    ensures Mirror(slots[id.slot := slot], pending[IdentityKey(id) := operation])
  {
    var key := IdentityKey(id);
    KeyRoundTrips(id);
    assert !EntryMirrored(slots, key);
    var slots', pending' := slots[id.slot := slot], pending[key := operation];
    forall k | 0 <= k < |slots'| ensures SlotMirrored(slots', pending', k) {
      assert SlotMirrored(slots, pending, k);
      KeyRoundTrips(Identity(k, slots[k].generation));
    }
    forall e | e in pending' ensures EntryMirrored(slots', e) {
      if e != key { assert EntryMirrored(slots, e); }
    }
  }

  lemma MirrorErase(slots: seq<OpSlot>, pending: map<nat, PendingOperation>, id: Identity, slot: OpSlot)
    requires Mirror(slots, pending) && |slots| < WORD && id.slot < |slots|
    requires Busy(slots[id.slot]) && slots[id.slot].generation == id.generation && !Busy(slot)
    ensures IdentityKey(id) in pending && pending[IdentityKey(id)].kind == slots[id.slot].kind
    ensures Mirror(slots[id.slot := slot], pending - {IdentityKey(id)})
  {
    var key := IdentityKey(id);
    KeyRoundTrips(id);
    assert SlotMirrored(slots, pending, id.slot);
    var slots', pending' := slots[id.slot := slot], pending - {key};
    forall k | 0 <= k < |slots'| ensures SlotMirrored(slots', pending', k) {
      assert SlotMirrored(slots, pending, k);
      KeyRoundTrips(Identity(k, slots[k].generation));
    }
    forall e | e in pending' ensures EntryMirrored(slots', e) {
      assert EntryMirrored(slots, e);
      assert e == KeyGeneration(e) * WORD + KeySlot(e);
    }
  }

  lemma MirrorStable(slots: seq<OpSlot>, slots': seq<OpSlot>, pending: map<nat, PendingOperation>)
    requires Mirror(slots, pending) && |slots| == |slots'|
    requires forall k :: 0 <= k < |slots| ==>
      && Busy(slots'[k]) == Busy(slots[k])
      && slots'[k].generation == slots[k].generation && slots'[k].kind == slots[k].kind
    ensures Mirror(slots', pending)
  {
    forall k | 0 <= k < |slots'| ensures SlotMirrored(slots', pending, k) {
      assert SlotMirrored(slots, pending, k);
    }
    forall e | e in pending ensures EntryMirrored(slots', e) { assert EntryMirrored(slots, e); }
  }

  lemma ReceivesInsert(pending: map<nat, PendingOperation>, key: nat, operation: PendingOperation)
    requires key !in pending
    ensures |pending[key := operation]| == |pending| + 1
    ensures |ReceiveKeys(pending[key := operation])|
         == |ReceiveKeys(pending)| + (if operation.kind.Receive? then 1 else 0)
  {
    assert ReceiveKeys(pending[key := operation])
        == ReceiveKeys(pending) + (if operation.kind.Receive? then {key} else {});
  }

  lemma ReceivesErase(pending: map<nat, PendingOperation>, key: nat)
    requires key in pending
    ensures |pending - {key}| == |pending| - 1
    ensures |ReceiveKeys(pending - {key})| == |ReceiveKeys(pending)| - (if pending[key].kind.Receive? then 1 else 0)
  {
    assert ReceiveKeys(pending - {key}) == ReceiveKeys(pending) - {key};
    assert (pending - {key}).Keys == pending.Keys - {key};
  }

  lemma ReceivesBounded(pending: map<nat, PendingOperation>)
    ensures |ReceiveKeys(pending)| <= |pending|
  {
    SubsetSize(ReceiveKeys(pending), pending.Keys);
  }

  lemma {:induction false} SubsetSize(a: set<nat>, b: set<nat>)
    requires a <= b
    ensures |a| <= |b|
  {
    if x :| x in a {
      SubsetSize(a - {x}, b - {x});
    }
  }

  ghost predicate Inserts(before: map<nat, PendingOperation>, after: map<nat, PendingOperation>,
                          operation: PendingOperation) {
    exists key: nat {:trigger before[key := operation]} :: key !in before && after == before[key := operation]
  }

  ghost predicate Removes(before: map<nat, PendingOperation>, after: map<nat, PendingOperation>,
                          operation: PendingOperation) {
    exists key: nat {:trigger before - {key}} :: key in before && before[key] == operation && after == before - {key}
  }

  /** No operation started in the future and no latency is negative. */
  predicate Timely(pending: map<nat, PendingOperation>, latencyUs: seq<int>, now: nat) {
    && (forall key {:trigger pending[key]} :: key in pending ==> pending[key].startedAt <= now)
    && (forall i :: 0 <= i < |latencyUs| ==> latencyUs[i] >= 0)
  }

  lemma TimelyInserted(before: map<nat, PendingOperation>, after: map<nat, PendingOperation>,
                       operation: PendingOperation, latencyUs: seq<int>, now: nat)
    requires Timely(before, latencyUs, now) && Inserts(before, after, operation) && operation.startedAt <= now
    ensures Timely(after, latencyUs, now)
  {
    forall key | key in after ensures after[key].startedAt <= now {
      if key in before && after[key] == before[key] { assert before[key].startedAt <= now; }
    }
  }

  lemma TimelyLater(pending: map<nat, PendingOperation>, latencyUs: seq<int>, now: nat, later: nat)
    requires Timely(pending, latencyUs, now) && now <= later
    ensures Timely(pending, latencyUs, later)
  {
  }

  lemma TimelyRemoved(before: map<nat, PendingOperation>, after: map<nat, PendingOperation>,
                      operation: PendingOperation, latencyUs: seq<int>, now: nat)
    requires Timely(before, latencyUs, now) && Removes(before, after, operation)
    ensures Timely(after, latencyUs, now) && operation.startedAt <= now
  {
    forall key | key in after ensures after[key].startedAt <= now { assert before[key].startedAt <= now; }
  }

  // --- Byte budget -----------------------------------------------------------------------------

  /** count * bytes, by repeated addition. */
  function Bytes(bytes: nat, count: nat): nat { if count == 0 then 0 else bytes + Bytes(bytes, count - 1) }

  lemma {:induction false} BytesIsProduct(bytes: nat, count: nat)
    ensures Bytes(bytes, count) == count * bytes
  {
    if count > 0 { BytesIsProduct(bytes, count - 1); }
  }

  lemma BytesStep(bytes: nat, count: nat)
    requires count > 0
    ensures Bytes(bytes, count) - bytes == Bytes(bytes, count - 1)
  {
  }

  lemma {:induction false} BytesMonotone(bytes: nat, a: nat, b: nat)
    requires a <= b
    ensures Bytes(bytes, a) <= Bytes(bytes, b)
    decreases b
  {
    if a < b { BytesMonotone(bytes, a, b - 1); }
  }

  predicate AllSubmitted(slots: seq<OpSlot>) {
    forall k :: 0 <= k < |slots| && slots[k].active ==> slots[k].submitted
  }

  /** Every operation in flight and every untaken notice reserves one payload. */
  predicate Uniform(slots: seq<OpSlot>, ready: seq<Notice>, bytes: nat) {
    && (forall k :: 0 <= k < |slots| && slots[k].active ==> slots[k].reserved == bytes)
    && (forall i :: 0 <= i < |ready| ==> ready[i].reserved == bytes)
  }

  class Pipeline {
    const roundTrips: nat
    const payloadBytes: nat
    const depth: nat
    const engine: Engine

    var pending: map<nat, PendingOperation>
    var latencyUs: seq<int>
    var scheduled: nat
    var completed: nat
    ghost var receives: nat   // Receive operations submitted
    ghost var notices: nat    // terminal notices taken

    ghost predicate Configured()
      reads engine
    {
      && 1 <= depth <= roundTrips && 1 <= payloadBytes && depth < WORD
      && engine.maxOperations == depth <= engine.sqEntries
      && engine.maxBytesPerOperation == payloadBytes && engine.maxOwnedBytes == Bytes(payloadBytes, depth)
      && Uniform(engine.slots, engine.ready, payloadBytes)
    }

    ghost predicate Mirrors()
      reads this`pending, engine
    {
      && engine.Valid() && Configured()
      && Mirror(engine.slots, pending)
      && |pending| == engine.activeOperations + |engine.ready| <= depth
      && engine.ownedBytes == Bytes(payloadBytes, |pending|)
    }

    /** Conservation: every accepted Send is matched by at most one Receive, nothing is dropped. */
    ghost predicate Valid()
      reads this, engine
    {
      && Mirrors()
      && completed <= receives <= scheduled <= roundTrips
      && |pending| == scheduled - completed
      && |ReceiveKeys(pending)| == receives - completed
      && |latencyUs| == completed
      && notices == receives + completed
      && engine.operationsAccepted == scheduled + receives
      && engine.terminalNotices == notices + |engine.ready|
    }

    constructor (roundTrips: nat, payloadBytes: nat, depth: nat, sqEntries: nat)
      requires 1 <= roundTrips && 1 <= payloadBytes && 1 <= depth <= roundTrips && depth < WORD
      requires depth <= sqEntries
      ensures Valid() && fresh(engine) && scheduled == 0 && completed == 0
      ensures this.roundTrips == roundTrips && this.payloadBytes == payloadBytes && this.depth == depth
    {
      this.roundTrips, this.payloadBytes, this.depth := roundTrips, payloadBytes, depth;
      pending, latencyUs, scheduled, completed, receives, notices := map[], [], 0, 0, 0, 0;
      engine := new Engine(depth, payloadBytes, depth * payloadBytes, sqEntries);
      new;
      BytesIsProduct(payloadBytes, depth);
      assert ReceiveKeys(pending) == {};
    }

    /** Room in the window means room in every engine budget. */
    lemma PendingFits()
      requires Mirrors() && |pending| < depth
      ensures engine.pendingSubmissions < engine.sqEntries
      ensures engine.ownedBytes + payloadBytes == Bytes(payloadBytes, |pending| + 1) <= engine.maxOwnedBytes
    {
      TotalWithin(UnsubmittedWeight(), engine.slots, ActiveWeight(), engine.slots, 0);
      BytesMonotone(payloadBytes, |pending| + 1, depth);
    }

    /** Submit one operation and record it; the engine cannot reject it while the window has room. */
    method Submit(kind: OperationKind, startedAt: nat) returns (accepted: bool)
      requires Mirrors() && |pending| < depth
      modifies this`pending, engine
      ensures Mirrors() && accepted
      ensures |pending| == old(|pending|) + 1 && Inserts(old(pending), pending, PendingOperation(startedAt, kind))
      ensures |ReceiveKeys(pending)| == old(|ReceiveKeys(pending)|) + (if kind.Receive? then 1 else 0)
      ensures engine.ready == old(engine.ready)
      ensures engine.operationsAccepted == old(engine.operationsAccepted) + 1
      ensures engine.terminalNotices == old(engine.terminalNotices)
    {
      PendingFits();
      ghost var slots := engine.slots;
      var outcome := engine.Enqueue(kind, payloadBytes);
      if outcome.Rejected? { return false; }
      var key := IdentityKey(outcome.identity);
      var operation := PendingOperation(startedAt, kind);
      MirrorInsert(slots, pending, outcome.identity, engine.slots[outcome.identity.slot], operation);
      ReceivesInsert(pending, key, operation);
      if key !in pending { pending := pending[key := operation]; }
      accepted := true;
    }

    /** A notice of `kind` was taken and erased, its successor not submitted yet. */
    ghost predicate Owes(kind: OperationKind)
      reads this, engine
    {
      && Mirrors() && |pending| < depth
      && completed <= receives <= scheduled <= roundTrips
      && |pending| == scheduled - completed - 1
      && |ReceiveKeys(pending)| == receives - completed - (if kind.Receive? then 1 else 0)
      && |latencyUs| == completed
      && notices == receives + completed + 1
      && engine.operationsAccepted == scheduled + receives
      && engine.terminalNotices == notices + |engine.ready|
    }

    /** A notice for `key` was taken; its entry is the only one without a busy slot. */
    ghost predicate Taken(key: nat)
      reads this`pending, engine
    {
      && engine.Valid() && Configured()
      && key in pending && Mirror(engine.slots, pending - {key})
      && |pending| == engine.activeOperations + |engine.ready| + 1 <= depth
      && engine.ownedBytes == Bytes(payloadBytes, |pending| - 1)
    }

    /** The front notice names an entry of the pending map, of its own kind. */
    method PopNotice() returns (notice: Notice)
      requires Mirrors() && engine.ready != []
      modifies engine
      ensures Taken(IdentityKey(notice.identity)) && pending[IdentityKey(notice.identity)].kind == notice.kind
      ensures engine.ready == old(engine.ready[1..])
      ensures engine.operationsAccepted == old(engine.operationsAccepted)
      ensures engine.terminalNotices == old(engine.terminalNotices)
    {
      ghost var slots, ready := engine.slots, engine.ready;
      assert ready[0].reserved == payloadBytes;
      BytesStep(payloadBytes, |pending|);
      var taken := engine.TakeNextNotice();
      notice := taken.notice;
      assert SlotSound(slots[notice.identity.slot]);
      assert Uniform(engine.slots, engine.ready, payloadBytes);
      MirrorErase(slots, pending, notice.identity, engine.slots[notice.identity.slot]);
    }

    method Erase(key: nat)
      requires Taken(key)
      modifies this`pending
      ensures Mirrors() && pending == old(pending) - {key} && |pending| == old(|pending|) - 1
      ensures |ReceiveKeys(pending)| == old(|ReceiveKeys(pending)|) - (if old(pending[key]).kind.Receive? then 1 else 0)
    {
      ReceivesErase(pending, key);
      pending := pending - {key};
    }

    /** Take one notice, look it up and erase its entry, as the head of the notice loop does. */
    method TakeEntry() returns (outcome: Outcome, operation: PendingOperation)
      requires Valid() && engine.ready != []
      modifies this`pending, this`notices, engine
      ensures outcome.Failed? ==> outcome.reason == OperationFailed
      ensures outcome.Converged? ==> Owes(operation.kind) && engine.ready == old(engine.ready[1..])
      ensures outcome.Converged? ==> |pending| == old(|pending|) - 1 && notices == old(notices) + 1
      ensures outcome.Converged? ==> Removes(old(pending), pending, operation)
    {
      var notice := PopNotice();
      var key := IdentityKey(notice.identity);
      operation := PendingOperation(0, notice.kind);
      if key !in pending || pending[key].kind != notice.kind { return Failed(UnexpectedIdentity), operation; }
      if !notice.succeeded || notice.transferred != payloadBytes { return Failed(OperationFailed), operation; }
      operation := pending[key];
      Erase(key);
      notices := notices + 1;
      outcome := Converged;
    }

    method EnqueueSend(startedAt: nat) returns (outcome: Outcome)
      requires Valid() && |pending| < depth && scheduled < roundTrips
      modifies this`pending, this`scheduled, engine
      ensures Valid() && outcome.Converged? && scheduled == old(scheduled) + 1 && |pending| == old(|pending|) + 1
      ensures engine.ready == old(engine.ready) && Inserts(old(pending), pending, PendingOperation(startedAt, Send))
    {
      var accepted := Submit(Send, startedAt);
      if !accepted { return Failed(SubmissionRejected); }
      scheduled := scheduled + 1;
      outcome := Converged;
    }

    method StartReceive(startedAt: nat) returns (outcome: Outcome)
      requires Owes(Send)
      modifies this`pending, this`receives, engine
      ensures outcome.Converged? && Valid() && engine.ready == old(engine.ready) && |pending| == old(|pending|) + 1
      ensures Inserts(old(pending), pending, PendingOperation(startedAt, Receive))
    {
      ReceivesBounded(pending);
      var accepted := Submit(Receive, startedAt);
      if !accepted { return Failed(SubmissionRejected); }
      receives := receives + 1;
      outcome := Converged;
    }

    method CloseRoundTrip(startedAt: nat, now: nat) returns (outcome: Outcome)
      requires Owes(Receive)
      modifies this`pending, this`completed, this`latencyUs, this`scheduled, engine
      ensures outcome.Converged? && Valid() && engine.ready == old(engine.ready)
      ensures completed == old(completed) + 1 && latencyUs == old(latencyUs) + [now - startedAt]
      ensures if old(scheduled) < roundTrips
              then |pending| == old(|pending|) + 1 && Inserts(old(pending), pending, PendingOperation(now, Send))
              else pending == old(pending) && scheduled == roundTrips
    {
      latencyUs := latencyUs + [now - startedAt];
      completed := completed + 1;
      if scheduled < roundTrips {
        outcome := EnqueueSend(now);
      } else {
        outcome := Converged;
      }
    }

    /** What a taken notice leads to: a Send starts its Receive, a Receive closes a round trip. */
    method Answer(operation: PendingOperation, now: nat) returns (outcome: Outcome)
      requires Owes(operation.kind) && Timely(pending, latencyUs, now) && operation.startedAt <= now
      requires |pending| + 1 == depth || scheduled == roundTrips
      modifies this`pending, this`receives, this`completed, this`latencyUs, this`scheduled, engine
      ensures outcome.Converged? && Valid() && WindowFull() && Timely(pending, latencyUs, now)
      ensures engine.ready == old(engine.ready)
    {
      ghost var rest := pending;
      if operation.kind.Send? {
        outcome := StartReceive(operation.startedAt);
        TimelyInserted(rest, pending, PendingOperation(operation.startedAt, Receive), latencyUs, now);
      } else {
        ghost var refill := scheduled < roundTrips;
        outcome := CloseRoundTrip(operation.startedAt, now);
        if refill { TimelyInserted(rest, pending, PendingOperation(now, Send), latencyUs, now); }
      }
    }

    /** The body of the notice loop. */
    method HandleNotice(now: nat) returns (outcome: Outcome)
      requires Valid() && WindowFull() && engine.ready != [] && Timely(pending, latencyUs, now)
      modifies this, engine
      ensures outcome.Failed? ==> External(outcome.reason)
      ensures outcome.Converged? ==>
                && Valid() && WindowFull() && Timely(pending, latencyUs, now)
                && notices == old(notices) + 1 && engine.ready == old(engine.ready[1..])
    {
      ghost var before := pending;
      var taken, operation := TakeEntry();
      if taken.Failed? { return taken; }
      TimelyRemoved(before, pending, operation, latencyUs, now);
      outcome := Answer(operation, now);
    }

    /** Take notices until none is ready. */
    method Drain(start: nat) returns (outcome: Outcome, now: nat)
      requires Valid() && WindowFull() && Timely(pending, latencyUs, start)
      modifies this, engine
      ensures outcome.Failed? ==> External(outcome.reason)
      ensures outcome.Converged? ==> Valid() && WindowFull() && now >= start && Timely(pending, latencyUs, now)
      ensures outcome.Converged? ==> notices == old(notices) + old(|engine.ready|) && engine.ready == []
    {
      now := start;
      while engine.ready != []
        invariant Valid() && WindowFull() && now >= start && Timely(pending, latencyUs, now)
        invariant notices + |engine.ready| == old(notices) + old(|engine.ready|)
        decreases |engine.ready|
      {
        var later: nat :| later >= now;
        TimelyLater(pending, latencyUs, now, later);
        now := later;
        outcome := HandleNotice(now);
        if outcome.Failed? { return; }
      }
      outcome := Converged;
    }

    /** Fill the window before the first wait. */
    method Fill() returns (outcome: Outcome, now: nat)
      requires Valid() && scheduled == 0 && completed == 0
      modifies this`pending, this`scheduled, engine
      ensures outcome.Converged? && Valid() && scheduled == depth && WindowFull() && Timely(pending, latencyUs, now)
    {
      now, outcome := 0, Converged;
      for index := 0 to depth
        invariant Valid() && scheduled == index && completed == 0 && outcome.Converged?
        invariant Timely(pending, latencyUs, now)
      {
        var later: nat :| later >= now;
        TimelyLater(pending, latencyUs, now, later);
        now := later;
        ghost var before := pending;
        outcome := EnqueueSend(now);
        TimelyInserted(before, pending, PendingOperation(now, Send), latencyUs, now);
      }
    }

    /** Until every round trip is scheduled the window is full. */
    ghost predicate WindowFull()
      reads this
    {
      |pending| == depth || scheduled == roundTrips
    }

    /** The kernel completes some active operation, with some result. */
    method CompleteOne()
      requires Valid() && AllSubmitted(engine.slots) && engine.activeOperations > 0
      modifies engine
      ensures Valid() && AllSubmitted(engine.slots) && engine.activeOperations == old(engine.activeOperations) - 1
    {
      if forall k :: 0 <= k < |engine.slots| ==> !engine.slots[k].active {
        TotalUniform(ActiveWeight(), engine.slots, 0);
      }
      var k: nat :| k < |engine.slots| && engine.slots[k].active;
      var succeeded: bool, transferred: nat := *, *;
      ghost var slots := engine.slots;
      engine.PublishTerminal(k, succeeded, transferred);
      MirrorStable(slots, engine.slots, pending);
    }

    /** engine.wait: submit everything, then any submitted operations complete, in any order. A wait that
        ends without a notice has run into its timeout. */
    method Wait(start: nat) returns (now: nat)
      requires Valid() && Timely(pending, latencyUs, start)
      modifies engine
      ensures Valid() && Timely(pending, latencyUs, now)
      ensures now >= start && (engine.ready == [] ==> now > start)
    {
      ghost var slots := engine.slots;
      engine.Flush();
      MirrorStable(slots, engine.slots, pending);
      var more: bool := *;
      while more && engine.activeOperations > 0
        invariant Valid()
        invariant AllSubmitted(engine.slots)
        decreases engine.activeOperations
      {
        CompleteOne();
        more := *;
      }
      var elapsed: nat :| elapsed >= 1;
      now := if engine.ready == [] then start + elapsed else start + elapsed - 1;
      TimelyLater(pending, latencyUs, start, now);
    }

    /** An unfinished run with no notice to take has an operation under way. */
    lemma SomethingIsUnderWay()
      requires Valid() && WindowFull() && completed < roundTrips && engine.ready == []
      ensures engine.activeOperations > 0
    {
    }

    /** One pass of the outer loop: `delivered` notices are taken, and the clock advances if there are none. */
    method Pass(start: nat, deadline: nat) returns (outcome: Outcome, now: nat, ghost delivered: nat)
      requires Valid() && WindowFull() && Timely(pending, latencyUs, start)
      modifies this, engine
      ensures outcome.Failed? ==> External(outcome.reason)
      ensures outcome.Converged? ==> Valid() && WindowFull() && Timely(pending, latencyUs, now)
      ensures outcome.Converged? ==> notices == old(notices) + delivered && start <= now && start < deadline
      ensures outcome.Converged? && delivered == 0 ==> start < now
    {
      var guard: nat :| guard >= start;
      TimelyLater(pending, latencyUs, start, guard);
      now, delivered := guard, 0;
      var peerFailed: bool := *;
      if now >= deadline || peerFailed { outcome := Failed(DidNotConverge); return; }
      now := Wait(now);
      delivered := |engine.ready|;
      outcome, now := Drain(now);
    }

    /** The whole benchmark loop, for every order and result of completions. `passes` counts the passes of
        the outer loop and `idle` those whose wait delivered nothing; such a wait has timed out, so the
        clock has advanced. */
    method Run(deadline: nat) returns (outcome: Outcome, ghost passes: nat, ghost idle: nat)
      requires Valid() && scheduled == 0 && completed == 0
      modifies this, engine
      ensures outcome.Failed? ==> External(outcome.reason)
      ensures outcome.Converged? ==>
                && completed == scheduled == |latencyUs| == roundTrips && pending == map[]
                && (forall i :: 0 <= i < |latencyUs| ==> latencyUs[i] >= 0)
                && notices == 2 * roundTrips
                && engine.operationsAccepted == engine.terminalNotices == 2 * roundTrips
                && engine.activeOperations == 0 && engine.ready == [] && engine.ownedBytes == 0
      ensures passes <= 2 * roundTrips + idle
    {
      passes, idle := 0, 0;
      var now: nat;
      outcome, now := Fill();
      if outcome.Failed? { return; }
      while completed < roundTrips
        invariant Valid() && WindowFull() && Timely(pending, latencyUs, now)
        invariant passes <= notices + idle
        decreases 2 * roundTrips - notices, deadline - now
      {
        ghost var delivered;
        outcome, now, delivered := Pass(now, deadline);
        if outcome.Failed? { return; }
        passes, idle := passes + 1, if delivered == 0 then idle + 1 else idle;
      }
      if pending != map[] { outcome := Failed(PendingNotEmpty); return; }
      var peerBroken: bool := *;
      if peerBroken { outcome := Failed(PeerFailed); return; }
      if engine.operationsAccepted != 2 * roundTrips || engine.terminalNotices != 2 * roundTrips
         || engine.activeOperations != 0 || engine.ready != [] || engine.ownedBytes != 0 {
        outcome := Failed(AccountingMismatch);
        return;
      }
      outcome := Converged;
    }
  }

  /** parseConfig's depth clamp followed by the run: only the environment can make it fail. */
  method Benchmark(roundTrips: nat, payloadBytes: nat, depth: nat, sqEntries: nat, deadline: nat)
    returns (outcome: Outcome, latencyUs: seq<int>, accepted: nat)
    requires 1 <= roundTrips <= 10000000 && 1 <= payloadBytes <= 65536 && 1 <= depth <= 1024
    requires depth <= sqEntries
    ensures outcome.Failed? ==> External(outcome.reason)
    ensures outcome.Converged? ==> |latencyUs| == roundTrips && accepted == 2 * roundTrips
    ensures outcome.Converged? ==> forall i :: 0 <= i < |latencyUs| ==> latencyUs[i] >= 0
  {
    var pipeline := new Pipeline(
      roundTrips, payloadBytes, if depth < roundTrips then depth else roundTrips, sqEntries);
    ghost var passes, idle;
    outcome, passes, idle := pipeline.Run(deadline);
    latencyUs, accepted := pipeline.latencyUs, pipeline.engine.operationsAccepted;
  }
}
