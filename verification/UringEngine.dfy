/**
 The bookkeeping of IoUringCompletionEngine: operation slots with generations, admission limits,
 the submission and ready queues, and byte accounting. The kernel is the environment: it completes
 submitted operations in any order with any result.
 */
module UringEngine {
  import opened Totals

  datatype OperationKind = Send | Receive

  datatype Identity = Identity(slot: nat, generation: nat)

  /** `submitted` covers the slot's entry in the submission deque: unset while it waits there. */
  datatype OpSlot = OpSlot(generation: nat, active: bool, noticePending: bool, submitted: bool,
                           kind: OperationKind, reserved: nat)

  datatype Notice = Notice(identity: Identity, kind: OperationKind, succeeded: bool, transferred: nat,
                           reserved: nat)

  datatype Submission = Accepted(identity: Identity) | Rejected

  /** What takeNextNotice does: nothing to take, a notice, or one of its two logic errors. */
  datatype Takeout = Nothing | Taken(notice: Notice) | LogicError

  // --- Generations -----------------------------------------------------------------------------

  const MAX_GENERATION: nat := 0x7FFF_FFFF

  function NextGeneration(g: nat): nat { if g == MAX_GENERATION then 1 else g + 1 }

  /** The generation of a slot after `uses` further operations. */
  function Later(g: nat, uses: nat): nat { if uses == 0 then g else NextGeneration(Later(g, uses - 1)) }

  lemma {:induction false} LaterIs(g: nat, uses: nat)
    requires 1 <= g <= MAX_GENERATION
    ensures Later(g, uses) == (g - 1 + uses) % MAX_GENERATION + 1
  {
    if uses > 0 { LaterIs(g, uses - 1); }
  }

  /** A slot shows an old identity again after a whole cycle of generations and never before. */
  lemma IdentityRecurs(g: nat, uses: nat)
    requires 1 <= g <= MAX_GENERATION
    ensures Later(g, uses) == g <==> uses % MAX_GENERATION == 0
  {
    LaterIs(g, uses);
  }

  // --- Slots and notices -----------------------------------------------------------------------

  function ActiveWeight(): OpSlot -> nat { (s: OpSlot) => if s.active then 1 else 0 }
  function BusyWeight(): OpSlot -> nat { (s: OpSlot) => if s.active || s.noticePending then 1 else 0 }
  function UnsubmittedWeight(): OpSlot -> nat { (s: OpSlot) => if s.active && !s.submitted then 1 else 0 }
  function SlotBytes(): OpSlot -> nat { (s: OpSlot) => s.reserved }
  function NoticeBytes(): Notice -> nat { (n: Notice) => n.reserved }

  predicate SlotSound(slot: OpSlot) {
    && !(slot.active && slot.noticePending)
    && (!slot.active ==> slot.reserved == 0)
    && slot.generation <= MAX_GENERATION
  }

  predicate SlotsSound(slots: seq<OpSlot>) {
    forall k {:trigger SlotSound(slots[k])} :: 0 <= k < |slots| ==> SlotSound(slots[k])
  }

  /** The notice still belongs to the slot it was published for. */
  predicate NoticeOk(slots: seq<OpSlot>, n: Notice) {
    && n.identity.slot < |slots|
    && slots[n.identity.slot].noticePending
    && slots[n.identity.slot].generation == n.identity.generation
    && slots[n.identity.slot].kind == n.kind
  }

  predicate ReadySound(slots: seq<OpSlot>, ready: seq<Notice>) {
    && (forall i {:trigger NoticeOk(slots, ready[i])} :: 0 <= i < |ready| ==> NoticeOk(slots, ready[i]))
    && DistinctSlots(ready)
  }

  predicate DistinctSlots(ready: seq<Notice>) {
    ready == [] ||
    ((forall i :: 1 <= i < |ready| ==> ready[i].identity.slot != ready[0].identity.slot) && DistinctSlots(ready[1..]))
  }

  lemma {:induction false} DistinctPushed(ready: seq<Notice>, notice: Notice)
    requires DistinctSlots(ready)
    requires forall i :: 0 <= i < |ready| ==> ready[i].identity.slot != notice.identity.slot
    ensures DistinctSlots(ready + [notice])
  {
    if ready != [] {
      DistinctPushed(ready[1..], notice);
      assert (ready + [notice])[1..] == ready[1..] + [notice];
    }
  }

  lemma ReadyKept(slots: seq<OpSlot>, ready: seq<Notice>, k: nat, to: OpSlot)
    requires ReadySound(slots, ready) && k < |slots| && !slots[k].noticePending
    ensures ReadySound(slots[k := to], ready)
  {
    forall i | 0 <= i < |ready| ensures NoticeOk(slots[k := to], ready[i]) { assert NoticeOk(slots, ready[i]); }
  }

  lemma ReadyPushed(slots: seq<OpSlot>, ready: seq<Notice>, k: nat, to: OpSlot, notice: Notice)
    requires ReadySound(slots, ready) && k < |slots| && !slots[k].noticePending
    requires notice.identity.slot == k && NoticeOk(slots[k := to], notice)
    ensures ReadySound(slots[k := to], ready + [notice])
  {
    ReadyKept(slots, ready, k, to);
    forall i | 0 <= i < |ready| ensures ready[i].identity.slot != k { assert NoticeOk(slots, ready[i]); }
    DistinctPushed(ready, notice);
  }

  lemma ReadyPopped(slots: seq<OpSlot>, ready: seq<Notice>, to: OpSlot)
    requires ReadySound(slots, ready) && ready != []
    ensures NoticeOk(slots, ready[0])
    ensures ReadySound(slots[ready[0].identity.slot := to], ready[1..])
  {
    var k := ready[0].identity.slot;
    assert NoticeOk(slots, ready[0]);
    forall i | 0 <= i < |ready[1..]| ensures NoticeOk(slots[k := to], ready[1..][i]) {
      assert NoticeOk(slots, ready[i + 1]);
    }
  }

  class Engine {
    const maxOperations: nat
    const maxBytesPerOperation: nat
    const maxOwnedBytes: nat
    const sqEntries: nat

    var slots: seq<OpSlot>
    var ready: seq<Notice>
    var pendingSubmissions: nat
    var activeOperations: nat
    var ownedBytes: nat
    var operationsAccepted: nat
    var terminalNotices: nat

    ghost predicate Valid()
      reads this
    {
      && |slots| == maxOperations
      && SlotsSound(slots) && ReadySound(slots, ready)
      && activeOperations == Total(ActiveWeight(), slots)
      && activeOperations + |ready| == Total(BusyWeight(), slots)
      && pendingSubmissions == Total(UnsubmittedWeight(), slots)
      && ownedBytes == Total(SlotBytes(), slots) + Total(NoticeBytes(), ready)
    }

    constructor (maxOperations: nat, maxBytesPerOperation: nat, maxOwnedBytes: nat, sqEntries: nat)
      ensures Valid() && this.maxOperations == maxOperations && this.sqEntries == sqEntries
      ensures this.maxBytesPerOperation == maxBytesPerOperation && this.maxOwnedBytes == maxOwnedBytes
      ensures ready == [] && activeOperations == 0 && operationsAccepted == 0 && terminalNotices == 0
      ensures ownedBytes == 0
      ensures forall k :: 0 <= k < |slots| ==> !slots[k].active && !slots[k].noticePending
    {
      this.maxOperations := maxOperations;
      this.maxBytesPerOperation := maxBytesPerOperation;
      this.maxOwnedBytes := maxOwnedBytes;
      this.sqEntries := sqEntries;
      slots := seq(maxOperations, _ => OpSlot(0, false, false, false, Send, 0));
      ready := [];
      pendingSubmissions, activeOperations, ownedBytes, operationsAccepted, terminalNotices := 0, 0, 0, 0, 0;
      new;
      TotalUniform(ActiveWeight(), slots, 0);
      TotalUniform(BusyWeight(), slots, 0);
      TotalUniform(UnsubmittedWeight(), slots, 0);
      TotalUniform(SlotBytes(), slots, 0);
    }

    /** The first slot that is neither active nor holding an untaken notice. */
    method FindFreeSlot() returns (found: bool, index: nat)
      requires Valid()
      ensures found <==> activeOperations + |ready| < maxOperations
      ensures found ==> index < |slots| && !slots[index].active && !slots[index].noticePending
      ensures found ==> forall k :: 0 <= k < index ==> slots[k].active || slots[k].noticePending
    {
      TotalFull(BusyWeight(), slots);
      index := 0;
      while index < |slots|
        invariant index <= |slots|
        invariant forall k :: 0 <= k < index ==> slots[k].active || slots[k].noticePending
      {
        if !slots[index].active && !slots[index].noticePending {
          assert BusyWeight()(slots[index]) == 0;
          return true, index;
        }
        index := index + 1;
      }
      TotalUniform(BusyWeight(), slots, 1);
      found := false;
    }

    method Enqueue(kind: OperationKind, bytes: nat) returns (outcome: Submission)
      requires Valid()
      modifies this
      ensures Valid() && ready == old(ready) && terminalNotices == old(terminalNotices)
      ensures outcome.Accepted? <==>
                && 0 < bytes <= maxBytesPerOperation
                && old(activeOperations + |ready|) < maxOperations
                && old(pendingSubmissions) < sqEntries
                && old(ownedBytes) + bytes <= maxOwnedBytes
      ensures outcome.Rejected? ==> unchanged(this)
      ensures outcome.Accepted? ==>
                var k := outcome.identity.slot;
                && k < |slots| && !old(slots[k].active) && !old(slots[k].noticePending)
                && outcome.identity.generation == NextGeneration(old(slots[k].generation)) <= MAX_GENERATION
                && slots == old(slots)[k := OpSlot(outcome.identity.generation, true, false, false, kind, bytes)]
                && activeOperations == old(activeOperations) + 1
                && ownedBytes == old(ownedBytes) + bytes
                && operationsAccepted == old(operationsAccepted) + 1
    {
      if bytes == 0 || bytes > maxBytesPerOperation { return Rejected; }
      if activeOperations + |ready| >= maxOperations { return Rejected; }
      if pendingSubmissions >= sqEntries { return Rejected; }
      if ownedBytes > maxOwnedBytes || bytes > maxOwnedBytes - ownedBytes { return Rejected; }
      var found, index := FindFreeSlot();
      if !found { return Rejected; }
      assert SlotSound(slots[index]);
      var generation := if slots[index].generation == MAX_GENERATION then 1 else slots[index].generation + 1;
      var slot := OpSlot(generation, true, false, false, kind, bytes);
      SlotUpdated(slots, index, slot);
      SoundUpdated(slots, index, slot);
      ReadyKept(slots, ready, index, slot);
      slots := slots[index := slot];
      pendingSubmissions := pendingSubmissions + 1;
      ownedBytes := ownedBytes + bytes;
      activeOperations := activeOperations + 1;
      operationsAccepted := operationsAccepted + 1;
      outcome := Accepted(Identity(index, generation));
    }

    /** flushAllOrThrow when the kernel takes every entry. */
    method Flush()
      requires Valid()
      modifies this`slots, this`pendingSubmissions
      ensures Valid() && pendingSubmissions == 0 && |slots| == |old(slots)|
      ensures forall k :: 0 <= k < |slots| ==>
                slots[k] == old(slots[k]).(submitted := old(slots[k]).active || old(slots[k]).submitted)
    {
      ghost var before := slots;
      slots := seq(|slots|, k requires 0 <= k < |slots| reads this =>
        slots[k].(submitted := slots[k].active || slots[k].submitted));
      pendingSubmissions := 0;
      FlushKeeps(before, slots, ready);
    }

    /** publishTerminal: the kernel finished operation `k`. */
    method PublishTerminal(k: nat, succeeded: bool, transferred: nat)
      requires Valid() && k < |slots| && slots[k].active && slots[k].submitted
      modifies this
      ensures Valid() && ownedBytes == old(ownedBytes) && operationsAccepted == old(operationsAccepted)
      ensures pendingSubmissions == old(pendingSubmissions)
      ensures slots == old(slots)[k := old(slots[k]).(active := false, noticePending := true, submitted := false,
                                                      reserved := 0)]
      ensures ready == old(ready) + [Notice(Identity(k, old(slots[k]).generation), old(slots[k]).kind,
                                            succeeded, transferred, old(slots[k]).reserved)]
      ensures activeOperations == old(activeOperations) - 1
      ensures terminalNotices == old(terminalNotices) + 1
    {
      var slot := slots[k];
      var notice := Notice(Identity(k, slot.generation), slot.kind, succeeded, transferred, slot.reserved);
      TotalAppend(NoticeBytes(), ready, notice);
      var retired := slot.(active := false, noticePending := true, submitted := false, reserved := 0);
      assert SlotSound(slot);
      SlotUpdated(slots, k, retired);
      SoundUpdated(slots, k, retired);
      ReadyPushed(slots, ready, k, retired, notice);
      ready := ready + [notice];
      slots := slots[k := retired];
      activeOperations := activeOperations - 1;
      terminalNotices := terminalNotices + 1;
    }

    /** Take the oldest notice. Neither of the source's logic errors can occur. */
    method TakeNextNotice() returns (result: Takeout)
      requires Valid()
      modifies this
      ensures Valid() && !result.LogicError?
      ensures result.Nothing? <==> old(ready) == []
      ensures result.Nothing? ==> unchanged(this)
      ensures result.Taken? ==>
                var notice := old(ready[0]);
                && result.notice == notice && ready == old(ready[1..]) && NoticeOk(old(slots), notice)
                && slots == old(slots)[notice.identity.slot :=
                                         old(slots[notice.identity.slot]).(noticePending := false)]
                && ownedBytes == old(ownedBytes) - notice.reserved
                && activeOperations == old(activeOperations) && operationsAccepted == old(operationsAccepted)
                && pendingSubmissions == old(pendingSubmissions) && terminalNotices == old(terminalNotices)
    {
      if ready == [] { return Nothing; }
      var notice := ready[0];
      assert NoticeOk(slots, notice);
      var k := notice.identity.slot;
      if k >= |slots| || slots[k].generation != notice.identity.generation || !slots[k].noticePending {
        return LogicError;
      }
      var released := slots[k].(noticePending := false);
      assert SlotSound(slots[k]) && SlotSound(released);
      SlotUpdated(slots, k, released);
      SoundUpdated(slots, k, released);
      ReadyPopped(slots, ready, released);
      assert Total(NoticeBytes(), ready) == notice.reserved + Total(NoticeBytes(), ready[1..]);
      if notice.reserved > ownedBytes { return LogicError; }
      ready := ready[1..];
      slots := slots[k := released];
      ownedBytes := ownedBytes - notice.reserved;
      result := Taken(notice);
    }
  }

  lemma FlushKeeps(before: seq<OpSlot>, after: seq<OpSlot>, ready: seq<Notice>)
    requires |after| == |before| && SlotsSound(before) && ReadySound(before, ready)
    requires forall k :: 0 <= k < |before| ==>
      after[k] == before[k].(submitted := before[k].active || before[k].submitted)
    ensures SlotsSound(after) && ReadySound(after, ready)
    ensures Total(ActiveWeight(), after) == Total(ActiveWeight(), before)
    ensures Total(BusyWeight(), after) == Total(BusyWeight(), before)
    ensures Total(SlotBytes(), after) == Total(SlotBytes(), before)
    ensures Total(UnsubmittedWeight(), after) == 0
  {
    forall k | 0 <= k < |after| ensures SlotSound(after[k]) { assert SlotSound(before[k]); }
    forall i | 0 <= i < |ready| ensures NoticeOk(after, ready[i]) { assert NoticeOk(before, ready[i]); }
    TotalSame(ActiveWeight(), before, ActiveWeight(), after);
    TotalSame(BusyWeight(), before, BusyWeight(), after);
    TotalSame(SlotBytes(), before, SlotBytes(), after);
    TotalUniform(UnsubmittedWeight(), after, 0);
  }

  lemma SoundUpdated(slots: seq<OpSlot>, k: nat, to: OpSlot)
    requires SlotsSound(slots) && k < |slots| && SlotSound(to)
    ensures SlotsSound(slots[k := to])
  {
    var updated := slots[k := to];
    forall i | 0 <= i < |updated| ensures SlotSound(updated[i]) { assert i != k ==> SlotSound(slots[i]); }
  }

  lemma SlotUpdated(slots: seq<OpSlot>, k: nat, to: OpSlot)
    requires k < |slots|
    ensures Total(ActiveWeight(), slots[k := to]) + ActiveWeight()(slots[k])
         == Total(ActiveWeight(), slots) + ActiveWeight()(to)
    ensures Total(BusyWeight(), slots[k := to]) + BusyWeight()(slots[k])
         == Total(BusyWeight(), slots) + BusyWeight()(to)
    ensures Total(UnsubmittedWeight(), slots[k := to]) + UnsubmittedWeight()(slots[k])
         == Total(UnsubmittedWeight(), slots) + UnsubmittedWeight()(to)
    ensures Total(SlotBytes(), slots[k := to]) + slots[k].reserved == Total(SlotBytes(), slots) + to.reserved
  {
    TotalUpdate(ActiveWeight(), slots, k, to);
    TotalUpdate(BusyWeight(), slots, k, to);
    TotalUpdate(UnsubmittedWeight(), slots, k, to);
    TotalUpdate(SlotBytes(), slots, k, to);
  }
}
