/**
 The compare-exchange loop that keeps a peak (WorkingSetSampler::observe and the pending-output
 peak of the core benchmark), for any number of concurrent observers. compare_exchange_weak may
 fail spuriously; on failure it reloads the expected value.
 */
module PeakCounter {
  import opened Totals

  datatype Observer =
    | Loading(sample: nat)
    | Comparing(sample: nat, expected: nat)
    | Returned(sample: nat)

  /** `initial` (history): the value the peak was constructed with. */
  datatype State = State(initial: nat, peak: nat, observers: seq<Observer>)

  datatype Action =
    | Arrive(sample: nat)
    | Load(o: nat)
    | Leave(o: nat)                              // sample > peak is false
    | CompareExchange(o: nat, spurious: bool)    // sample > peak is true

  predicate Enabled(s: State, a: Action) {
    match a
    case Arrive(_) => true
    case Load(o) => o < |s.observers| && s.observers[o].Loading?
    case Leave(o) =>
      o < |s.observers| && s.observers[o].Comparing? && s.observers[o].sample <= s.observers[o].expected
    case CompareExchange(o, _) =>
      o < |s.observers| && s.observers[o].Comparing? && s.observers[o].sample > s.observers[o].expected
  }

  function Put(s: State, o: nat, to: Observer): State
    requires o < |s.observers|
  {
    s.(observers := s.observers[o := to])
  }

  function Apply(s: State, a: Action): State
    requires Enabled(s, a)
  {
    match a
    case Arrive(x) => s.(observers := s.observers + [Loading(x)])
    case Load(o) => Put(s, o, Comparing(s.observers[o].sample, s.peak))
    case Leave(o) => Put(s, o, Returned(s.observers[o].sample))
    case CompareExchange(o, spurious) =>
      var me := s.observers[o];
      if me.expected == s.peak && !spurious then Put(s.(peak := me.sample), o, Returned(me.sample))
      else Put(s, o, Comparing(me.sample, s.peak))
  }

  predicate Executable(s: State, run: seq<Action>)
    decreases |run|
  {
    run == [] || (Enabled(s, run[0]) && Executable(Apply(s, run[0]), run[1..]))
  }

  function After(s: State, run: seq<Action>): State
    requires Executable(s, run)
    decreases |run|
  {
    if run == [] then s else After(Apply(s, run[0]), run[1..])
  }

  predicate ObserverOk(s: State, o: Observer) {
    match o
    case Loading(_) => true
    case Comparing(_, expected) => expected <= s.peak
    case Returned(x) => x <= s.peak
  }

  ghost predicate Inv(s: State) {
    && s.initial <= s.peak
    && (s.peak == s.initial || exists i :: 0 <= i < |s.observers| && s.observers[i] == Returned(s.peak))
    && forall i :: 0 <= i < |s.observers| ==> ObserverOk(s, s.observers[i])
  }

  lemma StepKeeps(s: State, a: Action)
    requires Inv(s) && Enabled(s, a)
    ensures Inv(Apply(s, a)) && s.peak <= Apply(s, a).peak && Apply(s, a).initial == s.initial
  {
    var t := Apply(s, a);
    if t.peak != t.initial {
      if t.peak == s.peak {
        var i :| 0 <= i < |s.observers| && s.observers[i] == Returned(s.peak);
        assert t.observers[i] == Returned(t.peak);
      } else {
        assert t.observers[a.o] == Returned(t.peak);
      }
    }
  }

  lemma {:induction false} RunKeeps(s: State, run: seq<Action>)
    requires Inv(s) && Executable(s, run)
    ensures Inv(After(s, run)) && s.peak <= After(s, run).peak && After(s, run).initial == s.initial
    decreases |run|
  {
    if run != [] {
      StepKeeps(s, run[0]);
      RunKeeps(Apply(s, run[0]), run[1..]);
    }
  }

  /** Any continuation keeps the peak at or above what it was, and at or above every sample whose
      observe has returned; once all have returned it is the maximum of the samples and the start. */
  lemma PeakIsMaximum(initial: nat, before: seq<Action>, run: seq<Action>)
    requires var s0 := State(initial, initial, []);
      Executable(s0, before) && Executable(After(s0, before), run)
    ensures var s := After(State(initial, initial, []), before); var t := After(s, run);
      && s.peak <= t.peak
      && (forall i :: 0 <= i < |s.observers| && s.observers[i].Returned? ==> s.observers[i].sample <= t.peak)
      && ((forall i :: 0 <= i < |t.observers| ==> t.observers[i].Returned?) ==>
            && initial <= t.peak
            && (forall i :: 0 <= i < |t.observers| ==> t.observers[i].sample <= t.peak)
            && (t.peak == initial || exists i :: 0 <= i < |t.observers| && t.observers[i].sample == t.peak))
  {
    var s0 := State(initial, initial, []);
    RunKeeps(s0, before);
    var s := After(s0, before);
    RunKeeps(s, run);
    var t := After(s, run);
    forall i | 0 <= i < |s.observers| && s.observers[i].Returned? ensures s.observers[i].sample <= t.peak {
      assert ObserverOk(s, s.observers[i]);
    }
    forall i | 0 <= i < |t.observers| && t.observers[i].Returned? ensures t.observers[i].sample <= t.peak {
      assert ObserverOk(t, t.observers[i]);
    }
  }

  // --- Retries ---------------------------------------------------------------------------------

  /** A compare-exchange of `o` that fails because the peak is not the value it expected. */
  predicate Outrun(s: State, a: Action, o: nat) {
    Enabled(s, a) && a.CompareExchange? && a.o == o && s.observers[o].expected != s.peak
  }

  function Retries(s: State, run: seq<Action>, o: nat): nat
    requires Executable(s, run)
    decreases |run|
  {
    if run == [] then 0 else (if Outrun(s, run[0], o) then 1 else 0) + Retries(Apply(s, run[0]), run[1..], o)
  }

  function Raises(s: State, run: seq<Action>): nat
    requires Executable(s, run)
    decreases |run|
  {
    if run == [] then 0
    else (if Apply(s, run[0]).peak != s.peak then 1 else 0) + Raises(Apply(s, run[0]), run[1..])
  }

  /** `o` is about to find a peak it did not expect. */
  function Behind(s: State, o: nat): nat {
    if o < |s.observers| && s.observers[o].Comparing? && s.observers[o].expected != s.peak then 1 else 0
  }

  lemma {:induction false} RetriesBounded(s: State, run: seq<Action>, o: nat)
    requires Executable(s, run)
    ensures Retries(s, run, o) <= Raises(s, run) + Behind(s, o)
    decreases |run|
  {
    if run != [] {
      var t := Apply(s, run[0]);
      RetriesBounded(t, run[1..], o);
      assert (if Outrun(s, run[0], o) then 1 else 0) + Behind(t, o)
          <= (if t.peak != s.peak then 1 else 0) + Behind(s, o);
    }
  }

  function ReturnedWeight(): Observer -> nat { (x: Observer) => if x.Returned? then 1 else 0 }

  /** Whoever raises the peak returns. */
  lemma {:induction false} RaisesRetire(s: State, run: seq<Action>)
    requires Executable(s, run)
    ensures Total(ReturnedWeight(), s.observers) + Raises(s, run) <= Total(ReturnedWeight(), After(s, run).observers)
    decreases |run|
  {
    if run != [] {
      var a, t := run[0], Apply(s, run[0]);
      if a.Arrive? {
        TotalAppend(ReturnedWeight(), s.observers, Loading(a.sample));
      } else {
        TotalUpdate(ReturnedWeight(), s.observers, a.o, t.observers[a.o]);
        assert t.observers == s.observers[a.o := t.observers[a.o]];
      }
      RaisesRetire(t, run[1..]);
    }
  }

  /** The loop is lock-free: an observer retries for real at most once for each time the peak was
      raised, and each raise lets another observer return. */
  lemma LockFree(initial: nat, run: seq<Action>, o: nat)
    requires Executable(State(initial, initial, []), run)
    ensures var s := State(initial, initial, []);
      Retries(s, run, o) <= Raises(s, run) <= Total(ReturnedWeight(), After(s, run).observers)
  {
    var s := State(initial, initial, []);
    RetriesBounded(s, run, o);
    RaisesRetire(s, run);
  }
}
