/**
 The order in which the paired performance matrix runs candidate and baseline: within a scenario the
 side that goes first alternates, and the alternation itself flips from one scenario to the next.
 */
module PairedSchedule {

  datatype Side = Candidate | Baseline

  /** Repetition 0 is the warm-up. */
  datatype Run = Run(side: Side, scenario: nat, repetition: nat)

  predicate CandidateFirst(s: nat, r: nat) { if r == 0 then s % 2 == 0 else (s + r) % 2 == 1 }

  /** Who goes first in a slot. */
  type Order = (nat, nat) -> bool

  function Pair(candidateFirst: bool, s: nat, r: nat): seq<Run> {
    if candidateFirst then [Run(Candidate, s, r), Run(Baseline, s, r)]
    else [Run(Baseline, s, r), Run(Candidate, s, r)]
  }

  /** The runs up to and including the first n slots of scenario s. */
  function Schedule(order: Order, s: nat, n: nat, repetitions: nat): seq<Run>
    decreases s, n
  {
    if n > 0 then Schedule(order, s, n - 1, repetitions) + Pair(order(s, n - 1), s, n - 1)
    else if s > 0 then Schedule(order, s - 1, repetitions + 1, repetitions)
    else []
  }

  method RunMatrix(scenarios: nat, repetitions: nat) returns (runs: seq<Run>)
    ensures runs == Schedule(CandidateFirst, scenarios, 0, repetitions)
  {
    runs := [];
    for s := 0 to scenarios
      invariant runs == Schedule(CandidateFirst, s, 0, repetitions)
    {
      var warmup := if s % 2 == 0 then [Candidate, Baseline] else [Baseline, Candidate];
      runs := runs + [Run(warmup[0], s, 0), Run(warmup[1], s, 0)];
      for r := 1 to repetitions + 1
        invariant runs == Schedule(CandidateFirst, s, r, repetitions)
      {
        var pair := if (s + r) % 2 == 1 then [Candidate, Baseline] else [Baseline, Candidate];
        runs := runs + [Run(pair[0], s, r), Run(pair[1], s, r)];
      }
    }
  }

  // --- Each side gets the same work ------------------------------------------------------------

  /** The repetitions one side has run of one scenario after m runs, in order. */
  function Repetitions(runs: seq<Run>, m: nat, side: Side, s: nat): seq<nat>
    requires m <= |runs|
  {
    if m == 0 then []
    else
      var earlier := Repetitions(runs, m - 1, side, s);
      if runs[m - 1].side == side && runs[m - 1].scenario == s then earlier + [runs[m - 1].repetition] else earlier
  }

  lemma {:induction false} RepetitionsKept(runs: seq<Run>, more: seq<Run>, m: nat, side: Side, s: nat)
    requires m <= |runs|
    ensures Repetitions(runs + more, m, side, s) == Repetitions(runs, m, side, s)
  {
    if m > 0 { RepetitionsKept(runs, more, m - 1, side, s); }
  }

  lemma PairRepetitions(runs: seq<Run>, side: Side, i: nat, first: bool, s: nat, r: nat)
    ensures var earlier := Repetitions(runs, |runs|, side, i);
            Repetitions(runs + Pair(first, s, r), |runs| + 2, side, i) == if i == s then earlier + [r] else earlier
  {
    RepetitionsKept(runs, Pair(first, s, r), |runs|, side, i);
  }

  function UpTo(n: nat): seq<nat> { if n == 0 then [] else UpTo(n - 1) + [n - 1] }

  /** Each side has run the warm-up and repetitions 1, 2, ... of every scenario before s, and n slots of s. */
  ghost predicate RunAlike(runs: seq<Run>, s: nat, n: nat, repetitions: nat) {
    forall side, i: nat ::
      Repetitions(runs, |runs|, side, i) == if i < s then UpTo(repetitions + 1) else if i == s then UpTo(n) else []
  }

  lemma SlotRunAlike(runs: seq<Run>, first: bool, s: nat, n: nat, repetitions: nat)
    requires RunAlike(runs, s, n, repetitions)
    ensures RunAlike(runs + Pair(first, s, n), s, n + 1, repetitions)
  {
    var both := runs + Pair(first, s, n);
    forall side, i: nat
      ensures Repetitions(both, |both|, side, i) ==
                if i < s then UpTo(repetitions + 1) else if i == s then UpTo(n + 1) else []
    {
      PairRepetitions(runs, side, i, first, s, n);
      assert |both| == |runs| + 2;
    }
  }

  /** Whatever the order, both sides run every warm-up and every repetition once, in the same order. */
  lemma {:induction false} SidesRunAlike(order: Order, s: nat, n: nat, repetitions: nat)
    ensures RunAlike(Schedule(order, s, n, repetitions), s, n, repetitions)
    decreases s, n
  {
    if n > 0 {
      SidesRunAlike(order, s, n - 1, repetitions);
      SlotRunAlike(Schedule(order, s, n - 1, repetitions), order(s, n - 1), s, n - 1, repetitions);
    } else if s > 0 {
      SidesRunAlike(order, s - 1, repetitions + 1, repetitions);
    }
  }

  // --- Neither side gets ahead -----------------------------------------------------------------

  function Weight(run: Run): int { if run.repetition == 0 then 0 else if run.side.Candidate? then 1 else -1 }

  /** After m runs: recorded candidate runs less recorded baseline runs. */
  function Lead(runs: seq<Run>, m: nat): int
    requires m <= |runs|
  {
    if m == 0 then 0 else Lead(runs, m - 1) + Weight(runs[m - 1])
  }

  /** After m runs: the summed positions of recorded candidate runs less those of recorded baseline runs. */
  function Drift(runs: seq<Run>, m: nat): int
    requires m <= |runs|
  {
    if m == 0 then 0 else Drift(runs, m - 1) + Weight(runs[m - 1]) * (m - 1)
  }

  lemma {:induction false} MeasuresKept(runs: seq<Run>, more: seq<Run>, m: nat)
    requires m <= |runs|
    ensures Lead(runs + more, m) == Lead(runs, m) && Drift(runs + more, m) == Drift(runs, m)
  {
    if m > 0 { MeasuresKept(runs, more, m - 1); }
  }

  lemma PairEffect(runs: seq<Run>, first: bool, s: nat, r: nat)
    ensures var both := runs + Pair(first, s, r);
            && Lead(both, |runs| + 2) == Lead(runs, |runs|)
            && -1 <= Lead(both, |runs| + 1) - Lead(runs, |runs|) <= 1
            && Drift(both, |runs| + 2) ==
                 Drift(runs, |runs|) + if r == 0 then 0 else if first then -1 else 1
  {
    MeasuresKept(runs, Pair(first, s, r), |runs|);
  }

  /** Whatever the order, at every moment of the matrix the recorded runs of the two sides differ by at most one. */
  lemma {:induction false} NeverMoreThanOneAhead(order: Order, s: nat, n: nat, repetitions: nat, m: nat)
    requires m <= |Schedule(order, s, n, repetitions)|
    ensures var runs := Schedule(order, s, n, repetitions);
            -1 <= Lead(runs, m) <= 1 && Lead(runs, |runs|) == 0
    decreases s, n
  {
    if n > 0 {
      var before := Schedule(order, s, n - 1, repetitions);
      var k := if m <= |before| then m else |before|;
      NeverMoreThanOneAhead(order, s, n - 1, repetitions, k);
      MeasuresKept(before, Pair(order(s, n - 1), s, n - 1), k);
      PairEffect(before, order(s, n - 1), s, n - 1);
    } else if s > 0 {
      NeverMoreThanOneAhead(order, s - 1, repetitions + 1, repetitions, m);
    }
  }

  /** An odd number of repetitions leaves a scenario one position out, alternately either way. */
  function Imbalance(s: nat, recorded: nat): int { if recorded % 2 == 0 then 0 else if s % 2 == 0 then -1 else 1 }

  function Total(s: nat, repetitions: nat): int { if repetitions % 2 == 1 && s % 2 == 1 then -1 else 0 }

  lemma ImbalanceSteps(s: nat, r: nat)
    ensures Imbalance(s, r + 1) == Imbalance(s, r) + if CandidateFirst(s, r + 1) then -1 else 1
    ensures Total(s + 1, r) == Total(s, r) + Imbalance(s, r)
  {
  }

  lemma {:induction false} DriftIs(order: Order, s: nat, n: nat, repetitions: nat)
    requires n <= repetitions + 1
    requires forall t: nat, r: nat :: r > 0 ==> order(t, r) == CandidateFirst(t, r)
    ensures var runs := Schedule(order, s, n, repetitions);
            Drift(runs, |runs|) == Total(s, repetitions) + if n == 0 then 0 else Imbalance(s, n - 1)
    decreases s, n
  {
    if n > 0 {
      DriftIs(order, s, n - 1, repetitions);
      PairEffect(Schedule(order, s, n - 1, repetitions), order(s, n - 1), s, n - 1);
      if n > 1 { ImbalanceSteps(s, n - 2); }
    } else if s > 0 {
      DriftIs(order, s - 1, repetitions + 1, repetitions);
      ImbalanceSteps(s - 1, repetitions);
    }
  }

  /** A steady drift of the machine favours neither side unless both counts are odd. */
  lemma SteadyDriftCancels(scenarios: nat, repetitions: nat)
    ensures var runs := Schedule(CandidateFirst, scenarios, 0, repetitions);
            Drift(runs, |runs|) == 0 <==> scenarios % 2 == 0 || repetitions % 2 == 0
  {
    DriftIs(CandidateFirst, scenarios, 0, repetitions);
  }
}
