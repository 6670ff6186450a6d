/**
 The same-runner performance gate: medians of baseline and candidate samples, compared under a
 relative budget and an absolute slack. Samples are exact reals.
 */
module RegressionGate {
  import opened Sorting
  import opened Totals
  import opened Wrappers

  datatype Direction = Higher | Lower

  // --- The median ------------------------------------------------------------------------------

  function Itself(): real -> real { (x: real) => x }

  /** statistics.median on an odd number of samples. */
  function Median(s: seq<real>): real
    requires |s| % 2 == 1
  {
    SortSorts(Itself(), s);
    Sort(Itself(), s)[|s| / 2]
  }

  // --- Order statistics by counting --------------------------------------------------------------

  function AtMost(t: real): real -> nat { (x: real) => if x <= t then 1 else 0 }
  function AtLeast(t: real): real -> nat { (x: real) => if x >= t then 1 else 0 }

  /** In a sorted list the k-th sample is at most t exactly if more than k samples are. */
  lemma {:induction false} SortedCount(s: seq<real>, k: nat, t: real)
    requires Sorted(Itself(), s) && k < |s|
    ensures s[k] <= t <==> Total(AtMost(t), s) > k
  {
    if s[0] > t {
      forall i | 0 <= i < |s| ensures AtMost(t)(s[i]) == 0 { assert i > 0 ==> Itself()(s[0]) <= Itself()(s[i]); }
      TotalUniform(AtMost(t), s, 0);
      assert k > 0 ==> Itself()(s[0]) <= Itself()(s[k]);
    } else if k > 0 {
      SortedCount(s[1..], k - 1, t);
    }
  }

  /** The median is at most t exactly if a strict majority of the samples is. */
  lemma MedianAtMost(s: seq<real>, t: real)
    requires |s| % 2 == 1
    ensures Median(s) <= t <==> 2 * Total(AtMost(t), s) > |s|
  {
    SortSorts(Itself(), s);
    SortedCount(Sort(Itself(), s), |s| / 2, t);
    TotalOfSort(AtMost(t), Itself(), s);
  }

  /** In a sorted list the k-th sample is at least t exactly if at least |s| - k samples are. */
  lemma {:induction false} SortedCountAbove(s: seq<real>, k: nat, t: real)
    requires Sorted(Itself(), s) && k < |s|
    ensures s[k] >= t <==> Total(AtLeast(t), s) >= |s| - k
  {
    if s[0] >= t {
      forall i | 0 <= i < |s| ensures AtLeast(t)(s[i]) == 1 { assert i > 0 ==> Itself()(s[0]) <= Itself()(s[i]); }
      TotalUniform(AtLeast(t), s, 1);
      assert k > 0 ==> Itself()(s[0]) <= Itself()(s[k]);
    } else if k > 0 {
      SortedCountAbove(s[1..], k - 1, t);
    } else {
      TotalFull(AtLeast(t), s[1..]);
    }
  }

  lemma MedianAtLeast(s: seq<real>, t: real)
    requires |s| % 2 == 1
    ensures Median(s) >= t <==> 2 * Total(AtLeast(t), s) > |s|
  {
    SortSorts(Itself(), s);
    SortedCountAbove(Sort(Itself(), s), |s| / 2, t);
    TotalOfSort(AtLeast(t), Itself(), s);
  }

  lemma MedianOfPermutation(s: seq<real>, t: seq<real>)
    requires |s| % 2 == 1 && multiset(s) == multiset(t)
    ensures |t| == |s| && Median(s) == Median(t)
  {
    assert |multiset(s)| == |s| && |multiset(t)| == |t|;
    MedianAtMost(s, Median(t));
    MedianAtMost(t, Median(t));
    TotalOfPermutation(AtMost(Median(t)), s, t);
    MedianAtMost(s, Median(s));
    MedianAtMost(t, Median(s));
    TotalOfPermutation(AtMost(Median(s)), s, t);
  }

  lemma MedianMonotone(s: seq<real>, t: seq<real>)
    requires |s| == |t| && |s| % 2 == 1 && forall i :: 0 <= i < |s| ==> s[i] <= t[i]
    ensures Median(s) <= Median(t)
  {
    var m := Median(t);
    MedianAtMost(t, m);
    MedianAtMost(s, m);
    TotalWithin(AtMost(m), t, AtMost(m), s, 0);
  }

  // --- The gate --------------------------------------------------------------------------------

  datatype Metric = Metric(direction: Direction, ratio: real, slack: real, baseline: seq<real>, candidate: seq<real>)

  predicate NonNegative(s: seq<real>) { forall i :: 0 <= i < |s| ==> s[i] >= 0.0 }

  /** What finite_number, the ratio check and load_matrix admit. */
  predicate Admitted(m: Metric) {
    && 0.0 <= m.ratio < 1.0 && 0.0 <= m.slack
    && |m.baseline| == |m.candidate| && |m.baseline| % 2 == 1
    && NonNegative(m.baseline) && NonNegative(m.candidate)
  }

  function Threshold(direction: Direction, baseline: real, ratio: real, slack: real): real {
    match direction
    case Higher => baseline * (1.0 - ratio) - slack
    case Lower => baseline * (1.0 + ratio) + slack
  }

  predicate Decide(direction: Direction, candidate: real, threshold: real) {
    match direction
    case Higher => candidate >= if threshold > 0.0 then threshold else 0.0
    case Lower => candidate <= threshold
  }

  function ThresholdOf(m: Metric): real
    requires Admitted(m)
  {
    Threshold(m.direction, Median(m.baseline), m.ratio, m.slack)
  }

  predicate Passes(m: Metric)
    requires Admitted(m)
  {
    Decide(m.direction, Median(m.candidate), ThresholdOf(m))
  }

  /** The median decision is a vote: a metric passes exactly if a strict majority of the candidate
      samples meets the threshold. */
  lemma PassIsMajority(m: Metric)
    requires Admitted(m)
    ensures Passes(m) <==>
      var meets := if m.direction.Higher? then AtLeast(ThresholdOf(m)) else AtMost(ThresholdOf(m));
      2 * Total(meets, m.candidate) > |m.candidate|
  {
    MedianAtMost(m.candidate, ThresholdOf(m));
    MedianAtLeast(m.candidate, ThresholdOf(m));
    MedianNonNegative(m.candidate);
  }

  lemma MedianNonNegative(s: seq<real>)
    requires |s| % 2 == 1 && NonNegative(s)
    ensures Median(s) >= 0.0
  {
    TotalUniform(AtLeast(0.0), s, 1);
    MedianAtLeast(s, 0.0);
  }

  predicate NoWorse(direction: Direction, better: seq<real>, worse: seq<real>) {
    && |better| == |worse|
    && forall i :: 0 <= i < |worse| ==> if direction.Higher? then better[i] >= worse[i] else better[i] <= worse[i]
  }

  /** Better candidate samples, worse baseline samples, any reordering of either list, a larger
      ratio and a larger slack never turn pass into fail. */
  lemma GateIsMonotone(m: Metric, n: Metric, candidate: seq<real>, baseline: seq<real>)
    requires Admitted(m) && Admitted(n) && m.direction == n.direction
    requires multiset(candidate) == multiset(n.candidate) && NoWorse(m.direction, candidate, m.candidate)
    requires multiset(baseline) == multiset(n.baseline) && NoWorse(m.direction, m.baseline, baseline)
    requires m.ratio <= n.ratio && m.slack <= n.slack
    ensures Passes(m) ==> Passes(n)
  {
    MedianOfPermutation(candidate, n.candidate);
    MedianOfPermutation(baseline, n.baseline);
    MedianNonNegative(n.candidate);
    MedianNonNegative(n.baseline);
    MedianNonNegative(m.baseline);
    if m.direction.Higher? {
      MedianMonotone(m.candidate, candidate);
      MedianMonotone(baseline, m.baseline);
    } else {
      MedianMonotone(candidate, m.candidate);
      MedianMonotone(m.baseline, baseline);
    }
    ThresholdMonotone(m.direction, Median(m.baseline), Median(n.baseline), m.ratio, n.ratio, m.slack, n.slack);
  }

  lemma ProductNonNegative(x: real, y: real)
    requires x >= 0.0 && y >= 0.0
    ensures x * y >= 0.0
  {
  }

  lemma ScaleMonotone(x: real, x': real, y: real)
    requires x <= x' && 0.0 <= y
    ensures x * y <= x' * y
  {
    ProductNonNegative(x' - x, y);
    assert (x' - x) * y == x' * y - x * y;
  }

  lemma ProductMonotone(x: real, x': real, y: real, y': real)
    requires 0.0 <= x <= x' && 0.0 <= y <= y'
    ensures x * y <= x' * y'
  {
    ScaleMonotone(x, x', y);
    ScaleMonotone(y, y', x');
    assert y * x' == x' * y && y' * x' == x' * y';
  }

  lemma ThresholdMonotone(direction: Direction, b: real, b': real, r: real, r': real, k: real, k': real)
    requires 0.0 <= b && 0.0 <= b' && 0.0 <= r <= r' < 1.0 && k <= k'
    requires if direction.Higher? then b >= b' else b <= b'
    ensures direction.Higher? ==> Threshold(direction, b, r, k) >= Threshold(direction, b', r', k')
    ensures direction.Lower? ==> Threshold(direction, b, r, k) <= Threshold(direction, b', r', k')
  {
    if direction.Higher? {
      var kept, kept' := 1.0 - r, 1.0 - r';
      ProductMonotone(b', b, kept', kept);
      assert Threshold(direction, b, r, k) == b * kept - k && Threshold(direction, b', r', k') == b' * kept' - k';
    } else {
      var grown, grown' := 1.0 + r, 1.0 + r';
      ProductMonotone(b, b', grown, grown');
      assert Threshold(direction, b, r, k) == b * grown + k && Threshold(direction, b', r', k') == b' * grown' + k';
    }
  }

  /** A candidate that reproduces the baseline always passes. */
  lemma SameSamplesPass(m: Metric)
    requires Admitted(m) && multiset(m.candidate) == multiset(m.baseline)
    ensures Passes(m)
  {
    MedianOfPermutation(m.candidate, m.baseline);
    MedianNonNegative(m.baseline);
    var b := Median(m.baseline);
    ProductNonNegative(b, m.ratio);
    assert b * (1.0 - m.ratio) == b - b * m.ratio && b * (1.0 + m.ratio) == b + b * m.ratio;
  }

  // --- compare ---------------------------------------------------------------------------------

  predicate Refused(metrics: seq<Metric>) { metrics == [] || exists j :: 0 <= j < |metrics| && !Admitted(metrics[j]) }

  predicate ScenarioPasses(metrics: seq<Metric>) {
    forall j :: 0 <= j < |metrics| ==> Admitted(metrics[j]) && Passes(metrics[j])
  }

  /** The comparison loop over scenarios and their metric budgets; None when it raises. */
  method Compare(scenarios: seq<seq<Metric>>) returns (verdict: Option<(bool, seq<bool>)>)
    ensures verdict.None? <==>
              scenarios == [] || exists i :: 0 <= i < |scenarios| && Refused(scenarios[i])
    ensures verdict.Some? ==>
              && |verdict.value.1| == |scenarios|
              && (forall i :: 0 <= i < |scenarios| ==> (verdict.value.1[i] <==> ScenarioPasses(scenarios[i])))
              && (verdict.value.0 <==> forall i :: 0 <= i < |scenarios| ==> verdict.value.1[i])
  {
    if scenarios == [] { return None; }
    var comparisons: seq<bool> := [];
    var allPassed := true;
    for i := 0 to |scenarios|
      invariant |comparisons| == i
      invariant forall k :: 0 <= k < i ==> !Refused(scenarios[k])
      invariant forall k :: 0 <= k < i ==> (comparisons[k] <==> ScenarioPasses(scenarios[k]))
      invariant allPassed <==> forall k :: 0 <= k < i ==> comparisons[k]
    {
      var metrics := scenarios[i];
      if metrics == [] { return None; }
      var scenarioPassed := true;
      ghost var before := allPassed;
      for j := 0 to |metrics|
        invariant forall k :: 0 <= k < j ==> Admitted(metrics[k])
        invariant scenarioPassed <==> forall k :: 0 <= k < j ==> Admitted(metrics[k]) && Passes(metrics[k])
        invariant allPassed <==> before && scenarioPassed
      {
        if !Admitted(metrics[j]) { return None; }
        var passed := Passes(metrics[j]);
        allPassed := allPassed && passed;
        scenarioPassed := scenarioPassed && passed;
      }
      comparisons := comparisons + [scenarioPassed];
    }
    verdict := Some((allPassed, comparisons));
  }
}
