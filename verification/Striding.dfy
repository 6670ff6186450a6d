/** Dealing indices 0 .. count-1 to `workers` owners by stride: owner w takes w, w + workers, ... */
module Striding {
  import opened Arithmetic
  /** How many indices the loop `for (i = from; i < count; i += workers)` visits. */
  function Share(from: nat, workers: nat, count: nat): nat
    requires workers > 0
    decreases count - from
  {
    if from >= count then 0 else 1 + Share(from + workers, workers, count)
  }

  /** The index at local position k. */
  function Position(from: nat, workers: nat, k: nat): nat {
    if k == 0 then from else Position(from, workers, k - 1) + workers
  }

  lemma {:induction false} PositionIsStride(from: nat, workers: nat, k: nat)
    ensures Position(from, workers, k) == from + k * workers
  {
    if k > 0 {
      PositionIsStride(from, workers, k - 1);
      assert k * workers == (k - 1) * workers + workers;
    }
  }

  /** Local position k of owner w holds index w + k * workers, for exactly the positions below its share. */
  lemma {:induction false} ShareIndices(from: nat, workers: nat, count: nat, k: nat)
    requires workers > 0
    ensures k < Share(from, workers, count) <==> from + k * workers < count
    decreases k
  {
    if k > 0 {
      assert (from + workers) + (k - 1) * workers == from + k * workers;
      if from < count { ShareIndices(from + workers, workers, count, k - 1); }
    }
  }

  /** Every index has exactly one owner and one local position, so the shares partition the indices. */
  lemma IndexHasOneOwner(index: nat, workers: nat, count: nat, w: nat, k: nat)
    requires w < workers && index < count
    ensures k < Share(w, workers, count) && Position(w, workers, k) == index
       <==> w == index % workers && k == index / workers
  {
    PositionIsStride(w, workers, k);
    ShareIndices(w, workers, count, k);
    DivModIff(index, workers, k, w);
  }

  lemma ShareSplits(w: nat, workers: nat, count: nat, base: nat, extra: nat)
    requires w < workers && count == base * workers + extra && extra < workers
    ensures Share(w, workers, count) == base + (if w < extra then 1 else 0)
  {
    var share := base + (if w < extra then 1 else 0);
    assert (base + 1) * workers == base * workers + workers;
    ShareIndices(w, workers, count, share);
    if share > 0 {
      assert (base - 1) * workers == base * workers - workers;
      ShareIndices(w, workers, count, share - 1);
    }
  }

  /** The share is the even split, with one more for the first count % workers owners. */
  lemma ShareIsEvenSplit(w: nat, workers: nat, count: nat)
    requires w < workers
    ensures Share(w, workers, count) == EvenShare(w, workers, count)
  {
    ShareSplits(w, workers, count, count / workers, count % workers);
  }

  function EvenShare(w: nat, workers: nat, count: nat): nat
    requires workers > 0
  {
    count / workers + (if w < count % workers then 1 else 0)
  }

  /** The indices dealt to the first n owners. */
  function DealtTo(n: nat, workers: nat, count: nat): nat
    requires workers > 0
  {
    if n == 0 then 0 else DealtTo(n - 1, workers, count) + Share(n - 1, workers, count)
  }

  lemma {:induction false} DealtSoFar(n: nat, workers: nat, count: nat, base: nat, extra: nat)
    requires n <= workers && count == base * workers + extra && extra < workers
    ensures DealtTo(n, workers, count) == n * base + (if n < extra then n else extra)
  {
    if n > 0 {
      DealtSoFar(n - 1, workers, count, base, extra);
      ShareSplits(n - 1, workers, count, base, extra);
      assert n * base == (n - 1) * base + base;
    }
  }

  /** All owners together hold every index. */
  lemma SharesCoverAll(workers: nat, count: nat)
    requires workers > 0
    ensures DealtTo(workers, workers, count) == count
  {
    DealtSoFar(workers, workers, count, count / workers, count % workers);
  }
}
