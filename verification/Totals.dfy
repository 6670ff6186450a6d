/** Sums of a weight over a sequence, and how they react to a single update. */
module Totals {

  function Total<T>(f: T -> nat, s: seq<T>): nat {
    if s == [] then 0 else f(s[0]) + Total(f, s[1..])
  }

  lemma {:induction false} TotalUpdate<T>(f: T -> nat, s: seq<T>, i: nat, x: T)
    requires i < |s|
    ensures Total(f, s[i := x]) + f(s[i]) == Total(f, s) + f(x)
  {
    if i == 0 {
      assert s[0 := x][1..] == s[1..];
    } else {
      assert s[i := x][1..] == s[1..][i - 1 := x];
      TotalUpdate(f, s[1..], i - 1, x);
    }
  }

  lemma {:induction false} TotalAppend<T>(f: T -> nat, s: seq<T>, x: T)
    ensures Total(f, s + [x]) == Total(f, s) + f(x)
  {
    if s == [] {
      assert s + [x] == [x];
    } else {
      assert (s + [x])[1..] == s[1..] + [x];
      TotalAppend(f, s[1..], x);
    }
  }

  lemma {:induction false} TotalConcat<T>(f: T -> nat, s: seq<T>, t: seq<T>)
    ensures Total(f, s + t) == Total(f, s) + Total(f, t)
  {
    if s == [] {
      assert s + t == t;
    } else {
      assert (s + t)[1..] == s[1..] + t;
      TotalConcat(f, s[1..], t);
    }
  }

  /** Two weights that agree within a distance of `gap` per element. */
  lemma {:induction false} TotalWithin<T>(f: T -> nat, s: seq<T>, g: T -> nat, t: seq<T>, gap: nat)
    requires |s| == |t|
    requires forall i :: 0 <= i < |s| ==> f(s[i]) <= g(t[i]) + gap
    ensures Total(f, s) <= Total(g, t) + gap * |s|
  {
    if s != [] {
      forall i | 0 <= i < |s[1..]| ensures f(s[1..][i]) <= g(t[1..][i]) + gap {
        assert f(s[i + 1]) <= g(t[i + 1]) + gap;
      }
      TotalWithin(f, s[1..], g, t[1..], gap);
      assert gap * |s| == gap + gap * |s[1..]|;
    }
  }

  lemma TotalSame<T>(f: T -> nat, s: seq<T>, g: T -> nat, t: seq<T>)
    requires |s| == |t|
    requires forall i :: 0 <= i < |s| ==> f(s[i]) == g(t[i])
    ensures Total(f, s) == Total(g, t)
  {
    TotalWithin(f, s, g, t, 0);
    TotalWithin(g, t, f, s, 0);
  }

  lemma {:induction false} TotalUniform<T>(f: T -> nat, s: seq<T>, c: nat)
    requires forall i :: 0 <= i < |s| ==> f(s[i]) == c
    ensures Total(f, s) == c * |s|
  {
    if s != [] {
      forall i | 0 <= i < |s[1..]| ensures f(s[1..][i]) == c {
        assert f(s[i + 1]) == c;
      }
      TotalUniform(f, s[1..], c);
      assert c * |s| == c + c * |s[1..]|;
    }
  }

  /** A weight capped at `cap` reaches the full sum only if it is at the cap everywhere. */
  lemma {:induction false} TotalCapped<T>(f: T -> nat, s: seq<T>, cap: nat)
    requires forall i :: 0 <= i < |s| ==> f(s[i]) <= cap
    ensures Total(f, s) <= cap * |s|
    ensures Total(f, s) == cap * |s| ==> forall i :: 0 <= i < |s| ==> f(s[i]) == cap
  {
    if s != [] {
      forall i | 0 <= i < |s[1..]| ensures f(s[1..][i]) <= cap {
        assert f(s[i + 1]) <= cap;
      }
      TotalCapped(f, s[1..], cap);
      assert cap * |s| == cap + cap * |s[1..]|;
      if Total(f, s) == cap * |s| {
        forall i | 0 <= i < |s| ensures f(s[i]) == cap {
          if i > 0 { assert s[i] == s[1..][i - 1]; }
        }
      }
    }
  }

  /** A 0/1 weight counts at most every element, and reaches the length only if it is 1 everywhere. */
  lemma TotalFull<T>(f: T -> nat, s: seq<T>)
    requires forall i :: 0 <= i < |s| ==> f(s[i]) <= 1
    ensures Total(f, s) <= |s|
    ensures Total(f, s) == |s| ==> forall i :: 0 <= i < |s| ==> f(s[i]) == 1
  {
    TotalCapped(f, s, 1);
  }

  /** Conversely, a 0/1 total below the length leaves an element of weight 0. */
  lemma TotalNotFull<T>(f: T -> nat, s: seq<T>) returns (i: nat)
    requires forall k :: 0 <= k < |s| ==> f(s[k]) <= 1
    requires Total(f, s) < |s|
    ensures i < |s| && f(s[i]) == 0
  {
    if forall k :: 0 <= k < |s| ==> f(s[k]) == 1 {
      TotalUniform(f, s, 1);
    }
    i :| 0 <= i < |s| && f(s[i]) == 0;
  }
}
