/** Sorting by a key, and why no count over a list depends on its order. */
module Sorting {
  import opened Totals

  function Insert<T>(key: T -> real, x: T, s: seq<T>): seq<T> {
    if s == [] || key(x) <= key(s[0]) then [x] + s else [s[0]] + Insert(key, x, s[1..])
  }

  function Sort<T>(key: T -> real, s: seq<T>): seq<T> {
    if s == [] then [] else Insert(key, s[0], Sort(key, s[1..]))
  }

  predicate Sorted<T>(key: T -> real, s: seq<T>) { forall i, j :: 0 <= i < j < |s| ==> key(s[i]) <= key(s[j]) }

  lemma {:induction false} InsertBounded<T>(key: T -> real, b: real, x: T, s: seq<T>)
    requires b <= key(x) && forall i :: 0 <= i < |s| ==> b <= key(s[i])
    ensures forall i :: 0 <= i < |Insert(key, x, s)| ==> b <= key(Insert(key, x, s)[i])
  {
    if s != [] && key(x) > key(s[0]) { InsertBounded(key, b, x, s[1..]); }
  }

  lemma {:induction false} InsertSorts<T>(key: T -> real, x: T, s: seq<T>)
    requires Sorted(key, s)
    ensures Sorted(key, Insert(key, x, s)) && |Insert(key, x, s)| == |s| + 1
  {
    if s != [] && key(x) > key(s[0]) {
      InsertSorts(key, x, s[1..]);
      InsertBounded(key, key(s[0]), x, s[1..]);
    }
  }

  lemma {:induction false} SortSorts<T>(key: T -> real, s: seq<T>)
    ensures Sorted(key, Sort(key, s)) && |Sort(key, s)| == |s|
  {
    if s != [] {
      SortSorts(key, s[1..]);
      InsertSorts(key, s[0], Sort(key, s[1..]));
    }
  }

  lemma {:induction false} InsertPermutes<T>(key: T -> real, x: T, s: seq<T>)
    ensures multiset(Insert(key, x, s)) == multiset{x} + multiset(s)
  {
    if s != [] && key(x) > key(s[0]) {
      InsertPermutes(key, x, s[1..]);
      assert s == [s[0]] + s[1..];
    }
  }

  lemma {:induction false} SortPermutes<T>(key: T -> real, s: seq<T>)
    ensures multiset(Sort(key, s)) == multiset(s)
  {
    if s != [] {
      SortPermutes(key, s[1..]);
      InsertPermutes(key, s[0], Sort(key, s[1..]));
      assert s == [s[0]] + s[1..];
    }
  }

  lemma {:induction false} TotalOfInsert<T>(f: T -> nat, key: T -> real, x: T, s: seq<T>)
    ensures Total(f, Insert(key, x, s)) == f(x) + Total(f, s)
  {
    if s != [] && key(x) > key(s[0]) {
      TotalOfInsert(f, key, x, s[1..]);
    } else {
      assert ([x] + s)[1..] == s;
    }
  }

  /** Sorting permutes: no count over the elements changes. */
  lemma {:induction false} TotalOfSort<T>(f: T -> nat, key: T -> real, s: seq<T>)
    ensures Total(f, Sort(key, s)) == Total(f, s)
  {
    if s != [] {
      TotalOfSort(f, key, s[1..]);
      TotalOfInsert(f, key, s[0], Sort(key, s[1..]));
    }
  }

  function Without<T>(s: seq<T>, i: nat): seq<T>
    requires i < |s|
  {
    s[..i] + s[i + 1..]
  }

  lemma MultisetWithout<T>(s: seq<T>, i: nat)
    requires i < |s|
    ensures multiset(Without(s, i)) == multiset(s) - multiset{s[i]}
  {
    assert s == s[..i] + [s[i]] + s[i + 1..];
  }

  lemma {:induction false} TotalWithout<T>(f: T -> nat, s: seq<T>, i: nat)
    requires i < |s|
    ensures Total(f, s) == f(s[i]) + Total(f, Without(s, i))
  {
    if i == 0 {
      assert Without(s, 0) == s[1..];
    } else {
      TotalWithout(f, s[1..], i - 1);
      assert Without(s, i)[1..] == Without(s[1..], i - 1);
    }
  }

  /** Taking the same element out of two permutations leaves permutations. */
  lemma TakeOut<T>(s: seq<T>, t: seq<T>) returns (i: nat)
    requires s != [] && multiset(s) == multiset(t)
    ensures i < |t| && t[i] == s[0] && multiset(s[1..]) == multiset(Without(t, i))
  {
    assert s[0] in multiset(t);
    i :| 0 <= i < |t| && t[i] == s[0];
    MultisetWithout(s, 0);
    MultisetWithout(t, i);
    assert Without(s, 0) == s[1..];
  }

  lemma {:induction false} TotalOfPermutation<T>(f: T -> nat, s: seq<T>, t: seq<T>)
    requires multiset(s) == multiset(t)
    ensures Total(f, s) == Total(f, t)
    decreases |s|
  {
    if s == [] {
      assert |multiset(t)| == |t|;
    } else {
      var i := TakeOut(s, t);
      TotalOfPermutation(f, s[1..], Without(t, i));
      TotalWithout(f, t, i);
    }
  }
}
