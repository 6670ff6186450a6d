/** Quotients, ceilings and batch counts shared by the accounting modules. */
module Arithmetic {

  lemma DivModUnique(n: nat, d: nat, q: nat, r: nat)
    requires r < d && n == r + q * d
    ensures n / d == q && n % d == r
  {
    QuotientAtMost(n / d, q, d, n % d, r);
    QuotientAtMost(q, n / d, d, r, n % d);
  }

  lemma DivModIff(n: nat, d: nat, q: nat, r: nat)
    requires r < d
    ensures n == r + q * d <==> n / d == q && n % d == r
  {
    assert n == (n / d) * d + n % d;
    if n == r + q * d { DivModUnique(n, d, q, r); }
  }

  lemma QuotientAtMost(p: int, q: int, b: nat, m: int, r: int)
    requires p * b + m == q * b + r && 0 <= m && r < b
    ensures p <= q
  {
    ProductGrows(p - q, b);
    assert (p - q) * b == p * b - q * b;
  }

  lemma ProductGrows(d: int, b: nat)
    ensures d >= 1 ==> d * b >= b
  {
    if d >= 1 { assert d * b == (d - 1) * b + b && (d - 1) * b >= 0; }
  }

  function CeilDiv(a: nat, b: nat): nat
    requires b > 0
  {
    (a + b - 1) / b
  }

  function NextBatch(remaining: nat, size: nat): nat { if size < remaining then size else remaining }

  /** The number of batches the pacing loop takes for what remains. */
  function BatchesFor(remaining: nat, size: nat): nat
    requires size > 0
  {
    if remaining == 0 then 0 else 1 + BatchesFor(remaining - NextBatch(remaining, size), size)
  }

  /** Pacing takes the ceiling of attempts over batch size. */
  lemma {:induction false} BatchesIsCeiling(n: nat, size: nat)
    requires size > 0
    ensures BatchesFor(n, size) == CeilDiv(n, size)
  {
    if n <= size {
      if n == 0 { DivModUnique(size - 1, size, 0, size - 1); } else { DivModUnique(n + size - 1, size, 1, n - 1); }
      assert n > 0 ==> BatchesFor(n - n, size) == 0;
    } else {
      BatchesIsCeiling(n - size, size);
      var q, r := (n - 1) / size, (n - 1) % size;
      assert (q + 1) * size == q * size + size;
      DivModUnique(n + size - 1, size, q + 1, r);
    }
  }

  lemma CeilBounds(a: nat, b: nat)
    requires b > 0
    ensures a <= CeilDiv(a, b) * b <= a + b - 1
    ensures a == 0 ==> CeilDiv(a, b) == 0
  {
    var n := a + b - 1;
    assert n == (n / b) * b + n % b;
    if a == 0 { DivModUnique(b - 1, b, 0, b - 1); }
  }

  lemma CeilIsLeast(a: nat, b: nat, q: nat)
    requires b > 0 && a <= q * b
    ensures CeilDiv(a, b) <= q
  {
    var n := a + b - 1;
    QuotientAtMost(n / b, q, b, n % b, n - q * b);
  }

  lemma FloorIsGreatest(a: nat, b: nat, q: nat)
    requires b > 0 && q * b <= a
    ensures q <= a / b
  {
    QuotientAtMost(q, a / b, b, a - q * b, a % b);
  }
}
