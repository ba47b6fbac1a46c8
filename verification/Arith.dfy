/** Multiplication and division facts, one solver-sized step at a time. */
module Arith {
  function Abs(n: int): nat {
    if n < 0 then -n else n
  }

  lemma MulMono(x: int, y: int, z: int)
    requires x <= y && z >= 0
    ensures x * z <= y * z
  {
  }

  lemma DivMod(n: int, d: int)
    requires d > 0
    ensures n / d * d <= n < n / d * d + d
    ensures n % d == n - n / d * d
  {
  }

  lemma QuotientIs(n: int, d: int, q: int, r: int)
    requires 0 <= r < d && n == q * d + r
    ensures n / d == q && n % d == r
  {
    var q' := n / d;
    DivMod(n, d);
    assert (q' + 1) * d == q' * d + d && (q + 1) * d == q * d + d;
    if q > q' { MulMono(q' + 1, q, d); }
    if q < q' { MulMono(q + 1, q', d); }
  }

  /** n / d >= q exactly when q * d fits in n. */
  lemma QuotientAtLeast(n: int, d: int, q: int)
    requires d > 0
    ensures n / d >= q <==> q * d <= n
  {
    DivMod(n, d);
    if n / d >= q { MulMono(q, n / d, d); }
    if n / d < q {
      MulMono(n / d + 1, q, d);
      assert (n / d + 1) * d == n / d * d + d;
    }
  }

  lemma AbsProduct(a: int, b: int)
    ensures Abs(a * b) == Abs(a) * Abs(b)
    ensures a * b < 0 ==> (a < 0) != (b < 0)
    ensures a * b > 0 ==> (a < 0) == (b < 0)
  {
    if a < 0 { assert (-a) * b == -(a * b); }
    if b < 0 { assert a * (-b) == -(a * b); }
    if a < 0 && b < 0 { assert (-a) * (-b) == a * b; }
    var A, B: nat := Abs(a), Abs(b);
    MulMono(0, A, B);
  }

  /** a / d rounded to the nearest integer, halves away from zero. */
  function RoundDiv(a: int, d: int): int
    requires d != 0
  {
    var q: int := RoundQuo(Abs(a), Abs(d));
    if (a < 0) == (d < 0) then q else -q
  }

  function RoundQuo(n: nat, d: nat): nat
    requires d > 0
  {
    (2 * n + d) / (2 * d)
  }

  /** Rounding up exactly when the remainder is at least half the divisor. */
  lemma RoundQuoFloor(n: nat, d: nat)
    requires d > 0
    ensures RoundQuo(n, d) == if n % d * 2 >= d then n / d + 1 else n / d
  {
    var q, r := n / d, n % d;
    DivMod(n, d);
    if r * 2 >= d {
      assert (q + 1) * (2 * d) == 2 * (q * d) + 2 * d;
      QuotientIs(2 * n + d, 2 * d, q + 1, 2 * r - d);
    } else {
      assert q * (2 * d) == 2 * (q * d);
      QuotientIs(2 * n + d, 2 * d, q, 2 * r + d);
    }
  }

  /** The nearest integer, and the farther one of two equally near. */
  lemma RoundQuoNearest(n: nat, d: nat)
    requires d > 0
    ensures var q := RoundQuo(n, d);
            2 * Abs(n - q * d) <= d && (2 * Abs(n - q * d) == d ==> q * d > n)
  {
    RoundQuoFloor(n, d);
    DivMod(n, d);
    assert (n / d + 1) * d == n / d * d + d;
  }

  lemma RoundDivNearest(a: int, d: int)
    requires d != 0
    ensures var e := Abs(a - RoundDiv(a, d) * d);
            2 * e <= Abs(d) && (2 * e == Abs(d) ==> Abs(RoundDiv(a, d) * d) > Abs(a))
  {
    var q: int, D: int := RoundQuo(Abs(a), Abs(d)), Abs(d);
    RoundQuoNearest(Abs(a), D);
    Negate(q, d);
    assert RoundDiv(a, d) * d == if a < 0 then -(q * D) else q * D;
  }

  lemma Negate(x: int, y: int)
    ensures (-x) * y == -(x * y) && x * (-y) == -(x * y)
  {
  }

  lemma RoundDivMultiple(v: int, f: int)
    requires f > 0
    ensures RoundDiv(v * f, f) == v
  {
    AbsProduct(v, f);
    RoundQuoFloor(Abs(v * f), f);
    QuotientIs(Abs(v) * f, f, Abs(v), 0);
    if v == 0 { assert v * f == 0; }
    if v > 0 { MulMono(1, v, f); }
    if v < 0 { MulMono(v, -1, f); }
  }

  lemma CancelStep(n: nat, d: nat, k: nat)
    requires d > 0 && k > 0
    ensures d * k > 0 && (n * k) / (d * k) == n / d
  {
    var q, r := n / d, n % d;
    DivMod(n, d);
    MulMono(1, k, d);
    MulMono(r + 1, d, k);
    MulMono(0, r, k);
    Regroup(q, d, r, k);
    QuotientIs(n * k, d * k, q, r * k);
  }

  lemma Regroup(q: int, d: int, r: int, k: int)
    ensures (q * d + r) * k == q * (d * k) + r * k
    ensures (r + 1) * k == r * k + k
  {
    assert (q * d) * k == q * (d * k);
  }

  /** A factor shared by dividend and divisor cancels. */
  lemma RoundQuoCancel(n: nat, d: nat, k: nat)
    requires d > 0 && k > 0
    ensures d * k > 0 && RoundQuo(n * k, d * k) == RoundQuo(n, d)
  {
    MulMono(1, k, d);
    CancelStep(2 * n + d, 2 * d, k);
    assert (2 * n + d) * k == 2 * (n * k) + d * k && (2 * d) * k == 2 * (d * k);
  }
}
