/** The fixed-point decimal of fixed/fixed.go: an int64 scaled by 1e8. */
module Fixed {
  import opened Wrappers
  import opened Arith
  import opened Machine

  const EXP: nat := 8
  const SCALE: int := 100_000_000

  /** A Go panic is a result of its own. */
  datatype Result = Ok(d: int64) | ErrSyntax | ErrRange | ErrDivByZero | Panic

  /** Go's truncated division and remainder, for a positive divisor. */
  function Quo(n: int, d: int): int
    requires d > 0
  {
    if n < 0 then -((-n) / d) else n / d
  }

  function Rem(n: int, d: int): int
    requires d > 0
  {
    n - Quo(n, d) * d
  }

  /** Negation: the minimum is its own negative. */
  function Neg64(v: int64): int64 {
    if v == MIN_INT64 then v else -v
  }

  function Abs64(v: int64): int64 {
    if v < 0 then Neg64(v) else v
  }

  function Sign64(v: int64): int64 {
    if v < 0 then -1 else 1
  }

  /** uint64(v). */
  function AsU64(v: int64): u64 {
    v % TWO_64
  }

  /** uint64(abs64(v)): the wrap at the minimum gives its magnitude back. */
  function Mag(v: int64): (m: u64)
    ensures m == Abs(v) <= TWO_63
  {
    AsU64(Abs64(v))
  }

  /** int64(u). */
  function AsInt64(u: u64): int64 {
    Wrap(u)
  }

  /** bits.Mul64: the high and low words of the product. */
  function Mul64(x: u64, y: u64): (r: (u64, u64))
    ensures r.0 * TWO_64 + r.1 == x * y
  {
    MulBound(x, y);
    var p := x * y;
    (p / TWO_64, p % TWO_64)
  }

  lemma MulBound(x: u64, y: u64)
    ensures 0 <= x * y <= (TWO_64 - 1) * (TWO_64 - 1)
  {
    MulMono(x, TWO_64 - 1, y);
    MulMono(0, x, y);
  }

  // --------------------------------------------------------------- mulDiv

  /** bits.Div64 and the rounding after it: the quotient of hi * 2^64 + lo, one
      up when the remainder is at least half; `q++` wraps like any uint64. */
  function DivRound(hi: u64, lo: u64, uc: u64): u64
    requires 0 < uc <= TWO_63 && hi < uc
  {
    QuotientAtLeast(hi * TWO_64 + lo, uc, TWO_64);
    var q, r := (hi * TWO_64 + lo) / uc, (hi * TWO_64 + lo) % uc;
    if r * 2 % TWO_64 >= uc then (q + 1) % TWO_64 else q
  }

  /** The tail of `mulDiv`: no room above 2^63 - 1, then the sign. */
  function Narrow(q: u64, neg: bool): Option<int64> {
    if q > MAX_INT64 then None
    else if neg then Some(Neg64(AsInt64(q)))
    else Some(AsInt64(q))
  }

  /** `mulDiv`; None is a panic. */
  function MulDiv(a: int64, b: int64, c: int64): Option<int64> {
    if c == 0 then None
    else
      var neg := ((a < 0) != (b < 0)) != (c < 0);
      var hl := Mul64(Mag(a), Mag(b));
      if hl.0 >= Mag(c) then BigMulDiv(a, b, Abs64(c))
      else Narrow(DivRound(hl.0, hl.1, Mag(c)), neg)
  }

  /** `bigMulDiv`, on unbounded integers. */
  function BigMulDiv(a: int64, b: int64, c: int64): Option<int64>
    requires c != 0
  {
    var neg := ((a < 0) != (b < 0)) != (c < 0);
    BigNarrow(BigDivRound(Product(a, b), Abs(c)), neg)
  }

  function BigDivRound(p: nat, d: nat): nat
    requires d > 0
  {
    if p % d * 2 >= d then p / d + 1 else p / d
  }

  function BigNarrow(q: int, neg: bool): Option<int64> {
    var q' := if neg then -q else q;
    if MIN_INT64 <= q' <= MAX_INT64 then Some(q') else None
  }

  /** The magnitude of a * b. */
  function Product(a: int, b: int): nat {
    Abs(a) * Abs(b)
  }

  function Mul(d: int64, o: int64): Option<int64> {
    MulDiv(d, o, SCALE)
  }

  function DivErr(d: int64, o: int64): Result {
    if o == 0 then ErrDivByZero
    else
      match MulDiv(d, SCALE, o)
      case Some(q) => Ok(q)
      case None => Panic
  }

  lemma DivRoundExact(p: nat, hi: u64, lo: u64, uc: u64)
    requires 0 < uc <= TWO_63 && p == hi * TWO_64 + lo
    ensures hi >= uc <==> p / uc >= TWO_64
    ensures hi < uc ==> DivRound(hi, lo, uc) == RoundQuo(p, uc) % TWO_64 && RoundQuo(p, uc) <= TWO_64
    ensures p / uc >= TWO_64 ==> BigDivRound(p, uc) == RoundQuo(p, uc) >= TWO_64
  {
    QuotientAtLeast(p, uc, TWO_64);
    RoundQuoFloor(p, uc);
    DivMod(p, uc);
    hide RoundQuo;
    if hi < uc { RoundWord(p / uc, p % uc, uc); }
  }

  /** Doubling a remainder does not wrap, so only the last step of a rounding can. */
  lemma RoundWord(q: nat, r: nat, uc: u64)
    requires 0 <= r < uc <= TWO_63 && q < TWO_64
    ensures (if r * 2 % TWO_64 >= uc then (q + 1) % TWO_64 else q) == (if r * 2 >= uc then q + 1 else q) % TWO_64
  {
  }

  lemma Words(a: int64, b: int64, c: int64)
    requires c != 0
    ensures var hl := Mul64(Mag(a), Mag(b));
            Product(a, b) == hl.0 * TWO_64 + hl.1 
  {
  }

  /** The fallback is entered exactly for quotients of at least 2^64, and never
      returns a value. */
  lemma FallbackPanics(a: int64, b: int64, c: int64)
    requires c != 0
    ensures Mul64(Mag(a), Mag(b)).0 >= Mag(c) <==> Product(a, b) / Abs(c) >= TWO_64
    ensures Product(a, b) / Abs(c) >= TWO_64 ==> BigMulDiv(a, b, Abs64(c)) == None && MulDiv(a, b, c) == None
  {
    var hl := Mul64(Mag(a), Mag(b));
    Words(a, b, c);
    DivRoundExact(Product(a, b), hl.0, hl.1, Mag(c));
  }

  lemma NarrowExact(q: nat, neg: bool)
    requires q <= TWO_64
    ensures Narrow(q % TWO_64, neg) == if q <= MAX_INT64 then Some(if neg then 0 - q else q)
                                       else if q == TWO_64 then Some(0) else None
  {
  }

  /** What is left of a quotient whose unsigned rounding is q. */
  predicate ResultOf(m: Option<int64>, q: nat, fits64: bool, neg: bool) {
    m == if q <= MAX_INT64 then Some(if neg then 0 - q else q)
         else if q == TWO_64 && fits64 then Some(0)
         else None
  }

  lemma CoreExact(p: nat, hi: u64, lo: u64, uc: u64, neg: bool)
    requires 0 < uc <= TWO_63 && p == hi * TWO_64 + lo
    ensures hi < uc ==> ResultOf(Narrow(DivRound(hi, lo, uc), neg), RoundQuo(p, uc), p / uc < TWO_64, neg)
    ensures hi >= uc ==> ResultOf(None, RoundQuo(p, uc), p / uc < TWO_64, neg)
  {
    DivRoundExact(p, hi, lo, uc);
    if hi < uc { NarrowExact(RoundQuo(p, uc), neg); }
  }

  lemma Finish(m: Option<int64>, big: Option<int64>, p: nat, hi: u64, lo: u64, uc: u64, neg: bool)
    requires 0 < uc <= TWO_63 && p == hi * TWO_64 + lo
    requires m == if hi >= uc then big else Narrow(DivRound(hi, lo, uc), neg)
    requires p / uc >= TWO_64 ==> big == None
    ensures ResultOf(m, RoundQuo(p, uc), p / uc < TWO_64, neg)
  {
    CoreExact(p, hi, lo, uc, neg);
    DivRoundExact(p, hi, lo, uc);
  }

  /** In unsigned terms: a rounded quotient below 2^63 comes back with its sign,
      one of exactly 2^64 reached by rounding up wraps to 0, others panic. */
  lemma UnsignedResult(a: int64, b: int64, c: int64)
    requires c != 0
    ensures ResultOf(MulDiv(a, b, c), RoundQuo(Product(a, b), Abs(c)), Product(a, b) / Abs(c) < TWO_64,
                     ((a < 0) != (b < 0)) != (c < 0))
  {
    var hl := Mul64(Mag(a), Mag(b));
    FallbackPanics(a, b, c);
    Words(a, b, c);
    Finish(MulDiv(a, b, c), BigMulDiv(a, b, Abs64(c)), Product(a, b), hl.0, hl.1, Mag(c),
           ((a < 0) != (b < 0)) != (c < 0));
  }

  /** The wrapped corner: the true quotient rounds up from 2^64 - 1. */
  predicate RoundsUpTo64(a: int64, b: int64, c: int64)
    requires c != 0
  {
    var p, d := Product(a, b), Abs(c);
    p / d == TWO_64 - 1 && p % d * 2 >= d
  }

  /** For all operands: the rounded quotient when it is at most 2^63 - 1 in
      magnitude, and otherwise a panic, except in the one wrapped corner, where
      the answer is 0. */
  lemma MulDivExact(a: int64, b: int64, c: int64)
    requires c != 0
    ensures var exact := RoundDiv(a * b, c);
            MulDiv(a, b, c) == if Abs(exact) <= MAX_INT64 then Some(exact)
                               else if RoundsUpTo64(a, b, c) then Some(0)
                               else None
  {
    UnsignedResult(a, b, c);
    RoundQuoFloor(Product(a, b), Abs(c));
    ProductSign(a, b, c);
  }

  lemma ProductSign(a: int, b: int, c: int)
    requires c != 0
    ensures var q: int := RoundQuo(Product(a, b), Abs(c));
            RoundDiv(a * b, c) == if ((a < 0) != (b < 0)) != (c < 0) then -q else q
  {
    AbsProduct(a, b);
    if a * b == 0 { QuotientIs(Abs(c), 2 * Abs(c), 0, Abs(c)); }
  }

  /** The corner is reachable: (2^65 - 1) / 2 comes back as 0. */
  lemma WrappedCorner()
    ensures RoundDiv(253921 * 145295143558111, 2) == TWO_64
    ensures MulDiv(253921, 145295143558111, 2) == Some(0)
  {
    assert 253921 * 145295143558111 == 2 * TWO_64 - 1;
    MulDivExact(253921, 145295143558111, 2);
  }

  // ---------------------------------------------------------- exact decimals

  /** Decimal product and quotient, rounded as the methods round, of any size. */
  function DMul(a: int, b: int): int {
    RoundDiv(a * b, SCALE)
  }

  function DDiv(a: int, b: int): int
    requires b != 0
  {
    RoundDiv(a * SCALE, b)
  }

  /** The 128-bit multiply-divide gives the exact decimal whenever it fits. */
  lemma DAgrees(a: int64, b: int64)
    ensures Abs(DMul(a, b)) <= MAX_INT64 ==> Mul(a, b) == Some(DMul(a, b))
    ensures b != 0 && Abs(DDiv(a, b)) <= MAX_INT64 ==> DivErr(a, b) == Ok(DDiv(a, b))
  {
    MulDivExact(a, b, SCALE);
    if b != 0 { MulDivExact(a, SCALE, b); }
  }

  lemma RoundDivOfNat(a: nat, d: nat)
    requires d > 0
    ensures RoundDiv(a, d) == RoundQuo(a, d)
  {
  }

  /** Dividing by a whole number of units is dividing by the number. */
  lemma DivByWhole(a: int, n: nat)
    requires n >= 1
    ensures DDiv(a, n * SCALE) == RoundDiv(a, n)
  {
    RoundQuoCancel(Abs(a), n, SCALE);
    AbsProduct(a, SCALE);
  }

  // ------------------------------------------------------- venue-scaled integers

  function Pow10(n: nat): (p: int)
    ensures p >= 1
  {
    if n == 0 then 1 else 10 * Pow10(n - 1)
  }

  /** Multiply by a power of ten, refusing what leaves int64. */
  function ScaleUp(v: int64, f: u64): Result {
    var (hi, lo) := Mul64(Mag(v), f);
    if hi != 0 || lo > MAX_INT64 then ErrRange else Ok(Wrap(Sign64(v) * AsInt64(lo)))
  }

  /** Divide by a power of ten, rounding half away from zero. */
  function ScaleDown(v: int64, div: int64): int64
    requires div > 0
  {
    Nudge(v, Quo(v, div), Rem(v, div), div)
  }

  function Nudge(v: int64, q: int, r: int, div: int64): int64 {
    if Wrap(Abs64(Wrap(r)) * 2) >= div then Wrap(q + Sign64(v)) else Wrap(q)
  }

  lemma Pow10Values()
    ensures Pow10(1) == 10 && Pow10(2) == 100 && Pow10(3) == 1000 && Pow10(4) == 10_000
    ensures Pow10(5) == 100_000 && Pow10(6) == 1_000_000 && Pow10(7) == 10_000_000
    ensures Pow10(8) == 100_000_000 && Pow10(9) == 1_000_000_000 && Pow10(10) == 10_000_000_000
  {
  }

  lemma {:induction false} Pow10Bound(n: nat)
    requires n <= 10
    ensures Pow10(n) <= 10_000_000_000
  {
    Pow10Values();
  }

  function FromScaled(v: int64, decimals: int): Result {
    if decimals < 0 || decimals > 18 then ErrRange
    else if decimals <= EXP then Pow10Bound(EXP - decimals); ScaleUp(v, Pow10(EXP - decimals))
    else Pow10Bound(decimals - EXP); Ok(ScaleDown(v, Pow10(decimals - EXP)))
  }

  function ToScaled(d: int64, decimals: int): Result {
    if decimals < 0 || decimals > 18 then ErrRange
    else if decimals >= EXP then Pow10Bound(decimals - EXP); ScaleUp(d, Pow10(decimals - EXP))
    else Pow10Bound(EXP - decimals); Ok(ScaleDown(d, Pow10(EXP - decimals)))
  }

  /** n as a D, when it is one and not the minimum. */
  function Checked(n: int): Result {
    if Abs(n) <= MAX_INT64 then Ok(n) else ErrRange
  }

  lemma ScaleUpExact(v: int64, f: u64)
    ensures ScaleUp(v, f) == Checked(v * f)
  {
    AbsProduct(v, f);
    UpExact(v, f, Mul64(Mag(v), f).0, Mul64(Mag(v), f).1, v * f);
  }

  lemma UpExact(v: int64, f: u64, hi: u64, lo: u64, p: int)
    requires hi * TWO_64 + lo == Abs(p) && (p < 0 ==> v < 0) && (p > 0 ==> v > 0)
    ensures (if hi != 0 || lo > MAX_INT64 then ErrRange else Ok(Wrap(Sign64(v) * AsInt64(lo)))) == Checked(p)
  {
  }

  lemma QuoRem(v: int, div: int)
    requires div > 0
    ensures Quo(v, div) == if v < 0 then 0 - Abs(v) / div else Abs(v) / div
    ensures Rem(v, div) == if v < 0 then 0 - Abs(v) % div else Abs(v) % div
  {
    DivMod(Abs(v), div);
    Negate(Abs(v) / div, div);
  }

  lemma ScaleDownExact(v: int64, div: int64)
    requires 1 < div <= 10_000_000_000
    ensures ScaleDown(v, div) == RoundDiv(v, div)
  {
    var q, r := Abs(v) / div, Abs(v) % div;
    QuoRem(v, div);
    RoundQuoFloor(Abs(v), div);
    assert q <= Abs(v) / 2 && q >= 0 && 0 <= r < div by {
      DivMod(Abs(v), div);
      MulMono(2, div, q);
      QuotientAtLeast(Abs(v), div, 0);
    }
    DownExact(v, div, q, r);
  }

  lemma DownExact(v: int64, div: int64, q: int, r: int)
    requires 1 < div <= 10_000_000_000 && 0 <= q <= Abs(v) / 2 && 0 <= r < div
    ensures var up := if r * 2 >= div then q + 1 else q;
            if v < 0 then Nudge(v, 0 - q, 0 - r, div) == 0 - up else Nudge(v, q, r, div) == up
  {
  }

  /** Both conversions: exact or refused towards more places, rounded half away
      from zero towards fewer. */
  lemma ScaledMeaning(v: int64, decimals: int)
    ensures FromScaled(v, decimals) ==
            if decimals < 0 || decimals > 18 then ErrRange
            else if decimals > EXP then Checked(RoundDiv(v, Pow10(decimals - EXP)))
            else Checked(v * Pow10(EXP - decimals))
    ensures ToScaled(v, decimals) ==
            if decimals < 0 || decimals > 18 then ErrRange
            else if decimals < EXP then Checked(RoundDiv(v, Pow10(EXP - decimals)))
            else Checked(v * Pow10(decimals - EXP))
    ensures EXP < decimals <= 18 ==> FromScaled(v, decimals).Ok?
    ensures 0 <= decimals < EXP ==> ToScaled(v, decimals).Ok?
  {
    if 0 <= decimals <= 18 {
      var k := if decimals <= EXP then EXP - decimals else decimals - EXP;
      Pow10Bound(k);
      ScaleUpExact(v, Pow10(k));
      if k > 0 {
        assert Pow10(k) == 10 * Pow10(k - 1);
        ScaleDownExact(v, Pow10(k));
        RoundedShrinks(v, Pow10(k));
      }
    }
  }

  lemma RoundedShrinks(v: int64, div: int)
    requires div > 1
    ensures Abs(RoundDiv(v, div)) <= MAX_INT64
  {
    var q := Abs(v) / div;
    RoundQuoFloor(Abs(v), div);
    DivMod(Abs(v), div);
    QuotientAtLeast(Abs(v), div, 0);
    MulMono(2, div, q);
  }

  /** Scaled up and back is the original, whenever scaling up succeeds. */
  lemma ScaledRoundTrip(v: int64, decimals: int)
    ensures decimals <= EXP && FromScaled(v, decimals).Ok? ==> ToScaled(FromScaled(v, decimals).d, decimals) == Ok(v)
    ensures decimals >= EXP && ToScaled(v, decimals).Ok? ==> FromScaled(ToScaled(v, decimals).d, decimals) == Ok(v)
  {
    ScaledMeaning(v, decimals);
    if decimals <= EXP && FromScaled(v, decimals).Ok? {
      ScaledMeaning(FromScaled(v, decimals).d, decimals);
      RoundDivMultiple(v, Pow10(EXP - decimals));
    }
    if decimals >= EXP && ToScaled(v, decimals).Ok? {
      ScaledMeaning(ToScaled(v, decimals).d, decimals);
      RoundDivMultiple(v, Pow10(decimals - EXP));
    }
  }

  /** What product and quotient are, in units of 1e-8: within half a unit of the exact
      ones whenever the nearest fits, and no quotient by zero. */
  lemma {:induction false} DNearest(a: int64, b: int64)
    ensures Abs(DMul(a, b)) <= MAX_INT64 ==>
              Mul(a, b).Some? && 2 * Abs(Mul(a, b).value * 100_000_000 - a * b) <= 100_000_000
    ensures DivErr(a, b) == ErrDivByZero <==> b == 0
    ensures b != 0 && Abs(DDiv(a, b)) <= MAX_INT64 ==>
              DivErr(a, b).Ok? && 2 * Abs(DivErr(a, b).d * b - a * 100_000_000) <= Abs(b)
  {
    DAgrees(a, b);
    RoundDivNearest(a * b, SCALE);
    if b != 0 { RoundDivNearest(a * SCALE, b); }
    hide RoundDiv, MulDiv;
  }
}
