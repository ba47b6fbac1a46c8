/** The decimal text of fixed/fixed.go: `Parse` and `String`. Text is ASCII. */
module Decimal {
  import opened Machine
  import opened Arith
  import opened Fixed

  // ------------------------------------------------------------ Go's strconv

  predicate IsDigit(c: char) {
    '0' <= c <= '9'
  }

  predicate IsSpace(c: char) {
    c == ' ' || '\t' <= c <= '\r'
  }

  predicate AllDigits(s: string) {
    forall i :: 0 <= i < |s| ==> IsDigit(s[i])
  }

  function DigitValue(c: char): nat
    requires IsDigit(c)
  {
    (c as int) - ('0' as int)
  }

  datatype Scan = Num(n: nat) | BadSyntax | Overflow

  /** strconv.ParseUint, base 10: it stops at the first bad character or the
      first overflow of 64 bits, whichever comes first. */
  function ScanDigits(s: string, n: nat): Scan {
    if s == "" then Num(n)
    else if !IsDigit(s[0]) then BadSyntax
    else if n * 10 + DigitValue(s[0]) >= TWO_64 then Overflow
    else ScanDigits(s[1..], n * 10 + DigitValue(s[0]))
  }

  /** strconv.ParseInt(s, 10, 64). */
  function ParseInt(s: string): Result {
    if s == "" then ErrSyntax
    else
      var neg := s[0] == '-';
      var digits := if s[0] == '-' || s[0] == '+' then s[1..] else s;
      if digits == "" then ErrSyntax
      else
        match ScanDigits(digits, 0)
        case BadSyntax => ErrSyntax
        case Overflow => ErrRange
        case Num(n) =>
          if !neg && n >= TWO_63 then ErrRange
          else if neg && n > TWO_63 then ErrRange
          else Ok(if neg then 0 - n else n)
  }

  /** Decimal digits of n, without leading zeros. */
  function Digits(n: nat): (s: string)
    ensures s != "" && AllDigits(s)
  {
    if n < 10 then [('0' as int + n) as char] else Digits(n / 10) + [('0' as int + n % 10) as char]
  }

  function Zeros(k: nat): (s: string)
    ensures |s| == k && AllDigits(s)
  {
    seq(k, i => '0')
  }

  /** strconv.FormatInt(n, 10). */
  function FormatInt(n: int): string {
    if n < 0 then "-" + Digits(-n) else Digits(n)
  }

  /** fmt.Sprintf("%0*d", width, n): the sign counts towards the width. */
  function PadInt(n: int, width: nat): string {
    if n < 0 then "-" + PadDigits(Digits(-n), width - 1) else PadDigits(Digits(n), width)
  }

  function PadDigits(s: string, width: int): (p: string)
    ensures |s| >= width ==> p == s
    ensures |s| < width ==> |p| == width
    ensures AllDigits(s) ==> AllDigits(p)
  {
    if |s| >= width then s else Zeros(width - |s|) + s
  }

  function TrimRightZeros(s: string): string {
    if s != "" && s[|s| - 1] == '0' then TrimRightZeros(s[..|s| - 1]) else s
  }

  function TrimLeftSpace(s: string): string {
    if s != "" && IsSpace(s[0]) then TrimLeftSpace(s[1..]) else s
  }

  function TrimSpace(s: string): string {
    TrimRightSpace(TrimLeftSpace(s))
  }

  function TrimRightSpace(s: string): string {
    if s != "" && IsSpace(s[|s| - 1]) then TrimRightSpace(s[..|s| - 1]) else s
  }

  /** strings.Cut(s, "."): what is before the first point and what is after. */
  function Cut(s: string): (string, string) {
    if s == "" then ("", "")
    else if s[0] == '.' then ("", s[1..])
    else
      var (before, after) := Cut(s[1..]);
      ([s[0]] + before, after)
  }

  // ------------------------------------------------------------ Parse, String

  function Parse(text: string): Result {
    var s := TrimSpace(text);
    if s == "" then ErrSyntax
    else
      var (whole, frac) := Cut(if s[0] == '-' || s[0] == '+' then s[1..] else s);
      ParseParts(s[0] == '-', whole, frac)
  }

  function ParseParts(neg: bool, whole: string, frac: string): Result {
    if whole == "" && frac == "" then ErrSyntax
    else if |frac| > EXP then ErrRange
    else
      match (if whole == "" then Ok(0) else ParseInt(whole))
      case ErrRange => ErrRange
      case Ok(w) =>
        if w < 0 then ErrSyntax
        else
          (match if frac == "" then Ok(0) else ParseInt(frac)
           case Ok(f) => if f < 0 then ErrSyntax else Assemble(neg, w, f, EXP - |frac|)
           case _ => ErrSyntax)
      case _ => ErrSyntax
  }

  /** whole * 1e8 + frac * 10^shift, if it fits, with the sign. */
  function Assemble(neg: bool, whole: int64, frac: int64, shift: nat): Result
    requires whole >= 0 && frac >= 0 && shift <= EXP
  {
    AddUp(neg, whole, Wrap(frac * Pow10(shift)))
  }

  function AddUp(neg: bool, whole: int64, f: int64): Result
    requires whole >= 0
  {
    var hl := Mul64(whole, SCALE);
    if hl.0 != 0 || hl.1 > (MAX_INT64 - AsU64(f)) % TWO_64 then ErrRange
    else
      var out := Wrap(hl.1 + f);
      Ok(if neg then Neg64(out) else out)
  }

  /** `D.String`. The minimum stays negative after `v = -v`. */
  function ToString(d: int64): string {
    var sign := if d < 0 then "-" else "";
    var v := if d < 0 then Neg64(d) else d;
    var whole, frac := Quo(v, SCALE), Rem(v, SCALE);
    if frac == 0 then sign + FormatInt(whole)
    else sign + FormatInt(whole) + "." + TrimRightZeros(PadInt(frac, EXP))
  }

  // ---------------------------------------------------------------- meanings

  function Value(s: string, acc: nat): nat
    requires AllDigits(s)
  {
    if s == "" then acc else Value(s[1..], acc * 10 + DigitValue(s[0]))
  }

  lemma {:induction false} ValueConcat(a: string, b: string, acc: nat)
    requires AllDigits(a) && AllDigits(b)
    ensures AllDigits(a + b) && Value(a + b, acc) == Value(b, Value(a, acc))
  {
    if a == "" {
      assert a + b == b;
    } else {
      ValueConcat(a[1..], b, acc * 10 + DigitValue(a[0]));
      assert (a + b)[1..] == a[1..] + b;
    }
  }

  lemma {:induction false} ValueDigits(n: nat)
    ensures Value(Digits(n), 0) == n
  {
    if n >= 10 {
      ValueDigits(n / 10);
      ValueConcat(Digits(n / 10), [('0' as int + n % 10) as char], 0);
    }
  }

  lemma {:induction false} ValueZeros(k: nat, acc: nat)
    ensures Value(Zeros(k), acc) == acc * Pow10(k)
  {
    if k > 0 {
      ValueZeros(k - 1, acc * 10);
      assert Zeros(k)[1..] == Zeros(k - 1);
      assert acc * 10 * Pow10(k - 1) == acc * (10 * Pow10(k - 1));
    }
  }

  lemma {:induction false} ValueGrows(s: string, acc: nat)
    requires AllDigits(s)
    ensures Value(s, acc) >= acc
  {
    if s != "" { ValueGrows(s[1..], acc * 10 + DigitValue(s[0])); }
  }

  lemma {:induction false} ScanReads(s: string, acc: nat)
    requires AllDigits(s) && Value(s, acc) < TWO_64
    ensures ScanDigits(s, acc) == Num(Value(s, acc))
  {
    if s != "" {
      ValueGrows(s[1..], acc * 10 + DigitValue(s[0]));
      ScanReads(s[1..], acc * 10 + DigitValue(s[0]));
    }
  }

  lemma {:induction false} ParseIntReads(s: string)
    requires s != "" && AllDigits(s) && Value(s, 0) < TWO_63
    ensures ParseInt(s) == Ok(Value(s, 0))
  {
    assert IsDigit(s[0]);
    ScanReads(s, 0);
  }

  lemma {:induction false} TrimmedPrefix(s: string)
    requires AllDigits(s)
    ensures var t := TrimRightZeros(s);
            |t| <= |s| && s == t + Zeros(|s| - |t|) && AllDigits(t) && (t != "" ==> t[|t| - 1] != '0')
  {
    if s != "" && s[|s| - 1] == '0' {
      TrimmedPrefix(s[..|s| - 1]);
      var t := TrimRightZeros(s);
      assert s == s[..|s| - 1] + ['0'];
      assert Zeros(|s| - |t|) == Zeros(|s| - 1 - |t|) + ['0'];
    } else {
      assert s == s + Zeros(0);
    }
  }

  lemma {:induction false} DigitsLength(n: nat, k: nat)
    requires k > 0 && n < Pow10(k)
    ensures |Digits(n)| <= k
  {
    assert Pow10(0) == 1;
    if n >= 10 {
      assert Pow10(k) == 10 * Pow10(k - 1);
      DigitsLength(n / 10, k - 1);
    }
  }

  lemma {:induction false} CutAt(a: string, b: string)
    requires '.' !in a
    ensures Cut(a + "." + b) == (a, b) && Cut(a) == (a, "")
  {
    if a != "" {
      CutAt(a[1..], b);
      assert (a + "." + b)[1..] == a[1..] + "." + b;
      assert [a[0]] + a[1..] == a;
    } else {
      assert a + "." + b == "." + b;
      assert ("." + b)[1..] == b;
    }
  }

  /** The eight padded digits of a non-zero fraction, trimmed. */
  lemma {:induction false} FractionText(frac: nat)
    requires 0 < frac < SCALE
    ensures var t := TrimRightZeros(PadInt(frac, EXP));
            && 0 < |t| <= EXP && AllDigits(t) && t[|t| - 1] != '0'
            && Value(t, 0) * Pow10(EXP - |t|) == frac
  {
    Pow10Values();
    DigitsLength(frac, EXP);
    var p := PadInt(frac, EXP);
    var pad := EXP - |Digits(frac)|;
    ValueDigits(frac);
    ValueZeros(pad, 0);
    ValueZeros(EXP, 0);
    ValueConcat(Zeros(pad), Digits(frac), 0);
    assert p == Zeros(pad) + Digits(frac);
    assert Value(p, 0) == frac;
    var t := TrimRightZeros(p);
    TrimmedPrefix(p);
    ValueConcat(t, Zeros(EXP - |t|), 0);
    ValueZeros(EXP - |t|, Value(t, 0));
  }

  lemma {:induction false} AddUpExact(neg: bool, whole: nat, f: nat)
    requires whole * SCALE + f <= MAX_INT64 && f < SCALE
    ensures AddUp(neg, whole, f) == Ok(if neg then 0 - (whole * SCALE + f) else whole * SCALE + f)
  {
    var hl := Mul64(whole, SCALE);
    assert hl.0 == 0 && hl.1 == whole * SCALE;
  }

  /** The text of a value other than the minimum, piece by piece. */
  function Body(v: nat): string {
    if v % SCALE == 0 then Digits(v / SCALE)
    else Digits(v / SCALE) + "." + TrimRightZeros(PadInt(v % SCALE, EXP))
  }

  lemma {:induction false} ToStringIs(d: int64)
    requires d != MIN_INT64
    ensures ToString(d) == (if d < 0 then "-" else "") + Body(Abs(d))
  {
    var sign := if d < 0 then "-" else "";
    var v := Abs(d);
    if v % SCALE != 0 {
      var a, b := Digits(v / SCALE), TrimRightZeros(PadInt(v % SCALE, EXP));
      assert sign + a + "." + b == sign + (a + "." + b);
    }
  }

  lemma {:induction false} BodyShape(v: nat)
    ensures var s := Body(v);
            s != "" && IsDigit(s[0]) && IsDigit(s[|s| - 1])
  {
    if v % SCALE != 0 { FractionText(v % SCALE); }
  }

  lemma {:induction false} Untrimmed(s: string)
    requires s != "" && !IsSpace(s[0]) && !IsSpace(s[|s| - 1])
    ensures TrimSpace(s) == s
  {
  }

  lemma {:induction false} ParseSigned(neg: bool, body: string)
    requires body != "" && (neg || body[0] !in "+-") && !IsSpace(body[0]) && !IsSpace(body[|body| - 1])
    ensures Parse((if neg then "-" else "") + body) == ParseParts(neg, Cut(body).0, Cut(body).1)
  {
    var sign := if neg then "-" else "";
    var s := sign + body;
    assert s[|s| - 1] == body[|body| - 1];
    Untrimmed(s);
    assert s[|sign|..] == body;
  }

  lemma {:induction false} BodyParts(neg: bool, v: nat)
    requires v <= MAX_INT64
    ensures ParseParts(neg, Cut(Body(v)).0, Cut(Body(v)).1) == Ok(if neg then 0 - v else v)
  {
    var w, f := v / SCALE, v % SCALE;
    ValueDigits(w);
    ParseIntReads(Digits(w));
    if f == 0 {
      CutAt(Digits(w), "");
      AddUpExact(neg, w, 0);
    } else {
      FractionText(f);
      CutAt(Digits(w), TrimRightZeros(PadInt(f, EXP)));
      FractionParts(neg, w, f, TrimRightZeros(PadInt(f, EXP)));
    }
  }

  lemma {:induction false} FractionParts(neg: bool, w: nat, f: nat, t: string)
    requires w * SCALE + f <= MAX_INT64 && f < SCALE
    requires 0 < |t| <= EXP && AllDigits(t) && Value(t, 0) * Pow10(EXP - |t|) == f
    requires ParseInt(Digits(w)) == Ok(w)
    ensures ParseParts(neg, Digits(w), t) == Ok(if neg then 0 - (w * SCALE + f) else w * SCALE + f)
  {
    MulMono(1, Pow10(EXP - |t|), Value(t, 0));
    ParseIntReads(t);
    AddUpExact(neg, w, f);
  }

  /** Printing and reading back is the identity, except at the minimum, whose
      text is not a number. */
  lemma {:induction false} RoundTrip(d: int64)
    ensures Parse(ToString(d)) == Ok(d) <==> d != MIN_INT64
    ensures d == MIN_INT64 ==> Parse(ToString(d)) == ErrRange
  {
    if d != MIN_INT64 {
      ToStringIs(d);
      BodyShape(Abs(d));
      ParseSigned(d < 0, Body(Abs(d)));
      BodyParts(d < 0, Abs(d));
    } else {
      MinimumText(d);
    }
  }

  lemma {:induction false} MinimumText(d: int64)
    requires d == MIN_INT64
    ensures Parse(ToString(d)) == ErrRange
  {
    var whole, frac := Quo(d, SCALE), Rem(d, SCALE);
    assert whole < 0 && frac == -54775808;
    MinimumFraction();
    LongFraction(FormatInt(whole), TrimRightZeros(PadInt(frac, EXP)));
  }

  lemma {:induction false} LongFraction(a: string, b: string)
    requires a != "" && '.' !in a && !IsSpace(a[0])
    requires |b| > EXP && !IsSpace(b[|b| - 1])
    ensures Parse("-" + a + "." + b) == ErrRange
  {
    var body := a + "." + b;
    assert "-" + a + "." + b == "-" + body;
    assert body[|body| - 1] == b[|b| - 1] && body[0] == a[0];
    CutAt(a, b);
    ParseSigned(true, body);
  }

  lemma {:induction false} DigitsAtLeast(n: nat, k: nat)
    requires n >= Pow10(k)
    ensures |Digits(n)| > k
  {
    if k > 0 {
      assert n / 10 >= Pow10(k - 1);
      DigitsAtLeast(n / 10, k - 1);
    }
  }

  lemma {:induction false} MinimumFraction()
    ensures var b := TrimRightZeros(PadInt(-54775808, EXP));
            |b| > EXP && b[|b| - 1] == '8'
  {
    Pow10Values();
    DigitsAtLeast(54775808, 7);
    var p := "-" + Digits(54775808);
    assert p[|p| - 1] == '8';
    assert PadInt(-54775808, EXP) == p;
  }

  /** Values print differently when they differ, the minimum aside. */
  lemma {:induction false} StringInjective(d: int64, e: int64)
    requires d != MIN_INT64 && e != MIN_INT64
    ensures ToString(d) == ToString(e) <==> d == e
  {
    RoundTrip(d);
    RoundTrip(e);
  }

  /** Canonical text: a sign only for negative values, no leading zero, and a
      fraction of one to eight digits that does not end in zero, or none. */
  predicate Canonical(s: string) {
    CanonicalBody(if s != "" && s[0] == '-' then s[1..] else s)
  }

  predicate CanonicalBody(u: string) {
    var (whole, frac) := Cut(u);
    && whole != "" && AllDigits(whole) && (whole[0] == '0' ==> whole == "0")
    && (u == whole || (u == whole + "." + frac && 0 < |frac| <= EXP && AllDigits(frac) && frac[|frac| - 1] != '0'))
  }

  lemma {:induction false} DigitsLead(n: nat)
    ensures Digits(n)[0] == '0' ==> Digits(n) == "0"
  {
    if n >= 10 {
      DigitsLead(n / 10);
      if Digits(n / 10) == "0" { ValueDigits(n / 10); }
    }
  }

  lemma {:induction false} StringCanonical(d: int64)
    requires d != MIN_INT64
    ensures Canonical(ToString(d))
    ensures ToString(d)[0] == '-' <==> d < 0
  {
    ToStringIs(d);
    BodyShape(Abs(d));
    BodyCanonical(Abs(d));
    assert d < 0 ==> ("-" + Body(Abs(d)))[1..] == Body(Abs(d));
    assert "" + Body(Abs(d)) == Body(Abs(d));
  }

  lemma {:induction false} BodyCanonical(v: nat)
    ensures CanonicalBody(Body(v))
  {
    DigitsLead(v / SCALE);
    CutAt(Digits(v / SCALE), "");
    if v % SCALE != 0 {
      FractionText(v % SCALE);
      CutAt(Digits(v / SCALE), TrimRightZeros(PadInt(v % SCALE, EXP)));
    }
  }

  // ------------------------------------------------------------ what text is read

  predicate AllSpaces(s: string) {
    forall i :: 0 <= i < |s| ==> IsSpace(s[i])
  }

  lemma {:induction false} TrimsLeft(pre: string, x: string)
    requires AllSpaces(pre) && x != "" && !IsSpace(x[0])
    ensures TrimLeftSpace(pre + x) == x
  {
    if pre == "" {
      assert pre + x == x;
    } else {
      TrimsLeft(pre[1..], x);
      assert (pre + x)[1..] == pre[1..] + x;
    }
  }

  lemma {:induction false} TrimsRight(x: string, post: string)
    requires AllSpaces(post) && x != "" && !IsSpace(x[|x| - 1])
    ensures TrimRightSpace(x + post) == x
  {
    if post == "" {
      assert x + post == x;
    } else {
      TrimsRight(x, post[..|post| - 1]);
      assert (x + post)[..|x + post| - 1] == x + post[..|post| - 1];
    }
  }

  lemma {:induction false} Trims(pre: string, x: string, post: string)
    requires AllSpaces(pre) && AllSpaces(post) && x != "" && !IsSpace(x[0]) && !IsSpace(x[|x| - 1])
    ensures TrimSpace(pre + x + post) == x
  {
    assert pre + x + post == pre + (x + post);
    TrimsLeft(pre, x + post);
    TrimsRight(x, post);
  }

  lemma {:induction false} ScanOverflows(s: string, acc: nat)
    requires AllDigits(s) && acc < TWO_64 <= Value(s, acc)
    ensures ScanDigits(s, acc) == Overflow
  {
    if s != "" && acc * 10 + DigitValue(s[0]) < TWO_64 { ScanOverflows(s[1..], acc * 10 + DigitValue(s[0])); }
  }

  lemma {:induction false} ParseIntIff(s: string)
    requires s != "" && AllDigits(s)
    ensures ParseInt(s) == if Value(s, 0) < TWO_63 then Ok(Value(s, 0)) else ErrRange
  {
    assert IsDigit(s[0]);
    if Value(s, 0) < TWO_64 { ScanReads(s, 0); } else { ScanOverflows(s, 0); }
  }

  lemma {:induction false} ValueBelow(s: string, acc: nat)
    requires AllDigits(s)
    ensures Value(s, acc) < (acc + 1) * Pow10(|s|)
  {
    if s != "" {
      var next := acc * 10 + DigitValue(s[0]);
      ValueBelow(s[1..], next);
      MulMono(next + 1, (acc + 1) * 10, Pow10(|s| - 1));
      assert (acc + 1) * 10 * Pow10(|s| - 1) == (acc + 1) * (10 * Pow10(|s| - 1));
    }
  }

  lemma {:induction false} FractionBelow(f: string)
    requires AllDigits(f) && |f| <= EXP
    ensures Value(f, 0) <= Value(f, 0) * Pow10(EXP - |f|) < SCALE
  {
    ValueBelow(f, 0);
    Pow10Values();
    assert Pow10(0) == 1;
    MulMono(Value(f, 0), Pow10(|f|) - 1, Pow10(EXP - |f|));
    MulMono(1, Pow10(EXP - |f|), Value(f, 0));
    assert (Pow10(|f|) - 1) * Pow10(EXP - |f|) < SCALE;
  }

  lemma AddUpIff(neg: bool, whole: int64, f: nat)
    requires whole >= 0 && f < SCALE
    ensures AddUp(neg, whole, f) == if whole * SCALE + f > MAX_INT64 then ErrRange
                                    else Ok(if neg then 0 - (whole * SCALE + f) else whole * SCALE + f)
  {
    if whole * SCALE + f <= MAX_INT64 { AddUpExact(neg, whole, f); }
  }

  /** The units of 1e-8 that a whole part and so many places of a fraction spell. */
  function Spelled(w: string, f: string, places: nat): nat
    requires AllDigits(w) && AllDigits(f) && places <= EXP
  {
    Value(w, 0) * SCALE + Value(f, 0) * Pow10(EXP - places)
  }

  lemma {:induction false} PartsRead(neg: bool, w: string, f: string)
    requires AllDigits(w) && AllDigits(f) && (w != "" || f != "")
    ensures |f| > EXP ==> ParseParts(neg, w, f) == ErrRange
    ensures |f| <= EXP ==>
              ParseParts(neg, w, f) == if Spelled(w, f, |f|) > MAX_INT64 then ErrRange
                                       else Ok(if neg then 0 - Spelled(w, f, |f|) else Spelled(w, f, |f|))
  {
    if |f| <= EXP {
      FractionBelow(f);
      if w != "" { ParseIntIff(w); }
      if f != "" { ParseIntIff(f); }
      hide Pow10, Value, ScanDigits, ParseInt, AddUp;
      if Value(w, 0) < TWO_63 { AddUpIff(neg, Value(w, 0), Value(f, 0) * Pow10(EXP - |f|)); }
    }
  }

  /** What is read from a numeral, between spaces and signed or not: the value it
      spells, exactly, with its sign, when it has at most eight places and fits;
      otherwise it is out of range. */
  lemma {:induction false} ParseReads(pre: string, sign: string, w: string, f: string, post: string)
    requires AllSpaces(pre) && AllSpaces(post) && sign in ["", "+", "-"]
    requires AllDigits(w) && AllDigits(f) && (w != "" || f != "")
    ensures Parse(pre + (sign + w + "." + f) + post)
         == if |f| > 8 then ErrRange
            else
              var v := Value(w, 0) * 100_000_000 + Value(f, 0) * Pow10(8 - |f|);
              if v > 0x7FFF_FFFF_FFFF_FFFF then ErrRange else Ok(if sign == "-" then 0 - v else v)
  {
    var x := sign + w + "." + f;
    assert x == sign + (w + "." + f);
    assert x[0] == if sign != "" then sign[0] else if w != "" then w[0] else '.';
    assert x[|x| - 1] == if f != "" then f[|f| - 1] else '.';
    Trims(pre, x, post);
    assert x[|sign|..] == w + "." + f && x != "";
    assert (if x[0] == '-' || x[0] == '+' then x[1..] else x) == w + "." + f;
    assert (x[0] == '-') == (sign == "-");
    CutAt(w, f);
    hide TrimSpace, AllSpaces, IsSpace, Cut, Value, Pow10, ParseParts;
    PartsRead(sign == "-", w, f);
  }

  /** A unit is a hundred million of the smallest. */
  lemma {:induction false} OneAndAHalf()
    ensures Parse(" +1.5") == Ok(150_000_000)
  {
    ParseReads(" ", "+", "1", "5", "");
    assert " " + ("+" + "1" + "." + "5") + "" == " +1.5";
    Pow10Values();
  }

  // ------------------------------------------------------- exactly what is read

  lemma {:induction false} ScanTakesDigits(s: string, n: nat)
    ensures ScanDigits(s, n).Num? ==> AllDigits(s)
  {
    if s != "" && IsDigit(s[0]) && n * 10 + DigitValue(s[0]) < TWO_64 {
      ScanTakesDigits(s[1..], n * 10 + DigitValue(s[0]));
      assert ScanDigits(s, n).Num? ==> s == [s[0]] + s[1..];
    }
  }

  function Unsigned(s: string): string {
    if s != "" && (s[0] == '-' || s[0] == '+') then s[1..] else s
  }

  /** A part of a numeral, before or after the point: nothing, or digits behind at most
      one sign, a minus only before zero. */
  predicate IsPart(s: string) {
    && AllDigits(Unsigned(s)) && (s != "" ==> Unsigned(s) != "")
    && (s != "" && s[0] == '-' ==> Value(Unsigned(s), 0) == 0)
  }

  lemma {:induction false} PartIff(s: string)
    requires s != ""
    ensures ParseInt(s).Ok? && ParseInt(s).d >= 0 <==> IsPart(s) && Value(Unsigned(s), 0) < TWO_63
    ensures ParseInt(s).Ok? && ParseInt(s).d >= 0 ==> ParseInt(s).d == Value(Unsigned(s), 0)
  {
    var digits := Unsigned(s);
    ScanTakesDigits(digits, 0);
    if digits != "" && AllDigits(digits) {
      if Value(digits, 0) < TWO_64 { ScanReads(digits, 0); } else { ScanOverflows(digits, 0); }
    }
    hide ScanDigits, Value;
  }

  lemma {:induction false} PartsIff(neg: bool, w: string, f: string, v: int64)
    ensures ParseParts(neg, w, f) == Ok(v) <==>
              && (w != "" || f != "") && |f| <= EXP && IsPart(w) && IsPart(f)
              && var n := Spelled(Unsigned(w), Unsigned(f), |f|); n <= MAX_INT64 && v == if neg then 0 - n else n
  {
    if |f| <= EXP && IsPart(f) { SignedFraction(f); }
    if w != "" { PartIff(w); }
    if f != "" { PartIff(f); }
    hide Pow10, Value, ScanDigits, ParseInt, AddUp, IsPart;
    if |f| <= EXP && IsPart(w) && IsPart(f) {
      assert AllDigits(Unsigned(w)) && AllDigits(Unsigned(f)) by { PartDigits(w); PartDigits(f); }
      if Value(Unsigned(w), 0) < TWO_63 { AddUpIff(neg, Value(Unsigned(w), 0), Value(Unsigned(f), 0) * Pow10(EXP - |f|)); }
    }
  }

  lemma {:induction false} SignedFraction(f: string)
    requires IsPart(f) && |f| <= EXP
    ensures Value(Unsigned(f), 0) <= Value(Unsigned(f), 0) * Pow10(EXP - |f|) < SCALE
  {
    var d := Unsigned(f);
    FractionBelow(d);
    MulMono(1, Pow10(EXP - |f|), Value(d, 0));
    if |d| < |f| {
      assert Pow10(EXP - |d|) == 10 * Pow10(EXP - |f|);
      MulMono(Pow10(EXP - |f|), Pow10(EXP - |d|), Value(d, 0));
    }
  }

  lemma PartDigits(s: string)
    ensures IsPart(s) ==> AllDigits(Unsigned(s))
  {
  }

  /** Exactly what is read, of all texts: after the spaces around it and one sign, a
      whole part and a fraction of at most eight characters, not both empty, that fit.
      Either part may have a sign of its own, and the fraction's counts as a place. */
  lemma {:induction false} ParseIff(text: string, v: int64)
    ensures Parse(text) == Ok(v) <==>
              var s := TrimSpace(text);
              && s != ""
              && var (w, f) := Cut(Unsigned(s));
                 && (w != "" || f != "") && |f| <= 8 && IsPart(w) && IsPart(f)
                 && var n := Value(Unsigned(w), 0) * 100_000_000 + Value(Unsigned(f), 0) * Pow10(8 - |f|);
                    n <= 0x7FFF_FFFF_FFFF_FFFF && v == if s[0] == '-' then 0 - n else n
  {
    var s := TrimSpace(text);
    if s != "" {
      var (w, f) := Cut(Unsigned(s));
      PartsIff(s[0] == '-', w, f, v);
      hide ParseParts, TrimSpace, Cut, Value, Pow10, IsPart;
    }
  }

  lemma {:induction false} SignBeforeWhole()
    ensures Parse("-+5") == Ok(-500_000_000)
  {
    assert Unsigned("+5") == "5" && Unsigned("") == "" && Value("5", 0) == 5 && Value("", 0) == 0;
    PartsIff(true, "+5", "", -500_000_000);
    hide ParseParts, Value, Pow10;
    assert "" + "-+5" + "" == "-+5" && "-+5"[1..] == "+5";
    Trims("", "-+5", "");
    CutAt("+5", "");
    hide TrimSpace, Cut;
  }

  lemma {:induction false} SignBeforeFraction()
    ensures Parse("1.+5") == Ok(105_000_000)
  {
    Pow10Values();
    assert Unsigned("+5") == "5" && Unsigned("1") == "1" && Value("5", 0) == 5 && Value("1", 0) == 1 && Value("", 0) == 0;
    PartsIff(false, "1", "+5", 105_000_000);
    hide ParseParts, Value, Pow10;
    assert "" + "1.+5" + "" == "1.+5" && "1.+5" == "1" + "." + "+5";
    Trims("", "1.+5", "");
    CutAt("1", "+5");
    hide TrimSpace, Cut;
  }

  /** So a second sign is read, too: minus plus five is minus five, and one point plus
      five is one and five hundredths. */
  lemma {:induction false} SecondSigns()
    ensures Parse("-+5") == Ok(-500_000_000) && Parse("1.+5") == Ok(105_000_000)
  {
    hide Parse;
    SignBeforeWhole();
    SignBeforeFraction();
  }

  /** The spaces are the six ASCII ones. */
  lemma SpacesMean(c: char)
    ensures IsSpace(c) <==> c as int in {9, 10, 11, 12, 13, 32}
  {
  }
}
