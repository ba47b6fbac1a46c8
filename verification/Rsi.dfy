/** Wilder's relative strength index of strategy/rsi.go over a trimmed buffer,
    against the unbounded recurrence. */
module Rsi {
  import opened Wrappers
  import opened Machine
  import opened Arith
  import opened Fixed
  import opened Candles

  datatype Config = Config(period: int, length: nat, oversold: int, overbought: int, history: nat)

  predicate ValidConfig(cfg: Config) {
    && cfg.length >= 2 && cfg.history >= cfg.length + 2
    && 0 < cfg.oversold < cfg.overbought < 100 * SCALE
  }

  datatype Side = Long | Short

  datatype Cross = Cross(side: Side, at: int, value: int)

  // ---------------------------------------------------- the unbounded recurrence

  function Gain(from: int, to: int): nat {
    if to - from > 0 then to - from else 0
  }

  function Loss(from: int, to: int): nat {
    if to - from > 0 then 0 else from - to
  }

  /** Sum of the rises, and of the falls, over the changes of a history. */
  function Rises(hist: seq<Candle>): nat {
    if |hist| <= 1 then 0
    else Rises(hist[..|hist| - 1]) + Gain(hist[|hist| - 2].c, hist[|hist| - 1].c)
  }

  function Falls(hist: seq<Candle>): nat {
    if |hist| <= 1 then 0
    else Falls(hist[..|hist| - 1]) + Loss(hist[|hist| - 2].c, hist[|hist| - 1].c)
  }

  datatype Averages = Averages(gain: nat, loss: nat)

  /** What is left of an average after one change: (length - 1) shares of it. */
  function Kept(avg: nat, length: nat): nat
    requires length >= 1
  {
    avg * (length - 1)
  }

  /** A new change blended in with weight 1/length, rounded half away from zero. */
  function Blend(avg: nat, change: nat, length: nat): nat
    requires length >= 1
  {
    RoundQuo(Kept(avg, length) + change, length)
  }

  function Wilder(hist: seq<Candle>, length: nat): Averages
    requires length >= 1 && |hist| > length
  {
    if |hist| == length + 1
    then Averages(RoundQuo(Rises(hist), length), RoundQuo(Falls(hist), length))
    else
      var a := Wilder(hist[..|hist| - 1], length);
      var (from, to) := (hist[|hist| - 2].c, hist[|hist| - 1].c);
      Averages(Blend(a.gain, Gain(from, to), length), Blend(a.loss, Loss(from, to), length))
  }

  const HUNDRED: int := 100 * SCALE

  /** 100 - 100 / (1 + gain / loss) in fixed point. */
  function RsiOf(a: Averages): int {
    if a.loss == 0 && a.gain == 0 then 50 * SCALE
    else if a.loss == 0 then HUNDRED
    else HUNDRED - RoundDiv(HUNDRED * SCALE, SCALE + RoundDiv(a.gain * SCALE, a.loss))
  }

  /** The index as of the last bar; zero while warming up. */
  function Value(hist: seq<Candle>, length: nat): int
    requires length >= 1
  {
    if |hist| <= length then 0 else RsiOf(Wilder(hist, length))
  }

  /** The index of every bar of a stream. */
  function Index(hist: seq<Candle>, length: nat): (values: seq<int>)
    requires length >= 1
    ensures |values| == |hist|
  {
    if hist == [] then [] else Index(hist[..|hist| - 1], length) + [Value(hist, length)]
  }

  /** Entering a zone: crossing its edge from outside. */
  function Entry(cfg: Config, prev: int, value: int): Option<Side> {
    if prev > cfg.oversold && value <= cfg.oversold then Some(Long)
    else if prev < cfg.overbought && value >= cfg.overbought then Some(Short)
    else None
  }

  /** The zone entry at bar i of the stream, if it is one. */
  function CrossAt(cfg: Config, hist: seq<Candle>, i: nat): Option<Cross>
    requires ValidConfig(cfg) && i < |hist|
  {
    if i <= cfg.length then None
    else
      var value := Value(hist[..i + 1], cfg.length);
      match Entry(cfg, Value(hist[..i], cfg.length), value)
      case Some(side) => Some(Cross(side, hist[i].open + cfg.period, value))
      case None => None
  }

  /** The stream's last zone entry. */
  function LastCross(cfg: Config, hist: seq<Candle>): Option<Cross>
    requires ValidConfig(cfg)
  {
    if hist == [] then None
    else
      match CrossAt(cfg, hist, |hist| - 1)
      case Some(c) => Some(c)
      case None => LastCross(cfg, hist[..|hist| - 1])
  }

  // ----------------------------------------------------------------- the signal

  /** The buffers hold the last bars of a stream and their index, the running
      averages and the last cross are those of the whole stream. */
  ghost predicate Faithful(cfg: Config, hist: seq<Candle>, bars: seq<Candle>, values: seq<int>,
                           avg: Averages, last: Option<Cross>)
  {
    && ValidConfig(cfg)
    && bars == LastN(hist, cfg.history)
    && values == LastN(Index(hist, cfg.length), cfg.history)
    && (|hist| > cfg.length ==> avg == Wilder(hist, cfg.length))
    && last == LastCross(cfg, hist)
  }

  /** The last cross after one more value. */
  function NextCross(cfg: Config, seen: nat, prev: int, value: int, b: Candle, last: Option<Cross>): Option<Cross> {
    if seen <= cfg.length then last
    else match Entry(cfg, prev, value)
         case Some(side) => Some(Cross(side, b.open + cfg.period, value))
         case None => last
  }

  class RSI {
    const cfg: Config
    var bars: seq<Candle>
    var forming: Option<Candle>
    var values: seq<int>
    var avgGain: nat
    var avgLoss: nat
    var last: Option<Cross>
    /** Every closed bar ever taken in since the last seed. */
    ghost var hist: seq<Candle>

    ghost predicate Valid()
      reads this
    {
      Faithful(cfg, hist, bars, values, Averages(avgGain, avgLoss), last)
    }

    constructor (cfg: Config)
      requires ValidConfig(cfg)
      ensures Valid() && hist == [] && this.cfg == cfg
    {
      this.cfg := cfg;
      bars, forming, values, avgGain, avgLoss, last, hist := [], None, [], 0, 0, None, [];
    }

    /** `appendLocked`. */
    method Append(b: Candle)
      requires Valid()
      modifies this
      ensures Valid() && hist == old(hist) + [b] && forming == old(forming)
    {
      hide Value, Wilder, LastCross, Index, Faithful, NextCross, LastN;
      ghost var was, bars0, values0, avg0, last0 := hist, bars, values, Averages(avgGain, avgLoss), last;
      Buffered(cfg, was, bars0, values0, avg0, last0);
      var value := Grow(b);
      OnlyWarm(cfg, |was|, Value(was, cfg.length), value, b, last0);
      if |bars| > cfg.length + 1 {
        assert values[|bars| - 2] == values0[|values0| - 1];
        var prev := values[|bars| - 2];
        MarkEntry(prev, value, b);
      }
      Trim();
      AppendFaithful(cfg, was, bars0, values0, avg0, last0, b, Averages(avgGain, avgLoss), last);
    }

    /** The bar and its value join the buffers. */
    method Grow(b: Candle) returns (value: int)
      requires ValidConfig(cfg) && bars == LastN(hist, cfg.history)
      requires |hist| > cfg.length ==> Averages(avgGain, avgLoss) == Wilder(hist, cfg.length)
      modifies this`bars, this`values, this`hist, this`avgGain, this`avgLoss
      ensures hist == old(hist) + [b] && bars == old(bars) + [b] && values == old(values) + [value]
      ensures value == Value(hist, cfg.length)
      ensures |hist| > cfg.length ==> Averages(avgGain, avgLoss) == Wilder(hist, cfg.length)
    {
      hide Value, Wilder;
      ghost var was := hist;
      hist, bars := hist + [b], bars + [b];
      assert hist[..|hist| - 1] == was;
      value := Extend();
      values := values + [value];
    }

    method MarkEntry(prev: int, value: int, b: Candle)
      modifies this`last
      ensures last == NextCross(cfg, cfg.length + 1, prev, value, b, old(last))
    {
      if prev > cfg.oversold && value <= cfg.oversold {
        last := Some(Cross(Long, b.open + cfg.period, value));
      } else if prev < cfg.overbought && value >= cfg.overbought {
        last := Some(Cross(Short, b.open + cfg.period, value));
      }
    }

    method Trim()
      requires |values| == |bars|
      modifies this`bars, this`values
      ensures bars == LastN(old(bars), cfg.history) && values == LastN(old(values), cfg.history)
    {
      if |bars| > cfg.history {
        var extra := |bars| - cfg.history;
        bars, values := bars[extra..], values[extra..];
      }
    }

    /** The switch of `appendLocked`: the index of the bar just appended, the
        averages moved on. */
    method Extend() returns (value: int)
      requires ValidConfig(cfg) && hist != []
      requires bars == LastN(hist[..|hist| - 1], cfg.history) + [hist[|hist| - 1]]
      requires |hist| - 1 > cfg.length ==> Averages(avgGain, avgLoss) == Wilder(hist[..|hist| - 1], cfg.length)
      modifies this`avgGain, this`avgLoss
      ensures value == Value(hist, cfg.length)
      ensures |hist| > cfg.length ==> Averages(avgGain, avgLoss) == Wilder(hist, cfg.length)
    {
      hide RsiOf;
      var n := |bars|;
      if n <= cfg.length { return 0; }
      if n == cfg.length + 1 {
        assert bars == hist;
        FirstAverages();
      } else {
        assert bars[n - 2] == hist[|hist| - 2];
        BlendIn();
      }
      return RsiOf(Averages(avgGain, avgLoss));
    }

    method FirstAverages()
      requires ValidConfig(cfg) && |bars| == cfg.length + 1
      modifies this`avgGain, this`avgLoss
      ensures avgGain == RoundQuo(Rises(bars), cfg.length) && avgLoss == RoundQuo(Falls(bars), cfg.length)
    {
      hide RoundQuo;
      var gain, loss := 0, 0;
      for i := 1 to |bars|
        invariant gain == Rises(bars[..i]) && loss == Falls(bars[..i])
      {
        var d := bars[i].c - bars[i - 1].c;
        assert bars[..i + 1][..i] == bars[..i];
        if d > 0 { gain := gain + d; } else { loss := loss + -d; }
      }
      assert bars[..|bars|] == bars;
      DivByInt(gain, cfg.length);
      DivByInt(loss, cfg.length);
      avgGain, avgLoss := DDiv(gain, cfg.length * SCALE), DDiv(loss, cfg.length * SCALE);
    }

    method BlendIn()
      requires ValidConfig(cfg) && |bars| >= 2
      modifies this`avgGain, this`avgLoss
      ensures var (from, to) := (bars[|bars| - 2].c, bars[|bars| - 1].c);
              && avgGain == Blend(old(avgGain), Gain(from, to), cfg.length)
              && avgLoss == Blend(old(avgLoss), Loss(from, to), cfg.length)
    {
      hide Blend, RoundQuo, RoundDiv;
      var one, l := SCALE, cfg.length * SCALE;
      var d := bars[|bars| - 1].c - bars[|bars| - 2].c;
      var gain, loss := 0, 0;
      if d > 0 { gain := d; } else { loss := -d; }
      BlendByInt(avgGain, gain, cfg.length);
      BlendByInt(avgLoss, loss, cfg.length);
      avgGain := DDiv(DMul(avgGain, l - one) + gain, l);
      avgLoss := DDiv(DMul(avgLoss, l - one) + loss, l);
    }

    method Apply(b: Candle, now: int)
      requires Valid()
      modifies this
      ensures Valid() && hist == Accept(old(hist), b, now)
      ensures !Closed(b, now) ==> forming == Some(b)
    {
      hide Value, Wilder, LastCross, Index;
      if now < b.open + b.period {
        forming := Some(b);
        return;
      }
      if |bars| > 0 && bars[|bars| - 1].open >= b.open { return; }
      Append(b);
      if forming.Some? && forming.value.open <= b.open { forming := None; }
    }

    /** `Seed` on bars as sort.Slice left them. */
    method Seed(bars: seq<Candle>, now: int)
      requires Valid()
      modifies this
      ensures Valid() && hist == AcceptAll([], bars, now)
    {
      Reset();
      for i := 0 to |bars|
        invariant Valid() && hist == AcceptAll([], bars[..i], now)
      {
        SeedOne(bars[i], now);
        AcceptSnoc([], bars, i, now);
      }
      assert bars[..|bars|] == bars;
    }

    method Reset()
      requires ValidConfig(cfg)
      modifies this
      ensures Valid() && hist == []
    {
      bars, values, forming, last := [], [], None, None;
      avgGain, avgLoss, hist := 0, 0, [];
    }

    method SeedOne(b: Candle, now: int)
      requires Valid()
      modifies this
      ensures Valid() && hist == Accept(old(hist), b, now)
    {
      hide Value, Wilder, LastCross, Index;
      if now < b.open + b.period {
        forming := Some(b);
      } else if |bars| == 0 || bars[|bars| - 1].open < b.open {
        Append(b);
      }
    }
  }

  // ------------------------------------------------- fixed point as it is computed

  /** Dividing by a whole number of units is dividing by the number. */
  lemma DivByInt(a: nat, n: nat)
    requires n >= 1
    ensures DDiv(a, n * SCALE) == RoundQuo(a, n)
  {
    DivByWhole(a, n);
  }

  lemma MulByInt(a: nat, n: nat)
    ensures DMul(a, n * SCALE) == a * n
  {
    assert a * (n * SCALE) == (a * n) * SCALE;
    RoundDivMultiple(a * n, SCALE);
  }

  lemma BlendByInt(avg: nat, change: nat, length: nat)
    requires length >= 1
    ensures DDiv(DMul(avg, length * SCALE - SCALE) + change, length * SCALE) == Blend(avg, change, length)
  {
    MulByInt(avg, length - 1);
    DivByInt(Kept(avg, length) + change, length);
  }

  // --------------------------------------------------------------- what it keeps

  lemma IndexSnoc(hist: seq<Candle>, b: Candle, length: nat)
    requires length >= 1
    ensures Index(hist + [b], length) == Index(hist, length) + [Value(hist + [b], length)]
  {
    hide Value;
    assert (hist + [b])[..|hist|] == hist;
  }

  lemma IndexLast(hist: seq<Candle>, length: nat)
    requires length >= 1 && hist != []
    ensures Index(hist, length)[|hist| - 1] == Value(hist, length)
  {
    hide Value;
  }

  /** How much the buffers tell of the stream. */
  lemma Buffered(cfg: Config, hist: seq<Candle>, bars: seq<Candle>, values: seq<int>, avg: Averages, last: Option<Cross>)
    requires Faithful(cfg, hist, bars, values, avg, last)
    ensures ValidConfig(cfg) && bars == LastN(hist, cfg.history)
    ensures |hist| > cfg.length ==> avg == Wilder(hist, cfg.length)
    ensures |bars| == |values| && (|bars| <= cfg.length + 1 ==> |hist| == |bars|)
    ensures |bars| > cfg.length <==> |hist| > cfg.length
    ensures hist != [] ==> bars != [] && values[|values| - 1] == Value(hist, cfg.length)
  {
    hide Value, Wilder, LastCross;
    if hist != [] { IndexLast(hist, cfg.length); }
  }

  lemma AppendFaithful(cfg: Config, hist: seq<Candle>, bars: seq<Candle>, values: seq<int>, avg: Averages,
                       last: Option<Cross>, b: Candle, avg': Averages, last': Option<Cross>)
    requires Faithful(cfg, hist, bars, values, avg, last)
    requires |hist| + 1 > cfg.length ==> avg' == Wilder(hist + [b], cfg.length)
    requires last' == NextCross(cfg, |hist|, Value(hist, cfg.length), Value(hist + [b], cfg.length), b, last)
    ensures Faithful(cfg, hist + [b], LastN(bars + [b], cfg.history),
                     LastN(values + [Value(hist + [b], cfg.length)], cfg.history), avg', last')
  {
    hide Value, Wilder, LastCross, Index;
    CrossSnoc(cfg, hist, b);
    IndexSnoc(hist, b, cfg.length);
    LastNSnoc(hist, b, cfg.history);
    LastNSnoc(Index(hist, cfg.length), Value(hist + [b], cfg.length), cfg.history);
  }

  /** Only whether the averages are warm matters, not how long the stream is. */
  lemma OnlyWarm(cfg: Config, seen: nat, prev: int, value: int, b: Candle, last: Option<Cross>)
    ensures NextCross(cfg, seen, prev, value, b, last)
         == if seen > cfg.length then NextCross(cfg, cfg.length + 1, prev, value, b, last) else last
  {
  }

  lemma CrossAtLast(cfg: Config, hist: seq<Candle>, b: Candle)
    requires ValidConfig(cfg)
    ensures CrossAt(cfg, hist + [b], |hist|)
         == NextCross(cfg, |hist|, Value(hist, cfg.length), Value(hist + [b], cfg.length), b, None)
  {
    hide Value, LastCross;
    var all := hist + [b];
    assert all[..|hist|] == hist && all[..|hist| + 1] == all && all[|hist|] == b;
  }

  lemma CrossSnoc(cfg: Config, hist: seq<Candle>, b: Candle)
    requires ValidConfig(cfg)
    ensures LastCross(cfg, hist + [b])
         == NextCross(cfg, |hist|, Value(hist, cfg.length), Value(hist + [b], cfg.length), b, LastCross(cfg, hist))
  {
    hide Value, CrossAt;
    CrossAtLast(cfg, hist, b);
    assert (hist + [b])[..|hist|] == hist;
  }

  /** Later bars do not change whether an earlier one made an entry. */
  lemma CrossAtPrefix(cfg: Config, hist: seq<Candle>, n: nat, i: nat)
    requires ValidConfig(cfg) && i < n <= |hist|
    ensures CrossAt(cfg, hist[..n], i) == CrossAt(cfg, hist, i)
  {
    hide Value;
    assert hist[..n][..i + 1] == hist[..i + 1] && hist[..n][..i] == hist[..i];
  }

  /** The last cross is the zone entry of the stream's last bar that made one. */
  lemma {:induction false} LastCrossIsLast(cfg: Config, hist: seq<Candle>)
    requires ValidConfig(cfg)
    ensures match LastCross(cfg, hist)
            case None => forall i :: 0 <= i < |hist| ==> CrossAt(cfg, hist, i) == None
            case Some(c) => exists i :: 0 <= i < |hist| && CrossAt(cfg, hist, i) == Some(c)
                              && forall j :: i < j < |hist| ==> CrossAt(cfg, hist, j) == None
    decreases |hist|
  {
    hide CrossAt;
    if hist != [] {
      var front := hist[..|hist| - 1];
      LastCrossIsLast(cfg, front);
      forall i | 0 <= i < |front|
        ensures CrossAt(cfg, front, i) == CrossAt(cfg, hist, i)
      {
        CrossAtPrefix(cfg, hist, |front|, i);
      }
      if CrossAt(cfg, hist, |hist| - 1).None? && LastCross(cfg, front).Some? {
        var i :| 0 <= i < |front| && CrossAt(cfg, front, i) == LastCross(cfg, front)
          && forall j :: i < j < |front| ==> CrossAt(cfg, front, j) == None;
        assert CrossAt(cfg, hist, i) == LastCross(cfg, hist);
        assert forall j :: i < j < |hist| ==> CrossAt(cfg, hist, j) == None;
      } else if CrossAt(cfg, hist, |hist| - 1).Some? {
        assert CrossAt(cfg, hist, |hist| - 1) == LastCross(cfg, hist);
      }
    }
  }

  /** Every defined value lies between 0 and 100. */
  lemma {:induction false} ValueInRange(a: Averages)
    ensures 0 <= RsiOf(a) <= HUNDRED
  {
    if a.loss != 0 {
      RoundDivOfNat(a.gain * SCALE, a.loss);
      var d := SCALE + RoundQuo(a.gain * SCALE, a.loss);
      RoundDivOfNat(HUNDRED * SCALE, d);
      QuotientAtMost(HUNDRED * SCALE, d, HUNDRED);
    }
  }

  lemma QuotientAtMost(n: nat, d: nat, q: nat)
    requires d > 0 && n <= q * d
    ensures RoundQuo(n, d) <= q
  {
    RoundQuoFloor(n, d);
    DivMod(n, d);
    QuotientAtLeast(n, d, q + 1);
    assert (q + 1) * d == q * d + d;
  }

  lemma {:induction false} StreamInRange(hist: seq<Candle>, length: nat)
    requires length >= 1
    ensures 0 <= Value(hist, length) <= HUNDRED
  {
    if |hist| > length { ValueInRange(Wilder(hist, length)); }
  }

  /** Rounding never takes a positive average back to zero. */
  lemma BlendStaysPositive(avg: nat, change: nat, length: nat)
    requires length >= 2 && avg > 0
    ensures Blend(avg, change, length) > 0
  {
    var n := avg * (length - 1) + change;
    MulMono(1, avg, length - 1);
    RoundQuoFloor(n, length);
    DivMod(n, length);
  }

  lemma {:induction false} OncePositive(hist: seq<Candle>, length: nat, i: nat)
    requires length >= 2 && length < i <= |hist|
    ensures Wilder(hist[..i], length).gain > 0 ==> Wilder(hist, length).gain > 0
    ensures Wilder(hist[..i], length).loss > 0 ==> Wilder(hist, length).loss > 0
    decreases |hist|
  {
    if i == |hist| {
      assert hist[..i] == hist;
    } else {
      var front := hist[..|hist| - 1];
      OncePositive(front, length, i);
      assert front[..i] == hist[..i];
      var a := Wilder(front, length);
      var (from, to) := (hist[|hist| - 2].c, hist[|hist| - 1].c);
      if a.gain > 0 { BlendStaysPositive(a.gain, Gain(from, to), length); }
      if a.loss > 0 { BlendStaysPositive(a.loss, Loss(from, to), length); }
    }
  }

  // ---------------------------------------------------------------- int64 range

  predicate Within(hist: seq<Candle>, cap: nat) {
    forall i :: 0 <= i < |hist| ==> 0 <= hist[i].c <= cap
  }

  lemma {:induction false} SumsWithin(hist: seq<Candle>, cap: nat)
    requires Within(hist, cap)
    ensures hist != [] ==> Rises(hist) <= (|hist| - 1) * cap && Falls(hist) <= (|hist| - 1) * cap
  {
    if |hist| > 1 {
      SumsWithin(hist[..|hist| - 1], cap);
      assert (|hist| - 1) * cap == (|hist| - 2) * cap + cap;
    }
  }

  lemma {:induction false} AveragesWithin(hist: seq<Candle>, cap: nat, length: nat)
    requires length >= 1 && |hist| > length && Within(hist, cap)
    ensures Wilder(hist, length).gain <= cap && Wilder(hist, length).loss <= cap
    decreases |hist|
  {
    hide Blend, RoundQuo;
    if |hist| == length + 1 {
      SumsWithin(hist, cap);
      QuotientAtMost(Rises(hist), length, cap);
      QuotientAtMost(Falls(hist), length, cap);
    } else {
      var front := hist[..|hist| - 1];
      AveragesWithin(front, cap, length);
      var a := Wilder(front, length);
      var (from, to) := (hist[|hist| - 2].c, hist[|hist| - 1].c);
      BlendWithin(a.gain, Gain(from, to), cap, length);
      BlendWithin(a.loss, Loss(from, to), cap, length);
    }
  }

  lemma BlendWithin(avg: nat, change: nat, cap: nat, length: nat)
    requires length >= 1 && avg <= cap && change <= cap
    ensures Kept(avg, length) + change <= cap * length && Blend(avg, change, length) <= cap
  {
    MulMono(avg, cap, length - 1);
    assert cap * length == cap * (length - 1) + cap;
    QuotientAtMost(Kept(avg, length) + change, length, cap);
  }

  /** One blending step in int64: the product, the sum and the quotient are the
      exact ones. */
  predicate BlendFits(avg: nat, change: nat, length: nat)
    requires length >= 1
  {
    && length * SCALE <= MAX_INT64 && avg <= MAX_INT64 && Kept(avg, length) + change <= MAX_INT64
    && Blend(avg, change, length) <= MAX_INT64
    && Fixed.Mul(avg, length * SCALE - SCALE) == Some(Kept(avg, length))
    && Fixed.DivErr(Kept(avg, length) + change, length * SCALE) == Ok(Blend(avg, change, length))
  }

  /** The first averages in int64: the sums of length changes and their quotients. */
  predicate FirstFits(first: seq<Candle>, length: nat)
    requires length >= 1
  {
    && length * SCALE <= MAX_INT64 && Rises(first) <= MAX_INT64 && Falls(first) <= MAX_INT64
    && RoundQuo(Rises(first), length) <= MAX_INT64 && RoundQuo(Falls(first), length) <= MAX_INT64
    && Fixed.DivErr(Rises(first), length * SCALE) == Ok(RoundQuo(Rises(first), length))
    && Fixed.DivErr(Falls(first), length * SCALE) == Ok(RoundQuo(Falls(first), length))
  }

  lemma FirstBelow(first: seq<Candle>, cap: nat, length: nat)
    requires length >= 1 && |first| == length + 1 && Within(first, cap)
    requires cap * length <= MAX_INT64 && length * SCALE <= MAX_INT64
    ensures FirstFits(first, length)
  {
    hide DDiv, Fixed.DivErr, RoundQuo, Rises, Falls;
    assert cap <= cap * length by { MulMono(1, length, cap); }
    SumsWithin(first, cap);
    assert length * cap == cap * length;
    QuotientAtMost(Rises(first), length, cap);
    QuotientAtMost(Falls(first), length, cap);
    DivByInt(Rises(first), length);
    DivByInt(Falls(first), length);
    DAgrees(Rises(first), length * SCALE);
    DAgrees(Falls(first), length * SCALE);
  }

  /** The two divisions of `rsiOf` and the addition between them, in int64. */
  predicate RatioFits(a: Averages)
    requires a.loss > 0
  {
    && a.gain <= MAX_INT64 && a.loss <= MAX_INT64
    && var rs := DDiv(a.gain, a.loss);
    && 0 < SCALE + rs <= MAX_INT64 && Abs(rs) <= MAX_INT64
    && Fixed.DivErr(a.gain, a.loss) == Ok(rs)
    && Abs(DDiv(HUNDRED, SCALE + rs)) <= MAX_INT64
    && Fixed.DivErr(HUNDRED, SCALE + rs) == Ok(DDiv(HUNDRED, SCALE + rs))
  }

  lemma BlendBelow(avg: nat, change: nat, cap: nat, length: nat)
    requires length >= 1 && avg <= cap && change <= cap
    requires cap * length <= MAX_INT64 && length * SCALE <= MAX_INT64
    ensures BlendFits(avg, change, length)
  {
    hide DMul, DDiv, Fixed.Mul, Fixed.DivErr, RoundQuo;
    assert cap <= cap * length by { MulMono(1, length, cap); }
    BlendWithin(avg, change, cap, length);
    MulByInt(avg, length - 1);
    DAgrees(avg, length * SCALE - SCALE);
    DivByInt(Kept(avg, length) + change, length);
    DAgrees(Kept(avg, length) + change, length * SCALE);
  }

  lemma RatioBelow(a: Averages, cap: nat)
    requires a.loss > 0 && a.gain <= cap && a.loss <= cap && (cap + 1) * SCALE <= MAX_INT64
    ensures RatioFits(a)
  {
    hide Fixed.DivErr, RoundQuo;
    RoundDivOfNat(a.gain * SCALE, a.loss);
    assert a.gain * SCALE <= cap * SCALE * a.loss by { MulMono(1, a.loss, cap * SCALE); }
    QuotientAtMost(a.gain * SCALE, a.loss, cap * SCALE);
    RatioFitsIff(a);
  }

  /** Exactly when the index of two averages can be computed at all. */
  lemma RatioFitsIff(a: Averages)
    requires a.loss > 0 && a.gain <= MAX_INT64 && a.loss <= MAX_INT64
    ensures RatioFits(a) <==> DDiv(a.gain, a.loss) <= MAX_INT64 - SCALE
  {
    hide Fixed.DivErr, RoundQuo;
    RoundDivOfNat(a.gain * SCALE, a.loss);
    if DDiv(a.gain, a.loss) <= MAX_INT64 - SCALE {
      DAgrees(a.gain, a.loss);
      var d := SCALE + DDiv(a.gain, a.loss);
      RoundDivOfNat(HUNDRED * SCALE, d);
      QuotientAtMost(HUNDRED * SCALE, d, HUNDRED);
      DAgrees(HUNDRED, d);
    }
  }

  /** With closes between 0 and a cap whose Length-fold fits an int64, every step of
      the averages is the exact one: no product, quotient or sum panics or wraps.
      The index itself can be computed exactly when its ratio leaves room for a unit,
      as it always does when the cap is small. */
  lemma {:induction false} MachineAgrees(hist: seq<Candle>, cap: nat, length: nat, change: nat)
    requires length >= 1 && |hist| > length && Within(hist, cap) && change <= cap
    requires cap * length <= MAX_INT64 && length * SCALE <= MAX_INT64
    ensures FirstFits(hist[..length + 1], length)
    ensures var a := Wilder(hist, length);
            && BlendFits(a.gain, change, length) && BlendFits(a.loss, change, length)
            && (a.loss > 0 ==> (RatioFits(a) <==> DDiv(a.gain, a.loss) <= MAX_INT64 - SCALE))
            && (a.loss > 0 && (cap + 1) * SCALE <= MAX_INT64 ==> RatioFits(a))
  {
    hide BlendFits, RatioFits, FirstFits;
    AveragesWithin(hist, cap, length);
    FirstBelow(hist[..length + 1], cap, length);
    var a := Wilder(hist, length);
    BlendBelow(a.gain, change, cap, length);
    BlendBelow(a.loss, change, cap, length);
    assert cap <= MAX_INT64 by { MulMono(1, length, cap); }
    if a.loss > 0 {
      RatioFitsIff(a);
      if (cap + 1) * SCALE <= MAX_INT64 { RatioBelow(a, cap); }
    }
  }

  /** Three bars are enough to fail: closes of the smallest fall and then a rise of
      20000 make averages within int64 whose quotient has no fixed-point value. */
  lemma RatioCanOverflow()
    ensures var hist := [Bar(0, 2), Bar(1, 0), Bar(2, 20_000 * SCALE)];
            && Within(hist, 20_000 * SCALE) && FirstFits(hist, 2)
            && Wilder(hist, 2) == Averages(10_000 * SCALE, 1) && !RatioFits(Wilder(hist, 2))
            && Fixed.DivErr(Wilder(hist, 2).gain, Wilder(hist, 2).loss) == Panic
  {
    var hist := [Bar(0, 2), Bar(1, 0), Bar(2, 20_000 * SCALE)];
    assert hist[..2] == [Bar(0, 2), Bar(1, 0)] && hist[..2][..1] == [Bar(0, 2)];
    assert Rises(hist[..2]) == 0 && Falls(hist[..2]) == 2;
    assert Rises(hist) == 20_000 * SCALE && Falls(hist) == 2;
    FirstBelow(hist, 20_000 * SCALE, 2);
    hide FirstFits;
    MulDivExact(10_000 * SCALE, SCALE, 1);
  }

  function Bar(open: int, close: int): Candle {
    Candle(open, 1, close, close, close, close, 0, 0)
  }

  // --------------------------------------------------------- what the index says

  lemma RoundQuoMono(m: nat, n: nat, d: nat)
    requires d > 0 && m <= n
    ensures RoundQuo(m, d) <= RoundQuo(n, d)
  {
    DivMod(2 * m + d, 2 * d);
    QuotientAtLeast(2 * n + d, 2 * d, RoundQuo(m, d));
  }

  lemma RoundQuoAnti(n: nat, c: nat, d: nat)
    requires 0 < c <= d
    ensures RoundQuo(n, d) <= RoundQuo(n, c)
  {
    var q := RoundQuo(n, d);
    DivMod(2 * n + d, 2 * d);
    if q > 0 {
      MulMono(c, d, 2 * q - 1);
      assert q * (2 * d) == (2 * q - 1) * d + d && q * (2 * c) == (2 * q - 1) * c + c;
      assert (2 * q - 1) * d == d * (2 * q - 1) && (2 * q - 1) * c == c * (2 * q - 1);
      QuotientAtLeast(2 * n + c, 2 * c, q);
    } else {
      QuotientAtLeast(2 * n + c, 2 * c, 0);
    }
  }

  /** The ratio's denominator and what is taken off the hundred. */
  lemma RsiParts(a: Averages) returns (d: nat, y: nat)
    requires a.loss > 0
    ensures d == SCALE + RoundQuo(a.gain * SCALE, a.loss) && y == RoundQuo(HUNDRED * SCALE, d)
    ensures RsiOf(a) == HUNDRED - y && y <= HUNDRED
  {
    RoundDivOfNat(a.gain * SCALE, a.loss);
    d := SCALE + RoundQuo(a.gain * SCALE, a.loss);
    RoundDivOfNat(HUNDRED * SCALE, d);
    y := RoundQuo(HUNDRED * SCALE, d);
    QuotientAtMost(HUNDRED * SCALE, d, HUNDRED);
  }

  lemma RsiGrows(a: Averages, b: Averages)
    requires a.gain <= b.gain && a.loss >= b.loss
    requires a.gain == b.gain || a.loss == b.loss
    ensures RsiOf(a) <= RsiOf(b)
  {
    ValueInRange(a);
    ValueInRange(b);
    if b.loss > 0 {
      var d, y := RsiParts(a);
      var e, z := RsiParts(b);
      hide RsiOf, RoundQuo;
      MulMono(a.gain, b.gain, SCALE);
      RoundQuoMono(a.gain * SCALE, b.gain * SCALE, a.loss);
      RoundQuoAnti(b.gain * SCALE, b.loss, a.loss);
      RoundQuoAnti(HUNDRED * SCALE, d, e);
    } else if a.loss > 0 && a.gain == 0 {
      var d, y := RsiParts(a);
      NoGains(a.loss);
    }
  }

  /** Only losses give zero. */
  lemma NoGains(loss: nat)
    requires loss > 0
    ensures RsiOf(Averages(0, loss)) == 0
  {
    var d, y := RsiParts(Averages(0, loss));
    QuotientIs(loss, 2 * loss, 0, loss);
    assert d == SCALE;
    assert y == HUNDRED;
  }

  /** Twice the distance of a rounded quotient from the exact one. */
  lemma Rounding(n: nat, d: nat) returns (e: int)
    requires d > 0
    ensures e == RoundQuo(n, d) * d - n && 0 - d <= 2 * e <= d
  {
    RoundQuoNearest(n, d);
    e := RoundQuo(n, d) * d - n;
  }

  lemma RsiNear(a: Averages)
    requires a.loss > 0
    ensures -51 * (a.gain + a.loss) <= RsiOf(a) * (a.gain + a.loss) - HUNDRED * a.gain <= 51 * (a.gain + a.loss)
  {
    var d, y := RsiParts(a);
    var g, l := a.gain, a.loss;
    var e := Rounding(g * SCALE, l);
    var f := Rounding(HUNDRED * SCALE, d);
    hide RsiOf, RoundQuo;
    var x := d - SCALE;
    var t := g + l;
    assert d * l == SCALE * t + e by { assert (SCALE + x) * l == SCALE * l + x * l; }
    NearParts(d, y, e, f, l, t);
    assert (HUNDRED - y) * t == HUNDRED * t - y * t && HUNDRED * t == HUNDRED * g + HUNDRED * l;
  }

  lemma NearParts(d: nat, y: nat, e: int, f: int, l: nat, t: nat)
    requires d * l == SCALE * t + e && y * d == HUNDRED * SCALE + f
    requires 0 - l <= 2 * e <= l && 0 - d <= 2 * f <= d && y <= HUNDRED && 0 < l <= t
    ensures -51 * t <= HUNDRED * l - y * t <= 51 * t
  {
    var off := HUNDRED * l - y * t;
    assert y * (d * l) == (y * d) * l;
    assert y * (SCALE * t + e) == SCALE * (y * t) + y * e;
    assert (HUNDRED * SCALE + f) * l == SCALE * (HUNDRED * l) + f * l;
    assert SCALE * off == y * e - f * l;
    Product2(y, e, HUNDRED, l);
    Product2(l, f, l, d);
    assert l * d == d * l && f * l == l * f;
  }

  lemma Product2(y: nat, e: int, cap: nat, l: nat)
    requires y <= cap && 0 - l <= 2 * e <= l
    ensures 0 - cap * l <= 2 * (y * e) <= cap * l
  {
    assert 2 * (y * e) == y * (2 * e);
    MulMono(y, cap, l);
    MulMono(2 * e, l, y);
    MulMono(0 - l, 2 * e, y);
    assert (0 - l) * y == 0 - l * y && l * y == y * l && (2 * e) * y == y * (2 * e);
  }

  /** What the index of any stream says of its averages, when there are enough bars for
      them: 50 when nothing moved, 100 for
      rises alone, 0 for falls alone, and otherwise 100 gain / (gain + loss) to within
      51 of the smallest units. */
  lemma {:induction false} IndexMeans(hist: seq<Candle>, length: nat)
    requires length >= 1
    ensures |hist| <= length ==> Value(hist, length) == 0
    ensures |hist| > length ==>
            var v, a := Value(hist, length), Wilder(hist, length);
            && (a.gain == 0 && a.loss == 0 ==> v == 50 * SCALE)
            && (a.gain > 0 && a.loss == 0 ==> v == 100 * SCALE)
            && (a.gain == 0 && a.loss > 0 ==> v == 0)
            && -51 * (a.gain + a.loss) <= v * (a.gain + a.loss) - 100 * SCALE * a.gain <= 51 * (a.gain + a.loss)
  {
    if |hist| > length {
      var a := Wilder(hist, length);
      if a.loss > 0 {
        RsiNear(a);
        if a.gain == 0 { NoGains(a.loss); }
      }
      hide Wilder, RoundDiv;
      assert a.loss == 0 && a.gain > 0 ==> HUNDRED * (a.gain + a.loss) == HUNDRED * a.gain;
    }
  }

  /** It never falls when the average rise is higher, nor rises when the average fall is. */
  lemma {:induction false} IndexGrows(one: seq<Candle>, two: seq<Candle>, length: nat)
    requires length >= 1 && |one| > length && |two| > length
    ensures var a, b := Wilder(one, length), Wilder(two, length);
            && (a.gain <= b.gain && a.loss == b.loss ==> Value(one, length) <= Value(two, length))
            && (a.gain == b.gain && a.loss <= b.loss ==> Value(one, length) >= Value(two, length))
  {
    var a, b := Wilder(one, length), Wilder(two, length);
    hide Wilder, RsiOf;
    if a.gain <= b.gain && a.loss == b.loss { RsiGrows(a, b); }
    if a.gain == b.gain && a.loss <= b.loss { RsiGrows(b, a); }
  }

  lemma HalfUnit(n: nat, d: nat)
    requires d > 0
    ensures 0 - d <= 2 * (RoundQuo(n, d) * d - n) <= d
  {
    RoundQuoNearest(n, d);
  }

  /** What the averages are: first the mean rise and fall of Length changes, then each
      new change weighs one part in Length; to within half a unit. */
  lemma {:induction false} AveragesMean(hist: seq<Candle>, length: nat)
    requires length >= 1 && |hist| > length
    ensures var n, a := |hist| - 1, Wilder(hist, length);
            var up := if hist[n].c > hist[n - 1].c then hist[n].c - hist[n - 1].c else 0;
            var down := if hist[n].c < hist[n - 1].c then hist[n - 1].c - hist[n].c else 0;
            if n == length then
              && 0 - length <= 2 * (a.gain * length - Rises(hist)) <= length
              && 0 - length <= 2 * (a.loss * length - Falls(hist)) <= length
            else
              var b := Wilder(hist[..n], length);
              && 0 - length <= 2 * (a.gain * length - (b.gain * (length - 1) + up)) <= length
              && 0 - length <= 2 * (a.loss * length - (b.loss * (length - 1) + down)) <= length
  {
    var n := |hist| - 1;
    if n == length {
      HalfUnit(Rises(hist), length);
      HalfUnit(Falls(hist), length);
    } else {
      var b := Wilder(hist[..n], length);
      HalfUnit(Kept(b.gain, length) + Gain(hist[n - 1].c, hist[n].c), length);
      HalfUnit(Kept(b.loss, length) + Loss(hist[n - 1].c, hist[n].c), length);
    }
    hide RoundQuo;
  }

  /** Rises and falls add up to how far the stream came, and each is made of its own
      moves: one more bar adds to one of them what it moved, and nothing to the other. */
  lemma {:induction false} MovesMean(hist: seq<Candle>)
    ensures |hist| <= 1 ==> Rises(hist) == 0 && Falls(hist) == 0
    ensures hist != [] ==> Rises(hist) - Falls(hist) == hist[|hist| - 1].c - hist[0].c
    ensures |hist| > 1 ==>
              var n := |hist| - 1;
              && (hist[n].c >= hist[n - 1].c ==> Falls(hist) == Falls(hist[..n]))
              && (hist[n].c <= hist[n - 1].c ==> Rises(hist) == Rises(hist[..n]))
  {
    if |hist| > 1 { MovesMean(hist[..|hist| - 1]); }
  }

  /** What a zone entry is: coming down to the oversold edge from above it offers a
      long, coming up to the overbought edge from below it a short, one bar after the
      bar opened. */
  lemma {:induction false} EntryMeans(cfg: Config, hist: seq<Candle>, i: nat, c: Cross)
    requires ValidConfig(cfg) && i < |hist|
    ensures CrossAt(cfg, hist, i) == Some(c) <==>
              var prev, value := Value(hist[..i], cfg.length), Value(hist[..i + 1], cfg.length);
              && i > cfg.length && c.at == hist[i].open + cfg.period && c.value == value
              && (c.side == Long ==> prev > cfg.oversold && value <= cfg.oversold)
              && (c.side == Short ==> prev < cfg.overbought && value >= cfg.overbought)
  {
    hide Value;
  }
}
