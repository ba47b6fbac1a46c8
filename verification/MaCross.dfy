/** The moving-average cross of strategy/macross.go on a trimmed buffer, against
    the whole stream. */
module MaCross {
  import opened Wrappers
  import opened Arith
  import opened Fixed
  import opened Candles

  datatype Config = Config(period: int, fast: nat, slow: nat, history: nat)

  predicate ValidConfig(cfg: Config) {
    1 <= cfg.fast < cfg.slow && cfg.history >= cfg.slow + 1
  }

  datatype Side = Long | Short

  datatype Cross = Cross(side: Side, at: int)

  // ---------------------------------------------------------------- definitions

  /** Sum of the closes of bars [from, to). */
  function CloseSum(bars: seq<Candle>, from: nat, until: nat): int
    requires from <= until <= |bars|
    decreases until
  {
    if from == until then 0 else CloseSum(bars, from, until - 1) + bars[until - 1].c
  }

  /** The average of the n closes ending at bar i, rounded half away from zero. */
  function Average(bars: seq<Candle>, i: nat, n: nat): int
    requires 1 <= n <= i + 1 && i < |bars|
  {
    RoundDiv(CloseSum(bars, i + 1 - n, i + 1), n)
  }

  function Sign(a: int, b: int): int {
    if a < b then -1 else if a > b then 1 else 0
  }

  /** Which average is on top at bar i; 0 when equal or too early. */
  function Spread(cfg: Config, bars: seq<Candle>, i: nat): int
    requires ValidConfig(cfg) && i < |bars|
  {
    if i + 1 < cfg.slow then 0 else Sign(Average(bars, i, cfg.fast), Average(bars, i, cfg.slow))
  }

  /** The last non-zero spread of bars [from, i), or 0. */
  function LastApart(cfg: Config, bars: seq<Candle>, from: nat, i: nat): int
    requires ValidConfig(cfg) && i <= |bars|
    decreases i
  {
    if i <= from then 0
    else if Spread(cfg, bars, i - 1) != 0 then Spread(cfg, bars, i - 1)
    else LastApart(cfg, bars, from, i - 1)
  }

  /** Bar i crosses: its averages are apart, and not the way they last were. */
  predicate Crosses(cfg: Config, bars: seq<Candle>, i: nat)
    requires ValidConfig(cfg) && i < |bars|
  {
    && i >= cfg.slow && Spread(cfg, bars, i) != 0
    && LastApart(cfg, bars, cfg.slow - 1, i) != Spread(cfg, bars, i)
  }

  function CrossOf(cfg: Config, bars: seq<Candle>, i: nat): Cross
    requires ValidConfig(cfg) && i < |bars|
  {
    Cross(if Spread(cfg, bars, i) < 0 then Short else Long, bars[i].open + cfg.period)
  }

  function CrossAt(cfg: Config, bars: seq<Candle>, i: nat): Option<Cross>
    requires ValidConfig(cfg) && i < |bars|
  {
    if Crosses(cfg, bars, i) then Some(CrossOf(cfg, bars, i)) else None
  }

  /** The last cross of the first n bars. */
  function LastCross(cfg: Config, bars: seq<Candle>, n: nat): Option<Cross>
    requires ValidConfig(cfg) && n <= |bars|
  {
    if n == 0 then None
    else
      match CrossAt(cfg, bars, n - 1)
      case Some(c) => Some(c)
      case None => LastCross(cfg, bars, n - 1)
  }

  // ----------------------------------------------------------------- the signal

  class MACross {
    const cfg: Config
    var bars: seq<Candle>
    var forming: Option<Candle>
    var last: Option<Cross>
    /** Every closed bar taken in since the last seed. */
    ghost var hist: seq<Candle>

    ghost predicate Valid()
      reads this
    {
      ValidConfig(cfg) && bars == LastN(hist, cfg.history)
    }

    constructor (cfg: Config)
      requires ValidConfig(cfg)
      ensures Valid() && hist == [] && last == None && this.cfg == cfg
    {
      this.cfg := cfg;
      bars, forming, last, hist := [], None, None, [];
    }

    method AverageAt(i: nat, n: nat) returns (avg: int)
      requires 1 <= n <= i + 1 && i < |bars|
      ensures avg == Average(bars, i, n)
    {
      var sum := 0;
      var j := i + 1 - n;
      while j <= i
        invariant i + 1 - n <= j <= i + 1
        invariant sum == CloseSum(bars, i + 1 - n, j)
      {
        sum := sum + bars[j].c;
        j := j + 1;
      }
      DivByWhole(sum, n);
      avg := DDiv(sum, n * SCALE);
    }

    method SpreadAt(i: nat) returns (s: int)
      requires ValidConfig(cfg) && i < |bars|
      ensures s == Spread(cfg, bars, i)
    {
      if i + 1 < cfg.slow { return 0; }
      var fast := AverageAt(i, cfg.fast);
      var slow := AverageAt(i, cfg.slow);
      s := Sign(fast, slow);
    }

    method CrossAtIndex(i: nat) returns (c: Option<Cross>)
      requires ValidConfig(cfg) && i < |bars|
      ensures c == CrossAt(cfg, bars, i)
    {
      hide Spread;
      if i < cfg.slow { return None; }
      var cur := SpreadAt(i);
      if cur == 0 { return None; }
      var prev := 0;
      var j := i - 1;
      while j >= cfg.slow - 1 && prev == 0
        invariant cfg.slow - 2 <= j <= i - 1
        invariant LastApart(cfg, bars, cfg.slow - 1, i)
               == if prev != 0 then prev else LastApart(cfg, bars, cfg.slow - 1, j + 1)
      {
        prev := SpreadAt(j);
        j := j - 1;
      }
      SpreadSign(cfg, bars, i);
      LastApartSign(cfg, bars, cfg.slow - 1, i);
      if prev != 0 && (prev > 0) == (cur > 0) { return None; }
      return Some(Cross(if cur < 0 then Short else Long, bars[i].open + cfg.period));
    }

    /** A newer closed bar joins the buffer. */
    method Push(b: Candle)
      requires Valid() && Newer(hist, b)
      modifies this`bars, this`hist, this`forming
      ensures Valid() && hist == old(hist) + [b]
    {
      LastNSnoc(hist, b, cfg.history);
      hist, bars := hist + [b], bars + [b];
      if forming.Some? && forming.value.open <= b.open { forming := None; }
      Trim();
    }

    method Trim()
      modifies this`bars
      ensures bars == LastN(old(bars), cfg.history)
    {
      if |bars| > cfg.history { bars := bars[|bars| - cfg.history..]; }
    }

    method Apply(b: Candle, now: int)
      requires Valid()
      modifies this
      ensures Valid() && hist == Accept(old(hist), b, now)
      ensures last == if hist == old(hist) then old(last)
                      else match CrossAt(cfg, bars, |bars| - 1) case Some(c) => Some(c) case None => old(last)
    {
      hide CrossAt;
      if now < b.open + b.period {
        forming := Some(b);
        return;
      }
      if |bars| > 0 && bars[|bars| - 1].open >= b.open { return; }
      Push(b);
      var c := CrossAtIndex(|bars| - 1);
      if c.Some? { last := c; }
    }

    /** `Seed` on bars as sort.Slice left them: fill, trim, then look for crosses. */
    method Seed(seed: seq<Candle>, now: int)
      requires Valid()
      modifies this
      ensures Valid() && hist == AcceptAll([], seed, now)
      ensures last == LastCross(cfg, bars, |bars|)
    {
      hide CrossAt;
      bars, forming, hist := [], None, [];
      for i := 0 to |seed|
        invariant bars == hist == AcceptAll([], seed[..i], now)
      {
        var b := seed[i];
        AcceptSnoc([], seed, i, now);
        if now < b.open + b.period {
          forming := Some(b);
        } else if |bars| == 0 || bars[|bars| - 1].open < b.open {
          bars, hist := bars + [b], hist + [b];
        }
      }
      assert seed[..|seed|] == seed;
      Trim();
      Replay();
    }

    /** The end of `Seed`: the bars that can cross, oldest first. */
    method Replay()
      requires ValidConfig(cfg)
      modifies this`last
      ensures last == LastCross(cfg, bars, |bars|)
    {
      last := None;
      TooEarly(cfg, bars, if |bars| < cfg.slow then |bars| else cfg.slow);
      var i := cfg.slow;
      while i < |bars|
        invariant cfg.slow <= i
        invariant i <= |bars| ==> last == LastCross(cfg, bars, i)
        invariant i > |bars| ==> last == LastCross(cfg, bars, |bars|)
      {
        hide CrossAt;
        var c := CrossAtIndex(i);
        if c.Some? { last := c; }
        i := i + 1;
      }
    }
  }

  lemma {:induction false} TooEarly(cfg: Config, bars: seq<Candle>, n: nat)
    requires ValidConfig(cfg) && n <= |bars| && n <= cfg.slow
    ensures LastCross(cfg, bars, n) == None
  {
    hide Spread;
    if n > 0 { TooEarly(cfg, bars, n - 1); }
  }

  // ------------------------------------------------- trimmed against unbounded

  lemma {:induction false} SpreadSign(cfg: Config, bars: seq<Candle>, i: nat)
    requires ValidConfig(cfg) && i < |bars|
    ensures -1 <= Spread(cfg, bars, i) <= 1
  {
    hide Average;
  }

  lemma {:induction false} LastApartSign(cfg: Config, bars: seq<Candle>, from: nat, i: nat)
    requires ValidConfig(cfg) && i <= |bars|
    ensures -1 <= LastApart(cfg, bars, from, i) <= 1
    decreases i
  {
    hide Spread;
    if i > from {
      SpreadSign(cfg, bars, i - 1);
      LastApartSign(cfg, bars, from, i - 1);
    }
  }

  lemma {:induction false} CloseSumShift(hist: seq<Candle>, k: nat, from: nat, until: nat)
    requires k <= |hist| && from <= until <= |hist| - k
    ensures CloseSum(hist[k..], from, until) == CloseSum(hist, k + from, k + until)
    decreases until
  {
    if from < until { CloseSumShift(hist, k, from, until - 1); }
  }

  /** Dropping the oldest k bars only renumbers the spreads that remain. */
  lemma {:induction false} SpreadShift(cfg: Config, hist: seq<Candle>, k: nat, i: nat)
    requires ValidConfig(cfg) && k <= |hist| && i < |hist| - k && i + 1 >= cfg.slow
    ensures Spread(cfg, hist[k..], i) == Spread(cfg, hist, k + i)
  {
    hide RoundDiv;
    CloseSumShift(hist, k, i + 1 - cfg.fast, i + 1);
    CloseSumShift(hist, k, i + 1 - cfg.slow, i + 1);
  }

  lemma {:induction false} LastApartShift(cfg: Config, hist: seq<Candle>, k: nat, from: nat, i: nat)
    requires ValidConfig(cfg) && k <= |hist| && i <= |hist| - k && from + 1 >= cfg.slow
    ensures LastApart(cfg, hist[k..], from, i) == LastApart(cfg, hist, k + from, k + i)
    decreases i
  {
    hide Spread;
    if i > from {
      SpreadShift(cfg, hist, k, i - 1);
      LastApartShift(cfg, hist, k, from, i - 1);
    }
  }

  /** A longer look back only matters when the shorter one saw no move. */
  lemma {:induction false} LookFurther(cfg: Config, bars: seq<Candle>, from: nat, mid: nat, i: nat)
    requires ValidConfig(cfg) && from <= mid && i <= |bars|
    ensures LastApart(cfg, bars, mid, i) != 0 ==> LastApart(cfg, bars, from, i) == LastApart(cfg, bars, mid, i)
    decreases i
  {
    hide Spread;
    if i > mid { LookFurther(cfg, bars, from, mid, i - 1); }
  }

  /** How many bars before the newest the buffer can compare with. */
  function Reach(cfg: Config): nat
    requires ValidConfig(cfg)
  {
    cfg.history - cfg.slow
  }

  /** The averages were exactly equal over all the buffer can see, after a move
      the same way as the newest bar's. */
  predicate LongFlat(cfg: Config, hist: seq<Candle>)
    requires ValidConfig(cfg) && hist != []
  {
    var n := |hist| - 1;
    && |hist| > cfg.history && Spread(cfg, hist, n) != 0
    && LastApart(cfg, hist, n - Reach(cfg), n) == 0
    && LastApart(cfg, hist, cfg.slow - 1, n) == Spread(cfg, hist, n)
  }

  /** For every stream: what `Apply` reports for its newest bar is what the whole
      stream says, except exactly after such a flat stretch, when it reports a
      cross the stream does not have. */
  lemma {:induction false} ReportIff(cfg: Config, hist: seq<Candle>)
    requires ValidConfig(cfg) && hist != []
    ensures var bars := LastN(hist, cfg.history);
            var report := CrossAt(cfg, bars, |bars| - 1);
            && (report == CrossAt(cfg, hist, |hist| - 1) <==> !LongFlat(cfg, hist))
            && (LongFlat(cfg, hist) ==> report.Some? && CrossAt(cfg, hist, |hist| - 1) == None)
  {
    hide Spread, LastApart;
    if |hist| > cfg.history {
      var k, n, i := |hist| - cfg.history, |hist| - 1, cfg.history - 1;
      SpreadShift(cfg, hist, k, i);
      LastApartShift(cfg, hist, k, cfg.slow - 1, i);
      assert k + (cfg.slow - 1) == n - Reach(cfg) && k + i == n;
      LookFurther(cfg, hist, cfg.slow - 1, n - Reach(cfg), n);
      assert hist[k..][i] == hist[n];
    }
  }

  /** Such a stretch misreports: up, level for one bar, up again is a cross to a
      buffer that can look back one bar. */
  lemma FlatStretchMisreports()
    ensures var cfg := Config(1, 1, 2, 3);
            var hist := [Bar(0, 10), Bar(1, 20), Bar(2, 20), Bar(3, 30)];
            LongFlat(cfg, hist) && CrossAt(cfg, LastN(hist, 3), 2).Some? && CrossAt(cfg, hist, 3) == None
  {
    var cfg := Config(1, 1, 2, 3);
    var hist := [Bar(0, 10), Bar(1, 20), Bar(2, 20), Bar(3, 30)];
    assert CloseSum(hist, 0, 2) == 30 && CloseSum(hist, 1, 2) == 20;
    assert CloseSum(hist, 1, 3) == 40 && CloseSum(hist, 2, 3) == 20;
    assert CloseSum(hist, 2, 4) == 50 && CloseSum(hist, 3, 4) == 30;
    assert Spread(cfg, hist, 1) == 1 && Spread(cfg, hist, 2) == 0 && Spread(cfg, hist, 3) == 1;
    assert LastApart(cfg, hist, 2, 3) == LastApart(cfg, hist, 2, 2) == 0;
    assert LastApart(cfg, hist, 1, 3) == LastApart(cfg, hist, 1, 2) == 1;
    ReportIff(cfg, hist);
  }

  function Bar(open: int, close: int): Candle {
    Candle(open, 1, close, close, close, close, 0, 0)
  }

  /** Within the buffer's reach before bar n the averages were apart somewhere. */
  predicate ApartBefore(cfg: Config, hist: seq<Candle>, n: nat)
    requires ValidConfig(cfg) && cfg.history <= n < |hist|
  {
    exists j :: n - Reach(cfg) <= j < n && Spread(cfg, hist, j) != 0
  }

  /** The averages are never equal for as many bars in a row as the buffer can
      look back. */
  predicate NoLongFlat(cfg: Config, hist: seq<Candle>)
    requires ValidConfig(cfg)
  {
    forall n :: cfg.history <= n < |hist| ==> ApartBefore(cfg, hist, n)
  }

  lemma {:induction false} ApartSeen(cfg: Config, bars: seq<Candle>, from: nat, i: nat, j: nat)
    requires ValidConfig(cfg) && i <= |bars| && from <= j < i && Spread(cfg, bars, j) != 0
    ensures LastApart(cfg, bars, from, i) != 0
    decreases i
  {
    hide Spread;
    if j < i - 1 { ApartSeen(cfg, bars, from, i - 1, j); }
  }

  lemma {:induction false} ReportRight(cfg: Config, hist: seq<Candle>)
    requires ValidConfig(cfg) && hist != [] && NoLongFlat(cfg, hist)
    ensures var bars := LastN(hist, cfg.history);
            CrossAt(cfg, bars, |bars| - 1) == CrossAt(cfg, hist, |hist| - 1)
  {
    hide Spread, LastApart;
    ReportIff(cfg, hist);
    var n := |hist| - 1;
    if |hist| > cfg.history {
      assert ApartBefore(cfg, hist, n);
      var j :| n - Reach(cfg) <= j < n && Spread(cfg, hist, j) != 0;
      ApartSeen(cfg, hist, n - Reach(cfg), n, j);
    }
  }

  /** Between two crosses with none in between the averages stay where the first
      one put them. */
  lemma {:induction false} StaysCrossed(cfg: Config, hist: seq<Candle>, i: nat, n: nat)
    requires ValidConfig(cfg) && i < n <= |hist| && Crosses(cfg, hist, i)
    requires forall j :: i < j < n ==> !Crosses(cfg, hist, j)
    ensures LastApart(cfg, hist, cfg.slow - 1, n) == Spread(cfg, hist, i)
    decreases n
  {
    hide Spread;
    if n > i + 1 {
      StaysCrossed(cfg, hist, i, n - 1);
      assert !Crosses(cfg, hist, n - 1);
    }
  }

  /** Successive crosses of a stream point opposite ways. */
  lemma {:induction false} CrossesAlternate(cfg: Config, hist: seq<Candle>, i: nat, j: nat)
    requires ValidConfig(cfg) && i < j < |hist| && Crosses(cfg, hist, i) && Crosses(cfg, hist, j)
    requires forall k :: i < k < j ==> !Crosses(cfg, hist, k)
    ensures CrossOf(cfg, hist, i).side != CrossOf(cfg, hist, j).side
  {
    hide Spread, LastApart;
    StaysCrossed(cfg, hist, i, j);
    SpreadSign(cfg, hist, i);
    SpreadSign(cfg, hist, j);
  }

  // ---------------------------------------------------------- seed against live

  /** What replaying a stream through `Apply` leaves as the last cross. */
  function LiveLast(cfg: Config, hist: seq<Candle>): Option<Cross>
    requires ValidConfig(cfg)
  {
    if hist == [] then None
    else
      var bars := LastN(hist, cfg.history);
      match CrossAt(cfg, bars, |bars| - 1)
      case Some(c) => Some(c)
      case None => LiveLast(cfg, hist[..|hist| - 1])
  }

  lemma {:induction false} CloseSumPrefix(hist: seq<Candle>, n: nat, from: nat, until: nat)
    requires from <= until <= n <= |hist|
    ensures CloseSum(hist[..n], from, until) == CloseSum(hist, from, until)
    decreases until
  {
    if from < until { CloseSumPrefix(hist, n, from, until - 1); }
  }

  lemma {:induction false} SpreadPrefix(cfg: Config, hist: seq<Candle>, n: nat, i: nat)
    requires ValidConfig(cfg) && i < n <= |hist|
    ensures Spread(cfg, hist[..n], i) == Spread(cfg, hist, i)
  {
    hide RoundDiv;
    if i + 1 >= cfg.slow {
      CloseSumPrefix(hist, n, i + 1 - cfg.fast, i + 1);
      CloseSumPrefix(hist, n, i + 1 - cfg.slow, i + 1);
    }
  }

  lemma {:induction false} LastApartPrefix(cfg: Config, hist: seq<Candle>, n: nat, from: nat, i: nat)
    requires ValidConfig(cfg) && i <= n <= |hist|
    ensures LastApart(cfg, hist[..n], from, i) == LastApart(cfg, hist, from, i)
    decreases i
  {
    hide Spread;
    if i > from {
      SpreadPrefix(cfg, hist, n, i - 1);
      LastApartPrefix(cfg, hist, n, from, i - 1);
    }
  }

  /** Later bars do not change whether an earlier one crossed. */
  lemma {:induction false} CrossAtPrefix(cfg: Config, hist: seq<Candle>, n: nat, i: nat)
    requires ValidConfig(cfg) && i < n <= |hist|
    ensures CrossAt(cfg, hist[..n], i) == CrossAt(cfg, hist, i)
  {
    hide Spread, LastApart;
    SpreadPrefix(cfg, hist, n, i);
    LastApartPrefix(cfg, hist, n, cfg.slow - 1, i);
  }

  lemma {:induction false} LastCrossPrefix(cfg: Config, hist: seq<Candle>, n: nat, m: nat)
    requires ValidConfig(cfg) && m <= n <= |hist|
    ensures LastCross(cfg, hist[..n], m) == LastCross(cfg, hist, m)
    decreases m
  {
    hide CrossAt;
    if m > 0 {
      CrossAtPrefix(cfg, hist, n, m - 1);
      LastCrossPrefix(cfg, hist, n, m - 1);
    }
  }

  /** Up to History bars, seeding and replaying leave the same last cross; on any
      stream without a long flat stretch, replaying leaves the stream's own. */
  lemma {:induction false} SeedEqualsLive(cfg: Config, hist: seq<Candle>)
    requires ValidConfig(cfg)
    ensures |hist| <= cfg.history ==>
              LiveLast(cfg, hist) == LastCross(cfg, LastN(hist, cfg.history), |LastN(hist, cfg.history)|)
    ensures NoLongFlat(cfg, hist) ==> LiveLast(cfg, hist) == LastCross(cfg, hist, |hist|)
    decreases |hist|
  {
    hide CrossAt, Spread, LastApart;
    if hist != [] {
      var front := hist[..|hist| - 1];
      SeedEqualsLive(cfg, front);
      LastCrossPrefix(cfg, hist, |hist| - 1, |hist| - 1);
      if NoLongFlat(cfg, hist) {
        ReportRight(cfg, hist);
        NoLongFlatPrefix(cfg, hist);
      }
    }
  }

  lemma {:induction false} NoLongFlatPrefix(cfg: Config, hist: seq<Candle>)
    requires ValidConfig(cfg) && hist != [] && NoLongFlat(cfg, hist)
    ensures NoLongFlat(cfg, hist[..|hist| - 1])
  {
    hide Spread;
    var front := hist[..|hist| - 1];
    forall n | cfg.history <= n < |front|
      ensures ApartBefore(cfg, front, n)
    {
      assert ApartBefore(cfg, hist, n);
      var j :| n - Reach(cfg) <= j < n && Spread(cfg, hist, j) != 0;
      SpreadPrefix(cfg, hist, |front|, j);
      assert Spread(cfg, front, j) != 0;
    }
  }

  // ------------------------------------------------------------ what a cross says

  lemma AverageMeans(bars: seq<Candle>, i: nat, n: nat)
    requires 1 <= n <= i + 1 && i < |bars|
    ensures var sum := CloseSum(bars, i + 1 - n, i + 1);
            0 - n <= 2 * (Average(bars, i, n) * n - sum) <= n
  {
    RoundDivNearest(CloseSum(bars, i + 1 - n, i + 1), n);
  }

  /** The fast average of bar i is above its slow one, or below it. */
  predicate Above(cfg: Config, bars: seq<Candle>, i: nat)
    requires ValidConfig(cfg) && cfg.slow - 1 <= i < |bars|
  {
    Average(bars, i, cfg.fast) > Average(bars, i, cfg.slow)
  }

  predicate Below(cfg: Config, bars: seq<Candle>, i: nat)
    requires ValidConfig(cfg) && cfg.slow - 1 <= i < |bars|
  {
    Average(bars, i, cfg.fast) < Average(bars, i, cfg.slow)
  }

  /** The last bar before i whose averages differ is j. */
  predicate LastDiffers(cfg: Config, bars: seq<Candle>, i: nat, j: nat)
    requires ValidConfig(cfg) && cfg.slow - 1 <= j < i <= |bars|
  {
    && (Above(cfg, bars, j) || Below(cfg, bars, j))
    && forall k :: j < k < i ==> !Above(cfg, bars, k) && !Below(cfg, bars, k)
  }

  lemma SpreadMeans(cfg: Config, bars: seq<Candle>, i: nat)
    requires ValidConfig(cfg) && cfg.slow - 1 <= i < |bars|
    ensures Spread(cfg, bars, i) == if Above(cfg, bars, i) then 1 else if Below(cfg, bars, i) then -1 else 0
  {
    hide Average;
  }

  lemma {:induction false} LastApartMeans(cfg: Config, bars: seq<Candle>, i: nat)
    requires ValidConfig(cfg) && cfg.slow - 1 <= i <= |bars|
    ensures var v := LastApart(cfg, bars, cfg.slow - 1, i);
            && (v > 0 <==> exists j :: cfg.slow - 1 <= j < i && LastDiffers(cfg, bars, i, j) && Above(cfg, bars, j))
            && (v < 0 <==> exists j :: cfg.slow - 1 <= j < i && LastDiffers(cfg, bars, i, j) && Below(cfg, bars, j))
    decreases i
  {
    hide Spread, Average;
    if i > cfg.slow - 1 {
      SpreadMeans(cfg, bars, i - 1);
      LastApartMeans(cfg, bars, i - 1);
      if Above(cfg, bars, i - 1) || Below(cfg, bars, i - 1) {
        assert LastDiffers(cfg, bars, i, i - 1);
      } else {
        forall j | cfg.slow - 1 <= j < i - 1
          ensures LastDiffers(cfg, bars, i, j) <==> LastDiffers(cfg, bars, i - 1, j)
        {
        }
      }
    }
  }

  /** What a cross is: the fast average gets above the slow one for a long, below it for
      a short, when it was last apart the other way or never, one bar after the bar
      opened. */
  lemma {:induction false} CrossMeans(cfg: Config, bars: seq<Candle>, i: nat, c: Cross)
    requires ValidConfig(cfg) && i < |bars|
    ensures CrossAt(cfg, bars, i) == Some(c) <==>
              && i >= cfg.slow && c.at == bars[i].open + cfg.period
              && (if c.side == Long
                  then Above(cfg, bars, i)
                       && !exists j :: cfg.slow - 1 <= j < i && LastDiffers(cfg, bars, i, j) && Above(cfg, bars, j)
                  else Below(cfg, bars, i)
                       && !exists j :: cfg.slow - 1 <= j < i && LastDiffers(cfg, bars, i, j) && Below(cfg, bars, j))
  {
    if i >= cfg.slow {
      SpreadMeans(cfg, bars, i);
      LastApartMeans(cfg, bars, i);
      LastApartSign(cfg, bars, cfg.slow - 1, i);
      hide Spread, Average, LastApart, Above, Below, LastDiffers;
    }
  }
}
