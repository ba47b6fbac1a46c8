/** Bars and the feed every signal reads: closed bars in ascending order. */
module Candles {
  /** Times count from Go's zero time, so truncating to a period is a remainder. */
  datatype Candle = Candle(open: int, period: int, o: int, h: int, l: int, c: int, volume: int, trades: int)

  predicate Closed(b: Candle, now: int) {
    now >= b.open + b.period
  }

  /** The bar comes after everything in the history. */
  predicate Newer(hist: seq<Candle>, b: Candle) {
    hist == [] || hist[|hist| - 1].open < b.open
  }

  predicate Ascending(hist: seq<Candle>) {
    forall i, j :: 0 <= i < j < |hist| ==> hist[i].open < hist[j].open
  }

  /** A bar still forming, or not after the last one, is not history. */
  function Accept(hist: seq<Candle>, b: Candle, now: int): seq<Candle> {
    if Closed(b, now) && Newer(hist, b) then hist + [b] else hist
  }

  function AcceptAll(hist: seq<Candle>, bars: seq<Candle>, now: int): seq<Candle> {
    if bars == [] then hist else Accept(AcceptAll(hist, bars[..|bars| - 1], now), bars[|bars| - 1], now)
  }

  lemma AcceptSnoc(hist: seq<Candle>, bars: seq<Candle>, i: nat, now: int)
    requires i < |bars|
    ensures AcceptAll(hist, bars[..i + 1], now) == Accept(AcceptAll(hist, bars[..i], now), bars[i], now)
  {
    assert bars[..i + 1][..i] == bars[..i];
  }

  /** Whatever a stream brings, in whatever order, history ascends. */
  lemma {:induction false} AcceptAllAscends(hist: seq<Candle>, bars: seq<Candle>, now: int)
    requires Ascending(hist)
    ensures Ascending(AcceptAll(hist, bars, now)) && hist <= AcceptAll(hist, bars, now)
    decreases |bars|
  {
    if bars != [] { AcceptAllAscends(hist, bars[..|bars| - 1], now); }
  }

  /** The last n of a sequence. */
  function LastN<T>(s: seq<T>, n: nat): (r: seq<T>)
    ensures |r| == if |s| <= n then |s| else n
  {
    if |s| <= n then s else s[|s| - n..]
  }

  lemma LastNSnoc<T>(s: seq<T>, x: T, n: nat)
    requires n >= 1
    ensures LastN(LastN(s, n) + [x], n) == LastN(s + [x], n)
  {
  }

  /** A bar joins the history exactly when its period is over and it opens after the
      last; otherwise the history stays. */
  lemma AcceptIff(hist: seq<Candle>, b: Candle, now: int)
    ensures Accept(hist, b, now) == hist + [b]
       <==> now >= b.open + b.period && (hist != [] ==> hist[|hist| - 1].open < b.open)
    ensures Accept(hist, b, now) == hist + [b] || Accept(hist, b, now) == hist
  {
  }
}
