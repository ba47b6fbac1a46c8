/** The channel breakout of strategy/donchian.go: what a seed remembers against
    what the live stream left. */
module Donchian {
  import opened Wrappers
  import opened Candles

  datatype Config = Config(period: int, length: nat, window: int, history: nat)

  predicate ValidConfig(cfg: Config) {
    cfg.period > 0 && cfg.length >= 2 && cfg.window > 0 && cfg.history >= cfg.length + 1
  }

  datatype Side = Long | Short

  datatype Break = Break(side: Side, at: int, price: int, level: int)

  datatype Channel = Channel(upper: int, lower: int)

  // ---------------------------------------------------------------- definitions

  /** The channel edges are the highest high and the lowest low of bars [from, until). */
  ghost predicate IsChannel(bars: seq<Candle>, from: nat, until: nat, ch: Channel)
    requires until <= |bars|
  {
    && (forall j :: from <= j < until ==> bars[j].h <= ch.upper && ch.lower <= bars[j].l)
    && (exists j :: from <= j < until && bars[j].h == ch.upper)
    && (exists j :: from <= j < until && bars[j].l == ch.lower)
  }

  function Widen(ch: Channel, b: Candle): Channel {
    Channel(if b.h > ch.upper then b.h else ch.upper, if b.l < ch.lower then b.l else ch.lower)
  }

  /** Over the bars [from, until), the last of them first, as the loop goes. */
  function ChannelOf(bars: seq<Candle>, from: nat, until: nat, last: Channel): Channel
    requires from <= until <= |bars|
    decreases until
  {
    if from == until then last else Widen(ChannelOf(bars, from, until - 1, last), bars[until - 1])
  }

  function ChannelBefore(cfg: Config, bars: seq<Candle>, i: nat): Option<Channel>
    requires ValidConfig(cfg) && i <= |bars|
  {
    if i < cfg.length then None
    else Some(ChannelOf(bars, i - cfg.length, i - 1, Channel(bars[i - 1].h, bars[i - 1].l)))
  }

  /** Bar i closes outside the channel of the bars before it. */
  function BreakAt(cfg: Config, bars: seq<Candle>, i: nat): Option<Break>
    requires ValidConfig(cfg) && i < |bars|
  {
    match ChannelBefore(cfg, bars, i)
    case None => None
    case Some(ch) =>
      var b := bars[i];
      if b.c > ch.upper then Some(Break(Long, b.open + cfg.period, b.c, ch.upper))
      else if b.c < ch.lower then Some(Break(Short, b.open + cfg.period, b.c, ch.lower))
      else None
  }

  /** The last of the first n bars that broke out, as its index. */
  function LastIndex(cfg: Config, bars: seq<Candle>, n: nat): Option<nat>
    requires ValidConfig(cfg) && n <= |bars|
  {
    if n == 0 then None
    else if BreakAt(cfg, bars, n - 1).Some? then Some(n - 1)
    else LastIndex(cfg, bars, n - 1)
  }

  lemma {:induction false} LastIndexMeans(cfg: Config, bars: seq<Candle>, n: nat)
    requires ValidConfig(cfg) && n <= |bars|
    ensures match LastIndex(cfg, bars, n)
            case Some(i) => i < n && BreakAt(cfg, bars, i).Some? && forall j :: i < j < n ==> BreakAt(cfg, bars, j).None?
            case None => forall j :: 0 <= j < n ==> BreakAt(cfg, bars, j).None?
  {
    hide BreakAt;
    if n > 0 { LastIndexMeans(cfg, bars, n - 1); }
  }

  function LastBreak(cfg: Config, bars: seq<Candle>, n: nat): (r: Option<Break>)
    requires ValidConfig(cfg) && n <= |bars|
    ensures r.Some? <==> LastIndex(cfg, bars, n).Some?
  {
    LastIndexMeans(cfg, bars, n);
    match LastIndex(cfg, bars, n)
    case Some(i) => BreakAt(cfg, bars, i)
    case None => None
  }

  // ----------------------------------------------------------------- the signal

  class Donchian {
    const cfg: Config
    var bars: seq<Candle>
    var forming: Option<Candle>
    var last: Option<Break>
    /** Every closed bar taken in since the last seed. */
    ghost var hist: seq<Candle>

    ghost predicate Valid()
      reads this
    {
      ValidConfig(cfg) && bars == LastN(hist, cfg.history)
    }

    constructor (cfg: Config)
      requires ValidConfig(cfg)
      ensures Valid() && hist == [] && last == None && this.cfg == cfg
    {
      this.cfg := cfg;
      bars, forming, last, hist := [], None, None, [];
    }

    /** `channelBefore`: the edges really are the extremes. */
    method ChannelBeforeIndex(i: nat) returns (ch: Option<Channel>)
      requires ValidConfig(cfg) && i <= |bars|
      ensures ch == ChannelBefore(cfg, bars, i)
      ensures ch.Some? <==> i >= cfg.length
      ensures ch.Some? ==> IsChannel(bars, i - cfg.length, i, ch.value)
    {
      if i < cfg.length { return None; }
      var upper, lower := bars[i - 1].h, bars[i - 1].l;
      var j := i - cfg.length;
      while j < i - 1
        invariant i - cfg.length <= j <= i - 1
        invariant Channel(upper, lower)
               == ChannelOf(bars, i - cfg.length, j, Channel(bars[i - 1].h, bars[i - 1].l))
      {
        if bars[j].h > upper { upper := bars[j].h; }
        if bars[j].l < lower { lower := bars[j].l; }
        j := j + 1;
      }
      ChannelIsExtreme(bars, i - cfg.length, i - 1, i - 1);
      return Some(Channel(upper, lower));
    }

    method BreakAtIndex(i: nat) returns (br: Option<Break>)
      requires ValidConfig(cfg) && i < |bars|
      ensures br == BreakAt(cfg, bars, i)
    {
      hide ChannelBefore;
      var ch := ChannelBeforeIndex(i);
      if ch.None? { return None; }
      var b := bars[i];
      var at := b.open + cfg.period;
      if b.c > ch.value.upper { return Some(Break(Long, at, b.c, ch.value.upper)); }
      if b.c < ch.value.lower { return Some(Break(Short, at, b.c, ch.value.lower)); }
      return None;
    }

    method Trim()
      modifies this`bars
      ensures bars == LastN(old(bars), cfg.history)
    {
      if |bars| > cfg.history { bars := bars[|bars| - cfg.history..]; }
    }

    method Apply(b: Candle, now: int)
      requires Valid()
      modifies this
      ensures Valid() && hist == Accept(old(hist), b, now)
      ensures last == if hist == old(hist) then old(last)
                      else match BreakAt(cfg, hist, |hist| - 1) case Some(br) => Some(br) case None => old(last)
    {
      hide BreakAt;
      if now < b.open + b.period {
        forming := Some(b);
        return;
      }
      if |bars| > 0 && bars[|bars| - 1].open >= b.open { return; }
      LastNSnoc(hist, b, cfg.history);
      hist, bars := hist + [b], bars + [b];
      if forming.Some? && forming.value.open <= b.open { forming := None; }
      Trim();
      NewestInView(cfg, hist);
      var br := BreakAtIndex(|bars| - 1);
      if br.Some? { last := br; }
    }

    /** `Seed` on bars as sort.Slice left them: fill, trim, then look. */
    method Seed(seed: seq<Candle>, now: int)
      requires Valid()
      modifies this
      ensures Valid() && hist == AcceptAll([], seed, now)
      ensures last == LastBreak(cfg, bars, |bars|)
    {
      hide BreakAt, LastBreak;
      bars, forming, hist := [], None, [];
      for i := 0 to |seed|
        invariant bars == hist == AcceptAll([], seed[..i], now)
      {
        var b := seed[i];
        AcceptSnoc([], seed, i, now);
        if now < b.open + b.period {
          forming := Some(b);
        } else if |bars| == 0 || bars[|bars| - 1].open < b.open {
          bars, hist := bars + [b], hist + [b];
        }
      }
      assert seed[..|seed|] == seed;
      Trim();
      Replay();
    }

    /** The end of `Seed`. */
    method Replay()
      requires ValidConfig(cfg)
      modifies this`last
      ensures last == LastBreak(cfg, bars, |bars|)
    {
      last := None;
      TooEarly(cfg, bars, if |bars| < cfg.length then |bars| else cfg.length);
      var i := cfg.length;
      while i < |bars|
        invariant cfg.length <= i
        invariant last == LastBreak(cfg, bars, if i <= |bars| then i else |bars|)
      {
        hide BreakAt;
        var br := BreakAtIndex(i);
        if br.Some? { last := br; }
        i := i + 1;
      }
    }
  }

  lemma {:induction false} ChannelIsExtreme(bars: seq<Candle>, from: nat, until: nat, last: nat)
    requires from <= until <= last < |bars|
    ensures var ch := ChannelOf(bars, from, until, Channel(bars[last].h, bars[last].l));
            && (forall j :: from <= j < until || j == last ==> bars[j].h <= ch.upper && ch.lower <= bars[j].l)
            && (exists j :: (from <= j < until || j == last) && bars[j].h == ch.upper)
            && (exists j :: (from <= j < until || j == last) && bars[j].l == ch.lower)
    decreases until
  {
    if from == until {
      assert bars[last].h == bars[last].h && bars[last].l == bars[last].l;
    } else {
      ChannelIsExtreme(bars, from, until - 1, last);
      assert bars[until - 1].h == bars[until - 1].h && bars[until - 1].l == bars[until - 1].l;
    }
  }

  lemma {:induction false} TooEarly(cfg: Config, bars: seq<Candle>, n: nat)
    requires ValidConfig(cfg) && n <= |bars| && n <= cfg.length
    ensures LastIndex(cfg, bars, n) == None
  {
    if n > 0 { TooEarly(cfg, bars, n - 1); }
  }

  // ---------------------------------------------------------- seed against live

  lemma {:induction false} ChannelShift(hist: seq<Candle>, k: nat, from: nat, until: nat, last: Channel)
    requires k <= |hist| && from <= until <= |hist| - k
    ensures ChannelOf(hist[k..], from, until, last) == ChannelOf(hist, k + from, k + until, last)
    decreases until
  {
    if from < until { ChannelShift(hist, k, from, until - 1, last); }
  }

  lemma {:induction false} ChannelPrefix(hist: seq<Candle>, n: nat, from: nat, until: nat, last: Channel)
    requires from <= until <= n <= |hist|
    ensures ChannelOf(hist[..n], from, until, last) == ChannelOf(hist, from, until, last)
    decreases until
  {
    if from < until { ChannelPrefix(hist, n, from, until - 1, last); }
  }

  /** A breakout with its whole channel still in the buffer is the same breakout. */
  lemma {:induction false} BreakShift(cfg: Config, hist: seq<Candle>, k: nat, i: nat)
    requires ValidConfig(cfg) && k <= |hist| && cfg.length <= i < |hist| - k
    ensures BreakAt(cfg, hist[k..], i) == BreakAt(cfg, hist, k + i)
  {
    ChannelShift(hist, k, i - cfg.length, i - 1, Channel(hist[k + i - 1].h, hist[k + i - 1].l));
  }

  lemma {:induction false} BreakPrefix(cfg: Config, hist: seq<Candle>, n: nat, i: nat)
    requires ValidConfig(cfg) && i < n <= |hist|
    ensures BreakAt(cfg, hist[..n], i) == BreakAt(cfg, hist, i)
  {
    if i >= cfg.length {
      ChannelPrefix(hist, n, i - cfg.length, i - 1, Channel(hist[i - 1].h, hist[i - 1].l));
    }
  }

  lemma {:induction false} LastIndexPrefix(cfg: Config, hist: seq<Candle>, n: nat, m: nat)
    requires ValidConfig(cfg) && m <= n <= |hist|
    ensures LastIndex(cfg, hist[..n], m) == LastIndex(cfg, hist, m)
  {
    hide BreakAt;
    if m > 0 {
      BreakPrefix(cfg, hist, n, m - 1);
      LastIndexPrefix(cfg, hist, n, m - 1);
    }
  }

  /** The newest bar's breakout is the same in the trimmed buffer. */
  lemma NewestInView(cfg: Config, hist: seq<Candle>)
    requires ValidConfig(cfg) && hist != []
    ensures var bars := LastN(hist, cfg.history);
            BreakAt(cfg, bars, |bars| - 1) == BreakAt(cfg, hist, |hist| - 1)
  {
    if |hist| > cfg.history { BreakShift(cfg, hist, |hist| - cfg.history, cfg.history - 1); }
  }

  /** What `Apply` on bars n..m of a stream makes of a remembered breakout. */
  function Replayed(cfg: Config, hist: seq<Candle>, n: nat, m: nat, last: Option<Break>): Option<Break>
    requires ValidConfig(cfg) && n <= m <= |hist|
    decreases m
  {
    if m == n then last
    else match BreakAt(cfg, hist, m - 1) case Some(br) => Some(br) case None => Replayed(cfg, hist, n, m - 1, last)
  }

  /** Replaying leaves the stream's last breakout if that lies in the part
      replayed, and what was remembered otherwise. */
  lemma {:induction false} ReplayMeans(cfg: Config, hist: seq<Candle>, n: nat, m: nat, last: Option<Break>)
    requires ValidConfig(cfg) && n <= m <= |hist|
    ensures Replayed(cfg, hist, n, m, last)
         == match LastIndex(cfg, hist, m)
            case Some(i) => if i >= n then LastBreak(cfg, hist, m) else last
            case None => last
    decreases m
  {
    hide BreakAt;
    LastIndexMeans(cfg, hist, m);
    if n < m { ReplayMeans(cfg, hist, n, m - 1, last); }
  }

  /** The trimmed buffer's last breakout is the stream's, renumbered, or none when
      the stream's has fallen out of the last History - Length bars. */
  lemma {:induction false} SeedIndex(cfg: Config, hist: seq<Candle>, m: nat)
    requires ValidConfig(cfg) && |hist| > cfg.history && m <= cfg.history
    ensures var k := |hist| - cfg.history;
            LastIndex(cfg, hist[k..], m)
            == match LastIndex(cfg, hist, k + m)
               case Some(i) => if i >= k + cfg.length then Some(i - k) else None
               case None => None
  {
    var k := |hist| - cfg.history;
    if m <= cfg.length {
      TooEarly(cfg, hist[k..], m);
      LastIndexMeans(cfg, hist, k + m);
    } else {
      SeedIndex(cfg, hist, m - 1);
      BreakShift(cfg, hist, k, m - 1);
      hide BreakAt;
      assert k + m - 1 == k + (m - 1);
    }
  }

  /** For a stream of any length: what a seed remembers is the live last breakout,
      or nothing, and nothing exactly when there is none live or the live one lies
      outside the last History - Length bars. */
  lemma {:induction false} SeedAgainstLive(cfg: Config, hist: seq<Candle>)
    requires ValidConfig(cfg)
    ensures var bars := LastN(hist, cfg.history);
            var (seeded, live) := (LastBreak(cfg, bars, |bars|), LastBreak(cfg, hist, |hist|));
            var out := live.Some? && |hist| > cfg.history
                       && LastIndex(cfg, hist, |hist|).value < |hist| - (cfg.history - cfg.length);
            seeded == if out then None else live
  {
    if |hist| > cfg.history {
      var k := |hist| - cfg.history;
      SeedIndex(cfg, hist, cfg.history);
      LastIndexMeans(cfg, hist, |hist|);
      hide BreakAt;
      match LastIndex(cfg, hist, |hist|)
      case Some(i) => if i >= k + cfg.length { BreakShift(cfg, hist, k, i - k); }
      case None =>
    }
  }

  /** The offer as State shows it. */
  predicate Offered(cfg: Config, last: Option<Break>, now: int) {
    last.Some? && now < last.value.at + cfg.window
  }

  /** Bars at least a period apart, the newest of them closed. */
  predicate OnGrid(cfg: Config, hist: seq<Candle>, now: int) {
    && (forall i :: 0 <= i < |hist| - 1 ==> hist[i].open + cfg.period <= hist[i + 1].open)
    && (hist != [] ==> hist[|hist| - 1].open + cfg.period <= now)
  }

  lemma {:induction false} GridSpan(cfg: Config, hist: seq<Candle>, now: int, i: nat, j: nat)
    requires ValidConfig(cfg) && OnGrid(cfg, hist, now) && i <= j < |hist|
    ensures hist[i].open + (j - i) * cfg.period <= hist[j].open
    decreases j
  {
    if i < j {
      GridSpan(cfg, hist, now, i, j - 1);
      assert (j - i) * cfg.period == (j - 1 - i) * cfg.period + cfg.period;
      assert hist[j - 1].open + cfg.period <= hist[j - 1 + 1].open;
    }
  }

  lemma Multiple(m: int, n: int, p: int)
    requires m <= n && p > 0
    ensures m * p <= n * p
  {
  }

  /** With a window no longer than History - Length bars, a process that seeded on
      the first n bars and watched the rest offers exactly what one that watched
      the whole stream offers. */
  lemma {:induction false} SameOffer(cfg: Config, hist: seq<Candle>, n: nat, now: int)
    requires ValidConfig(cfg) && OnGrid(cfg, hist, now) && n <= |hist|
    requires cfg.window <= (cfg.history - cfg.length) * cfg.period
    ensures var seed := LastN(hist[..n], cfg.history);
            var seeded := Replayed(cfg, hist, n, |hist|, LastBreak(cfg, seed, |seed|));
            var live := Replayed(cfg, hist, 0, |hist|, None);
            && live == LastBreak(cfg, hist, |hist|)
            && (Offered(cfg, seeded, now) <==> Offered(cfg, live, now))
            && (Offered(cfg, live, now) ==> seeded == live)
  {
    hide BreakAt, ChannelBefore;
    var seed := LastN(hist[..n], cfg.history);
    ReplayMeans(cfg, hist, n, |hist|, LastBreak(cfg, seed, |seed|));
    ReplayMeans(cfg, hist, 0, |hist|, None);
    LastIndexMeans(cfg, hist, |hist|);
    SeedAgainstLive(cfg, hist[..n]);
    EarlierLast(cfg, hist, n, |hist|);
    match LastIndex(cfg, hist, |hist|)
    case Some(i) =>
      if i < n && n > cfg.history && i < n - (cfg.history - cfg.length) { Expired(cfg, hist, n, i, now); }
    case None =>
  }

  /** A last breakout among the first n bars is theirs. */
  lemma {:induction false} EarlierLast(cfg: Config, hist: seq<Candle>, n: nat, m: nat)
    requires ValidConfig(cfg) && n <= m <= |hist|
    ensures LastIndex(cfg, hist, m).Some? && LastIndex(cfg, hist, m).value < n ==>
              LastIndex(cfg, hist[..n], n) == LastIndex(cfg, hist, m)
              && LastBreak(cfg, hist[..n], n) == LastBreak(cfg, hist, m)
    ensures LastIndex(cfg, hist, m).None? ==> LastIndex(cfg, hist[..n], n).None?
    decreases m
  {
    hide BreakAt;
    if m == n {
      LastIndexPrefix(cfg, hist, n, n);
      LastIndexMeans(cfg, hist, n);
      if LastIndex(cfg, hist, n).Some? { BreakPrefix(cfg, hist, n, LastIndex(cfg, hist, n).value); }
    } else {
      LastIndexMeans(cfg, hist, m);
      EarlierLast(cfg, hist, n, m - 1);
    }
  }

  lemma {:induction false} Expired(cfg: Config, hist: seq<Candle>, n: nat, i: nat, now: int)
    requires ValidConfig(cfg) && OnGrid(cfg, hist, now) && i < n <= |hist| && BreakAt(cfg, hist, i).Some?
    requires i < n - (cfg.history - cfg.length) && cfg.window <= (cfg.history - cfg.length) * cfg.period
    ensures !Offered(cfg, BreakAt(cfg, hist, i), now)
  {
    hide ChannelBefore;
    GridSpan(cfg, hist, now, i, |hist| - 1);
    Multiple(cfg.history - cfg.length, |hist| - 1 - i, cfg.period);
  }

  lemma OneChannel(bars: seq<Candle>, from: nat, until: nat, a: Channel, b: Channel)
    requires until <= |bars| && IsChannel(bars, from, until, a) && IsChannel(bars, from, until, b)
    ensures a == b
  {
  }

  /** A close past an edge of the channel of bars [from, until): up is long, down short. */
  ghost predicate ClosesOutside(bars: seq<Candle>, from: nat, until: nat, br: Break)
    requires until <= |bars|
  {
    exists ch :: IsChannel(bars, from, until, ch)
              && (br.side == Long ==> br.price > ch.upper && br.level == ch.upper)
              && (br.side == Short ==> br.price <= ch.upper && br.price < ch.lower && br.level == ch.lower)
  }

  /** What a breakout is: a bar that closes above the highest high of the Length bars
      before it is a long at that level, one that closes below their lowest low a
      short, one bar after it opened. */
  lemma {:induction false} BreakMeans(cfg: Config, bars: seq<Candle>, i: nat, br: Break)
    requires ValidConfig(cfg) && i < |bars|
    ensures BreakAt(cfg, bars, i) == Some(br) <==>
              && i >= cfg.length && br.at == bars[i].open + cfg.period && br.price == bars[i].c
              && ClosesOutside(bars, i - cfg.length, i, br)
  {
    if i >= cfg.length {
      var from := i - cfg.length;
      ChannelIsExtreme(bars, from, i - 1, i - 1);
      var edges := ChannelBefore(cfg, bars, i).value;
      hide ChannelOf;
      assert IsChannel(bars, from, i, edges);
      forall ch | IsChannel(bars, from, i, ch)
        ensures ch == edges
      {
        OneChannel(bars, from, i, ch, edges);
      }
      hide IsChannel;
      if BreakAt(cfg, bars, i) == Some(br) { assert ClosesOutside(bars, from, i, br); }
    }
  }
}
