/** The opening range breakout of strategy/orb.go: sessions on the UTC clock,
    each with a range, a watch and at most one break. */
module Orb {
  import opened Wrappers
  import opened Arith
  import opened Candles

  const DAY: int := 86_400_000_000_000

  /** `opens` are offsets from midnight, ascending; `range` is how long after the
      open the range is set, `watch` how long a breakout counts. */
  datatype Config = Config(period: int, opens: seq<int>, range: int, watch: int, history: nat)

  predicate ValidConfig(cfg: Config) {
    && cfg.period > 0 && cfg.opens != [] && 0 < cfg.range < cfg.watch && cfg.history >= 2
    && (forall i :: 0 <= i < |cfg.opens| ==> 0 <= cfg.opens[i] < DAY)
    && (forall i, j :: 0 <= i < j < |cfg.opens| ==> cfg.opens[i] < cfg.opens[j])
  }

  datatype Side = Long | Short

  datatype Break = Break(side: Side, at: int, price: int, level: int)

  datatype Session = Session(
    openAt: int, from: int, until: int, watchUntil: int, high: int, low: int, bars: nat, brk: Option<Break>)

  // ------------------------------------------------------------------ the clock

  /** Midnight of t's UTC day. */
  function Midnight(t: int): int {
    t - t % DAY
  }

  predicate IsOpen(cfg: Config, x: int) {
    x % DAY in cfg.opens
  }

  /** The number of the day's opens at or before a time of day. */
  function OpensBy(opens: seq<int>, time: int, n: nat): nat
    requires n <= |opens|
  {
    if n == 0 then 0 else if opens[n - 1] <= time then n else OpensBy(opens, time, n - 1)
  }

  /** The latest session open at or before t: today's, or yesterday's last. */
  function LastOpen(cfg: Config, t: int): int
    requires ValidConfig(cfg)
  {
    OpensByBound(cfg.opens, t % DAY, |cfg.opens|);
    var k := OpensBy(cfg.opens, t % DAY, |cfg.opens|);
    if k > 0 then Midnight(t) + cfg.opens[k - 1]
    else Midnight(t) - DAY + cfg.opens[|cfg.opens| - 1]
  }

  lemma {:induction false} OpensByBound(opens: seq<int>, time: int, n: nat)
    requires n <= |opens|
    ensures OpensBy(opens, time, n) <= n
  {
    if n > 0 { OpensByBound(opens, time, n - 1); }
  }

  lemma {:induction false} OpensByMeans(opens: seq<int>, time: int, n: nat)
    requires n <= |opens| && forall i, j :: 0 <= i < j < |opens| ==> opens[i] < opens[j]
    ensures OpensBy(opens, time, n) <= n
    ensures var k := OpensBy(opens, time, n);
            (forall i :: 0 <= i < k ==> opens[i] <= time) && (forall i :: k <= i < n ==> time < opens[i])
  {
    if n > 0 { OpensByMeans(opens, time, n - 1); }
  }

  /** Neighbouring opens around t. */
  ghost predicate Around(cfg: Config, t: int, last: int, next: int) {
    && IsOpen(cfg, last) && IsOpen(cfg, next) && last <= t < next
    && forall x :: IsOpen(cfg, x) ==> x <= last || next <= x
  }

  lemma Split(x: int)
    ensures x == Midnight(x) + x % DAY && 0 <= x % DAY < DAY && Midnight(x) % DAY == 0
  {
  }

  lemma DayOf(midnight: int, x: int)
    requires midnight % DAY == 0 && midnight <= x < midnight + DAY
    ensures Midnight(x) == midnight && x % DAY == x - midnight
  {
  }

  lemma {:induction false} LastOpenIsOpen(cfg: Config, t: int)
    requires ValidConfig(cfg)
    ensures IsOpen(cfg, LastOpen(cfg, t)) && LastOpen(cfg, t) <= t
  {
    var n := |cfg.opens|;
    OpensByMeans(cfg.opens, t % DAY, n);
    Split(t);
    var k, m := OpensBy(cfg.opens, t % DAY, n), Midnight(t);
    if k > 0 { DayOf(m, m + cfg.opens[k - 1]); } else { DayOf(m - DAY, m - DAY + cfg.opens[n - 1]); }
  }

  lemma {:induction false} NoLaterOpen(cfg: Config, t: int, x: int)
    requires ValidConfig(cfg) && IsOpen(cfg, x) && x <= t
    ensures x <= LastOpen(cfg, t)
  {
    var n := |cfg.opens|;
    OpensByMeans(cfg.opens, t % DAY, n);
    Split(t);
    Split(x);
    var k, m := OpensBy(cfg.opens, t % DAY, n), Midnight(t);
    var i :| 0 <= i < n && cfg.opens[i] == x % DAY;
    assert cfg.opens[i] <= cfg.opens[n - 1];
    if Midnight(x) == m {
      assert cfg.opens[i] <= cfg.opens[k - 1];
    } else {
      SameOrEarlierDay(Midnight(x), m, x, t);
    }
  }

  /** LastOpen is the latest open at or before t. */
  lemma {:induction false} LastOpenMeans(cfg: Config, t: int)
    requires ValidConfig(cfg)
    ensures IsOpen(cfg, LastOpen(cfg, t)) && LastOpen(cfg, t) <= t
    ensures forall x :: IsOpen(cfg, x) && x <= t ==> x <= LastOpen(cfg, t)
  {
    hide LastOpen, IsOpen;
    LastOpenIsOpen(cfg, t);
    forall x | IsOpen(cfg, x) && x <= t
      ensures x <= LastOpen(cfg, t)
    {
      NoLaterOpen(cfg, t, x);
    }
  }

  lemma SameOrEarlierDay(a: int, b: int, x: int, t: int)
    requires a == Midnight(x) && b == Midnight(t) && x <= t && a != b
    ensures a + DAY <= b
  {
  }

  /** Later times belong to the same session or a later one. */
  lemma {:induction false} LastOpenMonotone(cfg: Config, t: int, u: int)
    requires ValidConfig(cfg) && t <= u
    ensures LastOpen(cfg, t) <= LastOpen(cfg, u)
  {
    LastOpenMeans(cfg, t);
    LastOpenMeans(cfg, u);
  }

  // ----------------------------------------------------------------- the session

  function Span(cfg: Config): int {
    if cfg.period > cfg.range then cfg.period else cfg.range
  }

  function SessionAt(cfg: Config, t: int): Session
    requires ValidConfig(cfg)
  {
    var open := LastOpen(cfg, t);
    var from := open - open % cfg.period;
    Session(open, from, from + Span(cfg), open + cfg.watch, 0, 0, 0, None)
  }

  /** A closed bar folded into its session. */
  function Fold(cfg: Config, s: Session, b: Candle): Session {
    if b.open < s.from then s
    else if b.open < s.until then
      s.(high := if s.bars == 0 || b.h > s.high then b.h else s.high,
         low := if s.bars == 0 || b.l < s.low then b.l else s.low,
         bars := s.bars + 1)
    else if s.bars > 0 && s.brk.None? && b.open < s.watchUntil then
      if b.c > s.high then s.(brk := Some(Break(Long, b.open + cfg.period, b.c, s.high)))
      else if b.c < s.low then s.(brk := Some(Break(Short, b.open + cfg.period, b.c, s.low)))
      else s
    else s
  }

  /** The session a bar finds: the current one, or its own started afresh. */
  function Found(cfg: Config, cur: Option<Session>, b: Candle): Session
    requires ValidConfig(cfg)
  {
    if cur.Some? && cur.value.openAt == LastOpen(cfg, b.open) then cur.value else SessionAt(cfg, b.open)
  }

  function Current(cfg: Config, hist: seq<Candle>): Option<Session>
    requires ValidConfig(cfg)
  {
    if hist == [] then None
    else
      var b := hist[|hist| - 1];
      Some(Fold(cfg, Found(cfg, Current(cfg, hist[..|hist| - 1]), b), b))
  }

  /** Bar i is the one its session broke out on. */
  predicate Breaks(cfg: Config, hist: seq<Candle>, i: nat)
    requires ValidConfig(cfg) && i < |hist|
  {
    Found(cfg, Current(cfg, hist[..i]), hist[i]).brk.None? && Current(cfg, hist[..i + 1]).value.brk.Some?
  }

  function LastBreak(cfg: Config, hist: seq<Candle>): Option<Break>
    requires ValidConfig(cfg)
  {
    if hist == [] then None
    else if Breaks(cfg, hist, |hist| - 1) then Current(cfg, hist[..|hist|]).value.brk
    else LastBreak(cfg, hist[..|hist| - 1])
  }

  class ORB {
    const cfg: Config
    var bars: seq<Candle>
    var forming: Option<Candle>
    var cur: Option<Session>
    var last: Option<Break>
    /** Every closed bar taken in since the last seed. */
    ghost var hist: seq<Candle>

    ghost predicate Valid()
      reads this
    {
      && ValidConfig(cfg) && bars == LastN(hist, cfg.history) && Ascending(hist)
      && cur == Current(cfg, hist) && last == LastBreak(cfg, hist)
    }

    constructor (cfg: Config)
      requires ValidConfig(cfg)
      ensures Valid() && hist == [] && this.cfg == cfg
    {
      this.cfg := cfg;
      bars, forming, cur, last, hist := [], None, None, None, [];
    }

    /** `opensAround`: three days of opens scanned in order. */
    method OpensAround(t: int) returns (last: int, next: int)
      requires ValidConfig(cfg)
      ensures Around(cfg, t, last, next) && last == LastOpen(cfg, t)
    {
      hide IsOpen, LastOpen;
      var midnight := Midnight(t);
      Split(t);
      var lo, hi: Option<int> := None, None;
      var day := -1;
      while day <= 1
        invariant -1 <= day <= 2
        invariant Scanned(cfg, t, midnight - DAY, midnight + day * DAY, lo, hi)
      {
        hide Scanned, Midnight;
        WholeDays(midnight, day);
        lo, hi := ScanDay(t, midnight - DAY, midnight + day * DAY, lo, hi);
        day := day + 1;
      }
      hide Scanned, Midnight;
      ScanFinds(cfg, t, midnight, lo, hi);
      AroundIsLast(cfg, t, lo.value, hi.value);
      return lo.value, hi.value;
    }

    /** One day's opens. */
    method ScanDay(t: int, start: int, base: int, lo0: Option<int>, hi0: Option<int>)
      returns (lo: Option<int>, hi: Option<int>)
      requires ValidConfig(cfg) && base % DAY == 0 && start <= base && Scanned(cfg, t, start, base, lo0, hi0)
      ensures Scanned(cfg, t, start, base + DAY, lo, hi)
    {
      hide Scanned, IsOpen;
      lo, hi := lo0, hi0;
      NoneBefore(cfg, t, start, base, lo, hi);
      for i := 0 to |cfg.opens|
        invariant Scanned(cfg, t, start, ScannedTo(cfg, base, i), lo, hi)
      {
        var at := base + cfg.opens[i];
        ScanStep(cfg, t, start, base, i, lo, hi);
        if at <= t { lo := Some(at); } else if hi.None? { hi := Some(at); }
      }
    }

    /** `appendLocked`. */
    method Append(b: Candle)
      requires Valid() && Newer(hist, b)
      modifies this
      ensures Valid() && hist == old(hist) + [b] && forming == old(forming)
    {
      hide Fold, Current, LastBreak, LastOpen, Found, Ascending, Newer, LastN;
      ghost var was, found := hist, Found(cfg, cur, b);
      Snoc(cfg, was, b);
      AppendAscends(was, b);
      Keep(b);
      Find(b);
      assert cur == Some(found);
      FoldIn(b);
    }

    /** The bar joins the buffer, trimmed to History. */
    method Keep(b: Candle)
      requires ValidConfig(cfg) && bars == LastN(hist, cfg.history)
      modifies this`bars, this`hist
      ensures hist == old(hist) + [b] && bars == LastN(hist, cfg.history)
    {
      LastNSnoc(hist, b, cfg.history);
      hist, bars := hist + [b], bars + [b];
      if |bars| > cfg.history { bars := bars[|bars| - cfg.history..]; }
    }

    /** The session the bar belongs to becomes the current one. */
    method Find(b: Candle)
      requires ValidConfig(cfg)
      modifies this`cur
      ensures cur == Some(Found(cfg, old(cur), b))
    {
      hide LastOpen;
      var open, _ := OpensAround(b.open);
      var from := open - open % cfg.period;
      if cur.None? || cur.value.openAt != open {
        cur := Some(Session(open, from, from + Span(cfg), open + cfg.watch, 0, 0, 0, None));
      }
    }

    /** The switch of `appendLocked`. */
    method FoldIn(b: Candle)
      requires cur.Some?
      modifies this`cur, this`last
      ensures cur == Some(Fold(cfg, old(cur).value, b))
      ensures last == if old(cur).value.brk.None? && cur.value.brk.Some? then cur.value.brk else old(last)
    {
      var s := cur.value;
      if b.open < s.from { return; }
      if b.open < s.until {
        if s.bars == 0 || b.h > s.high { s := s.(high := b.h); }
        if s.bars == 0 || b.l < s.low { s := s.(low := b.l); }
        s := s.(bars := s.bars + 1);
      } else if s.bars > 0 && s.brk == None && b.open < s.watchUntil {
        var at := b.open + cfg.period;
        if b.c > s.high {
          s := s.(brk := Some(Break(Long, at, b.c, s.high)));
        } else if b.c < s.low {
          s := s.(brk := Some(Break(Short, at, b.c, s.low)));
        }
        if s.brk.Some? { last := s.brk; }
      }
      cur := Some(s);
    }

    method Apply(b: Candle, now: int)
      requires Valid()
      modifies this
      ensures Valid() && hist == Accept(old(hist), b, now)
    {
      hide Current, LastBreak;
      if now < b.open + b.period {
        forming := Some(b);
        return;
      }
      if |bars| > 0 && bars[|bars| - 1].open >= b.open { return; }
      Append(b);
      if forming.Some? && forming.value.open <= b.open { forming := None; }
    }

    /** `Seed` on bars as sort.Slice left them. */
    method Seed(seed: seq<Candle>, now: int)
      requires Valid()
      modifies this
      ensures Valid() && hist == AcceptAll([], seed, now)
    {
      bars, forming, cur, last, hist := [], None, None, None, [];
      assert Valid();
      hide Current, LastBreak;
      for i := 0 to |seed|
        invariant Valid() && hist == AcceptAll([], seed[..i], now)
      {
        SeedOne(seed[i], now);
        AcceptSnoc([], seed, i, now);
      }
      assert seed[..|seed|] == seed;
    }

    method SeedOne(b: Candle, now: int)
      requires Valid()
      modifies this
      ensures Valid() && hist == Accept(old(hist), b, now)
    {
      hide Current, LastBreak;
      if now < b.open + b.period {
        forming := Some(b);
      } else if |bars| == 0 || bars[|bars| - 1].open < b.open {
        Append(b);
      }
    }
  }

  lemma AppendAscends(hist: seq<Candle>, b: Candle)
    requires Ascending(hist) && Newer(hist, b)
    ensures Ascending(hist + [b])
  {
  }

  // ---------------------------------------------------------- the scan of opens

  /** Of the opens in [start, end): the last at or before t, and the first after. */
  ghost predicate Scanned(cfg: Config, t: int, start: int, end: int, lo: Option<int>, hi: Option<int>) {
    && (forall x :: IsOpen(cfg, x) && start <= x < end ==>
          && (x <= t ==> lo.Some? && x <= lo.value)
          && (t < x ==> hi.Some? && hi.value <= x))
    && (lo.Some? ==> IsOpen(cfg, lo.value) && start <= lo.value <= t && lo.value < end)
    && (hi.Some? ==> IsOpen(cfg, hi.value) && t < hi.value < end)
  }

  /** No open lies between two neighbours in the day's list. */
  lemma {:induction false} NoneBetween(cfg: Config, base: int, i: nat)
    requires ValidConfig(cfg) && base % DAY == 0 && i < |cfg.opens|
    ensures IsOpen(cfg, base + cfg.opens[i])
    ensures forall x :: IsOpen(cfg, x) && base + cfg.opens[i] < x ==>
              x >= if i + 1 < |cfg.opens| then base + cfg.opens[i + 1] else base + DAY
  {
    DayOf(base, base + cfg.opens[i]);
    forall x | IsOpen(cfg, x) && base + cfg.opens[i] < x < base + DAY
      ensures i + 1 < |cfg.opens| && x >= base + cfg.opens[i + 1]
    {
      DayOf(base, x);
      var j :| 0 <= j < |cfg.opens| && cfg.opens[j] == x % DAY;
      assert j > i;
      if j > i + 1 { assert cfg.opens[i + 1] < cfg.opens[j]; }
    }
  }

  lemma {:induction false} NoneBefore(cfg: Config, t: int, start: int, base: int, lo: Option<int>, hi: Option<int>)
    requires ValidConfig(cfg) && base % DAY == 0 && Scanned(cfg, t, start, base, lo, hi)
    ensures Scanned(cfg, t, start, base + cfg.opens[0], lo, hi)
  {
    forall x | IsOpen(cfg, x) && base <= x < base + DAY
      ensures x >= base + cfg.opens[0]
    {
      DayOf(base, x);
      var j :| 0 <= j < |cfg.opens| && cfg.opens[j] == x % DAY;
      assert cfg.opens[0] <= cfg.opens[j];
    }
  }

  /** Where the opens scanned so far end, before the i-th of a day. */
  function ScannedTo(cfg: Config, base: int, i: nat): int
    requires i <= |cfg.opens|
  {
    if i < |cfg.opens| then base + cfg.opens[i] else base + DAY
  }

  lemma {:induction false} ScanStep(cfg: Config, t: int, start: int, base: int, i: nat, lo: Option<int>, hi: Option<int>)
    requires ValidConfig(cfg) && base % DAY == 0 && i < |cfg.opens| && start <= base
    requires Scanned(cfg, t, start, ScannedTo(cfg, base, i), lo, hi)
    ensures var at := base + cfg.opens[i];
            Scanned(cfg, t, start, ScannedTo(cfg, base, i + 1),
                    if at <= t then Some(at) else lo, if at > t && hi.None? then Some(at) else hi)
  {
    NoneBetween(cfg, base, i);
    hide IsOpen;
    assert i + 1 < |cfg.opens| ==> cfg.opens[i] < cfg.opens[i + 1];
  }

  lemma WholeDays(midnight: int, day: int)
    requires midnight % DAY == 0 && -1 <= day <= 1
    ensures (midnight + day * DAY) % DAY == 0
    ensures midnight - DAY <= midnight + day * DAY && midnight + day * DAY + DAY == midnight + (day + 1) * DAY
  {
  }

  lemma {:induction false} ScanFinds(cfg: Config, t: int, midnight: int, lo: Option<int>, hi: Option<int>)
    requires ValidConfig(cfg) && midnight % DAY == 0 && midnight <= t < midnight + DAY
    requires Scanned(cfg, t, midnight - DAY, midnight + 2 * DAY, lo, hi)
    ensures lo.Some? && hi.Some? && Around(cfg, t, lo.value, hi.value)
  {
    hide IsOpen;
    var first := midnight - DAY + cfg.opens[0];
    var after := midnight + DAY + cfg.opens[0];
    FirstOpen(cfg, midnight - DAY);
    FirstOpen(cfg, midnight + DAY);
    assert IsOpen(cfg, first) && midnight - DAY <= first < midnight + 2 * DAY && first <= t;
    assert IsOpen(cfg, after) && midnight - DAY <= after < midnight + 2 * DAY && t < after;
    assert lo.Some? && hi.Some?;
    forall x | IsOpen(cfg, x)
      ensures x <= lo.value || hi.value <= x
    {
      if x < midnight - DAY { assert x <= first <= lo.value; }
      if midnight + 2 * DAY <= x { assert hi.value <= after <= x; }
    }
  }

  lemma FirstOpen(cfg: Config, base: int)
    requires ValidConfig(cfg) && base % DAY == 0
    ensures IsOpen(cfg, base + cfg.opens[0])
  {
    DayOf(base, base + cfg.opens[0]);
  }

  lemma AroundIsLast(cfg: Config, t: int, last: int, next: int)
    requires ValidConfig(cfg) && Around(cfg, t, last, next)
    ensures last == LastOpen(cfg, t)
  {
    hide IsOpen, LastOpen;
    LastOpenMeans(cfg, t);
  }

  // ------------------------------------------------------- what a session means

  lemma Snoc(cfg: Config, hist: seq<Candle>, b: Candle)
    requires ValidConfig(cfg)
    ensures var found := Found(cfg, Current(cfg, hist), b);
            && Current(cfg, hist + [b]) == Some(Fold(cfg, found, b))
            && LastBreak(cfg, hist + [b])
               == if found.brk.None? && Fold(cfg, found, b).brk.Some? then Fold(cfg, found, b).brk else LastBreak(cfg, hist)
  {
    hide Fold;
    var all := hist + [b];
    assert all[..|hist|] == hist && all[..|hist| + 1] == all;
  }

  /** Bar i belongs to the session opened at `open`, inside its range. */
  predicate InRange(cfg: Config, hist: seq<Candle>, open: int, i: nat)
    requires ValidConfig(cfg) && i < |hist|
  {
    LastOpen(cfg, hist[i].open) == open && hist[i].open < open - open % cfg.period + Span(cfg)
  }

  /** Bar i belongs to the session, after its range and within its watch. */
  predicate Watched(cfg: Config, hist: seq<Candle>, open: int, i: nat)
    requires ValidConfig(cfg) && i < |hist|
  {
    && LastOpen(cfg, hist[i].open) == open
    && open - open % cfg.period + Span(cfg) <= hist[i].open < open + cfg.watch
  }

  predicate Outside(s: Session, b: Candle) {
    b.c > s.high || b.c < s.low
  }

  function BreakOn(cfg: Config, s: Session, b: Candle): Break {
    if b.c > s.high then Break(Long, b.open + cfg.period, b.c, s.high)
    else Break(Short, b.open + cfg.period, b.c, s.low)
  }

  /** The range is the extremes of exactly the session's range bars. */
  ghost predicate RangeIs(cfg: Config, hist: seq<Candle>, s: Session)
    requires ValidConfig(cfg)
  {
    && (s.bars > 0 <==> exists i :: 0 <= i < |hist| && InRange(cfg, hist, s.openAt, i))
    && (forall i :: 0 <= i < |hist| && InRange(cfg, hist, s.openAt, i) ==> hist[i].h <= s.high && s.low <= hist[i].l)
    && (s.bars > 0 ==> exists i :: 0 <= i < |hist| && InRange(cfg, hist, s.openAt, i) && hist[i].h == s.high)
    && (s.bars > 0 ==> exists i :: 0 <= i < |hist| && InRange(cfg, hist, s.openAt, i) && hist[i].l == s.low)
  }

  /** The break is the session's first watched bar to close outside a set range. */
  ghost predicate BreakIs(cfg: Config, hist: seq<Candle>, s: Session)
    requires ValidConfig(cfg)
  {
    match s.brk
    case None => forall i :: 0 <= i < |hist| && Watched(cfg, hist, s.openAt, i) && s.bars > 0 ==> !Outside(s, hist[i])
    case Some(br) =>
      s.bars > 0 && exists i :: 0 <= i < |hist| && FirstOut(cfg, hist, s, i) && br == BreakOn(cfg, s, hist[i])
  }

  ghost predicate FirstOut(cfg: Config, hist: seq<Candle>, s: Session, i: nat)
    requires ValidConfig(cfg) && i < |hist|
  {
    && Watched(cfg, hist, s.openAt, i) && Outside(s, hist[i])
    && forall j :: 0 <= j < i && Watched(cfg, hist, s.openAt, j) ==> !Outside(s, hist[j])
  }

  ghost predicate Meant(cfg: Config, hist: seq<Candle>, s: Session)
    requires ValidConfig(cfg)
  {
    && s.from == s.openAt - s.openAt % cfg.period && s.until == s.from + Span(cfg)
    && s.watchUntil == s.openAt + cfg.watch
    && RangeIs(cfg, hist, s) && BreakIs(cfg, hist, s)
  }

  /** A session just found has no bar before its first. */
  lemma {:induction false} FreshMeant(cfg: Config, hist: seq<Candle>, b: Candle)
    requires ValidConfig(cfg) && Ascending(hist) && Newer(hist, b)
    requires hist == [] || LastOpen(cfg, hist[|hist| - 1].open) != LastOpen(cfg, b.open)
    ensures Meant(cfg, hist, SessionAt(cfg, b.open))
  {
    hide LastOpen;
    forall i | 0 <= i < |hist|
      ensures LastOpen(cfg, hist[i].open) != LastOpen(cfg, b.open)
    {
      LastOpenMonotone(cfg, hist[i].open, hist[|hist| - 1].open);
      LastOpenMonotone(cfg, hist[|hist| - 1].open, b.open);
    }
  }

  lemma {:induction false} RangeStep(cfg: Config, hist: seq<Candle>, s: Session, b: Candle)
    requires ValidConfig(cfg) && Meant(cfg, hist, s) && s.openAt == LastOpen(cfg, b.open)
    ensures RangeIs(cfg, hist + [b], Fold(cfg, s, b))
    ensures s.openAt <= b.open && s.from <= s.openAt
  {
    LastOpenMeans(cfg, b.open);
    hide LastOpen;
    var all, t := hist + [b], Fold(cfg, s, b);
    assert all[|hist|] == b;
    forall i | 0 <= i < |hist|
      ensures all[i] == hist[i] && (InRange(cfg, all, s.openAt, i) <==> InRange(cfg, hist, s.openAt, i))
    {
    }
    assert InRange(cfg, all, s.openAt, |hist|) <==> b.open < s.until;
    hide InRange;
    if s.bars > 0 {
      var i :| 0 <= i < |hist| && InRange(cfg, hist, s.openAt, i) && hist[i].h == s.high;
      var j :| 0 <= j < |hist| && InRange(cfg, hist, s.openAt, j) && hist[j].l == s.low;
      assert InRange(cfg, all, s.openAt, i) && InRange(cfg, all, s.openAt, j);
    }
  }

  lemma {:induction false} BreakStep(cfg: Config, hist: seq<Candle>, s: Session, b: Candle)
    requires ValidConfig(cfg) && Ascending(hist + [b]) && Meant(cfg, hist, s) && s.openAt == LastOpen(cfg, b.open)
    requires s.openAt <= b.open && s.from <= s.openAt
    ensures BreakIs(cfg, hist + [b], Fold(cfg, s, b))
  {
    hide LastOpen;
    var all, t := hist + [b], Fold(cfg, s, b);
    assert all[|hist|] == b;
    forall i | 0 <= i < |hist|
      ensures all[i] == hist[i] && (Watched(cfg, all, s.openAt, i) <==> Watched(cfg, hist, s.openAt, i))
      ensures b.open < s.until ==> !Watched(cfg, hist, s.openAt, i)
    {
      assert all[i].open < all[|hist|].open;
    }
    if s.brk.Some? {
      var i :| 0 <= i < |hist| && FirstOut(cfg, hist, s, i) && s.brk.value == BreakOn(cfg, s, hist[i]);
      assert hist[i].open < b.open;
      assert t == s;
      assert FirstOut(cfg, all, t, i) && t.brk.value == BreakOn(cfg, t, all[i]);
    } else if t.brk.Some? {
      assert FirstOut(cfg, all, t, |hist|) && t.brk.value == BreakOn(cfg, t, all[|hist|]);
    }
  }

  /** For every ascending stream: the current session is the newest bar's; its
      range is the highest high and lowest low of exactly that session's bars
      opening before the range ends; its break, if any, is its first bar within
      the watch to close strictly outside that range. */
  lemma {:induction false} SessionMeans(cfg: Config, hist: seq<Candle>)
    requires ValidConfig(cfg) && Ascending(hist) && hist != []
    ensures Current(cfg, hist).Some?
    ensures var s := Current(cfg, hist).value;
            s.openAt == LastOpen(cfg, hist[|hist| - 1].open) && Meant(cfg, hist, s)
    decreases |hist|, 0
  {
    hide LastOpen, Fold, Meant;
    var front, b := hist[..|hist| - 1], hist[|hist| - 1];
    assert hist == front + [b];
    var s := Found(cfg, Current(cfg, front), b);
    FoundMeans(cfg, front, b);
    FoldMeant(cfg, front, s, b);
  }

  lemma {:induction false} FoundMeans(cfg: Config, front: seq<Candle>, b: Candle)
    requires ValidConfig(cfg) && Ascending(front + [b])
    ensures var s := Found(cfg, Current(cfg, front), b);
            s.openAt == LastOpen(cfg, b.open) && Meant(cfg, front, s)
    decreases |front|, 1
  {
    hide LastOpen, Fold, Meant;
    assert forall i :: 0 <= i < |front| ==> (front + [b])[i] == front[i];
    assert (front + [b])[|front|] == b;
    if front == [] {
      FreshMeant(cfg, front, b);
    } else {
      SessionMeans(cfg, front);
      if Current(cfg, front).value.openAt != LastOpen(cfg, b.open) { FreshMeant(cfg, front, b); }
    }
  }

  lemma FoldMeant(cfg: Config, hist: seq<Candle>, s: Session, b: Candle)
    requires ValidConfig(cfg) && Ascending(hist + [b]) && Meant(cfg, hist, s) && s.openAt == LastOpen(cfg, b.open)
    ensures Meant(cfg, hist + [b], Fold(cfg, s, b)) && Fold(cfg, s, b).openAt == s.openAt
  {
    hide LastOpen, RangeIs, BreakIs;
    RangeStep(cfg, hist, s, b);
    BreakStep(cfg, hist, s, b);
  }

  /** Sessions are never revisited. */
  lemma {:induction false} NeverRevisited(cfg: Config, hist: seq<Candle>, i: nat, k: nat)
    requires ValidConfig(cfg) && Ascending(hist) && i < k < |hist|
    requires LastOpen(cfg, hist[i].open) == LastOpen(cfg, hist[k].open)
    ensures forall j :: i <= j <= k ==> LastOpen(cfg, hist[j].open) == LastOpen(cfg, hist[i].open)
  {
    hide LastOpen;
    forall j | i < j < k
      ensures LastOpen(cfg, hist[j].open) == LastOpen(cfg, hist[i].open)
    {
      LastOpenMonotone(cfg, hist[i].open, hist[j].open);
      LastOpenMonotone(cfg, hist[j].open, hist[k].open);
    }
  }

  /** A break stays with its session until a bar of another one comes. */
  lemma {:induction false} BreakStays(cfg: Config, hist: seq<Candle>, i: nat, j: nat)
    requires ValidConfig(cfg) && Ascending(hist) && i < j < |hist|
    requires Current(cfg, hist[..i + 1]).value.brk.Some?
    requires LastOpen(cfg, hist[i].open) == LastOpen(cfg, hist[j].open)
    ensures Found(cfg, Current(cfg, hist[..j]), hist[j]).brk.Some?
    decreases j
  {
    hide LastOpen, Fold, Meant, Current, Found, Ascending;
    NeverRevisited(cfg, hist, i, j);
    if i + 1 < j {
      NeverRevisited(cfg, hist, i, j - 1);
      BreakStays(cfg, hist, i, j - 1);
      StepKeepsBreak(cfg, hist, j);
    }
    FoundAgain(cfg, hist, j);
  }

  /** A bar of the same session finds the session where the one before left it. */
  lemma {:induction false} FoundAgain(cfg: Config, hist: seq<Candle>, j: nat)
    requires ValidConfig(cfg) && Ascending(hist) && 0 < j < |hist|
    requires LastOpen(cfg, hist[j - 1].open) == LastOpen(cfg, hist[j].open)
    ensures Current(cfg, hist[..j]) == Some(Found(cfg, Current(cfg, hist[..j]), hist[j]))
  {
    hide LastOpen, Fold, Meant, Current;
    SessionMeans(cfg, hist[..j]);
    assert hist[..j][j - 1] == hist[j - 1];
  }

  lemma StepKeepsBreak(cfg: Config, hist: seq<Candle>, j: nat)
    requires ValidConfig(cfg) && 0 < j <= |hist|
    requires Found(cfg, Current(cfg, hist[..j - 1]), hist[j - 1]).brk.Some?
    ensures Current(cfg, hist[..j]).value.brk.Some?
  {
    hide LastOpen, Found;
    assert hist[..j][..j - 1] == hist[..j - 1];
  }

  /** Each session breaks out at most once. */
  lemma {:induction false} OneBreakEach(cfg: Config, hist: seq<Candle>, i: nat, j: nat)
    requires ValidConfig(cfg) && Ascending(hist) && i < j < |hist|
    requires Breaks(cfg, hist, i) && Breaks(cfg, hist, j)
    ensures LastOpen(cfg, hist[i].open) < LastOpen(cfg, hist[j].open)
  {
    LastOpenMonotone(cfg, hist[i].open, hist[j].open);
    hide LastOpen, Current;
    if LastOpen(cfg, hist[i].open) == LastOpen(cfg, hist[j].open) { BreakStays(cfg, hist, i, j); }
  }

  // ------------------------------------------------------------------- the seed

  /** What a seed must reach back: the watch, the range and a bar's slack. */
  function Lookback(cfg: Config): int {
    cfg.watch + Span(cfg) + cfg.period
  }

  /** Bars before the newest bar's session do not matter to it. */
  lemma {:induction false} SuffixSame(cfg: Config, hist: seq<Candle>, k: nat)
    requires ValidConfig(cfg) && Ascending(hist) && k < |hist|
    requires forall i :: 0 <= i < k ==> LastOpen(cfg, hist[i].open) != LastOpen(cfg, hist[|hist| - 1].open)
    ensures Current(cfg, hist[k..]) == Current(cfg, hist)
    decreases |hist|
  {
    hide LastOpen, Fold, Meant;
    var n := |hist| - 1;
    var front, b := hist[..n], hist[n];
    assert hist[k..][..n - k] == front[k..] && hist[k..][n - k] == b;
    if k == n {
      assert hist[k..][..0] == [];
      if k > 0 {
        SessionMeans(cfg, front);
        assert front[k - 1] == hist[k - 1];
      }
    } else if LastOpen(cfg, hist[n - 1].open) == LastOpen(cfg, b.open) {
      SuffixSame(cfg, front, k);
    } else {
      SessionMeans(cfg, front);
      SessionMeans(cfg, front[k..]);
      assert front[n - 1] == hist[n - 1] == front[k..][n - 1 - k];
    }
  }

  /** While the newest session's watch lasts, a seed of at least Lookback of history
      leaves that session, its range and its break, as the whole stream does. */
  lemma {:induction false} SeedSeesSession(cfg: Config, hist: seq<Candle>, k: nat, now: int)
    requires ValidConfig(cfg) && Ascending(hist) && hist != [] && k <= |hist|
    requires now < LastOpen(cfg, hist[|hist| - 1].open) + cfg.watch
    requires forall i :: 0 <= i < k ==> hist[i].open < now - Lookback(cfg)
    ensures k < |hist| && Current(cfg, hist[k..]) == Current(cfg, hist)
  {
    var n := |hist| - 1;
    LastOpenMeans(cfg, hist[n].open);
    hide LastOpen;
    forall i | 0 <= i < k
      ensures LastOpen(cfg, hist[i].open) != LastOpen(cfg, hist[n].open)
    {
      LastOpenMeans(cfg, hist[i].open);
    }
    SuffixSame(cfg, hist, k);
  }

  /** And it stays so whatever bars follow. */
  lemma {:induction false} SeedStaysRight(cfg: Config, hist: seq<Candle>, k: nat, more: seq<Candle>)
    requires ValidConfig(cfg) && k <= |hist| && Current(cfg, hist[k..]) == Current(cfg, hist)
    ensures Current(cfg, hist[k..] + more) == Current(cfg, hist + more)
    decreases |more|
  {
    hide LastOpen, Fold, Found;
    if more == [] {
      assert hist[k..] + more == hist[k..] && hist + more == hist;
    } else {
      var m := |more| - 1;
      SeedStaysRight(cfg, hist, k, more[..m]);
      assert (hist[k..] + more)[..|hist| - k + m] == hist[k..] + more[..m];
      assert (hist + more)[..|hist| + m] == hist + more[..m];
    }
  }

  /** On bars of the grid at least as long as the range, a session whose open is
      off the grid never gets a range, so it never breaks out. */
  lemma {:induction false} OffGridOpenGetsNoRange(cfg: Config, hist: seq<Candle>)
    requires ValidConfig(cfg) && Ascending(hist) && hist != []
    requires cfg.period >= cfg.range && forall i :: 0 <= i < |hist| ==> hist[i].open % cfg.period == 0
    requires LastOpen(cfg, hist[|hist| - 1].open) % cfg.period != 0
    ensures Current(cfg, hist).Some? && Current(cfg, hist).value.bars == 0 && Current(cfg, hist).value.brk.None?
  {
    SessionMeans(cfg, hist);
    var s := Current(cfg, hist).value;
    forall i | 0 <= i < |hist| && InRange(cfg, hist, s.openAt, i)
      ensures false
    {
      LastOpenMeans(cfg, hist[i].open);
      GridGap(s.openAt, hist[i].open, cfg.period);
    }
  }

  /** The first bar of the grid in a session falls in its range exactly when the open
      is on the grid or a bar is shorter than the range. */
  lemma FirstBarInRange(cfg: Config, open: int, t: int)
    requires cfg.period > 0 && t % cfg.period == 0 && open <= t < open + cfg.period
    ensures t < open - open % cfg.period + Span(cfg) <==> open % cfg.period == 0 || cfg.period < cfg.range
  {
    var p, a, b := cfg.period, open / cfg.period, t / cfg.period;
    DivMod(open, p);
    DivMod(t, p);
    if open % p != 0 {
      GridGap(open, t, p);
      if b >= a + 2 { MulMono(a + 2, b, p); }
      if b <= a { MulMono(b, a, p); }
      assert (a + 1) * p == a * p + p && (a + 2) * p == a * p + p + p;
    } else {
      if b >= a + 1 { MulMono(a + 1, b, p); }
      assert (a + 1) * p == a * p + p;
    }
  }

  /** For every stream of grid bars that has the first bar of its newest session: the
      session has a range if and only if its open is on the grid or a bar is shorter
      than the range. */
  lemma {:induction false} RangeIff(cfg: Config, hist: seq<Candle>, i: nat)
    requires ValidConfig(cfg) && Ascending(hist) && i < |hist|
    requires forall j :: 0 <= j < |hist| ==> hist[j].open % cfg.period == 0
    requires var open := LastOpen(cfg, hist[|hist| - 1].open);
             LastOpen(cfg, hist[i].open) == open && hist[i].open < open + cfg.period
    ensures Current(cfg, hist).Some?
    ensures Current(cfg, hist).value.bars > 0
       <==> LastOpen(cfg, hist[|hist| - 1].open) % cfg.period == 0 || cfg.period < cfg.range
  {
    var open := LastOpen(cfg, hist[|hist| - 1].open);
    SessionMeans(cfg, hist);
    LastOpenMeans(cfg, hist[i].open);
    hide LastOpen, Current, Ascending, IsOpen;
    FirstBarInRange(cfg, open, hist[i].open);
    if open % cfg.period == 0 || cfg.period < cfg.range {
      assert InRange(cfg, hist, open, i);
    } else {
      OffGridOpenGetsNoRange(cfg, hist);
    }
  }

  const HOUR: int := 3_600_000_000_000

  /** The shipped sessions and range on hourly bars. */
  const HOURLY := Config(HOUR, [0, 8 * HOUR, 13 * HOUR + HOUR / 2], HOUR / 4, 4 * HOUR, 60)

  /** On the hourly chart the 13:30 session never gets a range, so a close far outside
      the bar before it is no breakout. */
  lemma {:induction false} HourlyMissesNewYork()
    ensures var hist := [Bar(14 * HOUR, 100), Bar(15 * HOUR, 900)];
            && ValidConfig(HOURLY) && LastOpen(HOURLY, 15 * HOUR) == 13 * HOUR + HOUR / 2
            && Current(HOURLY, hist).Some? && Current(HOURLY, hist).value.bars == 0
            && Current(HOURLY, hist).value.brk.None?
  {
    var hist := [Bar(14 * HOUR, 100), Bar(15 * HOUR, 900)];
    assert OpensBy(HOURLY.opens, 15 * HOUR, 3) == 3;
    OffGridOpenGetsNoRange(HOURLY, hist);
  }

  function Bar(open: int, close: int): Candle {
    Candle(open, HOUR, close, close, close, close, 0, 0)
  }

  lemma GridGap(open: int, t: int, p: int)
    requires p > 0 && t % p == 0 && open <= t && open % p != 0
    ensures t >= open - open % p + p
  {
    var a, b := open / p, t / p;
    DivMod(open, p);
    DivMod(t, p);
    MulMono(if b <= a then b else a, a, p);
    MulMono(a + 1, if b > a then b else a + 1, p);
    assert (a + 1) * p == a * p + p;
  }

  /** A bar of an ascending stream is in its newest session exactly when it opens no
      earlier than that does. */
  lemma {:induction false} SinceOpen(cfg: Config, hist: seq<Candle>, i: nat)
    requires ValidConfig(cfg) && Ascending(hist) && i < |hist|
    ensures var open := LastOpen(cfg, hist[|hist| - 1].open);
            LastOpen(cfg, hist[i].open) == open <==> open <= hist[i].open
  {
    var open := LastOpen(cfg, hist[|hist| - 1].open);
    LastOpenMeans(cfg, hist[|hist| - 1].open);
    LastOpenMeans(cfg, hist[i].open);
    hide LastOpen;
    assert hist[i].open <= hist[|hist| - 1].open;
  }

  /** Where the newest session of an ascending stream lies: it opens at the latest of
      the days' opens, its range starts on the grid and lasts the range or a whole bar,
      and it is watched from its open. */
  lemma {:induction false} SessionLies(cfg: Config, hist: seq<Candle>)
    requires ValidConfig(cfg) && Ascending(hist) && hist != []
    ensures Current(cfg, hist).Some?
    ensures var s, t := Current(cfg, hist).value, hist[|hist| - 1].open;
            && s.openAt <= t && s.openAt % 86_400_000_000_000 in cfg.opens
            && (forall x :: s.openAt < x <= t ==> x % 86_400_000_000_000 !in cfg.opens)
            && s.from % cfg.period == 0 && s.from <= s.openAt < s.from + cfg.period
            && s.until == s.from + (if cfg.range < cfg.period then cfg.period else cfg.range)
            && s.watchUntil == s.openAt + cfg.watch
  {
    SessionMeans(cfg, hist);
    var s, t := Current(cfg, hist).value, hist[|hist| - 1].open;
    LastOpenMeans(cfg, t);
    hide LastOpen, Current, RangeIs, BreakIs;
    DivMod(s.openAt, cfg.period);
    QuotientIs(s.from, cfg.period, s.openAt / cfg.period, 0);
    forall x | s.openAt < x <= t
      ensures x % 86_400_000_000_000 !in cfg.opens
    {
      assert !IsOpen(cfg, x);
    }
  }

  predicate Opens(b: Candle, from: int, until: int) {
    from <= b.open < until
  }

  /** What it tells: its range is set by the bars from its open until the range ends,
      and it breaks out on the first bar from there to the end of the watch to close
      outside the range, above for a long and below for a short. */
  lemma {:induction false} SessionTells(cfg: Config, hist: seq<Candle>)
    requires ValidConfig(cfg) && Ascending(hist) && hist != []
    ensures Current(cfg, hist).Some?
    ensures var s := Current(cfg, hist).value;
            && (s.bars == 0 <==> forall i :: 0 <= i < |hist| ==> !Opens(hist[i], s.openAt, s.until))
            && (forall i :: 0 <= i < |hist| && Opens(hist[i], s.openAt, s.until) ==> hist[i].h <= s.high && s.low <= hist[i].l)
            && (s.bars > 0 ==> exists i :: 0 <= i < |hist| && Opens(hist[i], s.openAt, s.until) && hist[i].h == s.high)
            && (s.bars > 0 ==> exists i :: 0 <= i < |hist| && Opens(hist[i], s.openAt, s.until) && hist[i].l == s.low)
    ensures var s := Current(cfg, hist).value;
            var from := if s.openAt < s.until then s.until else s.openAt;
            match s.brk
            case None =>
              s.bars == 0 || forall i :: 0 <= i < |hist| && Opens(hist[i], from, s.watchUntil) ==> s.low <= hist[i].c <= s.high
            case Some(br) =>
              && s.bars > 0 && (if br.side == Long then br.price > br.level == s.high else br.price < br.level == s.low)
              && exists i :: 0 <= i < |hist| && Opens(hist[i], from, s.watchUntil)
                          && br.at == hist[i].open + cfg.period && br.price == hist[i].c
                          && forall j :: 0 <= j < i && Opens(hist[j], from, s.watchUntil) ==> s.low <= hist[j].c <= s.high
  {
    SessionMeans(cfg, hist);
    var s := Current(cfg, hist).value;
    forall i | 0 <= i < |hist|
      ensures InRange(cfg, hist, s.openAt, i) <==> Opens(hist[i], s.openAt, s.until)
      ensures Watched(cfg, hist, s.openAt, i) <==>
                Opens(hist[i], if s.openAt < s.until then s.until else s.openAt, s.watchUntil)
    {
      hide Current, LastOpen;
      SinceOpen(cfg, hist, i);
    }
    hide InRange, Watched, Opens, Current, LastOpen;
  }

  /** How many bars open in a span. */
  function HowMany(hist: seq<Candle>, from: int, until: int): nat {
    if hist == [] then 0
    else var n := |hist| - 1; HowMany(hist[..n], from, until) + if Opens(hist[n], from, until) then 1 else 0
  }

  lemma {:induction false} NoneOpen(hist: seq<Candle>, from: int, until: int)
    requires forall i :: 0 <= i < |hist| ==> hist[i].open < from
    ensures HowMany(hist, from, until) == 0
  {
    if hist != [] { NoneOpen(hist[..|hist| - 1], from, until); }
  }

  /** A bar that opens no earlier than its session is counted if the range still runs. */
  lemma FoldCounts(cfg: Config, s: Session, front: seq<Candle>, b: Candle)
    requires s.from <= s.openAt <= b.open && s.bars == HowMany(front, s.openAt, s.until)
    ensures var t := Fold(cfg, s, b);
            t.openAt == s.openAt && t.until == s.until && t.bars == HowMany(front + [b], t.openAt, t.until)
  {
    assert (front + [b])[..|front|] == front;
  }

  lemma {:induction false} FoundCounts(cfg: Config, front: seq<Candle>, b: Candle)
    requires ValidConfig(cfg) && Ascending(front) && Newer(front, b)
    requires front != [] ==>
               Current(cfg, front).Some?
               && var s := Current(cfg, front).value;
                  && s.openAt == LastOpen(cfg, front[|front| - 1].open) && s.from <= s.openAt
                  && s.bars == HowMany(front, s.openAt, s.until)
    ensures var s := Found(cfg, Current(cfg, front), b);
            s.from <= s.openAt <= b.open && s.bars == HowMany(front, s.openAt, s.until)
  {
    LastOpenMeans(cfg, b.open);
    var open := LastOpen(cfg, b.open);
    DivMod(open, cfg.period);
    if front != [] { LastOpenMeans(cfg, front[|front| - 1].open); }
    hide LastOpen, Current, Fold;
    var s := Found(cfg, if front == [] then None else Current(cfg, front), b);
    if front == [] || Current(cfg, front).value.openAt != open {
      NoneOpen(front, open, SessionAt(cfg, b.open).until);
    }
  }

  /** A session counts the bars its range was set by. */
  lemma {:induction false} SessionCounts(cfg: Config, hist: seq<Candle>)
    requires ValidConfig(cfg) && Ascending(hist) && hist != []
    ensures Current(cfg, hist).Some?
    ensures var s := Current(cfg, hist).value; s.bars == HowMany(hist, s.openAt, s.until)
  {
    var n := |hist| - 1;
    var front, b := hist[..n], hist[n];
    assert front + [b] == hist;
    assert Current(cfg, hist) == Some(Fold(cfg, Found(cfg, Current(cfg, front), b), b));
    if n > 0 {
      SessionMeans(cfg, front);
      SessionCounts(cfg, front);
      SessionLies(cfg, front);
    }
    hide LastOpen, Current, Fold, Found, HowMany, RangeIs, BreakIs;
    FoundCounts(cfg, front, b);
    FoldCounts(cfg, Found(cfg, Current(cfg, front), b), front, b);
  }
}
