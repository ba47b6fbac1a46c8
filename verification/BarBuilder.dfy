/** The bar builder of platform/signals.go: minute bars, repeated while they form,
    folded into bars of a larger period. */
module BarBuilder {
  import opened Wrappers
  import opened Arith
  import opened Candles

  function Bucket(p: int, t: int): int
    requires p > 0
  {
    t - t % p
  }

  // ------------------------------------------------------ what a bar should say

  /** What a bar counts rather than marks. */
  datatype Flow = Flow(volume: int, trades: int)

  function Total(s: seq<Candle>): Flow {
    if s == [] then Flow(0, 0)
    else var rest := Total(s[1..]); Flow(s[0].volume + rest.volume, s[0].trades + rest.trades)
  }

  /** The last version of each minute: the bars not followed by one of the same open. */
  function Finals(s: seq<Candle>): seq<Candle> {
    if |s| <= 1 then s
    else if s[0].open == s[1].open then Finals(s[1..])
    else [s[0]] + Finals(s[1..])
  }

  function Highest(s: seq<Candle>): int
    requires s != []
  {
    var n := |s| - 1;
    if n == 0 || Highest(s[..n]) < s[n].h then s[n].h else Highest(s[..n])
  }

  function Lowest(s: seq<Candle>): int
    requires s != []
  {
    var n := |s| - 1;
    if n == 0 || s[n].l < Lowest(s[..n]) then s[n].l else Lowest(s[..n])
  }

  /** The low kept: a zero is taken for a missing price, so whatever follows replaces it. */
  function KeptLow(s: seq<Candle>): int
    requires s != []
  {
    var n := |s| - 1;
    if n == 0 || s[n].l < KeptLow(s[..n]) || KeptLow(s[..n]) == 0 then s[n].l else KeptLow(s[..n])
  }

  /** The bar of one bucket's minutes. */
  function BarOf(p: int, s: seq<Candle>): Candle
    requires p > 0 && s != []
  {
    var flow := Total(Finals(s));
    Candle(Bucket(p, s[0].open), p, s[0].o, Highest(s), KeptLow(s), s[|s| - 1].c, flow.volume, flow.trades)
  }

  /** The newest bars that share a bucket. */
  function Run(p: int, ms: seq<Candle>): (r: seq<Candle>)
    requires p > 0
    ensures ms != [] ==> r != [] && r[|r| - 1] == ms[|ms| - 1]
  {
    var n := |ms| - 1;
    if n <= 0 then ms
    else if Bucket(p, ms[n - 1].open) != Bucket(p, ms[n].open) then [ms[n]]
    else Run(p, ms[..n]) + [ms[n]]
  }

  function Forming(p: int, ms: seq<Candle>): Option<Candle>
    requires p > 0
  {
    if ms == [] then None else Some(BarOf(p, Run(p, ms)))
  }

  /** The bars a minute closes: the bucket before it, when it opens another. */
  function ClosedBy(p: int, ms: seq<Candle>, m: Candle): seq<Candle>
    requires p > 0
  {
    if ms != [] && Bucket(p, ms[|ms| - 1].open) != Bucket(p, m.open) then [BarOf(p, Run(p, ms))] else []
  }

  /** Every bar a stream closes, in the order they are sent on. */
  function Closes(p: int, ms: seq<Candle>): seq<Candle>
    requires p > 0
  {
    if ms == [] then [] else var n := |ms| - 1; Closes(p, ms[..n]) + ClosedBy(p, ms[..n], ms[n])
  }

  // ------------------------------------------------------------------ the builder

  class BarBuilder {
    const period: int
    var cur: Option<Candle>
    var lastMinute: int
    var lastO: Candle
    /** Every minute bar folded in, repeats included. */
    ghost var fed: seq<Candle>

    ghost predicate Valid()
      reads this
    {
      && period > 0 && cur == Forming(period, fed)
      && (fed != [] ==> lastO == fed[|fed| - 1] && lastMinute == lastO.open)
    }

    constructor (period: int)
      requires period > 0
      ensures Valid() && fed == [] && this.period == period
    {
      this.period := period;
      cur, lastMinute, lastO, fed := None, 0, Candle(0, 0, 0, 0, 0, 0, 0, 0), [];
    }

    method Add(m: Candle) returns (out: seq<Candle>)
      requires Valid()
      modifies this
      ensures Valid() && fed == old(fed) + [m]
      ensures out == ClosedBy(period, old(fed), m) + [Forming(period, fed).value]
    {
      hide BarOf, Run;
      FormingOpen(period, fed);
      FormingSnoc(period, fed, m);
      var bucket := m.open - m.open % period;
      out := [];
      if cur.Some? && cur.value.open != bucket {
        out := [cur.value];
        cur := None;
      }
      if cur.None? {
        cur := Some(Candle(bucket, period, m.o, m.h, m.l, m.c, m.volume, m.trades));
      } else {
        var c := cur.value;
        if m.open == lastMinute {
          c := c.(volume := c.volume - lastO.volume, trades := c.trades - lastO.trades);
        }
        if m.h > c.h { c := c.(h := m.h); }
        if m.l < c.l || c.l == 0 { c := c.(l := m.l); }
        cur := Some(c.(c := m.c, volume := c.volume + m.volume, trades := c.trades + m.trades));
      }
      lastMinute, lastO := m.open, m;
      fed := fed + [m];
      out := out + [cur.value];
    }
  }

  // ------------------------------------------------------------- minutes' totals

  lemma {:induction false} TotalConcat(s: seq<Candle>, t: seq<Candle>)
    ensures Total(s + t).volume == Total(s).volume + Total(t).volume
    ensures Total(s + t).trades == Total(s).trades + Total(t).trades
  {
    if s == [] {
      assert s + t == t;
    } else {
      assert (s + t)[1..] == s[1..] + t;
      TotalConcat(s[1..], t);
    }
  }

  /** A repeat replaces the last final bar; a new minute joins them. */
  lemma {:induction false} FinalsSnoc(s: seq<Candle>, m: Candle)
    requires s != []
    ensures Finals(s) != [] && Finals(s)[|Finals(s)| - 1] == s[|s| - 1]
    ensures var f := Finals(s);
            Finals(s + [m]) == (if s[|s| - 1].open == m.open then f[..|f| - 1] else f) + [m]
  {
    if |s| > 1 {
      assert (s + [m])[1..] == s[1..] + [m];
      FinalsSnoc(s[1..], m);
    }
  }

  lemma {:induction false} FlowSnoc(s: seq<Candle>, m: Candle)
    requires s != []
    ensures var n, before, after := |s| - 1, Total(Finals(s)), Total(Finals(s + [m]));
            var back := if s[n].open == m.open then Flow(s[n].volume, s[n].trades) else Flow(0, 0);
            after == Flow(before.volume - back.volume + m.volume, before.trades - back.trades + m.trades)
  {
    FinalsSnoc(s, m);
    var f := Finals(s);
    var front := f[..|f| - 1];
    assert f == front + [s[|s| - 1]];
    TotalConcat(front, [s[|s| - 1]]);
    TotalConcat(front, [m]);
    TotalConcat(f, [m]);
  }

  /** t is b with m joined to it, m replacing the last minute if it repeats it. */
  predicate Joined(b: Candle, last: Candle, m: Candle, t: Candle) {
    && t.open == b.open && t.period == b.period && t.o == b.o && t.c == m.c
    && t.h == (if b.h < m.h then m.h else b.h)
    && t.l == (if m.l < b.l || b.l == 0 then m.l else b.l)
    && t.volume == b.volume - (if last.open == m.open then last.volume else 0) + m.volume
    && t.trades == b.trades - (if last.open == m.open then last.trades else 0) + m.trades
  }

  lemma {:induction false} BarSnoc(p: int, s: seq<Candle>, m: Candle)
    requires p > 0 && s != []
    ensures Joined(BarOf(p, s), s[|s| - 1], m, BarOf(p, s + [m]))
  {
    FlowSnoc(s, m);
    assert (s + [m])[..|s|] == s;
  }

  // ---------------------------------------------------------------- one more bar

  lemma RunSnoc(p: int, ms: seq<Candle>, m: Candle)
    requires p > 0
    ensures Run(p, ms + [m])
         == if ms == [] || Bucket(p, ms[|ms| - 1].open) != Bucket(p, m.open) then [m] else Run(p, ms) + [m]
  {
    assert (ms + [m])[..|ms|] == ms;
  }

  /** A run lies in one bucket. */
  lemma {:induction false} RunOpen(p: int, ms: seq<Candle>)
    requires p > 0 && ms != []
    ensures forall i :: 0 <= i < |Run(p, ms)| ==> Bucket(p, Run(p, ms)[i].open) == Bucket(p, ms[|ms| - 1].open)
  {
    if |ms| > 1 { RunOpen(p, ms[..|ms| - 1]); }
  }

  lemma FormingOpen(p: int, ms: seq<Candle>)
    requires p > 0
    ensures ms != [] ==> Forming(p, ms).value.open == Bucket(p, ms[|ms| - 1].open)
  {
    hide Highest, KeptLow, Total;
    if ms != [] { RunOpen(p, ms); }
  }

  /** What one more minute makes of the bar being formed. */
  lemma FormingSnoc(p: int, ms: seq<Candle>, m: Candle)
    requires p > 0
    ensures if ms == [] || Bucket(p, ms[|ms| - 1].open) != Bucket(p, m.open)
            then Forming(p, ms + [m]) == Some(Candle(Bucket(p, m.open), p, m.o, m.h, m.l, m.c, m.volume, m.trades))
            else Joined(Forming(p, ms).value, ms[|ms| - 1], m, Forming(p, ms + [m]).value)
  {
    RunSnoc(p, ms, m);
    if ms != [] && Bucket(p, ms[|ms| - 1].open) == Bucket(p, m.open) {
      hide BarOf, Run;
      BarSnoc(p, Run(p, ms), m);
    } else {
      TotalOne(m);
    }
  }

  // --------------------------------------------------------------- what bars mean

  lemma {:induction false} HighestMeans(s: seq<Candle>)
    requires s != []
    ensures forall i :: 0 <= i < |s| ==> s[i].h <= Highest(s)
    ensures exists i :: 0 <= i < |s| && s[i].h == Highest(s)
  {
    var n := |s| - 1;
    assert s[n].h == Highest(s) || (n > 0 && Highest(s[..n]) == Highest(s));
    if n > 0 { HighestMeans(s[..n]); }
  }

  lemma {:induction false} LowestMeans(s: seq<Candle>)
    requires s != []
    ensures forall i :: 0 <= i < |s| ==> Lowest(s) <= s[i].l
    ensures exists i :: 0 <= i < |s| && s[i].l == Lowest(s)
  {
    var n := |s| - 1;
    assert s[n].l == Lowest(s) || (n > 0 && Lowest(s[..n]) == Lowest(s));
    if n > 0 { LowestMeans(s[..n]); }
  }

  /** The kept low is the lowest low unless that is zero and a later bar replaced it. */
  lemma {:induction false} LowIff(s: seq<Candle>)
    requires s != []
    ensures KeptLow(s) == Lowest(s) <==> Lowest(s) != 0 || s[|s| - 1].l == 0
    ensures Lowest(s) == 0 ==> KeptLow(s) >= 0
  {
    if |s| > 1 { LowIff(s[..|s| - 1]); }
  }

  /** A repeat of a minute only widens its high and low. */
  predicate Widens(ms: seq<Candle>) {
    forall i :: 0 < i < |ms| && ms[i - 1].open == ms[i].open ==> ms[i - 1].h <= ms[i].h && ms[i].l <= ms[i - 1].l
  }

  predicate Ordered(ms: seq<Candle>) {
    forall i, j :: 0 <= i < j < |ms| ==> ms[i].open <= ms[j].open
  }

  lemma ExtremesSnoc(s: seq<Candle>, m: Candle)
    ensures s != [] ==> Highest(s + [m]) == if Highest(s) < m.h then m.h else Highest(s)
    ensures s != [] ==> Lowest(s + [m]) == if m.l < Lowest(s) then m.l else Lowest(s)
    ensures s == [] ==> Highest(s + [m]) == m.h && Lowest(s + [m]) == m.l
  {
    assert (s + [m])[..|s|] == s;
  }

  /** When repeats widen, the extremes are those of the final versions alone. */
  lemma {:induction false} FinalExtremes(s: seq<Candle>)
    requires s != [] && Widens(s)
    ensures Finals(s) != []
    ensures Highest(s) == Highest(Finals(s)) && Lowest(s) == Lowest(Finals(s))
  {
    if |s| > 1 {
      var n := |s| - 1;
      var front, m := s[..n], s[n];
      assert s == front + [m] && front[n - 1] == s[n - 1];
      assert Widens(front) && (s[n - 1].open == m.open ==> s[n - 1].h <= m.h && m.l <= s[n - 1].l);
      hide Widens;
      FinalExtremes(front);
      FinalsSnoc(front, m);
      hide Highest, Lowest, Finals;
      var f := Finals(front);
      var g := f[..|f| - 1];
      assert f == g + [s[n - 1]];
      ExtremesSnoc(front, m);
      ExtremesSnoc(f, m);
      ExtremesSnoc(g, s[n - 1]);
      ExtremesSnoc(g, m);
    }
  }

  // -------------------------------------------------------- the stream's buckets

  /** The minutes of a stream that belong to one bucket. */
  function Of(p: int, ms: seq<Candle>, bucket: int): seq<Candle>
    requires p > 0
  {
    if ms == [] then []
    else
      var n := |ms| - 1;
      Of(p, ms[..n], bucket) + if Bucket(p, ms[n].open) == bucket then [ms[n]] else []
  }

  /** No bar goes back to an earlier bucket. */
  predicate NeverBack(p: int, ms: seq<Candle>)
    requires p > 0
  {
    forall i, j :: 0 <= i < j < |ms| ==> Bucket(p, ms[i].open) <= Bucket(p, ms[j].open)
  }

  lemma {:induction false} OrderedNeverBack(p: int, ms: seq<Candle>)
    requires p > 0 && Ordered(ms)
    ensures NeverBack(p, ms)
  {
    hide Bucket;
    forall i, j | 0 <= i < j < |ms|
      ensures Bucket(p, ms[i].open) <= Bucket(p, ms[j].open)
    {
      BucketMonotone(p, ms[i].open, ms[j].open);
    }
  }

  lemma BucketMonotone(p: int, t: int, u: int)
    requires p > 0 && t <= u
    ensures Bucket(p, t) <= Bucket(p, u)
  {
    DivMod(t, p);
    DivMod(u, p);
    QuotientAtLeast(u, p, t / p);
    MulMono(t / p, u / p, p);
  }

  lemma {:induction false} NoneOf(p: int, ms: seq<Candle>, bucket: int)
    requires p > 0 && forall i :: 0 <= i < |ms| ==> Bucket(p, ms[i].open) != bucket
    ensures Of(p, ms, bucket) == []
  {
    if ms != [] { NoneOf(p, ms[..|ms| - 1], bucket); }
  }

  /** In a stream that never goes back, no bar before the last, when it opens a
      bucket, is in it. */
  lemma {:induction false} OpensBucket(p: int, ms: seq<Candle>)
    requires p > 0 && |ms| > 1 && NeverBack(p, ms)
    requires Bucket(p, ms[|ms| - 2].open) != Bucket(p, ms[|ms| - 1].open)
    ensures Of(p, ms[..|ms| - 1], Bucket(p, ms[|ms| - 1].open)) == []
  {
    hide Bucket;
    var n := |ms| - 1;
    assert forall i :: 0 <= i < n ==> Bucket(p, ms[i].open) <= Bucket(p, ms[n - 1].open);
    NoneOf(p, ms[..n], Bucket(p, ms[n].open));
  }

  /** So a bucket's bars come together, and the run of the newest is its whole bucket. */
  lemma {:induction false} RunIsBucket(p: int, ms: seq<Candle>)
    requires p > 0 && ms != [] && NeverBack(p, ms)
    ensures Run(p, ms) == Of(p, ms, Bucket(p, ms[|ms| - 1].open))
  {
    hide Bucket;
    var n := |ms| - 1;
    var bucket := Bucket(p, ms[n].open);
    assert Of(p, ms, bucket) == Of(p, ms[..n], bucket) + [ms[n]];
    if n == 0 {
      NoneOf(p, ms[..n], bucket);
    } else if Bucket(p, ms[n - 1].open) == bucket {
      hide Of;
      RunIsBucket(p, ms[..n]);
    } else {
      hide Of;
      OpensBucket(p, ms);
    }
  }

  /** Joining a bar keeps repeats widening when it widens the one it repeats. */
  lemma WidensSnoc(s: seq<Candle>, m: Candle)
    requires Widens(s)
    requires s != [] && s[|s| - 1].open == m.open ==> s[|s| - 1].h <= m.h && m.l <= s[|s| - 1].l
    ensures Widens(s + [m])
  {
  }

  lemma {:induction false} OfWidens(p: int, ms: seq<Candle>, bucket: int)
    requires p > 0 && NeverBack(p, ms) && Widens(ms)
    ensures Widens(Of(p, ms, bucket))
  {
    hide Bucket, Run;
    if ms != [] {
      var n := |ms| - 1;
      OfWidens(p, ms[..n], bucket);
      if n > 0 && Bucket(p, ms[n].open) == bucket {
        if Bucket(p, ms[n - 1].open) == bucket { RunIsBucket(p, ms[..n]); } else { OpensBucket(p, ms); }
        WidensSnoc(Of(p, ms[..n], bucket), ms[n]);
      }
    }
  }

  /** Every closed bar is its whole bucket's. */
  ghost predicate Whole(p: int, ms: seq<Candle>, cs: seq<Candle>)
    requires p > 0
  {
    forall k :: 0 <= k < |cs| ==> Of(p, ms, cs[k].open) != [] && cs[k] == BarOf(p, Of(p, ms, cs[k].open))
  }

  /** Bars closed in ascending order, all before the newest bucket. */
  predicate InOrder(p: int, ms: seq<Candle>, cs: seq<Candle>)
    requires p > 0 && ms != []
  {
    && (forall j, k :: 0 <= j < k < |cs| ==> cs[j].open < cs[k].open)
    && (forall k :: 0 <= k < |cs| ==> cs[k].open < Bucket(p, ms[|ms| - 1].open))
  }

  /** Every bucket but the newest has closed. */
  predicate AllClosed(p: int, ms: seq<Candle>, cs: seq<Candle>)
    requires p > 0 && ms != []
  {
    forall i :: 0 <= i < |ms| && Bucket(p, ms[i].open) != Bucket(p, ms[|ms| - 1].open) ==>
      exists k :: 0 <= k < |cs| && cs[k].open == Bucket(p, ms[i].open)
  }

  /** Bars of later buckets do not touch an earlier one. */
  lemma OfSnoc(p: int, ms: seq<Candle>, m: Candle, bucket: int)
    requires p > 0
    ensures Of(p, ms + [m], bucket) == Of(p, ms, bucket) + if Bucket(p, m.open) == bucket then [m] else []
  {
    assert (ms + [m])[..|ms|] == ms;
  }

  lemma {:induction false} WholeStep(p: int, ms: seq<Candle>, cs: seq<Candle>, m: Candle)
    requires p > 0 && ms != [] && NeverBack(p, ms) && Whole(p, ms, cs) && InOrder(p, ms, cs)
    requires Bucket(p, ms[|ms| - 1].open) <= Bucket(p, m.open)
    ensures Whole(p, ms + [m], cs + ClosedBy(p, ms, m))
  {
    hide Bucket, BarOf, Of, Run;
    RunIsBucket(p, ms);
    FormingOpen(p, ms);
    var all := cs + ClosedBy(p, ms, m);
    forall k | 0 <= k < |all|
      ensures Of(p, ms + [m], all[k].open) == Of(p, ms, all[k].open)
    {
      OfSnoc(p, ms, m, all[k].open);
    }
  }

  lemma {:induction false} OrderStep(p: int, ms: seq<Candle>, cs: seq<Candle>, m: Candle)
    requires p > 0 && ms != [] && InOrder(p, ms, cs)
    requires Bucket(p, ms[|ms| - 1].open) <= Bucket(p, m.open)
    ensures InOrder(p, ms + [m], cs + ClosedBy(p, ms, m))
  {
    hide BarOf, Run, Bucket;
    FormingOpen(p, ms);
  }

  lemma {:induction false} AllStep(p: int, ms: seq<Candle>, cs: seq<Candle>, m: Candle)
    requires p > 0 && ms != [] && AllClosed(p, ms, cs)
    ensures AllClosed(p, ms + [m], cs + ClosedBy(p, ms, m))
  {
    hide BarOf, Run, Bucket;
    FormingOpen(p, ms);
    var all, now := cs + ClosedBy(p, ms, m), ms + [m];
    forall i | 0 <= i < |now| && Bucket(p, now[i].open) != Bucket(p, m.open)
      ensures exists k :: 0 <= k < |all| && all[k].open == Bucket(p, now[i].open)
    {
      if Bucket(p, ms[i].open) != Bucket(p, ms[|ms| - 1].open) {
        var k :| 0 <= k < |cs| && cs[k].open == Bucket(p, ms[i].open);
        assert all[k] == cs[k];
      } else {
        assert all[|cs|].open == Bucket(p, ms[i].open);
      }
    }
  }

  lemma ClosesSnoc(p: int, ms: seq<Candle>, m: Candle)
    requires p > 0
    ensures Closes(p, ms + [m]) == Closes(p, ms) + ClosedBy(p, ms, m)
  {
    hide Bucket, BarOf, Run;
    assert (ms + [m])[..|ms|] == ms;
  }

  ghost predicate ClosedRight(p: int, ms: seq<Candle>)
    requires p > 0 && ms != []
  {
    Whole(p, ms, Closes(p, ms)) && InOrder(p, ms, Closes(p, ms)) && AllClosed(p, ms, Closes(p, ms))
  }

  lemma ClosedStep(p: int, ms: seq<Candle>, m: Candle)
    requires p > 0 && NeverBack(p, ms + [m])
    ensures ms == [] ==> ClosedRight(p, [m])
    ensures ms != [] && ClosedRight(p, ms) ==> ClosedRight(p, ms + [m])
  {
    hide Bucket, BarOf, Run, Of, Closes;
    ClosesSnoc(p, ms, m);
    if ms == [] {
      NoneClosed(p);
      assert ms + [m] == [m];
    } else if ClosedRight(p, ms) {
      ButLast(p, ms, m);
      hide ClosedBy, Whole, InOrder, AllClosed, NeverBack;
      WholeStep(p, ms, Closes(p, ms), m);
      OrderStep(p, ms, Closes(p, ms), m);
      AllStep(p, ms, Closes(p, ms), m);
    }
  }

  lemma NoneClosed(p: int)
    requires p > 0
    ensures Closes(p, []) == []
  {
  }

  lemma {:induction false} ButLast(p: int, ms: seq<Candle>, m: Candle)
    requires p > 0
    ensures NeverBack(p, ms + [m]) <==>
              NeverBack(p, ms) && forall i :: 0 <= i < |ms| ==> Bucket(p, ms[i].open) <= Bucket(p, m.open)
    ensures NeverBack(p, ms + [m]) && ms != [] ==> Bucket(p, ms[|ms| - 1].open) <= Bucket(p, m.open)
  {
    hide Bucket;
    var all := ms + [m];
    assert all[|ms|] == m && forall i :: 0 <= i < |ms| ==> all[i] == ms[i];
  }

  lemma {:induction false} NeverBackCloses(p: int, ms: seq<Candle>)
    requires p > 0 && ms != [] && NeverBack(p, ms)
    ensures ClosedRight(p, ms)
  {
    var n := |ms| - 1;
    assert ms == ms[..n] + [ms[n]];
    ButLast(p, ms[..n], ms[n]);
    hide ClosedRight, NeverBack;
    if n > 0 { NeverBackCloses(p, ms[..n]); }
    ClosedStep(p, ms[..n], ms[n]);
  }

  /** Bars that close in order are bars of a stream that never went back. */
  lemma {:induction false} InOrderNeverBack(p: int, ms: seq<Candle>)
    requires p > 0 && ms != [] && InOrder(p, ms, Closes(p, ms))
    ensures NeverBack(p, ms)
  {
    hide Bucket, BarOf, Run, Closes;
    var n := |ms| - 1;
    var front, m := ms[..n], ms[n];
    assert ms == front + [m];
    ClosesSnoc(p, front, m);
    FormingOpen(p, front);
    if n > 0 {
      var cs, all := Closes(p, front), Closes(p, ms);
      assert forall k :: 0 <= k < |cs| ==> all[k] == cs[k];
      if ClosedBy(p, front, m) != [] { assert all[|cs|].open == Bucket(p, front[n - 1].open); }
      InOrderNeverBack(p, front);
      ButLast(p, front, m);
    }
  }

  /** For every stream: bars close in ascending order, so once each, exactly when it
      never goes back a bucket; and then every bucket but the newest closes, each bar
      saying what all of its bucket's minutes say. */
  lemma {:induction false} ClosesRight(p: int, ms: seq<Candle>)
    requires p > 0 && ms != []
    ensures InOrder(p, ms, Closes(p, ms)) <==> NeverBack(p, ms)
    ensures ClosedRight(p, ms) <==> NeverBack(p, ms)
  {
    if NeverBack(p, ms) { NeverBackCloses(p, ms); }
    hide NeverBack;
    if InOrder(p, ms, Closes(p, ms)) { InOrderNeverBack(p, ms); }
  }

  lemma TotalOne(b: Candle)
    ensures Total([b]) == Flow(b.volume, b.trades) && Total([]) == Flow(0, 0)
  {
    assert [b][1..] == [];
  }

  /** What the closed bars and the forming one count is what the final minutes count. */
  predicate AddsUp(p: int, ms: seq<Candle>)
    requires p > 0 && ms != []
  {
    var closed, forming, all := Total(Closes(p, ms)), Forming(p, ms).value, Total(Finals(ms));
    closed.volume + forming.volume == all.volume && closed.trades + forming.trades == all.trades
  }

  lemma AddsStep(p: int, ms: seq<Candle>, m: Candle)
    requires p > 0 && ms != [] && AddsUp(p, ms)
    ensures AddsUp(p, ms + [m])
  {
    hide Bucket, BarOf, Run, Finals, Total, Closes;
    ClosesSnoc(p, ms, m);
    FormingSnoc(p, ms, m);
    FlowSnoc(ms, m);
    var b := Forming(p, ms).value;
    TotalConcat(Closes(p, ms), [b]);
    TotalOne(b);
    if ClosedBy(p, ms, m) == [] {
      assert Closes(p, ms + [m]) == Closes(p, ms);
    }
    SameMinuteSameBucket(p, ms[|ms| - 1], m);
  }

  lemma SameMinuteSameBucket(p: int, b: Candle, m: Candle)
    requires p > 0
    ensures b.open == m.open ==> Bucket(p, b.open) == Bucket(p, m.open)
  {
  }

  /** Nothing is lost or counted twice: for every stream, what the closed bars and
      the forming one count adds up to the final version of each minute. */
  lemma {:induction false} Conserved(p: int, ms: seq<Candle>)
    requires p > 0 && ms != []
    ensures AddsUp(p, ms)
  {
    var n := |ms| - 1;
    var front, m := ms[..n], ms[n];
    assert ms == front + [m];
    if n == 0 {
      TotalOne(m);
      assert Closes(p, front) == [] && Closes(p, ms) == [];
      assert BarOf(p, [m]).volume == m.volume && ms == [m];
    } else {
      hide AddsUp;
      Conserved(p, front);
      AddsStep(p, front, m);
    }
  }

  /** The bar has the minutes' first open, last close, highest high and total volume
      and trades, each minute in its final version; its low is their lowest exactly
      when that is not zero or the last minute has it. */
  ghost predicate Says(all: seq<Candle>, b: Candle)
    requires all != []
  {
    var finals := Finals(all);
    && finals != [] && b.o == all[0].o && b.c == all[|all| - 1].c && b.h == Highest(finals)
    && Flow(b.volume, b.trades) == Total(finals)
    && (b.l == Lowest(finals) <==> Lowest(finals) != 0 || all[|all| - 1].l == 0)
  }

  lemma {:induction false} BarSays(p: int, all: seq<Candle>)
    requires p > 0 && all != [] && Widens(all)
    ensures Says(all, BarOf(p, all))
  {
    hide Highest, Lowest, KeptLow, Finals, Total, Bucket;
    FinalExtremes(all);
    LowIff(all);
  }

  /** For every stream in order whose repeats only widen, each closed bar says that
      of all of its bucket's minutes. */
  lemma {:induction false} ClosedBarMeans(p: int, ms: seq<Candle>, k: nat)
    requires p > 0 && ms != [] && Ordered(ms) && Widens(ms) && k < |Closes(p, ms)|
    ensures var b := Closes(p, ms)[k];
            Of(p, ms, b.open) != [] && Says(Of(p, ms, b.open), b)
  {
    OrderedNeverBack(p, ms);
    ClosesRight(p, ms);
    hide InOrder, AllClosed, Closes, NeverBack, Bucket, Of, BarOf, Says, Widens;
    var b := Closes(p, ms)[k];
    OfWidens(p, ms, b.open);
    BarSays(p, Of(p, ms, b.open));
  }

  lemma CloseOne(p: int, ms: seq<Candle>, m: Candle)
    requires p > 0 && ms != [] && Bucket(p, ms[|ms| - 1].open) != Bucket(p, m.open)
    ensures |Closes(p, ms + [m])| == |Closes(p, ms)| + 1 && Closes(p, ms) <= Closes(p, ms + [m])
    ensures Closes(p, ms + [m])[|Closes(p, ms)|].open == Bucket(p, ms[|ms| - 1].open)
  {
    hide Bucket, BarOf, Run, Closes;
    ClosesSnoc(p, ms, m);
    FormingOpen(p, ms);
  }

  /** A stream that goes back to a closed bucket closes it again. */
  lemma {:induction false} GoingBackCloses(p: int, a: Candle, b: Candle)
    requires p > 0 && Bucket(p, a.open) != Bucket(p, b.open)
    ensures var closes := Closes(p, [a, b, a, b]);
            |closes| == 3 && closes[0].open == closes[2].open == Bucket(p, a.open)
  {
    hide Bucket, BarOf, Run, Closes;
    var two, three := [a] + [b], [a] + [b] + [a];
    CloseOne(p, [a], b);
    CloseOne(p, two, a);
    CloseOne(p, three, b);
    ClosesSnoc(p, [], a);
    NoneClosed(p);
    assert [] + [a] == [a] && three + [b] == [a, b, a, b];
  }

  lemma {:induction false} BucketIff(p: int, t: int, b: int)
    requires p > 0
    ensures Bucket(p, t) == b <==> b % p == 0 && b <= t < b + p
  {
    DivMod(t, p);
    DivMod(b, p);
    QuotientIs(t / p * p, p, t / p, 0);
    if b % p == 0 && b <= t < b + p { QuotientIs(t, p, b / p, t - b); }
  }

  /** Bars of the segment and no others open in the bucket from b on. */
  predicate Segment(p: int, ms: seq<Candle>, b: int, from: nat, until: nat) {
    from < until <= |ms| && forall i :: 0 <= i < |ms| ==> (from <= i < until <==> b <= ms[i].open < b + p)
  }

  lemma {:induction false} OfSegment(p: int, ms: seq<Candle>, b: int) returns (from: nat, until: nat)
    requires p > 0 && Ordered(ms) && Of(p, ms, b) != []
    ensures b % p == 0 && Segment(p, ms, b, from, until) && Of(p, ms, b) == ms[from..until]
  {
    hide Bucket;
    var n := |ms| - 1;
    BucketIff(p, ms[n].open, b);
    if Of(p, ms[..n], b) == [] {
      from, until := n, n + 1;
      FirstOf(p, ms, b);
    } else {
      hide Of;
      from, until := OfSegment(p, ms[..n], b);
      OfLast(p, ms, b);
      hide Ordered, Segment;
      until := Grown(p, ms, b, from, until);
    }
  }

  /** One more bar in order lengthens the segment or leaves it. */
  lemma Grown(p: int, ms: seq<Candle>, b: int, from: nat, until: nat) returns (to: nat)
    requires p > 0 && ms != [] && Ordered(ms) && b % p == 0 && Segment(p, ms[..|ms| - 1], b, from, until)
    ensures Segment(p, ms, b, from, to)
    ensures var n := |ms| - 1;
            ms[from..to] == ms[..n][from..until] + if Bucket(p, ms[n].open) == b then [ms[n]] else []
  {
    var n := |ms| - 1;
    hide Bucket;
    BucketIff(p, ms[n].open, b);
    assert forall i :: 0 <= i < n ==> ms[..n][i].open == ms[i].open;
    if until < n { assert ms[from].open <= ms[until].open <= ms[n].open && b + p <= ms[n].open; }
    to := until;
    if Bucket(p, ms[n].open) == b {
      to := n + 1;
      assert ms[from..to] == ms[from..n] + [ms[n]];
    }
  }

  lemma OfLast(p: int, ms: seq<Candle>, b: int)
    requires p > 0 && ms != []
    ensures var n := |ms| - 1; Of(p, ms, b) == Of(p, ms[..n], b) + if Bucket(p, ms[n].open) == b then [ms[n]] else []
  {
  }

  lemma FirstOf(p: int, ms: seq<Candle>, b: int)
    requires p > 0 && ms != [] && Of(p, ms, b) != [] && Of(p, ms[..|ms| - 1], b) == []
    ensures b % p == 0 && Segment(p, ms, b, |ms| - 1, |ms|) && Of(p, ms, b) == ms[|ms| - 1..]
  {
    hide Bucket, Of;
    var n := |ms| - 1;
    OfLast(p, ms, b);
    BucketIff(p, ms[n].open, b);
    forall i | 0 <= i < n
      ensures !(b <= ms[i].open < b + p)
    {
      BucketIff(p, ms[i].open, b);
      HasOf(p, ms[..n], i);
    }
  }

  lemma {:induction false} HasOf(p: int, ms: seq<Candle>, i: nat)
    requires p > 0 && i < |ms|
    ensures Of(p, ms, Bucket(p, ms[i].open)) != []
  {
    if i < |ms| - 1 { HasOf(p, ms[..|ms| - 1], i); }
  }

  /** A closed bar starts on the grid, lasts one period and tells of exactly the minutes
      that open while it lasts, in the order they came. */
  lemma {:induction false} ClosedBarCovers(p: int, ms: seq<Candle>, k: nat)
    requires p > 0 && ms != [] && Ordered(ms) && k < |Closes(p, ms)|
    ensures var b := Closes(p, ms)[k];
            && b.period == p && b.open % p == 0
            && exists from: nat, until: nat :: until < |ms| && Segment(p, ms, b.open, from, until) && Of(p, ms, b.open) == ms[from..until]
  {
    OrderedNeverBack(p, ms);
    NeverBackCloses(p, ms);
    hide Closes, Of, BarOf, Bucket, NeverBack;
    var b := Closes(p, ms)[k];
    BarOpens(p, Of(p, ms, b.open));
    BucketIff(p, ms[|ms| - 1].open, Bucket(p, ms[|ms| - 1].open));
    var from, until := OfSegment(p, ms, b.open);
    assert b.open < Bucket(p, ms[|ms| - 1].open);
    BucketIff(p, ms[|ms| - 1].open, b.open);
    assert until < |ms|;
  }

  lemma BarOpens(p: int, s: seq<Candle>)
    requires p > 0 && s != []
    ensures BarOf(p, s).period == p && BarOf(p, s).open == Bucket(p, s[0].open)
  {
  }
}
