/** The market card of platform/context.go: one refresh per market at a time, a
    stale card when a refresh fails, and what the process before kept. */
module Cards {
  import opened Wrappers

  /** A card without a symbol is the empty one. */
  datatype Card = Card(symbol: string, body: int, stale: bool)

  const NO_CARD := Card("", 0, false)
  const RETRY: int := 60_000_000_000

  datatype Entry = Entry(card: Card, fetched: int, err: Option<string>, inFlight: bool)

  datatype State = State(ttl: int, markets: set<string>, cards: map<string, Entry>)

  /** How a caller goes on after looking, lock released. */
  datatype Next = Serve(card: Card) | Fail(err: string) | Unknown | Await | ReadStore | Fetch

  /** What a fetch brought back. */
  datatype Fetched = Got(body: int) | Lost(err: string)

  predicate Held(e: Entry) {
    e.card.symbol != ""
  }

  function Looked(s: State, symbol: string, now: int): Next {
    if symbol !in s.markets then Unknown
    else if symbol !in s.cards then ReadStore
    else
      var e := s.cards[symbol];
      if e.inFlight then Await
      else if Held(e) && now - e.fetched < s.ttl then Serve(e.card)
      else if !Held(e) && e.err.Some? && now - e.fetched < RETRY then Fail(e.err.value)
      else Fetch
  }

  function AfterLook(s: State, symbol: string, now: int): State {
    if Looked(s, symbol, now).Fetch? then s.(cards := s.cards[symbol := s.cards[symbol].(inFlight := true)]) else s
  }

  /** `restore` treats a card it cannot read, or one without a symbol, as none. */
  function Readable(kept: Option<(Card, int)>): Option<(Card, int)> {
    if kept.Some? && kept.value.0.symbol != "" then kept else None
  }

  /** Only the first caller back from the store makes the entry. */
  function AfterStore(s: State, symbol: string, kept: Option<(Card, int)>): State {
    if symbol in s.cards then s
    else
      s.(cards := s.cards[symbol :=
        match Readable(kept)
        case Some((card, at)) => Entry(card, at, None, false)
        case None => Entry(NO_CARD, 0, None, false)])
  }

  function Settled(e: Entry, symbol: string, r: Fetched, at: int): Entry {
    match r
    case Got(body) => Entry(Card(symbol, body, false), at, None, false)
    case Lost(err) => Entry(if Held(e) then e.card.(stale := true) else e.card, at, Some(err), false)
  }

  function AfterFetch(s: State, symbol: string, r: Fetched, at: int): State
    requires symbol in s.cards
  {
    s.(cards := s.cards[symbol := Settled(s.cards[symbol], symbol, r, at)])
  }

  /** What the caller whose fetch it was returns. */
  function FetchAnswer(s: State, symbol: string, r: Fetched, at: int): Next
    requires symbol in s.cards
  {
    var e := Settled(s.cards[symbol], symbol, r, at);
    if r.Lost? && !Held(e) then Fail(r.err) else Serve(e.card)
  }

  class MarketContext {
    const ttl: int
    const markets: set<string>
    var cards: map<string, Entry>

    function Abs(): State
      reads this
    {
      State(ttl, markets, cards)
    }

    constructor (ttl: int, markets: set<string>)
      ensures Abs() == State(ttl, markets, map[])
    {
      this.ttl, this.markets, cards := ttl, markets, map[];
    }

    /** One turn of the loop in `Card`, up to where it lets go of the lock. */
    method Look(symbol: string, now: int) returns (next: Next)
      modifies this
      ensures next == Looked(old(Abs()), symbol, now) && Abs() == AfterLook(old(Abs()), symbol, now)
    {
      if symbol !in markets { return Unknown; }
      if symbol in cards {
        var e := cards[symbol];
        if !e.inFlight {
          var age := now - e.fetched;
          if e.card.symbol != "" && age < ttl { return Serve(e.card); }
          if e.card.symbol == "" && e.err.Some? && age < RETRY { return Fail(e.err.value); }
        }
        if e.inFlight { return Await; }
      } else {
        return ReadStore;
      }
      cards := cards[symbol := cards[symbol].(inFlight := true)];
      return Fetch;
    }

    method Stored(symbol: string, kept: Option<(Card, int)>)
      modifies this
      ensures Abs() == AfterStore(old(Abs()), symbol, kept)
    {
      if symbol !in cards {
        var e := Entry(NO_CARD, 0, None, false);
        if kept.Some? && kept.value.0.symbol != "" {
          e := e.(card := kept.value.0, fetched := kept.value.1);
        }
        cards := cards[symbol := e];
      }
    }

    method Refreshed(symbol: string, r: Fetched, at: int) returns (answer: Next)
      requires symbol in cards
      modifies this
      ensures answer == FetchAnswer(old(Abs()), symbol, r, at) && Abs() == AfterFetch(old(Abs()), symbol, r, at)
    {
      var e := cards[symbol].(inFlight := false, fetched := at);
      match r {
        case Got(body) => e := e.(card := Card(symbol, body, false), err := None);
        case Lost(err) =>
          e := e.(err := Some(err));
          if e.card.symbol != "" { e := e.(card := e.card.(stale := true)); }
      }
      cards := cards[symbol := e];
      if r.Lost? {
        if e.card.symbol != "" { return Serve(e.card); }
        return Fail(r.err);
      }
      return Serve(e.card);
    }
  }

  // -------------------------------------------------------------------- runs

  /** One refresh of a market; `held` is whether a card was there when it ended. */
  datatype Attempt = Attempt(started: int, ended: Option<int>, held: bool)

  /** The state, the clock, and per market the refreshes so far. */
  datatype System = System(ctx: State, now: int, history: map<string, seq<Attempt>>)

  /** `lag` is how long before taking the lock again the fetch came back. */
  datatype Event =
    | Wait(elapsed: nat)
    | Ask(symbol: string)
    | FromStore(symbol: string, kept: Option<(Card, int)>)
    | FetchEnds(symbol: string, r: Fetched, lag: nat)

  function Attempts(s: System, symbol: string): seq<Attempt> {
    if symbol in s.history then s.history[symbol] else []
  }

  predicate Fetching(s: System, symbol: string) {
    symbol in s.ctx.cards && s.ctx.cards[symbol].inFlight
  }

  function Close(hist: seq<Attempt>, at: int, held: bool): seq<Attempt>
    requires hist != []
  {
    hist[|hist| - 1 := hist[|hist| - 1].(ended := Some(at), held := held)]
  }

  function Act(s: System, e: Event): System {
    match e
    case Wait(elapsed) => s.(now := s.now + elapsed)
    case Ask(symbol) =>
      s.(ctx := AfterLook(s.ctx, symbol, s.now),
         history := if Looked(s.ctx, symbol, s.now).Fetch?
                    then s.history[symbol := Attempts(s, symbol) + [Attempt(s.now, None, false)]]
                    else s.history)
    case FromStore(symbol, kept) => if symbol in s.ctx.markets then s.(ctx := AfterStore(s.ctx, symbol, kept)) else s
    case FetchEnds(symbol, r, lag) =>
      var hist := Attempts(s, symbol);
      if !Fetching(s, symbol) || hist == [] || s.now - lag < hist[|hist| - 1].started then s
      else
        var t := AfterFetch(s.ctx, symbol, r, s.now - lag);
        s.(ctx := t, history := s.history[symbol := Close(hist, s.now - lag, Held(t.cards[symbol]))])
  }

  function Run(s: System, es: seq<Event>): System
    decreases |es|
  {
    if es == [] then s else Run(Act(s, es[0]), es[1..])
  }

  function Gap(ttl: int, a: Attempt): int {
    if a.held then ttl else RETRY
  }

  /** A market's refreshes follow one another with the gap due to the one before. */
  predicate Spaced(hist: seq<Attempt>, ttl: int) {
    forall i :: 0 <= i < |hist| - 1 ==>
      hist[i].ended.Some? && hist[i].started <= hist[i].ended.value
      && hist[i + 1].started - hist[i].ended.value >= Gap(ttl, hist[i])
  }

  predicate Consistent(s: System, symbol: string) {
    var hist := Attempts(s, symbol);
    && Spaced(hist, s.ctx.ttl)
    && (symbol !in s.ctx.cards ==> hist == [])
    && (hist != [] ==> hist[|hist| - 1].started <= s.now)
    && (hist != [] ==> (hist[|hist| - 1].ended.None? <==> Fetching(s, symbol)))
    && (Fetching(s, symbol) ==> hist != [])
    && (hist != [] && !Fetching(s, symbol) ==>
          var e := s.ctx.cards[symbol];
          && hist[|hist| - 1].ended == Some(e.fetched) && hist[|hist| - 1].started <= e.fetched
          && (hist[|hist| - 1].held <==> Held(e)) && (Held(e) || e.err.Some?))
  }

  ghost predicate Inv(s: System) {
    && "" !in s.ctx.markets && s.ctx.cards.Keys <= s.ctx.markets
    && forall symbol: string :: Consistent(s, symbol)
  }

  lemma {:induction false} SpacedAppend(hist: seq<Attempt>, a: Attempt, ttl: int)
    requires Spaced(hist, ttl)
    requires hist != [] ==>
      var last := hist[|hist| - 1];
      last.ended.Some? && last.started <= last.ended.value && a.started - last.ended.value >= Gap(ttl, last)
    ensures Spaced(hist + [a], ttl)
  {
  }

  lemma {:induction false} AskConsistent(s: System, asked: string, symbol: string)
    requires Consistent(s, symbol)
    ensures Consistent(Act(s, Ask(asked)), symbol)
  {
    if asked == symbol && Looked(s.ctx, symbol, s.now).Fetch? {
      SpacedAppend(Attempts(s, symbol), Attempt(s.now, None, false), s.ctx.ttl);
    }
  }

  lemma {:induction false} EndConsistent(s: System, ended: string, r: Fetched, lag: nat, symbol: string)
    requires Consistent(s, symbol) && Consistent(s, ended) && (Fetching(s, ended) ==> ended != "")
    ensures Consistent(Act(s, FetchEnds(ended, r, lag)), symbol)
  {
    var t := Act(s, FetchEnds(ended, r, lag));
    if t != s && ended == symbol {
      var hist := Attempts(s, symbol);
      assert Attempts(t, symbol) == Close(hist, s.now - lag, Held(t.ctx.cards[symbol]));
    }
  }

  lemma {:induction false} ActInv(s: System, e: Event)
    requires Inv(s)
    ensures Inv(Act(s, e)) && Act(s, e).ctx.ttl == s.ctx.ttl
  {
    forall symbol: string
      ensures Consistent(Act(s, e), symbol)
    {
      assert Consistent(s, symbol);
      match e
      case Ask(asked) => AskConsistent(s, asked, symbol);
      case FetchEnds(ended, r, lag) =>
        assert Consistent(s, ended);
        EndConsistent(s, ended, r, lag, symbol);
      case _ =>
    }
  }

  lemma {:induction false} RunInv(s: System, es: seq<Event>)
    requires Inv(s)
    ensures Inv(Run(s, es)) && Run(s, es).ctx.ttl == s.ctx.ttl
    decreases |es|
  {
    if es != [] {
      ActInv(s, es[0]);
      RunInv(Act(s, es[0]), es[1..]);
    }
  }

  function Start(ttl: int, markets: set<string>, now: int): System {
    System(State(ttl, markets, map[]), now, map[])
  }

  /** In every interleaving: of two refreshes of a market the earlier had ended,
      at least the TTL before when a card was held and at least the retry pause
      before when none was, and the market is being fetched exactly while its
      last refresh has not ended. */
  lemma {:induction false} RefreshesTakeTurns(ttl: int, markets: set<string>, now: int, es: seq<Event>, symbol: string, i: nat)
    requires "" !in markets && ttl >= 0
    ensures var s := Run(Start(ttl, markets, now), es);
            var hist := Attempts(s, symbol);
            && (i + 1 < |hist| ==>
                  && hist[i].ended.Some? && hist[i].ended.value <= hist[i + 1].started
                  && hist[i + 1].started - hist[i].ended.value >= (if hist[i].held then ttl else 60_000_000_000))
            && (hist != [] ==> (Fetching(s, symbol) <==> hist[|hist| - 1].ended.None?))
  {
    assert Inv(Start(ttl, markets, now));
    RunInv(Start(ttl, markets, now), es);
    assert Consistent(Run(Start(ttl, markets, now), es), symbol);
  }

  /** A market's entry is the card the store kept, untouched since. */
  predicate Kept(s: System, symbol: string, card: Card, at: int) {
    && symbol in s.ctx.markets && symbol in s.ctx.cards && card.symbol != ""
    && s.ctx.cards[symbol] == Entry(card, at, None, false) && Attempts(s, symbol) == []
  }

  lemma {:induction false} ClockForward(s: System, es: seq<Event>)
    ensures Run(s, es).now >= s.now && Run(s, es).ctx.ttl == s.ctx.ttl
    decreases |es|
  {
    if es != [] { ClockForward(Act(s, es[0]), es[1..]); }
  }

  /** After a restart, once the store has handed back a kept card, no run starts a
      refresh of the market before the card is older than the TTL: everyone who asks
      until then is served it. */
  lemma {:induction false} KeptCardIsServed(s: System, es: seq<Event>, symbol: string, card: Card, at: int)
    requires Kept(s, symbol, card, at) && Run(s, es).now - at < s.ctx.ttl
    ensures var t := Run(s, es);
            Kept(t, symbol, card, at) && Looked(t.ctx, symbol, t.now) == Serve(card)
    decreases |es|
  {
    ClockForward(s, es);
    if es != [] {
      assert Kept(Act(s, es[0]), symbol, card, at);
      ClockForward(Act(s, es[0]), es[1..]);
      KeptCardIsServed(Act(s, es[0]), es[1..], symbol, card, at);
    }
  }

  /** From the restart itself: whatever happens after the store hands the card back. */
  lemma {:induction false} RestartServesKept(
    ttl: int, markets: set<string>, now: int, es: seq<Event>, symbol: string, card: Card, at: int)
    requires symbol in markets && card.symbol != ""
    ensures var t := Run(Act(Start(ttl, markets, now), FromStore(symbol, Some((card, at)))), es);
            t.now - at < ttl ==> Attempts(t, symbol) == [] && Looked(t.ctx, symbol, t.now) == Serve(card)
  {
    var s := Act(Start(ttl, markets, now), FromStore(symbol, Some((card, at))));
    assert Kept(s, symbol, card, at);
    if Run(s, es).now - at < ttl { KeptCardIsServed(s, es, symbol, card, at); }
  }

  /** In every interleaving nobody is ever given an empty card: what is served has a
      symbol, at once or at the end of a caller's own fetch, and a card served at once
      is younger than the TTL; only a lost fetch with no card held is an error. */
  lemma {:induction false} NeverServesEmpty(
    ttl: int, markets: set<string>, now: int, es: seq<Event>, symbol: string, r: Fetched, at: int)
    requires "" !in markets
    ensures var s := Run(Start(ttl, markets, now), es);
            && (Looked(s.ctx, symbol, s.now).Serve? ==>
                  Looked(s.ctx, symbol, s.now).card.symbol != "" && s.now - s.ctx.cards[symbol].fetched < ttl)
            && (Fetching(s, symbol) ==>
                  match FetchAnswer(s.ctx, symbol, r, at)
                  case Serve(card) => card.symbol != ""
                  case Fail(_) => r.Lost? && !Held(s.ctx.cards[symbol])
                  case _ => false)
  {
    assert Inv(Start(ttl, markets, now));
    RunInv(Start(ttl, markets, now), es);
    assert Consistent(Run(Start(ttl, markets, now), es), symbol);
  }

  /** What a fetch that ends makes of the market: a card it got is the one served, not
      stale, until the TTL is over; one that failed leaves the card there was, marked
      stale; with none, its error is answered for a minute; and then it is tried again. */
  lemma {:induction false} FetchMeans(s: State, symbol: string, r: Fetched, at: int, now: int)
    requires symbol in s.markets && symbol in s.cards && symbol != "" && at <= now
    ensures var t := AfterFetch(s, symbol, r, at);
            var held := s.cards[symbol].card;
            match r
            case Got(body) =>
              && FetchAnswer(s, symbol, r, at) == Serve(Card(symbol, body, false))
              && Looked(t, symbol, now) == (if now - at < s.ttl then Serve(Card(symbol, body, false)) else Fetch)
            case Lost(err) =>
              && FetchAnswer(s, symbol, r, at) == (if held.symbol != "" then Serve(held.(stale := true)) else Fail(err))
              && Looked(t, symbol, now) ==
                 (if held.symbol != "" then if now - at < s.ttl then Serve(held.(stale := true)) else Fetch
                  else if now - at < 60_000_000_000 then Fail(err) else Fetch)
  {
  }

  /** What a caller does next: an unknown market is refused, one not in memory is read
      from the store, a fetch under way is awaited, and otherwise a card held is served
      until the TTL is over and an error answered for a minute. */
  lemma {:induction false} LookMeans(s: State, symbol: string, now: int)
    ensures Looked(s, symbol, now) == Unknown <==> symbol !in s.markets
    ensures symbol in s.markets ==> (Looked(s, symbol, now) == ReadStore <==> symbol !in s.cards)
    ensures symbol in s.markets && symbol in s.cards ==>
              var e, next := s.cards[symbol], Looked(s, symbol, now);
              && (next == Await <==> e.inFlight)
              && (next.Serve? <==> !e.inFlight && e.card.symbol != "" && now < e.fetched + s.ttl)
              && (next.Serve? ==> next == Serve(e.card))
              && (next.Fail? <==> !e.inFlight && e.card.symbol == "" && e.err.Some? && now < e.fetched + 60_000_000_000)
              && (next.Fail? ==> next == Fail(e.err.value))
  {
  }

  /** What the store's answer makes of a market not in memory: a kept card is served
      for the rest of its TTL; with none, or one without a symbol, or one too old, the
      market is fetched. A market in memory by then is left alone. */
  lemma {:induction false} StoreMeans(s: State, symbol: string, kept: Option<(Card, int)>, now: int)
    requires symbol in s.markets
    ensures symbol in s.cards ==> AfterStore(s, symbol, kept) == s
    ensures symbol !in s.cards ==>
              Looked(AfterStore(s, symbol, kept), symbol, now) == (
                if kept.Some? && kept.value.0.symbol != "" && now < kept.value.1 + s.ttl then Serve(kept.value.0) else Fetch)
  {
  }
}
