/** The exit guards of platform/service.go: horizons and stops kept in memory and
    written through to the store, and what a restart finds there. */
module Guards {
  import opened Wrappers

  /** Fractions of the collateral, as fixed-point values; zero means no bound. */
  datatype Bounds = Bounds(maxLoss: int, takeProfit: int) {
    predicate Armed() { maxLoss > 0 || takeProfit > 0 }
  }

  /** A stored horizon; a zero closing time is None. */
  datatype Row = Row(closesAt: Option<int>, bounds: Bounds)

  const ONE: int := 100_000_000
  const SECOND: int := 1_000_000_000
  const MIN_HORIZON: int := 10 * SECOND
  const MAX_HORIZON: int := 24 * 3600 * SECOND

  /** Armed deadlines, armed stops, and this account's stored rows, by symbol. */
  datatype State = State(deadlines: map<string, int>, stops: map<string, Bounds>, rows: map<string, Row>)

  /** The guard part of an open. `placed` is whether everything around it (the
      other checks, the policy, the venue) let the order through. */
  datatype OpenRequest = OpenRequest(symbol: string, horizon: int, bounds: Bounds, placed: bool)

  /** A set option replaces that exit, zero disarms it, None leaves it. */
  datatype AmendRequest = AmendRequest(
    symbol: string, maxLoss: Option<int>, takeProfit: Option<int>, extend: int, positionOpen: bool)

  datatype Outcome = Done | Invalid | NoPosition | Refused

  predicate ValidOpen(r: OpenRequest) {
    && 0 <= r.bounds.maxLoss <= ONE && r.bounds.takeProfit >= 0
    && (r.horizon == 0 || MIN_HORIZON <= r.horizon <= MAX_HORIZON)
  }

  predicate ValidAmend(r: AmendRequest) {
    && (r.maxLoss.Some? ==> 0 <= r.maxLoss.value <= ONE)
    && (r.takeProfit.Some? ==> r.takeProfit.value >= 0)
    && r.extend >= 0
  }

  predicate HasGuards(r: OpenRequest) {
    r.horizon > 0 || r.bounds.Armed()
  }

  function OpenOutcome(r: OpenRequest): Outcome {
    if !ValidOpen(r) then Invalid else if !r.placed then Refused else Done
  }

  function AfterOpen(s: State, r: OpenRequest, now: int): State {
    if OpenOutcome(r) != Done then s
    else
      State(
        if r.horizon > 0 then s.deadlines[r.symbol := now + r.horizon] else s.deadlines,
        if r.bounds.Armed() then s.stops[r.symbol := r.bounds] else s.stops,
        if HasGuards(r)
        then s.rows[r.symbol := Row(if r.horizon > 0 then Some(now + r.horizon) else None, r.bounds)]
        else s.rows)
  }

  function DeadlineOf(s: State, symbol: string): Option<int> {
    if symbol in s.deadlines then Some(s.deadlines[symbol]) else None
  }

  function BoundsOf(s: State, symbol: string): Bounds {
    if symbol in s.stops then s.stops[symbol] else Bounds(0, 0)
  }

  /** The deadline an amendment leaves: pushed out from the later of now and the
      one in force. */
  function NewDeadline(s: State, r: AmendRequest, now: int): Option<int> {
    if r.extend <= 0 then DeadlineOf(s, r.symbol)
    else
      match DeadlineOf(s, r.symbol)
      case Some(at) => Some((if at > now then at else now) + r.extend)
      case None => Some(now + r.extend)
  }

  function NewBounds(s: State, r: AmendRequest): Bounds {
    Bounds(r.maxLoss.GetOr(BoundsOf(s, r.symbol).maxLoss), r.takeProfit.GetOr(BoundsOf(s, r.symbol).takeProfit))
  }

  function AmendOutcome(s: State, r: AmendRequest, now: int): Outcome {
    if !ValidAmend(r) then Invalid
    else if !r.positionOpen then NoPosition
    else if r.extend > 0 && NewDeadline(s, r, now).value - now > MAX_HORIZON then Invalid
    else Done
  }

  function AfterAmend(s: State, r: AmendRequest, now: int): State {
    if AmendOutcome(s, r, now) != Done then s
    else
      var at, b := NewDeadline(s, r, now), NewBounds(s, r);
      State(
        if r.extend > 0 then s.deadlines[r.symbol := at.value] else s.deadlines,
        if b.Armed() then s.stops[r.symbol := b] else s.stops - {r.symbol},
        if at.Some? || b.Armed() then s.rows[r.symbol := Row(at, b)] else s.rows - {r.symbol})
  }

  /** Every exit drops all three before it looks at the venue. */
  function AfterClose(s: State, symbol: string): State {
    State(s.deadlines - {symbol}, s.stops - {symbol}, s.rows - {symbol})
  }

  /** One attempt of the horizon timer to close: whether the venue fails it, and what
      happens while the timer sleeps before the next. */
  datatype Attempt = Attempt(venueFails: bool, meanwhile: seq<Timed>)

  /** Attempts until one is not failed; nothing sleeps after the last. */
  function AfterAttempts(s: State, symbol: string, now: int, attempts: seq<Attempt>): State
    decreases |attempts|
  {
    if attempts == [] then s
    else
      var t, a := AfterClose(s, symbol), attempts[0];
      if !a.venueFails || |attempts| == 1 then t
      else AfterAttempts(Run(t, now, a.meanwhile), symbol, Clock(now, a.meanwhile), attempts[1..])
  }

  /** The watcher finds the position gone: only the stop is forgotten. */
  function AfterGone(s: State, symbol: string): State {
    s.(stops := s.stops - {symbol})
  }

  /** One row as read back from the store. */
  datatype Horizon = Horizon(symbol: string, row: Row)

  function AfterRestore(s: State, hs: seq<Horizon>): State
    decreases |hs|
  {
    if hs == [] then s
    else
      var h, t := hs[|hs| - 1], AfterRestore(s, hs[..|hs| - 1]);
      t.(deadlines := if h.row.closesAt.Some? then t.deadlines[h.symbol := h.row.closesAt.value] else t.deadlines,
         stops := if h.row.bounds.Armed() then t.stops[h.symbol := h.row.bounds] else t.stops)
  }

  class Service {
    var deadlines: map<string, int>
    var stops: map<string, Bounds>
    var rows: map<string, Row>

    function Abs(): State
      reads this
    {
      State(deadlines, stops, rows)
    }

    constructor (rows: map<string, Row>)
      ensures Abs() == State(map[], map[], rows)
    {
      deadlines, stops := map[], map[];
      this.rows := rows;
    }

    method ArmStop(symbol: string, bounds: Bounds)
      modifies this`stops
      ensures stops == old(stops)[symbol := bounds]
    {
      stops := stops[symbol := bounds];
    }

    method DisarmStop(symbol: string)
      modifies this`stops
      ensures stops == old(stops) - {symbol}
    {
      stops := stops - {symbol};
    }

    method Open(r: OpenRequest, now: int) returns (outcome: Outcome)
      modifies this
      ensures outcome == OpenOutcome(r) && Abs() == AfterOpen(old(Abs()), r, now)
    {
      if r.bounds.maxLoss < 0 || r.bounds.maxLoss > ONE { return Invalid; }
      if r.bounds.takeProfit < 0 { return Invalid; }
      if r.horizon != 0 && (r.horizon < MIN_HORIZON || r.horizon > MAX_HORIZON) { return Invalid; }
      if !r.placed { return Refused; }
      var closesAt := None;
      if r.horizon > 0 {
        closesAt := Some(now + r.horizon);
        deadlines := deadlines[r.symbol := now + r.horizon];
      }
      if r.bounds.maxLoss > 0 || r.bounds.takeProfit > 0 {
        ArmStop(r.symbol, r.bounds);
      }
      if r.horizon > 0 || r.bounds.maxLoss > 0 || r.bounds.takeProfit > 0 {
        rows := rows[r.symbol := Row(closesAt, r.bounds)];
      }
      return Done;
    }

    method Amend(r: AmendRequest, now: int) returns (outcome: Outcome)
      modifies this
      ensures outcome == AmendOutcome(old(Abs()), r, now) && Abs() == AfterAmend(old(Abs()), r, now)
    {
      if r.maxLoss.Some? && (r.maxLoss.value < 0 || r.maxLoss.value > ONE) { return Invalid; }
      if r.takeProfit.Some? && r.takeProfit.value < 0 { return Invalid; }
      if r.extend < 0 { return Invalid; }
      if !r.positionOpen { return NoPosition; }
      var maxLoss, takeProfit := 0, 0;
      if r.symbol in stops {
        maxLoss, takeProfit := stops[r.symbol].maxLoss, stops[r.symbol].takeProfit;
      }
      if r.maxLoss.Some? { maxLoss := r.maxLoss.value; }
      if r.takeProfit.Some? { takeProfit := r.takeProfit.value; }
      var closesAt := if r.symbol in deadlines then Some(deadlines[r.symbol]) else None;
      if r.extend > 0 {
        var from := now;
        if closesAt.Some? && closesAt.value > now { from := closesAt.value; }
        if from + r.extend - now > MAX_HORIZON { return Invalid; }
        closesAt := Some(from + r.extend);
      }
      assert closesAt == NewDeadline(Abs(), r, now) && Bounds(maxLoss, takeProfit) == NewBounds(Abs(), r);
      hide NewDeadline, NewBounds;
      Rearm(r.symbol, r.extend > 0, closesAt, Bounds(maxLoss, takeProfit));
      return Done;
    }

    /** The end of `Amend`: the exits armed again and written through. */
    method Rearm(symbol: string, extended: bool, closesAt: Option<int>, bounds: Bounds)
      requires extended ==> closesAt.Some?
      modifies this
      ensures deadlines == if extended then old(deadlines)[symbol := closesAt.value] else old(deadlines)
      ensures stops == if bounds.Armed() then old(stops)[symbol := bounds] else old(stops) - {symbol}
      ensures rows == if closesAt.Some? || bounds.Armed() then old(rows)[symbol := Row(closesAt, bounds)]
                      else old(rows) - {symbol}
    {
      if extended { deadlines := deadlines[symbol := closesAt.value]; }
      if bounds.maxLoss > 0 || bounds.takeProfit > 0 { ArmStop(symbol, bounds); } else { DisarmStop(symbol); }
      if closesAt.Some? || bounds.maxLoss > 0 || bounds.takeProfit > 0 {
        rows := rows[symbol := Row(closesAt, bounds)];
      } else {
        rows := rows - {symbol};
      }
    }

    /** The guard part of `close`, before the venue is read. */
    method Disarm(symbol: string)
      modifies this
      ensures Abs() == AfterClose(old(Abs()), symbol)
    {
      deadlines := deadlines - {symbol};
      DisarmStop(symbol);
      rows := rows - {symbol};
    }

    /** The horizon timer's callback: the entry is already forgotten when it runs, each
        attempt goes through the same exit, and anything may happen in between. */
    method CloseOnHorizon(symbol: string, now: int, attempts: seq<Attempt>)
      requires |attempts| == 3
      modifies this
      ensures Abs() == AfterAttempts(old(Abs()).(deadlines := old(Abs()).deadlines - {symbol}), symbol, now, attempts)
    {
      deadlines := deadlines - {symbol};
      ghost var s0 := Abs();
      var attempt, clock := 0, now;
      while attempt < 3
        invariant 0 <= attempt <= 3
        invariant attempt < 3 ==>
                    AfterAttempts(Abs(), symbol, clock, attempts[attempt..]) == AfterAttempts(s0, symbol, now, attempts)
        invariant attempt == 3 ==> Abs() == AfterAttempts(s0, symbol, now, attempts)
      {
        assert attempts[attempt..][1..] == attempts[attempt + 1..];
        Disarm(symbol);
        if !attempts[attempt].venueFails { return; }
        if attempt < 2 { clock := Meanwhile(clock, attempts[attempt].meanwhile); }
        attempt := attempt + 1;
      }
    }

    /** Events one after another. */
    method Meanwhile(now: int, es: seq<Timed>) returns (clock: int)
      modifies this
      ensures Abs() == Run(old(Abs()), now, es) && clock == Clock(now, es)
    {
      clock := now;
      for i := 0 to |es|
        invariant Run(Abs(), clock, es[i..]) == Run(old(Abs()), now, es)
        invariant Clock(clock, es[i..]) == Clock(now, es)
      {
        assert es[i..][1..] == es[i + 1..];
        clock := clock + es[i].elapsed;
        Do(es[i].event, clock);
      }
    }

    method Do(e: Event, now: int)
      modifies this
      ensures Abs() == Step(old(Abs()), e, now)
    {
      match e {
        case Open(r) => var _ := Open(r, now);
        case Amend(r) => var _ := Amend(r, now);
        case Close(symbol) => Disarm(symbol);
        case TimerFires(symbol) => if symbol in deadlines { Disarm(symbol); }
        case PositionGone(symbol) => if symbol in stops { DisarmStop(symbol); }
        case Restart(own, older) =>
          deadlines, stops := map[], map[];
          Restore(own + older);
      }
    }

    /** `Restore` on the rows read back, in the order the store returns them. */
    method Restore(hs: seq<Horizon>)
      modifies this
      ensures Abs() == AfterRestore(old(Abs()), hs)
    {
      for i := 0 to |hs|
        invariant Abs() == AfterRestore(old(Abs()), hs[..i])
      {
        var h := hs[i];
        assert hs[..i + 1][..i] == hs[..i];
        if h.row.closesAt.Some? {
          deadlines := deadlines[h.symbol := h.row.closesAt.value];
        }
        if h.row.bounds.maxLoss > 0 || h.row.bounds.takeProfit > 0 {
          ArmStop(h.symbol, h.row.bounds);
        }
      }
      assert hs[..|hs|] == hs;
    }
  }

  // -------------------------------------------------------------------- runs

  /** A restart reads the account's own rows and then those of older account names. */
  datatype Event =
    | Open(open: OpenRequest)
    | Amend(amend: AmendRequest)
    | Close(symbol: string)
    | TimerFires(symbol: string)
    | PositionGone(symbol: string)
    | Restart(own: seq<Horizon>, older: seq<Horizon>)

  /** What happens, and how long after the event before it. */
  datatype Timed = Timed(elapsed: nat, event: Event)

  /** A process that has just started: nothing armed, the store as it was left. */
  function Started(rows: map<string, Row>): State {
    State(map[], map[], rows)
  }

  function Step(s: State, e: Event, now: int): State {
    match e
    case Open(r) => AfterOpen(s, r, now)
    case Amend(r) => AfterAmend(s, r, now)
    case Close(symbol) => AfterClose(s, symbol)
    case TimerFires(symbol) => if symbol in s.deadlines then AfterClose(s, symbol) else s
    case PositionGone(symbol) => if symbol in s.stops then AfterGone(s, symbol) else s
    case Restart(own, older) => AfterRestore(Started(s.rows), own + older)
  }

  function Run(s: State, now: int, es: seq<Timed>): State
    decreases |es|
  {
    if es == [] then s
    else Run(Step(s, es[0].event, now + es[0].elapsed), now + es[0].elapsed, es[1..])
  }

  function Clock(now: int, es: seq<Timed>): int
    decreases |es|
  {
    if es == [] then now else Clock(now + es[0].elapsed, es[1..])
  }

  // ------------------------------------------------------------ what a restart arms

  function StopOf(s: State, symbol: string): Option<Bounds> {
    if symbol in s.stops then Some(s.stops[symbol]) else None
  }

  /** The last closing time among a symbol's rows, and their last armed bounds. */
  function LastClosing(hs: seq<Horizon>, symbol: string): Option<int> {
    if hs == [] then None
    else
      var h := hs[|hs| - 1];
      if h.symbol == symbol && h.row.closesAt.Some? then h.row.closesAt else LastClosing(hs[..|hs| - 1], symbol)
  }

  function LastBounds(hs: seq<Horizon>, symbol: string): Option<Bounds> {
    if hs == [] then None
    else
      var h := hs[|hs| - 1];
      if h.symbol == symbol && h.row.bounds.Armed() then Some(h.row.bounds) else LastBounds(hs[..|hs| - 1], symbol)
  }

  lemma {:induction false} LastRestored(s: State, hs: seq<Horizon>, symbol: string)
    ensures var t := AfterRestore(s, hs);
            && t.rows == s.rows
            && DeadlineOf(t, symbol) == (if LastClosing(hs, symbol).Some? then LastClosing(hs, symbol) else DeadlineOf(s, symbol))
            && StopOf(t, symbol) == if LastBounds(hs, symbol).Some? then LastBounds(hs, symbol) else StopOf(s, symbol)
    decreases |hs|
  {
    if hs != [] { LastRestored(s, hs[..|hs| - 1], symbol); }
  }

  lemma {:induction false} LastConcat(a: seq<Horizon>, b: seq<Horizon>, symbol: string)
    ensures LastClosing(a + b, symbol) == if LastClosing(b, symbol).Some? then LastClosing(b, symbol) else LastClosing(a, symbol)
    ensures LastBounds(a + b, symbol) == if LastBounds(b, symbol).Some? then LastBounds(b, symbol) else LastBounds(a, symbol)
    decreases |b|
  {
    if b == [] {
      assert a + b == a;
    } else {
      LastConcat(a, b[..|b| - 1], symbol);
      assert (a + b)[..|a + b| - 1] == a + b[..|b| - 1];
    }
  }

  /** When a symbol's rows are all one row. */
  lemma {:induction false} LastOfOne(hs: seq<Horizon>, symbol: string, row: Row)
    requires forall i :: 0 <= i < |hs| && hs[i].symbol == symbol ==> hs[i].row == row
    ensures LastClosing(hs, symbol) == if Horizon(symbol, row) in hs then row.closesAt else None
    ensures LastBounds(hs, symbol) == if Horizon(symbol, row) in hs && row.bounds.Armed() then Some(row.bounds) else None
    decreases |hs|
  {
    if hs != [] {
      var front, last := hs[..|hs| - 1], hs[|hs| - 1];
      LastOfOne(front, symbol, row);
      assert hs == front + [last];
      if last.symbol == symbol { assert last == Horizon(symbol, row); } else { assert last != Horizon(symbol, row); }
    }
  }

  /** The store returns this account's rows in some order, one per symbol. */
  ghost predicate Enumerates(hs: seq<Horizon>, rows: map<string, Row>) {
    && (forall i :: 0 <= i < |hs| ==> hs[i].symbol in rows && rows[hs[i].symbol] == hs[i].row)
    && (forall symbol :: symbol in rows ==> Horizon(symbol, rows[symbol]) in hs)
  }

  /** A restart arms what the older rows of a symbol say last, and otherwise what its
      own row says. */
  lemma {:induction false} RowsReadBack(rows: map<string, Row>, own: seq<Horizon>, older: seq<Horizon>, symbol: string)
    requires Enumerates(own, rows)
    ensures var r := AfterRestore(Started(rows), own + older);
            && r.rows == rows
            && DeadlineOf(r, symbol)
               == (if LastClosing(older, symbol).Some? then LastClosing(older, symbol)
                   else if symbol in rows then rows[symbol].closesAt else None)
            && StopOf(r, symbol)
               == if LastBounds(older, symbol).Some? then LastBounds(older, symbol)
                  else if symbol in rows && rows[symbol].bounds.Armed() then Some(rows[symbol].bounds) else None
  {
    var row := if symbol in rows then rows[symbol] else Row(None, Bounds(0, 0));
    LastRestored(Started(rows), own + older, symbol);
    LastConcat(own, older, symbol);
    LastOfOne(own, symbol, row);
    assert symbol in rows <==> Horizon(symbol, row) in own;
  }

  lemma {:induction false} LastArmed(hs: seq<Horizon>, symbol: string)
    ensures LastBounds(hs, symbol).Some? ==> LastBounds(hs, symbol).value.Armed()
  {
    if hs != [] { LastArmed(hs[..|hs| - 1], symbol); }
  }

  lemma {:induction false} NoneMentioned(hs: seq<Horizon>, symbol: string)
    requires !Mentions(hs, symbol)
    ensures LastClosing(hs, symbol) == None && LastBounds(hs, symbol) == None
  {
    if hs != [] {
      assert forall i :: 0 <= i < |hs| ==> hs[i].symbol != symbol;
      NoneMentioned(hs[..|hs| - 1], symbol);
    }
  }

  predicate Mentions(hs: seq<Horizon>, symbol: string) {
    exists i :: 0 <= i < |hs| && hs[i].symbol == symbol
  }

  // ------------------------------------------------------- every guard has its row

  /** Every armed guard of the symbol is what its stored row says. */
  predicate BackedAt(s: State, symbol: string) {
    && (symbol in s.deadlines ==>
          symbol in s.rows && s.rows[symbol].closesAt == Some(s.deadlines[symbol]))
    && (symbol in s.stops ==>
          s.stops[symbol].Armed() && symbol in s.rows && s.rows[symbol].bounds == s.stops[symbol])
  }

  ghost predicate Backed(s: State) {
    forall symbol: string :: BackedAt(s, symbol)
  }

  /** Older rows say no more of a symbol than its own row. */
  predicate OlderSays(rows: map<string, Row>, older: seq<Horizon>, symbol: string) {
    && (LastClosing(older, symbol).Some? ==> symbol in rows && rows[symbol].closesAt == LastClosing(older, symbol))
    && (LastBounds(older, symbol).Some? ==> symbol in rows && Some(rows[symbol].bounds) == LastBounds(older, symbol))
  }

  ghost predicate OlderBacked(rows: map<string, Row>, older: seq<Horizon>) {
    forall symbol: string :: OlderSays(rows, older, symbol)
  }

  /** An open writes a row over whatever is armed: it must bring every kind of guard
      that is armed for the symbol, or no guard at all. A restart's older rows must
      say no more than the account's own. */
  ghost predicate Covers(s: State, e: Event) {
    && (e.Open? && OpenOutcome(e.open) == Done && HasGuards(e.open) ==>
          && (e.open.symbol in s.deadlines ==> e.open.horizon > 0)
          && (e.open.symbol in s.stops ==> e.open.bounds.Armed()))
    && (e.Restart? ==> OlderBacked(s.rows, e.older))
  }

  /** The store gives back the rows it holds. */
  ghost predicate Reads(s: State, e: Event) {
    e.Restart? ==> Enumerates(e.own, s.rows)
  }

  ghost predicate AllCover(s: State, now: int, es: seq<Timed>)
    decreases |es|
  {
    es == [] ||
    (Reads(s, es[0].event) && Covers(s, es[0].event)
     && AllCover(Step(s, es[0].event, now + es[0].elapsed), now + es[0].elapsed, es[1..]))
  }

  lemma {:induction false} RestartBackedAt(s: State, own: seq<Horizon>, older: seq<Horizon>, symbol: string)
    requires Enumerates(own, s.rows)
    ensures BackedAt(AfterRestore(Started(s.rows), own + older), symbol) <==> OlderSays(s.rows, older, symbol)
  {
    RowsReadBack(s.rows, own, older, symbol);
    LastArmed(older, symbol);
    hide AfterRestore, LastClosing, LastBounds, Enumerates;
    var t := AfterRestore(Started(s.rows), own + older);
    assert symbol in t.deadlines <==> DeadlineOf(t, symbol).Some?;
    assert symbol in t.stops <==> StopOf(t, symbol).Some?;
  }

  /** One step keeps every guard backed exactly when it is not an open that leaves an
      armed guard out of the row it writes, nor a restart that finds older rows with
      something else to say. */
  lemma {:induction false} StepBackedIff(s: State, e: Event, now: int)
    requires Backed(s) && Reads(s, e)
    ensures Backed(Step(s, e, now)) <==> Covers(s, e)
  {
    var t := Step(s, e, now);
    if e.Restart? {
      hide AfterRestore, BackedAt, OlderSays;
      forall symbol: string
        ensures BackedAt(t, symbol) <==> OlderSays(s.rows, e.older, symbol)
      {
        RestartBackedAt(s, e.own, e.older, symbol);
      }
    } else if Covers(s, e) {
      forall symbol: string
        ensures BackedAt(t, symbol)
      {
        assert BackedAt(s, symbol);
      }
    } else {
      assert BackedAt(s, e.open.symbol);
      assert !BackedAt(t, e.open.symbol);
    }
  }

  /** An open on a symbol with nothing armed is always such a step. */
  lemma UnarmedOpenCovers(s: State, r: OpenRequest)
    requires r.symbol !in s.deadlines && r.symbol !in s.stops
    ensures Covers(s, Open(r))
  {
  }

  ghost predicate AllUnarmed(s: State, now: int, es: seq<Timed>)
    decreases |es|
  {
    es == [] ||
    (Reads(s, es[0].event)
     && (es[0].event.Open? ==>
           es[0].event.open.symbol !in s.deadlines && es[0].event.open.symbol !in s.stops)
     && (es[0].event.Restart? ==> es[0].event.older == [])
     && AllUnarmed(Step(s, es[0].event, now + es[0].elapsed), now + es[0].elapsed, es[1..]))
  }

  /** So a run that only opens symbols with nothing armed is one, over any number of
      restarts when there are no older rows. */
  lemma {:induction false} UnarmedRunCovers(s: State, now: int, es: seq<Timed>)
    requires AllUnarmed(s, now, es)
    ensures AllCover(s, now, es)
    decreases |es|
  {
    hide Step;
    if es != [] {
      if es[0].event.Open? { UnarmedOpenCovers(s, es[0].event.open); }
      UnarmedRunCovers(Step(s, es[0].event, now + es[0].elapsed), now + es[0].elapsed, es[1..]);
    }
  }

  /** However often the venue fails and whatever happens while the timer sleeps, a
      fired horizon leaves nothing of its symbol armed or stored. */
  lemma {:induction false} HorizonDropsGuards(s: State, symbol: string, now: int, attempts: seq<Attempt>)
    requires attempts != []
    ensures var t := AfterAttempts(s, symbol, now, attempts);
            symbol !in t.deadlines && symbol !in t.stops && symbol !in t.rows
    decreases |attempts|
  {
    hide Run, Clock;
    if |attempts| > 1 {
      var m := attempts[0].meanwhile;
      HorizonDropsGuards(Run(AfterClose(s, symbol), now, m), symbol, Clock(now, m), attempts[1..]);
    }
  }

  /** It tries again only after the venue failed, and three times at most; whatever
      happens while it sleeps happens before the next try drops the symbol's guards. */
  lemma {:induction false} HorizonTries(s: State, symbol: string, now: int, a: Attempt, b: Attempt, c: Attempt)
    ensures var one := Step(s, Close(symbol), now);
            var asleep := Run(one, now, a.meanwhile);
            var two := Step(asleep, Close(symbol), now);
            var three := Step(Run(two, Clock(now, a.meanwhile), b.meanwhile), Close(symbol), now);
            AfterAttempts(s, symbol, now, [a, b, c]) == (if !a.venueFails then one else if !b.venueFails then two else three)
  {
    var all, last := [a, b, c], [b, c];
    assert all[1..] == last && last[1..] == [c];
    var one := AfterClose(s, symbol);
    var asleep, woken := Run(one, now, a.meanwhile), Clock(now, a.meanwhile);
    var two := AfterClose(asleep, symbol);
    var again := Run(two, woken, b.meanwhile);
    hide Run, Clock, AfterClose;
    assert AfterAttempts(again, symbol, Clock(woken, b.meanwhile), [c]) == AfterClose(again, symbol);
    assert AfterAttempts(asleep, symbol, woken, last)
        == if b.venueFails then AfterAttempts(again, symbol, Clock(woken, b.meanwhile), last[1..]) else two;
    assert AfterAttempts(s, symbol, now, all) == if a.venueFails then AfterAttempts(asleep, symbol, woken, all[1..]) else one;
  }

  lemma {:induction false} RunBacked(s: State, now: int, es: seq<Timed>)
    requires Backed(s) && AllCover(s, now, es)
    ensures Backed(Run(s, now, es))
    decreases |es|
  {
    hide Backed, Covers, Reads, Step;
    if es != [] {
      var t := now + es[0].elapsed;
      StepBackedIff(s, es[0].event, t);
      RunBacked(Step(s, es[0].event, t), t, es[1..]);
    }
  }

  /** What older rows say of a symbol is what is armed for it, kind by kind, where
      something is armed. */
  predicate OlderKeeps(s: State, older: seq<Horizon>, symbol: string) {
    && (symbol in s.deadlines && LastClosing(older, symbol).Some? ==> LastClosing(older, symbol) == DeadlineOf(s, symbol))
    && (symbol in s.stops && LastBounds(older, symbol).Some? ==> LastBounds(older, symbol) == StopOf(s, symbol))
  }

  /** No guard is lost across a crash: after any run, restarts included, the service
      that starts on the stored rows arms every deadline and every stop that was armed,
      unchanged, if and only if no older row of the symbol says otherwise; and nothing
      for a symbol without a row of either kind. */
  lemma {:induction false} CrashKeepsGuards(rows: map<string, Row>, now: int, es: seq<Timed>,
                                            own: seq<Horizon>, older: seq<Horizon>, symbol: string)
    requires AllCover(Started(rows), now, es)
    requires Enumerates(own, Run(Started(rows), now, es).rows)
    ensures var before := Run(Started(rows), now, es);
            var after := AfterRestore(Started(before.rows), own + older);
            && ((&& (symbol in before.deadlines ==> DeadlineOf(after, symbol) == DeadlineOf(before, symbol))
                 && (symbol in before.stops ==> StopOf(after, symbol) == StopOf(before, symbol)))
                <==> OlderKeeps(before, older, symbol))
            && (symbol in after.deadlines || symbol in after.stops ==> symbol in before.rows || Mentions(older, symbol))
  {
    var before := Run(Started(rows), now, es);
    assert Backed(Started(rows));
    RunBacked(Started(rows), now, es);
    assert BackedAt(before, symbol);
    hide Run, AllCover;
    RowsReadBack(before.rows, own, older, symbol);
    if !Mentions(older, symbol) { NoneMentioned(older, symbol); }
    hide AfterRestore, LastClosing, LastBounds, Enumerates;
    var after := AfterRestore(Started(before.rows), own + older);
    assert symbol in after.deadlines <==> DeadlineOf(after, symbol).Some?;
    assert symbol in after.stops <==> StopOf(after, symbol).Some?;
  }

  /** Rows of older names are never deleted under the account's own: one of the same
      symbol overrides the account's deadline, and comes back after a close. */
  lemma {:induction false} OlderRowOverrides()
    ensures var rows := map["BTC" := Row(Some(20), Bounds(0, 0))];
            var older := [Horizon("BTC", Row(Some(5), Bounds(0, 0)))];
            var s := AfterRestore(Started(rows), [Horizon("BTC", rows["BTC"])] + older);
            var closed := AfterClose(s, "BTC");
            && DeadlineOf(s, "BTC") == Some(5) && "BTC" !in closed.rows
            && DeadlineOf(AfterRestore(Started(closed.rows), [] + older), "BTC") == Some(5)
  {
    var rows := map["BTC" := Row(Some(20), Bounds(0, 0))];
    var older := [Horizon("BTC", Row(Some(5), Bounds(0, 0)))];
    RowsReadBack(rows, [Horizon("BTC", rows["BTC"])], older, "BTC");
    RowsReadBack(map[], [], older, "BTC");
    assert AfterClose(AfterRestore(Started(rows), [Horizon("BTC", rows["BTC"])] + older), "BTC").rows == map[];
  }

  /** Opening with a stop alone on a symbol whose horizon is still armed loses
      that horizon at the next restart. */
  lemma {:induction false} UncoveredOpenLoses()
    ensures var first := OpenRequest("BTC", MIN_HORIZON, Bounds(0, 0), true);
            var second := OpenRequest("BTC", 0, Bounds(ONE, 0), true);
            var s := AfterOpen(AfterOpen(Started(map[]), first, 0), second, 1);
            var r := AfterRestore(Started(s.rows), [Horizon("BTC", s.rows["BTC"])]);
            "BTC" in s.deadlines && "BTC" !in r.deadlines
  {
    var s := AfterOpen(AfterOpen(Started(map[]), OpenRequest("BTC", MIN_HORIZON, Bounds(0, 0), true), 0),
                       OpenRequest("BTC", 0, Bounds(ONE, 0), true), 1);
    var hs := [Horizon("BTC", s.rows["BTC"])];
    assert hs[..0] == [];
    assert AfterRestore(Started(s.rows), hs[..|hs| - 1]) == Started(s.rows);
  }

  // ------------------------------------------------------- a row for guards only

  /** The stored row says what is armed, and nothing else. */
  predicate MatchedAt(s: State, symbol: string) {
    && BackedAt(s, symbol)
    && (symbol in s.rows ==>
          && (s.rows[symbol].closesAt.Some? ==> symbol in s.deadlines)
          && (s.rows[symbol].bounds.Armed() ==> symbol in s.stops))
  }

  ghost predicate Matched(s: State) {
    forall symbol: string :: MatchedAt(s, symbol)
  }

  predicate SameGuards(s: State, t: State, symbol: string) {
    DeadlineOf(s, symbol) == DeadlineOf(t, symbol) && StopOf(s, symbol) == StopOf(t, symbol)
  }

  /** What older rows say last of the symbol is what is armed for it. */
  predicate OlderAgrees(s: State, older: seq<Horizon>, symbol: string) {
    && (LastClosing(older, symbol).Some? ==> LastClosing(older, symbol) == DeadlineOf(s, symbol))
    && (LastBounds(older, symbol).Some? ==> LastBounds(older, symbol) == StopOf(s, symbol))
  }

  /** A restart arms exactly what was armed, no more and no less: on a matched symbol,
      if and only if the older rows say nothing else of it; on a symbol without older
      rows, if and only if it was matched. */
  lemma {:induction false} RestartIff(s: State, own: seq<Horizon>, older: seq<Horizon>, symbol: string)
    requires Enumerates(own, s.rows)
    ensures var after := AfterRestore(Started(s.rows), own + older);
            && (MatchedAt(s, symbol) ==> (SameGuards(after, s, symbol) <==> OlderAgrees(s, older, symbol)))
            && (!Mentions(older, symbol) && (symbol in s.stops ==> s.stops[symbol].Armed()) ==>
                  (SameGuards(after, s, symbol) <==> MatchedAt(s, symbol)))
  {
    RowsReadBack(s.rows, own, older, symbol);
    if !Mentions(older, symbol) { NoneMentioned(older, symbol); }
    hide AfterRestore, LastClosing, LastBounds, Enumerates, Mentions;
  }

  /** A service that has read its rows back is matched if and only if the older ones
      say no more than its own. */
  lemma {:induction false} RestartMatches(s: State, own: seq<Horizon>, older: seq<Horizon>)
    requires Enumerates(own, s.rows)
    ensures Matched(AfterRestore(Started(s.rows), own + older)) <==> OlderBacked(s.rows, older)
    ensures Backed(AfterRestore(Started(s.rows), own + older)) <==> OlderBacked(s.rows, older)
  {
    var t := AfterRestore(Started(s.rows), own + older);
    hide AfterRestore, OlderSays, BackedAt;
    forall symbol: string
      ensures MatchedAt(t, symbol) <==> BackedAt(t, symbol)
      ensures BackedAt(t, symbol) <==> OlderSays(s.rows, older, symbol)
    {
      RestartBackedAt(s, own, older, symbol);
      RowsReadBack(s.rows, own, older, symbol);
      assert symbol in t.deadlines <==> DeadlineOf(t, symbol).Some?;
      assert symbol in t.stops <==> StopOf(t, symbol).Some?;
    }
  }

  /** The watcher finds a position gone whose stop is still armed. */
  predicate LeavesRow(s: State, e: Event) {
    e.PositionGone? && e.symbol in s.stops
  }

  /** A step keeps rows and guards matched if and only if it neither leaves an armed
      guard out of the row it writes, nor forgets a stop and leaves its row, nor is a
      restart with older rows that say something else. */
  lemma {:induction false} StepMatchedIff(s: State, e: Event, now: int)
    requires Matched(s) && Reads(s, e)
    ensures Matched(Step(s, e, now)) <==> Covers(s, e) && !LeavesRow(s, e)
  {
    var t := Step(s, e, now);
    if e.Restart? {
      hide Matched, AfterRestore;
      RestartMatches(s, e.own, e.older);
    } else {
      assert Backed(s) by { assert forall symbol: string :: MatchedAt(s, symbol) ==> BackedAt(s, symbol); }
      StepBackedIff(s, e, now);
      if Covers(s, e) && !LeavesRow(s, e) {
        forall symbol: string
          ensures MatchedAt(t, symbol)
        {
          assert MatchedAt(s, symbol) && BackedAt(t, symbol);
        }
      } else if LeavesRow(s, e) {
        assert MatchedAt(s, e.symbol) && !MatchedAt(t, e.symbol);
      } else {
        var symbol: string :| !BackedAt(t, symbol);
        assert !MatchedAt(t, symbol);
      }
    }
  }

  ghost predicate AllTidy(s: State, now: int, es: seq<Timed>)
    decreases |es|
  {
    es == [] ||
    (Reads(s, es[0].event) && Covers(s, es[0].event) && !LeavesRow(s, es[0].event)
     && AllTidy(Step(s, es[0].event, now + es[0].elapsed), now + es[0].elapsed, es[1..]))
  }

  lemma {:induction false} RunMatched(s: State, now: int, es: seq<Timed>)
    requires Matched(s) && AllTidy(s, now, es)
    ensures Matched(Run(s, now, es))
    decreases |es|
  {
    hide Matched, Covers, Reads, LeavesRow, Step;
    if es != [] {
      var t := now + es[0].elapsed;
      StepMatchedIff(s, es[0].event, t);
      RunMatched(Step(s, es[0].event, t), t, es[1..]);
    }
  }

  /** A process that starts on any rows and runs so, over any number of crashes and
      restarts: the next restart arms exactly what was armed if and only if the older
      rows say nothing else of the symbol. */
  lemma {:induction false} CrashRestoresExactly(
    rows: map<string, Row>, first: seq<Horizon>, now: int, es: seq<Timed>,
    own: seq<Horizon>, older: seq<Horizon>, symbol: string)
    requires AllTidy(Started(rows), now, [Timed(0, Restart(first, older))] + es)
    requires Enumerates(own, Run(Started(rows), now, [Timed(0, Restart(first, older))] + es).rows)
    ensures var before := Run(Started(rows), now, [Timed(0, Restart(first, older))] + es);
            SameGuards(AfterRestore(Started(before.rows), own + older), before, symbol)
            <==> OlderAgrees(before, older, symbol)
  {
    var all := [Timed(0, Restart(first, older))] + es;
    assert all[0] == Timed(0, Restart(first, older)) && all[1..] == es;
    var before := Run(Started(rows), now, all);
    hide AfterRestore;
    RestartMatches(Started(rows), first, older);
    var begun := Step(Started(rows), Restart(first, older), now);
    assert Matched(begun) && AllTidy(begun, now, es) && before == Run(begun, now, es);
    RunMatched(begun, now, es);
    assert MatchedAt(before, symbol);
    RestartIff(before, own, older, symbol);
  }

  /** A restarted service is backed again, so the next run and the next crash
      lose nothing either. */
  lemma {:induction false} RestartIsBacked(rows: map<string, Row>, own: seq<Horizon>)
    requires Enumerates(own, rows)
    ensures Backed(AfterRestore(Started(rows), own)) && Matched(AfterRestore(Started(rows), own))
  {
    assert own + [] == own;
    assert OlderBacked(rows, []);
    RestartMatches(Started(rows), own, []);
  }

  /** The failing case happens: a stop whose position was found gone comes back at the
      restart, on a position opened since without one. */
  lemma {:induction false} StaleStopReturns()
    ensures var first := Open(OpenRequest("BTC", 0, Bounds(ONE, 0), true));
            var second := Open(OpenRequest("BTC", 0, Bounds(0, 0), true));
            var a := Step(Started(map[]), first, 0);
            var b := Step(a, PositionGone("BTC"), 1);
            var c := Step(b, second, 2);
            var r := AfterRestore(Started(c.rows), [Horizon("BTC", c.rows["BTC"])]);
            && Covers(Started(map[]), first) && Covers(a, PositionGone("BTC")) && Covers(b, second)
            && "BTC" !in c.stops && "BTC" in r.stops && r.stops["BTC"] == Bounds(ONE, 0)
  {
    var a := Step(Started(map[]), Open(OpenRequest("BTC", 0, Bounds(ONE, 0), true)), 0);
    var c := Step(Step(a, PositionGone("BTC"), 1), Open(OpenRequest("BTC", 0, Bounds(0, 0), true)), 2);
    var hs := [Horizon("BTC", c.rows["BTC"])];
    assert hs[..0] == [];
    assert AfterRestore(Started(c.rows), hs[..|hs| - 1]) == Started(c.rows);
  }

  // --------------------------------------------------------------- how far ahead

  predicate SoonRow(row: Row, now: int) {
    row.closesAt.Some? ==> row.closesAt.value <= now + MAX_HORIZON
  }

  /** No horizon, armed or stored, is set further out than the longest the app offers. */
  predicate Soon(s: State, now: int) {
    && (forall symbol :: symbol in s.deadlines ==> s.deadlines[symbol] <= now + MAX_HORIZON)
    && (forall symbol :: symbol in s.rows ==> SoonRow(s.rows[symbol], now))
  }

  /** Restarts read the rows that are there, and older ones no further out. */
  ghost predicate AllReadSoon(s: State, now: int, es: seq<Timed>)
    decreases |es|
  {
    es == [] ||
    var t := now + es[0].elapsed;
    (&& Reads(s, es[0].event)
     && (es[0].event.Restart? ==>
           forall i :: 0 <= i < |es[0].event.older| ==> SoonRow(es[0].event.older[i].row, t))
     && AllReadSoon(Step(s, es[0].event, t), t, es[1..]))
  }

  lemma {:induction false} LastSoon(hs: seq<Horizon>, symbol: string, now: int)
    requires forall i :: 0 <= i < |hs| ==> SoonRow(hs[i].row, now)
    ensures LastClosing(hs, symbol).Some? ==> LastClosing(hs, symbol).value <= now + MAX_HORIZON
  {
    if hs != [] { LastSoon(hs[..|hs| - 1], symbol, now); }
  }

  lemma {:induction false} RestartSoon(s: State, own: seq<Horizon>, older: seq<Horizon>, now: int)
    requires Soon(s, now) && Enumerates(own, s.rows) && forall i :: 0 <= i < |older| ==> SoonRow(older[i].row, now)
    ensures Soon(AfterRestore(Started(s.rows), own + older), now)
  {
    var t := AfterRestore(Started(s.rows), own + older);
    hide AfterRestore, LastClosing, LastBounds, Enumerates;
    RowsReadBack(s.rows, own, older, "");
    forall symbol | symbol in t.deadlines
      ensures t.deadlines[symbol] <= now + MAX_HORIZON
    {
      RowsReadBack(s.rows, own, older, symbol);
      LastSoon(older, symbol, now);
      assert DeadlineOf(t, symbol) == Some(t.deadlines[symbol]);
    }
  }

  lemma {:induction false} StepSoon(s: State, e: Event, now: int)
    requires Soon(s, now) && Reads(s, e)
    requires e.Restart? ==> forall i :: 0 <= i < |e.older| ==> SoonRow(e.older[i].row, now)
    ensures Soon(Step(s, e, now), now)
  {
    if e.Restart? { RestartSoon(s, e.own, e.older, now); }
    hide AfterRestore;
  }

  lemma {:induction false} RunSoon(s: State, now: int, es: seq<Timed>)
    requires Soon(s, now) && AllReadSoon(s, now, es)
    ensures Soon(Run(s, now, es), Clock(now, es))
    ensures var t := Run(s, now, es);
            forall symbol :: symbol in t.deadlines ==> t.deadlines[symbol] <= Clock(now, es) + 86_400_000_000_000
    decreases |es|
  {
    if es != [] {
      var t := now + es[0].elapsed;
      assert Soon(s, t);
      hide Step, Soon;
      StepSoon(s, es[0].event, t);
      RunSoon(Step(s, es[0].event, t), t, es[1..]);
    }
  }

  /** A successful amendment backs the symbol whatever its state was, never moves
      a deadline in, keeps what was not named, and touches no other symbol. */
  lemma {:induction false} AmendRepairs(s: State, r: AmendRequest, now: int)
    requires AmendOutcome(s, r, now) == Done
    ensures var t := AfterAmend(s, r, now);
            && BackedAt(t, r.symbol)
            && (r.symbol in s.deadlines ==> r.symbol in t.deadlines && t.deadlines[r.symbol] >= s.deadlines[r.symbol])
            && (r.extend > 0 ==> r.symbol in t.deadlines && now < t.deadlines[r.symbol] <= now + MAX_HORIZON)
            && BoundsOf(t, r.symbol) == (if NewBounds(s, r).Armed() then NewBounds(s, r) else Bounds(0, 0))
            && forall other :: other != r.symbol ==>
                 DeadlineOf(t, other) == DeadlineOf(s, other) && BoundsOf(t, other) == BoundsOf(s, other)
                 && (BackedAt(s, other) <==> BackedAt(t, other))
  {
  }

  /** What a successful amendment leaves: each bound is the one asked for, or else the
      one there was; the stop is armed exactly when one of them is positive; an
      extension runs from the later of now and the deadline in force; and the row says
      the same. */
  lemma {:induction false} AmendMeans(s: State, r: AmendRequest, now: int)
    requires AmendOutcome(s, r, now) == Done
    ensures var t, x := AfterAmend(s, r, now), r.symbol;
            var loss := if r.maxLoss.Some? then r.maxLoss.value else if x in s.stops then s.stops[x].maxLoss else 0;
            var profit := if r.takeProfit.Some? then r.takeProfit.value else if x in s.stops then s.stops[x].takeProfit else 0;
            var from := if x in s.deadlines && s.deadlines[x] > now then s.deadlines[x] else now;
            && (x in t.stops <==> loss > 0 || profit > 0)
            && (x in t.stops ==> t.stops[x] == Bounds(loss, profit))
            && (r.extend > 0 ==> x in t.deadlines && t.deadlines[x] == from + r.extend)
            && (r.extend <= 0 ==> t.deadlines == s.deadlines)
            && (x in t.rows <==> x in t.deadlines || x in t.stops)
            && (x in t.rows ==>
                  && t.rows[x].bounds == Bounds(loss, profit)
                  && t.rows[x].closesAt == if x in t.deadlines then Some(t.deadlines[x]) else None)
  {
  }

  /** When an amendment goes through: the loss at most everything, no negative exit or
      extension, a position, and an extended deadline at most a day ahead. */
  lemma {:induction false} AmendIff(s: State, r: AmendRequest, now: int)
    ensures AmendOutcome(s, r, now) == Done <==>
              && (r.maxLoss.Some? ==> 0 <= r.maxLoss.value <= 100_000_000)
              && (r.takeProfit.Some? ==> 0 <= r.takeProfit.value)
              && 0 <= r.extend && r.positionOpen
              && (r.extend > 0 ==>
                    && r.extend <= 86_400_000_000_000
                    && (r.symbol in s.deadlines ==> s.deadlines[r.symbol] + r.extend <= now + 86_400_000_000_000))
    ensures AmendOutcome(s, r, now) != Done ==> AfterAmend(s, r, now) == s
  {
  }

  /** What an open leaves: a horizon of ten seconds to a day closes that long from now,
      the bounds given are armed when one is positive, and the row says what was given;
      an open without either arms and stores nothing, and no other symbol changes. */
  lemma {:induction false} OpenMeans(s: State, r: OpenRequest, now: int)
    ensures OpenOutcome(r) == Done <==>
              && 0 <= r.bounds.maxLoss <= 100_000_000 && 0 <= r.bounds.takeProfit
              && (r.horizon == 0 || 10_000_000_000 <= r.horizon <= 86_400_000_000_000) && r.placed
    ensures OpenOutcome(r) != Done ==> AfterOpen(s, r, now) == s
    ensures OpenOutcome(r) == Done ==>
              var t, x := AfterOpen(s, r, now), r.symbol;
              var armed := r.bounds.maxLoss > 0 || r.bounds.takeProfit > 0;
              && (r.horizon > 0 ==> x in t.deadlines && t.deadlines[x] == now + r.horizon)
              && (r.horizon == 0 ==> t.deadlines == s.deadlines)
              && (armed ==> x in t.stops && t.stops[x] == r.bounds)
              && (!armed ==> t.stops == s.stops)
              && (r.horizon > 0 || armed ==>
                    x in t.rows && t.rows[x] == Row(if r.horizon > 0 then Some(now + r.horizon) else None, r.bounds))
              && (r.horizon == 0 && !armed ==> t.rows == s.rows)
              && forall y :: y != x ==>
                   && (y in t.deadlines <==> y in s.deadlines) && (y in s.deadlines ==> t.deadlines[y] == s.deadlines[y])
                   && (y in t.stops <==> y in s.stops) && (y in s.stops ==> t.stops[y] == s.stops[y])
                   && (y in t.rows <==> y in s.rows) && (y in s.rows ==> t.rows[y] == s.rows[y])
  {
  }

  /** An exit drops its own symbol's guards and row, a position found gone its stop, a
      fired timer whatever its exit drops, and no other symbol changes. */
  lemma {:induction false} ExitsMean(s: State, e: Event, now: int, other: string)
    requires e.Close? || e.TimerFires? || e.PositionGone?
    ensures var t := Step(s, e, now);
            && (e.Close? || (e.TimerFires? && e.symbol in s.deadlines) ==>
                  e.symbol !in t.deadlines && e.symbol !in t.stops && e.symbol !in t.rows)
            && (e.TimerFires? && e.symbol !in s.deadlines ==> t == s)
            && (e.PositionGone? ==> e.symbol !in t.stops && t.deadlines == s.deadlines && t.rows == s.rows)
            && (other != e.symbol ==>
                  && DeadlineOf(t, other) == DeadlineOf(s, other) && StopOf(t, other) == StopOf(s, other)
                  && (other in t.rows <==> other in s.rows) && (other in s.rows ==> t.rows[other] == s.rows[other]))
  {
  }
}
