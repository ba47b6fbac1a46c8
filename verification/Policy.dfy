/** The policy engine of policy/policy.go, and the order path of
    platform/service.go that drives it: an order is authorised in one critical
    section and recorded in another, with the venue in between. */
module Policy {
  import opened Wrappers
  import opened Arith

  /** Amounts are fixed-point values, times nanoseconds. */
  datatype Limits = Limits(
    symbols: seq<string>,
    maxNotional: int,
    minNotional: int,
    maxLeverage: int,
    maxTotalExposure: int,
    maxOpenPositions: int,
    dailyLoss: int,
    cooldown: int,
    group: string)

  datatype Request = Request(account: string, symbol: string, reduce: bool, notional: int, leverage: int)

  /** A refusal with the limit, what was asked and the wait, where the denial has them. */
  datatype Verdict =
    | Allowed | Malformed | KillSwitch | SymbolNotAllowed
    | NotionalTooSmall(limit: int, actual: int)
    | NotionalTooLarge(limit: int, actual: int)
    | LeverageTooHigh(limit: int, actual: int)
    | DailyLossReached(limit: int, actual: int, retryAfter: int)
    | TooManyPositions(limit: int, actual: int)
    | ExposureTooLarge(limit: int, actual: int)
    | Cooldown(retryAfter: int)

  datatype Account = Account(
    lastOpen: Option<int>,
    dayStart: int,
    realizedLoss: int,
    openPositions: int,
    exposure: int)

  datatype View = View(openPositions: int, exposure: int, dailyLoss: int, lastOpen: Option<int>)

  const DAY: int := 86_400_000_000_000
  const ONE: int := 100_000_000

  function StartOfDay(now: int): int {
    now - now % DAY
  }

  predicate Coherent(l: Limits) {
    && l.symbols != [] && l.maxNotional > 0 && 0 <= l.minNotional <= l.maxNotional
    && l.maxLeverage > 0 && l.maxOpenPositions > 0 && l.dailyLoss > 0 && l.cooldown >= 0
  }

  /** Unicode simple case folding, as a table of what does not fold to itself. */
  type Folding = map<char, char>

  function Fold(f: Folding, c: char): char {
    if c in f then f[c] else c
  }

  predicate EqualFold(f: Folding, a: string, b: string) {
    |a| == |b| && forall i :: 0 <= i < |a| ==> Fold(f, a[i]) == Fold(f, b[i])
  }

  predicate SymbolAllowed(f: Folding, allowed: seq<string>, symbol: string) {
    exists i :: 0 <= i < |allowed| && EqualFold(f, allowed[i], symbol)
  }

  /** What the day is down, never negative. */
  function DailyLoss(a: Account): int {
    if a.realizedLoss < 0 then 0 else a.realizedLoss
  }

  /** A new UTC day starts with nothing lost. */
  function Rolled(a: Account, now: int): Account {
    if a.dayStart < StartOfDay(now) then a.(dayStart := StartOfDay(now), realizedLoss := 0) else a
  }

  // --------------------------------------------------------------- the engine

  datatype State = State(
    killed: bool, limits: map<string, Limits>, accounts: map<string, Account>, folding: Folding)

  /** Where an account's state lives: its limits' group, or itself. */
  function KeyIn(limits: map<string, Limits>, account: string): string {
    if account in limits && limits[account].group != "" then limits[account].group else account
  }

  function KeyOf(s: State, account: string): string {
    KeyIn(s.limits, account)
  }

  /** The state at a key, rolled to today; a key never seen starts today. */
  function Today(s: State, key: string, now: int): Account {
    if key in s.accounts then Rolled(s.accounts[key], now) else Account(None, StartOfDay(now), 0, 0, 0)
  }

  function Touch(s: State, account: string, now: int): State {
    s.(accounts := s.accounts[KeyOf(s, account) := Today(s, KeyOf(s, account), now)])
  }

  /** The checks made before the account's state is looked at; None passes on. */
  function Screen(s: State, r: Request): Option<Verdict> {
    if r.account == "" || r.symbol == "" then Some(Malformed)
    else if r.reduce then Some(Allowed)
    else if s.killed then Some(KillSwitch)
    else if r.account !in s.limits then Some(Malformed)
    else
      var l := s.limits[r.account];
      if !SymbolAllowed(s.folding, l.symbols, r.symbol) then Some(SymbolNotAllowed)
      else if r.notional <= 0 then Some(Malformed)
      else if r.notional < l.minNotional then Some(NotionalTooSmall(l.minNotional, r.notional))
      else if r.notional > l.maxNotional then Some(NotionalTooLarge(l.maxNotional, r.notional))
      else if r.leverage > l.maxLeverage then Some(LeverageTooHigh(l.maxLeverage, r.leverage))
      else None
  }

  function JudgeAccount(l: Limits, a: Account, notional: int, now: int): Verdict {
    if DailyLoss(a) >= l.dailyLoss then DailyLossReached(l.dailyLoss, DailyLoss(a), a.dayStart + DAY - now)
    else if a.openPositions >= l.maxOpenPositions then TooManyPositions(l.maxOpenPositions * ONE, a.openPositions * ONE)
    else if l.maxTotalExposure > 0 && a.exposure + notional > l.maxTotalExposure
    then ExposureTooLarge(l.maxTotalExposure, a.exposure + notional)
    else if l.cooldown > 0 && a.lastOpen.Some? && now - a.lastOpen.value < l.cooldown
    then Cooldown(l.cooldown - (now - a.lastOpen.value))
    else Allowed
  }

  function Authorized(s: State, r: Request, now: int): Verdict {
    match Screen(s, r)
    case Some(v) => v
    case None => JudgeAccount(s.limits[r.account], Today(s, KeyOf(s, r.account), now), r.notional, now)
  }

  function AfterAuthorize(s: State, r: Request, now: int): State {
    if Screen(s, r).Some? then s else Touch(s, r.account, now)
  }

  function AfterOpen(s: State, account: string, notional: int, now: int): State {
    var key := KeyOf(s, account);
    var a := Today(s, key, now);
    s.(accounts := s.accounts[key :=
      a.(lastOpen := Some(now), openPositions := a.openPositions + 1, exposure := a.exposure + notional)])
  }

  function AfterClose(s: State, account: string, notional: int, pnl: int, now: int): State {
    var key := KeyOf(s, account);
    var a := Today(s, key, now);
    var open := if a.openPositions > 0 then a.openPositions - 1 else a.openPositions;
    var left := a.exposure - notional;
    s.(accounts := s.accounts[key :=
      a.(openPositions := open,
         exposure := if left < 0 || open == 0 then 0 else left,
         realizedLoss := a.realizedLoss - pnl)])
  }

  function Sum(values: seq<int>): int {
    if values == [] then 0 else Sum(values[..|values| - 1]) + values[|values| - 1]
  }

  function AfterReconcile(s: State, account: string, values: seq<int>, now: int): State {
    var key := KeyOf(s, account);
    s.(accounts := s.accounts[key := Today(s, key, now).(openPositions := |values|, exposure := Sum(values))])
  }

  function AfterSetLimits(s: State, account: string, l: Limits): State {
    if account == "" || !Coherent(l) then s else s.(limits := s.limits[account := l])
  }

  function ViewOf(a: Account): View {
    View(a.openPositions, a.exposure, DailyLoss(a), a.lastOpen)
  }

  class Engine {
    const folding: Folding
    var killSwitch: bool
    var limits: map<string, Limits>
    var accounts: map<string, Account>

    function Abs(): State
      reads this
    {
      State(killSwitch, limits, accounts, folding)
    }

    constructor (folding: Folding)
      ensures Abs() == Fresh(folding)
    {
      this.folding := folding;
      killSwitch, limits, accounts := false, map[], map[];
    }

    method SetLimits(account: string, l: Limits) returns (ok: bool)
      modifies this`limits
      ensures ok == (account != "" && Coherent(l)) && Abs() == AfterSetLimits(old(Abs()), account, l)
    {
      if account == "" || !Coherent(l) { return false; }
      limits := limits[account := l];
      return true;
    }

    method Kill()
      modifies this`killSwitch
      ensures Abs() == old(Abs()).(killed := true)
    {
      killSwitch := true;
    }

    method Revive()
      modifies this`killSwitch
      ensures Abs() == old(Abs()).(killed := false)
    {
      killSwitch := false;
    }

    /** `stateLocked` then `rollDayLocked`. */
    method RollDay(account: string, now: int) returns (key: string)
      modifies this`accounts
      ensures key == KeyOf(Abs(), account) && Abs() == Touch(old(Abs()), account, now)
    {
      key := account;
      if account in limits && limits[account].group != "" { key := limits[account].group; }
      if key !in accounts {
        accounts := accounts[key := Account(None, StartOfDay(now), 0, 0, 0)];
      }
      var st := accounts[key];
      if st.dayStart < StartOfDay(now) {
        accounts := accounts[key := st.(dayStart := StartOfDay(now), realizedLoss := 0)];
      }
    }

    method Authorize(r: Request, now: int) returns (verdict: Verdict)
      modifies this`accounts
      ensures verdict == Authorized(old(Abs()), r, now) && Abs() == AfterAuthorize(old(Abs()), r, now)
    {
      if r.account == "" || r.symbol == "" { return Malformed; }
      if r.reduce { return Allowed; }
      if killSwitch { return KillSwitch; }
      if r.account !in limits { return Malformed; }
      var l := limits[r.account];
      if !SymbolAllowed(folding, l.symbols, r.symbol) { return SymbolNotAllowed; }
      if r.notional <= 0 { return Malformed; }
      if r.notional < l.minNotional { return NotionalTooSmall(l.minNotional, r.notional); }
      if r.notional > l.maxNotional { return NotionalTooLarge(l.maxNotional, r.notional); }
      if r.leverage > l.maxLeverage { return LeverageTooHigh(l.maxLeverage, r.leverage); }
      var key := RollDay(r.account, now);
      var st := accounts[key];
      if DailyLoss(st) >= l.dailyLoss {
        return DailyLossReached(l.dailyLoss, DailyLoss(st), st.dayStart + DAY - now);
      }
      if st.openPositions >= l.maxOpenPositions {
        return TooManyPositions(l.maxOpenPositions * ONE, st.openPositions * ONE);
      }
      if l.maxTotalExposure > 0 {
        var total := st.exposure + r.notional;
        if total > l.maxTotalExposure { return ExposureTooLarge(l.maxTotalExposure, total); }
      }
      if l.cooldown > 0 && st.lastOpen.Some? {
        var elapsed := now - st.lastOpen.value;
        if elapsed < l.cooldown { return Cooldown(l.cooldown - elapsed); }
      }
      return Allowed;
    }

    method RecordOpen(account: string, notional: int, now: int)
      modifies this`accounts
      ensures Abs() == AfterOpen(old(Abs()), account, notional, now)
    {
      var key := RollDay(account, now);
      var st := accounts[key];
      accounts := accounts[key :=
        st.(lastOpen := Some(now), openPositions := st.openPositions + 1, exposure := st.exposure + notional)];
    }

    method RecordClose(account: string, notional: int, pnl: int, now: int)
      modifies this`accounts
      ensures Abs() == AfterClose(old(Abs()), account, notional, pnl, now)
    {
      var key := RollDay(account, now);
      var st := accounts[key];
      if st.openPositions > 0 { st := st.(openPositions := st.openPositions - 1); }
      st := st.(exposure := st.exposure - notional);
      if st.exposure < 0 || st.openPositions == 0 { st := st.(exposure := 0); }
      accounts := accounts[key := st.(realizedLoss := st.realizedLoss - pnl)];
    }

    /** Each position is given by its value, entry price times size. */
    method Reconcile(account: string, values: seq<int>, now: int)
      modifies this`accounts
      ensures Abs() == AfterReconcile(old(Abs()), account, values, now)
    {
      var key := RollDay(account, now);
      var exposure := 0;
      for i := 0 to |values|
        invariant exposure == Sum(values[..i])
      {
        assert values[..i + 1][..i] == values[..i];
        exposure := exposure + values[i];
      }
      assert values[..|values|] == values;
      accounts := accounts[key := accounts[key].(openPositions := |values|, exposure := exposure)];
    }

    method Snapshot(account: string, now: int) returns (v: View)
      modifies this`accounts
      ensures Abs() == Touch(old(Abs()), account, now)
      ensures v == ViewOf(Today(old(Abs()), KeyOf(old(Abs()), account), now))
    {
      var key := RollDay(account, now);
      var st := accounts[key];
      v := View(st.openPositions, st.exposure, DailyLoss(st), st.lastOpen);
    }
  }

  // ----------------------------------------------------- the interleaved system

  /** An opening order between its authorisation and its record. */
  datatype Order = Order(account: string, key: string, notional: int)

  /** A close as it was recorded. */
  datatype Close = Close(key: string, at: int, pnl: int)

  datatype System = System(engine: State, inFlight: seq<Order>, log: seq<Close>, now: int)

  /** A critical section, a venue's refusal, or time passing. */
  datatype Event =
    | Wait(elapsed: nat)
    | Ask(r: Request)
    | VenueRefused(i: nat)
    | Placed(i: nat, recorded: int)
    | Closed(account: string, notional: int, pnl: int)
    | NewLimits(account: string, l: Limits)
    | Switch(killed: bool)
    | Reconciled(account: string, values: seq<int>)
    | Look(account: string)

  function Without(orders: seq<Order>, i: nat): seq<Order>
    requires i < |orders|
  {
    orders[..i] + orders[i + 1..]
  }

  /** One critical section. An index with no order in flight does nothing. */
  function Act(s: System, e: Event): System {
    match e
    case Wait(elapsed) => s.(now := s.now + elapsed)
    case Ask(r) =>
      s.(engine := AfterAuthorize(s.engine, r, s.now),
         inFlight := if Authorized(s.engine, r, s.now) == Allowed && !r.reduce
                     then s.inFlight + [Order(r.account, KeyOf(s.engine, r.account), r.notional)]
                     else s.inFlight)
    case VenueRefused(i) =>
      if i < |s.inFlight| then s.(inFlight := Without(s.inFlight, i)) else s
    case Placed(i, recorded) =>
      if i < |s.inFlight|
      then s.(engine := AfterOpen(s.engine, s.inFlight[i].account, recorded, s.now),
              inFlight := Without(s.inFlight, i))
      else s
    case Closed(account, notional, pnl) =>
      s.(engine := AfterClose(s.engine, account, notional, pnl, s.now),
         log := s.log + [Close(KeyOf(s.engine, account), s.now, pnl)])
    case NewLimits(account, l) => s.(engine := AfterSetLimits(s.engine, account, l))
    case Switch(killed) => s.(engine := s.engine.(killed := killed))
    case Reconciled(account, values) => s.(engine := AfterReconcile(s.engine, account, values, s.now))
    case Look(account) => s.(engine := Touch(s.engine, account, s.now))
  }

  function Run(s: System, es: seq<Event>): System
    decreases |es|
  {
    if es == [] then s else Run(Act(s, es[0]), es[1..])
  }

  // ------------------------------------------------------ the daily loss budget

  /** What the closes recorded under a key on one day did to the balance. */
  function PnlOn(log: seq<Close>, key: string, day: int): int {
    if log == [] then 0
    else
      var c := log[|log| - 1];
      PnlOn(log[..|log| - 1], key, day) + if c.key == key && StartOfDay(c.at) == day then c.pnl else 0
  }

  ghost predicate Journaled(s: System) {
    && (forall c :: c in s.log ==> c.key in s.engine.accounts && StartOfDay(c.at) <= s.engine.accounts[c.key].dayStart)
    && (forall key :: key in s.engine.accounts ==>
          && s.engine.accounts[key].dayStart <= StartOfDay(s.now)
          && s.engine.accounts[key].realizedLoss == -PnlOn(s.log, key, s.engine.accounts[key].dayStart))
  }

  lemma {:induction false} NothingOn(log: seq<Close>, key: string, day: int)
    requires forall c :: c in log && c.key == key ==> StartOfDay(c.at) != day
    ensures PnlOn(log, key, day) == 0
  {
    if log != [] {
      assert log[|log| - 1] in log;
      NothingOn(log[..|log| - 1], key, day);
    }
  }

  /** The running counter at a key, rolled to today, is today's net loss. */
  lemma {:induction false} TodayIsLogged(s: System, key: string)
    requires Journaled(s)
    ensures Today(s.engine, key, s.now).realizedLoss == -PnlOn(s.log, key, StartOfDay(s.now))
    ensures Today(s.engine, key, s.now).dayStart == StartOfDay(s.now)
  {
    if key !in s.engine.accounts || s.engine.accounts[key].dayStart < StartOfDay(s.now) {
      NothingOn(s.log, key, StartOfDay(s.now));
    }
  }

  lemma {:induction false} WaitJournaled(s: System, elapsed: nat)
    requires Journaled(s)
    ensures Journaled(s.(now := s.now + elapsed))
  {
    assert StartOfDay(s.now) <= StartOfDay(s.now + elapsed);
  }

  /** Any operation that rolls a key to today and leaves its counter alone. */
  lemma {:induction false} TouchJournaled(s: System, key: string, a: Account, inFlight: seq<Order>)
    requires Journaled(s)
    requires a.dayStart == Today(s.engine, key, s.now).dayStart
    requires a.realizedLoss == Today(s.engine, key, s.now).realizedLoss
    ensures Journaled(s.(engine := s.engine.(accounts := s.engine.accounts[key := a]), inFlight := inFlight))
  {
    TodayIsLogged(s, key);
  }

  lemma PnlSnoc(log: seq<Close>, c: Close, key: string, day: int)
    ensures PnlOn(log + [c], key, day) == PnlOn(log, key, day) + if c.key == key && StartOfDay(c.at) == day then c.pnl else 0
  {
    hide StartOfDay;
    assert (log + [c])[..|log|] == log;
  }

  lemma {:induction false} CloseJournaled(s: System, account: string, notional: int, pnl: int)
    requires Journaled(s)
    ensures Journaled(Act(s, Closed(account, notional, pnl)))
  {
    hide StartOfDay, PnlOn, Today;
    var key := KeyOf(s.engine, account);
    TodayIsLogged(s, key);
    var c := Close(key, s.now, pnl);
    var t := Act(s, Closed(account, notional, pnl));
    assert t.log == s.log + [c] && t.engine.accounts == s.engine.accounts[key := t.engine.accounts[key]];
    assert t.engine.accounts[key].dayStart == StartOfDay(s.now);
    assert forall d :: d in t.log ==> d == c || d in s.log;
    LaterToday(s, key);
    forall k | k in t.engine.accounts
      ensures t.engine.accounts[k].realizedLoss == -PnlOn(t.log, k, t.engine.accounts[k].dayStart)
    {
      PnlSnoc(s.log, c, k, t.engine.accounts[k].dayStart);
    }
  }

  /** Today is no earlier than any close recorded under the key. */
  lemma LaterToday(s: System, key: string)
    requires Journaled(s)
    ensures forall c :: c in s.log && c.key == key ==> StartOfDay(c.at) <= StartOfDay(s.now)
  {
    hide StartOfDay, PnlOn;
  }

  lemma {:induction false} ActJournaled(u: System, e: Event)
    requires Journaled(u)
    ensures Journaled(Act(u, e))
  {
    var v := Act(u, e);
    match e
    case Closed(account, notional, pnl) => CloseJournaled(u, account, notional, pnl);
    case Ask(r) => AskJournaled(u, r);
    case Placed(i, _) => if i < |u.inFlight| { PutJournaled(u, v, KeyOf(u.engine, u.inFlight[i].account)); }
    case Reconciled(account, _) => PutJournaled(u, v, KeyOf(u.engine, account));
    case Look(account) => PutJournaled(u, v, KeyOf(u.engine, account));
    case Wait(elapsed) => WaitJournaled(u, elapsed);
    case _ => SameJournaled(u, v);
  }

  lemma SameJournaled(u: System, v: System)
    requires Journaled(u) && v.engine.accounts == u.engine.accounts && v.log == u.log && v.now == u.now
    ensures Journaled(v)
  {
  }

  lemma {:induction false} PutJournaled(u: System, v: System, key: string)
    requires Journaled(u) && key in v.engine.accounts && v.log == u.log && v.now == u.now
    requires v.engine.accounts == u.engine.accounts[key := v.engine.accounts[key]]
    requires v.engine.accounts[key].dayStart == Today(u.engine, key, u.now).dayStart
    requires v.engine.accounts[key].realizedLoss == Today(u.engine, key, u.now).realizedLoss
    ensures Journaled(v)
  {
    TouchJournaled(u, key, v.engine.accounts[key], v.inFlight);
  }

  lemma {:induction false} AskJournaled(u: System, r: Request)
    requires Journaled(u)
    ensures Journaled(Act(u, Ask(r)))
  {
    var v := Act(u, Ask(r));
    if Screen(u.engine, r).None? {
      PutJournaled(u, v, KeyOf(u.engine, r.account));
    } else {
      SameJournaled(u, v);
    }
  }

  lemma {:induction false} RunJournaled(s: System, es: seq<Event>)
    requires Journaled(s)
    ensures Journaled(Run(s, es))
    decreases |es|
  {
    if es != [] {
      ActJournaled(s, es[0]);
      RunJournaled(Act(s, es[0]), es[1..]);
    }
  }

  function Fresh(folding: Folding): State {
    State(false, map[], map[], folding)
  }

  /** After any run, what an account's snapshot reports as lost today is the net
      result, sign flipped and floored at zero, of exactly the closes recorded
      under its key on this UTC day, whichever operations rolled the day. */
  lemma {:induction false} DailyLossIsLogged(folding: Folding, start: int, es: seq<Event>, account: string)
    ensures var s := Run(System(Fresh(folding), [], [], start), es);
            var key := KeyOf(s.engine, account);
            var net := PnlOn(s.log, key, StartOfDay(s.now));
            ViewOf(Today(s.engine, key, s.now)).dailyLoss == if net < 0 then -net else 0
  {
    var s0 := System(Fresh(folding), [], [], start);
    assert Journaled(s0);
    RunJournaled(s0, es);
    var s := Run(s0, es);
    TodayIsLogged(s, KeyOf(s.engine, account));
  }

  // ----------------------------------------------------- limits, interleaved

  function Count(orders: seq<Order>, key: string): nat {
    if orders == [] then 0 else (if orders[0].key == key then 1 else 0) + Count(orders[1..], key)
  }

  function Notional(orders: seq<Order>, key: string): int {
    if orders == [] then 0 else (if orders[0].key == key then orders[0].notional else 0) + Notional(orders[1..], key)
  }

  lemma {:induction false} CountConcat(a: seq<Order>, b: seq<Order>, key: string)
    ensures Count(a + b, key) == Count(a, key) + Count(b, key)
    ensures Notional(a + b, key) == Notional(a, key) + Notional(b, key)
  {
    if a == [] {
      assert a + b == b;
    } else {
      CountConcat(a[1..], b, key);
      assert (a + b)[1..] == a[1..] + b;
    }
  }

  lemma {:induction false} CountWithout(orders: seq<Order>, i: nat, key: string)
    requires i < |orders|
    ensures var o := orders[i];
            && Count(Without(orders, i), key) == Count(orders, key) - (if o.key == key then 1 else 0)
            && Notional(Without(orders, i), key) == Notional(orders, key) - (if o.key == key then o.notional else 0)
  {
    assert orders == orders[..i] + ([orders[i]] + orders[i + 1..]);
    CountConcat(orders[..i], [orders[i]] + orders[i + 1..], key);
    CountConcat([orders[i]], orders[i + 1..], key);
    CountConcat(orders[..i], orders[i + 1..], key);
  }

  lemma {:induction false} NotionalBound(orders: seq<Order>, key: string, cap: int)
    requires forall o :: o in orders && o.key == key ==> 0 < o.notional <= cap
    ensures 0 <= Notional(orders, key) <= Count(orders, key) * cap
  {
    if orders != [] {
      assert forall o :: o in orders[1..] ==> o in orders;
      NotionalBound(orders[1..], key, cap);
      assert (1 + Count(orders[1..], key)) * cap == cap + Count(orders[1..], key) * cap;
      assert orders[0] in orders;
    }
  }

  /** No position limit in force under the key is above m. */
  ghost predicate OpenCapped(limits: map<string, Limits>, key: string, m: int) {
    forall account :: account in limits && KeyIn(limits, account) == key ==> limits[account].maxOpenPositions <= m
  }

  /** Bounds on the amounts that the limits under a key allow. */
  datatype Caps = Caps(notional: nat, exposure: nat)

  ghost predicate AmountsCapped(limits: map<string, Limits>, key: string, c: Caps) {
    forall account :: account in limits && KeyIn(limits, account) == key ==>
      limits[account].maxNotional <= c.notional && 0 < limits[account].maxTotalExposure <= c.exposure
  }

  /** The key never has more than k orders out at once, and accounts do not change key. */
  predicate Steady(s: System, e: Event, key: string, k: nat) {
    && Count(Act(s, e).inFlight, key) <= k
    && (e.NewLimits? ==> KeyOf(AfterSetLimits(s.engine, e.account, e.l), e.account) == KeyOf(s.engine, e.account))
  }

  predicate Reconciles(s: System, e: Event, key: string) {
    e.Reconciled? && KeyOf(s.engine, e.account) == key
  }

  /** A reconcile of the key finds no more positions than the bound allows beside the
      orders out. */
  predicate CountFits(s: System, e: Event, key: string, m: int, k: nat) {
    Reconciles(s, e, key) ==> |e.values| + Count(s.inFlight, key) <= m - 1 + k
  }

  /** Nor positions worth more. */
  predicate WorthFits(s: System, e: Event, key: string, c: Caps, k: nat) {
    Reconciles(s, e, key) ==>
      0 <= Sum(e.values) && Sum(e.values) + Notional(s.inFlight, key) <= c.exposure + (k - 1) * c.notional
  }

  /** A steady run with position limits of at most m. */
  ghost predicate AllSteady(s: System, es: seq<Event>, key: string, m: int, k: nat)
    decreases |es|
  {
    es == [] ||
    (Steady(s, es[0], key, k) && CountFits(s, es[0], key, m, k) && OpenCapped(Act(s, es[0]).engine.limits, key, m)
     && AllSteady(Act(s, es[0]), es[1..], key, m, k))
  }

  /** Fills under the key are no larger than authorised, and no amount is negative. */
  predicate Priced(s: System, e: Event, key: string) {
    && (e.Placed? && e.i < |s.inFlight| && s.inFlight[e.i].key == key ==> 0 <= e.recorded <= s.inFlight[e.i].notional)
    && (e.Closed? && KeyOf(s.engine, e.account) == key ==> e.notional >= 0)
  }

  /** A steady run with amounts limited by c, and priced. */
  ghost predicate AllPriced(s: System, es: seq<Event>, key: string, c: Caps, k: nat)
    decreases |es|
  {
    es == [] ||
    (Steady(s, es[0], key, k) && Priced(s, es[0], key) && WorthFits(s, es[0], key, c, k) && AmountsCapped(Act(s, es[0]).engine.limits, key, c)
     && AllPriced(Act(s, es[0]), es[1..], key, c, k))
  }

  function OpenAt(s: State, key: string): int {
    if key in s.accounts then s.accounts[key].openPositions else 0
  }

  function ExposureAt(s: State, key: string): int {
    if key in s.accounts then s.accounts[key].exposure else 0
  }

  /** Orders out carry their account's key. */
  predicate Tagged(s: System) {
    forall o :: o in s.inFlight ==> o.key == KeyOf(s.engine, o.account)
  }

  lemma {:induction false} TaggedKept(s: System, e: Event, key: string, k: nat)
    requires Tagged(s) && Steady(s, e, key, k)
    ensures Tagged(Act(s, e))
  {
  }

  /** What an admitted order is known to satisfy. */
  lemma AdmittedFits(s: State, r: Request, now: int)
    requires Authorized(s, r, now) == Allowed && !r.reduce
    ensures r.account in s.limits
    ensures var (l, key) := (s.limits[r.account], KeyOf(s, r.account));
            && 0 < r.notional <= l.maxNotional
            && OpenAt(s, key) < l.maxOpenPositions
            && (l.maxTotalExposure > 0 ==> ExposureAt(s, key) + r.notional <= l.maxTotalExposure)
  {
  }

  lemma TouchKeeps(s: State, account: string, key: string, now: int)
    ensures var t := Touch(s, account, now);
            t.limits == s.limits && OpenAt(t, key) == OpenAt(s, key) && ExposureAt(t, key) == ExposureAt(s, key)
  {
  }

  lemma OpenMoves(s: State, account: string, recorded: int, key: string, now: int)
    ensures var t := AfterOpen(s, account, recorded, now);
            && t.limits == s.limits
            && OpenAt(t, key) == OpenAt(s, key) + (if KeyOf(s, account) == key then 1 else 0)
            && ExposureAt(t, key) == ExposureAt(s, key) + if KeyOf(s, account) == key then recorded else 0
  {
  }

  lemma CloseMoves(s: State, account: string, notional: int, pnl: int, key: string, now: int)
    requires OpenAt(s, key) >= 0
    ensures var t := AfterClose(s, account, notional, pnl, now);
            && t.limits == s.limits && 0 <= OpenAt(t, key) <= OpenAt(s, key)
            && (ExposureAt(s, key) >= 0 && (KeyOf(s, account) == key ==> notional >= 0) ==>
                  0 <= ExposureAt(t, key) <= ExposureAt(s, key))
  {
  }

  /** What a step does to what is open and out under the key. */
  lemma {:induction false} StepMoves(s: System, e: Event, key: string, k: nat)
    requires Tagged(s) && Steady(s, e, key, k) && OpenAt(s.engine, key) >= 0 && !Reconciles(s, e, key)
    ensures var t := Act(s, e);
            var admitted := e.Ask? && !e.r.reduce && Authorized(s.engine, e.r, s.now) == Allowed
                            && KeyOf(s.engine, e.r.account) == key;
            && 0 <= OpenAt(t.engine, key)
            && OpenAt(t.engine, key) + Count(t.inFlight, key)
               <= OpenAt(s.engine, key) + Count(s.inFlight, key) + (if admitted then 1 else 0)
            && (admitted ==> OpenAt(t.engine, key) == OpenAt(s.engine, key))
  {
    match e
    case Ask(r) =>
      TouchKeeps(s.engine, r.account, key, s.now);
      CountConcat(s.inFlight, [Order(r.account, KeyOf(s.engine, r.account), r.notional)], key);
    case Placed(i, recorded) =>
      if i < |s.inFlight| {
        CountWithout(s.inFlight, i, key);
        assert s.inFlight[i] in s.inFlight;
        OpenMoves(s.engine, s.inFlight[i].account, recorded, key, s.now);
      }
    case VenueRefused(i) => if i < |s.inFlight| { CountWithout(s.inFlight, i, key); }
    case Closed(account, notional, pnl) => CloseMoves(s.engine, account, notional, pnl, key, s.now);
    case Look(account) => TouchKeeps(s.engine, account, key, s.now);
    case _ =>
  }

  predicate OpenRoom(s: System, key: string, m: int, k: nat) {
    0 <= OpenAt(s.engine, key) && OpenAt(s.engine, key) + Count(s.inFlight, key) <= m - 1 + k
  }

  lemma ReconcileMoves(s: System, e: Event, key: string)
    requires Reconciles(s, e, key)
    ensures var t := Act(s, e);
            && t.inFlight == s.inFlight && OpenAt(t.engine, key) == |e.values|
            && ExposureAt(t.engine, key) == Sum(e.values)
  {
  }

  lemma {:induction false} StepRoom(s: System, e: Event, key: string, m: int, k: nat)
    requires Tagged(s) && OpenCapped(s.engine.limits, key, m) && OpenRoom(s, key, m, k)
    requires Steady(s, e, key, k) && CountFits(s, e, key, m, k)
    ensures OpenRoom(Act(s, e), key, m, k)
  {
    if Reconciles(s, e, key) {
      ReconcileMoves(s, e, key);
    } else {
      StepMoves(s, e, key, k);
      if e.Ask? && !e.r.reduce && Authorized(s.engine, e.r, s.now) == Allowed {
        AdmittedFits(s.engine, e.r, s.now);
        OutAtMost(s, e, key, k);
      }
      hide Act, Authorized, Steady;
    }
  }

  lemma {:induction false} OpenHolds(s: System, es: seq<Event>, key: string, m: int, k: nat)
    requires Tagged(s) && OpenCapped(s.engine.limits, key, m) && OpenRoom(s, key, m, k) && AllSteady(s, es, key, m, k)
    ensures OpenRoom(Run(s, es), key, m, k)
    decreases |es|
  {
    hide Act, Steady, CountFits, Tagged, OpenCapped, OpenRoom;
    if es != [] {
      TaggedKept(s, es[0], key, k);
      StepRoom(s, es[0], key, m, k);
      OpenHolds(Act(s, es[0]), es[1..], key, m, k);
    }
  }

  lemma OutAtMost(s: System, e: Event, key: string, k: nat)
    requires Steady(s, e, key, k)
    ensures Count(Act(s, e).inFlight, key) <= k
  {
  }

  ghost predicate FlatRun(engine: State, now: int, log: seq<Close>, es: seq<Event>, key: string, m: int, k: nat) {
    OpenAt(engine, key) == 0 && OpenCapped(engine.limits, key, m) && AllSteady(System(engine, [], log, now), es, key, m, k)
  }

  /** From a flat account, over every interleaving and whatever the fills are worth,
      open and in-flight positions stay within the position limit plus the orders
      out at once but one. */
  lemma {:induction false} OpenFromFlat(engine: State, now: int, log: seq<Close>, es: seq<Event>, key: string, m: int, k: nat)
    requires m >= 1 && FlatRun(engine, now, log, es, key, m, k)
    ensures var s := Run(System(engine, [], log, now), es);
            0 <= OpenAt(s.engine, key) && OpenAt(s.engine, key) + Count(s.inFlight, key) <= m - 1 + k
  {
    OpenHolds(System(engine, [], log, now), es, key, m, k);
  }

  // --------------------------------------------------------- the bound is reached

  const ORDER := Order("w", "w", 1)

  function Idle(m: int): State {
    State(false, map["w" := Limits(["BTC"], 10, 0, 10, 0, m, 10, 0, "")], map[], map[])
  }

  /** One account with so many positions open and so many orders out. */
  predicate Ready(s: System, m: int, open: int, out: nat) {
    && !s.engine.killed && s.engine.limits == Idle(m).limits && s.now == 0
    && |s.inFlight| == out && (forall i :: 0 <= i < out ==> s.inFlight[i] == ORDER)
    && OpenAt(s.engine, "w") == open && DailyLoss(Today(s.engine, "w", 0)) == 0
  }

  lemma {:induction false} CountOrders(orders: seq<Order>)
    requires forall i :: 0 <= i < |orders| ==> orders[i] == ORDER
    ensures Count(orders, "w") == |orders|
  {
    if orders != [] { CountOrders(orders[1..]); }
  }

  lemma {:induction false} AskReady(s: System, m: int, open: int, out: nat)
    requires Ready(s, m, open, out) && open < m
    ensures Ready(Act(s, Ask(Request("w", "BTC", false, 1, 1))), m, open, out + 1)
  {
    assert SymbolAllowed(s.engine.folding, ["BTC"], "BTC") by { assert EqualFold(s.engine.folding, ["BTC"][0], "BTC"); }
  }

  lemma {:induction false} PlaceReady(s: System, m: int, open: int, out: nat)
    requires Ready(s, m, open, out) && out > 0
    ensures Ready(Act(s, Placed(0, 1)), m, open + 1, out - 1)
  {
    assert s.inFlight[0] == ORDER;
  }

  /** One more event in front of a steady run. */
  lemma {:induction false} Prepend(s: System, e: Event, es: seq<Event>, m: int, k: nat, open: int, out: nat)
    requires m >= 1 && Ready(Act(s, e), m, open, out) && out <= k && (e.Ask? || e.Placed?)
    requires AllSteady(Act(s, e), es, "w", m, k)
    ensures AllSteady(s, [e] + es, "w", m, k) && Run(s, [e] + es) == Run(Act(s, e), es)
  {
    assert ([e] + es)[1..] == es;
    CountOrders(Act(s, e).inFlight);
    hide Act;
  }

  lemma {:induction false} PlaceAll(s: System, m: int, k: nat, open: int, out: nat) returns (es: seq<Event>)
    requires m >= 1 && Ready(s, m, open, out) && out <= k
    ensures AllSteady(s, es, "w", m, k) && OpenAt(Run(s, es).engine, "w") == open + out
    decreases out
  {
    es := [];
    if out > 0 {
      var e := Placed(0, 1);
      PlaceReady(s, m, open, out);
      hide Act, Ready;
      es := PlaceAll(Act(s, e), m, k, open + 1, out - 1);
      Prepend(s, e, es, m, k, open + 1, out - 1);
      es := [e] + es;
    }
  }

  lemma {:induction false} AskAll(s: System, m: int, k: nat, open: int, out: nat) returns (es: seq<Event>)
    requires Ready(s, m, open, out) && 0 <= open < m && out <= k
    ensures AllSteady(s, es, "w", m, k) && OpenAt(Run(s, es).engine, "w") == open + k
    decreases k - out
  {
    if out == k {
      es := PlaceAll(s, m, k, open, out);
    } else {
      var e := Ask(Request("w", "BTC", false, 1, 1));
      AskReady(s, m, open, out);
      hide Act, Ready;
      es := AskAll(Act(s, e), m, k, open, out + 1);
      Prepend(s, e, es, m, k, open, out + 1);
      es := [e] + es;
    }
  }

  lemma {:induction false} FillUp(s: System, m: int, k: nat, open: int) returns (es: seq<Event>)
    requires Ready(s, m, open, 0) && 0 <= open < m && k >= 1
    ensures AllSteady(s, es, "w", m, k) && OpenAt(Run(s, es).engine, "w") == m - 1 + k
    decreases m - open
  {
    if open == m - 1 {
      es := AskAll(s, m, k, open, 0);
    } else {
      var ask, placed := Ask(Request("w", "BTC", false, 1, 1)), Placed(0, 1);
      AskReady(s, m, open, 0);
      PlaceReady(Act(s, ask), m, open, 1);
      hide Act, Ready;
      es := FillUp(Act(Act(s, ask), placed), m, k, open + 1);
      Prepend(Act(s, ask), placed, es, m, k, open + 1, 0);
      Prepend(s, ask, [placed] + es, m, k, open, 1);
      es := [ask] + ([placed] + es);
    }
  }

  /** The slack is real at every limit: with at most k orders out at once, some run
      from flat ends with exactly m - 1 + k positions open. */
  lemma {:induction false} LimitCanBePassed(m: int, k: nat)
    requires m >= 1 && k >= 1
    ensures exists es :: FlatRun(Idle(m), 0, [], es, "w", m, k)
                      && OpenAt(Run(System(Idle(m), [], [], 0), es).engine, "w") == m - 1 + k
  {
    var es := FillUp(System(Idle(m), [], [], 0), m, k, 0);
    assert FlatRun(Idle(m), 0, [], es, "w", m, k);
  }

  /** So a position limit holds in every run exactly when a key never has more than
      one order out at once. */
  lemma {:induction false} LimitIffOneAtATime(m: int, k: nat)
    requires m >= 1
    ensures (forall engine, now, log, es, key :: FlatRun(engine, now, log, es, key, m, k) ==>
               OpenAt(Run(System(engine, [], log, now), es).engine, key) <= m)
            <==> k <= 1
  {
    hide FlatRun, Run;
    if k <= 1 {
      forall engine, now, log, es, key | FlatRun(engine, now, log, es, key, m, k)
        ensures OpenAt(Run(System(engine, [], log, now), es).engine, key) <= m
      {
        OpenFromFlat(engine, now, log, es, key, m, k);
      }
    } else {
      LimitCanBePassed(m, k);
    }
  }

  // -------------------------------------------------------------------- exposure

  /** The exposure bound, with the orders it rests on. */
  ghost predicate ExposureRoom(s: System, key: string, c: Caps, k: nat) {
    && (forall o :: o in s.inFlight && o.key == key ==> 0 < o.notional <= c.notional)
    && 0 <= OpenAt(s.engine, key) && 0 <= ExposureAt(s.engine, key)
    && Count(s.inFlight, key) <= k
    && ExposureAt(s.engine, key) + Notional(s.inFlight, key) <= c.exposure + (k - 1) * c.notional
  }

  /** An authorisation leaves room for the orders already out. */
  lemma {:induction false} AskFits(s: System, r: Request, key: string, c: Caps, k: nat)
    requires k >= 1 && AmountsCapped(s.engine.limits, key, c) && ExposureRoom(s, key, c, k) && Steady(s, Ask(r), key, k)
    ensures ExposureRoom(Act(s, Ask(r)), key, c, k)
  {
    TouchKeeps(s.engine, r.account, key, s.now);
    if Authorized(s.engine, r, s.now) == Allowed && !r.reduce {
      AdmittedFits(s.engine, r, s.now);
      var o := Order(r.account, KeyOf(s.engine, r.account), r.notional);
      CountConcat(s.inFlight, [o], key);
      if o.key == key {
        NotionalBound(s.inFlight, key, c.notional);
        MulMono(Count(s.inFlight, key), k - 1, c.notional);
      }
    }
  }

  /** An order that lands, or does not, brings no more than it was authorised for. */
  lemma {:induction false} LandFits(s: System, e: Event, key: string, c: Caps, k: nat)
    requires Tagged(s) && ExposureRoom(s, key, c, k) && Priced(s, e, key)
    requires (e.Placed? || e.VenueRefused?) && e.i < |s.inFlight|
    ensures ExposureRoom(Act(s, e), key, c, k)
  {
    var o, left := s.inFlight[e.i], Without(s.inFlight, e.i);
    CountWithout(s.inFlight, e.i, key);
    assert o in s.inFlight && forall x :: x in left ==> x in s.inFlight;
    if e.Placed? { OpenMoves(s.engine, o.account, e.recorded, key, s.now); }
  }

  lemma {:induction false} StepFits(s: System, e: Event, key: string, c: Caps, k: nat)
    requires k >= 1 && Tagged(s) && AmountsCapped(s.engine.limits, key, c) && ExposureRoom(s, key, c, k)
    requires Steady(s, e, key, k) && Priced(s, e, key) && WorthFits(s, e, key, c, k)
    ensures ExposureRoom(Act(s, e), key, c, k)
  {
    if Reconciles(s, e, key) { ReconcileMoves(s, e, key); }
    match e
    case Ask(r) => AskFits(s, r, key, c, k);
    case Placed(i, _) => if i < |s.inFlight| { LandFits(s, e, key, c, k); }
    case VenueRefused(i) => if i < |s.inFlight| { LandFits(s, e, key, c, k); }
    case Closed(account, notional, pnl) => CloseMoves(s.engine, account, notional, pnl, key, s.now);
    case Look(account) => TouchKeeps(s.engine, account, key, s.now);
    case _ =>
  }

  lemma {:induction false} ExposureHolds(s: System, es: seq<Event>, key: string, c: Caps, k: nat)
    requires k >= 1 && Tagged(s) && AmountsCapped(s.engine.limits, key, c) && ExposureRoom(s, key, c, k)
    requires AllPriced(s, es, key, c, k)
    ensures ExposureRoom(Run(s, es), key, c, k) && Tagged(Run(s, es))
    decreases |es|
  {
    hide Act, Steady, Priced, WorthFits, Tagged, ExposureRoom;
    if es != [] {
      TaggedKept(s, es[0], key, k);
      StepFits(s, es[0], key, c, k);
      ExposureHolds(Act(s, es[0]), es[1..], key, c, k);
    }
  }

  /** From a flat account, when fills are recorded at no more than was authorised,
      exposure and notional in flight stay within the exposure limit plus the
      largest orders out at once but one. */
  lemma {:induction false} ExposureFromFlat(engine: State, now: int, log: seq<Close>, es: seq<Event>, key: string, c: Caps, k: nat)
    requires k >= 1 && AmountsCapped(engine.limits, key, c) && OpenAt(engine, key) == ExposureAt(engine, key) == 0
    requires AllPriced(System(engine, [], log, now), es, key, c, k)
    ensures var s := Run(System(engine, [], log, now), es);
            && 0 <= ExposureAt(s.engine, key)
            && ExposureAt(s.engine, key) + Notional(s.inFlight, key) <= c.exposure + (k - 1) * c.notional
  {
    MulMono(0, k - 1, c.notional);
    ExposureHolds(System(engine, [], log, now), es, key, c, k);
  }

  // -------------------------------------------------- the exposure bound is reached

  ghost predicate FlatPriced(engine: State, now: int, log: seq<Close>, es: seq<Event>, key: string, c: Caps, k: nat) {
    && OpenAt(engine, key) == ExposureAt(engine, key) == 0 && AmountsCapped(engine.limits, key, c)
    && AllPriced(System(engine, [], log, now), es, key, c, k)
  }

  function IdleWorth(c: Caps): State {
    State(false, map["w" := Limits(["BTC"], c.notional, 0, 10, c.exposure, c.exposure + 1, 10, 0, "")], map[], map[])
  }

  /** One account with so much exposed and so many orders of one size out. */
  predicate ReadyWorth(s: System, c: Caps, size: int, out: nat, exposure: int) {
    && !s.engine.killed && s.engine.limits == IdleWorth(c).limits && s.now == 0
    && |s.inFlight| == out && (forall i :: 0 <= i < out ==> s.inFlight[i] == Order("w", "w", size))
    && OpenAt(s.engine, "w") <= exposure && ExposureAt(s.engine, "w") == exposure
    && DailyLoss(Today(s.engine, "w", 0)) == 0
  }

  function AskFor(size: int): Event {
    Ask(Request("w", "BTC", false, size, 1))
  }

  lemma {:induction false} AskWorth(s: System, c: Caps, size: int, out: nat, exposure: int)
    requires ReadyWorth(s, c, size, out, exposure) && 1 <= size <= c.notional && exposure + size <= c.exposure
    ensures ReadyWorth(Act(s, AskFor(size)), c, size, out + 1, exposure)
  {
    assert SymbolAllowed(s.engine.folding, ["BTC"], "BTC") by { assert EqualFold(s.engine.folding, ["BTC"][0], "BTC"); }
  }

  lemma {:induction false} PlaceWorth(s: System, c: Caps, size: int, out: nat, exposure: int)
    requires ReadyWorth(s, c, size, out, exposure) && out > 0 && size >= 1
    ensures ReadyWorth(Act(s, Placed(0, size)), c, size, out - 1, exposure + size)
  {
    assert s.inFlight[0] == Order("w", "w", size);
  }

  lemma {:induction false} CountSized(orders: seq<Order>, size: int)
    requires forall i :: 0 <= i < |orders| ==> orders[i] == Order("w", "w", size)
    ensures Count(orders, "w") == |orders|
  {
    if orders != [] { CountSized(orders[1..], size); }
  }

  /** One more event in front of a priced run. */
  lemma {:induction false} PrependWorth(s: System, e: Event, es: seq<Event>, c: Caps, k: nat, size: int, out: nat, exposure: int)
    requires ReadyWorth(Act(s, e), c, size, out, exposure) && out <= k
    requires e.Ask? || (e == Placed(0, size) && s.inFlight != [] && s.inFlight[0] == Order("w", "w", size) && size >= 0)
    requires AllPriced(Act(s, e), es, "w", c, k) && c.exposure > 0
    ensures AllPriced(s, [e] + es, "w", c, k) && Run(s, [e] + es) == Run(Act(s, e), es)
  {
    assert ([e] + es)[1..] == es;
    CountSized(Act(s, e).inFlight, size);
    hide Act;
  }

  lemma {:induction false} PlaceAllWorth(s: System, c: Caps, k: nat, size: int, out: nat, exposure: int) returns (es: seq<Event>)
    requires ReadyWorth(s, c, size, out, exposure) && out <= k && size >= 1 && c.exposure > 0
    ensures AllPriced(s, es, "w", c, k) && ExposureAt(Run(s, es).engine, "w") == exposure + out * size
    decreases out
  {
    es := [];
    if out > 0 {
      var e := Placed(0, size);
      PlaceWorth(s, c, size, out, exposure);
      assert s.inFlight[0] == Order("w", "w", size);
      assert out * size == (out - 1) * size + size;
      hide Act, ReadyWorth;
      es := PlaceAllWorth(Act(s, e), c, k, size, out - 1, exposure + size);
      PrependWorth(s, e, es, c, k, size, out - 1, exposure + size);
      es := [e] + es;
    }
  }

  lemma {:induction false} AskAllWorth(s: System, c: Caps, k: nat, out: nat, exposure: int) returns (es: seq<Event>)
    requires ReadyWorth(s, c, c.notional, out, exposure) && out <= k && c.notional >= 1 && exposure >= 0
    requires exposure + c.notional <= c.exposure
    ensures AllPriced(s, es, "w", c, k) && ExposureAt(Run(s, es).engine, "w") == exposure + k * c.notional
    decreases k - out
  {
    assert c.exposure > 0;
    if out == k {
      es := PlaceAllWorth(s, c, k, c.notional, out, exposure);
    } else {
      var e := AskFor(c.notional);
      AskWorth(s, c, c.notional, out, exposure);
      hide Act, ReadyWorth;
      es := AskAllWorth(Act(s, e), c, k, out + 1, exposure);
      PrependWorth(s, e, es, c, k, c.notional, out + 1, exposure);
      es := [e] + es;
    }
  }

  lemma {:induction false} FillWorth(s: System, c: Caps, k: nat, exposure: int) returns (es: seq<Event>)
    requires ReadyWorth(s, c, 1, 0, exposure) && k >= 1 && c.notional >= 1 && 0 <= exposure <= c.exposure - c.notional
    ensures AllPriced(s, es, "w", c, k)
    ensures ExposureAt(Run(s, es).engine, "w") == c.exposure + (k - 1) * c.notional
    decreases c.exposure - exposure
  {
    if exposure == c.exposure - c.notional {
      es := AskAllWorth(s, c, k, 0, exposure);
      assert k * c.notional == (k - 1) * c.notional + c.notional;
    } else {
      var left := c.exposure - c.notional - exposure;
      var size := if left < c.notional then left else c.notional;
      var ask, placed := AskFor(size), Placed(0, size);
      assert ReadyWorth(s, c, size, 0, exposure);
      AskWorth(s, c, size, 0, exposure);
      PlaceWorth(Act(s, ask), c, size, 1, exposure);
      assert Act(s, ask).inFlight[0] == Order("w", "w", size);
      assert ReadyWorth(Act(Act(s, ask), placed), c, 1, 0, exposure + size);
      hide Act, ReadyWorth;
      es := FillWorth(Act(Act(s, ask), placed), c, k, exposure + size);
      PrependWorth(Act(s, ask), placed, es, c, k, size, 0, exposure + size);
      PrependWorth(s, ask, [placed] + es, c, k, size, 1, exposure);
      es := [ask] + ([placed] + es);
    }
  }

  /** The slack in the exposure is real, too: with at most k orders out at once, some
      priced run from flat ends with exactly the bound exposed. */
  lemma {:induction false} ExposureCanBePassed(c: Caps, k: nat)
    requires 1 <= c.notional <= c.exposure && k >= 1
    ensures exists engine, es :: FlatPriced(engine, 0, [], es, "w", c, k)
              && ExposureAt(Run(System(engine, [], [], 0), es).engine, "w") == c.exposure + (k - 1) * c.notional
  {
    var es := FillWorth(System(IdleWorth(c), [], [], 0), c, k, 0);
    assert FlatPriced(IdleWorth(c), 0, [], es, "w", c, k);
  }

  lemma {:induction false} MoreAtOnce(s: System, es: seq<Event>, key: string, c: Caps, j: nat, k: nat)
    requires AllPriced(s, es, key, c, j) && j <= k
    ensures AllPriced(s, es, key, c, k)
    decreases |es|
  {
    hide Act;
    MulMono(j - 1, k - 1, c.notional);
    if es != [] { MoreAtOnce(Act(s, es[0]), es[1..], key, c, j, k); }
  }

  /** So an exposure limit holds in every priced run exactly when a key never has more
      than one order out at once. */
  lemma {:induction false} ExposureIffOneAtATime(c: Caps, k: nat)
    requires 1 <= c.notional <= c.exposure
    ensures (forall engine, now, log, es, key :: FlatPriced(engine, now, log, es, key, c, k) ==>
               ExposureAt(Run(System(engine, [], log, now), es).engine, key) <= c.exposure)
            <==> k <= 1
  {
    hide FlatPriced, Run;
    if k <= 1 {
      forall engine, now, log, es, key | FlatPriced(engine, now, log, es, key, c, k)
        ensures ExposureAt(Run(System(engine, [], log, now), es).engine, key) <= c.exposure
      {
        PricedWithin(engine, now, log, es, key, c, k);
      }
    } else {
      ExposureCanBePassed(c, k);
      MulMono(1, k - 1, c.notional);
    }
  }

  lemma {:induction false} PricedWithin(engine: State, now: int, log: seq<Close>, es: seq<Event>, key: string, c: Caps, k: nat)
    requires k <= 1 && 1 <= c.notional <= c.exposure && FlatPriced(engine, now, log, es, key, c, k)
    ensures ExposureAt(Run(System(engine, [], log, now), es).engine, key) <= c.exposure
  {
    var s0 := System(engine, [], log, now);
    MoreAtOnce(s0, es, key, c, k, 1);
    ExposureHolds(s0, es, key, c, 1);
    NotionalBound(Run(s0, es).inFlight, key, c.notional);
  }

  /** One order at a time makes both limits exact, each on its own terms. */
  lemma {:induction false} OneAtATimeIsExact(engine: State, now: int, log: seq<Close>, es: seq<Event>, key: string, m: int, c: Caps)
    requires m >= 1 && OpenAt(engine, key) == ExposureAt(engine, key) == 0
    ensures FlatRun(engine, now, log, es, key, m, 1) ==>
              OpenAt(Run(System(engine, [], log, now), es).engine, key) <= m
    ensures AmountsCapped(engine.limits, key, c) && AllPriced(System(engine, [], log, now), es, key, c, 1) ==>
              ExposureAt(Run(System(engine, [], log, now), es).engine, key) <= c.exposure
  {
    var s0 := System(engine, [], log, now);
    if FlatRun(engine, now, log, es, key, m, 1) { OpenFromFlat(engine, now, log, es, key, m, 1); }
    if AmountsCapped(engine.limits, key, c) && AllPriced(s0, es, key, c, 1) {
      ExposureHolds(s0, es, key, c, 1);
      NotionalBound(Run(s0, es).inFlight, key, c.notional);
    }
  }

  // ------------------------------------------------------------- when to come back

  /** The wait a cooldown asks for is exact: the same request is refused for it
      again after any shorter wait, and after no longer one. */
  lemma {:induction false} CooldownWait(s: State, r: Request, now: int, d: nat)
    requires Authorized(s, r, now).Cooldown?
    ensures Authorized(AfterAuthorize(s, r, now), r, now + d).Cooldown? <==> d < Authorized(s, r, now).retryAfter
  {
    var a := Today(s, KeyOf(s, r.account), now);
    assert AfterAuthorize(s, r, now).accounts[KeyOf(s, r.account)] == a;
    assert Today(AfterAuthorize(s, r, now), KeyOf(s, r.account), now + d) == Rolled(a, now + d);
    hide StartOfDay;
  }

  ghost predicate AllCoherent(limits: map<string, Limits>) {
    forall account :: account in limits ==> Coherent(limits[account])
  }

  lemma {:induction false} LimitsCoherent(s: System, es: seq<Event>)
    requires AllCoherent(s.engine.limits)
    ensures AllCoherent(Run(s, es).engine.limits)
    decreases |es|
  {
    hide Coherent, Authorized;
    if es != [] {
      assert AllCoherent(Act(s, es[0]).engine.limits);
      LimitsCoherent(Act(s, es[0]), es[1..]);
    }
  }

  /** So is the wait for tomorrow, in every state a run comes to. */
  lemma {:induction false} TomorrowWait(folding: Folding, start: int, es: seq<Event>, r: Request, d: nat)
    requires var s := Run(System(Fresh(folding), [], [], start), es); Authorized(s.engine, r, s.now).DailyLossReached?
    ensures var s := Run(System(Fresh(folding), [], [], start), es);
            Authorized(AfterAuthorize(s.engine, r, s.now), r, s.now + d).DailyLossReached?
            <==> d < Authorized(s.engine, r, s.now).retryAfter
  {
    var s := Run(System(Fresh(folding), [], [], start), es);
    assert Journaled(System(Fresh(folding), [], [], start));
    RunJournaled(System(Fresh(folding), [], [], start), es);
    LimitsCoherent(System(Fresh(folding), [], [], start), es);
    TodayIsLogged(s, KeyOf(s.engine, r.account));
    WaitFrom(s.engine, r, s.now, d);
  }

  lemma {:induction false} WaitFrom(s: State, r: Request, now: int, d: nat)
    requires Authorized(s, r, now).DailyLossReached? && Coherent(s.limits[r.account])
    requires Today(s, KeyOf(s, r.account), now).dayStart % DAY == 0
    ensures Authorized(AfterAuthorize(s, r, now), r, now + d).DailyLossReached? <==> d < Authorized(s, r, now).retryAfter
  {
    var a := Today(s, KeyOf(s, r.account), now);
    assert AfterAuthorize(s, r, now).accounts[KeyOf(s, r.account)] == a;
    assert Today(AfterAuthorize(s, r, now), KeyOf(s, r.account), now + d) == Rolled(a, now + d);
    NextDay(a.dayStart, now + d);
  }

  lemma NextDay(day: int, t: int)
    requires day % DAY == 0
    ensures StartOfDay(t) > day <==> t >= day + DAY
  {
  }

  // ------------------------------------------------------------------ flatness

  /** Flat means flat: nobody's exposure is negative, and an account with no open
      position has none. */
  ghost predicate Flat(s: State) {
    forall key :: key in s.accounts ==>
      && s.accounts[key].openPositions >= 0 && s.accounts[key].exposure >= 0
      && (s.accounts[key].openPositions == 0 ==> s.accounts[key].exposure == 0)
  }

  /** Values the venue reports are not negative. */
  predicate Sane(e: Event) {
    match e
    case Placed(_, recorded) => recorded >= 0
    case Reconciled(_, values) => forall i :: 0 <= i < |values| ==> values[i] >= 0
    case _ => true
  }

  lemma {:induction false} SumNonNegative(values: seq<int>)
    requires forall i :: 0 <= i < |values| ==> values[i] >= 0
    ensures Sum(values) >= 0 && (values == [] ==> Sum(values) == 0)
  {
    if values != [] { SumNonNegative(values[..|values| - 1]); }
  }

  /** Closes of any size, wins, losses, reconciliations and all: exposure is never
      negative and never outlives the last position. */
  lemma {:induction false} RunFlat(s: System, es: seq<Event>)
    requires Flat(s.engine) && forall i :: 0 <= i < |es| ==> Sane(es[i])
    ensures Flat(Run(s, es).engine)
    decreases |es|
  {
    if es != [] {
      assert Sane(es[0]);
      if es[0].Reconciled? { SumNonNegative(es[0].values); }
      assert Flat(Act(s, es[0]).engine);
      RunFlat(Act(s, es[0]), es[1..]);
    }
  }

  /** Closing is never refused, at any point of any run, and asking for it changes
      nothing that comes after: not the kill switch, a limit or an order out matters. */
  lemma {:induction false} ClosingAlwaysPasses(s: System, es: seq<Event>, i: nat, r: Request)
    requires i <= |es| && r.reduce && r.account != "" && r.symbol != ""
    ensures Authorized(Run(s, es[..i]).engine, r, Run(s, es[..i]).now) == Allowed
    ensures Run(s, es[..i] + [Ask(r)] + es[i..]) == Run(s, es)
    decreases i
  {
    var with := es[..i] + [Ask(r)] + es[i..];
    if i == 0 {
      assert es[..i] == [] && with[0] == Ask(r) && with[1..] == es;
      assert Act(s, Ask(r)) == s;
    } else {
      ClosingAlwaysPasses(Act(s, es[0]), es[1..], i - 1, r);
      assert es[..i][1..] == es[1..][..i - 1] && es[1..][i - 1..] == es[i..];
      assert with[0] == es[0] && with[1..] == es[1..][..i - 1] + [Ask(r)] + es[1..][i - 1..];
    }
  }

  // ------------------------------------------------------ what the limits come to

  /** An opening order is allowed exactly when: account and symbol are given, the
      switch is off, the account has limits that list the symbol, whatever its case,
      the notional is positive and within both bounds, the leverage within its own,
      today's loss under the day's, and position, exposure and cooldown leave room. */
  lemma {:induction false} AllowedIff(s: State, r: Request, now: int)
    requires !r.reduce
    ensures Authorized(s, r, now) == Allowed <==>
              && r.account != "" && r.symbol != "" && !s.killed && r.account in s.limits
              && var l := s.limits[r.account];
                 var key := if l.group != "" then l.group else r.account;
                 var a := if key in s.accounts then s.accounts[key] else Account(None, now, 0, 0, 0);
                 var lost := if a.dayStart < now - now % 86_400_000_000_000 then 0 else a.realizedLoss;
                 && (exists i :: 0 <= i < |l.symbols| && EqualFold(s.folding, l.symbols[i], r.symbol))
                 && 0 < r.notional && l.minNotional <= r.notional <= l.maxNotional && r.leverage <= l.maxLeverage
                 && 0 < l.dailyLoss && lost < l.dailyLoss && a.openPositions < l.maxOpenPositions
                 && (l.maxTotalExposure > 0 ==> a.exposure + r.notional <= l.maxTotalExposure)
                 && (l.cooldown > 0 && a.lastOpen.Some? ==> now - a.lastOpen.value >= l.cooldown)
    ensures Authorized(s, r, now) == KillSwitch <==> r.account != "" && r.symbol != "" && s.killed
  {
  }

  /** In every run from an empty engine the day's loss is that of the closes recorded
      under the account's key since midnight: opening stops exactly when they net a
      loss of the daily limit, and the rest is as above. */
  lemma {:induction false} AllowedInRun(folding: Folding, start: int, es: seq<Event>, r: Request)
    requires !r.reduce
    ensures var s := Run(System(Fresh(folding), [], [], start), es);
            Authorized(s.engine, r, s.now) == Allowed <==>
              && r.account != "" && r.symbol != "" && !s.engine.killed && r.account in s.engine.limits
              && var l := s.engine.limits[r.account];
                 var key := if l.group != "" then l.group else r.account;
                 var a := if key in s.engine.accounts then s.engine.accounts[key] else Account(None, s.now, 0, 0, 0);
                 && (exists i :: 0 <= i < |l.symbols| && EqualFold(folding, l.symbols[i], r.symbol))
                 && 0 < r.notional && l.minNotional <= r.notional <= l.maxNotional && r.leverage <= l.maxLeverage
                 && PnlOn(s.log, key, s.now - s.now % 86_400_000_000_000) > 0 - l.dailyLoss
                 && a.openPositions < l.maxOpenPositions
                 && (l.maxTotalExposure > 0 ==> a.exposure + r.notional <= l.maxTotalExposure)
                 && (l.cooldown > 0 && a.lastOpen.Some? ==> s.now - a.lastOpen.value >= l.cooldown)
  {
    var s0 := System(Fresh(folding), [], [], start);
    var s := Run(s0, es);
    assert Journaled(s0);
    RunJournaled(s0, es);
    LimitsCoherent(s0, es);
    FoldingKept(s0, es);
    TodayIsLogged(s, KeyOf(s.engine, r.account));
    hide Run, Journaled, PnlOn;
    AllowedIff(s.engine, r, s.now);
  }

  lemma {:induction false} FoldingKept(s: System, es: seq<Event>)
    ensures Run(s, es).engine.folding == s.engine.folding
    decreases |es|
  {
    hide Authorized;
    if es != [] { FoldingKept(Act(s, es[0]), es[1..]); }
  }

  /** Symbols match when they are as long and each letter folds to the same. */
  lemma {:induction false} SymbolsMatch(f: Folding, a: string, b: string, lower: char, upper: char)
    ensures EqualFold(f, a, a)
    ensures EqualFold(f, a, b) ==> |a| == |b| && EqualFold(f, b, a)
    ensures upper in f && f[upper] == lower && lower !in f ==> EqualFold(f, a + [upper], a + [lower])
    ensures EqualFold(f, [upper], [lower]) ==> upper == lower || upper in f || lower in f
  {
    assert forall i :: 0 <= i < |a| ==> (a + [upper])[i] == (a + [lower])[i] == a[i];
    if EqualFold(f, [upper], [lower]) { assert Fold(f, [upper][0]) == Fold(f, [lower][0]); }
  }

  lemma {:induction false} KilledKept(s: System, es: seq<Event>)
    requires s.engine.killed && Switch(false) !in es
    ensures Run(s, es).engine.killed && multiset(Run(s, es).inFlight) <= multiset(s.inFlight)
    decreases |es|
  {
    if es != [] {
      var t := Act(s, es[0]);
      assert es[0] in es;
      KilledStep(s, es[0]);
      hide Act;
      KilledKept(t, es[1..]);
    }
  }

  lemma {:induction false} KilledStep(s: System, e: Event)
    requires s.engine.killed && e != Switch(false)
    ensures Act(s, e).engine.killed && multiset(Act(s, e).inFlight) <= multiset(s.inFlight)
  {
    hide Today, KeyOf, JudgeAccount, Coherent, AfterReconcile, AfterClose, AfterSetLimits, Touch;
    StaysKilled(s, e);
    if (e.VenueRefused? || e.Placed?) && e.i < |s.inFlight| { FewerWithout(s.inFlight, e.i); }
  }

  lemma StaysKilled(s: System, e: Event)
    requires e != Switch(false)
    ensures s.engine.killed ==> Act(s, e).engine.killed
  {
    hide Today, Authorized;
  }

  lemma FewerWithout(orders: seq<Order>, i: nat)
    requires i < |orders|
    ensures multiset(Without(orders, i)) <= multiset(orders)
  {
    assert orders == orders[..i] + [orders[i]] + orders[i + 1..];
  }

  /** Once the switch is on, and until it is turned off, whatever else happens, no
      order joins those that were out, and every opening order is refused for it. */
  lemma {:induction false} KillStops(s: System, es: seq<Event>, r: Request)
    requires Switch(false) !in es && !r.reduce && r.account != "" && r.symbol != ""
    ensures var t := Run(Act(s, Switch(true)), es);
            && multiset(t.inFlight) <= multiset(s.inFlight)
            && Authorized(t.engine, r, t.now) == KillSwitch && Act(t, Ask(r)) == t
  {
    KilledKept(Act(s, Switch(true)), es);
  }

  /** What a record changes: an open puts one more position and its notional under its
      key and restarts the cooldown, a close takes one position and its notional away,
      nothing below zero and no exposure with no position, and counts what it made
      against the day, a new day having started at zero; no other key changes. */
  lemma {:induction false} RecordsMean(s: State, account: string, notional: int, pnl: int, now: int)
    ensures var key := if account in s.limits && s.limits[account].group != "" then s.limits[account].group else account;
            var a := if key in s.accounts then s.accounts[key] else Account(None, now, 0, 0, 0);
            var today := now - now % 86_400_000_000_000;
            var day := if key in s.accounts && a.dayStart >= today then a.dayStart else today;
            var lost := if a.dayStart < today then 0 else a.realizedLoss;
            var left := if a.openPositions > 0 then a.openPositions - 1 else a.openPositions;
            var more, fewer := AfterOpen(s, account, notional, now), AfterClose(s, account, notional, pnl, now);
            && more.accounts == s.accounts[key := Account(Some(now), day, lost, a.openPositions + 1, a.exposure + notional)]
            && fewer.accounts == s.accounts[key := Account(a.lastOpen, day, lost - pnl, left,
                 if left == 0 || a.exposure < notional then 0 else a.exposure - notional)]
            && more == s.(accounts := more.accounts) && fewer == s.(accounts := fewer.accounts)
  {
  }

  /** Limits in force at any time name a market and leave something to trade with, and
      any that do are put in force. */
  lemma {:induction false} LimitsInForce(folding: Folding, start: int, es: seq<Event>, account: string, l: Limits)
    ensures var s := Run(System(Fresh(folding), [], [], start), es).engine;
            var able := |l.symbols| > 0 && 0 < l.maxNotional && 0 <= l.minNotional <= l.maxNotional && 0 < l.maxLeverage
                        && 0 < l.maxOpenPositions && 0 < l.dailyLoss && 0 <= l.cooldown;
            && (account in s.limits && s.limits[account] == l ==> able)
            && (able && account != "" ==> AfterSetLimits(s, account, l) == s.(limits := s.limits[account := l]))
  {
    LimitsCoherent(System(Fresh(folding), [], [], start), es);
    hide Run;
  }

  /** What a refusal says: the limit that stands in the way, what was asked or is the
      case, past it, and a wait that is not over. */
  lemma {:induction false} RefusalMeans(s: State, r: Request, now: int)
    requires r.account in s.limits
    ensures var l := s.limits[r.account];
            var key := if l.group != "" then l.group else r.account;
            var a := if key in s.accounts then s.accounts[key] else Account(None, now, 0, 0, 0);
            var lost := if a.dayStart < now - now % 86_400_000_000_000 then 0 else a.realizedLoss;
            match Authorized(s, r, now)
            case NotionalTooSmall(limit, actual) => l.minNotional == limit > actual == r.notional > 0
            case NotionalTooLarge(limit, actual) => l.maxNotional == limit < actual == r.notional
            case LeverageTooHigh(limit, actual) => l.maxLeverage == limit < actual == r.leverage
            case DailyLossReached(limit, actual, _) =>
              l.dailyLoss == limit <= actual && (actual == lost || (lost < 0 && actual == 0))
            case TooManyPositions(limit, actual) =>
              limit == 100_000_000 * l.maxOpenPositions <= actual == 100_000_000 * a.openPositions
            case ExposureTooLarge(limit, actual) => 0 < l.maxTotalExposure == limit < actual == a.exposure + r.notional
            case Cooldown(wait) => a.lastOpen.Some? && wait == a.lastOpen.value + l.cooldown - now > 0
            case SymbolNotAllowed => !exists i :: 0 <= i < |l.symbols| && EqualFold(s.folding, l.symbols[i], r.symbol)
            case Malformed => r.account == "" || r.symbol == "" || r.notional <= 0
            case _ => true
  {
    var l := s.limits[r.account];
    assert SymbolAllowed(s.folding, l.symbols, r.symbol)
      <==> exists i :: 0 <= i < |l.symbols| && EqualFold(s.folding, l.symbols[i], r.symbol);
    hide SymbolAllowed, EqualFold;
    var a := Today(s, KeyOf(s, r.account), now);
    hide Today, KeyOf;
    var v := JudgeAccount(l, a, r.notional, now);
    hide JudgeAccount;
  }

  /** What a reconcile counts: one position and its value for each one given, under the
      key, and nothing else changes. */
  lemma {:induction false} ReconcileMeans(s: State, account: string, values: seq<int>, v: int, now: int)
    ensures var key := if account in s.limits && s.limits[account].group != "" then s.limits[account].group else account;
            var none, some, more := AfterReconcile(s, account, [], now), AfterReconcile(s, account, values, now),
                                    AfterReconcile(s, account, values + [v], now);
            && none.accounts[key].openPositions == none.accounts[key].exposure == 0
            && more.accounts[key].openPositions == some.accounts[key].openPositions + 1
            && more.accounts[key].exposure == some.accounts[key].exposure + v
            && (key in s.accounts ==> some.accounts[key].lastOpen == s.accounts[key].lastOpen)
            && some == s.(accounts := s.accounts[key := some.accounts[key]])
  {
    assert (values + [v])[..|values|] == values;
  }
}
