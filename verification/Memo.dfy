/** The single-flight cache of platform/memo.go. Every critical section is one
    step; a computation is a start in one step and a finish in another. */
module Memo {
  datatype Result<T> = Value(v: T) | Failed(err: string)

  /** One computation, by its key, when it started and in which epoch of the key
      (how often the key had been forgotten by then). */
  datatype Entry<T> =
    | Running(key: string, started: int, epoch: nat)
    | Done(key: string, started: int, epoch: nat, at: int, result: Result<T>)

  /** The table of computations plays the heap: an entry is its index. */
  datatype State<T> = State(ttl: int, entries: map<string, nat>, table: seq<Entry<T>>, epochs: map<string, nat>)

  /** How a `Get` goes on once it has let go of the lock. */
  datatype Outcome = Hit(id: nat) | Join(id: nat) | Compute(id: nat)

  const PRUNE_AT: nat := 512

  predicate WellFormed<T>(s: State<T>) {
    forall key :: key in s.entries ==> s.entries[key] < |s.table|
  }

  function Epoch<T>(s: State<T>, key: string): nat {
    if key in s.epochs then s.epochs[key] else 0
  }

  predicate Fresh<T>(e: Entry<T>, ttl: int, now: int) {
    e.Done? && e.result.Value? && now - e.at < ttl
  }

  predicate Stale<T>(e: Entry<T>, ttl: int, now: int) {
    e.Done? && e.at < now - ttl
  }

  function Pruned<T>(s: State<T>, now: int): State<T>
    requires WellFormed(s)
  {
    if |s.entries| < PRUNE_AT then s
    else s.(entries := map key | key in s.entries && !Stale(s.table[s.entries[key]], s.ttl, now) :: s.entries[key])
  }

  function Looked<T>(s: State<T>, key: string, now: int): Outcome
    requires WellFormed(s)
  {
    if key !in s.entries then Compute(|s.table|)
    else if s.table[s.entries[key]].Running? then Join(s.entries[key])
    else if Fresh(s.table[s.entries[key]], s.ttl, now) then Hit(s.entries[key])
    else Compute(|s.table|)
  }

  function AfterGet<T>(s: State<T>, key: string, now: int): State<T>
    requires WellFormed(s)
  {
    if Looked(s, key, now).Compute?
    then Pruned(s.(table := s.table + [Running(key, now, Epoch(s, key))], entries := s.entries[key := |s.table|]), now)
    else s
  }

  function AfterFinish<T>(s: State<T>, id: nat, result: Result<T>, at: int): State<T> {
    if id < |s.table| && s.table[id].Running?
    then s.(table := s.table[id := Done(s.table[id].key, s.table[id].started, s.table[id].epoch, at, result)])
    else s
  }

  function AfterForget<T>(s: State<T>, key: string): State<T> {
    s.(entries := s.entries - {key}, epochs := s.epochs[key := Epoch(s, key) + 1])
  }

  class Memo<T> {
    const ttl: int
    var entries: map<string, nat>
    var table: seq<Entry<T>>
    /** History only: how often each key was forgotten. */
    var epochs: map<string, nat>

    function Abs(): State<T>
      reads this
    {
      State(ttl, entries, table, epochs)
    }

    constructor (ttl: int)
      ensures Abs() == State(ttl, map[], [], map[])
    {
      this.ttl := ttl;
      entries, table, epochs := map[], [], map[];
    }

    /** `Get` up to where it lets go of the lock. */
    method Begin(key: string, now: int) returns (outcome: Outcome)
      requires WellFormed(Abs())
      modifies this
      ensures outcome == Looked(old(Abs()), key, now) && Abs() == AfterGet(old(Abs()), key, now)
    {
      if key in entries {
        var e := table[entries[key]];
        if e.Done? {
          if e.result.Value? && now - e.at < ttl { return Hit(entries[key]); }
        } else {
          return Join(entries[key]);
        }
      }
      var id := |table|;
      table := table + [Running(key, now, if key in epochs then epochs[key] else 0)];
      entries := entries[key := id];
      Prune(now);
      return Compute(id);
    }

    method Prune(now: int)
      requires WellFormed(Abs())
      modifies this`entries
      ensures Abs() == Pruned(old(Abs()), now)
    {
      if |entries| < PRUNE_AT { return; }
      ghost var all := entries;
      var todo := entries.Keys;
      while todo != {}
        invariant todo <= all.Keys
        invariant entries == map key | key in all && (key in todo || !Stale(table[all[key]], ttl, now)) :: all[key]
        decreases |todo|
      {
        var key :| key in todo;
        if table[entries[key]].Done? && table[entries[key]].at < now - ttl {
          entries := entries - {key};
        }
        todo := todo - {key};
      }
    }

    /** `done` closed, with `val`, `err` and `at` as they were set before. */
    method Finish(id: nat, result: Result<T>, at: int)
      requires id < |table| && table[id].Running?
      modifies this`table
      ensures Abs() == AfterFinish(old(Abs()), id, result, at)
    {
      var e := table[id];
      table := table[id := Done(e.key, e.started, e.epoch, at, result)];
    }

    method Forget(key: string)
      modifies this
      ensures Abs() == AfterForget(old(Abs()), key)
    {
      epochs := epochs[key := (if key in epochs then epochs[key] else 0) + 1];
      entries := entries - {key};
    }
  }

  // -------------------------------------------------------------------- runs

  /** `lag` is how long before the channel closes the computation read the clock. */
  datatype Event<T> =
    | Wait(elapsed: nat)
    | Get(key: string)
    | Finish(id: nat, result: Result<T>, lag: nat)
    | Forget(key: string)

  datatype System<T> = System(memo: State<T>, now: int)

  function Act<T>(s: System<T>, e: Event<T>): (t: System<T>)
    requires WellFormed(s.memo)
    ensures WellFormed(t.memo)
  {
    match e
    case Wait(elapsed) => s.(now := s.now + elapsed)
    case Get(key) => s.(memo := AfterGet(s.memo, key, s.now))
    case Finish(id, result, lag) =>
      if id < |s.memo.table| && s.now - lag < s.memo.table[id].started then s
      else s.(memo := AfterFinish(s.memo, id, result, s.now - lag))
    case Forget(key) => s.(memo := AfterForget(s.memo, key))
  }

  /** Nothing more can come of it: it failed, or its value has aged past the TTL. */
  predicate Spent<T>(e: Entry<T>, ttl: int, now: int) {
    e.Done? && (e.result.Failed? || now - e.at >= ttl)
  }

  ghost predicate Listed<T>(s: State<T>) {
    forall key :: key in s.entries ==>
      s.entries[key] < |s.table| && s.table[s.entries[key]].key == key && s.table[s.entries[key]].epoch == Epoch(s, key)
  }

  ghost predicate Timed<T>(s: State<T>, now: int) {
    forall i :: 0 <= i < |s.table| ==>
      && s.table[i].started <= now && s.table[i].epoch <= Epoch(s, s.table[i].key)
      && (s.table[i].Done? ==> s.table[i].started <= s.table[i].at <= now)
  }

  predicate Current<T>(s: State<T>, i: nat)
    requires i < |s.table|
  {
    s.table[i].key in s.entries && s.entries[s.table[i].key] == i
  }

  /** A computation of the present epoch that is not the listed one is spent. */
  ghost predicate OthersSpent<T>(s: State<T>, now: int) {
    forall i :: 0 <= i < |s.table| && s.table[i].epoch == Epoch(s, s.table[i].key) && !Current(s, i) ==>
      Spent(s.table[i], s.ttl, now)
  }

  /** Two computations of a key with no Forget in between: the first was over, and
      failed or aged at least the TTL, when the second started. */
  predicate InTurn<T>(a: Entry<T>, b: Entry<T>, ttl: int) {
    a.key == b.key && a.epoch == b.epoch ==> a.Done? && a.at <= b.started && Spent(a, ttl, b.started)
  }

  ghost predicate SingleFlight<T>(s: State<T>) {
    forall i, j :: 0 <= i < j < |s.table| ==> InTurn(s.table[i], s.table[j], s.ttl)
  }

  ghost predicate Inv<T>(s: System<T>) {
    Listed(s.memo) && Timed(s.memo, s.now) && OthersSpent(s.memo, s.now) && SingleFlight(s.memo)
  }

  function Run<T>(s: System<T>, es: seq<Event<T>>): (t: System<T>)
    requires WellFormed(s.memo)
    ensures WellFormed(t.memo)
    decreases |es|
  {
    if es == [] then s else Run(Act(s, es[0]), es[1..])
  }

  /** Nothing in the run ends computation id or forgets its key. */
  predicate Undisturbed<T>(es: seq<Event<T>>, key: string, id: nat) {
    forall i :: 0 <= i < |es| ==> !(es[i].Forget? && es[i].key == key) && !(es[i].Finish? && es[i].id == id)
  }

  /** Pruning never drops a computation in flight: over any run, however large the
      table grows and whatever else is pruned, it stays listed until it ends or its
      key is forgotten, and whoever asks joins it. */
  lemma {:induction false} PruneKeepsLive<T>(s: System<T>, es: seq<Event<T>>, key: string, id: nat)
    requires WellFormed(s.memo) && key in s.memo.entries && s.memo.entries[key] == id && s.memo.table[id].Running?
    requires Undisturbed(es, key, id)
    ensures var t := Run(s, es);
            && key in t.memo.entries && t.memo.entries[key] == id && t.memo.table[id] == s.memo.table[id]
            && Looked(t.memo, key, t.now) == Join(id)
    decreases |es|
  {
    if es != [] {
      assert !(es[0].Forget? && es[0].key == key) && !(es[0].Finish? && es[0].id == id);
      PruneKeepsLive(Act(s, es[0]), es[1..], key, id);
    }
  }

  lemma {:induction false} ClockForward<T>(s: System<T>, es: seq<Event<T>>)
    requires WellFormed(s.memo)
    ensures Run(s, es).now >= s.now && Run(s, es).memo.ttl == s.memo.ttl
    decreases |es|
  {
    if es != [] { ClockForward(Act(s, es[0]), es[1..]); }
  }

  /** Nor a value still young: as long as it is younger than the TTL and its key is not
      forgotten, whoever asks is answered with it. */
  lemma {:induction false} PruneKeepsFresh<T>(s: System<T>, es: seq<Event<T>>, key: string, id: nat)
    requires WellFormed(s.memo) && key in s.memo.entries && s.memo.entries[key] == id
    requires s.memo.table[id].Done? && s.memo.table[id].result.Value?
    requires Undisturbed(es, key, id) && Run(s, es).now - s.memo.table[id].at < s.memo.ttl
    ensures var t := Run(s, es);
            && key in t.memo.entries && t.memo.entries[key] == id && t.memo.table[id] == s.memo.table[id]
            && Looked(t.memo, key, t.now) == Hit(id)
    decreases |es|
  {
    ClockForward(s, es);
    if es != [] {
      assert !(es[0].Forget? && es[0].key == key);
      ClockForward(Act(s, es[0]), es[1..]);
      PruneKeepsFresh(Act(s, es[0]), es[1..], key, id);
    }
  }

  lemma {:induction false} PruneInv<T>(s: State<T>, now: int)
    requires Inv(System(s, now))
    ensures Inv(System(Pruned(s, now), now))
  {
    var t := Pruned(s, now);
    forall i | 0 <= i < |t.table| && t.table[i].epoch == Epoch(t, t.table[i].key) && !Current(t, i)
      ensures Spent(t.table[i], t.ttl, now)
    {
      if Current(s, i) { assert Stale(s.table[i], s.ttl, now); }
    }
  }

  lemma {:induction false} StartInv<T>(s: System<T>, key: string)
    requires Inv(s) && Looked(s.memo, key, s.now).Compute?
    ensures Inv(Act(s, Get(key)))
  {
    var m := s.memo;
    var e := Running(key, s.now, Epoch(m, key));
    var t := m.(table := m.table + [e], entries := m.entries[key := |m.table|]);
    forall i | 0 <= i < |m.table| && m.table[i].key == key && m.table[i].epoch == e.epoch
      ensures Spent(m.table[i], m.ttl, s.now) && m.table[i].at <= s.now
    {
      if Current(m, i) { assert !Fresh(m.table[i], m.ttl, s.now); }
    }
    assert SingleFlight(t);
    forall i | 0 <= i < |t.table| && t.table[i].epoch == Epoch(t, t.table[i].key) && !Current(t, i)
      ensures Spent(t.table[i], t.ttl, s.now)
    {
      assert i < |m.table|;
      if t.table[i].key != key { assert !Current(m, i); }
    }
    PruneInv(t, s.now);
  }

  lemma {:induction false} FinishInv<T>(s: System<T>, id: nat, result: Result<T>, lag: nat)
    requires Inv(s)
    ensures Inv(Act(s, Finish(id, result, lag)))
  {
    var t := Act(s, Finish(id, result, lag));
    if t != s {
      assert forall i :: 0 <= i < |t.memo.table| ==>
        t.memo.table[i].key == s.memo.table[i].key && t.memo.table[i].epoch == s.memo.table[i].epoch
        && t.memo.table[i].started == s.memo.table[i].started;
      forall i, j | 0 <= i < j < |t.memo.table|
        ensures InTurn(t.memo.table[i], t.memo.table[j], t.memo.ttl)
      {
        assert InTurn(s.memo.table[i], s.memo.table[j], s.memo.ttl);
      }
      forall i | 0 <= i < |t.memo.table| && t.memo.table[i].epoch == Epoch(t.memo, t.memo.table[i].key) && !Current(t.memo, i)
        ensures Spent(t.memo.table[i], t.memo.ttl, t.now)
      {
        assert !Current(s.memo, i);
      }
    }
  }

  lemma {:induction false} ActInv<T>(s: System<T>, e: Event<T>)
    requires Inv(s)
    ensures Inv(Act(s, e))
  {
    match e
    case Wait(elapsed) =>
    case Get(key) => if Looked(s.memo, key, s.now).Compute? { StartInv(s, key); }
    case Finish(id, result, lag) => FinishInv(s, id, result, lag);
    case Forget(key) =>
      var t := Act(s, e);
      forall i | 0 <= i < |t.memo.table| && t.memo.table[i].epoch == Epoch(t.memo, t.memo.table[i].key) && !Current(t.memo, i)
        ensures Spent(t.memo.table[i], t.memo.ttl, t.now)
      {
        assert s.memo.table[i].key != key;
        assert !Current(s.memo, i);
      }
  }

  /** Over every interleaving of callers, computations and forgets, with a clock
      that does not go back. */
  lemma {:induction false} RunInv<T>(s: System<T>, es: seq<Event<T>>)
    requires Inv(s)
    ensures Inv(Run(s, es))
    decreases |es|
  {
    if es != [] {
      ActInv(s, es[0]);
      RunInv(Act(s, es[0]), es[1..]);
    }
  }

  function Empty<T>(ttl: int, now: int): System<T> {
    System(State(ttl, map[], [], map[]), now)
  }

  /** Single flight: in any run, a second computation of a key that was not
      forgotten meanwhile started only after the first one was over and had
      failed or aged at least the TTL. */
  lemma {:induction false} OneAtATime<T>(ttl: int, now: int, es: seq<Event<T>>, i: nat, j: nat)
    requires i < j < |Run(Empty(ttl, now), es).memo.table|
    ensures var table := Run(Empty(ttl, now), es).memo.table;
            table[i].key == table[j].key && table[i].epoch == table[j].epoch ==>
              table[i].Done? && table[i].at <= table[j].started
              && (table[i].result.Failed? || table[j].started - table[i].at >= ttl)
  {
    RunInv(Empty(ttl, now), es);
    TtlFixed(Empty(ttl, now), es);
    var table := Run(Empty(ttl, now), es).memo.table;
    assert InTurn(table[i], table[j], ttl);
  }

  lemma {:induction false} TtlFixed<T>(s: System<T>, es: seq<Event<T>>)
    requires WellFormed(s.memo)
    ensures Run(s, es).memo.ttl == s.memo.ttl
    decreases |es|
  {
    if es != [] { TtlFixed(Act(s, es[0]), es[1..]); }
  }

  /** The table only grows, a computation keeps its key, start and epoch, and one
      that is over never changes. */
  lemma {:induction false} History<T>(s: System<T>, es: seq<Event<T>>, id: nat)
    requires WellFormed(s.memo) && id < |s.memo.table|
    ensures id < |Run(s, es).memo.table|
    ensures var (a, b) := (s.memo.table[id], Run(s, es).memo.table[id]);
            && b.key == a.key && b.started == a.started && b.epoch == a.epoch
            && (a.Done? ==> b == a)
    decreases |es|
  {
    if es != [] { History(Act(s, es[0]), es[1..], id); }
  }

  /** Whoever joins a computation gets its one result: two callers holding the
      same entry, looking at any later moments once it is over, see the same. */
  lemma {:induction false} JoinersAgree<T>(s: System<T>, es: seq<Event<T>>, more: seq<Event<T>>, id: nat)
    requires WellFormed(s.memo) && id < |s.memo.table| && id < |Run(s, es).memo.table|
    requires Run(s, es).memo.table[id].Done?
    ensures id < |Run(Run(s, es), more).memo.table|
    ensures Run(Run(s, es), more).memo.table[id] == Run(s, es).memo.table[id]
    ensures Run(s, es).memo.table[id].key == s.memo.table[id].key
  {
    History(s, es, id);
    History(Run(s, es), more, id);
  }

  ghost predicate ListedSince<T>(s: State<T>, key: string, first: nat) {
    key in s.entries ==> s.entries[key] >= first
  }

  lemma {:induction false} RunSince<T>(s: System<T>, es: seq<Event<T>>, key: string, first: nat)
    requires WellFormed(s.memo) && |s.memo.table| >= first && ListedSince(s.memo, key, first)
    ensures |Run(s, es).memo.table| >= first && ListedSince(Run(s, es).memo, key, first)
    decreases |es|
  {
    if es != [] { RunSince(Act(s, es[0]), es[1..], key, first); }
  }

  /** Freshness: a `Get` that comes any time after a `Forget` of its key is served
      by a computation of that key that started after the `Forget`. */
  lemma {:induction false} ForgottenIsGone<T>(s: System<T>, key: string, es: seq<Event<T>>)
    requires Inv(s)
    ensures var t := Run(Act(s, Forget(key)), es);
            var id := Looked(t.memo, key, t.now).id;
            && |s.memo.table| <= id < |Act(t, Get(key)).memo.table|
            && Act(t, Get(key)).memo.table[id].key == key
  {
    var f := Act(s, Forget(key));
    ActInv(s, Forget(key));
    RunInv(f, es);
    RunSince(f, es, key, |s.memo.table|);
  }

  /** In any run, what a `Get` answers with at once is a value of its key younger than
      the TTL, whose computation started after every Forget of the key so far; and it
      computes only when all there is of the key failed or is past the TTL. */
  lemma {:induction false} HitIsFresh<T>(ttl: int, now: int, es: seq<Event<T>>, key: string)
    ensures var s := Run(Empty(ttl, now), es);
            match Looked(s.memo, key, s.now)
            case Hit(id) =>
              && id < |s.memo.table| && s.memo.table[id].key == key && s.memo.table[id].Done?
              && s.memo.table[id].result.Value? && s.now - s.memo.table[id].at < ttl
              && s.memo.table[id].epoch == Epoch(s.memo, key)
            case Join(id) =>
              && id < |s.memo.table| && s.memo.table[id].key == key && s.memo.table[id].Running?
              && s.memo.table[id].epoch == Epoch(s.memo, key)
            case Compute(_) =>
              forall i | 0 <= i < |s.memo.table| ::
                s.memo.table[i].key == key && s.memo.table[i].epoch == Epoch(s.memo, key) ==>
                  Spent(s.memo.table[i], ttl, s.now)
  {
    RunInv(Empty(ttl, now), es);
    TtlFixed(Empty(ttl, now), es);
    var s := Run(Empty(ttl, now), es);
    if Looked(s.memo, key, s.now).Compute? {
      forall i | 0 <= i < |s.memo.table| && s.memo.table[i].key == key && s.memo.table[i].epoch == Epoch(s.memo, key)
        ensures Spent(s.memo.table[i], ttl, s.now)
      {
        if Current(s.memo, i) { assert !Fresh(s.memo.table[i], ttl, s.now); }
      }
    }
  }

  /** What pruning drops: in a table of 512 keys or more, the computations that ended
      longer ago than the TTL, and nothing else. */
  lemma {:induction false} PruneIff<T>(s: State<T>, now: int, key: string)
    requires WellFormed(s) && key in s.entries
    ensures key !in Pruned(s, now).entries <==>
              var e := s.table[s.entries[key]];
              |s.entries| >= 512 && e.Done? && now - e.at > s.ttl
    ensures Pruned(s, now).entries.Keys <= s.entries.Keys
    ensures key in Pruned(s, now).entries ==> Pruned(s, now).entries[key] == s.entries[key]
  {
  }
}
