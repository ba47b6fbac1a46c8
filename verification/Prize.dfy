/** The weekly prize accounting of platform/prize.go: a receipt is split across
    strategies, queued, sent with retries from two places at once, and the pool
    split among the winners. */
module Prize {
  import opened Arith

  /** Token units by strategy. */
  type Amounts = map<string, nat>

  datatype Key = Key(week: nat, strategy: string)

  type Queue = map<Key, nat>

  // ------------------------------------------------------------------- weeks

  const DAY: int := 86400

  /** Weeks start Monday 00:00 UTC; the epoch was a Thursday. */
  function WeekOf(unix: int): int {
    (unix + 3 * DAY) / (7 * DAY)
  }

  /** Week w is the seven days from a Monday 00:00 UTC, the first of them the fourth day
      before the epoch's; days are told by their number since the epoch, a Thursday. */
  lemma {:induction false} WeekMeans(unix: int, week: int)
    requires unix >= -3 * 86400
    ensures WeekOf(unix) == week <==> 604800 * week - 259200 <= unix < 604800 * week + 345600
    ensures (604800 * week - 259200) % 86400 == 0 && ((604800 * week - 259200) / 86400 + 3) % 7 == 0
  {
  }

  // -------------------------------------------------------------- allocation

  ghost function Total(m: Amounts): nat {
    if m == map[] then 0
    else
      var id :| id in m;
      m[id] + Total(m - {id})
  }

  lemma {:induction false} TotalRemove(m: Amounts, id: string)
    requires id in m
    ensures Total(m) == m[id] + Total(m - {id})
    decreases |m|
  {
    var c :| c in m && Total(m) == m[c] + Total(m - {c});
    if c != id {
      TotalRemove(m - {c}, id);
      TotalRemove(m - {id}, c);
      assert m - {c} - {id} == m - {id} - {c};
    }
  }

  /** One strategy's part of a receipt that fell short. */
  function Part(v: nat, received: nat, total: nat): nat
    requires total > 0
  {
    MulMono(0, v, received);
    QuotientAtLeast(v * received, total, 0);
    v * received / total
  }

  /** What a strategy that accrued v gets of the received amount. */
  function Give(v: nat, received: nat, total: nat): nat {
    if received >= total then v else Part(v, received, total)
  }

  /** What each strategy with an accrual is given. */
  ghost function Allocation(accrued: Amounts, received: nat): Amounts {
    var total := Total(accrued);
    map id | id in accrued && accrued[id] != 0 :: Give(accrued[id], received, total)
  }

  method Sum(accrued: Amounts) returns (total: nat)
    ensures total == Total(accrued)
  {
    total := 0;
    var left := accrued;
    while left != map[]
      invariant left.Keys <= accrued.Keys && total + Total(left) == Total(accrued)
      decreases |left|
    {
      var id :| id in left;
      TotalRemove(left, id);
      total := total + left[id];
      left := left - {id};
    }
  }

  method Allocate(accrued: Amounts, received: nat) returns (out: Amounts)
    ensures out == Allocation(accrued, received)
  {
    var total := Sum(accrued);
    out := map[];
    var ids := accrued.Keys;
    while ids != {}
      invariant ids <= accrued.Keys
      invariant out == map id | id in accrued && accrued[id] != 0 && id !in ids :: Give(accrued[id], received, total)
      decreases |ids|
    {
      var id :| id in ids;
      if accrued[id] != 0 {
        if received >= total {
          out := out[id := accrued[id]];
        } else {
          out := out[id := Part(accrued[id], received, total)];
        }
      }
      ids := ids - {id};
    }
  }

  function Parts(m: Amounts, received: nat, total: nat): Amounts
    requires total > 0
  {
    map id | id in m :: Part(m[id], received, total)
  }

  /** n parts that sum to `paid` fall short of their exact sum by less than n. */
  predicate Near(sum: nat, paid: nat, n: nat, received: nat, total: nat) {
    0 <= sum * received - paid * total <= n * (total - 1)
  }

  /** The parts of a submap: their sum scaled up falls short of the scaled sum by
      less than one total per strategy. */
  lemma {:induction false} PartsSum(m: Amounts, received: nat, total: nat)
    requires total > 0
    ensures Near(Total(m), Total(Parts(m, received, total)), |m|, received, total)
    decreases |m|
  {
    var parts := Parts(m, received, total);
    if m == map[] {
      assert parts == map[];
    } else {
      var id :| id in m;
      var rest := m - {id};
      PartsSum(rest, received, total);
      TotalRemove(m, id);
      TotalRemove(parts, id);
      assert parts - {id} == Parts(rest, received, total);
      assert m.Keys == rest.Keys + {id};
      PartStep(m[id], Total(rest), parts[id], Total(parts - {id}), |rest|, received, total, Total(m), Total(parts), |m|);
    }
  }

  lemma PartStep(v: nat, sum: nat, part: nat, parts: nat, n: nat, received: nat, total: nat,
                 sum': nat, parts': nat, n': nat)
    requires total > 0 && part == Part(v, received, total)
    requires Near(sum, parts, n, received, total)
    requires sum' == v + sum && parts' == part + parts && n' == n + 1
    ensures Near(sum', parts', n', received, total)
  {
    DivMod(v * received, total);
    assert (v + sum) * received == v * received + sum * received;
    assert (part + parts) * total == part * total + parts * total;
    assert (n + 1) * (total - 1) == n * (total - 1) + (total - 1);
  }

  lemma {:induction false} NonZeroTotal(m: Amounts)
    ensures Total(map id | id in m && m[id] != 0 :: m[id]) == Total(m)
    decreases |m|
  {
    var some := map id | id in m && m[id] != 0 :: m[id];
    if m == map[] {
      assert some == map[];
    } else {
      var id :| id in m;
      TotalRemove(m, id);
      NonZeroTotal(m - {id});
      var rest := map x | x in m - {id} && (m - {id})[x] != 0 :: (m - {id})[x];
      if m[id] != 0 {
        TotalRemove(some, id);
        assert some - {id} == rest;
      } else {
        assert some == rest;
      }
    }
  }

  /** The contract never holds more than arrived; everything accrued is paid when
      enough arrived, and otherwise all that arrived but less than one unit per
      strategy. */
  lemma {:induction false} AllocationBounds(accrued: Amounts, received: nat)
    ensures var funded := Allocation(accrued, received);
            && Total(funded) <= received
            && (received >= Total(accrued) ==> Total(funded) == Total(accrued))
            && (received < Total(accrued) ==> received - Total(funded) < |funded|)
            && (forall id :: id in funded ==> funded[id] <= accrued[id])
  {
    var funded := Allocation(accrued, received);
    var some := map id | id in accrued && accrued[id] != 0 :: accrued[id];
    NonZeroTotal(accrued);
    if received >= Total(accrued) {
      assert funded == some;
    } else {
      var total := Total(accrued);
      PartsSum(some, received, total);
      assert funded == Parts(some, received, total);
      var n, paid := |some|, Total(funded);
      assert |funded| == n by { assert funded.Keys == some.Keys; }
      assert Total(map[]) == 0;
      ShortBy(total, received, paid, n);
      forall id | id in funded
        ensures funded[id] <= accrued[id]
      {
        PartAtMost(accrued[id], received, total);
      }
    }
  }

  lemma PartAtMost(v: nat, received: nat, total: nat)
    requires received < total
    ensures Part(v, received, total) <= v
  {
    DivMod(v * received, total);
    MulMono(received, total, v);
    QuotientAtLeast(v * received, total, v + 1);
    assert (v + 1) * total == v * total + total;
  }

  lemma ShortBy(total: nat, received: nat, paid: nat, n: nat)
    requires received < total
    requires Near(total, paid, n, received, total)
    ensures paid <= received && received - paid <= n && (n > 0 ==> received - paid < n)
  {
    var d := received - paid;
    assert total * received - paid * total == d * total;
    assert n * (total - 1) == n * total - n && (-d) * total == -(d * total);
    if d < 0 { MulMono(1, -d, total); }
    if d >= n && n > 0 { MulMono(n, d, total); }
    if d > n { MulMono(n + 1, d, total); }
  }

  // ------------------------------------------------------- the funding queue

  function At(m: Queue, k: Key): nat {
    if k in m then m[k] else 0
  }

  /** `due[k].Add(due[k], v)`, creating the entry. */
  function Put(m: Queue, k: Key, v: nat): Queue {
    m[k := At(m, k) + v]
  }

  /** A receipt's non-zero parts added to the queue. */
  function Enqueue(m: Queue, week: nat, funded: Amounts): Queue {
    map k | k in m.Keys + set id | id in funded && funded[id] != 0 :: Key(week, id) ::
      At(m, k) + (if k.week == week && k.strategy in funded then funded[k.strategy] else 0)
  }

  datatype Receipt = Receipt(amount: nat, accrued: Amounts)

  datatype Refusal = Accepted | Invalid | WeekNotOver | NoJournal | ReadFailed | SaveFailed | ReceiptExists

  /** What the journal does for a receipt: there is none, the accruals cannot be read,
      or they can and the insert works or fails. */
  datatype Journal = Missing | Unreadable | Read(accrued: Amounts, saves: bool)

  /** The order of `Receive`'s checks. */
  function Judge(receipts: map<nat, Receipt>, now: int, week: nat, amount: int, j: Journal): Refusal {
    if amount < 0 then Invalid
    else if week >= WeekOf(now) then WeekNotOver
    else if j.Missing? then NoJournal
    else if j.Unreadable? then ReadFailed
    else if !j.saves then SaveFailed
    else if week in receipts then ReceiptExists
    else Accepted
  }

  /** The part of `Prize` under its lock, with the journal's receipts. */
  class Ledger {
    var due: Queue
    var sent: nat
    var failed: nat
    var receipts: map<nat, Receipt>

    constructor ()
      ensures due == map[] && sent == failed == 0 && receipts == map[]
    {
      due, sent, failed, receipts := map[], 0, 0, map[];
    }

    /** `Receive` up to the journal's insert: the second receipt of a week is
        refused before anything is queued. */
    method Accept(now: int, week: nat, amount: int, j: Journal) returns (verdict: Refusal, funded: Amounts)
      modifies this`receipts
      ensures verdict == Judge(old(receipts), now, week, amount, j)
      ensures verdict == Accepted ==>
                receipts == old(receipts)[week := Receipt(amount, j.accrued)] && funded == Allocation(j.accrued, amount)
      ensures verdict != Accepted ==> receipts == old(receipts) && funded == map[]
    {
      funded := map[];
      if amount < 0 { return Invalid, funded; }
      if week >= WeekOf(now) { return WeekNotOver, funded; }
      if j.Missing? { return NoJournal, funded; }
      if j.Unreadable? { return ReadFailed, funded; }
      var parts := Allocate(j.accrued, amount);
      if !j.saves { return SaveFailed, funded; }
      if week in receipts { return ReceiptExists, funded; }
      receipts := receipts[week := Receipt(amount, j.accrued)];
      return Accepted, parts;
    }

    /** `Receive`'s critical section. */
    method QueueFunding(week: nat, funded: Amounts)
      modifies this`due
      ensures due == Enqueue(old(due), week, funded)
    {
      var ids := funded.Keys;
      ghost var was := due;
      while ids != {}
        invariant ids <= funded.Keys
        invariant due == Enqueue(was, week, map id | id in funded && id !in ids :: funded[id])
        decreases |ids|
      {
        var id :| id in ids;
        ghost var before := map x | x in funded && x !in ids :: funded[x];
        ghost var after := map x | x in funded && x !in ids - {id} :: funded[x];
        assert after == before[id := funded[id]];
        EnqueueOne(was, week, before, id, funded[id]);
        if funded[id] != 0 {
          due := Put(due, Key(week, id), funded[id]);
        }
        ids := ids - {id};
      }
      assert funded == map id | id in funded && id !in ids :: funded[id];
    }

    /** The head of `flush`: the whole queue is taken at once. */
    method TakeBatch() returns (batch: Queue)
      modifies this`due
      ensures batch == old(due) && due == map[]
    {
      batch := due;
      due := map[];
    }

    /** A send that failed puts its amount back. */
    method PutBack(k: Key, amount: nat)
      modifies this`due, this`failed
      ensures due == Put(old(due), k, amount) && failed == old(failed) + 1
    {
      failed := failed + 1;
      if k !in due { due := due[k := 0]; }
      due := due[k := due[k] + amount];
    }

    /** `flush` run on its own: what lands leaves the queue, the rest stays. */
    method Flush(lands: set<Key>) returns (landed: Queue)
      modifies this`due, this`sent, this`failed
      ensures landed == Keep(old(due), lands) && due == Keep(old(due), old(due).Keys - lands)
      ensures sent == old(sent) + |landed| && failed == old(failed) + |due|
    {
      var batch := TakeBatch();
      landed := map[];
      var todo := batch.Keys;
      assert Keep(batch, lands - todo) == map[] == Keep(batch, batch.Keys - lands - todo);
      hide Keep, Put;
      while todo != {}
        invariant todo <= batch.Keys
        invariant landed == Keep(batch, lands - todo) && due == Keep(batch, batch.Keys - lands - todo)
        invariant sent == old(sent) + |landed| && failed == old(failed) + |due|
        decreases |todo|
      {
        var k :| k in todo;
        if k in lands {
          KeepMoves(batch, lands, batch.Keys - lands, todo, k);
          sent := sent + 1;
          landed := landed[k := batch[k]];
        } else {
          KeepMoves(batch, batch.Keys - lands, lands, todo, k);
          PutBack(k, batch[k]);
        }
        todo := todo - {k};
      }
      assert lands - {} == lands && batch.Keys - lands - {} == batch.Keys - lands;
    }
  }

  /** The entries of q under the given keys. */
  function Keep(q: Queue, ks: set<Key>): Queue {
    map k | k in q && k in ks :: q[k]
  }

  /** Settling one key of a batch adds its entry to its side and no other. */
  lemma KeepMoves(q: Queue, side: set<Key>, other: set<Key>, todo: set<Key>, k: Key)
    requires k in q && k in todo && k in side && k !in other
    ensures Keep(q, side - (todo - {k})) == Keep(q, side - todo)[k := q[k]] == Put(Keep(q, side - todo), k, q[k])
    ensures |Keep(q, side - (todo - {k}))| == |Keep(q, side - todo)| + 1
    ensures Keep(q, other - (todo - {k})) == Keep(q, other - todo)
  {
    assert Keep(q, side - (todo - {k})).Keys == Keep(q, side - todo).Keys + {k};
  }

  lemma EnqueueAt(m: Queue, week: nat, funded: Amounts, k: Key)
    ensures k in Enqueue(m, week, funded) <==> k in m || (k.week == week && k.strategy in funded && funded[k.strategy] != 0)
    ensures At(Enqueue(m, week, funded), k)
         == At(m, k) + if k.week == week && k.strategy in funded then funded[k.strategy] else 0
  {
    if k.week == week && k.strategy in funded { assert k == Key(week, k.strategy); }
  }

  lemma EnqueueOne(m: Queue, week: nat, funded: Amounts, id: string, v: nat)
    requires id !in funded
    ensures Enqueue(m, week, funded[id := v])
         == if v != 0 then Put(Enqueue(m, week, funded), Key(week, id), v) else Enqueue(m, week, funded)
  {
    var a := Enqueue(m, week, funded[id := v]);
    var b := Enqueue(m, week, funded);
    var c := if v != 0 then Put(b, Key(week, id), v) else b;
    forall k: Key
      ensures (k in a <==> k in c) && At(a, k) == At(c, k)
    {
      EnqueueAt(m, week, funded[id := v], k);
      EnqueueAt(m, week, funded, k);
    }
    SameQueue(a, c);
  }

  lemma SameQueue(a: Queue, b: Queue)
    requires forall k: Key :: (k in a <==> k in b) && At(a, k) == At(b, k)
    ensures a == b
  {
    forall k | k in a
      ensures a[k] == b[k]
    {
      assert At(a, k) == At(b, k);
    }
  }

  // ------------------------------------------------- every interleaving of it

  /** The whole system: accepted receipts not yet queued, the queue, the batches
      of every flush running or done, and what landed on the chain. */
  datatype System = System(
    receipts: map<nat, Receipt>,
    pending: map<nat, Amounts>,
    due: Queue,
    batches: seq<Queue>,
    landed: Queue)

  /** A critical section, or one send's outcome. */
  datatype Event =
    | Receive(now: int, week: nat, amount: int, journal: Journal)
    | QueueUp(week: nat)
    | Take
    | SendOk(batch: nat, k: Key)
    | SendFail(batch: nat, k: Key)

  const START := System(map[], map[], map[], [], map[])

  /** An event that cannot happen in s leaves it alone. */
  ghost function Step(s: System, e: Event): System {
    match e
    case Receive(now, week, amount, j) =>
      if Judge(s.receipts, now, week, amount, j) != Accepted then s
      else s.(receipts := s.receipts[week := Receipt(amount, j.accrued)],
              pending := s.pending[week := Allocation(j.accrued, amount)])
    case QueueUp(week) =>
      if week !in s.pending then s
      else s.(pending := s.pending - {week}, due := Enqueue(s.due, week, s.pending[week]))
    case Take =>
      s.(due := map[], batches := s.batches + [s.due])
    case SendOk(i, k) =>
      if i >= |s.batches| || k !in s.batches[i] then s
      else s.(batches := s.batches[i := s.batches[i] - {k}], landed := Put(s.landed, k, s.batches[i][k]))
    case SendFail(i, k) =>
      if i >= |s.batches| || k !in s.batches[i] then s
      else s.(batches := s.batches[i := s.batches[i] - {k}], due := Put(s.due, k, s.batches[i][k]))
  }

  ghost function Run(s: System, es: seq<Event>): System
    decreases |es|
  {
    if es == [] then s else Run(Step(s, es[0]), es[1..])
  }

  function InBatches(batches: seq<Queue>, k: Key): nat {
    if batches == [] then 0 else At(batches[0], k) + InBatches(batches[1..], k)
  }

  function InPending(pending: map<nat, Amounts>, k: Key): nat {
    if k.week in pending && k.strategy in pending[k.week] then pending[k.week][k.strategy] else 0
  }

  /** What the week's only accepted receipt gave the strategy. */
  ghost function Granted(receipts: map<nat, Receipt>, k: Key): nat {
    if k.week !in receipts then 0
    else
      var funded := Allocation(receipts[k.week].accrued, receipts[k.week].amount);
      if k.strategy in funded then funded[k.strategy] else 0
  }

  ghost function Held(s: System, k: Key): nat {
    InPending(s.pending, k) + At(s.due, k) + InBatches(s.batches, k) + At(s.landed, k)
  }

  ghost predicate Conserved(s: System) {
    && (forall k: Key :: Held(s, k) == Granted(s.receipts, k))
    && s.pending.Keys <= s.receipts.Keys
  }

  lemma {:induction false} BatchesAppend(batches: seq<Queue>, b: Queue, k: Key)
    ensures InBatches(batches + [b], k) == InBatches(batches, k) + At(b, k)
  {
    if batches == [] {
      assert batches + [b] == [b];
    } else {
      BatchesAppend(batches[1..], b, k);
      assert (batches + [b])[1..] == batches[1..] + [b];
    }
  }

  lemma {:induction false} BatchesUpdate(batches: seq<Queue>, i: nat, b: Queue, k: Key)
    requires i < |batches|
    ensures InBatches(batches[i := b], k) + At(batches[i], k) == InBatches(batches, k) + At(b, k)
  {
    if i > 0 {
      BatchesUpdate(batches[1..], i - 1, b, k);
      assert batches[i := b][1..] == batches[1..][i - 1 := b];
    }
  }

  lemma {:induction false} QueueUpConserves(s: System, week: nat, k: Key)
    requires week in s.pending
    ensures Held(Step(s, QueueUp(week)), k) == Held(s, k)
  {
    EnqueueAt(s.due, week, s.pending[week], k);
  }

  /** A send's outcome moves its amount from the batch to the chain or back. */
  lemma {:induction false} SendConserves(s: System, i: nat, x: Key, k: Key)
    requires i < |s.batches| && x in s.batches[i]
    ensures Held(Step(s, SendOk(i, x)), k) == Held(s, k)
    ensures Held(Step(s, SendFail(i, x)), k) == Held(s, k)
  {
    BatchesUpdate(s.batches, i, s.batches[i] - {x}, k);
  }

  lemma {:induction false} ReceiveConserves(s: System, e: Event, k: Key)
    requires Conserved(s) && e.Receive? && Judge(s.receipts, e.now, e.week, e.amount, e.journal) == Accepted
    ensures Held(Step(s, e), k) == Granted(Step(s, e).receipts, k)
  {
    assert Held(s, k) == Granted(s.receipts, k);
  }

  lemma {:induction false} StepConserves(s: System, e: Event)
    requires Conserved(s)
    ensures Conserved(Step(s, e))
  {
    var t := Step(s, e);
    if t != s {
      forall k: Key
        ensures Held(t, k) == Granted(t.receipts, k)
      {
        assert Held(s, k) == Granted(s.receipts, k);
        match e
        case Receive(_, _, _, _) => ReceiveConserves(s, e, k);
        case QueueUp(week) => QueueUpConserves(s, week, k);
        case Take => BatchesAppend(s.batches, s.due, k);
        case SendOk(i, x) => SendConserves(s, i, x, k);
        case SendFail(i, x) => SendConserves(s, i, x, k);
      }
    }
  }

  /** Over every interleaving, waiting + queued + in a batch + landed is exactly
      what the receipt granted, for every week and strategy. */
  lemma {:induction false} RunConserves(s: System, es: seq<Event>)
    requires Conserved(s)
    ensures Conserved(Run(s, es))
    decreases |es|
  {
    if es != [] {
      StepConserves(s, es[0]);
      RunConserves(Step(s, es[0]), es[1..]);
    }
  }

  /** A week's receipt, once accepted, is the week's receipt for good. */
  lemma {:induction false} ReceiptIsFinal(s: System, es: seq<Event>, week: nat)
    requires week in s.receipts
    ensures week in Run(s, es).receipts && Run(s, es).receipts[week] == s.receipts[week]
    decreases |es|
  {
    if es != [] { ReceiptIsFinal(Step(s, es[0]), es[1..], week); }
  }

  ghost function LandedInWeek(s: System, week: nat): Amounts
    requires week in s.receipts
  {
    map id | id in s.receipts[week].accrued :: At(s.landed, Key(week, id))
  }

  lemma {:induction false} TotalMono(a: Amounts, b: Amounts)
    requires a.Keys == b.Keys && forall id :: id in a ==> a[id] <= b[id]
    ensures Total(a) <= Total(b)
    decreases |a|
  {
    if a == map[] {
      assert b == map[];
    } else {
      var id :| id in a;
      TotalRemove(a, id);
      TotalRemove(b, id);
      TotalMono(a - {id}, b - {id});
    }
  }

  ghost function GrantedInWeek(s: System, week: nat): Amounts
    requires week in s.receipts
  {
    map id | id in s.receipts[week].accrued :: Granted(s.receipts, Key(week, id))
  }

  lemma {:induction false} GrantedTotal(s: System, week: nat)
    requires week in s.receipts
    ensures Total(GrantedInWeek(s, week)) == Total(Allocation(s.receipts[week].accrued, s.receipts[week].amount))
  {
    var funded := Allocation(s.receipts[week].accrued, s.receipts[week].amount);
    var g := GrantedInWeek(s, week);
    NonZeroTotal(g);
    NonZeroTotal(funded);
    assert (map id | id in g && g[id] != 0 :: g[id]) == (map id | id in funded && funded[id] != 0 :: funded[id]);
  }

  /** Safety: what lands on the chain for a week never exceeds what was received,
      and nothing lands for a week or strategy that was granted nothing. */
  lemma {:induction false} NeverOverpaid(es: seq<Event>, week: nat)
    ensures var s := Run(START, es);
            && (forall k: Key :: At(s.landed, k) <= Granted(s.receipts, k))
            && (week in s.receipts ==> Total(LandedInWeek(s, week)) <= s.receipts[week].amount)
  {
    var s := Run(START, es);
    assert Conserved(START);
    RunConserves(START, es);
    forall k: Key
      ensures At(s.landed, k) <= Granted(s.receipts, k)
    {
      assert Held(s, k) == Granted(s.receipts, k);
    }
    if week in s.receipts {
      TotalMono(LandedInWeek(s, week), GrantedInWeek(s, week));
      GrantedTotal(s, week);
      AllocationBounds(s.receipts[week].accrued, s.receipts[week].amount);
    }
  }

  ghost predicate Drained(s: System, week: nat) {
    forall k: Key :: k.week == week ==>
      InPending(s.pending, k) == 0 && At(s.due, k) == 0 && InBatches(s.batches, k) == 0
  }

  lemma {:induction false} DrainedLands(s: System, week: nat)
    requires Conserved(s) && week in s.receipts && Drained(s, week)
    ensures LandedInWeek(s, week) == GrantedInWeek(s, week)
  {
    forall id | id in s.receipts[week].accrued
      ensures At(s.landed, Key(week, id)) == Granted(s.receipts, Key(week, id))
    {
      assert Held(s, Key(week, id)) == Granted(s.receipts, Key(week, id));
    }
  }

  /** Once nothing of a week is waiting, queued or in flight, everything accrued
      has landed, or all that was received but less than a unit per strategy. */
  lemma {:induction false} DrainedIsPaid(es: seq<Event>, week: nat)
    requires week in Run(START, es).receipts && Drained(Run(START, es), week)
    ensures var s := Run(START, es);
            var r := s.receipts[week];
            var paid := Total(LandedInWeek(s, week));
            if r.amount >= Total(r.accrued) then paid == Total(r.accrued)
            else paid <= r.amount && r.amount - paid < |Allocation(r.accrued, r.amount)|
  {
    assert Conserved(START);
    RunConserves(START, es);
    PaidInFull(Run(START, es), week);
  }

  lemma {:induction false} PaidInFull(s: System, week: nat)
    requires Conserved(s) && week in s.receipts && Drained(s, week)
    ensures var r := s.receipts[week];
            var paid := Total(LandedInWeek(s, week));
            if r.amount >= Total(r.accrued) then paid == Total(r.accrued)
            else paid <= r.amount && r.amount - paid < |Allocation(r.accrued, r.amount)|
  {
    DrainedLands(s, week);
    GrantedTotal(s, week);
    AllocationBounds(s.receipts[week].accrued, s.receipts[week].amount);
  }

  // ----------------------------------------------------------------- winners

  datatype Row = Row(wallet: string, pnl: int, payable: bool)

  datatype Winner = Winner(row: Row, amount: nat)

  /** Percent of the pool for first, second and third. */
  const SHARES: seq<nat> := [50, 30, 20]

  /** A place's share of the pool, whole units. */
  function Share(pool: nat, place: nat): nat
    requires place < 3
  {
    pool * SHARES[place] / 100
  }

  predicate Ranked(board: seq<Row>) {
    forall i, j :: 0 <= i < j < |board| ==> board[i].pnl >= board[j].pnl
  }

  predicate Eligible(r: Row) {
    r.pnl > 0 && r.payable
  }

  function EligibleRows(board: seq<Row>): seq<Row> {
    if board == [] then []
    else (if Eligible(board[0]) then [board[0]] else []) + EligibleRows(board[1..])
  }

  lemma EligibleStep(board: seq<Row>, i: nat)
    requires Ranked(board) && i < |board|
    ensures EligibleRows(board[i..]) == (if Eligible(board[i]) then [board[i]] else []) + EligibleRows(board[i + 1..])
    ensures board[i].pnl <= 0 ==> EligibleRows(board[i..]) == []
  {
    assert board[i..][0] == board[i] && board[i..][1..] == board[i + 1..];
    if board[i].pnl <= 0 { NoneEligible(board[i..]); }
  }

  lemma Settled(board: seq<Row>, pool: nat, out: seq<Winner>, rest: seq<Row>)
    requires EligibleRows(board) == Rows(out) + rest && |out| <= 3 && (rest == [] || |out| == 3)
    requires forall j :: 0 <= j < |out| ==> out[j].amount == Share(pool, j)
    ensures Settlement(board, pool, out)
  {
    hide EligibleRows, Share;
    forall j | 0 <= j < |out|
      ensures out[j] == Winner(EligibleRows(board)[j], Share(pool, j))
    {
      assert Rows(out)[j] == out[j].row;
    }
  }

  /** The loop of `winners`, on the board as sorted by result. */
  method Winners(board: seq<Row>, pool: nat) returns (out: seq<Winner>)
    requires Ranked(board)
    ensures Settlement(board, pool, out)
  {
    out := [];
    var i := 0;
    assert EligibleRows(board[|board|..]) == [];
    hide EligibleRows, Settlement, Ranked, Rows, Share;
    while i < |board|
      invariant 0 <= i <= |board| && |out| <= 3
      invariant EligibleRows(board) == Rows(out) + EligibleRows(board[i..])
      invariant forall j :: 0 <= j < |out| ==> out[j].amount == Share(pool, j)
    {
      var s := board[i];
      EligibleStep(board, i);
      if |out| == 3 || s.pnl <= 0 { break; }
      if s.payable {
        var w := Winner(s, Share(pool, |out|));
        assert Rows(out + [w]) == Rows(out) + [s];
        out := out + [w];
      }
      i := i + 1;
    }
    Settled(board, pool, out, EligibleRows(board[i..]));
  }

  function Rows(ws: seq<Winner>): (rs: seq<Row>)
    ensures |rs| == |ws| && forall i :: 0 <= i < |ws| ==> rs[i] == ws[i].row
  {
    seq(|ws|, i requires 0 <= i < |ws| => ws[i].row)
  }

  lemma {:induction false} NoneEligible(board: seq<Row>)
    requires Ranked(board) && (board == [] || board[0].pnl <= 0)
    ensures EligibleRows(board) == []
  {
    if board != [] {
      assert board[1..] == [] || board[1..][0].pnl <= board[0].pnl;
      NoneEligible(board[1..]);
    }
  }

  lemma {:induction false} EligibleMember(board: seq<Row>, r: Row)
    ensures r in EligibleRows(board) <==> r in board && Eligible(r)
  {
    if board != [] {
      EligibleMember(board[1..], r);
      assert board == [board[0]] + board[1..];
    }
  }

  lemma {:induction false} EligibleRanked(board: seq<Row>)
    requires Ranked(board)
    ensures Ranked(EligibleRows(board))
  {
    if board != [] {
      EligibleRanked(board[1..]);
      var rest := EligibleRows(board[1..]);
      forall j | 0 <= j < |rest|
        ensures rest[j].pnl <= board[0].pnl
      {
        EligibleMember(board[1..], rest[j]);
      }
    }
  }

  predicate Settlement(board: seq<Row>, pool: nat, out: seq<Winner>) {
    && |out| == (if |EligibleRows(board)| < 3 then |EligibleRows(board)| else 3)
    && forall i :: 0 <= i < |out| ==> out[i] == Winner(EligibleRows(board)[i], Share(pool, i))
  }

  /** The winners made a profit and can be paid; nobody such who is left out did better
      than anyone paid, and fewer than three winners means nobody is left out. */
  lemma {:induction false} WinnersAreBest(board: seq<Row>, pool: nat, out: seq<Winner>)
    requires Ranked(board) && Settlement(board, pool, out)
    ensures forall i :: 0 <= i < |out| ==> out[i].row in board && out[i].row.pnl > 0 && out[i].row.payable
    ensures forall r :: r in board && r.pnl > 0 && r.payable && r !in Rows(out) ==>
              |out| == 3 && forall i :: 0 <= i < |out| ==> r.pnl <= out[i].row.pnl
  {
    var rows := EligibleRows(board);
    EligibleRanked(board);
    forall r | r in board && Eligible(r) && r !in Rows(out)
      ensures |out| == 3 && forall i :: 0 <= i < |out| ==> r.pnl <= out[i].row.pnl
    {
      EligibleMember(board, r);
      var j :| 0 <= j < |rows| && rows[j] == r;
      assert forall i :: 0 <= i < |out| ==> Rows(out)[i] == rows[i];
    }
    forall i | 0 <= i < |out|
      ensures out[i].row in board && Eligible(out[i].row)
    {
      assert rows[i] in rows;
      EligibleMember(board, rows[i]);
    }
  }

  /** The pool covers the prizes, with less than a unit over per place when all
      three are taken, and a better place never pays less. */
  lemma {:induction false} PoolCovers(board: seq<Row>, pool: nat, out: seq<Winner>)
    requires Settlement(board, pool, out)
    ensures Paid(out) <= pool && (|out| == 3 ==> pool - Paid(out) < 3)
    ensures forall i, j :: 0 <= i < j < |out| ==> out[i].amount >= out[j].amount
  {
    assert SHARES[0] == 50 && SHARES[1] == 30 && SHARES[2] == 20;
    assert out[..|out|] == out;
    if |out| >= 1 { PaidSnoc(out, 0); }
    if |out| >= 2 { PaidSnoc(out, 1); }
    if |out| >= 3 { PaidSnoc(out, 2); }
  }

  lemma PaidSnoc(ws: seq<Winner>, i: nat)
    requires i < |ws|
    ensures Paid(ws[..i + 1]) == Paid(ws[..i]) + ws[i].amount
  {
    assert ws[..i + 1][..i] == ws[..i];
  }

  function Paid(ws: seq<Winner>): nat {
    if ws == [] then 0 else Paid(ws[..|ws| - 1]) + ws[|ws| - 1].amount
  }

  /** The winners' percentages: half of the pool, three tenths and two tenths, each
      rounded down. */
  lemma {:induction false} SharesMean(board: seq<Row>, pool: nat, out: seq<Winner>)
    requires Settlement(board, pool, out)
    ensures |out| <= 3
    ensures |out| > 0 ==> 0 <= 50 * pool - 100 * out[0].amount < 100
    ensures |out| > 1 ==> 0 <= 30 * pool - 100 * out[1].amount < 100
    ensures |out| > 2 ==> 0 <= 20 * pool - 100 * out[2].amount < 100
  {
    assert SHARES[0] == 50 && SHARES[1] == 30 && SHARES[2] == 20;
  }

  /** Each strategy's part: all it accrued when enough arrived, and otherwise its
      proportional share of the receipt, rounded down. */
  lemma {:induction false} AllocationFair(accrued: Amounts, received: nat, id: string)
    ensures id in Allocation(accrued, received) <==> id in accrued && accrued[id] != 0
    ensures id in accrued && accrued[id] != 0 ==>
              var given, total := Allocation(accrued, received)[id], Total(accrued);
              if received >= total then given == accrued[id]
              else 0 <= accrued[id] * received - given * total < total
  {
    if id in accrued && accrued[id] != 0 && received < Total(accrued) {
      DivMod(accrued[id] * received, Total(accrued));
    }
  }

  /** A receipt is accepted exactly for an amount that is not negative, a week that is
      over, a journal that reads and saves, and no receipt before it. */
  lemma {:induction false} AcceptedIff(receipts: map<nat, Receipt>, now: int, week: nat, amount: int, j: Journal)
    requires now >= -3 * 86400
    ensures Judge(receipts, now, week, amount, j) == Accepted <==>
              amount >= 0 && now >= 604800 * week + 345600 && j.Read? && j.saves && week !in receipts
  {
  }
}
