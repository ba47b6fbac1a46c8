/** One pending callback per key: strategy/timers.go. A callback that has been
    launched can no longer be stopped and still has to take the lock. */
module Timers {
  import opened Wrappers

  /** What the map holds for a key: when it fires, and the stopper. */
  datatype Entry = Entry(at: int, token: nat)

  /** What a scheduled closure captured. */
  datatype Callback = Callback(key: string, at: int)

  /** `waiting` can still be stopped; `launched` is past that. */
  datatype State = State(
    pending: map<string, Entry>,
    waiting: map<nat, Callback>,
    launched: map<nat, Callback>,
    next: nat)

  const EMPTY := State(map[], map[], map[], 0)

  datatype Event =
    | Schedule(key: string, at: int)
    | Cancel(key: string)
    | Launch(token: nat)
    | Fire(token: nat)

  /** Stop the key's stopper and drop the entry. */
  function Dropped(s: State, key: string): State {
    if key in s.pending
    then s.(pending := s.pending - {key}, waiting := s.waiting - {s.pending[key].token})
    else s
  }

  function Scheduled(s: State, key: string, at: int): State {
    var t := Dropped(s, key);
    t.(pending := t.pending[key := Entry(at, t.next)],
       waiting := t.waiting[t.next := Callback(key, at)],
       next := t.next + 1)
  }

  /** The callback's own critical section: it compares times, not stoppers. */
  function Fired(s: State, token: nat): State
    requires token in s.launched
  {
    var c := s.launched[token];
    var t := s.(launched := s.launched - {token});
    if c.key in s.pending && s.pending[c.key].at == c.at then t.(pending := s.pending - {c.key}) else t
  }

  function Step(s: State, e: Event): State {
    match e
    case Schedule(key, at) => Scheduled(s, key, at)
    case Cancel(key) => Dropped(s, key)
    case Launch(token) =>
      if token in s.waiting
      then s.(waiting := s.waiting - {token}, launched := s.launched[token := s.waiting[token]])
      else s
    case Fire(token) => if token in s.launched then Fired(s, token) else s
  }

  function Run(s: State, es: seq<Event>): State
    decreases |es|
  {
    if es == [] then s else Run(Step(s, es[0]), es[1..])
  }

  /** `pending` is the object's own map; the rest is what the runtime holds of
      the timers it has created. */
  class Timers {
    var pending: map<string, Entry>
    var waiting: map<nat, Callback>
    var launched: map<nat, Callback>
    var next: nat

    function Abs(): State
      reads this
    {
      State(pending, waiting, launched, next)
    }

    constructor ()
      ensures Abs() == EMPTY
    {
      pending, waiting, launched, next := map[], map[], map[], 0;
    }

    method Schedule(key: string, at: int)
      modifies this
      ensures Abs() == Scheduled(old(Abs()), key, at)
    {
      if key in pending {
        waiting := waiting - {pending[key].token};
      }
      var token := next;
      waiting, next := waiting[token := Callback(key, at)], token + 1;
      pending := pending[key := Entry(at, token)];
      assert pending == (old(pending) - {key})[key := Entry(at, token)];
    }

    method Cancel(key: string)
      modifies this
      ensures Abs() == Dropped(old(Abs()), key)
    {
      if key in pending {
        waiting := waiting - {pending[key].token};
        pending := pending - {key};
      }
    }

    method Fire(token: nat)
      requires token in launched
      modifies this
      ensures Abs() == Fired(old(Abs()), token)
    {
      var c := launched[token];
      launched := launched - {token};
      if c.key in pending && pending[c.key].at == c.at {
        pending := pending - {c.key};
      }
    }

    method Deadline(key: string) returns (at: Option<int>)
      ensures at == if key in pending then Some(pending[key].at) else None
    {
      if key in pending { return Some(pending[key].at); }
      return None;
    }

    /** `Close`: everything still waiting for its key is stopped. */
    method Close()
      requires Coherent(Abs())
      modifies this
      ensures pending == map[] && waiting == map[] && launched == old(launched)
    {
      ghost var launched0 := launched;
      while pending != map[]
        invariant Coherent(Abs()) && launched == launched0
        decreases |pending|
      {
        var key :| key in pending;
        StepCoherent(Abs(), Event.Cancel(key));
        Cancel(key);
      }
    }
  }

  /** Every waiting callback is the one its key's entry would stop, every entry's
      callback is still to run, and a launched callback whose time matches an
      entry is that entry's own. */
  ghost predicate Coherent(s: State) {
    && (forall t :: t in s.waiting ==>
          s.waiting[t].key in s.pending && s.pending[s.waiting[t].key] == Entry(s.waiting[t].at, t))
    && (forall t :: t in s.waiting || t in s.launched ==> t < s.next)
    && s.waiting.Keys !! s.launched.Keys
    && (forall key :: key in s.pending ==>
          var e := s.pending[key];
          (e.token in s.waiting && s.waiting[e.token] == Callback(key, e.at))
          || (e.token in s.launched && s.launched[e.token] == Callback(key, e.at)))
    && (forall t :: t in s.launched && s.launched[t].key in s.pending ==>
          s.pending[s.launched[t].key].at == s.launched[t].at ==> s.pending[s.launched[t].key].token == t)
  }

  /** No callback of the key set for this very instant is already launched. */
  predicate Fresh(s: State, e: Event) {
    e.Schedule? ==> forall t :: t in s.launched ==> s.launched[t] != Callback(e.key, e.at)
  }

  predicate AllFresh(s: State, es: seq<Event>)
    decreases |es|
  {
    es == [] || (Fresh(s, es[0]) && AllFresh(Step(s, es[0]), es[1..]))
  }

  lemma {:induction false} FreshStep(s: State, e: Event)
    requires Coherent(s) && Fresh(s, e)
    ensures Coherent(Step(s, e))
  {
  }

  lemma {:induction false} StaleStep(s: State, e: Event, t: nat)
    requires Coherent(s) && e.Schedule? && t in s.launched && s.launched[t] == Callback(e.key, e.at)
    ensures !Coherent(Step(s, e))
  {
    var n := Step(s, e);
    assert n.launched == s.launched && n.pending[e.key] == Entry(e.at, s.next);
    assert t < s.next;
  }

  /** A step keeps the table coherent if and only if it does not set a key again to
      the very instant that is already firing for it. */
  lemma {:induction false} StepCoherent(s: State, e: Event)
    requires Coherent(s)
    ensures Coherent(Step(s, e)) <==> Fresh(s, e)
  {
    if Fresh(s, e) {
      FreshStep(s, e);
    } else {
      hide Coherent, Step;
      var t :| t in s.launched && s.launched[t] == Callback(e.key, e.at);
      StaleStep(s, e, t);
    }
  }

  ghost predicate AllCoherent(s: State, es: seq<Event>)
    decreases |es|
  {
    Coherent(s) && (es != [] ==> AllCoherent(Step(s, es[0]), es[1..]))
  }

  /** Over every interleaving of schedules, cancels, launches and callbacks: the table
      is coherent all along if and only if no key is ever set to an instant already
      firing. */
  lemma {:induction false} RunCoherent(s: State, es: seq<Event>)
    requires Coherent(s)
    ensures AllCoherent(s, es) <==> AllFresh(s, es)
    ensures AllFresh(s, es) ==> Coherent(Run(s, es))
    decreases |es|
  {
    hide Coherent, Fresh, Step;
    if es != [] {
      StepCoherent(s, es[0]);
      if Coherent(Step(s, es[0])) { RunCoherent(Step(s, es[0]), es[1..]); }
    }
  }

  /** At most one callback per key can ever be waiting, and it is the one whose
      time Deadline shows. */
  lemma {:induction false} OnePerKey(es: seq<Event>, t: nat, u: nat)
    requires AllFresh(EMPTY, es)
    requires var s := Run(EMPTY, es); t in s.waiting && u in s.waiting && s.waiting[t].key == s.waiting[u].key
    ensures t == u
    ensures var s := Run(EMPTY, es); s.waiting[t].key in s.pending && s.pending[s.waiting[t].key].at == s.waiting[t].at
  {
    RunCoherent(EMPTY, es);
  }

  /** In every such run a callback forgets its own entry and no other: one put in its
      place while it waited for the lock has another time, and survives. */
  lemma {:induction false} NewerEntrySurvives(es: seq<Event>, token: nat)
    requires AllFresh(EMPTY, es) && token in Run(EMPTY, es).launched
    requires Run(EMPTY, es).launched[token].key in Run(EMPTY, es).pending
    ensures var s := Run(EMPTY, es);
            var key := s.launched[token].key;
            var own := s.pending[key].token == token;
            && (own <==> s.pending[key].at == s.launched[token].at)
            && Fired(s, token).pending == if own then s.pending - {key} else s.pending
  {
    RunCoherent(EMPTY, es);
  }

  /** The failing case happens: a deadline set again to the instant that is just
      firing is lost from the table, though its timer still runs. */
  lemma {:induction false} SameInstantForgets()
    ensures var es := [Schedule("BTC", 5), Launch(0), Schedule("BTC", 5), Fire(0)];
            var s := Run(EMPTY, es);
            "BTC" !in s.pending && 1 in s.waiting && !AllFresh(EMPTY, es)
  {
    var a := Step(EMPTY, Schedule("BTC", 5));
    var b := Step(a, Launch(0));
    var c := Step(b, Schedule("BTC", 5));
    var d := Step(c, Fire(0));
    var es := [Schedule("BTC", 5), Launch(0), Schedule("BTC", 5), Fire(0)];
    assert es[1..] == [Launch(0), Schedule("BTC", 5), Fire(0)];
    assert es[1..][1..] == [Schedule("BTC", 5), Fire(0)];
    assert es[1..][1..][1..] == [Fire(0)];
    assert es[1..][1..][1..][1..] == [];
    assert Run(EMPTY, es) == d;
    assert b.launched[0] == Callback("BTC", 5);
    assert !Fresh(b, es[2]);
  }

  /** What scheduling and cancelling a key do: the new callback waits and shows, whatever
      waited for the key does not any more, and no other key is touched. */
  lemma {:induction false} KeyMeans(s: State, key: string, at: int, other: string)
    requires Coherent(s) && other != key
    ensures var t := Step(s, Schedule(key, at));
            && key in t.pending && t.pending[key].at == at
            && (forall x :: x in t.waiting && t.waiting[x].key == key ==> x == t.pending[key].token && t.waiting[x].at == at)
            && t.pending[key].token in t.waiting
            && (other in t.pending <==> other in s.pending) && (other in s.pending ==> t.pending[other] == s.pending[other])
            && (forall x :: x in s.waiting && s.waiting[x].key == other ==> x in t.waiting && t.waiting[x] == s.waiting[x])
    ensures var t := Step(s, Cancel(key));
            && key !in t.pending && (forall x :: x in t.waiting ==> t.waiting[x].key != key)
            && (other in t.pending <==> other in s.pending) && (other in s.pending ==> t.pending[other] == s.pending[other])
            && (forall x :: x in s.waiting && s.waiting[x].key == other ==> x in t.waiting && t.waiting[x] == s.waiting[x])
  {
  }
}
