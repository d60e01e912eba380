/** The in-process event bus (`app/events/bus.py`). Handlers run concurrently: at every step any coroutine may
    start or finish, in whatever way it ends, and any handler may subscribe further ones. */
module Events {
  import opened Types

  /** A subscribed function. */
  type Handler = nat

  /** How a coroutine ends; a cancellation is no `Exception`. */
  datatype Outcome = Returned | Failed | Cancelled

  /** One moment of a dispatch: the coroutine of the handler at a position of the event's list. */
  datatype Entry = Started(event: nat, slot: nat) | Finished(event: nat, slot: nat, outcome: Outcome)

  // ---- what a trace says ---------------------------------------------------------------------------

  function Starts(trace: seq<Entry>, event: nat, slot: nat): nat {
    multiset(trace)[Started(event, slot)]
  }

  function Finishes(trace: seq<Entry>, event: nat, slot: nat): nat {
    multiset(trace)[Finished(event, slot, Returned)] + multiset(trace)[Finished(event, slot, Failed)]
    + multiset(trace)[Finished(event, slot, Cancelled)]
  }

  /** A coroutine finishes only after it has started. */
  ghost predicate Causal(trace: seq<Entry>) {
    forall q :: 0 <= q < |trace| && trace[q].Finished? ==> Started(trace[q].event, trace[q].slot) in trace[..q]
  }

  /** Everything in the trace concerns this event and the positions of its list. */
  ghost predicate Within(trace: seq<Entry>, event: nat, n: nat) {
    forall e :: e in trace ==> e.event == event && e.slot < n
  }

  /** No entry of an event comes before an entry of an earlier one. */
  ghost predicate InEventOrder(trace: seq<Entry>) {
    forall p, q :: 0 <= p < q < |trace| ==> trace[p].event <= trace[q].event
  }

  /** Each of the n coroutines of the event starts once and finishes once. */
  ghost predicate OnceEach(trace: seq<Entry>, event: nat, n: nat) {
    forall k :: 0 <= k < n ==> Starts(trace, event, k) == 1 && Finishes(trace, event, k) == 1
  }

  lemma CountsAppend(trace: seq<Entry>, e: Entry, event: nat, slot: nat)
    ensures Starts(trace + [e], event, slot)
            == Starts(trace, event, slot) + (if e == Started(event, slot) then 1 else 0)
    ensures Finishes(trace + [e], event, slot) ==
            Finishes(trace, event, slot) + (if e.Finished? && e.event == event && e.slot == slot then 1 else 0)
  {
    assert multiset(trace + [e]) == multiset(trace) + multiset{e};
    if e.Finished? {
      match e.outcome
      case Returned =>
      case Failed =>
      case Cancelled =>
    }
  }

  lemma CountsConcat(a: seq<Entry>, b: seq<Entry>, event: nat, slot: nat)
    ensures Starts(a + b, event, slot) == Starts(a, event, slot) + Starts(b, event, slot)
    ensures Finishes(a + b, event, slot) == Finishes(a, event, slot) + Finishes(b, event, slot)
  {
    assert multiset(a + b) == multiset(a) + multiset(b);
  }

  lemma NoneElsewhere(trace: seq<Entry>, event: nat, slot: nat)
    requires forall e :: e in trace ==> e.event != event || e.slot != slot
    ensures Starts(trace, event, slot) == 0 && Finishes(trace, event, slot) == 0
  {
    assert Started(event, slot) !in trace;
    assert Finished(event, slot, Returned) !in trace;
    assert Finished(event, slot, Failed) !in trace;
    assert Finished(event, slot, Cancelled) !in trace;
  }

  lemma CausalConcat(a: seq<Entry>, b: seq<Entry>)
    requires Causal(a) && Causal(b)
    ensures Causal(a + b)
  {
    forall q | 0 <= q < |a + b| && (a + b)[q].Finished?
      ensures Started((a + b)[q].event, (a + b)[q].slot) in (a + b)[..q]
    {
      if q < |a| {
        assert (a + b)[..q] == a[..q];
      } else {
        assert (a + b)[..q] == a + b[..q - |a|];
      }
    }
  }

  /** The positions whose outcome is an `Exception`, in order. */
  function FailedSlots(results: seq<Outcome>): seq<nat> {
    if results == [] then []
    else FailedSlots(results[..|results| - 1]) + if results[|results| - 1].Failed? then [|results| - 1] else []
  }

  /** They are exactly the failed positions, each once. */
  lemma {:induction false} FailedSlotsExactly(results: seq<Outcome>)
    ensures forall k: nat :: k in FailedSlots(results) <==> k < |results| && results[k].Failed?
  {
    if results != [] {
      var n := |results| - 1;
      var rest := results[..n];
      FailedSlotsExactly(rest);
      forall k: nat
        ensures k in FailedSlots(results) <==> k < |results| && results[k].Failed?
      {
        assert k in FailedSlots(rest) <==> k < n && rest[k].Failed?;
        assert k in FailedSlots(results) <==> k in FailedSlots(rest) || (k == n && results[n].Failed?);
      }
    }
  }

  lemma {:induction false} FailedSlotsIncrease(results: seq<Outcome>)
    ensures forall i, j :: 0 <= i < j < |FailedSlots(results)| ==> FailedSlots(results)[i] < FailedSlots(results)[j]
  {
    if results != [] {
      var n := |results| - 1;
      var slots := FailedSlots(results[..n]);
      FailedSlotsIncrease(results[..n]);
      FailedSlotsExactly(results[..n]);
      assert forall i :: 0 <= i < |slots| ==> slots[i] in slots;
    }
  }

  // ---- one coroutine's step ------------------------------------------------------------------------

  /** Where each of the n coroutines of the event stands: not started, started, or finished. */
  ghost predicate Progress(trace: seq<Entry>, event: nat, n: nat, ready: set<nat>, running: set<nat>) {
    && Within(trace, event, n) && Causal(trace) && ready !! running
    && (forall k :: k in ready ==> k < n) && (forall k :: k in running ==> k < n)
    && (forall k :: 0 <= k < n ==>
         && Starts(trace, event, k) == (if k in ready then 0 else 1)
         && Finishes(trace, event, k) == (if k in ready || k in running then 0 else 1))
  }

  lemma CausalAppend(trace: seq<Entry>, e: Entry)
    requires Causal(trace) && (e.Finished? ==> Started(e.event, e.slot) in trace)
    ensures Causal(trace + [e])
  {
    var t := trace + [e];
    forall q | 0 <= q < |t| && t[q].Finished?
      ensures Started(t[q].event, t[q].slot) in t[..q]
    {
      if q < |trace| {
        assert t[..q] == trace[..q];
      } else {
        assert t[..q] == trace;
      }
    }
  }

  lemma StartProgress(trace: seq<Entry>, event: nat, n: nat, ready: set<nat>, running: set<nat>, slot: nat)
    requires Progress(trace, event, n, ready, running) && slot in ready
    ensures Progress(trace + [Started(event, slot)], event, n, ready - {slot}, running + {slot})
  {
    var trace', ready', running' := trace + [Started(event, slot)], ready - {slot}, running + {slot};
    CausalAppend(trace, Started(event, slot));
    forall k | 0 <= k < n
      ensures Starts(trace', event, k) == (if k in ready' then 0 else 1)
      ensures Finishes(trace', event, k) == (if k in ready' || k in running' then 0 else 1)
    {
      CountsAppend(trace, Started(event, slot), event, k);
    }
  }

  lemma FinishProgress(
    trace: seq<Entry>, event: nat, n: nat, ready: set<nat>, running: set<nat>, slot: nat, outcome: Outcome)
    requires Progress(trace, event, n, ready, running) && slot in running
    ensures Progress(trace + [Finished(event, slot, outcome)], event, n, ready, running - {slot})
  {
    var trace', running' := trace + [Finished(event, slot, outcome)], running - {slot};
    assert Starts(trace, event, slot) == 1;
    assert Started(event, slot) in trace;
    CausalAppend(trace, Finished(event, slot, outcome));
    forall k | 0 <= k < n
      ensures Starts(trace', event, k) == (if k in ready then 0 else 1)
      ensures Finishes(trace', event, k) == (if k in ready || k in running' then 0 else 1)
    {
      CountsAppend(trace, Finished(event, slot, outcome), event, k);
    }
  }

  /** No coroutine has started yet. */
  lemma NoProgress(event: nat, n: nat)
    ensures Progress([], event, n, UpTo(n), {})
  {
    forall k | 0 <= k < n {
      NoneElsewhere([], event, k);
    }
  }

  function UpTo(n: nat): (r: set<nat>)
    ensures forall k: nat :: k in r <==> k < n
  {
    if n == 0 then {} else UpTo(n - 1) + {n - 1}
  }

  /** The outcomes of the finished coroutines are in the trace. */
  ghost predicate Reported(trace: seq<Entry>, event: nat, unfinished: set<nat>, outcomes: seq<Outcome>) {
    forall k :: 0 <= k < |outcomes| && k !in unfinished ==> Finished(event, k, outcomes[k]) in trace
  }

  lemma FinishReports(
    trace: seq<Entry>, event: nat, unfinished: set<nat>, outcomes: seq<Outcome>, slot: nat, outcome: Outcome)
    requires Reported(trace, event, unfinished, outcomes) && slot < |outcomes|
    ensures Reported(trace + [Finished(event, slot, outcome)], event, unfinished - {slot}, outcomes[slot := outcome])
  {
  }

  /** The state of `gather` between two steps of the event loop. */
  ghost predicate Gathering(
    trace: seq<Entry>, event: nat, n: nat, ready: set<nat>, running: set<nat>, outcomes: seq<Outcome>)
  {
    |outcomes| == n && Progress(trace, event, n, ready, running) && Reported(trace, event, ready + running, outcomes)
  }

  lemma StartGathers(
    trace: seq<Entry>, event: nat, n: nat, ready: set<nat>, running: set<nat>, outcomes: seq<Outcome>, slot: nat)
    requires Gathering(trace, event, n, ready, running, outcomes) && slot in ready
    ensures Gathering(trace + [Started(event, slot)], event, n, ready - {slot}, running + {slot}, outcomes)
    ensures |ready - {slot}| == |ready| - 1 && |running + {slot}| == |running| + 1
  {
    StartProgress(trace, event, n, ready, running, slot);
    assert ready - {slot} + (running + {slot}) == ready + running;
  }

  lemma Leaves(ready: set<nat>, running: set<nat>, slot: nat)
    requires ready !! running && slot in running
    ensures ready + (running - {slot}) == ready + running - {slot}
    ensures |running - {slot}| == |running| - 1
  {
  }

  lemma FinishGathers(trace: seq<Entry>, event: nat, n: nat, ready: set<nat>, running: set<nat>, outcomes: seq<Outcome>,
                      slot: nat, outcome: Outcome)
    requires Gathering(trace, event, n, ready, running, outcomes) && slot in running
    ensures Gathering(trace + [Finished(event, slot, outcome)], event, n, ready, running - {slot},
                      outcomes[slot := outcome])
    ensures |running - {slot}| == |running| - 1
  {
    FinishProgress(trace, event, n, ready, running, slot, outcome);
    FinishReports(trace, event, ready + running, outcomes, slot, outcome);
    Leaves(ready, running, slot);
  }

  /** One step of the event loop: any coroutine not yet started starts, or any started one finishes in any way. */
  method Advance(trace: seq<Entry>, event: nat, n: nat, ready: set<nat>, running: set<nat>, outcomes: seq<Outcome>)
    returns (trace': seq<Entry>, ready': set<nat>, running': set<nat>, outcomes': seq<Outcome>)
    requires Gathering(trace, event, n, ready, running, outcomes) && ready + running != {}
    ensures Gathering(trace', event, n, ready', running', outcomes')
    ensures 2 * |ready'| + |running'| < 2 * |ready| + |running|
  {
    var slot: nat :| slot in ready + running;
    if slot in ready {
      StartGathers(trace, event, n, ready, running, outcomes, slot);
      return trace + [Started(event, slot)], ready - {slot}, running + {slot}, outcomes;
    }
    var outcome: Outcome := *;
    FinishGathers(trace, event, n, ready, running, outcomes, slot, outcome);
    return trace + [Finished(event, slot, outcome)], ready, running - {slot}, outcomes[slot := outcome];
  }

  // ---- a dispatch, event by event ------------------------------------------------------------------

  /** The first `|sizes|` events have run: their coroutines once each, one event after the other. */
  ghost predicate Dispatched(trace: seq<Entry>, sizes: seq<nat>) {
    && (forall i :: 0 <= i < |sizes| ==> OnceEach(trace, i, sizes[i]))
    && (forall e :: e in trace ==> e.event < |sizes| && e.slot < sizes[e.event])
    && Causal(trace) && InEventOrder(trace)
  }

  lemma SegmentCounts(trace: seq<Entry>, sizes: seq<nat>, segment: seq<Entry>, n: nat, i: nat)
    requires Dispatched(trace, sizes) && Within(segment, |sizes|, n) && OnceEach(segment, |sizes|, n) && i <= |sizes|
    ensures OnceEach(trace + segment, i, (sizes + [n])[i])
  {
    forall k | 0 <= k < (sizes + [n])[i]
      ensures Starts(trace + segment, i, k) == 1 && Finishes(trace + segment, i, k) == 1
    {
      CountsConcat(trace, segment, i, k);
      if i < |sizes| {
        NoneElsewhere(segment, i, k);
      } else {
        NoneElsewhere(trace, i, k);
      }
    }
  }

  lemma SegmentDispatched(trace: seq<Entry>, sizes: seq<nat>, segment: seq<Entry>, n: nat)
    requires Dispatched(trace, sizes)
    requires Within(segment, |sizes|, n) && OnceEach(segment, |sizes|, n) && Causal(segment)
    ensures Dispatched(trace + segment, sizes + [n])
  {
    CausalConcat(trace, segment);
    forall i | 0 <= i < |sizes + [n]| {
      SegmentCounts(trace, sizes, segment, n, i);
    }
    forall p, q | 0 <= p < q < |trace + segment|
      ensures (trace + segment)[p].event <= (trace + segment)[q].event
    {
      assert (trace + segment)[p] in trace || (trace + segment)[p] in segment;
      assert q >= |trace| ==> (trace + segment)[q] in segment;
    }
  }

  // ---- the bus -------------------------------------------------------------------------------------

  function Registered(handlers: map<string, seq<Handler>>, name: string): seq<Handler> {
    if name in handlers then handlers[name] else []
  }

  /** Subscribing only appends. */
  ghost predicate Grown(before: map<string, seq<Handler>>, after: map<string, seq<Handler>>) {
    forall name :: Registered(before, name) <= Registered(after, name)
  }

  lemma GrownTransitive(a: map<string, seq<Handler>>, b: map<string, seq<Handler>>, c: map<string, seq<Handler>>)
    requires Grown(a, b) && Grown(b, c)
    ensures Grown(a, c)
  {
  }

  /** Each snapshot holds what was registered before the dispatch and nothing not registered after it. */
  ghost predicate Bracketed(before: map<string, seq<Handler>>, after: map<string, seq<Handler>>, events: seq<string>,
                            snapshots: seq<seq<Handler>>)
  {
    |snapshots| <= |events| &&
    forall i :: 0 <= i < |snapshots| ==> Registered(before, events[i]) <= snapshots[i] <= Registered(after, events[i])
  }

  lemma BracketGrows(a: map<string, seq<Handler>>, b: map<string, seq<Handler>>, c: map<string, seq<Handler>>,
                     events: seq<string>, snapshots: seq<seq<Handler>>)
    requires Bracketed(a, b, events, snapshots) && Grown(a, b) && Grown(b, c) && |snapshots| < |events|
    ensures Bracketed(a, c, events, snapshots + [Registered(b, events[|snapshots|])])
  {
    var more := snapshots + [Registered(b, events[|snapshots|])];
    forall i | 0 <= i < |more|
      ensures Registered(a, events[i]) <= more[i] <= Registered(c, events[i])
    {
      assert Registered(b, events[i]) <= Registered(c, events[i]);
    }
  }

  function Sizes(snapshots: seq<seq<Handler>>): (r: seq<nat>)
    ensures |r| == |snapshots| && forall i :: 0 <= i < |r| ==> r[i] == |snapshots[i]|
  {
    seq(|snapshots|, i requires 0 <= i < |snapshots| => |snapshots[i]|)
  }

  /** What a dispatch keeps from event to event, `before` its start and up to `after`. */
  ghost predicate Dispatching(before: map<string, seq<Handler>>, after: map<string, seq<Handler>>, events: seq<string>,
                              snapshots: seq<seq<Handler>>, trace: seq<Entry>)
  {
    Grown(before, after) && Bracketed(before, after, events, snapshots) && Dispatched(trace, Sizes(snapshots))
  }

  lemma NextDispatching(a: map<string, seq<Handler>>, b: map<string, seq<Handler>>, c: map<string, seq<Handler>>,
                        events: seq<string>, snapshots: seq<seq<Handler>>, trace: seq<Entry>, segment: seq<Entry>)
    requires Dispatching(a, b, events, snapshots, trace) && Grown(b, c) && |snapshots| < |events|
    requires var n := |Registered(b, events[|snapshots|])|;
             Within(segment, |snapshots|, n) && Causal(segment) && OnceEach(segment, |snapshots|, n)
    ensures Dispatching(a, c, events, snapshots + [Registered(b, events[|snapshots|])], trace + segment)
  {
    var snapshot := Registered(b, events[|snapshots|]);
    GrownTransitive(a, b, c);
    BracketGrows(a, b, c, events, snapshots);
    SegmentDispatched(trace, Sizes(snapshots), segment, |snapshot|);
    assert Sizes(snapshots + [snapshot]) == Sizes(snapshots) + [|snapshot|];
  }

  class EventBus {
    var handlers: map<string, seq<Handler>>

    constructor ()
      ensures handlers == map[]
    {
      handlers := map[];
    }

    method Subscribe(name: string, fn: Handler)
      modifies this
      ensures Registered(handlers, name) == Registered(old(handlers), name) + [fn]
      ensures forall other :: other != name ==> Registered(handlers, other) == Registered(old(handlers), other)
    {
      handlers := handlers[name := Registered(handlers, name) + [fn]];
    }

    /** Runs every handler registered at the call, once, in any interleaving, whatever way each ends;
        then logs exactly those that raised an `Exception`, in order. */
    method Publish(name: string, event: nat) returns (trace: seq<Entry>, logged: seq<nat>, results: seq<Outcome>)
      modifies this
      ensures Grown(old(handlers), handlers)
      ensures var n := |Registered(old(handlers), name)|;
              && Within(trace, event, n) && Causal(trace) && OnceEach(trace, event, n)
              && |results| == n && (forall k :: 0 <= k < n ==> Finished(event, k, results[k]) in trace)
              && logged == FailedSlots(results)
    {
      var snapshot := Registered(handlers, name);
      trace, logged, results := [], [], [];
      if snapshot == [] {
        return;
      }
      var outcomes: seq<Outcome>;
      trace, outcomes := Gather(|snapshot|, event);
      results := outcomes;
      for k := 0 to |outcomes|
        invariant logged == FailedSlots(outcomes[..k])
      {
        assert outcomes[..k + 1][..k] == outcomes[..k];
        if outcomes[k].Failed? {
          logged := logged + [k];
        }
      }
      assert outcomes[..|outcomes|] == outcomes;
    }

    /** `asyncio.gather(..., return_exceptions=True)` over n coroutines. */
    method Gather(n: nat, event: nat) returns (trace: seq<Entry>, outcomes: seq<Outcome>)
      modifies this
      ensures Grown(old(handlers), handlers)
      ensures Within(trace, event, n) && Causal(trace) && OnceEach(trace, event, n)
      ensures |outcomes| == n && forall k :: 0 <= k < n ==> Finished(event, k, outcomes[k]) in trace
    {
      var ready: set<nat>, running: set<nat> := UpTo(n), {};
      trace, outcomes := [], seq(n, _ => Returned);
      NoProgress(event, n);
      while ready + running != {}
        invariant Gathering(trace, event, n, ready, running, outcomes) && Grown(old(handlers), handlers)
        decreases 2 * |ready| + |running|
      {
        trace, ready, running, outcomes := Advance(trace, event, n, ready, running, outcomes);
        ghost var before := handlers;
        MaybeSubscribe();
        GrownTransitive(old(handlers), before, handlers);
      }
    }

    /** What a handler body may do to the bus while it runs. */
    method MaybeSubscribe()
      modifies this
      ensures Grown(old(handlers), handlers)
    {
      if * {
        var name: string, fn: Handler := *, *;
        Subscribe(name, fn);
      }
    }

    /** `dispatch_events`: returns normally; each handler registered when its event is published runs
        exactly once for it, and all handlers of an event have finished before any of the next starts. */
    method Dispatch(events: seq<string>) returns (trace: seq<Entry>, snapshots: seq<seq<Handler>>)
      modifies this
      ensures |snapshots| == |events| && Bracketed(old(handlers), handlers, events, snapshots)
      ensures Dispatched(trace, Sizes(snapshots))
    {
      trace, snapshots := [], [];
      for i := 0 to |events|
        invariant |snapshots| == i && Dispatching(old(handlers), handlers, events, snapshots, trace)
      {
        ghost var before := handlers;
        var snapshot := Registered(handlers, events[i]);
        var segment, _, _ := Publish(events[i], i);
        NextDispatching(old(handlers), before, handlers, events, snapshots, trace, segment);
        trace, snapshots := trace + segment, snapshots + [snapshot];
      }
    }
  }

  /** In a trace in event order every coroutine that finishes once for an event has finished before any coroutine of a
      later event starts. */
  lemma EventsDoNotOverlap(trace: seq<Entry>, i: nat, k: nat, q: nat)
    requires InEventOrder(trace) && Finishes(trace, i, k) == 1
    requires q < |trace| && trace[q].event > i
    ensures exists p :: 0 <= p < q && trace[p].Finished? && trace[p].event == i && trace[p].slot == k
  {
    var p := FinishOf(trace, i, k);
    assert trace[p].event == i && p != q;
  }

  lemma FinishOf(trace: seq<Entry>, i: nat, k: nat) returns (p: nat)
    requires Finishes(trace, i, k) >= 1
    ensures p < |trace| && trace[p].Finished? && trace[p].event == i && trace[p].slot == k
  {
    var e := if Finished(i, k, Returned) in trace then Finished(i, k, Returned)
             else if Finished(i, k, Failed) in trace then Finished(i, k, Failed)
             else Finished(i, k, Cancelled);
    assert e in trace;
    p :| 0 <= p < |trace| && trace[p] == e;
  }
}
