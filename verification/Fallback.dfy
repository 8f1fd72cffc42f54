/**
 A chain of providers: each model is asked what every earlier one failed on. One result per
 request comes back whatever the providers return, even the wrong number of results.
 */
module Fallback {
  import opened Wrappers

  type Request = string

  type Outcome = Result<string, string>

  /** A provider, and what it returns for a batch: one outcome per request if it keeps its
      promise, any number if it does not. */
  datatype Provider = Provider(id: string, complete: seq<Request> -> seq<Outcome>)

  /** One call of the chain: which requests were sent, and what came of each. */
  datatype Call = Call(asked: seq<nat>, outcomes: seq<Outcome>)

  /** Too few results are padded with errors, too many are cut. */
  function Resized(outcomes: seq<Outcome>, sent: nat, id: string): (r: seq<Outcome>)
    ensures |r| == sent
    ensures forall i :: 0 <= i < sent ==>
      r[i] == if i < |outcomes| then outcomes[i] else Err(id + " returned the wrong number of results")
  {
    seq(sent, i requires 0 <= i < sent => if i < |outcomes| then outcomes[i] else Err(id + " returned the wrong number of results"))
  }

  ghost predicate Within(asked: seq<nat>, n: nat) {
    forall p :: 0 <= p < |asked| ==> asked[p] < n
  }

  function Batch(requests: seq<Request>, asked: seq<nat>): (b: seq<Request>)
    requires forall p :: 0 <= p < |asked| ==> asked[p] < |requests|
    ensures |b| == |asked| && forall p :: 0 <= p < |asked| ==> b[p] == requests[asked[p]]
  {
    seq(|asked|, p requires 0 <= p < |asked| => requests[asked[p]])
  }

  /** The requests a call left unanswered, in order. */
  function Failures(asked: seq<nat>, outcomes: seq<Outcome>): seq<nat>
    requires |asked| == |outcomes|
  {
    if asked == [] then []
    else
      var n := |asked| - 1;
      Failures(asked[..n], outcomes[..n]) + if outcomes[n].Err? then [asked[n]] else []
  }

  function Indices(n: nat): (r: seq<nat>)
    ensures |r| == n && forall i :: 0 <= i < n ==> r[i] == i
  {
    seq(n, i => i)
  }

  /** What model `rank` is asked: everything first, then what the model before it failed on. */
  ghost predicate IsCall(models: seq<Provider>, requests: seq<Request>, calls: seq<Call>, rank: nat)
    requires rank < |calls| <= |models|
  {
    var call := calls[rank];
    && |call.outcomes| == |call.asked| && Within(call.asked, |requests|)
    && call.outcomes == Resized(models[rank].complete(Batch(requests, call.asked)), |call.asked|, models[rank].id)
    && (rank == 0 ==> call.asked == Indices(|requests|))
    && (rank > 0 ==> |calls[rank - 1].asked| == |calls[rank - 1].outcomes|
                     && call.asked == Failures(calls[rank - 1].asked, calls[rank - 1].outcomes))
  }

  ghost predicate IsChain(models: seq<Provider>, requests: seq<Request>, calls: seq<Call>) {
    |calls| <= |models| && forall rank :: 0 <= rank < |calls| ==> IsCall(models, requests, calls, rank)
  }

  /** The outcome model `rank` gave for request `i`. */
  ghost predicate Gave(calls: seq<Call>, rank: nat, i: nat, outcome: Outcome)
    requires rank < |calls| && |calls[rank].asked| == |calls[rank].outcomes|
  {
    exists p :: 0 <= p < |calls[rank].asked| && calls[rank].asked[p] == i && calls[rank].outcomes[p] == outcome
  }

  /** Some model gave this outcome, and it is final: a success, or the last model's error. */
  ghost predicate Final(models: seq<Provider>, requests: seq<Request>, calls: seq<Call>, i: nat, outcome: Outcome)
    requires IsChain(models, requests, calls)
  {
    exists rank {:trigger Gave(calls, rank, i, outcome)} ::
      0 <= rank < |calls| && IsCall(models, requests, calls, rank) && Gave(calls, rank, i, outcome)
      && (outcome.Ok? || rank == |models| - 1)
  }

  ghost predicate Ascending(s: seq<nat>) {
    forall p, q :: 0 <= p < q < |s| ==> s[p] < s[q]
  }

  ghost predicate Failed(asked: seq<nat>, outcomes: seq<Outcome>, i: nat)
    requires |asked| == |outcomes|
  {
    exists p :: 0 <= p < |asked| && asked[p] == i && outcomes[p].Err?
  }

  lemma {:induction false} FailuresAreThose(asked: seq<nat>, outcomes: seq<Outcome>, i: nat)
    requires |asked| == |outcomes| && Ascending(asked)
    ensures i in Failures(asked, outcomes) <==> Failed(asked, outcomes, i)
  {
    if asked != [] {
      var n := |asked| - 1;
      FailuresAreThose(asked[..n], outcomes[..n], i);
      if p :| 0 <= p < n && asked[..n][p] == i && outcomes[..n][p].Err? {
        assert asked[p] == i && outcomes[p].Err?;
      }
      if p :| 0 <= p < |asked| && asked[p] == i && outcomes[p].Err? {
        assert p < n ==> asked[..n][p] == i && outcomes[..n][p].Err?;
      }
    }
  }

  lemma {:induction false} FailuresAscend(asked: seq<nat>, outcomes: seq<Outcome>, bound: nat)
    requires |asked| == |outcomes| && Ascending(asked) && Within(asked, bound)
    ensures Ascending(Failures(asked, outcomes)) && Within(Failures(asked, outcomes), bound)
  {
    if asked != [] {
      var n := |asked| - 1;
      assert Within(asked[..n], asked[n]);
      FailuresAscend(asked[..n], outcomes[..n], asked[n]);
    }
  }

  // ---- the chain ----

  /** What the last call leaves to ask. */
  ghost predicate Pends(models: seq<Provider>, requests: seq<Request>, calls: seq<Call>, pending: seq<nat>)
    requires 0 < |calls| <= |models|
  {
    && IsCall(models, requests, calls, |calls| - 1)
    && (|calls| < |models| ==> pending == Failures(calls[|calls| - 1].asked, calls[|calls| - 1].outcomes))
    && (|calls| == |models| ==> pending == [])
  }

  /** After some calls: the unanswered requests are pending, the others have their final outcome. */
  ghost predicate Progress(
    models: seq<Provider>, requests: seq<Request>, calls: seq<Call>, slots: seq<Option<Outcome>>, pending: seq<nat>)
  {
    && IsChain(models, requests, calls)
    && |slots| == |requests| && Ascending(pending) && Within(pending, |requests|)
    && (if calls == [] then pending == Indices(|requests|) else Pends(models, requests, calls, pending))
    && (forall i {:trigger slots[i]} :: 0 <= i < |requests| ==>
          if i in pending then slots[i] == None
          else slots[i].Some? && Final(models, requests, calls, i, slots[i].value))
  }

  lemma ChainGrows(models: seq<Provider>, requests: seq<Request>, calls: seq<Call>, call: Call)
    requires IsChain(models, requests, calls) && |calls| < |models| && IsCall(models, requests, calls + [call], |calls|)
    ensures IsChain(models, requests, calls + [call])
  {
    var more := calls + [call];
    forall rank | 0 <= rank < |more| ensures IsCall(models, requests, more, rank) {
      if rank < |calls| {
        assert IsCall(models, requests, calls, rank);
        assert more[rank] == calls[rank] && (rank > 0 ==> more[rank - 1] == calls[rank - 1]);
      }
    }
  }

  lemma FinalStays(models: seq<Provider>, requests: seq<Request>, calls: seq<Call>, call: Call, i: nat, outcome: Outcome)
    requires IsChain(models, requests, calls) && IsChain(models, requests, calls + [call]) && Final(models, requests, calls, i, outcome)
    ensures Final(models, requests, calls + [call], i, outcome)
  {
    var rank :| 0 <= rank < |calls| && IsCall(models, requests, calls, rank) && Gave(calls, rank, i, outcome)
                && (outcome.Ok? || rank == |models| - 1);
    var more := calls + [call];
    assert more[rank] == calls[rank];
    assert IsCall(models, requests, more, rank) && Gave(more, rank, i, outcome);
  }

  lemma OneMoreFailure(asked: seq<nat>, outcomes: seq<Outcome>, p: nat)
    requires p < |asked| == |outcomes|
    ensures Failures(asked[..p + 1], outcomes[..p + 1])
         == if outcomes[p].Err? then Failures(asked[..p], outcomes[..p]) + [asked[p]] else Failures(asked[..p], outcomes[..p])
  {
    assert asked[..p + 1][..p] == asked[..p] && outcomes[..p + 1][..p] == outcomes[..p];
  }

  /** The slots after the first `p` outcomes of a call. */
  ghost predicate Routed(
    asked: seq<nat>, outcomes: seq<Outcome>, last: bool, slots: seq<Option<Outcome>>, p: nat, after: seq<Option<Outcome>>)
    requires p <= |asked| == |outcomes| && Within(asked, |slots|)
  {
    && |after| == |slots|
    && (forall i :: 0 <= i < |slots| && (forall q :: 0 <= q < p ==> asked[q] != i) ==> after[i] == slots[i])
    && (forall q :: 0 <= q < p ==> after[asked[q]] == if outcomes[q].Ok? || last then Some(outcomes[q]) else slots[asked[q]])
  }

  lemma RouteStep(
    asked: seq<nat>, outcomes: seq<Outcome>, last: bool, slots: seq<Option<Outcome>>, p: nat, after: seq<Option<Outcome>>)
    requires p < |asked| == |outcomes| && Ascending(asked) && Within(asked, |slots|)
    requires Routed(asked, outcomes, last, slots, p, after)
    ensures Routed(asked, outcomes, last, slots, p + 1,
                   if outcomes[p].Ok? || last then after[asked[p] := Some(outcomes[p])] else after)
  {
    assert after[asked[p]] == slots[asked[p]];
  }

  lemma AllRouted(asked: seq<nat>, outcomes: seq<Outcome>, last: bool, slots: seq<Option<Outcome>>, after: seq<Option<Outcome>>)
    requires |asked| == |outcomes| && Within(asked, |slots|) && Routed(asked, outcomes, last, slots, |asked|, after)
    ensures |after| == |slots|
    ensures forall i :: 0 <= i < |slots| && i !in asked ==> after[i] == slots[i]
    ensures forall p :: 0 <= p < |asked| ==>
      after[asked[p]] == if outcomes[p].Ok? || last then Some(outcomes[p]) else slots[asked[p]]
  {
  }

  /** Sorts one call's outcomes: answers into their slots, failures to the next model. */
  method Route(asked: seq<nat>, outcomes: seq<Outcome>, last: bool, slots: seq<Option<Outcome>>)
    returns (after: seq<Option<Outcome>>, stillPending: seq<nat>)
    requires |asked| == |outcomes| && Ascending(asked) && Within(asked, |slots|)
    ensures |after| == |slots|
    ensures stillPending == if last then [] else Failures(asked, outcomes)
    ensures forall i :: 0 <= i < |slots| && i !in asked ==> after[i] == slots[i]
    ensures forall p :: 0 <= p < |asked| ==>
      after[asked[p]] == if outcomes[p].Ok? || last then Some(outcomes[p]) else slots[asked[p]]
  {
    after, stillPending := slots, [];
    assert asked[..0] == [] && outcomes[..0] == [] && Failures([], []) == [];
    assert forall p :: 0 <= p < |asked| ==> asked[p] < |slots|;
    assert Routed(asked, outcomes, last, slots, 0, after);
    hide *;
    for p := 0 to |asked|
      invariant |after| == |slots| && Routed(asked, outcomes, last, slots, p, after)
      invariant stillPending == if last then [] else Failures(asked[..p], outcomes[..p])
    {
      OneMoreFailure(asked, outcomes, p);
      RouteStep(asked, outcomes, last, slots, p, after);
      if outcomes[p].Ok? || last {
        after := after[asked[p] := Some(outcomes[p])];
      } else {
        stillPending := stillPending + [asked[p]];
      }
    }
    assert asked[..|asked|] == asked && outcomes[..|asked|] == outcomes;
    AllRouted(asked, outcomes, last, slots, after);
  }

  lemma CallMade(
    models: seq<Provider>, requests: seq<Request>, calls: seq<Call>, slots: seq<Option<Outcome>>, pending: seq<nat>,
    outcomes: seq<Outcome>)
    requires Progress(models, requests, calls, slots, pending) && |calls| < |models|
    requires outcomes == Resized(models[|calls|].complete(Batch(requests, pending)), |pending|, models[|calls|].id)
    ensures IsChain(models, requests, calls + [Call(pending, outcomes)])
  {
    var more := calls + [Call(pending, outcomes)];
    assert more[|calls|] == Call(pending, outcomes) && (|calls| > 0 ==> more[|calls| - 1] == calls[|calls| - 1]);
    ChainGrows(models, requests, calls, Call(pending, outcomes));
  }

  lemma SlotOf(pending: seq<nat>, p: nat)
    requires Ascending(pending) && p < |pending|
    ensures forall q :: 0 <= q < |pending| && pending[q] == pending[p] ==> q == p
  {
  }

  lemma OneMoreSlot(
    models: seq<Provider>, requests: seq<Request>, calls: seq<Call>, slots: seq<Option<Outcome>>, pending: seq<nat>,
    outcomes: seq<Outcome>, after: seq<Option<Outcome>>, still: seq<nat>, i: nat)
    requires Progress(models, requests, calls, slots, pending) && |calls| < |models| && |outcomes| == |pending|
    requires IsChain(models, requests, calls + [Call(pending, outcomes)])
    requires |after| == |slots| && i < |requests|
    requires still == if |calls| + 1 == |models| then [] else Failures(pending, outcomes)
    requires i !in pending ==> after[i] == slots[i]
    requires forall p :: 0 <= p < |pending| ==>
      after[pending[p]] == if outcomes[p].Ok? || |calls| + 1 == |models| then Some(outcomes[p]) else slots[pending[p]]
    ensures if i in still then after[i] == None
            else after[i].Some? && Final(models, requests, calls + [Call(pending, outcomes)], i, after[i].value)
  {
    var call, n := Call(pending, outcomes), |calls|;
    var more := calls + [call];
    FailuresAreThose(pending, outcomes, i);
    if i in pending {
      var p :| 0 <= p < |pending| && pending[p] == i;
      SlotOf(pending, p);
      assert Failed(pending, outcomes, i) <==> outcomes[p].Err?;
      if i !in still {
        assert IsCall(models, requests, more, n) && more[n] == call;
        assert Gave(more, n, i, outcomes[p]);
      }
    } else {
      assert slots[i].Some?;
      FinalStays(models, requests, calls, call, i, slots[i].value);
    }
  }

  lemma OneMoreCall(
    models: seq<Provider>, requests: seq<Request>, calls: seq<Call>, slots: seq<Option<Outcome>>, pending: seq<nat>,
    outcomes: seq<Outcome>, after: seq<Option<Outcome>>, still: seq<nat>)
    requires Progress(models, requests, calls, slots, pending) && |calls| < |models|
    requires outcomes == Resized(models[|calls|].complete(Batch(requests, pending)), |pending|, models[|calls|].id)
    requires |after| == |slots|
    requires still == if |calls| + 1 == |models| then [] else Failures(pending, outcomes)
    requires forall i :: 0 <= i < |slots| && i !in pending ==> after[i] == slots[i]
    requires forall p :: 0 <= p < |pending| ==>
      after[pending[p]] == if outcomes[p].Ok? || |calls| + 1 == |models| then Some(outcomes[p]) else slots[pending[p]]
    ensures Progress(models, requests, calls + [Call(pending, outcomes)], after, still)
  {
    var call, n := Call(pending, outcomes), |calls|;
    var more := calls + [call];
    CallMade(models, requests, calls, slots, pending, outcomes);
    assert IsCall(models, requests, more, n);
    FailuresAscend(pending, outcomes, |requests|);
    forall i | 0 <= i < |requests|
      ensures if i in still then after[i] == None else after[i].Some? && Final(models, requests, more, i, after[i].value)
    {
      OneMoreSlot(models, requests, calls, slots, pending, outcomes, after, still, i);
    }
  }

  lemma NothingAskedYet(models: seq<Provider>, requests: seq<Request>, calls: seq<Call>)
    requires calls == []
    ensures Progress(models, requests, calls, seq(|requests|, _ => None), Indices(|requests|))
  {
    forall i | 0 <= i < |requests| ensures i in Indices(|requests|) {
      assert Indices(|requests|)[i] == i;
    }
  }

  /** Nothing more to ask. */
  ghost predicate Exhausted(models: seq<Provider>, requests: seq<Request>, calls: seq<Call>)
    requires IsChain(models, requests, calls)
  {
    || |calls| == |models|
    || (calls == [] && requests == [])
    || (calls != [] && IsCall(models, requests, calls, |calls| - 1)
        && Failures(calls[|calls| - 1].asked, calls[|calls| - 1].outcomes) == [])
  }

  lemma NothingPending(models: seq<Provider>, requests: seq<Request>, calls: seq<Call>, slots: seq<Option<Outcome>>, pending: seq<nat>)
    requires Progress(models, requests, calls, slots, pending) && (pending == [] || |calls| == |models| > 0)
    ensures IsChain(models, requests, calls) && Exhausted(models, requests, calls) && |slots| == |requests|
    ensures forall i :: 0 <= i < |requests| ==> slots[i].Some? && Final(models, requests, calls, i, slots[i].value)
  {
    if calls == [] {
      assert |Indices(|requests|)| == |requests|;
    }
  }

  lemma PendingAsks(models: seq<Provider>, requests: seq<Request>, calls: seq<Call>, slots: seq<Option<Outcome>>, pending: seq<nat>)
    requires Progress(models, requests, calls, slots, pending)
    ensures |slots| == |requests| && Ascending(pending) && Within(pending, |requests|)
    ensures forall p :: 0 <= p < |pending| ==> pending[p] < |requests|
  {
  }

  method Unwrap(slots: seq<Option<Outcome>>) returns (results: seq<Outcome>)
    ensures |results| == |slots|
    ensures forall i :: 0 <= i < |slots| ==>
      results[i] == if slots[i].Some? then slots[i].value else Err("no model answered the request")
  {
    results := [];
    for i := 0 to |slots|
      invariant |results| == i
      invariant forall j :: 0 <= j < i ==>
        results[j] == if slots[j].Some? then slots[j].value else Err("no model answered the request")
    {
      results := results + [if slots[i].Some? then slots[i].value else Err("no model answered the request")];
    }
  }

  /**
   Results match requests in number and order. Each is one a model gave: the first success
   down the chain, else the last model's error. `calls` says who was asked what: each model, once,
   exactly what every model before it failed on, in order.
   */
  method Complete(models: seq<Provider>, requests: seq<Request>) returns (results: seq<Outcome>, calls: seq<Call>)
    requires models != []
    ensures |results| == |requests| && IsChain(models, requests, calls) && Exhausted(models, requests, calls)
    ensures forall i :: 0 <= i < |requests| ==> Final(models, requests, calls, i, results[i])
  {
    var slots: seq<Option<Outcome>> := seq(|requests|, _ => None);
    var pending := Indices(|requests|);
    calls := [];
    NothingAskedYet(models, requests, calls);
    hide Progress, IsChain, IsCall, Final, Gave, Exhausted, Failures;
    for rank := 0 to |models|
      invariant |calls| == rank && Progress(models, requests, calls, slots, pending)
    {
      if pending == [] {
        break;
      }
      PendingAsks(models, requests, calls, slots, pending);
      var model := models[rank];
      var outcomes := model.complete(Batch(requests, pending));
      outcomes := Resized(outcomes, |pending|, model.id);
      var after, still := Route(pending, outcomes, rank + 1 == |models|, slots);
      OneMoreCall(models, requests, calls, slots, pending, outcomes, after, still);
      calls := calls + [Call(pending, outcomes)];
      slots, pending := after, still;
    }
    NothingPending(models, requests, calls, slots, pending);
    results := Unwrap(slots);
  }

  lemma {:induction false} CallsAscend(models: seq<Provider>, requests: seq<Request>, calls: seq<Call>, rank: nat)
    requires IsChain(models, requests, calls) && rank < |calls|
    ensures Ascending(calls[rank].asked)
  {
    assert IsCall(models, requests, calls, rank);
    if rank > 0 {
      assert IsCall(models, requests, calls, rank - 1);
      CallsAscend(models, requests, calls, rank - 1);
      FailuresAscend(calls[rank - 1].asked, calls[rank - 1].outcomes, |requests|);
    }
  }

  lemma NextAsked(models: seq<Provider>, requests: seq<Request>, calls: seq<Call>, later: nat)
    requires IsChain(models, requests, calls) && 0 < later < |calls|
    ensures
      var before := calls[later - 1];
      && |before.asked| == |before.outcomes| && Ascending(before.asked)
      && calls[later].asked == Failures(before.asked, before.outcomes)
  {
    assert IsCall(models, requests, calls, later) && IsCall(models, requests, calls, later - 1);
    CallsAscend(models, requests, calls, later - 1);
  }

  /** A success settles a request: no later model is asked it again. */
  lemma {:induction false} NeverAskedAgain(
    models: seq<Provider>, requests: seq<Request>, calls: seq<Call>, rank: nat, later: nat, i: nat, outcome: Outcome)
    requires IsChain(models, requests, calls) && rank < later < |calls| && |calls[rank].asked| == |calls[rank].outcomes|
    requires outcome.Ok? && Gave(calls, rank, i, outcome)
    ensures i !in calls[later].asked
    decreases later
  {
    NextAsked(models, requests, calls, later);
    hide IsChain, IsCall, Failures, Ascending;
    var before := calls[later - 1];
    FailuresAreThose(before.asked, before.outcomes, i);
    if later == rank + 1 {
      var p :| 0 <= p < |before.asked| && before.asked[p] == i && before.outcomes[p] == outcome;
      SlotOf(before.asked, p);
    } else {
      NeverAskedAgain(models, requests, calls, rank, later - 1, i, outcome);
    }
  }
}
