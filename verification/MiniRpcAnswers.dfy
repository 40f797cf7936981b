/**
 What the caller of `request` gets, told by requests and replies alone: under which id a call travels, in
 which order, and what its promise holds.
 */
module MiniRpcAnswers {
  import opened Prelude
  import opened MiniRpc
  import opened MiniRpcTheorems

  // ----- The answer to one call -----

  /** The promise rejects with the error member; without one it resolves with the result; with neither it
      rejects as unexpected, naming the method. */
  predicate Answers(outcome: Outcome, call: Call, body: Body) {
    && (body.error.Some? ==> outcome == Rejected(Remote(body.error.value)))
    && (body.error.None? && body.result.Some? ==> outcome == Resolved(body.result.value))
    && (body.error.None? && body.result.None? ==> outcome == Rejected(Unexpected(call.name)))
  }

  /** The first response for a pending id settles it, if the loop gets there: no foreign id comes before. */
  lemma {:induction false} FirstResponseDecides(
    byKey: map<nat, BatchItem>, list: seq<Response>, outcomes: map<nat, Outcome>, i: nat)
    requires i < |list| && list[i].Response? && list[i].id !in outcomes
    requires forall j :: 0 <= j <= i ==> list[j].Response? && list[j].id in byKey
    requires forall j :: 0 <= j < i ==> list[j].id != list[i].id
    ensures var id, after := list[i].id, Deliver(byKey, list, outcomes);
      id in after && Answers(after[id], byKey[id].call, list[i].body)
  {
    var r := list[0];
    var next := Settle(outcomes, r.id, OutcomeFor(byKey, r));
    if i == 0 {
      DeliverKeeps(byKey, list[1..], next);
    } else {
      FirstResponseDecides(byKey, list[1..], next, i - 1);
    }
  }

  /** A reply that arrives for a batch: the first response for each of its calls, up to a foreign id, settles
      that very call. */
  lemma ArrivalAnswers(s: Provider, flight: nat, list: seq<Response>, i: nat)
    requires Inv(s) && flight in s.inFlight && i < |list|
    requires forall j :: 0 <= j <= i ==> list[j].Response? && list[j].id in Ids(s.inFlight[flight])
    requires forall j :: 0 <= j < i ==> list[j].id != list[i].id
    ensures var id, t := list[i].id, Step(s, Arrive(flight, Responses(list)));
      1 <= id <= |s.issued| && id in t.outcomes && Answers(t.outcomes[id], s.issued[id - 1], list[i].body)
  {
    var items, id := s.inFlight[flight], list[i].id;
    ByKeyFinds(items, s.issued);
    FlyingIsUnsettled(s, flight);
    FirstResponseDecides(ByKey(items), list, s.outcomes, i);
    var k :| 0 <= k < |items| && items[k].id == id;
    assert ByKey(items)[items[k].id] == items[k];
  }

  /** A reply that cannot be iterated, or that starts with a foreign id, settles nothing: its whole batch stays
      unanswered. */
  lemma UnusableReplySettlesNothing(s: Provider, flight: nat, reply: Reply)
    requires Inv(s) && flight in s.inFlight
    requires reply.NotAList? || (reply.Responses? && reply.list != []
      && !(reply.list[0].Response? && reply.list[0].id in Ids(s.inFlight[flight])))
    ensures var t := Step(s, Arrive(flight, reply));
      && t.outcomes == s.outcomes
      && t.unanswered == s.unanswered + Ids(s.inFlight[flight])
      && t.inFlight == s.inFlight - {flight}
  {
    ByKeyFinds(s.inFlight[flight], s.issued);
    FlyingIsUnsettled(s, flight);
    var ids := Ids(s.inFlight[flight]);
    assert ids - s.outcomes.Keys == ids;
  }

  // ----- Ids are positions in the list of requested calls -----

  /** The calls that `request` puts in the queue, in the order of the requests. */
  function Requested(events: seq<Event>): seq<Call> {
    if events == [] then []
    else
      (if events[0].Request? && events[0].call.name != "eth_chainId" then [events[0].call] else [])
        + Requested(events[1..])
  }

  lemma {:induction false} IssuedAreRequested(s: Provider, events: seq<Event>)
    ensures Run(s, events).issued == s.issued + Requested(events)
    decreases |events|
  {
    if events != [] {
      IssuedAreRequested(Step(s, events[0]), events[1..]);
    }
  }

  /** The items carry the calls `from`, `from + 1`, ... of the list, under their ids. */
  ghost predicate Stretch(items: seq<BatchItem>, issued: seq<Call>, from: nat) {
    && from + |items| <= |issued|
    && forall i :: 0 <= i < |items| ==> items[i] == BatchItem(from + i + 1, issued[from + i])
  }

  ghost predicate IsStretch(items: seq<BatchItem>, issued: seq<Call>) {
    exists from: nat :: Stretch(items, issued, from)
  }

  /** The queue is the latest stretch of the requests, and each batch under way is an earlier one. */
  ghost predicate InOrder(s: Provider) {
    && s.nextId == |s.issued| + 1
    && |s.batch| <= |s.issued| && Stretch(s.batch, s.issued, |s.issued| - |s.batch|)
    && forall f :: f in s.inFlight ==> IsStretch(s.inFlight[f], s.issued)
  }

  lemma StretchLater(items: seq<BatchItem>, issued: seq<Call>, call: Call)
    requires IsStretch(items, issued)
    ensures IsStretch(items, issued + [call])
  {
    var from: nat :| Stretch(items, issued, from);
    assert Stretch(items, issued + [call], from);
  }

  lemma StepInOrder(s: Provider, e: Event)
    requires InOrder(s)
    ensures InOrder(Step(s, e))
  {
    var t := Step(s, e);
    if e.Request? && e.call.name != "eth_chainId" {
      forall f | f in t.inFlight
        ensures IsStretch(t.inFlight[f], t.issued)
      {
        StretchLater(s.inFlight[f], s.issued, e.call);
      }
    } else if e.Clear? || e.Fire? {
      assert IsStretch(s.batch, s.issued);
    }
  }

  lemma {:induction false} RunInOrder(s: Provider, events: seq<Event>)
    requires InOrder(s)
    ensures InOrder(Run(s, events))
    decreases |events|
  {
    if events != [] {
      StepInOrder(s, events[0]);
      RunInOrder(Step(s, events[0]), events[1..]);
    }
  }

  /** In every run, the k-th requested call travels under id k, and every batch, waiting or sent, is a stretch
      of consecutive requests in their order. */
  lemma BatchesFollowRequests(events: seq<Event>)
    ensures var s, calls := Run(Initial, events), Requested(events);
      && s.nextId == |calls| + 1
      && |s.batch| <= |calls| && Stretch(s.batch, calls, |calls| - |s.batch|)
      && (forall f :: f in s.inFlight ==> IsStretch(s.inFlight[f], calls))
  {
    RunInOrder(Initial, events);
    IssuedAreRequested(Initial, events);
    assert Initial.issued + Requested(events) == Requested(events);
  }

  // ----- Whole runs -----

  /** Once drained, with complete replies, the promise of the k-th requested call holds the error or the result
      that answers that call; no other promise was made. */
  lemma DrainedAnswersEveryRequest(answers: nat -> Body, events: seq<Event>)
    requires CompleteRun(answers, Initial, events)
    requires Drained(Run(Initial, events))
    ensures var outcomes, calls := Run(Initial, events).outcomes, Requested(events);
      && (forall id :: id in outcomes <==> 1 <= id <= |calls|)
      && (forall id :: 1 <= id <= |calls| ==> Answers(outcomes[id], calls[id - 1], answers(id)))
  {
    MultiplexerRefinesDirectCalls(answers, events);
    IssuedAreRequested(Initial, events);
    assert Initial.issued + Requested(events) == Requested(events);
  }

  /** And in any run whose replies answer honestly, whatever is lost or delayed, a settled promise holds the
      answer to its own call or a transport failure. */
  lemma SettledIsOwnAnswer(answers: nat -> Body, events: seq<Event>, id: nat)
    requires HonestRun(answers, Initial, events)
    requires id in Run(Initial, events).outcomes
    ensures var outcome, calls := Run(Initial, events).outcomes[id], Requested(events);
      1 <= id <= |calls| && (Answers(outcome, calls[id - 1], answers(id)) || Transport(outcome))
  {
    InitialInv();
    RunDirect(answers, Initial, events);
    IssuedAreRequested(Initial, events);
    assert Initial.issued + Requested(events) == Requested(events);
  }
}
