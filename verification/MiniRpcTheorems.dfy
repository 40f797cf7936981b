/** What every run of the batching multiplexer keeps, and what it refines. */
module MiniRpcTheorems {
  import opened Prelude
  import opened MiniRpc

  // ----- Settling one batch -----

  lemma {:induction false} ByKeyFinds(items: seq<BatchItem>, issued: seq<Call>)
    requires WellFormed(items, issued)
    ensures ByKey(items).Keys == Ids(items)
    ensures forall i :: 0 <= i < |items| ==> ByKey(items)[items[i].id] == items[i]
  {
    if items != [] {
      var front, last := items[..|items| - 1], items[|items| - 1];
      assert items == front + [last];
      ByKeyFinds(front, issued);
    }
  }

  lemma {:induction false} RejectAllMeaning(items: seq<BatchItem>, outcomes: map<nat, Outcome>, failure: Failure)
    ensures RejectAll(items, outcomes, failure)
         == map id | id in outcomes.Keys + Ids(items) :: if id in outcomes then outcomes[id] else Rejected(failure)
  {
    if items != [] {
      assert items == [items[0]] + items[1..];
      RejectAllMeaning(items[1..], Settle(outcomes, items[0].id, Rejected(failure)), failure);
    }
  }

  ghost predicate AllKnown(byKey: map<nat, BatchItem>, list: seq<Response>) {
    forall i :: 0 <= i < |list| ==> Known(byKey, list[i])
  }

  function OutcomeFor(byKey: map<nat, BatchItem>, r: Response): Outcome
    requires Known(byKey, r)
  {
    OutcomeOf(byKey[r.id].call, r.body)
  }

  /** Response `i` is the first one for its id. */
  ghost predicate FirstFor(list: seq<Response>, i: nat)
    requires i < |list| && list[i].Response?
  {
    forall j :: 0 <= j < i && list[j].Response? ==> list[j].id != list[i].id
  }

  /** The loop stops at the first response whose id the batch does not have. */
  lemma {:induction false} DeliverStops(
    byKey: map<nat, BatchItem>, good: seq<Response>, rest: seq<Response>, outcomes: map<nat, Outcome>)
    requires AllKnown(byKey, good)
    requires rest != [] ==> !Known(byKey, rest[0])
    ensures Deliver(byKey, good + rest, outcomes) == Deliver(byKey, good, outcomes)
  {
    if good == [] {
      assert good + rest == rest;
    } else {
      var r := good[0];
      assert (good + rest)[1..] == good[1..] + rest;
      DeliverStops(byKey, good[1..], rest, Settle(outcomes, r.id, OutcomeFor(byKey, r)));
    }
  }

  /** Earlier settlements stay, and every new one comes from the first response with that very id. */
  lemma {:induction false} DeliverMeaning(byKey: map<nat, BatchItem>, list: seq<Response>, outcomes: map<nat, Outcome>)
    requires AllKnown(byKey, list)
    ensures var after := Deliver(byKey, list, outcomes);
      && after.Keys == outcomes.Keys + (set r <- list | r.Response? :: r.id)
      && (forall id :: id in outcomes ==> after[id] == outcomes[id])
      && (forall i :: 0 <= i < |list| && list[i].id !in outcomes && FirstFor(list, i) ==>
            after[list[i].id] == OutcomeFor(byKey, list[i]))
  {
    if list != [] {
      var r := list[0];
      var next := Settle(outcomes, r.id, OutcomeFor(byKey, r));
      DeliverMeaning(byKey, list[1..], next);
      var after := Deliver(byKey, list, outcomes);
      assert list == [r] + list[1..];
      forall i | 0 <= i < |list| && list[i].id !in outcomes && FirstFor(list, i)
        ensures after[list[i].id] == OutcomeFor(byKey, list[i])
      {
        if i > 0 {
          assert list[i] == list[1..][i - 1];
          assert list[0].id != list[i].id;
          assert FirstFor(list[1..], i - 1);
        }
      }
    }
  }

  // ----- When the order of the responses does not matter -----

  /** A response that would settle a promise if the loop reached it first. */
  predicate Fresh(byKey: map<nat, BatchItem>, outcomes: map<nat, Outcome>, r: Response) {
    Known(byKey, r) && r.id !in outcomes
  }

  /** No two responses compete for one promise, and none can be cut off by a foreign id. */
  ghost predicate OrderFree(byKey: map<nat, BatchItem>, list: seq<Response>, outcomes: map<nat, Outcome>) {
    && (forall r, t ::
          r in list && t in list && Fresh(byKey, outcomes, r) && Fresh(byKey, outcomes, t) && r.id == t.id ==>
          OutcomeFor(byKey, r) == OutcomeFor(byKey, t))
    && (AllKnown(byKey, list) || forall r :: r in list ==> !Fresh(byKey, outcomes, r))
  }

  ghost predicate SameInEveryOrder(byKey: map<nat, BatchItem>, list: seq<Response>, outcomes: map<nat, Outcome>) {
    forall other :: multiset(other) == multiset(list) ==>
      Deliver(byKey, other, outcomes) == Deliver(byKey, list, outcomes)
  }

  lemma {:induction false} NothingFresh(byKey: map<nat, BatchItem>, list: seq<Response>, outcomes: map<nat, Outcome>)
    requires forall r :: r in list ==> !Fresh(byKey, outcomes, r)
    ensures Deliver(byKey, list, outcomes) == outcomes
  {
    if list != [] && Known(byKey, list[0]) {
      assert list[0] in list;
      NothingFresh(byKey, list[1..], outcomes);
    }
  }

  lemma {:induction false} FirstIndex(list: seq<Response>, i: nat) returns (k: nat)
    requires i < |list| && list[i].Response?
    ensures k <= i && list[k].Response? && list[k].id == list[i].id && FirstFor(list, k)
  {
    k := i;
    if j :| 0 <= j < i && list[j].Response? && list[j].id == list[i].id {
      k := FirstIndex(list, j);
    }
  }

  lemma DeliverConsistent(byKey: map<nat, BatchItem>, list: seq<Response>, outcomes: map<nat, Outcome>, r: Response)
    requires AllKnown(byKey, list) && OrderFree(byKey, list, outcomes)
    requires r in list && Fresh(byKey, outcomes, r)
    ensures r.id in Deliver(byKey, list, outcomes)
    ensures Deliver(byKey, list, outcomes)[r.id] == OutcomeFor(byKey, r)
  {
    var i :| 0 <= i < |list| && list[i] == r;
    var k := FirstIndex(list, i);
    DeliverMeaning(byKey, list, outcomes);
    assert list[k] in list;
  }

  lemma OrderFreeHalf(
    byKey: map<nat, BatchItem>, list: seq<Response>, other: seq<Response>, outcomes: map<nat, Outcome>, id: nat)
    requires OrderFree(byKey, list, outcomes) && OrderFree(byKey, other, outcomes)
    requires AllKnown(byKey, list) && AllKnown(byKey, other)
    requires forall r :: r in list ==> r in other
    requires id in Deliver(byKey, list, outcomes)
    ensures id in Deliver(byKey, other, outcomes)
    ensures Deliver(byKey, other, outcomes)[id] == Deliver(byKey, list, outcomes)[id]
  {
    DeliverMeaning(byKey, list, outcomes);
    DeliverMeaning(byKey, other, outcomes);
    if id !in outcomes {
      var r :| r in list && r.Response? && r.id == id;
      DeliverConsistent(byKey, list, outcomes, r);
      DeliverConsistent(byKey, other, outcomes, r);
    }
  }

  lemma SameMembers(list: seq<Response>, other: seq<Response>)
    requires multiset(other) == multiset(list)
    ensures forall r :: r in list <==> r in other
  {
    forall r
      ensures r in list <==> r in other
    {
      assert r in list <==> r in multiset(list);
      assert r in other <==> r in multiset(other);
    }
  }

  lemma OrderFreeIsEnough(
    byKey: map<nat, BatchItem>, list: seq<Response>, other: seq<Response>, outcomes: map<nat, Outcome>)
    requires OrderFree(byKey, list, outcomes)
    requires multiset(other) == multiset(list)
    ensures Deliver(byKey, other, outcomes) == Deliver(byKey, list, outcomes)
  {
    SameMembers(list, other);
    if AllKnown(byKey, list) {
      assert forall r :: r in list ==> Known(byKey, r);
      assert AllKnown(byKey, other);
      forall id | id in Deliver(byKey, list, outcomes) {
        OrderFreeHalf(byKey, list, other, outcomes, id);
      }
      forall id | id in Deliver(byKey, other, outcomes) {
        OrderFreeHalf(byKey, other, list, outcomes, id);
      }
    } else {
      NothingFresh(byKey, list, outcomes);
      NothingFresh(byKey, other, outcomes);
    }
  }

  function MoveToFront(list: seq<Response>, i: nat): seq<Response>
    requires i < |list|
  {
    [list[i]] + (list[..i] + list[i + 1..])
  }

  lemma FrontWins(byKey: map<nat, BatchItem>, list: seq<Response>, outcomes: map<nat, Outcome>, r: Response)
    returns (other: seq<Response>)
    requires r in list
    ensures multiset(other) == multiset(list)
    ensures Fresh(byKey, outcomes, r) ==>
      r.id in Deliver(byKey, other, outcomes) && Deliver(byKey, other, outcomes)[r.id] == OutcomeFor(byKey, r)
    ensures !Known(byKey, r) ==> Deliver(byKey, other, outcomes) == outcomes
  {
    var i :| 0 <= i < |list| && list[i] == r;
    other := MoveToFront(list, i);
    assert list == list[..i] + [list[i]] + list[i + 1..];
    if Fresh(byKey, outcomes, r) {
      var next := outcomes[r.id := OutcomeFor(byKey, r)];
      assert other[1..] == list[..i] + list[i + 1..];
      DeliverKeeps(byKey, other[1..], next);
    }
  }

  lemma {:induction false} DeliverKeeps(byKey: map<nat, BatchItem>, list: seq<Response>, outcomes: map<nat, Outcome>)
    ensures forall id :: id in outcomes ==>
      id in Deliver(byKey, list, outcomes) && Deliver(byKey, list, outcomes)[id] == outcomes[id]
  {
    if list != [] && Known(byKey, list[0]) {
      DeliverKeeps(byKey, list[1..], Settle(outcomes, list[0].id, OutcomeFor(byKey, list[0])));
    }
  }

  /** The outcome of a batch is the same for every order of its responses exactly when `OrderFree` holds. */
  lemma OrderIrrelevantIff(byKey: map<nat, BatchItem>, list: seq<Response>, outcomes: map<nat, Outcome>)
    ensures SameInEveryOrder(byKey, list, outcomes) <==> OrderFree(byKey, list, outcomes)
  {
    if OrderFree(byKey, list, outcomes) {
      forall other | multiset(other) == multiset(list)
        ensures Deliver(byKey, other, outcomes) == Deliver(byKey, list, outcomes)
      {
        OrderFreeIsEnough(byKey, list, other, outcomes);
      }
    } else {
      var r, t :| r in list && t in list && Fresh(byKey, outcomes, r)
        && (!Known(byKey, t)
            || (Fresh(byKey, outcomes, t) && r.id == t.id && OutcomeFor(byKey, r) != OutcomeFor(byKey, t)));
      var rFirst := FrontWins(byKey, list, outcomes, r);
      var tFirst := FrontWins(byKey, list, outcomes, t);
      assert Deliver(byKey, rFirst, outcomes) != Deliver(byKey, tFirst, outcomes);
    }
  }

  /** A reply to one pending call where order matters: behind a foreign id the answer is lost, before it the
      answer arrives. */
  lemma ForeignIdMakesOrderMatter(call: Call, body: Body)
    ensures var byKey, answer, foreign := ByKey([BatchItem(1, call)]), Response(1, body), Response(2, body);
      && Deliver(byKey, [answer, foreign], map[]) == map[1 := OutcomeOf(call, body)]
      && Deliver(byKey, [foreign, answer], map[]) == map[]
      && !SameInEveryOrder(byKey, [answer, foreign], map[])
  {
    var byKey, answer, foreign := ByKey([BatchItem(1, call)]), Response(1, body), Response(2, body);
    var items := [BatchItem(1, call)];
    ByKeyFinds(items, [call]);
    assert items[0].id in byKey && byKey[1] == items[0];
    assert [answer, foreign][1..] == [foreign];
    assert multiset([foreign, answer]) == multiset([answer, foreign]);
  }

  // ----- The invariant -----

  lemma InitialInv()
    ensures Inv(Initial)
  {
  }

  lemma RequestKeepsPartition(s: Provider, call: Call)
    requires Partitioned(s) && call.name != "eth_chainId" && s.nextId >= 1
    ensures Partitioned(OnRequest(s, call))
  {
    var t := OnRequest(s, call);
    assert t.batch[|s.batch|].id == s.nextId;
    assert Ids(t.batch) == Ids(s.batch) + {s.nextId};
    forall id: nat, p | At(t, id, p)
      ensures 1 <= id < t.nextId && (id < s.nextId ==> At(s, id, p)) && (id == s.nextId ==> p == Queued)
    {
      assert At(s, id, p) || (id == s.nextId && p == Queued);
      assert !At(s, s.nextId, p);
    }
    forall id: nat | 1 <= id < t.nextId
      ensures Somewhere(t, id)
    {
      if id == s.nextId {
        assert At(t, id, Queued);
      } else {
        assert Somewhere(s, id);
        var p :| At(s, id, p);
        assert At(t, id, p);
      }
    }
  }

  lemma WellFormedLater(items: seq<BatchItem>, issued: seq<Call>, call: Call)
    requires WellFormed(items, issued)
    ensures WellFormed(items, issued + [call])
  {
  }

  lemma RequestKeepsInv(s: Provider, call: Call)
    requires Inv(s)
    ensures Inv(OnRequest(s, call))
  {
    if call.name != "eth_chainId" {
      var t := OnRequest(s, call);
      RequestKeepsPartition(s, call);
      WellFormedLater(s.batch, s.issued, call);
      assert WellFormed(t.batch, t.issued);
      forall f | f in t.inFlight
        ensures WellFormed(t.inFlight[f], t.issued)
      {
        WellFormedLater(s.inFlight[f], s.issued, call);
      }
    }
  }

  lemma ClearKeepsInv(s: Provider)
    requires Inv(s)
    ensures Inv(OnClear(s))
  {
    var t := OnClear(s);
    forall id: nat, p | At(t, id, p)
      ensures At(s, id, if p == Flying(s.nextFlight) then Queued else p)
    {
    }
    forall id: nat | 1 <= id < t.nextId
      ensures Somewhere(t, id)
    {
      assert Somewhere(s, id);
      var p :| At(s, id, p);
      assert At(t, id, if p == Queued then Flying(s.nextFlight) else p);
    }
  }

  lemma FireKeepsInv(s: Provider, timer: nat)
    requires Inv(s)
    ensures Inv(OnFire(s, timer))
  {
    if timer in s.timers {
      ClearKeepsInv(s);
      var t := OnClear(s);
      assert OnFire(s, timer) == t.(timers := s.timers - {timer});
      assert forall id: nat, p :: At(OnFire(s, timer), id, p) == At(t, id, p);
      assert forall id: nat :: Somewhere(t, id) ==> Somewhere(OnFire(s, timer), id);
    }
  }

  /** Settling a batch changes no settled promise and settles none outside the batch. */
  lemma AnswerMeaning(items: seq<BatchItem>, issued: seq<Call>, reply: Reply, outcomes: map<nat, Outcome>)
    requires WellFormed(items, issued)
    ensures var after := Answer(items, reply, outcomes);
      && outcomes.Keys <= after.Keys <= outcomes.Keys + Ids(items)
      && (forall id :: id in outcomes ==> after[id] == outcomes[id])
  {
    ByKeyFinds(items, issued);
    match reply
    case SendFailure => RejectAllMeaning(items, outcomes, SendFailed);
    case BadStatus(status, text) => RejectAllMeaning(items, outcomes, HttpStatus(status, text));
    case NotJson => RejectAllMeaning(items, outcomes, ParseFailed);
    case NotAList =>
    case Responses(list) =>
      DeliverKeeps(ByKey(items), list, outcomes);
      DeliverStaysInside(ByKey(items), list, outcomes);
  }

  lemma {:induction false} DeliverStaysInside(
    byKey: map<nat, BatchItem>, list: seq<Response>, outcomes: map<nat, Outcome>)
    ensures Deliver(byKey, list, outcomes).Keys <= outcomes.Keys + byKey.Keys
  {
    if list != [] && Known(byKey, list[0]) {
      DeliverStaysInside(byKey, list[1..], Settle(outcomes, list[0].id, OutcomeFor(byKey, list[0])));
    }
  }

  lemma ArriveKeepsInv(s: Provider, flight: nat, reply: Reply)
    requires Inv(s)
    ensures Inv(OnArrive(s, flight, reply))
  {
    if flight in s.inFlight {
      var items := s.inFlight[flight];
      AnswerMeaning(items, s.issued, reply, s.outcomes);
      var t := OnArrive(s, flight, reply);
      forall id: nat, p | At(t, id, p)
        ensures At(s, id, p) || ((p == Settled || p == Unanswered) && At(s, id, Flying(flight)))
      {
      }
      forall id: nat, p, q | At(t, id, p) && At(t, id, q)
        ensures p == q
      {
        if At(s, id, Flying(flight)) {
          assert !At(s, id, Settled) && !At(s, id, Unanswered);
        }
      }
      forall id: nat | 1 <= id < t.nextId
        ensures Somewhere(t, id)
      {
        assert Somewhere(s, id);
        var p :| At(s, id, p);
        if p == Flying(flight) {
          assert At(t, id, if id in t.outcomes then Settled else Unanswered);
        } else {
          assert At(t, id, p);
        }
      }
    }
  }

  lemma StepKeepsInv(s: Provider, e: Event)
    requires Inv(s)
    ensures Inv(Step(s, e))
  {
    match e
    case Request(call) => RequestKeepsInv(s, call);
    case Fire(timer) => FireKeepsInv(s, timer);
    case Clear => ClearKeepsInv(s);
    case Arrive(flight, reply) => ArriveKeepsInv(s, flight, reply);
  }

  /** In every reachable state each issued id is in exactly one place and no request is stranded. */
  lemma {:induction false} RunKeepsInv(s: Provider, events: seq<Event>)
    requires Inv(s)
    ensures Inv(Run(s, events))
    decreases |events|
  {
    if events != [] {
      StepKeepsInv(s, events[0]);
      RunKeepsInv(Step(s, events[0]), events[1..]);
    }
  }

  /** The reading of the invariant: ids 1 to nextId - 1 are each in one place, all others nowhere. */
  lemma EveryRunPartitionsIds(events: seq<Event>, id: nat)
    ensures var s := Run(Initial, events);
      && (1 <= id < s.nextId <==> Somewhere(s, id))
      && (forall p, q :: At(s, id, p) && At(s, id, q) ==> p == q)
      && (s.batch != [] <==> s.batchTimeoutId.Some?)
      && (s.batchTimeoutId.Some? ==> s.batchTimeoutId.value in s.timers)
  {
    InitialInv();
    RunKeepsInv(Initial, events);
    var s := Run(Initial, events);
    if Somewhere(s, id) {
      var p :| At(s, id, p);
    }
  }

  // ----- Promises settle once, ids are not reused -----

  ghost predicate Extends(s: Provider, t: Provider) {
    && s.issued <= t.issued
    && (forall id :: id in s.outcomes ==> id in t.outcomes && t.outcomes[id] == s.outcomes[id])
    && s.unanswered <= t.unanswered
  }

  lemma {:induction false} RunExtends(s: Provider, events: seq<Event>)
    requires Inv(s)
    ensures Extends(s, Run(s, events))
    decreases |events|
  {
    if events != [] {
      var t := Step(s, events[0]);
      if events[0].Arrive? && events[0].flight in s.inFlight {
        AnswerMeaning(s.inFlight[events[0].flight], s.issued, events[0].reply, s.outcomes);
      }
      StepKeepsInv(s, events[0]);
      RunExtends(t, events[1..]);
    }
  }

  /** A failed fetch rejects the batch it captured, all of it, and touches nothing else. */
  lemma FailureRejectsCapturedBatch(s: Provider, flight: nat, reply: Reply, failure: Failure)
    requires Inv(s) && flight in s.inFlight
    requires match reply
      case SendFailure => failure == SendFailed
      case BadStatus(status, text) => failure == HttpStatus(status, text)
      case NotJson => failure == ParseFailed
      case _ => false
    ensures var captured := Ids(s.inFlight[flight]);
      && OnArrive(s, flight, reply) == s.(
           inFlight := s.inFlight - {flight},
           outcomes := s.outcomes + (map id | id in captured :: Rejected(failure)))
      && captured !! s.outcomes.Keys
  {
    FlyingIsUnsettled(s, flight);
    RejectAllUnsettled(s.inFlight[flight], s.outcomes, failure);
  }

  lemma RejectAllUnsettled(items: seq<BatchItem>, outcomes: map<nat, Outcome>, failure: Failure)
    requires Ids(items) !! outcomes.Keys
    ensures var after := RejectAll(items, outcomes, failure);
      after == outcomes + (map id | id in Ids(items) :: Rejected(failure)) && Ids(items) - after.Keys == {}
  {
    RejectAllMeaning(items, outcomes, failure);
  }

  lemma FlyingIsUnsettled(s: Provider, flight: nat)
    requires Partitioned(s) && flight in s.inFlight
    ensures Ids(s.inFlight[flight]) !! s.outcomes.Keys
  {
    forall id | id in Ids(s.inFlight[flight])
      ensures id !in s.outcomes
    {
      assert At(s, id, Flying(flight));
      assert !At(s, id, Settled);
    }
  }

  // ----- Timers -----

  function Named(s: Provider): set<nat> {
    if s.batchTimeoutId.Some? then {s.batchTimeoutId.value} else {}
  }

  function Strays(s: Provider): set<nat> {
    s.timers - Named(s)
  }

  function Clears(events: seq<Event>): nat {
    if events == [] then 0 else (if events[0].Clear? then 1 else 0) + Clears(events[1..])
  }

  /** Nothing is named any more: what was named becomes a stray. */
  lemma UnnamedTimers(timers: set<nat>, named: set<nat>)
    requires named <= timers && |named| <= 1
    ensures |timers| <= |timers - named| + 1
  {
    assert timers == (timers - named) + named;
  }

  /** The timer that fires is the named one, or one stray less. */
  lemma FiredTimers(timers: set<nat>, named: set<nat>, timer: nat)
    requires named <= timers && |named| <= 1 && timer in timers
    ensures |timers - {timer}| <= |timers - named|
  {
    UnnamedTimers(timers, named);
    assert timers == (timers - {timer}) + {timer};
  }

  lemma RequestStrays(s: Provider, call: Call)
    requires Armed(s)
    ensures Strays(OnRequest(s, call)) == Strays(s)
  {
  }

  lemma FireStrays(s: Provider, timer: nat)
    requires Armed(s)
    ensures |Strays(OnFire(s, timer))| <= |Strays(s)|
  {
    if timer in s.timers {
      FiredTimers(s.timers, Named(s), timer);
      assert Strays(OnFire(s, timer)) == s.timers - {timer};
    }
  }

  lemma ClearStrays(s: Provider)
    requires Armed(s)
    ensures |Strays(OnClear(s))| <= |Strays(s)| + 1
  {
    UnnamedTimers(s.timers, Named(s));
    assert Strays(OnClear(s)) == s.timers;
  }

  lemma ArriveStrays(s: Provider, flight: nat, reply: Reply)
    ensures Strays(OnArrive(s, flight, reply)) == Strays(s)
  {
  }

  lemma StepStrays(s: Provider, e: Event)
    requires Armed(s)
    ensures |Strays(Step(s, e))| <= |Strays(s)| + if e.Clear? then 1 else 0
  {
    match e {
      case Request(call) =>
        RequestStrays(s, call);
        assert Step(s, e) == OnRequest(s, call);
      case Fire(timer) =>
        FireStrays(s, timer);
        assert Step(s, e) == OnFire(s, timer);
      case Clear =>
        ClearStrays(s);
        assert Step(s, e) == OnClear(s);
      case Arrive(flight, reply) =>
        ArriveStrays(s, flight, reply);
        assert Step(s, e) == OnArrive(s, flight, reply);
    }
  }

  /** Running timers other than the one the field names are as many as direct clears at most. */
  lemma {:induction false} RunStrays(s: Provider, events: seq<Event>)
    requires Inv(s)
    ensures |Strays(Run(s, events))| <= |Strays(s)| + Clears(events)
    decreases |events|
  {
    if events != [] {
      StepStrays(s, events[0]);
      StepKeepsInv(s, events[0]);
      RunStrays(Step(s, events[0]), events[1..]);
    }
  }

  /** Some step of the run is a direct clear of a non-empty queue. */
  ghost predicate ClearsQueue(s: Provider, events: seq<Event>)
    decreases |events|
  {
    events != [] && ((events[0].Clear? && s.batch != []) || ClearsQueue(Step(s, events[0]), events[1..]))
  }

  /** In every state of the run, the running timers are those the field names. */
  ghost predicate AlwaysNamed(s: Provider, events: seq<Event>)
    decreases |events|
  {
    s.timers == Named(s) && (events != [] ==> AlwaysNamed(Step(s, events[0]), events[1..]))
  }

  lemma StepNamedIff(s: Provider, e: Event)
    requires Inv(s) && s.timers == Named(s)
    ensures Step(s, e).timers == Named(Step(s, e)) <==> !(e.Clear? && s.batch != [])
  {
    StepKeepsInv(s, e);
    if e.Clear? {
      assert Step(s, e) == OnClear(s);
    } else {
      StepStrays(s, e);
      assert Strays(s) == {};
      assert Strays(Step(s, e)) == {};
    }
  }

  lemma {:induction false} AlwaysNamedIff(s: Provider, events: seq<Event>)
    requires Inv(s) && s.timers == Named(s)
    ensures AlwaysNamed(s, events) <==> !ClearsQueue(s, events)
    decreases |events|
  {
    if events != [] {
      var next := Step(s, events[0]);
      StepNamedIff(s, events[0]);
      StepKeepsInv(s, events[0]);
      if next.timers == Named(next) {
        AlwaysNamedIff(next, events[1..]);
      }
    }
  }

  lemma {:induction false} AlwaysNamedAtEnd(s: Provider, events: seq<Event>)
    requires AlwaysNamed(s, events)
    ensures Run(s, events).timers == Named(Run(s, events))
    decreases |events|
  {
    if events != [] {
      AlwaysNamedAtEnd(Step(s, events[0]), events[1..]);
    }
  }

  /** One timer runs when a request waits and none otherwise, all along a run, exactly when no direct call of
      `clearBatch` meets a non-empty queue. */
  lemma OneTimerIff(events: seq<Event>)
    ensures AlwaysNamed(Initial, events) <==> !ClearsQueue(Initial, events)
  {
    InitialInv();
    AlwaysNamedIff(Initial, events);
  }

  /** The same at the end of a run: the timers are the one named while requests wait, and none otherwise. */
  lemma OneTimerExactlyWhenQueued(events: seq<Event>)
    requires !ClearsQueue(Initial, events)
    ensures var s := Run(Initial, events);
      s.timers == Named(s) && (Named(s) == {} <==> s.batch == [])
  {
    InitialInv();
    RunKeepsInv(Initial, events);
    AlwaysNamedIff(Initial, events);
    AlwaysNamedAtEnd(Initial, events);
  }

  /** A direct call of the public `clearBatch` breaks that: its timer stays and a second one starts. */
  lemma DirectClearLeavesTwoTimers(call: Call)
    requires call.name != "eth_chainId"
    ensures |Run(Initial, [Request(call), Clear, Request(call)]).timers| == 2
  {
    var a := Step(Initial, Request(call));
    var b := Step(a, Clear);
    var c := Step(b, Request(call));
    assert Run(c, []) == c;
    assert Run(b, [Request(call)]) == c;
    assert [Clear, Request(call)][1..] == [Request(call)];
    assert Run(a, [Clear, Request(call)]) == c;
    assert [Request(call), Clear, Request(call)][1..] == [Clear, Request(call)];
    assert c.timers == {0, 1};
  }

  // ----- Refinement of one direct call per request -----

  /** What a promise gets when its call is sent alone and answered with `answers(id)`. */
  function Direct(issued: seq<Call>, answers: nat -> Body, id: nat): Outcome
    requires 1 <= id <= |issued|
  {
    OutcomeOf(issued[id - 1], answers(id))
  }

  ghost predicate Transport(outcome: Outcome) {
    outcome.Rejected? && !outcome.failure.Remote? && !outcome.failure.Unexpected?
  }

  /** A reply gives each id of its batch its own answer; order, gaps, repeats, foreign ids are free. */
  ghost predicate Honest(answers: nat -> Body, s: Provider, e: Event) {
    e.Arrive? && e.flight in s.inFlight && e.reply.Responses? ==>
      forall r :: r in e.reply.list && r.Response? && r.id in Ids(s.inFlight[e.flight]) ==> r.body == answers(r.id)
  }

  /** A reply that also answers every id of its batch and no other. */
  ghost predicate Complete(answers: nat -> Body, s: Provider, e: Event) {
    e.Arrive? && e.flight in s.inFlight ==>
      && Honest(answers, s, e)
      && e.reply.Responses?
      && (forall r :: r in e.reply.list ==> r.Response? && r.id in Ids(s.inFlight[e.flight]))
      && (forall id :: id in Ids(s.inFlight[e.flight]) ==> exists r :: r in e.reply.list && r.Response? && r.id == id)
  }

  ghost predicate HonestRun(answers: nat -> Body, s: Provider, events: seq<Event>)
    decreases |events|
  {
    events != [] ==> Honest(answers, s, events[0]) && HonestRun(answers, Step(s, events[0]), events[1..])
  }

  ghost predicate CompleteRun(answers: nat -> Body, s: Provider, events: seq<Event>)
    decreases |events|
  {
    events != [] ==> Complete(answers, s, events[0]) && CompleteRun(answers, Step(s, events[0]), events[1..])
  }

  ghost predicate AllDirect(answers: nat -> Body, s: Provider) {
    forall id :: id in s.outcomes ==>
      1 <= id <= |s.issued| && (s.outcomes[id] == Direct(s.issued, answers, id) || Transport(s.outcomes[id]))
  }

  lemma {:induction false} DeliverHonest(
    byKey: map<nat, BatchItem>, list: seq<Response>, outcomes: map<nat, Outcome>, answers: nat -> Body)
    requires forall r :: r in list && Known(byKey, r) ==> r.body == answers(r.id)
    ensures var after := Deliver(byKey, list, outcomes);
      forall id :: id in after && id !in outcomes ==>
        id in byKey && after[id] == OutcomeOf(byKey[id].call, answers(id))
  {
    if list != [] && Known(byKey, list[0]) {
      var next := Settle(outcomes, list[0].id, OutcomeFor(byKey, list[0]));
      DeliverHonest(byKey, list[1..], next, answers);
      DeliverKeeps(byKey, list[1..], next);
    }
  }

  lemma RejectionsAreTransport(
    items: seq<BatchItem>, issued: seq<Call>, outcomes: map<nat, Outcome>, failure: Failure)
    requires WellFormed(items, issued) && Transport(Rejected(failure))
    ensures var after := RejectAll(items, outcomes, failure);
      forall id :: id in after && id !in outcomes ==> 1 <= id <= |issued| && Transport(after[id])
  {
    RejectAllMeaning(items, outcomes, failure);
  }

  lemma DeliveriesAreDirect(
    answers: nat -> Body, items: seq<BatchItem>, issued: seq<Call>, list: seq<Response>, outcomes: map<nat, Outcome>)
    requires WellFormed(items, issued)
    requires forall r :: r in list && r.Response? && r.id in Ids(items) ==> r.body == answers(r.id)
    ensures var after := Deliver(ByKey(items), list, outcomes);
      forall id :: id in after && id !in outcomes ==>
        1 <= id <= |issued| && after[id] == Direct(issued, answers, id)
  {
    ByKeyFinds(items, issued);
    DeliverHonest(ByKey(items), list, outcomes, answers);
    var after := Deliver(ByKey(items), list, outcomes);
    forall id | id in after && id !in outcomes
      ensures 1 <= id <= |issued| && after[id] == Direct(issued, answers, id)
    {
      var i :| 0 <= i < |items| && items[i].id == id;
    }
  }

  lemma AnswerDirect(
    answers: nat -> Body, items: seq<BatchItem>, issued: seq<Call>, reply: Reply, outcomes: map<nat, Outcome>)
    requires WellFormed(items, issued)
    requires reply.Responses? ==>
      forall r :: r in reply.list && r.Response? && r.id in Ids(items) ==> r.body == answers(r.id)
    ensures var after := Answer(items, reply, outcomes);
      forall id :: id in after && id !in outcomes ==>
        1 <= id <= |issued| && (after[id] == Direct(issued, answers, id) || Transport(after[id]))
  {
    match reply
    case SendFailure => RejectionsAreTransport(items, issued, outcomes, SendFailed);
    case BadStatus(status, text) => RejectionsAreTransport(items, issued, outcomes, HttpStatus(status, text));
    case NotJson => RejectionsAreTransport(items, issued, outcomes, ParseFailed);
    case NotAList =>
    case Responses(list) => DeliveriesAreDirect(answers, items, issued, list, outcomes);
  }

  lemma StepDirect(answers: nat -> Body, s: Provider, e: Event)
    requires Inv(s) && AllDirect(answers, s) && Honest(answers, s, e)
    ensures AllDirect(answers, Step(s, e))
  {
    if e.Arrive? && e.flight in s.inFlight {
      AnswerDirect(answers, s.inFlight[e.flight], s.issued, e.reply, s.outcomes);
      AnswerMeaning(s.inFlight[e.flight], s.issued, e.reply, s.outcomes);
    }
  }

  /** However calls were batched and answered, a settled promise holds its own answer or a transport failure. */
  lemma {:induction false} RunDirect(answers: nat -> Body, s: Provider, events: seq<Event>)
    requires Inv(s) && AllDirect(answers, s) && HonestRun(answers, s, events)
    ensures AllDirect(answers, Run(s, events))
    decreases |events|
  {
    if events != [] {
      StepDirect(answers, s, events[0]);
      StepKeepsInv(s, events[0]);
      RunDirect(answers, Step(s, events[0]), events[1..]);
    }
  }

  ghost predicate NoneLost(s: Provider) {
    s.unanswered == {} && forall id :: id in s.outcomes ==> !Transport(s.outcomes[id])
  }

  lemma MembersKnown(items: seq<BatchItem>, issued: seq<Call>, list: seq<Response>)
    requires WellFormed(items, issued)
    requires forall r :: r in list ==> r.Response? && r.id in Ids(items)
    ensures AllKnown(ByKey(items), list)
  {
    ByKeyFinds(items, issued);
    forall i | 0 <= i < |list|
      ensures Known(ByKey(items), list[i])
    {
      assert list[i] in list;
    }
  }

  lemma AnswerCovers(items: seq<BatchItem>, issued: seq<Call>, list: seq<Response>, outcomes: map<nat, Outcome>)
    requires WellFormed(items, issued)
    requires forall r :: r in list ==> r.Response? && r.id in Ids(items)
    requires forall id :: id in Ids(items) ==> exists r :: r in list && r.Response? && r.id == id
    ensures Ids(items) <= Deliver(ByKey(items), list, outcomes).Keys
  {
    MembersKnown(items, issued, list);
    DeliverMeaning(ByKey(items), list, outcomes);
  }

  lemma AnswerComplete(
    answers: nat -> Body, items: seq<BatchItem>, issued: seq<Call>, list: seq<Response>, outcomes: map<nat, Outcome>)
    requires WellFormed(items, issued)
    requires forall r :: r in list ==> r.Response? && r.id in Ids(items) && r.body == answers(r.id)
    requires forall id :: id in Ids(items) ==> exists r :: r in list && r.Response? && r.id == id
    ensures var after := Answer(items, Responses(list), outcomes);
      && Ids(items) <= after.Keys
      && (forall id :: id in after && id !in outcomes ==> !Transport(after[id]))
  {
    AnswerCovers(items, issued, list, outcomes);
    DeliveriesAreDirect(answers, items, issued, list, outcomes);
  }

  lemma StepComplete(answers: nat -> Body, s: Provider, e: Event)
    requires Inv(s) && NoneLost(s) && Complete(answers, s, e)
    ensures NoneLost(Step(s, e))
  {
    if e.Arrive? && e.flight in s.inFlight {
      var items := s.inFlight[e.flight];
      AnswerComplete(answers, items, s.issued, e.reply.list, s.outcomes);
      AnswerMeaning(items, s.issued, e.reply, s.outcomes);
      assert Ids(items) - Step(s, e).outcomes.Keys == {};
    }
  }

  lemma {:induction false} RunComplete(answers: nat -> Body, s: Provider, events: seq<Event>)
    requires Inv(s) && NoneLost(s) && CompleteRun(answers, s, events)
    ensures NoneLost(Run(s, events)) && HonestRun(answers, s, events)
    decreases |events|
  {
    if events != [] {
      StepComplete(answers, s, events[0]);
      StepKeepsInv(s, events[0]);
      RunComplete(answers, Step(s, events[0]), events[1..]);
    }
  }

  ghost predicate Drained(s: Provider) {
    s.batch == [] && s.inFlight == map[]
  }

  /** With complete replies, a drained multiplexer did exactly what one direct call per request does. */
  lemma MultiplexerRefinesDirectCalls(answers: nat -> Body, events: seq<Event>)
    requires CompleteRun(answers, Initial, events)
    requires Drained(Run(Initial, events))
    ensures var s := Run(Initial, events);
      s.outcomes == map id | 1 <= id <= |s.issued| :: Direct(s.issued, answers, id)
  {
    InitialInv();
    RunKeepsInv(Initial, events);
    RunComplete(answers, Initial, events);
    RunDirect(answers, Initial, events);
    var s := Run(Initial, events);
    forall id: nat | 1 <= id <= |s.issued|
      ensures id in s.outcomes
    {
      assert Somewhere(s, id);
      var p :| At(s, id, p);
    }
  }

  function FullReply(items: seq<BatchItem>, answers: nat -> Body): seq<Response> {
    seq(|items|, i requires 0 <= i < |items| => Response(items[i].id, answers(items[i].id)))
  }

  lemma FullReplyIsComplete(answers: nat -> Body, s: Provider, flight: nat)
    requires flight in s.inFlight
    ensures Complete(answers, s, Arrive(flight, Responses(FullReply(s.inFlight[flight], answers))))
  {
    var items := s.inFlight[flight];
    var list := FullReply(items, answers);
    forall id | id in Ids(items)
      ensures exists r :: r in list && r.Response? && r.id == id
    {
      var i :| 0 <= i < |items| && items[i].id == id;
      assert list[i] in list;
    }
  }

  lemma CanDrainOne(answers: nat -> Body, s: Provider) returns (e: Event)
    requires Armed(s) && !Drained(s)
    ensures Complete(answers, s, e) && !e.Clear?
    ensures Step(s, e).batch == []
    ensures s.batch == [] ==> |Step(s, e).inFlight| < |s.inFlight|
  {
    if s.batch != [] {
      e := Fire(s.batchTimeoutId.value);
    } else {
      assert s.inFlight.Keys != {};
      var f :| f in s.inFlight;
      FullReplyIsComplete(answers, s, f);
      e := Arrive(f, Responses(FullReply(s.inFlight[f], answers)));
      assert s.inFlight.Keys == Step(s, e).inFlight.Keys + {f};
    }
  }

  /** From every reachable state the running timer and complete replies drain the multiplexer. */
  lemma {:induction false} CanDrain(answers: nat -> Body, s: Provider) returns (events: seq<Event>)
    requires Inv(s)
    ensures CompleteRun(answers, s, events)
    ensures Drained(Run(s, events)) && Clears(events) == 0
    decreases s.batch != [], |s.inFlight|
  {
    events := [];
    if !Drained(s) {
      var e := CanDrainOne(answers, s);
      StepKeepsInv(s, e);
      var rest := CanDrain(answers, Step(s, e));
      events := [e] + rest;
      assert events[1..] == rest;
    }
  }
}
