/** Class `MiniRpcProvider` of NetworkConnector.ts, each method proved against `MiniRpc`. */
module MiniRpcCode {
  import opened Prelude
  import opened MiniRpc

  /** `request` takes the call spelled out, or wrapped in one object. */
  datatype Argument = Plain(call: Call) | Wrapped(call: Call)

  /** `request` answers `eth_chainId` itself; any other call gets the promise of its id. */
  datatype Handle = ChainId(chainId: nat) | Promise(id: nat)

  class MiniRpcProvider {
    const chainId: nat

    var nextId: nat
    var batch: seq<BatchItem>
    var batchTimeoutId: Option<nat>

    // Kept by the JavaScript runtime: timers, suspended activations of ClearBatch, promises.
    var timers: set<nat>
    var nextTimer: nat
    var inFlight: map<nat, seq<BatchItem>>
    var nextFlight: nat
    var outcomes: map<nat, Outcome>

    ghost var unanswered: set<nat>
    ghost var issued: seq<Call>

    ghost function Model(): Provider
      reads this
    {
      Provider(nextId, batch, batchTimeoutId, timers, nextTimer, inFlight, nextFlight, outcomes, unanswered, issued)
    }

    constructor (chainId: nat)
      ensures this.chainId == chainId
      ensures Model() == Initial
    {
      this.chainId := chainId;
      nextId, batch, batchTimeoutId := 1, [], None;
      timers, nextTimer, inFlight, nextFlight, outcomes := {}, 0, map[], 0, map[];
      unanswered, issued := {}, [];
    }

    method Request(argument: Argument) returns (handle: Handle)
      modifies this
      ensures Model() == Step(old(Model()), Event.Request(argument.call))
      ensures handle == if argument.call.name == "eth_chainId" then ChainId(chainId) else Promise(old(nextId))
      decreases argument.Wrapped?
    {
      if argument.Wrapped? {
        handle := Request(Plain(argument.call));
        return;
      }
      if argument.call.name == "eth_chainId" {
        return ChainId(chainId);
      }
      handle := Promise(nextId);
      batch := batch + [BatchItem(nextId, argument.call)];
      nextId := nextId + 1;
      issued := issued + [argument.call];
      if batchTimeoutId.None? {
        batchTimeoutId := Some(nextTimer);
        timers := timers + {nextTimer};
        nextTimer := nextTimer + 1;
      }
    }

    /** `clearBatch` up to its `await fetch`; the rest of it is `Arrive`. */
    method ClearBatch() returns (flight: nat)
      modifies this
      ensures Model() == Step(old(Model()), Clear)
      ensures flight in inFlight && inFlight[flight] == old(batch)
    {
      flight := nextFlight;
      inFlight := inFlight[flight := batch];
      nextFlight := nextFlight + 1;
      batch := [];
      batchTimeoutId := None;
    }

    /** The runtime runs the callback of a timer, once. */
    method FireTimer(timer: nat)
      requires timer in timers
      modifies this
      ensures Model() == Step(old(Model()), Fire(timer))
    {
      timers := timers - {timer};
      var _ := ClearBatch();
    }

    method SettlePromise(id: nat, outcome: Outcome)
      modifies this`outcomes
      ensures outcomes == Settle(old(outcomes), id, outcome)
    {
      if id !in outcomes {
        outcomes := outcomes[id := outcome];
      }
    }

    method RejectEach(items: seq<BatchItem>, failure: Failure)
      modifies this`outcomes
      ensures outcomes == RejectAll(items, old(outcomes), failure)
    {
      for i := 0 to |items|
        invariant RejectAll(items[i..], outcomes, failure) == RejectAll(items, old(outcomes), failure)
      {
        SettlePromise(items[i].id, Rejected(failure));
        assert items[i..][1..] == items[i + 1..];
      }
    }

    /** The loop over the parsed responses; `aborted` is the TypeError that ends it early. */
    method SettleResponses(byKey: map<nat, BatchItem>, list: seq<Response>) returns (aborted: bool)
      modifies this`outcomes
      ensures outcomes == Deliver(byKey, list, old(outcomes))
      ensures aborted <==> exists i :: 0 <= i < |list| && !Known(byKey, list[i])
    {
      aborted := false;
      for i := 0 to |list|
        invariant Deliver(byKey, list[i..], outcomes) == Deliver(byKey, list, old(outcomes))
        invariant !aborted && forall j :: 0 <= j < i ==> Known(byKey, list[j])
      {
        var response := list[i];
        if !(response.Response? && response.id in byKey) {
          return true;
        }
        var body := response.body;
        if body.error.Some? {
          SettlePromise(response.id, Rejected(Remote(body.error.value)));
        } else if body.result.Some? {
          SettlePromise(response.id, Resolved(body.result.value));
        } else {
          SettlePromise(response.id, Rejected(Unexpected(byKey[response.id].call.name)));
        }
        assert list[i..][1..] == list[i + 1..];
      }
    }

    /** The suspended activation `flight` of `clearBatch` resumes with the outcome of its fetch. */
    method Arrive(flight: nat, reply: Reply)
      requires flight in inFlight
      modifies this
      ensures Model() == Step(old(Model()), Event.Arrive(flight, reply))
    {
      var items := inFlight[flight];
      inFlight := inFlight - {flight};
      match reply {
        case SendFailure =>
          RejectEach(items, SendFailed);
        case BadStatus(status, text) =>
          RejectEach(items, HttpStatus(status, text));
        case NotJson =>
          RejectEach(items, ParseFailed);
        case NotAList =>
        case Responses(list) =>
          var byKey: map<nat, BatchItem> := map[];
          for i := 0 to |items|
            invariant byKey == ByKey(items[..i])
          {
            byKey := byKey[items[i].id := items[i]];
            assert items[..i + 1][..i] == items[..i];
          }
          assert items[..|items|] == items;
          var _ := SettleResponses(byKey, list);
      }
      unanswered := unanswered + (Ids(items) - outcomes.Keys);
    }
  }
}
