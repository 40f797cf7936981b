/**
 The JSON-RPC batching multiplexer of pledge-fe/src/connectors/NetworkConnector.ts.

 `Provider` is the whole state: the three fields of `MiniRpcProvider`, the timers the runtime
 still holds, the activations of `clearBatch` suspended at their `await`, and the state of the
 promises handed out.  `Step` says what one event does; class `MiniRpcProvider` is the code,
 method by method, proved against `Step`; the theorems are about every run of `Step`.
 */
module MiniRpc {
  import opened Prelude

  datatype Call = Call(name: string, params: string)

  datatype BatchItem = BatchItem(id: nat, call: Call)

  /** The optional chaining in the source makes every part of a remote error optional. */
  datatype RemoteError = RemoteError(message: Option<string>, code: Option<int>, data: Option<string>)

  /** What a response carries next to its id; both members may be present, or neither. */
  datatype Body = Body(error: Option<RemoteError>, result: Option<string>)

  /** `Malformed` is a list element no id can be read from, such as `null`. */
  datatype Response = Response(id: nat, body: Body) | Malformed

  /** How the `fetch` of one batch ends.  `NotAList` is valid JSON that cannot be iterated. */
  datatype Reply =
    | SendFailure
    | BadStatus(status: nat, text: string)
    | NotJson
    | NotAList
    | Responses(list: seq<Response>)

  datatype Failure =
    | SendFailed
    | HttpStatus(status: nat, text: string)
    | ParseFailed
    | Remote(error: RemoteError)
    | Unexpected(name: string)

  datatype Outcome = Resolved(value: string) | Rejected(failure: Failure)

  /** `issued[k]` is the call queued under id `k + 1`; it and `unanswered` are history. */
  datatype Provider = Provider(
    nextId: nat,
    batch: seq<BatchItem>,
    batchTimeoutId: Option<nat>,
    timers: set<nat>,
    nextTimer: nat,
    inFlight: map<nat, seq<BatchItem>>,
    nextFlight: nat,
    outcomes: map<nat, Outcome>,
    unanswered: set<nat>,
    issued: seq<Call>)

  /** `Clear` is a direct call of the public `clearBatch`, which leaves its timer running. */
  datatype Event =
    | Request(call: Call)
    | Fire(timer: nat)
    | Clear
    | Arrive(flight: nat, reply: Reply)

  const Initial := Provider(1, [], None, {}, 0, map[], 0, map[], {}, [])

  function Ids(items: seq<BatchItem>): set<nat> {
    set item <- items :: item.id
  }

  /** A promise takes its first settlement and ignores every later one. */
  function Settle(outcomes: map<nat, Outcome>, id: nat, outcome: Outcome): map<nat, Outcome> {
    if id in outcomes then outcomes else outcomes[id := outcome]
  }

  function RejectAll(items: seq<BatchItem>, outcomes: map<nat, Outcome>, failure: Failure): map<nat, Outcome> {
    if items == [] then outcomes
    else RejectAll(items[1..], Settle(outcomes, items[0].id, Rejected(failure)), failure)
  }

  function ByKey(items: seq<BatchItem>): map<nat, BatchItem> {
    if items == [] then map[]
    else ByKey(items[..|items| - 1])[items[|items| - 1].id := items[|items| - 1]]
  }

  /** The error member is looked at first, so a response with both members rejects. */
  function OutcomeOf(call: Call, body: Body): Outcome {
    if body.error.Some? then Rejected(Remote(body.error.value))
    else if body.result.Some? then Resolved(body.result.value)
    else Rejected(Unexpected(call.name))
  }

  predicate Known(byKey: map<nat, BatchItem>, r: Response) {
    r.Response? && r.id in byKey
  }

  /** Destructuring the entry of an id outside the batch throws, which ends the loop. */
  function Deliver(byKey: map<nat, BatchItem>, list: seq<Response>, outcomes: map<nat, Outcome>): map<nat, Outcome> {
    if list == [] || !Known(byKey, list[0]) then outcomes
    else
      var r := list[0];
      Deliver(byKey, list[1..], Settle(outcomes, r.id, OutcomeOf(byKey[r.id].call, r.body)))
  }

  function Answer(items: seq<BatchItem>, reply: Reply, outcomes: map<nat, Outcome>): map<nat, Outcome> {
    match reply
    case SendFailure => RejectAll(items, outcomes, SendFailed)
    case BadStatus(status, text) => RejectAll(items, outcomes, HttpStatus(status, text))
    case NotJson => RejectAll(items, outcomes, ParseFailed)
    case NotAList => outcomes
    case Responses(list) => Deliver(ByKey(items), list, outcomes)
  }

  function OnRequest(s: Provider, call: Call): Provider {
    if call.name == "eth_chainId" then s
    else
      var armed := s.batchTimeoutId.Some?;
      s.(nextId := s.nextId + 1,
         batch := s.batch + [BatchItem(s.nextId, call)],
         batchTimeoutId := if armed then s.batchTimeoutId else Some(s.nextTimer),
         timers := if armed then s.timers else s.timers + {s.nextTimer},
         nextTimer := if armed then s.nextTimer else s.nextTimer + 1,
         issued := s.issued + [call])
  }

  function OnClear(s: Provider): Provider {
    s.(batch := [],
       batchTimeoutId := None,
       inFlight := s.inFlight[s.nextFlight := s.batch],
       nextFlight := s.nextFlight + 1)
  }

  function OnFire(s: Provider, timer: nat): Provider {
    if timer in s.timers then OnClear(s.(timers := s.timers - {timer})) else s
  }

  function OnArrive(s: Provider, flight: nat, reply: Reply): Provider {
    if flight !in s.inFlight then s
    else
      var items := s.inFlight[flight];
      var outcomes := Answer(items, reply, s.outcomes);
      s.(inFlight := s.inFlight - {flight},
         outcomes := outcomes,
         unanswered := s.unanswered + (Ids(items) - outcomes.Keys))
  }

  /** An event that cannot happen in `s` (no such timer or fetch) leaves `s` alone. */
  function Step(s: Provider, e: Event): Provider {
    match e
    case Request(call) => OnRequest(s, call)
    case Fire(timer) => OnFire(s, timer)
    case Clear => OnClear(s)
    case Arrive(flight, reply) => OnArrive(s, flight, reply)
  }

  function Run(s: Provider, events: seq<Event>): Provider
    decreases |events|
  {
    if events == [] then s else Run(Step(s, events[0]), events[1..])
  }

  // ----- Where an issued id is -----

  datatype Place = Queued | Flying(flight: nat) | Settled | Unanswered

  predicate At(s: Provider, id: nat, place: Place) {
    match place
    case Queued => id in Ids(s.batch)
    case Flying(flight) => flight in s.inFlight && id in Ids(s.inFlight[flight])
    case Settled => id in s.outcomes
    case Unanswered => id in s.unanswered
  }

  ghost predicate Somewhere(s: Provider, id: nat) {
    exists place :: At(s, id, place)
  }

  /** Ids are not repeated, and each item still carries the call issued under its id. */
  ghost predicate WellFormed(items: seq<BatchItem>, issued: seq<Call>) {
    && (forall i :: 0 <= i < |items| ==> 1 <= items[i].id <= |issued| && items[i].call == issued[items[i].id - 1])
    && (forall i, j :: 0 <= i < j < |items| ==> items[i].id != items[j].id)
  }

  /** Every issued id, and no other, is somewhere, and in one place only. */
  ghost predicate Partitioned(s: Provider) {
    && (forall id: nat, place :: At(s, id, place) ==> 1 <= id < s.nextId)
    && (forall id: nat :: 1 <= id < s.nextId ==> Somewhere(s, id))
    && (forall id: nat, p, q :: At(s, id, p) && At(s, id, q) ==> p == q)
  }

  /** The queue is non-empty exactly when the field names a timer, and that timer is running. */
  ghost predicate Armed(s: Provider) {
    && (s.batch != [] <==> s.batchTimeoutId.Some?)
    && (s.batchTimeoutId.Some? ==> s.batchTimeoutId.value in s.timers)
    && (forall t :: t in s.timers ==> t < s.nextTimer)
  }

  ghost predicate Inv(s: Provider) {
    && s.nextId == |s.issued| + 1
    && WellFormed(s.batch, s.issued)
    && (forall f :: f in s.inFlight ==> f < s.nextFlight && WellFormed(s.inFlight[f], s.issued))
    && Partitioned(s)
    && Armed(s)
  }
}
