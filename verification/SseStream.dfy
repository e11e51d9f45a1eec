/** The server side of event replay: parsing the cursor, the retention floor, batching and run filtering. */
module SseStream {
  import opened Wrappers
  import opened JsonText
  import opened EventStore
  import opened Sequences

  const MAX_BATCH_SIZE := 500

  /** A header or query value: missing or empty, a string `parseInt` reads, or one it does not. */
  datatype Parameter = Missing | Numeric(n: int) | Garbage

  datatype Contract = Contract(batchSize: nat, retentionFloor: nat)

  predicate ValidContract(c: Contract) { 1 <= c.batchSize <= MAX_BATCH_SIZE }

  /**
   A request as it arrives: the query parameters of its URL, and the `Last-Event-ID` header that only the transport can
   set. A cursor in the query is never read.
   */
  datatype HttpRequest = HttpRequest(runId: Option<Text>, limit: Parameter, queryCursor: Parameter,
      headerCursor: Parameter)

  datatype StreamRequest = StreamRequest(runId: Option<Text>, lastEventId: Option<nat>, limit: nat)

  /** What `replayEvents` is given: a raw request, or one that was parsed before. */
  datatype ReplayInput =
    | Raw(http: HttpRequest)
    | Parsed(request: StreamRequest)

  datatype SseError = BadLastEventId | BadBatchSize

  /** A frame on the wire. A heartbeat may carry no event id. */
  datatype Frame = Logged(event: Event) | ResetRequired(floor: nat) | Heartbeat(eventId: Option<nat>)

  function ResetType(): Text { Ascii("stream.reset.required") }

  function IdOf(f: Frame): Option<nat> {
    match f
    case Logged(e) => Some(e.eventId)
    case ResetRequired(floor) => Some(floor)
    case Heartbeat(id) => id
  }

  /** The client tells frames apart by type alone, so a logged event of the reset type counts as a reset. */
  predicate IsReset(f: Frame) { f.ResetRequired? || (f.Logged? && f.event.eventType == ResetType()) }

  function ParseLimit(p: Parameter, contract: Contract): Result<nat, SseError> {
    match p
    case Missing => Ok(contract.batchSize)
    case Numeric(n) => if 1 <= n <= MAX_BATCH_SIZE then Ok(n) else Err(BadBatchSize)
    case Garbage => Err(BadBatchSize)
  }

  function ParseCursor(p: Parameter): Result<Option<nat>, SseError> {
    match p
    case Missing => Ok(None)
    case Numeric(n) => if n >= 0 then Ok(Some(n)) else Err(BadLastEventId)
    case Garbage => Err(BadLastEventId)
  }

  function ParseSseRequest(http: HttpRequest, contract: Contract): Result<StreamRequest, SseError> {
    match ParseCursor(http.headerCursor)
    case Err(error) => Err(error)
    case Ok(cursor) =>
      match ParseLimit(http.limit, contract)
      case Err(error) => Err(error)
      case Ok(n) => Ok(StreamRequest(http.runId, cursor, n))
  }

  /** A parsed request is used as it is only when its cursor is a number; otherwise it is parsed again, from nothing. */
  function Resolve(input: ReplayInput, contract: Contract): Result<StreamRequest, SseError> {
    match input
    case Raw(http) => ParseSseRequest(http, contract)
    case Parsed(request) =>
      if request.lastEventId.Some? then Ok(request)
      else ParseSseRequest(HttpRequest(None, Missing, Missing, Missing), contract)
  }

  /** An empty run id means no filter. */
  predicate Matches(e: Event, runId: Option<Text>) {
    runId.None? || runId.value == [] || e.runId == runId
  }

  function ForRun(runId: Option<Text>): Event -> bool { (e: Event) => Matches(e, runId) }

  function Frames(events: seq<Event>): (r: seq<Frame>)
    ensures |r| == |events| && forall i :: 0 <= i < |r| ==> r[i] == Logged(events[i])
  {
    if events == [] then [] else [Logged(events[0])] + Frames(events[1..])
  }

  /** `log` is what the store still holds. */
  function ReplayEvents(log: seq<Event>, input: ReplayInput, contract: Contract): Result<seq<Frame>, SseError> {
    match Resolve(input, contract)
    case Err(error) => Err(error)
    case Ok(request) =>
      if request.lastEventId.Some? && request.lastEventId.value < contract.retentionFloor
      then Ok([ResetRequired(contract.retentionFloor)])
      else
        var events := Take(After(log, request.lastEventId.GetOr(0)), Min(request.limit, contract.batchSize));
        Ok(Frames(Filter(events, ForRun(request.runId))))
  }

  // ---------- what the code gets wrong, exactly ----------

  /**
   The run filter is applied after the limit: past a cursor the batch is empty exactly when none of the first
   `limit` events after it belongs to the run, however many later ones do.
   */
  lemma BatchEmptyIff(log: seq<Event>, runId: Option<Text>, cursor: nat, limit: nat, contract: Contract)
    requires cursor >= contract.retentionFloor
    ensures
      var window := Take(After(log, cursor), Min(limit, contract.batchSize));
      ReplayEvents(log, Parsed(StreamRequest(runId, Some(cursor), limit)), contract) == Ok([]) <==>
        forall i :: 0 <= i < |window| ==> !Matches(window[i], runId)
  {
    var window := Take(After(log, cursor), Min(limit, contract.batchSize));
    FilterNone(window, ForRun(runId));
    assert |Frames(Filter(window, ForRun(runId)))| == |Filter(window, ForRun(runId))|;
  }

  /**
   A parsed request whose cursor is null is answered as if it had asked for every run: its filter and limit are lost.
   */
  lemma NullCursorLosesFilter(log: seq<Event>, runId: Option<Text>, limit: nat, contract: Contract)
    ensures ReplayEvents(log, Parsed(StreamRequest(runId, None, limit)), contract)
         == Ok(Frames(Take(After(log, 0), contract.batchSize)))
  {
    FilterAll(Take(After(log, 0), contract.batchSize), ForRun(None));
  }
}
