/** The client side: connection state, the cursor it carries, and the bounded list of UI events. */
module SseClient {
  import opened Wrappers
  import opened JsonText
  import opened Sequences
  import opened SseStream

  datatype Status = Idle | Connecting | Connected | Disconnected | Reconnecting | ErrorStatus

  datatype Connection = Connection(status: Status, lastEventId: Option<nat>, error: Option<Text>, reconnectAttempt: nat)

  datatype UiEvent = UiEvent(eventType: Text)

  datatype Outcome = SnapshotRequired | EventAccepted

  const KEPT_UI_EVENTS := 200

  /** A missing cursor or attempt keeps the old one; a missing error clears it. */
  function Moved(c: Connection, status: Status, lastEventId: Option<nat>, error: Option<Text>,
      reconnectAttempt: Option<nat>): Connection {
    Connection(status, lastEventId.OrElse(c.lastEventId), error, reconnectAttempt.GetOr(c.reconnectAttempt))
  }

  /** The connection after a frame, and whether the frame was accepted as an event. */
  function AfterFrame(c: Connection, f: Frame): (Connection, Outcome) {
    if IsReset(f) then (Moved(c, Reconnecting, None, None, Some(c.reconnectAttempt + 1)), SnapshotRequired)
    else (Moved(c, Connected, IdOf(f), None, Some(0)), EventAccepted)
  }

  function AfterConnect(c: Connection, lastEventId: Option<nat>): Connection {
    Moved(Moved(c, Connecting, lastEventId, None, None), Connected, lastEventId, None, None)
  }

  function CursorParameter(cursor: Option<nat>): Parameter {
    match cursor case Some(n) => Numeric(n) case None => Missing
  }

  /** The URL of the event stream; it sets no header. */
  function CreateSseUrl(runId: Option<Text>, lastEventId: Option<nat>, limit: Parameter): HttpRequest {
    HttpRequest(runId, limit, CursorParameter(lastEventId), Missing)
  }

  function AfterDisconnect(c: Connection, reason: Text): Connection {
    Moved(c, Disconnected, None, Some(reason), None)
  }

  function FrameType(f: Frame): Text {
    match f
    case Logged(e) => e.eventType
    case ResetRequired(_) => ResetType()
    case Heartbeat(_) => Ascii("heartbeat")
  }

  class ClientState {
    var connection: Connection
    var events: seq<UiEvent>
    /** Every UI event ever recorded. */
    ghost var recorded: seq<UiEvent>

    ghost predicate Valid()
      reads this
    {
      events == Last(recorded, KEPT_UI_EVENTS)
    }

    constructor (initial: Connection)
      ensures Valid() && connection == initial && recorded == []
    {
      connection, events, recorded := initial, [], [];
    }

    method TransitionConnection(status: Status, lastEventId: Option<nat>, error: Option<Text>,
        reconnectAttempt: Option<nat>)
      modifies this`connection
      ensures connection == Moved(old(connection), status, lastEventId, error, reconnectAttempt)
    {
      connection := Connection(
        status, if lastEventId.Some? then lastEventId else connection.lastEventId, error,
        reconnectAttempt.GetOr(connection.reconnectAttempt));
    }

    /** The list keeps the last 200 events recorded, in order. */
    method RecordUiEvent(event: UiEvent)
      requires Valid()
      modifies this`events, this`recorded
      ensures Valid() && recorded == old(recorded) + [event]
    {
      var kept := if |events| > 199 then events[|events| - 199..] else events;
      events := kept + [event];
      recorded := recorded + [event];
    }

    /** The request carries the cursor that is passed here, in its URL only; the client's own cursor is not sent. */
    method Connect(runId: Option<Text>, lastEventId: Option<nat>, limit: Parameter) returns (http: HttpRequest)
      requires Valid()
      modifies this
      ensures Valid() && connection == AfterConnect(old(connection), lastEventId)
      ensures http == CreateSseUrl(runId, lastEventId, limit) && http.headerCursor == Missing
      ensures recorded == old(recorded) + [UiEvent(Ascii("sse.connect.requested"))]
    {
      TransitionConnection(Connecting, lastEventId, None, None);
      RecordUiEvent(UiEvent(Ascii("sse.connect.requested")));
      TransitionConnection(Connected, lastEventId, None, None);
      return CreateSseUrl(runId, lastEventId, limit);
    }

    method Disconnect(reason: Text)
      requires Valid()
      modifies this
      ensures Valid() && connection == AfterDisconnect(old(connection), reason)
      ensures recorded == old(recorded) + [UiEvent(Ascii("sse.disconnected"))]
    {
      TransitionConnection(Disconnected, None, Some(reason), None);
      RecordUiEvent(UiEvent(Ascii("sse.disconnected")));
    }

    method HandleEvent(f: Frame) returns (outcome: Outcome)
      requires Valid()
      modifies this
      ensures Valid() && (connection, outcome) == AfterFrame(old(connection), f)
      ensures recorded == old(recorded) + [UiEvent(if IsReset(f) then Ascii("sse.snapshot.required") else FrameType(f))]
    {
      if IsReset(f) {
        TransitionConnection(Reconnecting, None, None, Some(connection.reconnectAttempt + 1));
        RecordUiEvent(UiEvent(Ascii("sse.snapshot.required")));
        return SnapshotRequired;
      }
      var id := IdOf(f);
      TransitionConnection(Connected, if id.Some? then id else connection.lastEventId, None, Some(0));
      RecordUiEvent(UiEvent(FrameType(f)));
      return EventAccepted;
    }
  }

  // ---------- reconnect delay ----------

  datatype ReconnectPolicy = ReconnectPolicy(initialDelayMs: real, maxDelayMs: real, factor: real)

  function Power(base: real, n: nat): real { if n == 0 then 1.0 else base * Power(base, n - 1) }

  /** `Math.round`: to the nearest integer, halves upwards. */
  function Round(x: real): real { (x + 0.5).Floor as real }

  function Capped(delay: real, cap: real): real { if delay < cap then delay else cap }

  function Times(x: real, y: real): real { x * y }

  function ScaledDelay(p: ReconnectPolicy, scale: real): real {
    Capped(Round(Times(p.initialDelayMs, scale)), p.maxDelayMs)
  }

  function ReconnectDelay(attempt: nat, p: ReconnectPolicy): real { ScaledDelay(p, Power(p.factor, attempt)) }

  lemma {:induction false} PowerGrows(base: real, a: nat, b: nat)
    requires a <= b && base >= 1.0
    ensures 1.0 <= Power(base, a) <= Power(base, b)
    decreases b
  {
    if a < b {
      PowerGrows(base, a, b - 1);
      assert Power(base, b - 1) <= base * Power(base, b - 1);
    } else if b > 0 {
      PowerGrows(base, a - 1, b - 1);
      assert 1.0 <= base * Power(base, b - 1);
    }
  }

  lemma ScaledGrows(scale: real, x: real, y: real)
    requires scale >= 0.0 && x <= y
    ensures Times(scale, x) <= Times(scale, y)
  {
    assert scale * (y - x) >= 0.0;
  }

  lemma CappedRoundGrows(x: real, y: real, cap: real)
    requires x <= y
    ensures Capped(Round(x), cap) <= Capped(Round(y), cap) <= cap
  {
    assert (x + 0.5).Floor <= (y + 0.5).Floor;
  }

  lemma ScaledDelayGrows(p: ReconnectPolicy, x: real, y: real)
    requires x <= y && p.initialDelayMs >= 0.0
    ensures ScaledDelay(p, x) <= ScaledDelay(p, y) <= p.maxDelayMs
  {
    ScaledGrows(p.initialDelayMs, x, y);
    CappedRoundGrows(Times(p.initialDelayMs, x), Times(p.initialDelayMs, y), p.maxDelayMs);
  }

  /** The delay never shrinks from one attempt to a later one, and never passes the cap. */
  lemma DelayMonotone(a: nat, b: nat, p: ReconnectPolicy)
    requires a <= b && p.factor >= 1.0 && p.initialDelayMs >= 0.0
    ensures ReconnectDelay(a, p) <= ReconnectDelay(b, p) <= p.maxDelayMs
  {
    PowerGrows(p.factor, a, b);
    ScaledDelayGrows(p, Power(p.factor, a), Power(p.factor, b));
  }
}
