/**
 The resume protocol between an append-only log with a retention floor and a client that
 disconnects at will, as steps that may interleave in any order.
 */
module SseResume {
  import opened Wrappers
  import opened JsonText
  import opened EventStore
  import opened Sequences
  import opened SseStream
  import opened SseClient

  /**
   `log` is everything ever appended, of which events up to `gone` have been dropped from the store;
   `accepted` is what the client has accepted from the log, `start` the id it began after, and
   `pending` the frames sent to it and not yet handled.
   */
  datatype World = World(
    log: seq<Event>, gone: nat, floor: nat, client: Connection, start: nat, accepted: seq<Event>, pending: seq<Frame>)

  /** What stays the same: the run the client follows and the server's batch size. */
  datatype Session = Session(runId: Option<Text>, batchSize: nat)

  datatype Step =
    | Append(event: Event)
    | AdvanceFloor(floor: nat)
    | Drop(upTo: nat)
    /**
     `header` is the cursor that the transport puts into the `Last-Event-ID` header, if any; the client itself sets
     none.
     */
    | Connect(limit: Parameter, header: Option<nat>)
    | Deliver
    | Beat(eventId: Option<nat>)
    | Disconnect(reason: Text)

  function Position(w: World): nat { w.client.lastEventId.GetOr(w.start) }

  predicate Legal(w: World, step: Step) {
    match step
    case Append(event) => event.eventId > 0 && forall i :: 0 <= i < |w.log| ==> w.log[i].eventId < event.eventId
    case AdvanceFloor(floor) => w.floor <= floor
    case Drop(upTo) => w.gone <= upTo <= w.floor
    case _ => true
  }

  /** The request of a client that connects with its own cursor. */
  function RequestOf(s: Session, w: World, limit: Parameter, header: Option<nat>): HttpRequest {
    CreateSseUrl(s.runId, w.client.lastEventId, limit).(headerCursor := CursorParameter(header))
  }

  /** What the server sends in answer; nothing when it refuses the request. */
  function Replayed(s: Session, w: World, limit: Parameter, header: Option<nat>): seq<Frame> {
    match ReplayEvents(After(w.log, w.gone), Raw(RequestOf(s, w, limit, header)), Contract(s.batchSize, w.floor))
    case Ok(frames) => frames
    case Err(_) => []
  }

  /** The position that the server answers from: the cursor it sees, or what the store has dropped. */
  function From(w: World, header: Option<nat>): nat {
    if header.Some? && w.gone < header.value then header.value else w.gone
  }

  function Apply(s: Session, w: World, step: Step): World {
    match step
    case Append(event) => w.(log := w.log + [event])
    case AdvanceFloor(floor) => w.(floor := floor)
    case Drop(upTo) => w.(gone := upTo)
    case Connect(limit, header) =>
      var cursor := w.client.lastEventId;
      w.(client := AfterConnect(w.client, cursor), start := if cursor.None? then From(w, header) else w.start,
         pending := Replayed(s, w, limit, header))
    case Deliver =>
      if w.pending == [] then w
      else
        var frame := w.pending[0];
        var (client, outcome) := AfterFrame(w.client, frame);
        w.(client := client, pending := w.pending[1..],
           accepted := if outcome == EventAccepted && frame.Logged? then w.accepted + [frame.event] else w.accepted)
    case Beat(eventId) => w.(client := AfterFrame(w.client, Heartbeat(eventId)).0)
    case Disconnect(reason) => w.(client := AfterDisconnect(w.client, reason), pending := [])
  }

  function Run(s: Session, w: World, trace: seq<Step>): World
    decreases |trace|
  {
    if trace == [] then w else Run(s, Apply(s, w, trace[0]), trace[1..])
  }

  predicate LegalTrace(s: Session, w: World, trace: seq<Step>)
    decreases |trace|
  {
    trace == [] || (Legal(w, trace[0]) && LegalTrace(s, Apply(s, w, trace[0]), trace[1..]))
  }

  // ---------- the log as the client should see it ----------

  predicate Visible(e: Event, runId: Option<Text>) { Matches(e, runId) && e.eventType != ResetType() }

  function Shown(runId: Option<Text>): Event -> bool { (e: Event) => Visible(e, runId) }

  function ShownBeyond(runId: Option<Text>, position: nat): Event -> bool {
    (e: Event) => e.eventId > position && Visible(e, runId)
  }

  function ShownIn(runId: Option<Text>, lo: nat, hi: nat): Event -> bool {
    (e: Event) => lo < e.eventId <= hi && Visible(e, runId)
  }

  /** The visible events with an id greater than `position`. */
  function Beyond(log: seq<Event>, runId: Option<Text>, position: nat): seq<Event> {
    Filter(log, ShownBeyond(runId, position))
  }

  /** The visible events with an id in (`lo`, `hi`]. */
  function Window(log: seq<Event>, runId: Option<Text>, lo: nat, hi: nat): seq<Event> {
    Filter(log, ShownIn(runId, lo, hi))
  }

  /** The visible events still in flight. */
  function InFlight(pending: seq<Frame>, runId: Option<Text>): seq<Event> {
    if pending == [] then []
    else if pending[0].Logged? && Visible(pending[0].event, runId)
      then [pending[0].event] + InFlight(pending[1..], runId)
    else InFlight(pending[1..], runId)
  }

  ghost predicate Invariant(s: Session, w: World) {
    && Increasing(w.log) && (forall i :: 0 <= i < |w.log| ==> w.log[i].eventId > 0) && w.gone <= w.floor
    && (Position(w) == w.start || (w.start < Position(w) && HasEvent(w.log, Position(w))))
    && w.accepted == Window(w.log, s.runId, w.start, Position(w))
    && InFlight(w.pending, s.runId) <= Beyond(w.log, s.runId, Position(w))
    && (forall i :: 0 <= i < |w.pending| ==> w.pending[i].Logged? ==> Matches(w.pending[i].event, s.runId))
    && (forall i :: 0 <= i < |w.pending| ==> !w.pending[i].Heartbeat?)
  }

  // ---------- lemmas about the log ----------

  lemma TailIncreasing(log: seq<Event>)
    requires Increasing(log) && log != []
    ensures Increasing(log[1..]) && forall i :: 0 <= i < |log[1..]| ==> log[1..][i].eventId > log[0].eventId
  {
    forall i | 0 <= i < |log[1..]| ensures log[1..][i].eventId > log[0].eventId {
      assert log[1..][i] == log[i + 1];
    }
  }

  lemma WindowEmpty(log: seq<Event>, runId: Option<Text>, lo: nat, hi: nat)
    requires (forall i :: 0 <= i < |log| ==> log[i].eventId > hi) || hi <= lo
    ensures Window(log, runId, lo, hi) == []
  {
    FilterNone(log, ShownIn(runId, lo, hi));
  }

  /** What lies beyond `lo` is what lies up to `hi`, then what lies beyond `hi`. */
  lemma {:induction false} BeyondSplits(log: seq<Event>, runId: Option<Text>, lo: nat, hi: nat)
    requires Increasing(log) && lo <= hi
    ensures Beyond(log, runId, lo) == Window(log, runId, lo, hi) + Beyond(log, runId, hi)
  {
    if log == [] { return; }
    TailIncreasing(log);
    if log[0].eventId > hi {
      WindowEmpty(log, runId, lo, hi);
      FilterAgree(log, ShownBeyond(runId, lo), ShownBeyond(runId, hi)) by {
        assert forall i :: 0 < i < |log| ==> log[i].eventId > log[0].eventId;
      }
    } else {
      BeyondSplits(log[1..], runId, lo, hi);
    }
  }

  /** Accepting the next visible event moves it from one side of the position to the other. */
  lemma AcceptNext(log: seq<Event>, runId: Option<Text>, lo: nat, position: nat, e: Event)
    requires Increasing(log) && lo <= position
    requires Beyond(log, runId, position) != [] && Beyond(log, runId, position)[0] == e
    ensures e.eventId > position && HasEvent(log, e.eventId)
    ensures Window(log, runId, lo, e.eventId) == Window(log, runId, lo, position) + [e]
    ensures Beyond(log, runId, e.eventId) == Beyond(log, runId, position)[1..]
  {
    NextVisible(log, runId, position);
    BeyondSplits(log, runId, lo, position);
    BeyondSplits(log, runId, lo, e.eventId);
    BeyondSplits(log, runId, position, e.eventId);
    var w, rest := Window(log, runId, lo, position), Beyond(log, runId, e.eventId);
    assert w + ([e] + rest) == (w + [e]) + rest;
    SameTail(Window(log, runId, lo, e.eventId), w + [e], rest);
  }

  lemma {:induction false} NextVisible(log: seq<Event>, runId: Option<Text>, position: nat)
    requires Increasing(log) && Beyond(log, runId, position) != []
    ensures
      var e := Beyond(log, runId, position)[0];
      && e.eventId > position && HasEvent(log, e.eventId)
      && Window(log, runId, position, e.eventId) == [e]
  {
    TailIncreasing(log);
    var tail := log[1..];
    if log[0].eventId > position && Visible(log[0], runId) {
      WindowEmpty(tail, runId, position, log[0].eventId);
    } else {
      NextVisible(tail, runId, position);
      var e := Beyond(tail, runId, position)[0];
      var i :| 0 <= i < |tail| && tail[i].eventId == e.eventId;
      assert log[i + 1] == tail[i];
    }
  }

  lemma {:induction false} InFlightOfFrames(events: seq<Event>, runId: Option<Text>)
    ensures InFlight(Frames(events), runId) == Filter(events, Shown(runId))
  {
    if events != [] {
      InFlightOfFrames(events[1..], runId);
      assert Frames(events)[1..] == Frames(events[1..]);
    }
  }

  /** The visible events of a replayed batch are the first ones beyond the cursor. */
  lemma BatchInFlight(log: seq<Event>, gone: nat, runId: Option<Text>, cursor: nat, n: nat)
    ensures
      var batch := Filter(Take(After(After(log, gone), cursor), n), ForRun(runId));
      var position := if gone < cursor then cursor else gone;
      && InFlight(Frames(batch), runId) == Filter(Take(After(log, position), n), Shown(runId))
      && InFlight(Frames(batch), runId) <= Beyond(log, runId, position)
      && forall i :: 0 <= i < |batch| ==> Matches(batch[i], runId)
  {
    var position := if gone < cursor then cursor else gone;
    var events := After(log, position);
    FilterTwice(log, Later(gone), Later(cursor), Later(position));
    var batch := Filter(Take(events, n), ForRun(runId));
    FilterMembers(Take(events, n), ForRun(runId));
    forall i | 0 <= i < |batch| ensures Matches(batch[i], runId) { assert batch[i] in batch; }
    InFlightOfFrames(batch, runId);
    FilterTwice(Take(events, n), ForRun(runId), Shown(runId), Shown(runId));
    FilterPrefix(events, n, Shown(runId));
    FilterTwice(log, Later(position), Shown(runId), ShownBeyond(runId, position));
  }

  // ---------- every step keeps the invariant ----------

  /** A new event is in no window up to the position, and comes last of what is beyond it. */
  lemma AppendedLog(log: seq<Event>, runId: Option<Text>, lo: nat, position: nat, e: Event)
    requires e.eventId > position || position <= lo
    ensures Window(log + [e], runId, lo, position) == Window(log, runId, lo, position)
    ensures Beyond(log, runId, position) <= Beyond(log + [e], runId, position)
  {
    FilterConcat(log, [e], ShownIn(runId, lo, position));
    FilterConcat(log, [e], ShownBeyond(runId, position));
    WindowEmpty([e], runId, lo, position);
  }

  lemma StillHasEvent(log: seq<Event>, e: Event, id: nat)
    requires HasEvent(log, id)
    ensures HasEvent(log + [e], id)
  {
    var i :| 0 <= i < |log| && log[i].eventId == id;
    assert (log + [e])[i].eventId == id;
  }

  lemma AppendKeeps(s: Session, w: World, e: Event)
    requires Invariant(s, w) && Legal(w, Append(e))
    ensures Invariant(s, Apply(s, w, Append(e)))
  {
    if Position(w) != w.start { StillHasEvent(w.log, e, Position(w)); }
    AppendedLog(w.log, s.runId, w.start, Position(w), e);
  }

  /** The events the server offers: none when it refuses the request or answers with a reset, else its first batch. */
  function Offered(s: Session, w: World, limit: Parameter, header: Option<nat>): seq<Event> {
    var parsed := ParseLimit(limit, Contract(s.batchSize, w.floor));
    if parsed.Err? || (header.Some? && header.value < w.floor) then []
    else Take(After(w.log, From(w, header)), Min(parsed.value, s.batchSize))
  }

  lemma ReplayedIsOffered(s: Session, w: World, limit: Parameter, header: Option<nat>)
    requires w.gone <= w.floor
    ensures
      var frames := Replayed(s, w, limit, header);
      && InFlight(frames, s.runId) == Filter(Offered(s, w, limit, header), Shown(s.runId))
      && InFlight(frames, s.runId) <= Beyond(w.log, s.runId, From(w, header))
      && (forall i :: 0 <= i < |frames| && frames[i].Logged? ==> Matches(frames[i].event, s.runId))
      && (forall i :: 0 <= i < |frames| ==> !frames[i].Heartbeat?)
  {
    var parsed := ParseLimit(limit, Contract(s.batchSize, w.floor));
    if parsed.Ok? && (header.None? || header.value >= w.floor) {
      var n := Min(parsed.value, s.batchSize);
      BatchInFlight(w.log, w.gone, s.runId, header.GetOr(0), n);
      assert Replayed(s, w, limit, header)
        == Frames(Filter(Take(After(After(w.log, w.gone), header.GetOr(0)), n), ForRun(s.runId)));
    } else if parsed.Ok? {
      assert Replayed(s, w, limit, header) == [ResetRequired(w.floor)];
      assert InFlight([ResetRequired(w.floor)], s.runId) == InFlight([], s.runId);
    }
  }

  /**
   A connect keeps the place when the server sees the client's cursor, or the client has none; otherwise when none of
   the events offered is visible, or no visible event lies between the position the server answers from and the cursor.
   */
  predicate KeepsPlace(s: Session, w: World, limit: Parameter, header: Option<nat>) {
    || w.client.lastEventId.None? || header == w.client.lastEventId
    || (forall e :: e in Offered(s, w, limit, header) ==> !Visible(e, s.runId))
    || (forall e :: e in w.log ==> !(Visible(e, s.runId) && Between(e.eventId, From(w, header), Position(w))))
  }

  /** After one of the positions and not after the other. */
  predicate Between(id: nat, a: nat, b: nat) { a < id <= b || b < id <= a }

  lemma WindowBetween(log: seq<Event>, runId: Option<Text>, a: nat, b: nat)
    ensures Window(log, runId, if a < b then a else b, if a < b then b else a) == [] <==>
      forall e :: e in log ==> !(Visible(e, runId) && Between(e.eventId, a, b))
  {
    FilterNone(log, ShownIn(runId, if a < b then a else b, if a < b then b else a));
  }

  lemma ConnectKeeps(s: Session, w: World, limit: Parameter, header: Option<nat>)
    requires Invariant(s, w) && KeepsPlace(s, w, limit, header)
    ensures Invariant(s, Apply(s, w, Connect(limit, header)))
  {
    ReplayedIsOffered(s, w, limit, header);
    FilterNone(Offered(s, w, limit, header), Shown(s.runId));
    ResumeElsewhereIff(w.log, s.runId, From(w, header), Position(w));
    WindowBetween(w.log, s.runId, From(w, header), Position(w));
    WindowEmpty(w.log, s.runId, From(w, header), From(w, header));
    WindowEmpty(w.log, s.runId, w.start, w.start);
    if header.Some? && header.value < w.gone { assert Offered(s, w, limit, header) == []; }
  }

  lemma DeliverKeeps(s: Session, w: World)
    requires Invariant(s, w)
    ensures Invariant(s, Apply(s, w, Deliver))
  {
    if w.pending == [] { return; }
    var frame, rest := w.pending[0], w.pending[1..];
    if frame.Logged? && Visible(frame.event, s.runId) {
      var coming := InFlight(w.pending, s.runId);
      assert coming == [frame.event] + InFlight(rest, s.runId);
      assert Beyond(w.log, s.runId, Position(w))[0] == coming[0];
      AcceptNext(w.log, s.runId, w.start, Position(w), frame.event);
      assert coming[1..] == InFlight(rest, s.runId);
    } else {
      assert IsReset(frame);
    }
  }

  /** A connect that keeps the place, and a heartbeat that does not move the cursor. */
  predicate StepKeepsPlace(s: Session, w: World, step: Step) {
    && (step.Connect? ==> KeepsPlace(s, w, step.limit, step.header))
    && (step.Beat? ==> step.eventId.None? || step.eventId == w.client.lastEventId)
  }

  lemma StepKeeps(s: Session, w: World, step: Step)
    requires Invariant(s, w) && Legal(w, step) && StepKeepsPlace(s, w, step)
    ensures Invariant(s, Apply(s, w, step))
  {
    match step
    case Append(e) => AppendKeeps(s, w, e);
    case Connect(limit, header) => ConnectKeeps(s, w, limit, header);
    case Deliver => DeliverKeeps(s, w);
    case _ =>
  }

  predicate AlwaysKeepsPlace(s: Session, w: World, trace: seq<Step>)
    decreases |trace|
  {
    trace == [] || (StepKeepsPlace(s, w, trace[0]) && AlwaysKeepsPlace(s, Apply(s, w, trace[0]), trace[1..]))
  }

  /** Every connect repeats the client's cursor in the header, and every heartbeat leaves that cursor alone. */
  predicate FollowsClient(s: Session, w: World, trace: seq<Step>)
    decreases |trace|
  {
    trace == [] ||
    (&& (trace[0].Connect? ==> trace[0].header == w.client.lastEventId)
     && (trace[0].Beat? ==> trace[0].eventId.None? || trace[0].eventId == w.client.lastEventId)
     && FollowsClient(s, Apply(s, w, trace[0]), trace[1..]))
  }

  lemma {:induction false} HeadersKeepPlace(s: Session, w: World, trace: seq<Step>)
    requires FollowsClient(s, w, trace)
    ensures AlwaysKeepsPlace(s, w, trace)
    decreases |trace|
  {
    if trace != [] { HeadersKeepPlace(s, Apply(s, w, trace[0]), trace[1..]); }
  }

  lemma {:induction false} RunKeeps(s: Session, w: World, trace: seq<Step>)
    requires Invariant(s, w) && LegalTrace(s, w, trace) && AlwaysKeepsPlace(s, w, trace)
    ensures Invariant(s, Run(s, w, trace))
    decreases |trace|
  {
    if trace != [] {
      StepKeeps(s, w, trace[0]);
      RunKeeps(s, Apply(s, w, trace[0]), trace[1..]);
    }
  }

  /** A client about to connect for the first time, with or without a cursor of its own. */
  ghost predicate Initial(w: World) {
    && Increasing(w.log) && (forall i :: 0 <= i < |w.log| ==> w.log[i].eventId > 0) && w.gone <= w.floor
    && w.start == w.client.lastEventId.GetOr(w.gone) && w.accepted == [] && w.pending == []
  }

  /** What exactly-once, in order and without a gap means for what was accepted so far. */
  ghost predicate ExactlyOnce(s: Session, w: World) { w.accepted == Window(w.log, s.runId, w.start, Position(w)) }

  /**
   Resume is exactly-once and in order when every connect keeps the place, in particular when the transport repeats the
   client's cursor in the header (`HeadersKeepPlace`). However appends, floor advances, drops, deliveries, heartbeats
   that do not move the cursor, disconnects and reconnects interleave, the events the client has accepted are exactly
   the visible events of the log between its starting cursor and its cursor: a prefix of the filtered log.
   */
  lemma ResumeIsExactlyOnce(s: Session, w: World, trace: seq<Step>)
    requires Initial(w) && LegalTrace(s, w, trace) && AlwaysKeepsPlace(s, w, trace)
    ensures
      var end := Run(s, w, trace);
      && ExactlyOnce(s, end)
      && end.accepted <= Beyond(end.log, s.runId, end.start)
      && (w.client.lastEventId.Some? ==> end.start == w.start)
  {
    var end := Run(s, w, trace);
    WindowEmpty(w.log, s.runId, w.start, w.start);
    RunKeeps(s, w, trace);
    BeyondSplits(end.log, s.runId, end.start, Position(end));
    if w.client.lastEventId.Some? { StartKept(s, w, trace); }
  }

  // ---------- a connect that the server answers from another position ----------

  function Deliveries(s: Session, w: World, n: nat): World
    decreases n
  {
    if n == 0 then w else Deliveries(s, Apply(s, w, Deliver), n - 1)
  }

  lemma {:induction false} DeliveriesKeep(s: Session, w: World, n: nat)
    requires Invariant(s, w)
    ensures Invariant(s, Deliveries(s, w, n))
    decreases n
  {
    if n > 0 {
      DeliverKeeps(s, w);
      DeliveriesKeep(s, Apply(s, w, Deliver), n - 1);
    }
  }

  /** Delivering up to the first visible frame accepts exactly that event and moves the cursor to it. */
  lemma {:induction false} FirstVisible(s: Session, w: World) returns (n: nat)
    requires InFlight(w.pending, s.runId) != []
    requires forall i :: 0 <= i < |w.pending| ==> w.pending[i].Logged? ==> Matches(w.pending[i].event, s.runId)
    requires forall i :: 0 <= i < |w.pending| ==> !w.pending[i].Heartbeat?
    ensures n <= |w.pending|
    ensures
      var e, end := InFlight(w.pending, s.runId)[0], Deliveries(s, w, n);
      && end.accepted == w.accepted + [e] && end.client.lastEventId == Some(e.eventId)
      && end.log == w.log && end.start == w.start
    decreases |w.pending|
  {
    var next := Apply(s, w, Deliver);
    if w.pending[0].Logged? && Visible(w.pending[0].event, s.runId) {
      n := 1;
      assert Deliveries(s, w, 1) == next;
    } else {
      assert IsReset(w.pending[0]);
      assert forall i :: 0 <= i < |next.pending| ==> next.pending[i] == w.pending[i + 1];
      var m := FirstVisible(s, next);
      n := m + 1;
    }
  }

  /** Accepting an event from before the cursor, or past a gap, is never exactly-once. */
  lemma WrongNextEvent(s: Session, w: World, e: Event, from: nat)
    requires Invariant(s, w) && Beyond(w.log, s.runId, from) != [] && Beyond(w.log, s.runId, from)[0] == e
    requires
      var c := Position(w);
      Window(w.log, s.runId, if from < c then from else c, if from < c then c else from) != []
    ensures w.accepted + [e] != Window(w.log, s.runId, w.start, e.eventId)
  {
    var c := Position(w);
    NextVisible(w.log, s.runId, from);
    if from < c {
      BeyondSplits(w.log, s.runId, from, c);
      assert Window(w.log, s.runId, from, c)[0] == e;
      FilterMembers(w.log, ShownIn(s.runId, from, c));
      assert e in Window(w.log, s.runId, from, c);
      WindowGrows(w.log, s.runId, w.start, e.eventId, c);
    } else {
      WindowJoins(w.log, s.runId, w.start, c, from);
      WindowJoins(w.log, s.runId, w.start, from, e.eventId);
    }
  }

  lemma WindowGrows(log: seq<Event>, runId: Option<Text>, lo: nat, mid: nat, hi: nat)
    requires Increasing(log) && mid <= hi
    ensures |Window(log, runId, lo, mid)| <= |Window(log, runId, lo, hi)|
  {
    if mid <= lo { WindowEmpty(log, runId, lo, mid); } else { WindowJoins(log, runId, lo, mid, hi); }
  }

  lemma WindowJoins(log: seq<Event>, runId: Option<Text>, lo: nat, mid: nat, hi: nat)
    requires Increasing(log) && lo <= mid <= hi
    ensures Window(log, runId, lo, hi) == Window(log, runId, lo, mid) + Window(log, runId, mid, hi)
  {
    BeyondSplits(log, runId, lo, mid);
    BeyondSplits(log, runId, mid, hi);
    BeyondSplits(log, runId, lo, hi);
    var a, b, rest := Window(log, runId, lo, mid), Window(log, runId, mid, hi), Beyond(log, runId, hi);
    assert a + (b + rest) == (a + b) + rest;
    SameTail(Window(log, runId, lo, hi), a + b, rest);
  }

  /**
   The server answers from the cursor in the header, and from the start of the store without one, whatever the client
   put into its URL. For a client that is in place, delivering the answer stays exactly-once if and only if the connect
   keeps the place: it offers nothing visible, or no visible event lies between that position and the client's cursor.
   */
  lemma ConnectIff(s: Session, w: World, limit: Parameter, header: Option<nat>)
    requires Invariant(s, w) && w.client.lastEventId.Some?
    ensures
      var after := Apply(s, w, Connect(limit, header));
      (forall n: nat :: n <= |after.pending| ==> ExactlyOnce(s, Deliveries(s, after, n))) <==>
          KeepsPlace(s, w, limit, header)
  {
    var after := Apply(s, w, Connect(limit, header));
    if KeepsPlace(s, w, limit, header) {
      ConnectKeeps(s, w, limit, header);
      forall n: nat | n <= |after.pending| ensures ExactlyOnce(s, Deliveries(s, after, n)) {
        DeliveriesKeep(s, after, n);
      }
    } else {
      var from := From(w, header);
      ReplayedIsOffered(s, w, limit, header);
      FilterNone(Offered(s, w, limit, header), Shown(s.runId));
      WindowBetween(w.log, s.runId, from, Position(w));
      var n := FirstVisible(s, after);
      var e := InFlight(after.pending, s.runId)[0];
      assert Beyond(w.log, s.runId, from)[0] == e;
      WrongNextEvent(s, w, e, from);
      assert !ExactlyOnce(s, Deliveries(s, after, n));
    }
  }

  /**
   A transport that keeps the id of every frame, as the reset frame has the floor for its id, comes back with the floor:
   the server then resumes there, and what lies between the client's cursor and the floor is skipped in silence.
   */
  lemma ResetIdSkips(s: Session, w: World, limit: Parameter)
    requires Invariant(s, w) && w.client.lastEventId.Some? && w.client.lastEventId.value < w.floor
    requires exists e :: e in Offered(s, w, limit, Some(w.floor)) && Visible(e, s.runId)
    ensures
      var after := Apply(s, w, Connect(limit, Some(w.floor)));
      (forall n: nat :: n <= |after.pending| ==> ExactlyOnce(s, Deliveries(s, after, n))) <==>
          forall e :: e in w.log && Visible(e, s.runId) ==> !(w.client.lastEventId.value < e.eventId <= w.floor)
  {
    ConnectIff(s, w, limit, Some(w.floor));
    assert IdOf(ResetRequired(w.floor)) == Some(w.floor);
  }

  /** A heartbeat that carries an id puts the client out of place exactly when it steps over a visible event. */
  lemma BeatIff(s: Session, w: World, id: nat)
    requires Invariant(s, w)
    ensures
      var to := if id < w.start then w.start else id;
      ExactlyOnce(s, Apply(s, w, Beat(Some(id)))) <==>
        forall e :: e in w.log ==> !(Visible(e, s.runId) && Between(e.eventId, to, Position(w)))
  {
    var p, to := Position(w), if id < w.start then w.start else id;
    WindowBetween(w.log, s.runId, to, p);
    WindowEmpty(w.log, s.runId, w.start, w.start);
    if id < w.start { WindowEmpty(w.log, s.runId, w.start, id); }
    if to < p { WindowJoins(w.log, s.runId, w.start, to, p); } else { WindowJoins(w.log, s.runId, w.start, p, to); }
  }

  /**
   The concrete duplicate: a client that has accepted the one event of the log and connects again gets and accepts it
   again, and does so on every further connect.
   */
  lemma ReconnectDuplicates(s: Session, w: World, e: Event)
    requires s.batchSize >= 1 && Visible(e, s.runId) && e.eventId > 0
    requires w.log == [e] && w.gone == 0 && w.floor == 0 && w.start == 0 && w.client.lastEventId == Some(e.eventId)
    ensures
      var again := Apply(s, Apply(s, w, Connect(Missing, None)), Deliver);
      again.accepted == w.accepted + [e] && again.client.lastEventId == Some(e.eventId) && again.log == [e]
  {
    var after := Apply(s, w, Connect(Missing, None));
    FilterAll([e], Later(0));
    FilterAll([e], ForRun(s.runId));
    assert after.pending == Frames([e]);
    assert Frames([e])[0] == Logged(e);
  }

  lemma {:induction false} StartKept(s: Session, w: World, trace: seq<Step>)
    requires w.client.lastEventId.Some?
    ensures Run(s, w, trace).start == w.start && Run(s, w, trace).client.lastEventId.Some?
    decreases |trace|
  {
    if trace != [] { StartKept(s, Apply(s, w, trace[0]), trace[1..]); }
  }

  /**
   A cursor below the floor that reaches the server is answered with a reset and nothing else: no gap is ever
   delivered.
   */
  lemma BelowFloorIsReset(s: Session, w: World, limit: Parameter)
    requires w.client.lastEventId.Some? && w.client.lastEventId.value < w.floor
    ensures
      var next := Apply(s, w, Connect(limit, w.client.lastEventId));
      next.pending == (if ParseLimit(limit, Contract(s.batchSize, w.floor)).Ok? then [ResetRequired(w.floor)] else [])
      && next.accepted == w.accepted
  {
  }

  /**
   The reset is sticky: the client keeps its old cursor when a reset arrives, so once its cursor is below the floor and
   nothing visible is in flight, no legal continuation ever moves the cursor or delivers another event.
   */
  lemma {:induction false} ResetIsSticky(s: Session, w: World, trace: seq<Step>)
    requires w.client.lastEventId.Some? && w.client.lastEventId.value < w.floor && LegalTrace(s, w, trace)
    requires FollowsClient(s, w, trace)
    requires forall i :: 0 <= i < |w.pending| ==> IsReset(w.pending[i])
    ensures
      var end := Run(s, w, trace);
      end.client.lastEventId == w.client.lastEventId && end.accepted == w.accepted
    decreases |trace|
  {
    if trace != [] {
      var next := Apply(s, w, trace[0]);
      assert next.client.lastEventId == w.client.lastEventId;
      ResetIsSticky(s, next, trace[1..]);
    }
  }

  /**
   Resuming from another position than the cursor (after a heartbeat that carried an id, or a connect that passed
   no cursor) delivers the same events exactly when no visible event lies between the two.
   */
  lemma ResumeElsewhereIff(log: seq<Event>, runId: Option<Text>, a: nat, b: nat)
    requires Increasing(log)
    ensures Beyond(log, runId, a) == Beyond(log, runId, b) <==>
      Window(log, runId, if a < b then a else b, if a < b then b else a) == []
  {
    var lo, hi := if a < b then a else b, if a < b then b else a;
    BeyondSplits(log, runId, lo, hi);
    assert |Beyond(log, runId, lo)| == |Window(log, runId, lo, hi)| + |Beyond(log, runId, hi)|;
  }

  /** The default heartbeat carries id 0 and rewinds the cursor to the start of the log. */
  lemma DefaultHeartbeatRewinds(c: Connection)
    requires c.lastEventId.Some? && c.lastEventId.value > 0
    ensures AfterFrame(c, Heartbeat(Some(0))).0.lastEventId == Some(0) != c.lastEventId
  {
  }

  /** Whatever cursor a connect passes, its request is answered as one without a cursor, from the start of the store. */
  lemma UrlCursorIsIgnored(log: seq<Event>, runId: Option<Text>, cursor: Option<nat>, limit: Parameter,
      contract: Contract)
    ensures ReplayEvents(log, Raw(CreateSseUrl(runId, cursor, limit)), contract)
      == ReplayEvents(log, Raw(CreateSseUrl(runId, None, limit)), contract)
    ensures runId == None && limit == Missing && ValidContract(contract) ==>
      ReplayEvents(log, Raw(CreateSseUrl(runId, cursor, limit)), contract) ==
          Ok(Frames(Take(After(log, 0), contract.batchSize)))
  {
    FilterAll(Take(After(log, 0), contract.batchSize), ForRun(None));
  }
}
