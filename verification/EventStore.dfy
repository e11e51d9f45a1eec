/**
 The in-memory event store: an append-only log with increasing event ids, and an
 append-only audit trail whose entries reference events of the log.
 */
module EventStore {
  import opened Wrappers
  import opened JsonText
  import opened CanonicalJson
  import opened Sequences

  datatype Event = Event(
    eventId: nat, eventType: Text, runId: Option<Text>, stepId: Option<Text>, severity: Text, payload: Json,
    timestamp: Text)

  /** An event as handed to the store; the clock fills a missing timestamp. */
  datatype EventInput = EventInput(
    eventType: Text, runId: Option<Text>, stepId: Option<Text>, severity: Option<Text>, payload: Option<Json>,
    timestamp: Text)

  datatype AuditEntry = AuditEntry(
    id: Text, eventId: nat, actor: Text, action: Text, target: Text, result: Text,
    runId: Option<Text>, stepId: Option<Text>, metadata: Json, createdAt: Text)

  datatype StoreError = EventValidation | AuditEventNotFound | AuditValidation

  predicate Increasing(log: seq<Event>) {
    forall i, j :: 0 <= i < j < |log| ==> log[i].eventId < log[j].eventId
  }

  function Later(id: int): Event -> bool { (e: Event) => e.eventId > id }

  /** The events with an id greater than `id`, in log order. */
  function After(log: seq<Event>, id: int): seq<Event> { Filter(log, Later(id)) }

  predicate HasEvent(log: seq<Event>, id: nat) {
    exists i :: 0 <= i < |log| && log[i].eventId == id
  }

  /** In an increasing log the events after an id are a suffix. */
  lemma {:induction false} AfterIsSuffix(log: seq<Event>, id: int) returns (k: nat)
    requires Increasing(log)
    ensures k <= |log| && After(log, id) == log[k..]
    ensures forall i :: 0 <= i < |log| ==> (log[i].eventId > id <==> k <= i)
  {
    if log == [] {
      k := 0;
    } else if log[0].eventId > id {
      FilterAll(log, Later(id));
      k := 0;
    } else {
      var j := AfterIsSuffix(log[1..], id);
      k := j + 1;
      assert log[k..] == log[1..][j..];
      forall i | 0 < i < |log| ensures log[i].eventId > id <==> k <= i {
        assert log[1..][i - 1] == log[i];
      }
    }
  }

  function StoredEvent(input: EventInput, id: nat): Event {
    Event(id, input.eventType, input.runId, input.stepId, input.severity.GetOr(Ascii("info")),
        input.payload.GetOr(Obj([])), input.timestamp)
  }

  predicate CompleteAudit(entry: AuditEntry) {
    entry.id != [] && entry.actor != [] && entry.action != [] && entry.target != [] && entry.result != []
  }

  class InMemoryEventStore {
    var nextEventId: nat
    var events: seq<Event>
    var auditEntries: seq<AuditEntry>

    /** Ids increase along the log, and every audit entry references an event of it. */
    ghost predicate Valid()
      reads this
    {
      && Increasing(events)
      && (forall i :: 0 <= i < |events| ==> events[i].eventId < nextEventId)
      && (forall i :: 0 <= i < |auditEntries| ==> HasEvent(events, auditEntries[i].eventId))
    }

    constructor ()
      ensures Valid() && events == [] && auditEntries == [] && nextEventId == 1
    {
      nextEventId, events, auditEntries := 1, [], [];
    }

    /** The id is taken before the event is checked, so a refused event leaves a hole in the numbering. */
    method AppendEvent(input: EventInput) returns (r: Result<Event, StoreError>)
      requires Valid()
      modifies this
      ensures Valid() && auditEntries == old(auditEntries) && nextEventId == old(nextEventId) + 1
      ensures input.eventType == [] ==> r == Err(EventValidation) && events == old(events)
      ensures input.eventType != [] ==>
        r == Ok(StoredEvent(input, old(nextEventId))) && events == old(events) + [r.value]
    {
      var id := nextEventId;
      nextEventId := nextEventId + 1;
      if input.eventType == [] { return Err(EventValidation); }
      var stored := StoredEvent(input, id);
      events := events + [stored];
      assert forall e :: HasEvent(old(events), e) ==> HasEvent(events, e) by {
        forall e | HasEvent(old(events), e) ensures HasEvent(events, e) {
          var i :| 0 <= i < |old(events)| && old(events)[i].eventId == e;
          assert events[i].eventId == e;
        }
      }
      return Ok(stored);
    }

    method AppendAudit(entry: AuditEntry) returns (r: Result<AuditEntry, StoreError>)
      requires Valid()
      modifies this`auditEntries
      ensures Valid()
      ensures r.Ok? <==> HasEvent(events, entry.eventId) && CompleteAudit(entry)
      ensures r.Ok? ==> r.value == entry && auditEntries == old(auditEntries) + [entry]
      ensures r.Err? ==> auditEntries == old(auditEntries)
      ensures r == Err(AuditEventNotFound) <==> !HasEvent(events, entry.eventId)
    {
      if !(exists i :: 0 <= i < |events| && events[i].eventId == entry.eventId) { return Err(AuditEventNotFound); }
      if !CompleteAudit(entry) { return Err(AuditValidation); }
      auditEntries := auditEntries + [entry];
      return Ok(entry);
    }

    method ListEvents(afterEventId: nat, limit: nat) returns (r: seq<Event>)
      requires Valid()
      ensures r == Take(After(events, afterEventId), limit)
      ensures exists k :: 0 <= k <= |events| && After(events, afterEventId) == events[k..]
    {
      ghost var k := AfterIsSuffix(events, afterEventId);
      return Take(After(events, afterEventId), limit);
    }

    /**
     The entries of the run, or all of them: exactly the positions of the trail whose entry belongs to it, in order.
     */
    method ListAudit(runId: Option<Text>) returns (r: seq<AuditEntry>)
      ensures exists at: seq<nat> ::
        && Selects(auditEntries, r, at)
        && forall i :: 0 <= i < |auditEntries| ==> (i in at <==> runId.None? || auditEntries[i].runId == runId)
    {
      ghost var at := FilterSelects(auditEntries, OfRun(runId));
      return Filter(auditEntries, OfRun(runId));
    }

    /**
     Appends an event and its audit entry. The pair is not atomic: when the audit entry is
     incomplete the event stays in the log. The entry always references the event of the same call.
     */
    method AppendEventAndAudit(event: EventInput, audit: AuditEntry)
      returns (r: Result<(Event, AuditEntry), StoreError>)
      requires Valid()
      modifies this
      ensures Valid() && nextEventId == old(nextEventId) + 1
      ensures r.Ok? <==> event.eventType != [] && CompleteAudit(audit)
      ensures r.Ok? ==>
        && r.value.0 == StoredEvent(event, old(nextEventId))
        && r.value.1 == audit.(eventId := old(nextEventId),
             runId := if audit.runId.Some? then audit.runId else event.runId)
        && auditEntries == old(auditEntries) + [r.value.1]
      ensures r.Err? ==> auditEntries == old(auditEntries)
      ensures events == if event.eventType == [] then old(events)
        else old(events) + [StoredEvent(event, old(nextEventId))]
    {
      var stored := AppendEvent(event);
      match stored
      case Err(error) => return Err(error);
      case Ok(e) =>
        assert events[|events| - 1] == e && HasEvent(events, e.eventId);
        var entry := AppendAudit(audit.(eventId := e.eventId,
            runId := if audit.runId.Some? then audit.runId else e.runId));
        match entry
        case Err(error) => return Err(error);
        case Ok(a) => return Ok((e, a));
    }
  }

  function OfRun(runId: Option<Text>): AuditEntry -> bool { (e: AuditEntry) => runId.None? || e.runId == runId }
}
