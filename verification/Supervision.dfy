/** Supervision of attempts by heartbeat: the bands of silence, and what they say over time. */
module Supervision {
  import opened Wrappers

  datatype Thresholds = Thresholds(heartbeatMs: int, unresponsiveMs: int, failureMs: int, timeoutMs: int)
  {
    predicate Valid() { 0 < heartbeatMs < unresponsiveMs < failureMs < timeoutMs }
  }

  datatype State = Running | HeartbeatDue | TimeoutDecisionRequired | Unresponsive | Failed

  datatype Attempt = Attempt(startedAtMs: int, lastHeartbeatAtMs: int)

  datatype SupervisionError = MissingId | AlreadySupervised | UnknownAttempt | HeartbeatBackwards

  function AtLeastZero(n: int): nat { if n < 0 then 0 else n }

  function Silence(a: Attempt, observedAtMs: int): nat { AtLeastZero(observedAtMs - a.lastHeartbeatAtMs) }

  function Elapsed(a: Attempt, observedAtMs: int): nat { AtLeastZero(observedAtMs - a.startedAtMs) }

  /** The timeout question is asked first, but only of attempts that still respond. */
  function Classify(t: Thresholds, a: Attempt, observedAtMs: int): State {
    if Elapsed(a, observedAtMs) >= t.timeoutMs && Silence(a, observedAtMs) < t.unresponsiveMs
      then TimeoutDecisionRequired
    else if Silence(a, observedAtMs) >= t.failureMs then Failed
    else if Silence(a, observedAtMs) >= t.unresponsiveMs then Unresponsive
    else if Silence(a, observedAtMs) >= t.heartbeatMs then HeartbeatDue
    else Running
  }

  function Severity(s: State): nat {
    match s
    case Running => 0
    case HeartbeatDue => 1
    case TimeoutDecisionRequired => 2
    case Unresponsive => 3
    case Failed => 4
  }

  type Attempts = map<string, Attempt>

  class AttemptSupervisor {
    const thresholds: Thresholds
    var attempts: Attempts

    constructor (thresholds: Thresholds)
      requires thresholds.Valid()
      ensures this.thresholds == thresholds && attempts == map[]
    {
      this.thresholds := thresholds;
      attempts := map[];
    }

    method RegisterAttempt(id: string, startedAtMs: int, initialHeartbeatAtMs: int)
      returns (r: Result<(), SupervisionError>)
      modifies this
      ensures r == (if id == "" then Err(MissingId) else if id in old(attempts) then Err(AlreadySupervised) else Ok(()))
      ensures attempts == AfterCall(old(attempts), Register(id, startedAtMs, initialHeartbeatAtMs))
    {
      if id == "" { return Err(MissingId); }
      if id in attempts { return Err(AlreadySupervised); }
      attempts := attempts[id := Attempt(startedAtMs, initialHeartbeatAtMs)];
      return Ok(());
    }

    /** A heartbeat is judged at its own time, so the attempt is never silent then. */
    method RecordHeartbeat(id: string, heartbeatAtMs: int) returns (r: Result<State, SupervisionError>)
      requires thresholds.Valid()
      modifies this
      ensures r.Ok? <==> id in old(attempts) && heartbeatAtMs >= old(attempts)[id].lastHeartbeatAtMs
      ensures r.Ok? ==> r.value == Running || r.value == TimeoutDecisionRequired
      ensures attempts == AfterCall(old(attempts), Heartbeat(id, heartbeatAtMs))
    {
      if id !in attempts { return Err(UnknownAttempt); }
      if heartbeatAtMs < attempts[id].lastHeartbeatAtMs { return Err(HeartbeatBackwards); }
      attempts := attempts[id := attempts[id].(lastHeartbeatAtMs := heartbeatAtMs)];
      return Ok(Classify(thresholds, attempts[id], heartbeatAtMs));
    }

    /**
     Failure and unresponsiveness depend on the silence alone; a long run is questioned only while it still responds.
     */
    method EvaluateAttempt(id: string, observedAtMs: int) returns (r: Result<State, SupervisionError>)
      requires thresholds.Valid()
      ensures id !in attempts ==> r == Err(UnknownAttempt)
      ensures id in attempts ==>
        var silence := observedAtMs - attempts[id].lastHeartbeatAtMs;
        var overdue := observedAtMs - attempts[id].startedAtMs >= thresholds.timeoutMs;
        && r.Ok?
        && (r.value == Failed <==> thresholds.failureMs <= silence)
        && (r.value == Unresponsive <==> thresholds.unresponsiveMs <= silence < thresholds.failureMs)
        && (r.value == TimeoutDecisionRequired <==> silence < thresholds.unresponsiveMs && overdue)
        && (r.value == HeartbeatDue <==> thresholds.heartbeatMs <= silence < thresholds.unresponsiveMs && !overdue)
        && (r.value == Running <==> silence < thresholds.heartbeatMs && !overdue)
    {
      if id !in attempts { return Err(UnknownAttempt); }
      return Ok(Classify(thresholds, attempts[id], observedAtMs));
    }
  }

  /** A refused call changes nothing. */
  datatype Call =
    | Register(id: string, startedAtMs: int, initialHeartbeatAtMs: int)
    | Heartbeat(id: string, heartbeatAtMs: int)
    | Evaluate(id: string)

  function AfterCall(attempts: Attempts, c: Call): Attempts {
    match c
    case Register(id, started, initial) =>
      if id == "" || id in attempts then attempts else attempts[id := Attempt(started, initial)]
    case Heartbeat(id, at) =>
      if id !in attempts || at < attempts[id].lastHeartbeatAtMs then attempts
      else attempts[id := attempts[id].(lastHeartbeatAtMs := at)]
    case Evaluate(_) => attempts
  }

  // ---------- any sequence of calls ----------

  ghost predicate IsTrace(states: seq<Attempts>, calls: seq<Call>) {
    && |states| == |calls| + 1 && states[0] == map[]
    && forall i :: 0 <= i < |calls| ==> states[i + 1] == AfterCall(states[i], calls[i])
  }

  /** An attempt stays supervised, keeps its start, and its last heartbeat never goes back. */
  lemma {:induction false} HeartbeatNeverGoesBack(states: seq<Attempts>, calls: seq<Call>, i: nat, j: nat, id: string)
    requires IsTrace(states, calls) && i <= j <= |calls| && id in states[i]
    ensures id in states[j] && states[j][id].startedAtMs == states[i][id].startedAtMs
    ensures states[j][id].lastHeartbeatAtMs >= states[i][id].lastHeartbeatAtMs
    ensures (forall k :: i <= k < j ==> !(calls[k].Heartbeat? && calls[k].id == id)) ==> states[j][id] == states[i][id]
    decreases j
  {
    if i < j {
      HeartbeatNeverGoesBack(states, calls, i, j - 1, id);
      assert states[j] == AfterCall(states[j - 1], calls[j - 1]);
    }
  }

  /**
   Over any calls, with ordered thresholds: an attempt is reported as unresponsive or failed exactly after that long
   without an accepted heartbeat, however long it has run; it is asked for a timeout decision only while it still
   responds; and between two evaluations without a heartbeat its severity does not improve.
   */
  lemma SupervisionOverTime(t: Thresholds, states: seq<Attempts>, calls: seq<Call>, i: nat, j: nat, id: string,
      earlier: int, later: int)
    requires t.Valid() && IsTrace(states, calls) && i <= j <= |calls| && id in states[i] && earlier <= later
    requires forall k :: i <= k < j ==> !(calls[k].Heartbeat? && calls[k].id == id)
    ensures id in states[j] && Severity(Classify(t, states[i][id], earlier)) <=
      Severity(Classify(t, states[j][id], later))
    ensures var silence := later - states[i][id].lastHeartbeatAtMs;
      && (Classify(t, states[j][id], later) == Failed <==> silence >= t.failureMs)
      && (Classify(t, states[j][id], later) == Unresponsive <==> t.unresponsiveMs <= silence < t.failureMs)
      && (Classify(t, states[j][id], later) == TimeoutDecisionRequired <==>
           silence < t.unresponsiveMs && later - states[i][id].startedAtMs >= t.timeoutMs)
  {
    HeartbeatNeverGoesBack(states, calls, i, j, id);
  }
}
