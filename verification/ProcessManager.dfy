/**
 Attempt processes. The asynchronous code runs in turns between which anything else may happen:
 start, the OS ending a child, its exit event, a cancel request, the kill timeout, the end of the grace
 period, and the cancel resuming. Each handler is a method proved against its turn.
 */
module ProcessManager {
  import opened Wrappers

  type AttemptId = string

  datatype Status = Running | Cancelling | Cancelled | Exited

  /** `Dead` has ended but the exit event has not been delivered; `Reaped` means that it has. */
  datatype Child = Alive | Dead | Reaped

  /**
   Where a cancel stands: its timeout is armed; SIGKILL was sent and 50 ms are running; or its wait is over and it will
   resume.
   */
  datatype Wait = NoWait | BeforeTimeout | AfterKill | WaitOver

  datatype Signal = Sigterm | Sigkill

  datatype Attempt = Attempt(status: Status, child: Child, wait: Wait, signals: seq<Signal>)

  type Attempts = map<AttemptId, Attempt>

  datatype Kind = Start | Die | Exit | Cancel | KillTimeout | GraceOver | Resume

  datatype Turn = Turn(id: AttemptId, kind: Kind)

  datatype Event =
    | Started(id: AttemptId)
    | CancelRequested(id: AttemptId)
    | ExitSeen(id: AttemptId)
    | CancelCompleted(id: AttemptId)

  datatype ControlError = MissingId | AlreadyTracked | MissingCommand | UnknownAttempt | SurvivedKill

  /**
   A child dies and is reaped once, and a timer or a cancel runs only when it is due; requests may come at any time.
   */
  predicate Possible(attempts: Attempts, t: Turn) {
    match t.kind
    case Start => t.id != "" && t.id !in attempts
    case Cancel => t.id in attempts
    case Die => t.id in attempts && attempts[t.id].child == Alive
    case Exit => t.id in attempts && attempts[t.id].child == Dead
    case KillTimeout => t.id in attempts && attempts[t.id].wait == BeforeTimeout
    case GraceOver => t.id in attempts && attempts[t.id].wait == AfterKill
    case Resume => t.id in attempts && attempts[t.id].wait == WaitOver
  }

  function Fresh(): Attempt { Attempt(Running, Alive, NoWait, []) }

  function AttemptAfter(a: Attempt, kind: Kind): Attempt {
    match kind
    case Start => a
    case Die => a.(child := Dead)
    case Exit => a.(status := if a.status == Cancelling then Cancelled else Exited, child := Reaped,
        wait := if a.wait == NoWait then NoWait else WaitOver)
    case Cancel =>
      if a.status != Running then a
      else a.(status := Cancelling, wait := if a.child == Reaped then WaitOver else BeforeTimeout,
          signals := a.signals + [Sigterm])
    case KillTimeout => a.(wait := AfterKill, signals := a.signals + [Sigkill])
    case GraceOver => a.(wait := WaitOver)
    case Resume => a.(status := if a.child == Reaped then Cancelled else a.status, wait := NoWait)
  }

  function AttemptsAfter(attempts: Attempts, t: Turn): Attempts
    requires Possible(attempts, t)
  {
    attempts[t.id := if t.kind == Start then Fresh() else AttemptAfter(attempts[t.id], t.kind)]
  }

  /** What a turn records. */
  function EventsOf(attempts: Attempts, t: Turn): seq<Event>
    requires Possible(attempts, t)
  {
    match t.kind
    case Start => [Started(t.id)]
    case Exit => [ExitSeen(t.id)]
    case Cancel => if attempts[t.id].status == Running then [CancelRequested(t.id)] else []
    case Resume => if attempts[t.id].child == Reaped then [CancelCompleted(t.id)] else []
    case _ => []
  }

  class AttemptProcessManager {
    var attempts: Attempts
    var events: seq<Event>

    constructor ()
      ensures attempts == map[] && events == []
    {
      attempts, events := map[], [];
    }

    method StartAttempt(id: AttemptId, command: string) returns (r: Result<Attempt, ControlError>)
      modifies this
      ensures r.Ok? <==> Possible(old(attempts), Turn(id, Start)) && command != ""
      ensures r.Ok? ==> r.value == Fresh() && attempts == AttemptsAfter(old(attempts), Turn(id, Start))
      ensures r.Ok? ==> events == old(events) + [Started(id)]
      ensures r.Err? ==> attempts == old(attempts) && events == old(events)
    {
      if id == "" { return Err(MissingId); }
      if id in attempts { return Err(AlreadyTracked); }
      if command == "" { return Err(MissingCommand); }
      attempts := attempts[id := Attempt(Running, Alive, NoWait, [])];
      events := events + [Started(id)];
      return Ok(attempts[id]);
    }

    /** The child's exit handler, then the one of a waiting cancel. */
    method OnExit(id: AttemptId)
      requires Possible(attempts, Turn(id, Exit))
      modifies this
      ensures attempts == AttemptsAfter(old(attempts), Turn(id, Exit)) && events == old(events) + [ExitSeen(id)]
    {
      var a := attempts[id];
      a := a.(status := if a.status == Cancelling then Cancelled else Exited, child := Reaped);
      if a.wait != NoWait { a := a.(wait := WaitOver); }
      attempts := attempts[id := a];
      events := events + [ExitSeen(id)];
    }

    /** The part of a cancel before its wait; `pending` when it has something to wait for. */
    method RequestCancel(id: AttemptId) returns (r: Result<Attempt, ControlError>, pending: bool)
      modifies this
      ensures id !in old(attempts) ==>
        r == Err(UnknownAttempt) && !pending && attempts == old(attempts) && events == old(events)
      ensures id in old(attempts) ==>
        && attempts == AttemptsAfter(old(attempts), Turn(id, Cancel))
        && events == old(events) + EventsOf(old(attempts), Turn(id, Cancel))
        && r == Ok(attempts[id]) && (pending <==> old(attempts)[id].status == Running)
    {
      if id !in attempts { return Err(UnknownAttempt), false; }
      var a := attempts[id];
      if a.status != Running {
        assert attempts[id := a] == attempts;
        return Ok(a), false;
      }
      a := a.(status := Cancelling, signals := a.signals + [Sigterm]);
      events := events + [CancelRequested(id)];
      attempts := attempts[id := a.(wait := if a.child == Reaped then WaitOver else BeforeTimeout)];
      return Ok(attempts[id]), true;
    }

    method OnKillTimeout(id: AttemptId)
      requires Possible(attempts, Turn(id, KillTimeout))
      modifies this`attempts
      ensures attempts == AttemptsAfter(old(attempts), Turn(id, KillTimeout))
    {
      attempts := attempts[id := attempts[id].(signals := attempts[id].signals + [Sigkill], wait := AfterKill)];
    }

    method OnGraceOver(id: AttemptId)
      requires Possible(attempts, Turn(id, GraceOver))
      modifies this`attempts
      ensures attempts == AttemptsAfter(old(attempts), Turn(id, GraceOver))
    {
      attempts := attempts[id := attempts[id].(wait := WaitOver)];
    }

    method ResumeCancel(id: AttemptId) returns (r: Result<Attempt, ControlError>)
      requires Possible(attempts, Turn(id, Resume))
      modifies this
      ensures attempts == AttemptsAfter(old(attempts), Turn(id, Resume))
        && events == old(events) + EventsOf(old(attempts), Turn(id, Resume))
      ensures r == if old(attempts)[id].child == Reaped then Ok(attempts[id]) else Err(SurvivedKill)
    {
      var a := attempts[id].(wait := NoWait);
      attempts := attempts[id := a];
      if a.child != Reaped { return Err(SurvivedKill); }
      attempts := attempts[id := a.(status := Cancelled)];
      events := events + [CancelCompleted(id)];
      return Ok(attempts[id]);
    }
  }

  // ---------- any interleaving ----------

  predicate Ended(a: Attempt) { a.status == Cancelled || a.status == Exited }

  /**
   An attempt has an end status exactly when its child's exit was seen; a cancel waits only for a cancelled attempt;
   SIGKILL only follows SIGTERM.
   */
  predicate Sound(a: Attempt) {
    && (Ended(a) <==> a.child == Reaped)
    && (a.wait != NoWait ==> a.status == Cancelling || a.status == Cancelled)
    && (a.wait == BeforeTimeout || a.wait == AfterKill ==> a.status == Cancelling)
    && (a.signals == if a.status == Running || a.status == Exited then []
        else if |a.signals| == 2 then [Sigterm, Sigkill] else [Sigterm])
    && (a.wait == BeforeTimeout ==> |a.signals| == 1)
    && (a.status == Cancelling && a.wait == NoWait ==> |a.signals| == 2)
    && (a.status == Cancelling && (a.wait == AfterKill || a.wait == WaitOver) ==> |a.signals| == 2)
  }

  predicate AllSound(attempts: Attempts) { forall id :: id in attempts ==> Sound(attempts[id]) }

  lemma TurnKeepsSound(attempts: Attempts, t: Turn)
    requires AllSound(attempts) && Possible(attempts, t)
    ensures AllSound(AttemptsAfter(attempts, t))
  {
    if t.kind != Start {
      assert Sound(attempts[t.id]);
      AttemptKeepsSound(attempts[t.id], t.kind);
    }
  }

  lemma AttemptKeepsSound(a: Attempt, kind: Kind)
    requires Sound(a)
    requires kind == Die ==> a.child == Alive
    requires kind == Exit ==> a.child == Dead
    requires kind == KillTimeout ==> a.wait == BeforeTimeout
    requires kind == GraceOver ==> a.wait == AfterKill
    requires kind == Resume ==> a.wait == WaitOver
    ensures Sound(AttemptAfter(a, kind))
    ensures Ended(a) ==> AttemptAfter(a, kind).status == a.status && AttemptAfter(a, kind).child == Reaped
  {
    match kind {
      case Start =>
      case Die =>
      case Exit =>
      case Cancel =>
      case KillTimeout =>
      case GraceOver =>
      case Resume =>
    }
  }

  /** `states` are the attempts before, between and after the turns, starting with none. */
  ghost predicate IsTrace(states: seq<Attempts>, turns: seq<Turn>) {
    && |states| == |turns| + 1 && states[0] == map[]
    && forall i :: 0 <= i < |turns| ==>
         Possible(states[i], turns[i]) && states[i + 1] == AttemptsAfter(states[i], turns[i])
  }

  lemma {:induction false} TraceIsSound(states: seq<Attempts>, turns: seq<Turn>, n: nat)
    requires IsTrace(states, turns) && n <= |turns|
    ensures AllSound(states[n])
  {
    if n > 0 {
      TraceIsSound(states, turns, n - 1);
      TurnKeepsSound(states[n - 1], turns[n - 1]);
    }
  }

  lemma EndedStays(attempts: Attempts, t: Turn, id: AttemptId)
    requires AllSound(attempts) && Possible(attempts, t) && id in attempts && Ended(attempts[id])
    ensures id in AttemptsAfter(attempts, t)
    ensures AttemptsAfter(attempts, t)[id].status == attempts[id].status
      && AttemptsAfter(attempts, t)[id].child == Reaped == attempts[id].child
  {
    assert Sound(attempts[id]);
    if t.id == id { AttemptKeepsSound(attempts[id], t.kind); }
  }

  /**
   In every interleaving, a `Cancelled` or `Exited` attempt has a child whose exit was seen, and neither ever changes
   again.
   */
  lemma {:induction false} EndIsFinal(states: seq<Attempts>, turns: seq<Turn>, i: nat, j: nat, id: AttemptId)
    requires IsTrace(states, turns) && i <= j <= |turns|
    requires id in states[i] && Ended(states[i][id])
    ensures states[i][id].child == Reaped
    ensures id in states[j] && states[j][id].status == states[i][id].status && states[j][id].child == Reaped
    decreases j
  {
    if i < j {
      EndIsFinal(states, turns, i, j - 1, id);
      TraceIsSound(states, turns, j - 1);
      assert Possible(states[j - 1], turns[j - 1]);
      EndedStays(states[j - 1], turns[j - 1], id);
    } else {
      TraceIsSound(states, turns, i);
      assert Sound(states[i][id]);
    }
  }
}
