/**
 Safe shutdown, interleaved with everything the process manager does: it saves a checkpoint, cancels each
 listed attempt and waits for it, and then claims that the child processes are closed.
 */
module SafeShutdown {
  import opened Wrappers
  import opened ProcessManager
  import StateMachine

  /** The cancel of the attempt in turn: not made, being waited for, or settled. */
  datatype Call = NotCalled | Pending | Settled(ok: bool)

  datatype Phase = Idle | Working(ids: seq<AttemptId>, next: nat, call: Call) | Finished(ids: seq<AttemptId>) | Aborted

  datatype Entry = Process(event: Event) | Saved(sequence: nat)

  /** `sequence` is the scheduler's counter; `log` has what the manager recorded and the checkpoints, in order. */
  datatype System = System(attempts: Attempts, sequence: nat, phase: Phase, log: seq<Entry>)

  /**
   A turn of the manager, on behalf of anyone but the shutdown; or one of the shutdown's own: it begins with
   the checkpoint, calls the next cancel, goes on when that has settled (`late` when over its time limit), and returns.
   */
  datatype SystemTurn =
    | OfManager(turn: Turn)
    | Begin(ids: seq<AttemptId>, saved: bool)
    | CallCancel
    | Continue(late: bool)
    | Return(runState: StateMachine.RunState)

  function Entries(events: seq<Event>): seq<Entry> { seq(|events|, i requires 0 <= i < |events| => Process(events[i])) }

  function Managed(s: System, t: Turn): System
    requires Possible(s.attempts, t)
  {
    s.(attempts := AttemptsAfter(s.attempts, t), log := s.log + Entries(EventsOf(s.attempts, t)))
  }

  /** A cancel that resumes settles the call that awaits it. */
  predicate Settles(s: System, t: Turn) {
    t.kind == Resume && s.phase.Working? && s.phase.call == Pending && s.phase.next < |s.phase.ids|
      && s.phase.ids[s.phase.next] == t.id
  }

  predicate Closed(attempts: Attempts, id: AttemptId) { id in attempts && attempts[id].child == Reaped }

  function ShutdownGuards(): StateMachine.Context {
    StateMachine.Context(map[StateMachine.CheckpointSaved := true, StateMachine.ChildProcessesClosed := true], 0, 0,
        StateMachine.StatusOther)
  }

  /** The state after a turn, or `None` when the turn is not possible. */
  function After(s: System, turn: SystemTurn): Option<System> {
    match turn
    case OfManager(t) =>
      if !Possible(s.attempts, t) then None
      else
        var next := Managed(s, t);
        Some(if Settles(s, t) then next.(phase := s.phase.(call := Settled(Closed(s.attempts, t.id)))) else next)
    case Begin(ids, saved) =>
      if s.phase != Idle then None
      else if !saved then Some(s.(phase := Aborted))
      else Some(s.(phase := Working(ids, 0, NotCalled), sequence := s.sequence + 1,
          log := s.log + [Saved(s.sequence + 1)]))
    case CallCancel =>
      if !s.phase.Working? || s.phase.call != NotCalled || s.phase.next >= |s.phase.ids| then None
      else
        var id := s.phase.ids[s.phase.next];
        if id !in s.attempts then Some(s.(phase := Aborted))
        else
          var next := Managed(s, Turn(id, Cancel));
          Some(next.(phase := s.phase.(call := if s.attempts[id].status == Running then Pending else Settled(true))))
    case Continue(late) =>
      if !s.phase.Working? || !s.phase.call.Settled? then None
      else if !s.phase.call.ok || late then Some(s.(phase := Aborted))
      else Some(s.(phase := Working(s.phase.ids, s.phase.next + 1, NotCalled)))
    case Return(runState) =>
      if !s.phase.Working? || s.phase.call != NotCalled || s.phase.next < |s.phase.ids| then None
      else if StateMachine.ApplyRunTransition(runState, StateMachine.ServiceShutdown, ShutdownGuards()).Err?
        then Some(s.(phase := Aborted))
      else Some(s.(phase := Finished(s.phase.ids)))
  }

  predicate Untouched(turn: SystemTurn, ids: seq<AttemptId>) {
    turn.OfManager? && turn.turn.kind == Cancel ==> turn.turn.id !in ids
  }

  /** From `states[0]`, in any interleaving. */
  ghost predicate IsTrace(states: seq<System>, turns: seq<SystemTurn>) {
    && |states| == |turns| + 1
    && forall i :: 0 <= i < |turns| ==> After(states[i], turns[i]) == Some(states[i + 1])
  }

  // ---------- what a shutdown keeps while it works ----------

  /** No listed attempt is being cancelled, except the one whose cancel the shutdown awaits. */
  ghost predicate OnlyOwnCancel(attempts: Attempts, ids: seq<AttemptId>, awaited: Option<AttemptId>) {
    forall i :: 0 <= i < |ids| ==> ids[i] in attempts && attempts[ids[i]].status == Cancelling ==>
        awaited == Some(ids[i])
  }

  function Awaited(phase: Phase): Option<AttemptId> {
    if phase.Working? && phase.next < |phase.ids| && (phase.call == Pending || phase.call == Settled(false))
      then Some(phase.ids[phase.next]) else None
  }

  ghost predicate Progress(s: System, ids: seq<AttemptId>) {
    && AllSound(s.attempts)
    && match s.phase
       case Idle => false
       case Aborted => true
       case Finished(listed) => listed == ids && forall i :: 0 <= i < |ids| ==> Closed(s.attempts, ids[i])
       case Working(listed, next, call) =>
         && listed == ids && next <= |ids| && (call != NotCalled ==> next < |ids|)
         && OnlyOwnCancel(s.attempts, ids, Awaited(s.phase))
         && (forall i :: 0 <= i < next ==> Closed(s.attempts, ids[i]))
         && (call == Settled(true) ==> Closed(s.attempts, ids[next]))
  }

  lemma ClosedStays(attempts: Attempts, t: Turn)
    requires AllSound(attempts) && Possible(attempts, t)
    ensures AllSound(AttemptsAfter(attempts, t))
    ensures forall id :: Closed(attempts, id) ==> Closed(AttemptsAfter(attempts, t), id)
  {
    TurnKeepsSound(attempts, t);
    forall id | Closed(attempts, id) ensures Closed(AttemptsAfter(attempts, t), id) {
      assert Sound(attempts[id]);
      EndedStays(attempts, t, id);
    }
  }

  lemma ManagerTurnKeeps(s: System, t: Turn, ids: seq<AttemptId>)
    requires Progress(s, ids) && Possible(s.attempts, t) && (t.kind == Cancel ==> t.id !in ids)
    ensures Progress(After(s, OfManager(t)).value, ids)
  {
    ClosedStays(s.attempts, t);
    var next := After(s, OfManager(t)).value;
    if s.phase.Working? {
      forall i | 0 <= i < |ids| && ids[i] in next.attempts && next.attempts[ids[i]].status == Cancelling
        ensures Awaited(next.phase) == Some(ids[i])
      {
        assert ids[i] in s.attempts && s.attempts[ids[i]].status == Cancelling;
        assert Sound(s.attempts[ids[i]]);
      }
    }
  }

  lemma CallCancelKeeps(s: System, ids: seq<AttemptId>)
    requires Progress(s, ids) && After(s, CallCancel).Some?
    ensures Progress(After(s, CallCancel).value, ids)
  {
    var id := ids[s.phase.next];
    if id in s.attempts {
      ClosedStays(s.attempts, Turn(id, Cancel));
      assert Sound(s.attempts[id]);
    }
  }

  lemma TurnKeepsProgress(s: System, turn: SystemTurn, ids: seq<AttemptId>)
    requires Progress(s, ids) && After(s, turn).Some? && Untouched(turn, ids)
    ensures Progress(After(s, turn).value, ids)
  {
    match turn
    case OfManager(t) => ManagerTurnKeeps(s, t, ids);
    case CallCancel => CallCancelKeeps(s, ids);
    case Begin(_, _) =>
    case Continue(_) =>
    case Return(_) =>
  }

  lemma {:induction false} TraceKeepsProgress(states: seq<System>, turns: seq<SystemTurn>, ids: seq<AttemptId>, n: nat)
    requires IsTrace(states, turns) && 0 < n <= |turns| && turns[0] == Begin(ids, true) && AllSound(states[0].attempts)
    requires forall i :: 0 <= i < |turns| ==> Untouched(turns[i], ids)
    requires forall i :: 0 <= i < |ids| ==> ids[i] in states[0].attempts ==>
      states[0].attempts[ids[i]].status != Cancelling
    ensures Progress(states[n], ids)
  {
    assert After(states[0], turns[0]) == Some(states[1]);
    if n > 1 {
      TraceKeepsProgress(states, turns, ids, n - 1);
      assert After(states[n - 1], turns[n - 1]) == Some(states[n]);
      TurnKeepsProgress(states[n - 1], turns[n - 1], ids);
    }
  }

  lemma {:induction false} LogGrows(states: seq<System>, turns: seq<SystemTurn>, i: nat, j: nat)
    requires IsTrace(states, turns) && i <= j <= |turns|
    ensures states[i].log <= states[j].log
    decreases j
  {
    if i < j {
      LogGrows(states, turns, i, j - 1);
      assert After(states[j - 1], turns[j - 1]) == Some(states[j]);
    }
  }

  /**
   Safe shutdown closes the children. If it returns, no listed attempt was already being cancelled when it began and
   nobody else cancels one meanwhile, then every listed attempt has ended and its child's exit was seen, and the log
   has the checkpoint before anything recorded since, so before every cancel of the shutdown.
   */
  lemma ShutdownClosesChildren(states: seq<System>, turns: seq<SystemTurn>, ids: seq<AttemptId>)
    requires IsTrace(states, turns) && turns != [] && turns[0] == Begin(ids, true) && AllSound(states[0].attempts)
    requires states[|turns|].phase.Finished?
    requires forall i :: 0 <= i < |turns| ==> Untouched(turns[i], ids)
    requires forall i :: 0 <= i < |ids| ==> ids[i] in states[0].attempts ==>
      states[0].attempts[ids[i]].status != Cancelling
    ensures forall i :: 0 <= i < |ids| ==>
      Closed(states[|turns|].attempts, ids[i]) && Ended(states[|turns|].attempts[ids[i]])
    ensures states[0].log + [Saved(states[0].sequence + 1)] <= states[|turns|].log
  {
    TraceKeepsProgress(states, turns, ids, |turns|);
    forall i | 0 <= i < |ids| ensures Ended(states[|turns|].attempts[ids[i]]) {
      assert Closed(states[|turns|].attempts, ids[i]) && Sound(states[|turns|].attempts[ids[i]]);
    }
    assert After(states[0], turns[0]) == Some(states[1]);
    LogGrows(states, turns, 1, |turns|);
  }

  // ---------- exactly when it closes them ----------

  ghost predicate IsTraceFrom(s: System, states: seq<System>, turns: seq<SystemTurn>, ids: seq<AttemptId>) {
    IsTrace(states, turns) && states[0] == s && forall i :: 0 <= i < |turns| ==> Untouched(turns[i], ids)
  }

  /** Some turns, none of them a cancel of a listed attempt by somebody else, lead from `s` to `t`. */
  ghost predicate Leads(s: System, t: System, ids: seq<AttemptId>) {
    exists states: seq<System>, turns: seq<SystemTurn> :: IsTraceFrom(s, states, turns, ids) && states[|turns|] == t
  }

  lemma LeadsNowhere(s: System, ids: seq<AttemptId>)
    ensures Leads(s, s, ids)
  {
    var none: seq<SystemTurn> := [];
    assert IsTraceFrom(s, [s], none, ids) && [s][|none|] == s;
  }

  lemma LeadsOn(s: System, t: System, ids: seq<AttemptId>, turn: SystemTurn, next: System)
    requires Leads(s, t, ids) && Untouched(turn, ids) && After(t, turn) == Some(next)
    ensures Leads(s, next, ids)
  {
    var states, turns :| IsTraceFrom(s, states, turns, ids) && states[|turns|] == t;
    var longer, more := states + [next], turns + [turn];
    forall i | 0 <= i < |more| ensures After(longer[i], more[i]) == Some(longer[i + 1]) && Untouched(more[i], ids) {
      if i < |turns| { assert After(states[i], turns[i]) == Some(states[i + 1]) && Untouched(turns[i], ids); }
    }
    assert IsTraceFrom(s, longer, more, ids) && longer[|more|] == next;
  }

  /** The shutdown is about to call the cancel of its `next`-th attempt. */
  ghost predicate At(s: System, ids: seq<AttemptId>, next: nat) {
    s.phase == Working(ids, next, NotCalled) && next <= |ids| && AllSound(s.attempts)
  }

  /** The shutdown calls the cancel in turn. */
  lemma Called(s: System, now: System, ids: seq<AttemptId>, next: nat) returns (called: System)
    requires Leads(s, now, ids) && At(now, ids, next) && next < |ids| && ids[next] in now.attempts
    ensures Leads(s, called, ids) && AllSound(called.attempts)
    ensures called.attempts == AttemptsAfter(now.attempts, Turn(ids[next], Cancel))
    ensures called.phase == Working(ids, next,
      if now.attempts[ids[next]].status == Running then Pending else Settled(true))
  {
    called := After(now, CallCancel).value;
    TurnKeepsSound(now.attempts, Turn(ids[next], Cancel));
    LeadsOn(s, now, ids, CallCancel, called);
  }

  /** A cancel that succeeded lets the shutdown go on to the next attempt. */
  lemma Proceed(s: System, now: System, ids: seq<AttemptId>, next: nat) returns (passed: System)
    requires Leads(s, now, ids) && now.phase == Working(ids, next, Settled(true)) && next < |ids|
      && AllSound(now.attempts)
    ensures Leads(s, passed, ids) && At(passed, ids, next + 1) && passed.attempts == now.attempts
  {
    passed := now.(phase := Working(ids, next + 1, NotCalled));
    LeadsOn(s, now, ids, Continue(false), passed);
  }

  /** A listed attempt that is not running is passed over, and nothing changes. */
  lemma Skip(s: System, now: System, ids: seq<AttemptId>, next: nat) returns (passed: System)
    requires Leads(s, now, ids) && At(now, ids, next) && next < |ids|
    requires ids[next] in now.attempts && now.attempts[ids[next]].status != Running
    ensures Leads(s, passed, ids) && At(passed, ids, next + 1) && passed.attempts == now.attempts
  {
    var called := Called(s, now, ids, next);
    assert called.attempts == now.attempts;
    passed := Proceed(s, called, ids, next);
  }

  /** What a shutdown that goes on to its end has not touched. */
  ghost predicate KeepsCancelling(before: Attempts, after: Attempts) {
    && before.Keys == after.Keys
    && forall id :: id in before && before[id].status == Cancelling ==> after[id] == before[id]
  }

  lemma KeepsTransitive(a: Attempts, b: Attempts, c: Attempts)
    requires KeepsCancelling(a, b) && KeepsCancelling(b, c)
    ensures KeepsCancelling(a, c)
  {
  }

  lemma KeepsOthers(a: Attempts, id: AttemptId, ended: Attempt)
    requires id in a && a[id].status == Running
    ensures KeepsCancelling(a, a[id := ended])
  {
  }

  /** A turn of the manager that settles nothing for the shutdown. */
  lemma ManagerTurn(s: System, now: System, ids: seq<AttemptId>, t: Turn, after: Attempts) returns (next: System)
    requires Leads(s, now, ids) && AllSound(now.attempts) && Possible(now.attempts, t) && t.kind != Cancel
      && t.kind != Resume
    requires after == AttemptsAfter(now.attempts, t)
    ensures Leads(s, next, ids) && AllSound(next.attempts) && next.attempts == after && next.phase == now.phase
  {
    next := After(now, OfManager(t)).value;
    TurnKeepsSound(now.attempts, t);
    LeadsOn(s, now, ids, OfManager(t), next);
  }

  /** The cancel that the shutdown awaits resumes after the exit was seen. */
  lemma CancelResumes(s: System, now: System, ids: seq<AttemptId>, next: nat, after: Attempts) returns (settled: System)
    requires Leads(s, now, ids) && AllSound(now.attempts) && next < |ids| && now.phase == Working(ids, next, Pending)
    requires Possible(now.attempts, Turn(ids[next], Resume)) && now.attempts[ids[next]].child == Reaped
    requires after == AttemptsAfter(now.attempts, Turn(ids[next], Resume))
    ensures Leads(s, settled, ids) && AllSound(settled.attempts) && settled.attempts == after
    ensures settled.phase == Working(ids, next, Settled(true))
  {
    var t := Turn(ids[next], Resume);
    settled := After(now, OfManager(t)).value;
    TurnKeepsSound(now.attempts, t);
    LeadsOn(s, now, ids, OfManager(t), settled);
  }

  /**
   A cancelled attempt whose child is not yet reaped can end: the child dies, its exit is seen and the cancel resumes.
   */
  lemma CanEnd(attempts: Attempts, id: AttemptId) returns (dead: Attempts, seen: Attempts, ended: Attempts)
    requires AllSound(attempts) && id in attempts && attempts[id].status == Cancelling
      && attempts[id].wait == BeforeTimeout
    ensures dead == if attempts[id].child == Alive then AttemptsAfter(attempts, Turn(id, Die)) else attempts
    ensures Possible(dead, Turn(id, Exit)) && seen == AttemptsAfter(dead, Turn(id, Exit))
    ensures Possible(seen, Turn(id, Resume)) && seen[id].child == Reaped
      && ended == AttemptsAfter(seen, Turn(id, Resume))
    ensures id in ended && ended == attempts[id := ended[id]]
  {
    assert Sound(attempts[id]);
    dead := if attempts[id].child == Alive then AttemptsAfter(attempts, Turn(id, Die)) else attempts;
    seen := AttemptsAfter(dead, Turn(id, Exit));
    ended := AttemptsAfter(seen, Turn(id, Resume));
  }

  /** The child of the attempt whose cancel is awaited ends, its exit is seen, and the cancel resumes. */
  lemma CancelSucceeds(s: System, called: System, ids: seq<AttemptId>, next: nat) returns (settled: System)
    requires Leads(s, called, ids) && AllSound(called.attempts) && next < |ids|
      && called.phase == Working(ids, next, Pending)
    requires ids[next] in called.attempts
    requires called.attempts[ids[next]].status == Cancelling && called.attempts[ids[next]].wait == BeforeTimeout
    ensures Leads(s, settled, ids) && AllSound(settled.attempts) && settled.phase == Working(ids, next, Settled(true))
    ensures ids[next] in settled.attempts
      && settled.attempts == called.attempts[ids[next] := settled.attempts[ids[next]]]
  {
    var id := ids[next];
    var dead, seen, ended := CanEnd(called.attempts, id);
    var now := called;
    if called.attempts[id].child == Alive { now := ManagerTurn(s, now, ids, Turn(id, Die), dead); }
    now := ManagerTurn(s, now, ids, Turn(id, Exit), seen);
    settled := CancelResumes(s, now, ids, next, ended);
  }

  lemma CancelledNow(attempts: Attempts, id: AttemptId)
    requires AllSound(attempts) && id in attempts && attempts[id].status == Running
    ensures
      var after := AttemptsAfter(attempts, Turn(id, Cancel));
      && id in after && after == attempts[id := after[id]]
      && after[id].status == Cancelling && after[id].wait == BeforeTimeout && after[id].child != Reaped
  {
    assert Sound(attempts[id]);
  }

  /** A running attempt can end within the shutdown. */
  lemma Close(s: System, now: System, ids: seq<AttemptId>, next: nat) returns (passed: System)
    requires Leads(s, now, ids) && At(now, ids, next) && next < |ids|
    requires ids[next] in now.attempts && now.attempts[ids[next]].status == Running
    ensures Leads(s, passed, ids) && At(passed, ids, next + 1) && KeepsCancelling(now.attempts, passed.attempts)
  {
    var id := ids[next];
    CancelledNow(now.attempts, id);
    var called := Called(s, now, ids, next);
    var settled := CancelSucceeds(s, called, ids, next);
    passed := Proceed(s, settled, ids, next);
    KeepsOthers(now.attempts, id, passed.attempts[id]);
    assert passed.attempts == now.attempts[id := passed.attempts[id]];
  }

  /** From any point a shutdown can go on to its end without touching an attempt that is being cancelled. */
  lemma {:induction false} GoOn(s: System, now: System, ids: seq<AttemptId>, next: nat) returns (end: System)
    requires Leads(s, now, ids) && At(now, ids, next) && forall i :: 0 <= i < |ids| ==> ids[i] in now.attempts
    ensures Leads(s, end, ids) && end.phase == Finished(ids) && KeepsCancelling(now.attempts, end.attempts)
    decreases |ids| - next
  {
    if next == |ids| {
      end := now.(phase := Finished(ids));
      LeadsOn(s, now, ids, Return(StateMachine.Running), end);
    } else {
      var passed: System;
      if now.attempts[ids[next]].status == Running {
        passed := Close(s, now, ids, next);
      } else {
        passed := Skip(s, now, ids, next);
      }
      end := GoOn(s, passed, ids, next + 1);
      KeepsTransitive(now.attempts, passed.attempts, end.attempts);
    }
  }

  ghost predicate ClosedAll(attempts: Attempts, ids: seq<AttemptId>) {
    forall i :: 0 <= i < |ids| ==> Closed(attempts, ids[i])
  }

  /**
   A trace from `s` that begins a shutdown of `ids`, cancels none of them otherwise, and ends with the shutdown having
   returned.
   */
  ghost predicate Returns(s: System, states: seq<System>, turns: seq<SystemTurn>, ids: seq<AttemptId>) {
    && IsTraceFrom(s, states, turns, ids) && turns != [] && turns[0] == Begin(ids, true)
    && states[|turns|].phase.Finished?
  }

  /**
   Every shutdown of `ids` begun here that returns, with nobody else cancelling a listed attempt, has closed them all.
   */
  ghost predicate AlwaysCloses(s: System, ids: seq<AttemptId>) {
    forall states: seq<System>, turns: seq<SystemTurn> ::
      Returns(s, states, turns, ids) ==> ClosedAll(states[|turns|].attempts, ids)
  }

  /** A turn before a trace. */
  lemma Before(first: System, turn: SystemTurn, states: seq<System>, turns: seq<SystemTurn>)
    requires IsTrace(states, turns) && After(first, turn) == Some(states[0])
    ensures IsTrace([first] + states, [turn] + turns)
  {
    forall i | 0 <= i < |[turn] + turns|
      ensures After(([first] + states)[i], ([turn] + turns)[i]) == Some(([first] + states)[i + 1])
    {
      if i > 0 { assert After(states[i - 1], turns[i - 1]) == Some(states[i]); }
    }
  }

  function Begun(s: System, ids: seq<AttemptId>): System {
    s.(phase := Working(ids, 0, NotCalled), sequence := s.sequence + 1, log := s.log + [Saved(s.sequence + 1)])
  }

  /** From its start, a shutdown can go on to its end with an attempt that is being cancelled left as it is. */
  lemma GoOnPast(begun: System, ids: seq<AttemptId>, k: nat) returns (states: seq<System>, turns: seq<SystemTurn>)
    requires At(begun, ids, 0) && k < |ids| && forall i :: 0 <= i < |ids| ==> ids[i] in begun.attempts
    requires begun.attempts[ids[k]].status == Cancelling
    ensures IsTraceFrom(begun, states, turns, ids) && states[|turns|].phase == Finished(ids)
    ensures ids[k] in states[|turns|].attempts && states[|turns|].attempts[ids[k]] == begun.attempts[ids[k]]
    ensures !Closed(states[|turns|].attempts, ids[k])
  {
    LeadsNowhere(begun, ids);
    var end := GoOn(begun, begun, ids, 0);
    states, turns :| IsTraceFrom(begun, states, turns, ids) && states[|turns|] == end;
    assert Sound(begun.attempts[ids[k]]);
  }

  /**
   A listed attempt that is being cancelled already is skipped, whatever else is listed, and the shutdown returns
   without its child being closed.
   */
  lemma CancellingIsSkipped(s: System, ids: seq<AttemptId>, k: nat)
    returns (states: seq<System>, turns: seq<SystemTurn>)
    requires s.phase == Idle && AllSound(s.attempts) && k < |ids| && forall i :: 0 <= i < |ids| ==> ids[i] in s.attempts
    requires s.attempts[ids[k]].status == Cancelling
    ensures Returns(s, states, turns, ids) && states[|turns|].phase == Finished(ids)
    ensures ids[k] in states[|turns|].attempts && states[|turns|].attempts[ids[k]] == s.attempts[ids[k]]
    ensures !Closed(states[|turns|].attempts, ids[k])
  {
    var tail, tailTurns := GoOnPast(Begun(s, ids), ids, k);
    Before(s, Begin(ids, true), tail, tailTurns);
    states, turns := [s] + tail, [Begin(ids, true)] + tailTurns;
    assert forall i :: 0 < i < |turns| ==> turns[i] == tailTurns[i - 1];
  }

  /**
   The exact condition: a shutdown is sure to have closed its children if and only if none of them is being cancelled
   when it begins.
   */
  lemma ClosesIffNoneCancelling(s: System, ids: seq<AttemptId>)
    requires s.phase == Idle && AllSound(s.attempts) && forall i :: 0 <= i < |ids| ==> ids[i] in s.attempts
    ensures AlwaysCloses(s, ids) <==> forall i :: 0 <= i < |ids| ==> s.attempts[ids[i]].status != Cancelling
  {
    if forall i :: 0 <= i < |ids| ==> s.attempts[ids[i]].status != Cancelling {
      forall states: seq<System>, turns: seq<SystemTurn> | Returns(s, states, turns, ids)
        ensures ClosedAll(states[|turns|].attempts, ids)
      {
        ShutdownClosesChildren(states, turns, ids);
      }
    } else {
      var k :| 0 <= k < |ids| && s.attempts[ids[k]].status == Cancelling;
      var states, turns := CancellingIsSkipped(s, ids, k);
      assert Returns(s, states, turns, ids) && !ClosedAll(states[|turns|].attempts, ids);
    }
  }

  /**
   Nor is it enough that none is being cancelled at the start: a cancel by somebody else meanwhile has the same effect.
   */
  lemma ConcurrentCancelIsSkipped(s: System, ids: seq<AttemptId>, k: nat)
    returns (states: seq<System>, turns: seq<SystemTurn>)
    requires s.phase == Idle && AllSound(s.attempts) && k < |ids| && forall i :: 0 <= i < |ids| ==> ids[i] in s.attempts
    requires s.attempts[ids[k]].status == Running
    ensures IsTrace(states, turns) && |turns| >= 2 && states[0] == s
    ensures turns[0] == Begin(ids, true) && turns[1] == OfManager(Turn(ids[k], Cancel))
    ensures states[|turns|].phase == Finished(ids) && !Closed(states[|turns|].attempts, ids[k])
  {
    var begun, t := Begun(s, ids), Turn(ids[k], Cancel);
    CancelledNow(s.attempts, ids[k]);
    var cancelled := OtherCancels(begun, ids, k);
    var tail, tailTurns := GoOnPast(cancelled, ids, k);
    states, turns := TwoBefore(s, Begin(ids, true), begun, OfManager(t), tail, tailTurns);
  }

  lemma OtherCancels(begun: System, ids: seq<AttemptId>, k: nat) returns (cancelled: System)
    requires At(begun, ids, 0) && k < |ids| && ids[k] in begun.attempts
    ensures After(begun, OfManager(Turn(ids[k], Cancel))) == Some(cancelled) && At(cancelled, ids, 0)
    ensures cancelled.attempts == AttemptsAfter(begun.attempts, Turn(ids[k], Cancel))
  {
    cancelled := After(begun, OfManager(Turn(ids[k], Cancel))).value;
    TurnKeepsSound(begun.attempts, Turn(ids[k], Cancel));
  }

  lemma TwoBefore(
    s: System, first: SystemTurn, begun: System, second: SystemTurn, tail: seq<System>, tailTurns: seq<SystemTurn>)
    returns (states: seq<System>, turns: seq<SystemTurn>)
    requires IsTrace(tail, tailTurns) && After(s, first) == Some(begun) && After(begun, second) == Some(tail[0])
    ensures IsTrace(states, turns) && |turns| == |tailTurns| + 2 && turns[0] == first && turns[1] == second
    ensures states[0] == s && states[|turns|] == tail[|tailTurns|]
  {
    Before(begun, second, tail, tailTurns);
    Before(s, first, [begun] + tail, [second] + tailTurns);
    states, turns := [s] + ([begun] + tail), [first] + ([second] + tailTurns);
  }
}
