/**
 Creations and refreshes that overlap: each waits for its executor, and other calls run meanwhile. What keeps runs from
 being set back then.
 */
module RunOverlap {
  import opened Wrappers
  import opened JsonText
  import opened CanonicalJson
  import opened Sanitize
  import opened Sequences
  import opened RunStore
  import opened RunProgress

  /** A call that waits: a creation for the executor of its run, a refresh for the first of the runs it still has. */
  datatype Call = Creating(run: Run) | Refreshing(rest: Runs)

  /** The records stored so far, loaded runs first, and the calls that wait. */
  datatype Connector = Connector(history: seq<Run>, open: seq<Call>)

  datatype CallTurn =
    | StartCreate(input: Run, waits: bool, queuedFails: bool, runningFails: bool)
    | StartRefresh
    | Resume(i: nat, o: Outcome, disk: Disk)

  /** What a creation stores before it waits, and the running record it then waits with. */
  function StartWrites(input: Run, waits: bool, queuedFails: bool, runningFails: bool,
      record: Run -> Option<Run>): (seq<Run>, Option<Run>) {
    match record(input.(status := Queued))
    case None => ([], None)
    case Some(queued) =>
      if queuedFails || !waits then ([queued], None)
      else match record(queued.(status := Running))
        case None => ([queued], None)
        case Some(running) => ([queued, running], if runningFails then None else Some(running))
  }

  /** A creation is its start and, if it waits, its end. */
  lemma CreateIsStartAndEnd(input: Run, o: Outcome, disk: CreateDisk, record: Run -> Option<Run>)
    ensures
      var (writes, waiting) := StartWrites(input, true, disk.queuedFails, disk.runningFails, record);
      CreateWrites(input, Some(o), disk, record).0 ==
        writes + if waiting.None? then [] else FinishWrites(waiting.value, FinalStatus(o), o, disk.finish, record).0
  {
  }

  function Refreshable(): Run -> bool { (run: Run) => Refreshes(run) }

  function Opened(open: seq<Call>, rest: Runs): seq<Call> { if rest == [] then open else open + [Refreshing(rest)] }

  /** The run whose executor the call waits for. */
  predicate Waits(call: Call) { call.Creating? || call.rest != [] }

  function Awaited(call: Call): Run
    requires Waits(call)
  {
    match call case Creating(run) => run case Refreshing(rest) => rest[0]
  }

  /** What the call stores when its executor answers, and whether it goes on. */
  function ResumeWrites(call: Call, o: Outcome, disk: Disk, record: Run -> Option<Run>): (seq<Run>, bool)
    requires Waits(call)
  {
    match call
    case Creating(run) => (FinishWrites(run, FinalStatus(o), o, disk, record).0, false)
    case Refreshing(rest) => RefreshOne(rest[0], o, disk, record)
  }

  predicate Possible(c: Connector, t: CallTurn) { t.Resume? ==> t.i < |c.open| && Waits(c.open[t.i]) }

  function Without(open: seq<Call>, i: nat): seq<Call>
    requires i < |open|
  {
    open[..i] + open[i + 1..]
  }

  /** A turn: a call up to its first wait, or from one wait to the next. */
  function AfterTurn(c: Connector, t: CallTurn, record: Run -> Option<Run>): Connector
    requires Possible(c, t)
  {
    match t
    case StartCreate(input, waits, queuedFails, runningFails) =>
      var (writes, waiting) := StartWrites(input, waits, queuedFails, runningFails, record);
      Connector(c.history + writes, if waiting.None? then c.open else c.open + [Creating(waiting.value)])
    case StartRefresh => c.(open := Opened(c.open, Filter(PutAll([], c.history), Refreshable())))
    case Resume(i, o, disk) =>
      var (writes, on) := ResumeWrites(c.open[i], o, disk, record);
      var others := Without(c.open, i);
      Connector(c.history + writes,
                if on && c.open[i].Refreshing? then Opened(others, c.open[i].rest[1..]) else others)
  }

  ghost predicate IsOverlap(loaded: Runs, states: seq<Connector>, turns: seq<CallTurn>, record: Run -> Option<Run>) {
    && |states| == |turns| + 1 && states[0] == Connector(loaded, [])
    && forall i :: 0 <= i < |turns| ==>
         Possible(states[i], turns[i]) && states[i + 1] == AfterTurn(states[i], turns[i], record)
  }

  /** The outcome would set the run back to queued, or its record meets a late failure of the disk. */
  predicate Spoils(call: Call, o: Outcome, disk: Disk, record: Run -> Option<Run>)
    requires Waits(call)
  {
    || !NotRequeued(o)
    || match call
       case Creating(run) => LateFailure(run, FinalStatus(o), o, disk, record)
       case Refreshing(rest) => LateRefresh(rest[0], o, disk, record)
  }

  /** New ids are fresh and final, and no outcome or disk sets a run back by itself. */
  predicate TurnOrderly(c: Connector, t: CallTurn, record: Run -> Option<Run>)
    requires Possible(c, t)
  {
    match t
    case StartCreate(input, _, _, _) =>
      LastWith(c.history, SanitizeSlug(input.id)).None? && NoDashAtEnd(SanitizeSlug(input.id))
    case StartRefresh => true
    case Resume(i, o, disk) => !Spoils(c.open[i], o, disk, record)
  }

  /** A call that resumes and stores something finds its run still running. */
  predicate StillRunning(c: Connector, t: CallTurn, record: Run -> Option<Run>)
    requires Possible(c, t)
  {
    t.Resume? && ResumeWrites(c.open[t.i], t.o, t.disk, record).0 != [] ==>
      var last := LastWith(c.history, Awaited(c.open[t.i]).id);
      last.Some? && last.value.status == Running
  }

  // ---------- the invariant ----------

  /** A running record of a manual run whose id is final, and whose run is no longer queued. */
  predicate Waiting(history: seq<Run>, run: Run) {
    && run.kind == Manual && run.status == Running && SanitizeSlug(run.id) == run.id
    && LastWith(history, run.id).Some? && LastWith(history, run.id).value.status != Queued
  }

  predicate CallFits(history: seq<Run>, call: Call) {
    match call
    case Creating(run) => Waiting(history, run)
    case Refreshing(rest) => rest != [] && forall i :: 0 <= i < |rest| ==> Waiting(history, rest[i])
  }

  ghost predicate Invariant(c: Connector, base: nat) {
    && Progress(c.history, base) && Settled(c.history)
    && forall i :: 0 <= i < |c.open| ==> CallFits(c.history, c.open[i])
  }

  lemma {:induction false} ProgressPrefix(history: seq<Run>, more: seq<Run>, base: nat)
    requires Progress(history + more, base)
    ensures Progress(history, base)
  {
    var h := history + more;
    forall j | base <= j < |history| ensures Allowed(LastWith(history[..j], history[j].id), history[j].status) {
      assert h[..j] == history[..j] && h[j] == history[j];
    }
  }

  /** Records that are not queued, or of another run, keep a waiting call waiting. */
  lemma {:induction false} WaitingKept(history: seq<Run>, more: seq<Run>, run: Run)
    requires Waiting(history, run)
    requires forall i :: 0 <= i < |more| ==> more[i].status != Queued || more[i].id != run.id
    ensures Waiting(history + more, run)
    decreases |more|
  {
    if more == [] {
      assert history + more == history;
    } else {
      var front, last := more[..|more| - 1], more[|more| - 1];
      WaitingKept(history, front, run);
      LastAfterAppend(history + front, last, run.id);
      assert history + more == (history + front) + [last];
    }
  }

  lemma CallKept(history: seq<Run>, more: seq<Run>, call: Call, id: Text)
    requires CallFits(history, call)
    requires forall i :: 0 <= i < |more| ==> more[i].status != Queued || more[i].id == id
    requires LastWith(history, id).None? || forall i :: 0 <= i < |more| ==> more[i].status != Queued
    ensures CallFits(history + more, call)
  {
    match call
    case Creating(run) => WaitingKept(history, more, run);
    case Refreshing(rest) =>
      forall i | 0 <= i < |rest| ensures Waiting(history + more, rest[i]) { WaitingKept(history, more, rest[i]); }
  }

  // ---------- every turn ----------

  lemma StartCreateKeeps(c: Connector, t: CallTurn, record: Run -> Option<Run>, base: nat)
    requires Invariant(c, base) && t.StartCreate? && TurnOrderly(c, t, record) && MakesManual(record)
    ensures Invariant(AfterTurn(c, t, record), base)
  {
    SlugStableIff(t.input.id);
    var id := SanitizeSlug(t.input.id);
    var (writes, waiting) := StartWrites(t.input, t.waits, t.queuedFails, t.runningFails, record);
    assert NewRun(writes, id);
    NewRunKeeps(c.history, base, writes, id);
    var next := AfterTurn(c, t, record);
    forall i | 0 <= i < |c.open| ensures CallFits(next.history, c.open[i]) {
      CallKept(c.history, writes, c.open[i], id);
    }
    if waiting.Some? {
      LastAfterAppend(c.history + [writes[0]], writes[1], id);
      assert c.history + writes == (c.history + [writes[0]]) + [writes[1]];
    }
  }

  lemma StartRefreshKeeps(c: Connector, record: Run -> Option<Run>, base: nat)
    requires Invariant(c, base)
    ensures Invariant(AfterTurn(c, StartRefresh, record), base)
  {
    var store := PutAll([], c.history);
    var rest := Filter(store, Refreshable());
    StoreIsLast(c.history);
    FilterMembers(store, Refreshable());
    forall i | 0 <= i < |rest| ensures Waiting(c.history, rest[i]) {
      assert rest[i] in rest;
      var k :| 0 <= k < |store| && store[k] == rest[i];
      var j := LastWithIndex(c.history, rest[i].id);
      assert Refreshes(c.history[j]);
    }
  }

  /** What a call stores when it resumes ends its run or leaves it running. */
  lemma ResumeEndsRun(history: seq<Run>, call: Call, o: Outcome, disk: Disk, record: Run -> Option<Run>)
    requires CallFits(history, call) && !Spoils(call, o, disk, record) && MakesManual(record)
    ensures EndsRun(ResumeWrites(call, o, disk, record).0, Awaited(call).id)
  {
    match call
    case Creating(run) => FinishEndsRun(run, FinalStatus(o), o, disk, record);
    case Refreshing(rest) =>
      if !Quiet(rest[0], o) { FinishEndsRun(rest[0], FinalStatus(News(rest[0], o)), News(rest[0], o), disk, record); }
  }

  lemma OpenKept(c: Connector, t: CallTurn, writes: seq<Run>, record: Run -> Option<Run>)
    requires t.Resume? && Possible(c, t) && writes == ResumeWrites(c.open[t.i], t.o, t.disk, record).0
    requires forall i :: 0 <= i < |c.open| ==> CallFits(c.history, c.open[i])
    requires forall i :: 0 <= i < |writes| ==> writes[i].status != Queued
    ensures
      var next := AfterTurn(c, t, record);
      forall i :: 0 <= i < |next.open| ==> CallFits(c.history + writes, next.open[i])
  {
    forall i | 0 <= i < |c.open| ensures CallFits(c.history + writes, c.open[i]) {
      CallKept(c.history, writes, c.open[i], Awaited(c.open[t.i]).id);
    }
    var call := c.open[t.i];
    if call.Refreshing? && call.rest[1..] != [] {
      assert forall i :: 0 <= i < |call.rest[1..]| ==> call.rest[1..][i] == call.rest[i + 1];
      assert CallFits(c.history + writes, Refreshing(call.rest[1..]));
    }
  }

  /** A record after the end of its run is not progress. */
  lemma AfterEndIsNoProgress(history: seq<Run>, base: nat, writes: seq<Run>)
    requires base <= |history| && writes != [] && writes[0].status != Queued
    requires LastWith(history, writes[0].id).Some?
    requires LastWith(history, writes[0].id).value.status != Queued
    requires LastWith(history, writes[0].id).value.status != Running
    ensures !Progress(history + writes, base)
  {
    var h, n := history + writes, |history|;
    assert h[..n] == history && h[n] == writes[0];
    assert !Allowed(LastWith(h[..n], h[n].id), h[n].status);
  }

  lemma ResumeKeepsIff(c: Connector, t: CallTurn, record: Run -> Option<Run>, base: nat)
    requires Invariant(c, base) && base <= |c.history| && MakesManual(record)
    requires t.Resume? && Possible(c, t) && TurnOrderly(c, t, record)
    ensures Progress(AfterTurn(c, t, record).history, base) <==> StillRunning(c, t, record)
    ensures StillRunning(c, t, record) ==> Invariant(AfterTurn(c, t, record), base)
  {
    var call := c.open[t.i];
    var run, writes := Awaited(call), ResumeWrites(call, t.o, t.disk, record).0;
    ResumeEndsRun(c.history, call, t.o, t.disk, record);
    assert Waiting(c.history, run);
    OpenKept(c, t, writes, record);
    if writes == [] {
      assert c.history + writes == c.history;
    } else if StillRunning(c, t, record) {
      EndsRunKeeps(c.history, base, run, writes);
    } else {
      AfterEndIsNoProgress(c.history, base, writes);
    }
  }

  lemma TurnKeepsIff(c: Connector, t: CallTurn, record: Run -> Option<Run>, base: nat)
    requires Invariant(c, base) && base <= |c.history| && MakesManual(record)
    requires Possible(c, t) && TurnOrderly(c, t, record)
    ensures Progress(AfterTurn(c, t, record).history, base) <==> StillRunning(c, t, record)
    ensures StillRunning(c, t, record) ==> Invariant(AfterTurn(c, t, record), base)
  {
    match t
    case StartCreate(_, _, _, _) => StartCreateKeeps(c, t, record, base);
    case StartRefresh => StartRefreshKeeps(c, record, base);
    case Resume(_, _, _) => ResumeKeepsIff(c, t, record, base);
  }

  lemma HistoryGrows(c: Connector, t: CallTurn, record: Run -> Option<Run>)
    requires Possible(c, t)
    ensures c.history <= AfterTurn(c, t, record).history
  {
  }

  lemma OneTurnKeeps(c: Connector, t: CallTurn, record: Run -> Option<Run>, base: nat)
    requires Progress(c.history, base) ==> Invariant(c, base)
    requires base <= |c.history| && MakesManual(record) && Possible(c, t) && TurnOrderly(c, t, record)
    ensures
      var next := AfterTurn(c, t, record);
      && base <= |next.history|
      && (Progress(next.history, base) <==> Progress(c.history, base) && StillRunning(c, t, record))
      && (Progress(next.history, base) ==> Invariant(next, base))
  {
    var next := AfterTurn(c, t, record);
    HistoryGrows(c, t, record);
    if Progress(c.history, base) {
      TurnKeepsIff(c, t, record, base);
    } else if Progress(next.history, base) {
      assert next.history == c.history + next.history[|c.history|..];
      ProgressPrefix(c.history, next.history[|c.history|..], base);
    }
  }

  lemma {:induction false} OverlapKeeps(
    loaded: Runs, states: seq<Connector>, turns: seq<CallTurn>, record: Run -> Option<Run>, n: nat)
    requires IsOverlap(loaded, states, turns, record) && Settled(loaded) && MakesManual(record) && n <= |turns|
    requires forall i :: 0 <= i < |turns| ==> TurnOrderly(states[i], turns[i], record)
    ensures |loaded| <= |states[n].history|
    ensures Progress(states[n].history, |loaded|) <==>
      forall i :: 0 <= i < n ==> StillRunning(states[i], turns[i], record)
    ensures Progress(states[n].history, |loaded|) ==> Invariant(states[n], |loaded|)
  {
    if n > 0 {
      OverlapKeeps(loaded, states, turns, record, n - 1);
      var before, after := states[n - 1], states[n];
      OneTurnKeeps(before, turns[n - 1], record, |loaded|);
      assert after == AfterTurn(before, turns[n - 1], record);
    }
  }

  /**
   When calls overlap, runs still only move forward, queued, running, then ended for good, if and only if every call
   that resumes and stores something finds its run still running. The code does not look: it stores the record it had
   when it began to wait, changed.
   */
  lemma OverlapProgressIff(loaded: Runs, states: seq<Connector>, turns: seq<CallTurn>, n: nat)
    requires IsOverlap(loaded, states, turns, ManualRecord) && Settled(loaded) && n <= |turns|
    requires forall i :: 0 <= i < |turns| ==> TurnOrderly(states[i], turns[i], ManualRecord)
    ensures Progress(states[n].history, |loaded|) <==>
      forall i :: 0 <= i < n ==> StillRunning(states[i], turns[i], ManualRecord)
  {
    ManualRecordMakesManual();
    OverlapKeeps(loaded, states, turns, ManualRecord, n);
  }

  /** The four turns of a creation and a refresh that overlap, and what they store. */
  lemma OverlappedTurns(
    start: CallTurn, third: CallTurn, fourth: CallTurn, queued: Run, running: Run, failed: Run, done: Run,
    record: Run -> Option<Run>)
    returns (states: seq<Connector>, turns: seq<CallTurn>)
    requires start.StartCreate? && start.waits && !start.queuedFails && !start.runningFails
    requires record(start.input.(status := Queued)) == Some(queued)
    requires record(queued.(status := Running)) == Some(running) && queued.id == running.id && Refreshes(running)
    requires third.Resume? && third.i == 1 && third.o.Threw? && third.disk == Disk(false, false, [])
    requires fourth.Resume? && fourth.i == 0 && fourth.o.Returned? && fourth.disk == Disk(false, false, [])
    requires record(Failure(running, third.o.message, Some(third.o.details))) == Some(failed)
    requires record(Patched(running, FinalStatus(fourth.o), fourth.o)) == Some(done)
    ensures IsOverlap([], states, turns, record) && |turns| == 4
    ensures states[4] == Connector([queued, running, failed, done], [])
  {
    var a := Connector([queued, running], [Creating(running)]);
    var b := Connector([queued, running], [Creating(running), Refreshing([running])]);
    var d := Connector(b.history + [failed], [Creating(running)]);
    var e := Connector(d.history + [done], []);
    StartOfTwo(start, queued, running, record);
    RefreshOfTwo(a, queued, running, record);
    LastResumes(b, d, e, running, failed, done, third, fourth, record);
    states, turns := [Connector([], []), a, b, d, e], [start, StartRefresh, third, fourth];
    FourTurns(states, turns, record);
  }

  /**
   A creation and a refresh that overlap: the refresh finds the run running and records that it failed, and then the
   creation records that it succeeded.
   */
  lemma RefreshDuringCreate(
    input: Run, queued: Run, running: Run, failed: Run, done: Run, message: Text, o: Outcome,
    record: Run -> Option<Run>)
    returns (states: seq<Connector>, turns: seq<CallTurn>)
    requires MakesManual(record) && NoDashAtEnd(SanitizeSlug(input.id)) && o.Returned? && o.status == Some(Succeeded)
    requires record(input.(status := Queued)) == Some(queued)
    requires record(queued.(status := Running)) == Some(running)
    requires record(Failure(running, message, Some(Null))) == Some(failed)
    requires record(Patched(running, Succeeded, o)) == Some(done)
    ensures IsOverlap([], states, turns, record) && |turns| == 4
    ensures states[4] == Connector([queued, running, failed, done], [])
    ensures failed.id == done.id && failed.status == Failed && done.status == Succeeded
    ensures !Progress(states[4].history, 0)
  {
    SlugStableIff(input.id);
    var works := Disk(false, false, []);
    states, turns := OverlappedTurns(
      StartCreate(input, true, false, false), Resume(1, Threw(message, Null), works), Resume(0, o, works),
      queued, running, failed, done, record);
    TwoEnds([queued, running], 0, failed, done);
    assert [queued, running] + [failed, done] == states[4].history;
  }

  lemma FourTurns(states: seq<Connector>, turns: seq<CallTurn>, record: Run -> Option<Run>)
    requires |turns| == 4 && |states| == 5 && states[0] == Connector([], [])
    requires Possible(states[0], turns[0]) && states[1] == AfterTurn(states[0], turns[0], record)
    requires Possible(states[1], turns[1]) && states[2] == AfterTurn(states[1], turns[1], record)
    requires Possible(states[2], turns[2]) && states[3] == AfterTurn(states[2], turns[2], record)
    requires Possible(states[3], turns[3]) && states[4] == AfterTurn(states[3], turns[3], record)
    ensures IsOverlap([], states, turns, record)
  {
    forall i | 0 <= i < 4
      ensures Possible(states[i], turns[i]) && states[i + 1] == AfterTurn(states[i], turns[i], record)
    {
      if i == 0 {} else if i == 1 {} else if i == 2 {}
    }
  }

  lemma StartOfTwo(t: CallTurn, queued: Run, running: Run, record: Run -> Option<Run>)
    requires t.StartCreate? && t.waits && !t.queuedFails && !t.runningFails
    requires record(t.input.(status := Queued)) == Some(queued) && record(queued.(status := Running)) == Some(running)
    ensures AfterTurn(Connector([], []), t, record) == Connector([queued, running], [Creating(running)])
  {
  }

  lemma RefreshOfTwo(c: Connector, queued: Run, running: Run, record: Run -> Option<Run>)
    requires c.history == [queued, running] && queued.id == running.id && Refreshes(running)
    ensures AfterTurn(c, StartRefresh, record).open == c.open + [Refreshing([running])]
  {
    assert [queued, running][1..] == [running] && [running][1..] == [];
    assert PutAll([], [queued, running]) == PutAll(Put([], queued), [running]);
    assert PutAll([queued], [running]) == PutAll(Put([queued], running), []);
    assert Filter([running], Refreshable()) == [running];
  }

  lemma LastResumes(
    b: Connector, d: Connector, e: Connector, running: Run, failed: Run, done: Run, first: CallTurn, second: CallTurn,
    record: Run -> Option<Run>)
    requires b.open == [Creating(running), Refreshing([running])] && Refreshes(running)
    requires d == Connector(b.history + [failed], [Creating(running)]) && e == Connector(d.history + [done], [])
    requires first.Resume? && first.i == 1 && first.o.Threw? && first.disk == Disk(false, false, [])
    requires second.Resume? && second.i == 0 && second.o.Returned? && second.disk == Disk(false, false, [])
    requires record(Failure(running, first.o.message, Some(first.o.details))) == Some(failed)
    requires record(Patched(running, FinalStatus(second.o), second.o)) == Some(done)
    ensures AfterTurn(b, first, record) == d && AfterTurn(d, second, record) == e
  {
    assert Without(b.open, 1) == [Creating(running)] && Without(d.open, 0) == [];
  }
}
