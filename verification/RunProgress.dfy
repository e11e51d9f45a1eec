/**
 What any sequence of creations and refreshes leaves in the run store: progress of each run, and agreement with the
 file.
 */
module RunProgress {
  import opened Wrappers
  import opened JsonText
  import opened CanonicalJson
  import opened Sanitize
  import opened RunStore
  import opened Sequences

  /** The last record persisted under an id. */
  function LastWith(history: seq<Run>, id: Text): Option<Run> {
    if history == [] then None
    else if history[|history| - 1].id == id then Some(history[|history| - 1])
    else LastWith(history[..|history| - 1], id)
  }

  predicate Ended(s: Status) { s == Succeeded || s == Failed }

  /** A run is queued first, then running, and ends by succeeding or failing. */
  predicate Allowed(before: Option<Run>, next: Status) {
    match before
    case None => next == Queued
    case Some(r) => (r.status == Queued && next == Running) || (r.status == Running && (next == Running || Ended(next)))
  }

  /** Every record after the first `base`, which were loaded, is allowed after the last one under its id. */
  predicate Progress(history: seq<Run>, base: nat) {
    forall j :: base <= j < |history| ==> Allowed(LastWith(history[..j], history[j].id), history[j].status)
  }

  lemma {:induction false} LastWithIndex(history: seq<Run>, id: Text) returns (k: int)
    ensures LastWith(history, id).Some? <==> k >= 0
    ensures k >= 0 ==> k < |history| && history[k].id == id && LastWith(history, id) == Some(history[k])
    ensures forall i :: 0 <= i < |history| && history[i].id == id ==> 0 <= i <= k
  {
    if history == [] { return -1; }
    k := |history| - 1;
    if history[k].id != id { k := LastWithIndex(history[..k], id); }
  }

  /**
   What progress means for any two records of one run, the first perhaps a loaded one: the later is further on, and
   nothing follows an end.
   */
  lemma {:induction false} ProgressIsOrdered(history: seq<Run>, base: nat, i: nat, j: nat)
    requires Progress(history, base) && base <= |history| && DistinctIds(history[..base])
    requires i < j < |history| && base <= j && history[i].id == history[j].id
    ensures
      || (history[i].status == Queued && history[j].status != Queued)
      || (history[i].status == Running && (history[j].status == Running || Ended(history[j].status)))
    decreases j
  {
    var k := LastWithIndex(history[..j], history[j].id);
    assert Allowed(LastWith(history[..j], history[j].id), history[j].status);
    assert history[..j][i] == history[i];
    assert forall m :: 0 <= m < base ==> history[..base][m] == history[m];
    if k != i {
      assert base <= k;
      ProgressIsOrdered(history, base, i, k);
    }
  }

  lemma ProgressAppends(history: seq<Run>, base: nat, r: Run)
    requires Progress(history, base) && Allowed(LastWith(history, r.id), r.status)
    ensures Progress(history + [r], base)
  {
    var h := history + [r];
    forall j | base <= j < |h| ensures Allowed(LastWith(h[..j], h[j].id), h[j].status) {
      assert h[..j] == history[..j];
      if j == |history| { assert history[..j] == history; }
    }
  }

  lemma LastAfterAppend(history: seq<Run>, r: Run, id: Text)
    ensures LastWith(history + [r], id) == if r.id == id then Some(r) else LastWith(history, id)
  {
    assert (history + [r])[..|history|] == history;
  }

  /** Running manual runs carry an id that no longer changes. */
  predicate Settled(history: seq<Run>) {
    forall i :: 0 <= i < |history| && Refreshes(history[i]) ==> SanitizeSlug(history[i].id) == history[i].id
  }

  /** The one status that would set a run back; a status that manual runs do not have is refused and fails the run. */
  predicate NotRequeued(o: Outcome) { o.Returned? ==> o.status != Some(Queued) }

  /** What the record constructor does to kind, id and status. */
  ghost predicate MakesManual(record: Run -> Option<Run>) {
    forall r: Run :: record(r).Some? ==>
      record(r).value.kind == Manual && record(r).value.id == SanitizeSlug(r.id) && record(r).value.status == r.status
      && StatusFits(Manual, r.status)
  }

  lemma ManualRecordMakesManual()
    ensures MakesManual(ManualRecord)
  {
  }

  /** The write of a result that ends the run fails after it was stored, and the failure can be stored too. */
  predicate LateFailure(run: Run, status: Status, o: Outcome, disk: Disk, record: Run -> Option<Run>) {
    && o.Returned? && Ended(status) && disk.firstFails && record(Patched(run, status, o)).Some?
    && record(Failure(run, disk.message, Some(WithError(run.execution, disk.message)))).Some?
  }

  /** Records of one manual run that end it or leave it running: none, one, or a running one and then a failed one. */
  predicate EndsRun(writes: seq<Run>, id: Text) {
    && |writes| <= 2 && (forall i :: 0 <= i < |writes| ==> writes[i].kind == Manual && writes[i].id == id)
    && (|writes| > 0 ==> writes[0].status == Running || Ended(writes[0].status))
    && (|writes| > 1 ==> writes[0].status == Running && Ended(writes[1].status))
  }

  lemma FinishEndsRun(run: Run, status: Status, o: Outcome, disk: Disk, record: Run -> Option<Run>)
    requires MakesManual(record) && status != Queued && SanitizeSlug(run.id) == run.id
    requires !LateFailure(run, status, o, disk, record)
    ensures EndsRun(FinishWrites(run, status, o, disk, record).0, run.id)
  {
  }

  lemma AppendKeeps(history: seq<Run>, base: nat, r: Run)
    requires Progress(history, base) && Settled(history) && Allowed(LastWith(history, r.id), r.status)
    requires r.kind == Manual && SanitizeSlug(r.id) == r.id
    ensures Progress(history + [r], base) && Settled(history + [r]) && LastWith(history + [r], r.id) == Some(r)
  {
    ProgressAppends(history, base, r);
    LastAfterAppend(history, r, r.id);
  }

  lemma EndsRunKeeps(history: seq<Run>, base: nat, run: Run, writes: seq<Run>)
    requires Progress(history, base) && Settled(history) && EndsRun(writes, run.id) && SanitizeSlug(run.id) == run.id
    requires LastWith(history, run.id).Some? && LastWith(history, run.id).value.status == Running
    ensures Progress(history + writes, base) && Settled(history + writes)
    ensures forall id :: id != run.id ==> LastWith(history + writes, id) == LastWith(history, id)
  {
    if |writes| == 0 {
      assert history + writes == history;
      return;
    }
    var h := history + [writes[0]];
    AppendKeeps(history, base, writes[0]);
    forall id | id != run.id ensures LastWith(h, id) == LastWith(history, id) {
      LastAfterAppend(history, writes[0], id);
    }
    if |writes| == 1 {
      assert history + writes == h;
      return;
    }
    AppendKeeps(h, base, writes[1]);
    assert history + writes == h + [writes[1]];
    forall id | id != run.id ensures LastWith(h + [writes[1]], id) == LastWith(history, id) {
      LastAfterAppend(h, writes[1], id);
    }
  }

  /** What a creation stores: nothing, a queued record, a queued and a running one, and then what ends the run. */
  predicate InTurn(input: Run, executor: Option<Outcome>, disk: CreateDisk, writes: seq<Run>,
      record: Run -> Option<Run>) {
    && (|writes| > 0 ==> record(input.(status := Queued)) == Some(writes[0]))
    && (|writes| > 1 ==> executor.Some? && record(writes[0].(status := Running)) == Some(writes[1]))
    && (|writes| > 2 ==>
         writes[2..] == FinishWrites(writes[1], FinalStatus(executor.value), executor.value, disk.finish, record).0)
  }

  lemma CreateIsInTurn(input: Run, executor: Option<Outcome>, disk: CreateDisk, record: Run -> Option<Run>)
    ensures InTurn(input, executor, disk, CreateWrites(input, executor, disk, record).0, record)
  {
    var writes := CreateWrites(input, executor, disk, record).0;
    if |writes| > 2 {
      var end := FinishWrites(writes[1], FinalStatus(executor.value), executor.value, disk.finish, record).0;
      assert writes == [writes[0], writes[1]] + end;
    }
  }

  /** A queued and then a running record of a fresh id. */
  lemma StartKeeps(history: seq<Run>, base: nat, queued: Run, running: Run)
    requires Progress(history, base) && Settled(history) && LastWith(history, queued.id).None?
    requires queued.kind == running.kind == Manual && queued.id == running.id && SanitizeSlug(queued.id) == queued.id
    requires queued.status == Queued && running.status == Running
    ensures
      var h := history + [queued, running];
      && Progress(history + [queued], base) && Settled(history + [queued])
      && Progress(h, base) && Settled(h) && LastWith(h, running.id) == Some(running)
  {
    AppendKeeps(history, base, queued);
    AppendKeeps(history + [queued], base, running);
    assert history + [queued, running] == (history + [queued]) + [running];
  }

  /** The records of one new run: queued, then running, then what ends it. */
  predicate NewRun(writes: seq<Run>, id: Text) {
    && (|writes| > 0 ==> writes[0].kind == Manual && writes[0].id == id && writes[0].status == Queued)
    && (|writes| > 1 ==> writes[1].kind == Manual && writes[1].id == id && writes[1].status == Running)
    && (|writes| > 2 ==> EndsRun(writes[2..], id))
  }

  lemma InTurnIsNewRun(
    input: Run, executor: Option<Outcome>, disk: CreateDisk, writes: seq<Run>, record: Run -> Option<Run>)
    requires MakesManual(record) && InTurn(input, executor, disk, writes, record)
    requires SanitizeSlug(SanitizeSlug(input.id)) == SanitizeSlug(input.id)
    requires executor.Some? ==> NotRequeued(executor.value)
    requires |writes| > 2 ==> !LateFailure(writes[1], FinalStatus(executor.value), executor.value, disk.finish, record)
    ensures NewRun(writes, SanitizeSlug(input.id))
  {
    if |writes| > 2 { FinishEndsRun(writes[1], FinalStatus(executor.value), executor.value, disk.finish, record); }
  }

  lemma NewRunKeeps(history: seq<Run>, base: nat, writes: seq<Run>, id: Text)
    requires Progress(history, base) && Settled(history) && LastWith(history, id).None?
    requires NewRun(writes, id) && SanitizeSlug(id) == id
    ensures Progress(history + writes, base) && Settled(history + writes)
  {
    if |writes| == 0 {
      assert history + writes == history;
    } else if |writes| == 1 {
      AppendKeeps(history, base, writes[0]);
      assert writes == [writes[0]];
    } else {
      StartKeeps(history, base, writes[0], writes[1]);
      EndsRunKeeps(history + [writes[0], writes[1]], base, writes[1], writes[2..]);
      Assoc(history, [writes[0], writes[1]], writes[2..]);
      assert writes == [writes[0], writes[1]] + writes[2..];
    }
  }

  lemma RefreshOneKeeps(history: seq<Run>, base: nat, run: Run, o: Outcome, disk: Disk, record: Run -> Option<Run>)
    requires Progress(history, base) && Settled(history) && LastWith(history, run.id) == Some(run) && NotRequeued(o)
    requires MakesManual(record) && !LateRefresh(run, o, disk, record)
    ensures
      var writes := RefreshOne(run, o, disk, record).0;
      && Progress(history + writes, base) && Settled(history + writes)
      && forall id :: id != run.id ==> LastWith(history + writes, id) == LastWith(history, id)
  {
    var writes := RefreshOne(run, o, disk, record).0;
    if Quiet(run, o) {
      assert history + writes == history;
    } else {
      var k := LastWithIndex(history, run.id);
      assert Refreshes(history[k]);
      FinishEndsRun(run, FinalStatus(News(run, o)), News(run, o), disk, record);
      EndsRunKeeps(history, base, run, writes);
    }
  }

  /** Refreshing the run meets a late failure of the disk. */
  predicate LateRefresh(run: Run, o: Outcome, disk: Disk, record: Run -> Option<Run>) {
    !Quiet(run, o) && LateFailure(run, FinalStatus(News(run, o)), News(run, o), disk, record)
  }

  lemma {:induction false} RefreshKeeps(
    history: seq<Run>, base: nat, snapshot: Runs, answers: Run -> Outcome, disks: Run -> Disk,
    record: Run -> Option<Run>)
    requires Progress(history, base) && Settled(history) && DistinctIds(snapshot) && MakesManual(record)
    requires forall i :: 0 <= i < |snapshot| ==>
      && LastWith(history, snapshot[i].id) == Some(snapshot[i]) && NotRequeued(answers(snapshot[i]))
      && !LateRefresh(snapshot[i], answers(snapshot[i]), disks(snapshot[i]), record)
    ensures Progress(Refreshed(history, snapshot, answers, disks, record).0, base)
    ensures Settled(Refreshed(history, snapshot, answers, disks, record).0)
    decreases |snapshot|
  {
    if snapshot != [] {
      var run := snapshot[0];
      RefreshOneKeeps(history, base, run, answers(run), disks(run), record);
      var next := history + RefreshOne(run, answers(run), disks(run), record).0;
      assert forall i :: 0 <= i < |snapshot[1..]| ==>
          snapshot[1..][i] == snapshot[i + 1] && snapshot[i + 1].id != run.id;
      if RefreshOne(run, answers(run), disks(run), record).1 {
        RefreshKeeps(next, base, snapshot[1..], answers, disks, record);
      }
    }
  }

  // ---------- the store that a history makes ----------

  lemma {:induction false} PutKeeps(runs: Runs, r: Run)
    requires DistinctIds(runs)
    ensures DistinctIds(Put(runs, r))
    ensures forall i :: 0 <= i < |Put(runs, r)| ==>
      Put(runs, r)[i] == r || (Put(runs, r)[i] in runs && Put(runs, r)[i].id != r.id)
  {
    if runs != [] && runs[0].id != r.id {
      PutKeeps(runs[1..], r);
      var rest := Put(runs[1..], r);
      forall i | 0 <= i < |rest| ensures rest[i].id != runs[0].id {
        if rest[i] != r {
          var k :| 0 <= k < |runs[1..]| && runs[1..][k] == rest[i];
          assert runs[k + 1] == rest[i];
        }
      }
    } else if runs != [] {
      forall i | 0 < i < |runs| ensures Put(runs, r)[i] == runs[i] && runs[i].id != r.id {}
    }
  }

  /** The store holds, under each id, the last record persisted. */
  lemma {:induction false} StoreIsLast(history: seq<Run>)
    ensures var runs := PutAll([], history);
      DistinctIds(runs) && forall i :: 0 <= i < |runs| ==> LastWith(history, runs[i].id) == Some(runs[i])
  {
    if history != [] {
      var front, r := history[..|history| - 1], history[|history| - 1];
      assert history == front + [r];
      StoreIsLast(front);
      PutAllAppends([], front, r);
      PutKeeps(PutAll([], front), r);
      var runs := PutAll([], history);
      forall i | 0 <= i < |runs| ensures LastWith(history, runs[i].id) == Some(runs[i]) {
        if runs[i] != r {
          var before := PutAll([], front);
          var k :| 0 <= k < |before| && before[k] == runs[i];
          assert LastWith(front, before[k].id) == Some(before[k]);
        }
      }
    }
  }

  /** What a connector finds on disk makes a store with one run per id. */
  lemma {:induction false} LoadIsDistinct(runs: Runs, items: seq<Run>, normalize: Run -> Option<Run>)
    requires DistinctIds(runs) && Load(runs, items, normalize).Some?
    ensures DistinctIds(Load(runs, items, normalize).value)
    decreases |items|
  {
    if items != [] {
      PutKeeps(runs, normalize(items[0]).value);
      LoadIsDistinct(Put(runs, normalize(items[0]).value), items[1..], normalize);
    }
  }

  lemma {:induction false} PutAllOfDistinct(runs: Runs, loaded: Runs)
    requires DistinctIds(runs + loaded)
    ensures PutAll(runs, loaded) == runs + loaded
    decreases |loaded|
  {
    if loaded == [] {
      assert runs + loaded == runs;
    } else {
      PutLength(runs, loaded[0]);
      assert !HasId(runs, loaded[0].id) by {
        assert forall i :: 0 <= i < |runs| ==> (runs + loaded)[i] == runs[i];
        assert (runs + loaded)[|runs|] == loaded[0];
      }
      assert runs + loaded == (runs + [loaded[0]]) + loaded[1..];
      PutAllOfDistinct(runs + [loaded[0]], loaded[1..]);
    }
  }

  lemma {:induction false} PutAllSplits(runs: Runs, first: seq<Run>, second: seq<Run>)
    ensures PutAll(runs, first + second) == PutAll(PutAll(runs, first), second)
    decreases |first|
  {
    if first == [] {
      assert first + second == second;
    } else {
      assert (first + second)[1..] == first[1..] + second;
      PutAllSplits(Put(runs, first[0]), first[1..], second);
    }
  }

  /** The store of a connector is that of a history which starts with the runs it loaded. */
  lemma StoreFromLoaded(loaded: Runs, history: seq<Run>)
    requires DistinctIds(loaded)
    ensures PutAll(loaded, history) == PutAll([], loaded + history)
  {
    assert [] + loaded == loaded;
    PutAllOfDistinct([], loaded);
    PutAllSplits([], loaded, history);
  }

  // ---------- any sequence of operations ----------

  datatype Op =
    | Create(input: Run, executor: Option<Outcome>, disk: CreateDisk)
    | Refresh(answers: Run -> Outcome, disks: Run -> Disk)

  /** The history after an operation on the store that a history, loaded runs included, makes. */
  function AfterOp(history: seq<Run>, op: Op): seq<Run> {
    match op
    case Create(input, executor, disk) => history + CreateWrites(input, executor, disk, ManualRecord).0
    case Refresh(answers, disks) => Refreshed(history, PutAll([], history), answers, disks, ManualRecord).0
  }

  lemma {:induction false} RefreshedAfter(
    front: seq<Run>, history: seq<Run>, snapshot: Runs, answers: Run -> Outcome, disks: Run -> Disk,
    record: Run -> Option<Run>)
    ensures Refreshed(front + history, snapshot, answers, disks, record)
      == (front + Refreshed(history, snapshot, answers, disks, record).0,
          Refreshed(history, snapshot, answers, disks, record).1)
    decreases |snapshot|
  {
    if snapshot != [] {
      var (writes, ok) := RefreshOne(snapshot[0], answers(snapshot[0]), disks(snapshot[0]), record);
      assert (front + history) + writes == front + (history + writes);
      if ok { RefreshedAfter(front, history + writes, snapshot[1..], answers, disks, record); }
    }
  }

  lemma RefreshFollows(
    loaded: Runs, history: seq<Run>, answers: Run -> Outcome, disks: Run -> Disk, record: Run -> Option<Run>)
    requires DistinctIds(loaded)
    ensures Refreshed(loaded + history, PutAll([], loaded + history), answers, disks, record).0
      == loaded + Refreshed(history, PutAll(loaded, history), answers, disks, record).0
  {
    StoreFromLoaded(loaded, history);
    RefreshedAfter(loaded, history, PutAll(loaded, history), answers, disks, record);
  }

  /** What an operation leaves as the history of a connector, as its methods state it. */
  function ConnectorHistory(loaded: Runs, history: seq<Run>, op: Op): seq<Run> {
    match op
    case Create(input, executor, disk) => history + CreateWrites(input, executor, disk, ManualRecord).0
    case Refresh(answers, disks) => Refreshed(history, PutAll(loaded, history), answers, disks, ManualRecord).0
  }

  /** A connector that loaded some runs follows the history that starts with them. */
  lemma ConnectorFollowsHistory(loaded: Runs, history: seq<Run>, op: Op)
    requires DistinctIds(loaded)
    ensures AfterOp(loaded + history, op) == loaded + ConnectorHistory(loaded, history, op)
  {
    match op
    case Create(input, executor, disk) => Assoc(loaded, history, CreateWrites(input, executor, disk, ManualRecord).0);
    case Refresh(answers, disks) => RefreshFollows(loaded, history, answers, disks, ManualRecord);
  }

  /** A creation that stores a result meets a late failure of the disk. */
  predicate LateCreate(input: Run, executor: Option<Outcome>, disk: CreateDisk) {
    var writes := CreateWrites(input, executor, disk, ManualRecord).0;
    |writes| > 2 && executor.Some?
    && LateFailure(writes[1], FinalStatus(executor.value), executor.value, disk.finish, ManualRecord)
  }

  /**
   The id of a new run is fresh and, cut to a slug, final; no executor reports a run as queued; and no write of an
   ended run fails.
   */
  ghost predicate Orderly(history: seq<Run>, op: Op) {
    match op
    case Create(input, executor, disk) =>
      && LastWith(history, SanitizeSlug(input.id)).None? && NoDashAtEnd(SanitizeSlug(input.id))
      && (executor.Some? ==> NotRequeued(executor.value)) && !LateCreate(input, executor, disk)
    case Refresh(answers, disks) =>
      forall run :: NotRequeued(answers(run)) && !LateRefresh(run, answers(run), disks(run), ManualRecord)
  }

  /** Histories of a connector that starts with the runs it loaded. */
  ghost predicate IsTrace(loaded: Runs, histories: seq<seq<Run>>, ops: seq<Op>) {
    && |histories| == |ops| + 1 && histories[0] == loaded
    && forall i :: 0 <= i < |ops| ==> histories[i + 1] == AfterOp(histories[i], ops[i])
  }

  lemma OpKeeps(history: seq<Run>, base: nat, op: Op)
    requires Progress(history, base) && Settled(history) && Orderly(history, op)
    ensures Progress(AfterOp(history, op), base) && Settled(AfterOp(history, op))
  {
    ManualRecordMakesManual();
    match op
    case Create(input, executor, disk) =>
      SlugStableIff(input.id);
      CreateIsInTurn(input, executor, disk, ManualRecord);
      InTurnIsNewRun(input, executor, disk, CreateWrites(input, executor, disk, ManualRecord).0, ManualRecord);
      NewRunKeeps(history, base, CreateWrites(input, executor, disk, ManualRecord).0, SanitizeSlug(input.id));
    case Refresh(answers, disks) =>
      StoreIsLast(history);
      RefreshKeeps(history, base, PutAll([], history), answers, disks, ManualRecord);
  }

  /**
   From any loaded store whose running runs carry final ids, through any creations and refreshes with fresh ids: every
   run is queued, then running, then succeeded or failed, and never changes after; a loaded run goes on from where it
   was.
   */
  lemma {:induction false} RunsMakeProgress(loaded: Runs, histories: seq<seq<Run>>, ops: seq<Op>, n: nat)
    requires IsTrace(loaded, histories, ops) && n <= |ops| && Settled(loaded)
    requires forall i :: 0 <= i < |ops| ==> Orderly(histories[i], ops[i])
    ensures Progress(histories[n], |loaded|) && Settled(histories[n])
  {
    if n > 0 {
      RunsMakeProgress(loaded, histories, ops, n - 1);
      OpKeeps(histories[n - 1], |loaded|, ops[n - 1]);
    }
  }

  /**
   An id whose slug was cut after a dash: the running record gets another id, and the queued one stays behind for ever.
   */
  lemma CutIdSplitsRun(input: Run, executor: Option<Outcome>, disk: CreateDisk, writes: seq<Run>)
    requires InTurn(input, executor, disk, writes, ManualRecord) && |writes| >= 2
      && !NoDashAtEnd(SanitizeSlug(input.id))
    ensures writes[0].id != writes[1].id && writes[0].status == Queued && writes[1].status == Running
      && !Progress(writes, 0)
  {
    SlugStableIff(input.id);
    ManualRecordMakesManual();
    assert writes[..1] == [writes[0]];
    assert LastWith(writes[..1], writes[1].id) == None by { LastAfterAppend([], writes[0], writes[1].id); }
  }

  /**
   The condition on the disk is exact: a late failure records a run that ended as failed right after, against the
   progress of runs.
   */
  lemma LateFailureTurnsSuccess(history: seq<Run>, base: nat, run: Run, status: Status, o: Outcome, disk: Disk)
    requires base <= |history| && LateFailure(run, status, o, disk, ManualRecord)
    ensures !Progress(history + FinishWrites(run, status, o, disk, ManualRecord).0, base)
  {
    ManualRecordMakesManual();
    var writes := FinishWrites(run, status, o, disk, ManualRecord).0;
    assert writes == [writes[0], writes[1]];
    TwoEnds(history, base, writes[0], writes[1]);
  }

  lemma TwoEnds(history: seq<Run>, base: nat, a: Run, b: Run)
    requires base <= |history| && a.id == b.id && Ended(a.status) && Ended(b.status)
    ensures !Progress(history + [a, b], base)
  {
    var h, n := history + [a, b], |history| + 1;
    assert h[..n] == history + [a];
    LastAfterAppend(history, a, b.id);
    assert h[n] == b && !Allowed(LastWith(h[..n], h[n].id), h[n].status);
  }

  /**
   A blank title, prompt or summary passes the first normalisation and fails the second: the creation throws and leaves
   the run queued.
   */
  lemma BlankInputStaysQueued(input: Run, executor: Outcome, disk: CreateDisk)
    requires input.kind == Manual && Accepts(input.(status := Queued))
    requires All(input.title, IsSpace) || All(input.prompt, IsSpace) || All(input.summary, IsSpace)
    ensures
      var (writes, returned) := CreateWrites(input, Some(executor), disk, ManualRecord);
      returned == None && |writes| == 1 && writes[0].status == Queued
  {
    BlankIff(input.title);
    BlankIff(input.prompt);
    BlankIff(input.summary);
  }

  // ---------- agreement with the file ----------

  predicate NotBlank(t: Text) { !All(t, IsSpace) }

  predicate Fits(r: Run) {
    && NotBlank(r.title) && NotBlank(r.prompt) && NotBlank(r.summary)
    && |FullSlug(r.id)| <= MAX_SLUG && (r.projectId.Some? ==> |FullSlug(r.projectId.value)| <= MAX_SLUG)
    && OptionFits(r.artifactPath) && OptionFits(r.error)
  }

  predicate OptionFits(t: Option<Text>) { t.None? || t.value == [] || NotBlank(t.value) }

  predicate OutcomeFits(o: Outcome) {
    match o
    case Returned(_, summary, artifactPath, _, error) =>
      OptionFits(summary) && OptionFits(artifactPath) && OptionFits(error)
    case Threw(message, _) => OptionFits(Some(message))
  }

  /** A record made from fields that fit in 80 characters and are not blank is stable, and fits again. */
  lemma FittingIsStable(r: Run)
    requires Fits(r) && ManualRecord(r).Some?
    ensures Stable(ManualRecord(r).value)
  {
    var m := r.(kind := Manual);
    StableIff(m);
    SlugStableIff(r.id);
    if r.projectId.Some? { SlugStableIff(r.projectId.value); }
    BlankIff(r.title);
    BlankIff(r.prompt);
    BlankIff(r.summary);
    if r.artifactPath.Some? { BlankIff(r.artifactPath.value); }
    if r.error.Some? { BlankIff(r.error.value); }
  }

  lemma StableFits(n: Run)
    requires Stable(n) && n.kind == Manual
    ensures Fits(n)
  {
    StableByField(n);
    BlankIff(n.title);
    BlankIff(n.prompt);
    BlankIff(n.summary);
    SlugStableIff(n.id);
    StableSlugFits(n.id);
    if n.projectId.Some? { StableSlugFits(n.projectId.value); }
    if n.artifactPath.Some? { BlankIff(n.artifactPath.value); }
    if n.error.Some? { BlankIff(n.error.value); }
  }

  lemma StableSlugFits(s: Text)
    requires SanitizeSlug(s) == s
    ensures |FullSlug(s)| <= MAX_SLUG
  {
    SlugUnits(s);
    assert All(s, IsSlugUnit) by { assert forall i :: 0 <= i < |s| ==> s[i] == FullSlug(s)[i]; }
    SlugOfSlugUnits(s);
    var _, _ := TrimIsSlice(s, IsDash);
  }

  lemma RefusalFits(r: Run)
    ensures NotBlank(Refusal(r))
  {
    var missing, status := "Manual run requires id, title, prompt and summary.", "Invalid manual run status.";
    assert missing[|missing| - 1] == '.' && status[|status| - 1] == '.';
    assert Ascii(missing)[|missing| - 1] == 0x2E && Ascii(status)[|status| - 1] == 0x2E;
  }

  /** Records made from what fits are good and manual, and good manual ones fit again, with any status. */
  ghost predicate Closed(fits: Run -> bool, good: Run -> bool, record: Run -> Option<Run>) {
    && (forall r: Run :: fits(r) && record(r).Some? ==> good(record(r).value) && record(r).value.kind == Manual)
    && (forall r: Run, s: Status :: good(r) && r.kind == Manual ==> fits(r.(status := s)))
    && (forall r: Run :: good(r) && r.kind == Manual ==> OptionFits(r.error))
    && (forall r: Run, s: Status, o: Outcome, disk: Disk ::
         good(r) && r.kind == Manual && OutcomeFits(o) && OptionFits(Some(disk.message)) ==>
           AllGood(FinishWrites(r, s, o, disk, record).0, good))
  }

  ghost predicate AllGood(history: seq<Run>, good: Run -> bool) { forall i :: 0 <= i < |history| ==> good(history[i]) }

  lemma FailureFits(run: Run, message: Text, execution: Option<Json>)
    requires Fits(run) && OptionFits(Some(message))
    ensures Fits(Failure(run, message, execution))
  {
  }

  lemma RecordIsStable(r: Run)
    requires Fits(r)
    ensures AllGood(ToList(ManualRecord(r)), Stable)
  {
    if ManualRecord(r).Some? { FittingIsStable(r); }
  }

  lemma PatchedFits(run: Run, status: Status, o: Outcome)
    requires Fits(run) && OutcomeFits(o) && o.Returned? && Patched(run, status, o).summary != []
    ensures Fits(Patched(run, status, o))
  {
  }

  lemma FinishIsGood(run: Run, status: Status, o: Outcome, disk: Disk, good: Run -> bool, record: Run -> Option<Run>)
    requires o.Threw? ==> AllGood(ToList(record(Failure(run, o.message, Some(o.details)))), good)
    requires o.Returned? ==>
      var next := Patched(run, status, o);
      && AllGood(ToList(record(next)), good)
      && AllGood(ToList(record(Failure(run, disk.message, Some(WithError(run.execution, disk.message))))), good)
      && AllGood(ToList(record(Failure(run, Refusal(next), Some(WithError(run.execution, Refusal(next)))))), good)
    ensures AllGood(FinishWrites(run, status, o, disk, record).0, good)
  {
  }

  lemma FailureIsStable(run: Run, message: Text, execution: Option<Json>)
    requires Fits(run) && OptionFits(Some(message))
    ensures AllGood(ToList(ManualRecord(Failure(run, message, execution))), Stable)
  {
    FailureFits(run, message, execution);
    RecordIsStable(Failure(run, message, execution));
  }

  lemma PatchedIsStable(run: Run, status: Status, o: Outcome)
    requires Fits(run) && OutcomeFits(o) && o.Returned?
    ensures AllGood(ToList(ManualRecord(Patched(run, status, o))), Stable)
  {
    if ManualRecord(Patched(run, status, o)).Some? {
      PatchedFits(run, status, o);
      RecordIsStable(Patched(run, status, o));
    }
  }

  lemma FinishIsStable(run: Run, status: Status, o: Outcome, disk: Disk)
    requires Fits(run) && OutcomeFits(o) && OptionFits(Some(disk.message))
    ensures AllGood(FinishWrites(run, status, o, disk, ManualRecord).0, Stable)
  {
    if o.Threw? {
      FailureIsStable(run, o.message, Some(o.details));
    } else {
      var next := Patched(run, status, o);
      RefusalFits(next);
      PatchedIsStable(run, status, o);
      FailureIsStable(run, disk.message, Some(WithError(run.execution, disk.message)));
      FailureIsStable(run, Refusal(next), Some(WithError(run.execution, Refusal(next))));
    }
    FinishIsGood(run, status, o, disk, Stable, ManualRecord);
  }

  lemma ManualRecordIsClosed()
    ensures Closed(Fits, Stable, ManualRecord)
  {
    ManualRecordMakesManual();
    forall r: Run | Fits(r) && ManualRecord(r).Some? ensures Stable(ManualRecord(r).value) { FittingIsStable(r); }
    forall r: Run, s: Status | Stable(r) && r.kind == Manual ensures Fits(r.(status := s)) { StableFits(r); }
    forall r: Run | Stable(r) && r.kind == Manual ensures OptionFits(r.error) { StableFits(r); }
    forall r: Run, s: Status, o: Outcome, disk: Disk
      | Stable(r) && r.kind == Manual && OutcomeFits(o) && OptionFits(Some(disk.message))
      ensures AllGood(FinishWrites(r, s, o, disk, ManualRecord).0, Stable)
    {
      StableFits(r);
      FinishIsStable(r, s, o, disk);
    }
  }

  lemma InTurnIsGood(
    input: Run, executor: Option<Outcome>, disk: CreateDisk, writes: seq<Run>, fits: Run -> bool, good: Run -> bool,
    record: Run -> Option<Run>)
    requires Closed(fits, good, record) && InTurn(input, executor, disk, writes, record)
      && OptionFits(Some(disk.finish.message))
    requires fits(input.(status := Queued)) && (executor.Some? ==> OutcomeFits(executor.value))
    ensures AllGood(writes, good)
  {
    if |writes| > 2 {
      forall i | 2 <= i < |writes| ensures good(writes[i]) { assert writes[i] == writes[2..][i - 2]; }
    }
  }

  ghost predicate OpFits(op: Op) {
    match op
    case Create(input, executor, disk) =>
      Fits(input) && (executor.Some? ==> OutcomeFits(executor.value)) && OptionFits(Some(disk.finish.message))
    case Refresh(answers, disks) => forall run :: OutcomeFits(answers(run)) && OptionFits(Some(disks(run).message))
  }

  lemma {:induction false} RefreshIsGood(
    history: seq<Run>, snapshot: Runs, answers: Run -> Outcome, disks: Run -> Disk, fits: Run -> bool,
    good: Run -> bool,
    record: Run -> Option<Run>)
    requires Closed(fits, good, record) && AllGood(history, good) && AllGood(snapshot, good)
    requires forall run :: OutcomeFits(answers(run)) && OptionFits(Some(disks(run).message))
    ensures AllGood(Refreshed(history, snapshot, answers, disks, record).0, good)
    decreases |snapshot|
  {
    if snapshot != [] {
      var run := snapshot[0];
      assert OutcomeFits(answers(run)) && OptionFits(Some(disks(run).message));
      NewsIsGood(run, answers(run), disks(run), fits, good, record);
      var (writes, ok) := RefreshOne(run, answers(run), disks(run), record);
      if ok { RefreshIsGood(history + writes, snapshot[1..], answers, disks, fits, good, record); }
    }
  }

  lemma NewsIsGood(run: Run, o: Outcome, disk: Disk, fits: Run -> bool, good: Run -> bool, record: Run -> Option<Run>)
    requires Closed(fits, good, record) && good(run) && OutcomeFits(o) && OptionFits(Some(disk.message))
    ensures AllGood(RefreshOne(run, o, disk, record).0, good)
  {
    if !Quiet(run, o) { assert OutcomeFits(News(run, o)); }
  }

  lemma StoredWasPersisted(history: seq<Run>, i: nat)
    requires i < |PutAll([], history)|
    ensures PutAll([], history)[i] in history
  {
    StoreIsLast(history);
    var k := LastWithIndex(history, PutAll([], history)[i].id);
  }

  lemma StoreIsGood(history: seq<Run>, good: Run -> bool)
    requires AllGood(history, good)
    ensures AllGood(PutAll([], history), good)
  {
    forall i | 0 <= i < |PutAll([], history)| ensures good(PutAll([], history)[i]) { StoredWasPersisted(history, i); }
  }

  lemma OpIsStable(history: seq<Run>, op: Op)
    requires AllGood(history, Stable) && OpFits(op)
    ensures AllGood(AfterOp(history, op), Stable)
  {
    ManualRecordIsClosed();
    match op
    case Create(input, executor, disk) =>
      assert Fits(input.(status := Queued));
      CreateIsInTurn(input, executor, disk, ManualRecord);
      InTurnIsGood(input, executor, disk, CreateWrites(input, executor, disk, ManualRecord).0, Fits, Stable,
          ManualRecord);
    case Refresh(answers, disks) =>
      StoreIsGood(history, Stable);
      RefreshIsGood(history, PutAll([], history), answers, disks, Fits, Stable, ManualRecord);
  }

  lemma {:induction false} HistoryIsStable(loaded: Runs, histories: seq<seq<Run>>, ops: seq<Op>, n: nat)
    requires IsTrace(loaded, histories, ops) && n <= |ops| && AllGood(loaded, Stable)
    requires forall i :: 0 <= i < |ops| ==> OpFits(ops[i])
    ensures AllGood(histories[n], Stable)
  {
    if n > 0 {
      HistoryIsStable(loaded, histories, ops, n - 1);
      OpIsStable(histories[n - 1], ops[n - 1]);
    }
  }

  /**
   From any loaded store of stable runs, through any creations and refreshes whose slugs fit and whose texts are not
   blank, on a disk that works or fails: reading back a file that holds the store gives the same store.
   */
  lemma ReloadIsIdentity(loaded: Runs, histories: seq<seq<Run>>, ops: seq<Op>, n: nat)
    requires IsTrace(loaded, histories, ops) && n <= |ops| && AllGood(loaded, Stable)
    requires forall i :: 0 <= i < |ops| ==> OpFits(ops[i])
    ensures Reload([], PutAll([], histories[n])) == Some(PutAll([], histories[n]))
  {
    HistoryIsStable(loaded, histories, ops, n);
    StoreIsLast(histories[n]);
    StoreIsGood(histories[n], Stable);
    ReloadIffStable(PutAll([], histories[n]));
  }
}
