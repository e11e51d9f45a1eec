/**
 The connector's run store and its file. Records are normalised whenever they are stored or read
 back, so the store agrees with its file only as far as a second normalisation changes nothing.
 */
module RunStore {
  import opened Wrappers
  import opened JsonText
  import opened CanonicalJson
  import opened Sanitize

  datatype Kind = Manual | Minimal

  datatype Status = Idle | Queued | Running | Succeeded | Failed | Unsupported

  datatype Agent = AgentZero | Codex | ClaudeCode | Hermes | UnknownAgent

  datatype Run = Run(
    kind: Kind, id: Text, title: Text, projectId: Option<Text>, agent: Agent, status: Status, summary: Text,
    artifactPath: Option<Text>, error: Option<Text>, prompt: Text, execution: Option<Json>)

  // ---------- normalisation ----------

  /** An optional text; an empty one counts as missing. */
  function OptionalText(t: Option<Text>): Option<Text> {
    if t.None? || t.value == [] then None else Some(SanitizeText(t.value))
  }

  function OptionalSlug(t: Option<Text>): Option<Text> {
    if t.None? || t.value == [] then None else Some(SanitizeSlug(t.value))
  }

  predicate StatusFits(kind: Kind, s: Status) {
    s == Running || s == Succeeded || s == Failed || s == if kind == Manual then Queued else Idle
  }

  /** The checks of the two record constructors; any failure throws. */
  predicate Accepts(r: Run) {
    && r.id != [] && r.title != [] && (r.kind == Manual ==> r.prompt != [] && r.summary != [])
    && StatusFits(r.kind, r.status) && r.agent != UnknownAgent
    && SanitizeSlug(r.id) != [] && OptionalSlug(r.projectId) != Some([])
  }

  function Normalize(r: Run): Option<Run> {
    if !Accepts(r) then None
    else Some(Run(
      r.kind, SanitizeSlug(r.id), SanitizeText(r.title), OptionalSlug(r.projectId), r.agent, r.status,
      SanitizeText(r.summary),
      OptionalText(r.artifactPath), OptionalText(r.error),
      if r.kind == Manual then SanitizeText(r.prompt) else [], if r.kind == Manual then r.execution else None))
  }

  predicate NoDashAtEnd(slug: Text) { slug == [] || slug[|slug| - 1] != DASH }

  predicate Stable(r: Run) { Normalize(r) == Some(r) }

  lemma OptionalTextTwice(t: Option<Text>)
    ensures OptionalText(OptionalText(t)) == OptionalText(t) <==> OptionalText(t) != Some([])
  {
    if t.Some? { TextTwice(t.value); }
  }

  lemma OptionalSlugTwice(t: Option<Text>)
    requires OptionalSlug(t) != Some([])
    ensures OptionalSlug(OptionalSlug(t)) == OptionalSlug(t) <==> OptionalSlug(t).Some? ==>
      NoDashAtEnd(OptionalSlug(t).value)
  {
    if t.Some? { SlugStableIff(t.value); }
  }

  /** A record is stable when each of its fields is. */
  lemma StableByField(n: Run)
    ensures Stable(n) <==>
      && Accepts(n) && SanitizeSlug(n.id) == n.id && SanitizeText(n.title) == n.title
      && OptionalSlug(n.projectId) == n.projectId
      && SanitizeText(n.summary) == n.summary && OptionalText(n.artifactPath) == n.artifactPath
      && OptionalText(n.error) == n.error
      && (if n.kind == Manual then SanitizeText(n.prompt) == n.prompt else n.prompt == [] && n.execution == None)
  {
  }

  /**
   A stored record survives another normalisation exactly when no cut slug ends in a dash and no text that was given
   came out blank.
   */
  lemma StableIff(r: Run)
    requires Normalize(r).Some?
    ensures var n := Normalize(r).value;
      Stable(n) <==>
        && NoDashAtEnd(n.id) && (n.projectId.Some? ==> NoDashAtEnd(n.projectId.value))
        && n.title != [] && (n.kind == Manual ==> n.prompt != [] && n.summary != [])
        && n.artifactPath != Some([]) && n.error != Some([])
  {
    StableByField(Normalize(r).value);
    SlugStableIff(r.id);
    OptionalSlugTwice(r.projectId);
    TextTwice(r.title);
    TextTwice(r.summary);
    TextTwice(r.prompt);
    OptionalTextTwice(r.artifactPath);
    OptionalTextTwice(r.error);
  }

  // ---------- the store, a Map in insertion order, and its file ----------

  type Runs = seq<Run>

  function Put(runs: Runs, r: Run): Runs {
    if runs == [] then [r] else if runs[0].id == r.id then [r] + runs[1..] else [runs[0]] + Put(runs[1..], r)
  }

  function PutAll(runs: Runs, writes: seq<Run>): Runs
    decreases |writes|
  {
    if writes == [] then runs else PutAll(Put(runs, writes[0]), writes[1..])
  }

  datatype File = Missing | Holds(items: seq<Run>) | Garbage

  /** Reading items back into a store, each normalised; one item that is refused fails the whole load. */
  function Load(runs: Runs, items: seq<Run>, normalize: Run -> Option<Run>): Option<Runs>
    decreases |items|
  {
    if items == [] then Some(runs)
    else if normalize(items[0]).None? then None
    else Load(Put(runs, normalize(items[0]).value), items[1..], normalize)
  }

  function Reload(runs: Runs, items: seq<Run>): Option<Runs> { Load(runs, items, Normalize) }

  predicate DistinctIds(runs: Runs) { forall i, j :: 0 <= i < j < |runs| ==> runs[i].id != runs[j].id }

  predicate HasId(runs: Runs, id: Text) { exists i :: 0 <= i < |runs| && runs[i].id == id }

  lemma {:induction false} PutLength(runs: Runs, r: Run)
    ensures |Put(runs, r)| == |runs| + if HasId(runs, r.id) then 0 else 1
    ensures !HasId(runs, r.id) ==> Put(runs, r) == runs + [r]
  {
    if runs != [] {
      PutLength(runs[1..], r);
      assert HasId(runs, r.id) <==> runs[0].id == r.id || HasId(runs[1..], r.id) by {
        assert forall i :: 0 <= i < |runs[1..]| ==> runs[1..][i] == runs[i + 1];
        if HasId(runs[1..], r.id) {
          var i :| 0 <= i < |runs[1..]| && runs[1..][i].id == r.id;
          assert runs[i + 1].id == r.id;
        }
        if HasId(runs, r.id) && runs[0].id != r.id {
          var i :| 0 <= i < |runs| && runs[i].id == r.id;
          assert runs[1..][i - 1].id == r.id;
        }
      }
    }
  }

  /** A load yields as many runs as there are items only when it keeps each item, normalised, in its place. */
  lemma {:induction false} LoadShape(runs: Runs, items: seq<Run>, normalize: Run -> Option<Run>)
    requires Load(runs, items, normalize).Some?
    ensures |Load(runs, items, normalize).value| <= |runs| + |items|
    ensures var out := Load(runs, items, normalize).value;
      |out| == |runs| + |items| ==>
        out[..|runs|] == runs && forall i :: 0 <= i < |items| ==> normalize(items[i]) == Some(out[|runs| + i])
    decreases |items|
  {
    if items != [] {
      var n := normalize(items[0]).value;
      LoadShape(Put(runs, n), items[1..], normalize);
      PutLength(runs, n);
      var out := Load(runs, items, normalize).value;
      if |out| == |runs| + |items| {
        assert out[..|runs| + 1] == runs + [n];
        assert out[|runs|] == (runs + [n])[|runs|] && out[..|runs|] == (runs + [n])[..|runs|];
        forall i | 0 <= i < |items| ensures normalize(items[i]) == Some(out[|runs| + i]) {
          if i > 0 { assert items[1..][i - 1] == items[i]; }
        }
      }
    }
  }

  lemma {:induction false} LoadStable(runs: Runs, items: seq<Run>, normalize: Run -> Option<Run>)
    requires DistinctIds(runs + items) && forall i :: 0 <= i < |items| ==> normalize(items[i]) == Some(items[i])
    ensures Load(runs, items, normalize) == Some(runs + items)
    decreases |items|
  {
    if items == [] {
      assert runs + items == runs;
    } else {
      PutLength(runs, items[0]);
      assert !HasId(runs, items[0].id) by {
        assert forall i :: 0 <= i < |runs| ==> (runs + items)[i] == runs[i];
        assert (runs + items)[|runs|] == items[0];
      }
      assert runs + items == (runs + [items[0]]) + items[1..];
      LoadStable(runs + [items[0]], items[1..], normalize);
    }
  }

  /** Reloading the file of a store gives that same store exactly when every run in it is stable. */
  lemma ReloadIffStable(runs: Runs)
    requires DistinctIds(runs)
    ensures Reload([], runs) == Some(runs) <==> forall i :: 0 <= i < |runs| ==> Stable(runs[i])
  {
    if forall i :: 0 <= i < |runs| ==> Stable(runs[i]) {
      assert [] + runs == runs;
      LoadStable([], runs, Normalize);
    }
    if Reload([], runs) == Some(runs) { LoadShape([], runs, Normalize); }
  }

  // ---------- the operations ----------

  /** What an executor or a status refresh returns; `None` where its result leaves a field out. */
  datatype Outcome =
    | Returned(status: Option<Status>, summary: Option<Text>, artifactPath: Option<Text>, execution: Option<Json>,
        error: Option<Text>)
    | Threw(message: Text, details: Json)

  function ManualRecord(r: Run): Option<Run> { Normalize(r.(kind := Manual)) }

  function Patched(run: Run, status: Status, o: Outcome): Run
    requires o.Returned?
  {
    run.(status := status, summary := o.summary.GetOr(run.summary),
        artifactPath := o.artifactPath.OrElse(run.artifactPath),
         execution := o.execution.OrElse(run.execution), error := o.error)
  }

  function Failure(run: Run, message: Text, execution: Option<Json>): Run {
    run.(status := Failed, error := Some(message), execution := execution)
  }

  /** The message of a refused record. */
  function Refusal(r: Run): Text {
    if r.summary == [] then Ascii("Manual run requires id, title, prompt and summary.")
    else Ascii("Invalid manual run status.")
  }

  function ErrorKey(): Text { Ascii("error") }

  function SetError(fields: seq<Field>, error: Json): seq<Field> {
    if fields == [] then [Field(ErrorKey(), error)]
    else if fields[0].key == ErrorKey() then [Field(ErrorKey(), error)] + fields[1..]
    else [fields[0]] + SetError(fields[1..], error)
  }

  /** The execution with the error of a failure noted in it. */
  function WithError(execution: Option<Json>, message: Text): Json {
    Obj(SetError(if execution.Some? && execution.value.Obj? then execution.value.fields else [],
        Obj([Field(Ascii("message"), Str(message))])))
  }

  /** Whether the first and the second write of the file fail while an execution ends, and the message of that error. */
  datatype Disk = Disk(firstFails: bool, secondFails: bool, message: Text)

  /**
   The records that end an execution, and the one returned, if it does not throw: the result; or a failed run when the
   executor threw, the result is refused, or the write of the result fails. The store keeps a record even when its
   write fails.
   */
  function FinishWrites(run: Run, status: Status, o: Outcome, disk: Disk,
      record: Run -> Option<Run>): (seq<Run>, Option<Run>) {
    match o
    case Threw(message, details) =>
      var failed := record(Failure(run, message, Some(details)));
      (ToList(failed), if disk.firstFails then None else failed)
    case Returned(_, _, _, _, _) =>
      var next := Patched(run, status, o);
      var made := record(next);
      if made.Some? && !disk.firstFails then ([made.value], made)
      else if made.Some? then
        var failed := record(Failure(run, disk.message, Some(WithError(run.execution, disk.message))));
        ([made.value] + ToList(failed), if disk.secondFails then None else failed)
      else
        var failed := record(Failure(run, Refusal(next), Some(WithError(run.execution, Refusal(next)))));
        (ToList(failed), if disk.firstFails then None else failed)
  }

  function FinalStatus(o: Outcome): Status { if o.Returned? then o.status.GetOr(Succeeded) else Failed }

  function ToList(r: Option<Run>): seq<Run> { if r.Some? then [r.value] else [] }

  /** Whether the writes of the queued and of the running record fail, and those that end the execution. */
  datatype CreateDisk = CreateDisk(queuedFails: bool, runningFails: bool, finish: Disk)

  /** The records a creation stores, in order, and the one it returns, if it does not throw. */
  function CreateWrites(input: Run, executor: Option<Outcome>, disk: CreateDisk,
      record: Run -> Option<Run>): (seq<Run>, Option<Run>) {
    match record(input.(status := Queued))
    case None => ([], None)
    case Some(queued) =>
      if disk.queuedFails then ([queued], None)
      else if executor.None? then ([queued], Some(queued))
      else match record(queued.(status := Running))
        case None => ([queued], None)
        case Some(running) =>
          if disk.runningFails then ([queued, running], None)
          else
            var (writes, r) := FinishWrites(running, FinalStatus(executor.value), executor.value, disk.finish, record);
            ([queued, running] + writes, r)
  }

  predicate Refreshes(run: Run) { run.kind == Manual && run.status == Running }

  /** The refresh brings no new status. */
  predicate NoNews(run: Run, o: Outcome) { o.Returned? && (o.status.None? || o.status.value == run.status) }

  /** Without news only the execution is taken over. */
  function News(run: Run, o: Outcome): Outcome {
    if NoNews(run, o) then Returned(Some(run.status), None, None, o.execution, run.error) else o
  }

  predicate Quiet(run: Run, o: Outcome) { !Refreshes(run) || (NoNews(run, o) && o.execution.None?) }

  /** The records that refreshing one run stores, and whether it does not throw. */
  function RefreshOne(run: Run, o: Outcome, disk: Disk, record: Run -> Option<Run>): (seq<Run>, bool) {
    if Quiet(run, o) then ([], true)
    else
      var (writes, r) := FinishWrites(run, FinalStatus(News(run, o)), News(run, o), disk, record);
      (writes, r.Some?)
  }

  /** The history after refreshing the runs of a snapshot in turn, and whether none of them threw. */
  function Refreshed(
    history: seq<Run>, snapshot: Runs, answers: Run -> Outcome, disks: Run -> Disk,
    record: Run -> Option<Run>): (seq<Run>, bool)
    decreases |snapshot|
  {
    if snapshot == [] then (history, true)
    else
      var (writes, ok) := RefreshOne(snapshot[0], answers(snapshot[0]), disks(snapshot[0]), record);
      if ok then Refreshed(history + writes, snapshot[1..], answers, disks, record) else (history + writes, false)
  }

  lemma {:induction false} PutAllAppends(runs: Runs, writes: seq<Run>, r: Run)
    ensures PutAll(runs, writes + [r]) == Put(PutAll(runs, writes), r)
    decreases |writes|
  {
    if writes == [] {
      assert (writes + [r])[1..] == [];
    } else {
      assert (writes + [r])[1..] == writes[1..] + [r];
      PutAllAppends(Put(runs, writes[0]), writes[1..], r);
    }
  }

  lemma AppendTwo(history: seq<Run>, a: Run, b: Run, rest: seq<Run>)
    ensures history + [a] + [b] + rest == history + ([a, b] + rest)
  {
  }

  /** `record` and `normalize` are the record constructors of the contracts package: `ManualRecord` and `Normalize`. */
  class HostRuns {
    const record: Run -> Option<Run>
    const normalize: Run -> Option<Run>
    var runs: Runs
    var file: File
    /** The runs that were loaded, and every record persisted since, in order. */
    ghost var loaded: Runs
    ghost var history: seq<Run>

    /** The store is what its loads and records made it. */
    ghost predicate Valid()
      reads this
    {
      runs == PutAll(loaded, history)
    }

    constructor (record: Run -> Option<Run>, normalize: Run -> Option<Run>, onDisk: File)
      ensures Valid() && runs == [] && file == onDisk && history == [] && this.record == record
        && this.normalize == normalize
    {
      this.record, this.normalize := record, normalize;
      runs, file, loaded, history := [], onDisk, [], [];
    }

    method HydrateRunsFromDisk() returns (ok: bool)
      requires Valid() && history == []
      modifies this`runs, this`loaded
      ensures Valid()
      ensures file.Missing? ==> ok && runs == old(runs)
      ensures file.Garbage? ==> !ok && runs == old(runs)
      ensures file.Holds? ==>
        (ok <==> Load(old(runs), file.items, normalize).Some?)
          && (ok ==> Some(runs) == Load(old(runs), file.items, normalize))
    {
      if file.Missing? { return true; }
      if file.Garbage? { return false; }
      var i := 0;
      while i < |file.items|
        invariant 0 <= i <= |file.items| && Valid()
        invariant Load(old(runs), file.items, normalize) == Load(runs, file.items[i..], normalize)
      {
        var normalized := normalize(file.items[i]);
        assert file.items[i..][1..] == file.items[i + 1..];
        if normalized.None? { return false; }
        runs := Put(runs, normalized.value);
        loaded := runs;
        i := i + 1;
      }
      return true;
    }

    /** The store is updated before the file, so a failed write leaves the two apart. */
    method PersistManualRun(input: Run, writeFails: bool) returns (r: Option<Run>)
      requires Valid()
      modifies this`runs, this`file, this`history
      ensures Valid()
      ensures r == if writeFails then None else record(input)
      ensures record(input).None? ==> runs == old(runs) && file == old(file) && history == old(history)
      ensures record(input).Some? ==>
        && runs == Put(old(runs), record(input).value) && history == old(history) + [record(input).value]
        && file == if writeFails then old(file) else Holds(runs)
    {
      var made := record(input);
      if made.None? { return None; }
      PutAllAppends(loaded, history, made.value);
      runs := Put(runs, made.value);
      history := history + [made.value];
      if writeFails { return None; }
      file := Holds(runs);
      return made;
    }

    /** Ends an execution; an error of the first persistence is caught and the run is persisted again, as failed. */
    method PersistFinished(run: Run, status: Status, o: Outcome, disk: Disk) returns (r: Option<Run>)
      requires Valid()
      modifies this`runs, this`file, this`history
      ensures Valid() && r == FinishWrites(run, status, o, disk, record).1
      ensures history == old(history) + FinishWrites(run, status, o, disk, record).0
      ensures r.Some? ==> file == Holds(runs)
    {
      if o.Threw? {
        r := PersistManualRun(Failure(run, o.message, Some(o.details)), disk.firstFails);
        return;
      }
      var next := Patched(run, status, o);
      r := PersistManualRun(next, disk.firstFails);
      if r.None? {
        var stored := record(next).Some?;
        var message := if stored then disk.message else Refusal(next);
        var fails := if stored then disk.secondFails else disk.firstFails;
        r := PersistManualRun(Failure(run, message, Some(WithError(run.execution, message))), fails);
      }
    }

    /** Every record of the creation is stored in turn; when it returns one, the file holds the whole store. */
    method CreateManualRun(input: Run, executor: Option<Outcome>, disk: CreateDisk) returns (r: Option<Run>)
      requires Valid()
      modifies this`runs, this`file, this`history
      ensures Valid() && r == CreateWrites(input, executor, disk, record).1
      ensures history == old(history) + CreateWrites(input, executor, disk, record).0
      ensures r.Some? ==> file == Holds(runs)
    {
      var queued := PersistManualRun(input.(status := Queued), disk.queuedFails);
      if queued.None? || executor.None? { return queued; }
      var running := PersistManualRun(queued.value.(status := Running), disk.runningFails);
      if running.None? { return None; }
      r := PersistFinished(running.value, FinalStatus(executor.value), executor.value, disk.finish);
      AppendTwo(old(history), queued.value, running.value,
        FinishWrites(running.value, FinalStatus(executor.value), executor.value, disk.finish, record).0);
    }

    /**
     Works through the runs that were stored when it started; an error of one that cannot be persisted as failed ends
     it.
     */
    method RefreshRuns(answers: Run -> Outcome, disks: Run -> Disk) returns (ok: bool)
      requires Valid()
      modifies this`runs, this`file, this`history
      ensures Valid() && (history, ok) == Refreshed(old(history), old(runs), answers, disks, record)
      ensures ok ==> file == Holds(runs) || (history == old(history) && file == old(file))
    {
      var snapshot := runs;
      assert snapshot[0..] == snapshot;
      var i := 0;
      while i < |snapshot|
        invariant 0 <= i <= |snapshot| && Valid()
        invariant Refreshed(old(history), snapshot, answers, disks, record) ==
          Refreshed(history, snapshot[i..], answers, disks, record)
        invariant file == Holds(runs) || (history == old(history) && file == old(file))
      {
        assert snapshot[i..][1..] == snapshot[i + 1..];
        ghost var writes: seq<Run>;
        ok, writes := PersistRefresh(snapshot[i], answers(snapshot[i]), disks(snapshot[i]));
        if !ok { return; }
        i := i + 1;
      }
      return true;
    }

    method PersistRefresh(run: Run, o: Outcome, disk: Disk) returns (ok: bool, ghost writes: seq<Run>)
      requires Valid()
      modifies this`runs, this`file, this`history
      ensures Valid() && (writes, ok) == RefreshOne(run, o, disk, record) && history == old(history) + writes
      ensures ok ==> file == Holds(runs) || (history == old(history) && runs == old(runs) && file == old(file))
    {
      if run.kind != Manual || run.status != Running { return true, []; }
      if o.Returned? && (o.status.None? || o.status.value == run.status) && o.execution.None? { return true, []; }
      var news := News(run, o);
      writes := FinishWrites(run, FinalStatus(news), news, disk, record).0;
      var r := PersistFinished(run, FinalStatus(news), news, disk);
      ok := r.Some?;
    }
  }
}
