/**
 The command pipeline: validate, guard, one SQLite transaction for state, event and audit, an
 atomically written artifact, then publication. Any stage may fail. The staged methods are proved
 against the effect of a command on the durable state, and that effect over any sequence of commands.
 */
module CommandPipeline {
  import opened Wrappers

  type RunId = string
  type State = string
  type Bytes = seq<bv8>
  type Digest = string

  /** `completable`: the dates of acceptance and verification and the target commit are recorded. */
  datatype RunRow = RunRow(state: State, revision: nat, completable: bool)

  datatype EventRow = EventRow(eventId: nat, event: EventInput)

  datatype EventInput = EventInput(eventType: string, runId: Option<RunId>, stepId: Option<string>)

  datatype AuditInput = AuditInput(id: string, actor: string, action: string, target: string, result: string)

  datatype AuditRow = AuditRow(eventId: nat, audit: AuditInput)

  /** The tables, with the counter that AUTOINCREMENT keeps: ids of deleted events are not used again. */
  datatype Tables = Tables(
    runs: map<RunId, RunRow>, steps: set<string>, events: seq<EventRow>, lastEventId: nat, audits: seq<AuditRow>)

  datatype Aggregate = RunAggregate | OtherAggregate

  datatype Artifact = Artifact(path: string, content: Bytes, required: bool, expectedHash: Digest)

  /** `to` is the state the guard returns; the default guard returns none. */
  datatype Command = Command(
    aggregate: Aggregate, runId: RunId, to: Option<State>, event: EventInput, audit: AuditInput,
    artifact: Option<Artifact>)

  /** The places where a stage may fail. */
  datatype Stage =
    | Validate | Guard | Begin | ApplyState | AppendEvent | AppendAudit | Commit | Rollback
    | WriteTemp | RenameTemp | MismatchHook | Publish

  datatype Outcome = Done | PipelineFailed | ArtifactMismatch

  // ---------- one transaction ----------

  function MaxId(events: seq<EventRow>): nat {
    if events == [] then 0
    else if events[|events| - 1].eventId >= MaxId(events[..|events| - 1]) then events[|events| - 1].eventId
    else MaxId(events[..|events| - 1])
  }

  /** The UPDATE of a missing run changes no row and is not an error. */
  function WithState(t: Tables, runId: RunId, to: State): Tables {
    if runId !in t.runs then t
    else t.(runs := t.runs[runId := t.runs[runId].(state := to, revision := t.runs[runId].revision + 1)])
  }

  /** The trigger of the schema: a run becomes Completed only with the record of its completion. */
  predicate MayBecome(t: Tables, runId: RunId, to: State) {
    runId in t.runs && to == "Completed" ==> t.runs[runId].completable
  }

  /** The foreign keys of an event: the run and the step it names, if any, exist. */
  predicate NamesRows(t: Tables, event: EventInput) {
    && (event.runId.Some? ==> event.runId.value in t.runs)
    && (event.stepId.Some? ==> event.stepId.value in t.steps)
  }

  function WithEvent(t: Tables, event: EventInput): Tables {
    t.(events := t.events + [EventRow(t.lastEventId + 1, event)], lastEventId := t.lastEventId + 1)
  }

  predicate HasAudit(t: Tables, id: string) { exists i :: 0 <= i < |t.audits| && t.audits[i].audit.id == id }

  /**
   What a transaction commits when no statement fails: the state, the event, and an audit entry that references that
   event.
   */
  function Applied(t: Tables, c: Command): Tables {
    var moved := if c.aggregate == RunAggregate && c.to.Some? then WithState(t, c.runId, c.to.value) else t;
    var logged := WithEvent(moved, c.event);
    logged.(audits := t.audits + [AuditRow(logged.lastEventId, c.audit)])
  }

  /** What the schema demands of a command: a target state that the run may take, named rows, a new audit id. */
  predicate Accepts(t: Tables, c: Command) {
    && (c.aggregate == RunAggregate ==> c.to.Some? && MayBecome(t, c.runId, c.to.value))
    && NamesRows(t, c.event)
    && !HasAudit(t, c.audit.id)
  }

  /** The transaction commits unless a statement fails, by itself or by a fault. */
  predicate Commits(t: Tables, c: Command, faults: set<Stage>) {
    {Begin, ApplyState, AppendEvent, AppendAudit, Commit} !! faults && Accepts(t, c)
  }

  predicate Sound(t: Tables) {
    && |t.audits| == |t.events|
    && (forall i, j :: 0 <= i < j < |t.events| ==> t.events[i].eventId < t.events[j].eventId)
    && (forall i :: 0 <= i < |t.events| ==> t.events[i].eventId <= t.lastEventId)
    && (forall i :: 0 <= i < |t.audits| ==> t.audits[i].eventId == t.events[i].eventId)
  }

  lemma {:induction false} MaxIdBound(events: seq<EventRow>, bound: nat)
    requires forall i :: 0 <= i < |events| ==> events[i].eventId <= bound
    ensures MaxId(events) <= bound
  {
    if events != [] { MaxIdBound(events[..|events| - 1], bound); }
  }

  /** Right after the INSERT, the highest id is the one just taken. */
  lemma MaxIdIsNew(t: Tables, event: EventInput)
    requires forall i :: 0 <= i < |t.events| ==> t.events[i].eventId <= t.lastEventId
    ensures MaxId(WithEvent(t, event).events) == t.lastEventId + 1
  {
    MaxIdBound(t.events, t.lastEventId);
    assert WithEvent(t, event).events[..|t.events|] == t.events;
  }

  class Database {
    var tables: Tables
    /** The tables at BEGIN, while a transaction is open. */
    var saved: Option<Tables>

    constructor (initial: Tables)
      ensures tables == initial && saved == None
    {
      tables, saved := initial, None;
    }

    /** What survives a crash. */
    function Durable(): Tables
      reads this
    {
      saved.GetOr(tables)
    }

    method BeginTransaction(faults: set<Stage>) returns (ok: bool)
      modifies this
      ensures ok <==> old(saved) == None && Begin !in faults
      ensures tables == old(tables) && saved == if ok then Some(tables) else old(saved)
    {
      if saved.Some? || Begin in faults { return false; }
      saved := Some(tables);
      return true;
    }

    method RunStatements(c: Command, faults: set<Stage>) returns (ok: bool)
      requires Sound(tables)
      modifies this`tables
      ensures ok <==>
        {ApplyState, AppendEvent, AppendAudit} !! faults && Accepts(old(tables), c)
      ensures ok ==> tables == Applied(old(tables), c)
    {
      if ApplyState in faults { return false; }
      if c.aggregate == RunAggregate {
        if c.to.None? || !MayBecome(tables, c.runId, c.to.value) { return false; }
        tables := WithState(tables, c.runId, c.to.value);
      }
      if AppendEvent in faults || !NamesRows(tables, c.event) { return false; }
      MaxIdIsNew(tables, c.event);
      tables := WithEvent(tables, c.event);
      var eventId := MaxId(tables.events);
      assert HasAudit(tables, c.audit.id) == HasAudit(old(tables), c.audit.id);
      if AppendAudit in faults || HasAudit(tables, c.audit.id) { return false; }
      tables := tables.(audits := tables.audits + [AuditRow(eventId, c.audit)]);
      return true;
    }

    /**
     A failed statement or COMMIT is rolled back; when the ROLLBACK fails too, its error is swallowed and the
     transaction stays open.
     */
    method Transact(c: Command, faults: set<Stage>) returns (ok: bool)
      requires Sound(Durable())
      modifies this
      ensures ok <==> old(saved) == None && Commits(old(tables), c, faults)
      ensures Durable() == if ok then Applied(old(tables), c) else old(Durable())
      ensures ok ==> saved == None
      ensures !ok && old(saved) == None && Rollback !in faults ==> saved == None
      ensures old(saved) == None && (Begin in faults || ok) ==> saved == None
      ensures old(saved).Some? || (!ok && Begin !in faults && Rollback in faults) ==> saved.Some?
    {
      var begun := BeginTransaction(faults);
      if !begun { return false; }
      ok := RunStatements(c, faults);
      if ok && Commit !in faults {
        saved := None;
        return true;
      }
      if Rollback !in faults { tables, saved := saved.value, None; }
      return false;
    }
  }

  // ---------- artifacts and publication ----------

  /**
   What the artifact write leaves: the content under its name, or on a failed rename nothing, or on a failed write a
   partial temporary file.
   */
  ghost predicate ArtifactWritten(before: map<string, Bytes>, after: map<string, Bytes>, a: Artifact, temp: string,
      faults: set<Stage>) {
    && (forall p :: p != a.path && p != temp ==> Get(after, p) == Get(before, p))
    && (WriteTemp in faults ==> a.path != temp ==> Get(after, a.path) == Get(before, a.path))
    && (WriteTemp !in faults && RenameTemp in faults ==>
         temp !in after && (a.path != temp ==> Get(after, a.path) == Get(before, a.path)))
    && (WriteTemp !in faults && RenameTemp !in faults ==>
         Get(after, a.path) == Some(a.content) && (a.path != temp ==> temp !in after))
  }

  predicate Matches(hash: Bytes -> Digest, a: Artifact) { a.required ==> hash(a.content) == a.expectedHash }

  class Host {
    var files: map<string, Bytes>
    var published: seq<EventInput>
    var mismatches: seq<Command>

    constructor (initial: map<string, Bytes>)
      ensures files == initial && published == [] && mismatches == []
    {
      files, published, mismatches := initial, [], [];
    }

    method WriteAtomicArtifact(a: Artifact, temp: string, partial: Bytes, faults: set<Stage>) returns (ok: bool)
      modifies this`files
      ensures a.path == "" ==> !ok && files == old(files)
      ensures a.path != "" ==>
        (ok <==> {WriteTemp, RenameTemp} !! faults) && ArtifactWritten(old(files), files, a, temp, faults)
    {
      if a.path == "" { return false; }
      if WriteTemp in faults {
        files := files[temp := partial];
        return false;
      }
      files := files[temp := a.content];
      if RenameTemp in faults {
        files := files - {temp};
        return false;
      }
      files := (files - {temp})[a.path := a.content];
      return true;
    }

    method Execute(
      db: Database, hash: Bytes -> Digest, c: Command, temp: string, partial: Bytes,
      faults: set<Stage>)
      returns (outcome: Outcome)
      requires Sound(db.Durable())
      modifies this, db
      ensures (Durably(db), outcome) == AfterCommand(hash, old(Durably(db)), c, faults)
      ensures c.artifact.None? || !CommandCommits(old(Durably(db)), c, faults) ==> files == old(files)
      ensures c.artifact.Some? && CommandCommits(old(Durably(db)), c, faults) && c.artifact.value.path != "" ==>
        ArtifactWritten(old(files), files, c.artifact.value, temp, faults)
    {
      if Validate in faults { return PipelineFailed; }
      if Guard in faults { return PipelineFailed; }
      var committed := db.Transact(c, faults);
      if !committed { return PipelineFailed; }
      if c.artifact.Some? {
        var a := c.artifact.value;
        var written := WriteAtomicArtifact(a, temp, partial, faults);
        if !written { return PipelineFailed; }
        if a.required && hash(a.content) != a.expectedHash {
          if MismatchHook in faults { return PipelineFailed; }
          mismatches := mismatches + [c];
          return ArtifactMismatch;
        }
      }
      if Publish in faults { return PipelineFailed; }
      published := published + [c.event];
      return Done;
    }

    function Durably(db: Database): World
      reads this, db
    {
      World(db.Durable(), db.saved.Some?, published, mismatches)
    }
  }

  // ---------- the effect of a command ----------

  /** The durable tables, whether a transaction was left open, what was published, and the mismatches reported. */
  datatype World = World(tables: Tables, stuck: bool, published: seq<EventInput>, mismatches: seq<Command>)

  predicate CommandCommits(w: World, c: Command, faults: set<Stage>) {
    {Validate, Guard} !! faults && !w.stuck && Commits(w.tables, c, faults)
  }

  /** A failed transaction whose ROLLBACK fails too stays open. */
  predicate LeftOpen(w: World, c: Command, faults: set<Stage>) {
    w.stuck || ({Validate, Guard, Begin} !! faults && !Commits(w.tables, c, faults) && Rollback in faults)
  }

  function ArtifactOutcome(hash: Bytes -> Digest, c: Command, faults: set<Stage>): Outcome {
    match c.artifact
    case None => Done
    case Some(a) =>
      if a.path == "" || {WriteTemp, RenameTemp} * faults != {} then PipelineFailed
      else if Matches(hash, a) then Done
      else if MismatchHook in faults then PipelineFailed
      else ArtifactMismatch
  }

  predicate Publishes(hash: Bytes -> Digest, c: Command, faults: set<Stage>) {
    ArtifactOutcome(hash, c, faults) == Done && Publish !in faults
  }

  function AfterCommand(hash: Bytes -> Digest, w: World, c: Command, faults: set<Stage>): (World, Outcome) {
    if !CommandCommits(w, c, faults) then (w.(stuck := LeftOpen(w, c, faults)), PipelineFailed)
    else
      var committed := w.(tables := Applied(w.tables, c));
      if ArtifactOutcome(hash, c, faults) == ArtifactMismatch
        then (committed.(mismatches := w.mismatches + [c]), ArtifactMismatch)
      else if Publishes(hash, c, faults) then (committed.(published := w.published + [c.event]), Done)
      else (committed, PipelineFailed)
  }

  // ---------- any sequence of commands ----------

  datatype Attempt = Attempt(command: Command, faults: set<Stage>)

  function AfterAll(hash: Bytes -> Digest, w: World, attempts: seq<Attempt>): World {
    if attempts == [] then w
    else
      var before := AfterAll(hash, w, attempts[..|attempts| - 1]);
      AfterCommand(hash, before, attempts[|attempts| - 1].command, attempts[|attempts| - 1].faults).0
  }

  /** The attempts whose transaction committed, in order. */
  function Committed(hash: Bytes -> Digest, w: World, attempts: seq<Attempt>): seq<Attempt> {
    if attempts == [] then []
    else
      var before, last := AfterAll(hash, w, attempts[..|attempts| - 1]), attempts[|attempts| - 1];
      var rest := Committed(hash, w, attempts[..|attempts| - 1]);
      if CommandCommits(before, last.command, last.faults) then rest + [last] else rest
  }

  function OnRun(committed: seq<Attempt>, runId: RunId): nat {
    if committed == [] then 0
    else
      var c := committed[|committed| - 1].command;
      OnRun(committed[..|committed| - 1], runId) + if c.aggregate == RunAggregate && c.runId == runId then 1 else 0
  }

  function PublishedOf(hash: Bytes -> Digest, committed: seq<Attempt>): seq<EventInput> {
    if committed == [] then []
    else
      var last := committed[|committed| - 1];
      var rest := PublishedOf(hash, committed[..|committed| - 1]);
      if Publishes(hash, last.command, last.faults) then rest + [last.command.event] else rest
  }

  lemma AppliedIsSound(t: Tables, c: Command)
    requires Sound(t)
    ensures Sound(Applied(t, c)) && t.events <= Applied(t, c).events && t.audits <= Applied(t, c).audits
    ensures Applied(t, c).runs.Keys == t.runs.Keys && Applied(t, c).steps == t.steps
  {
  }

  /** What holds of the world after some attempts, given the tables they started from. */
  ghost predicate Consistent(hash: Bytes -> Digest, start: World, w: World, committed: seq<Attempt>) {
    && Sound(w.tables)
    && w.tables.runs.Keys == start.tables.runs.Keys && w.tables.steps == start.tables.steps
    && start.tables.events <= w.tables.events
    && |w.tables.events| == |start.tables.events| + |committed|
    && (forall i :: 0 <= i < |committed| ==>
         w.tables.events[|start.tables.events| + i].event == committed[i].command.event)
    && (forall i :: 0 <= i < |committed| ==>
         w.tables.audits[|start.tables.events| + i].audit == committed[i].command.audit)
    && (forall i :: 0 <= i < |committed| ==> NamesRows(w.tables, committed[i].command.event))
    && (forall r :: r in start.tables.runs ==>
         w.tables.runs[r].revision == start.tables.runs[r].revision + OnRun(committed, r))
    && w.published == start.published + PublishedOf(hash, committed)
  }

  lemma RevisionCounts(t: Tables, committed: seq<Attempt>, a: Attempt, runId: RunId)
    requires runId in t.runs && Accepts(t, a.command)
    ensures runId in Applied(t, a.command).runs
    ensures Applied(t, a.command).runs[runId].revision - t.runs[runId].revision
      == OnRun(committed + [a], runId) - OnRun(committed, runId)
  {
    assert (committed + [a])[..|committed|] == committed;
  }

  lemma CommitKeepsConsistent(hash: Bytes -> Digest, start: World, w: World, committed: seq<Attempt>, a: Attempt)
    requires Consistent(hash, start, w, committed) && CommandCommits(w, a.command, a.faults)
    ensures Consistent(hash, start, AfterCommand(hash, w, a.command, a.faults).0, committed + [a])
  {
    AppliedIsSound(w.tables, a.command);
    assert (committed + [a])[..|committed|] == committed;
    var next := AfterCommand(hash, w, a.command, a.faults).0;
    assert next.tables == Applied(w.tables, a.command);
    forall r | r in start.tables.runs
      ensures next.tables.runs[r].revision == start.tables.runs[r].revision + OnRun(committed + [a], r)
    {
      RevisionCounts(w.tables, committed, a, r);
    }
    forall i | 0 <= i < |committed + [a]| ensures NamesRows(next.tables, (committed + [a])[i].command.event) {
      if i < |committed| { assert NamesRows(w.tables, committed[i].command.event); }
    }
    assert next.published == start.published + PublishedOf(hash, committed + [a]);
  }

  /**
   Crash consistency. For any commands, with failures anywhere: the i-th audit entry references the
   i-th event and event ids increase; each committed command added exactly its own event and audit entry and nothing
   else did; these events name rows that exist; a run's revision has grown by exactly its committed commands; and the
   published events are those of the committed commands whose artifact was written and matched, in order.
   */
  lemma {:induction false} CrashConsistency(hash: Bytes -> Digest, start: World, attempts: seq<Attempt>)
    requires Sound(start.tables)
    ensures Consistent(hash, start, AfterAll(hash, start, attempts), Committed(hash, start, attempts))
  {
    if attempts != [] {
      var front, last := attempts[..|attempts| - 1], attempts[|attempts| - 1];
      CrashConsistency(hash, start, front);
      if CommandCommits(AfterAll(hash, start, front), last.command, last.faults) {
        CommitKeepsConsistent(hash, start, AfterAll(hash, start, front), Committed(hash, start, front), last);
      }
    } else {
      assert start.published + [] == start.published;
    }
  }

  /**
   The durable tables change exactly when nothing fails up to the end of the transaction; otherwise nothing is
   published either.
   */
  lemma ChangesIffCommits(hash: Bytes -> Digest, w: World, c: Command, faults: set<Stage>)
    ensures AfterCommand(hash, w, c, faults).0.tables == w.tables <==>
      || {Validate, Guard, Begin, ApplyState, AppendEvent, AppendAudit, Commit} * faults != {}
      || w.stuck || !Accepts(w.tables, c)
    ensures AfterCommand(hash, w, c, faults).0.tables == w.tables ==>
      AfterCommand(hash, w, c, faults).0.published == w.published
        && AfterCommand(hash, w, c, faults).1 == PipelineFailed
  {
    var stages := {Validate, Guard, Begin, ApplyState, AppendEvent, AppendAudit, Commit};
    assert stages * faults != {} <==>
        !({Validate, Guard} !! faults && {Begin, ApplyState, AppendEvent, AppendAudit, Commit} !! faults) by {
      assert stages == {Validate, Guard} + {Begin, ApplyState, AppendEvent, AppendAudit, Commit};
    }
    assert |Applied(w.tables, c).events| != |w.tables.events|;
  }

  /** `sub` is `all` with some elements left out. */
  ghost predicate IsSubsequence<T(!new)>(sub: seq<T>, all: seq<T>)
    decreases |all|
  {
    if all == [] then sub == []
    else
      || IsSubsequence(sub, all[..|all| - 1])
      || (sub != [] && sub[|sub| - 1] == all[|all| - 1] && IsSubsequence(sub[..|sub| - 1], all[..|all| - 1]))
  }

  function EventsOf(attempts: seq<Attempt>): seq<EventInput> {
    seq(|attempts|, i requires 0 <= i < |attempts| => attempts[i].command.event)
  }

  lemma {:induction false} PublishedIsSubsequence(hash: Bytes -> Digest, committed: seq<Attempt>)
    ensures IsSubsequence(PublishedOf(hash, committed), EventsOf(committed))
  {
    if committed != [] {
      PublishedIsSubsequence(hash, committed[..|committed| - 1]);
      assert EventsOf(committed)[..|committed| - 1] == EventsOf(committed[..|committed| - 1]);
      var published, rest := PublishedOf(hash, committed), PublishedOf(hash, committed[..|committed| - 1]);
      if published != rest { assert published[..|published| - 1] == rest; }
    }
  }

  /** Published events form an in-order subsequence of the events the same commands committed to the table. */
  lemma PublishedInOrder(hash: Bytes -> Digest, start: World, attempts: seq<Attempt>)
    requires Sound(start.tables) && start.published == [] && start.tables.events == []
    ensures var end := AfterAll(hash, start, attempts);
      && |end.tables.events| == |Committed(hash, start, attempts)|
      && IsSubsequence(end.published,
           seq(|end.tables.events|, i requires 0 <= i < |end.tables.events| => end.tables.events[i].event))
  {
    CrashConsistency(hash, start, attempts);
    PublishedIsSubsequence(hash, Committed(hash, start, attempts));
    var end, committed := AfterAll(hash, start, attempts), Committed(hash, start, attempts);
    assert EventsOf(committed) == seq(|end.tables.events|,
        i requires 0 <= i < |end.tables.events| => end.tables.events[i].event);
    assert end.published == PublishedOf(hash, committed);
  }

  /** A command whose required artifact does not match commits its event and never publishes it. */
  lemma MismatchIsNotPublished(hash: Bytes -> Digest, w: World, c: Command, faults: set<Stage>)
    requires c.artifact.Some? && !Matches(hash, c.artifact.value)
    ensures AfterCommand(hash, w, c, faults).0.published == w.published && AfterCommand(hash, w, c, faults).1 != Done
    ensures CommandCommits(w, c, faults) ==> |AfterCommand(hash, w, c, faults).0.tables.events| == |w.tables.events| + 1
  {
  }

  /** After a ROLLBACK that failed, the transaction stays open and no later command commits anything. */
  lemma {:induction false} StuckIsForever(hash: Bytes -> Digest, start: World, attempts: seq<Attempt>)
    requires start.stuck
    ensures AfterAll(hash, start, attempts) == start && Committed(hash, start, attempts) == []
  {
    if attempts != [] { StuckIsForever(hash, start, attempts[..|attempts| - 1]); }
  }

  /** Nothing but the foreign keys of its event stands against the command. */
  predicate OtherwiseFine(w: World, c: Command, faults: set<Stage>) {
    && {Validate, Guard, Begin, ApplyState, AppendEvent, AppendAudit, Commit} !! faults && !w.stuck
    && (c.aggregate == RunAggregate ==> c.to.Some?) && !HasAudit(w.tables, c.audit.id)
  }

  /**
   A command on a run that does not exist changes no run. Its event and audit entry are logged all the same if and only
   if the event names no missing row: so never when it names that run, and always when it names nothing.
   */
  lemma MissingRunLoggedIff(hash: Bytes -> Digest, w: World, c: Command, faults: set<Stage>)
    requires c.runId !in w.tables.runs && OtherwiseFine(w, c, faults)
    ensures
      var after := AfterCommand(hash, w, c, faults).0.tables;
      && after.runs == w.tables.runs
      && (after.events != w.tables.events <==> NamesRows(w.tables, c.event))
      && (after.events != w.tables.events ==>
           |after.events| == |w.tables.events| + 1 && |after.audits| == |w.tables.audits| + 1)
      && (c.event.runId == Some(c.runId) ==> after == w.tables)
  {
    assert |Applied(w.tables, c).events| != |w.tables.events|;
    var stages := {Validate, Guard, Begin, ApplyState, AppendEvent, AppendAudit, Commit};
    assert {Validate, Guard} <= stages && {Begin, ApplyState, AppendEvent, AppendAudit, Commit} <= stages;
  }
}
