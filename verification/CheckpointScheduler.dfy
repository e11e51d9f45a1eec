/** The checkpoint scheduler of a run: numbered checkpoints, each in a file named by its number. */
module CheckpointScheduler {
  import opened Wrappers
  import opened JsonText

  datatype Reason = UnitComplete | BeforeApproval | BeforeRetry | BeforeShutdown | OtherReason

  datatype Checkpoint = Checkpoint(id: Text, sequence: nat, reason: Reason)

  datatype CheckpointError = UnsupportedReason | ContainsSecrets | UnsafeName | WriteFailed

  function Zeros(n: nat): Text { if n == 0 then [] else [0x30] + Zeros(n - 1) }

  /** A sequence number with at least four digits. */
  function Padded(n: nat): Text { Zeros(if |Digits(n)| < 4 then 4 - |Digits(n)| else 0) + Digits(n) }

  function CheckpointId(runId: Text, sequence: nat): Text { Ascii("chk-") + runId + Ascii("-") + Padded(sequence) }

  lemma {:induction false} ParseZeros(k: nat, t: Text)
    ensures ParseDigits(Zeros(k) + t, 0) == ParseDigits(t, 0)
  {
    if k == 0 {
      assert Zeros(0) + t == t;
    } else {
      assert (Zeros(k) + t)[1..] == Zeros(k - 1) + t;
      ParseZeros(k - 1, t);
    }
  }

  /** Different sequence numbers give different ids, also past 9999. */
  lemma IdsDiffer(runId: Text, m: nat, n: nat)
    ensures CheckpointId(runId, m) == CheckpointId(runId, n) ==> m == n
  {
    if CheckpointId(runId, m) == CheckpointId(runId, n) {
      var prefix := Ascii("chk-") + runId + Ascii("-");
      assert Padded(m) == CheckpointId(runId, m)[|prefix|..] == CheckpointId(runId, n)[|prefix|..] == Padded(n);
      PaddedReads(m);
      PaddedReads(n);
    }
  }

  lemma PaddedReads(n: nat)
    ensures ParseDigits(Padded(n), 0) == (n, [])
  {
    ParseZeros(if |Digits(n)| < 4 then 4 - |Digits(n)| else 0, Digits(n));
    DigitsRoundTrip(n, []);
    assert Digits(n) + [] == Digits(n);
  }

  const DOT: Unit := 0x2E

  /** A file name that could leave its directory is refused. */
  predicate Safe(name: Text) {
    SLASH !in name && BACKSLASH !in name && forall i :: 0 < i < |name| ==> !(name[i - 1] == DOT && name[i] == DOT)
  }

  class Scheduler {
    const runId: Text
    var sequence: nat
    var checkpoints: seq<Checkpoint>
    /** The checkpoint files of this scheduler, by checkpoint id. */
    var files: map<Text, Checkpoint>

    /** The checkpoints are numbered 1 to n without a gap, and each is still in its file. */
    ghost predicate Valid()
      reads this
    {
      && sequence == |checkpoints|
      && forall i :: 0 <= i < |checkpoints| ==>
        && checkpoints[i].sequence == i + 1 && checkpoints[i].id == CheckpointId(runId, i + 1)
        && checkpoints[i].id in files && files[checkpoints[i].id] == checkpoints[i]
    }

    constructor (runId: Text, existing: map<Text, Checkpoint>)
      ensures Valid() && checkpoints == [] && files == existing && this.runId == runId
    {
      this.runId := runId;
      sequence, checkpoints, files := 0, [], existing;
    }

    /**
     The number is taken only once the file is written, so a failure leaves no gap. The write replaces an earlier file
     exactly when there is one of that number, which is then not of this scheduler.
     */
    method Save(reason: Reason, leaks: bool, writeFails: bool) returns (r: Result<Checkpoint, CheckpointError>)
      requires Valid()
      modifies this
      ensures Valid()
      ensures r.Ok? <==>
        reason != OtherReason && !leaks && Safe(CheckpointId(runId, old(sequence) + 1)) && !writeFails
      ensures r.Ok? ==> r.value == Checkpoint(CheckpointId(runId, old(sequence) + 1), old(sequence) + 1, reason)
      ensures checkpoints == if r.Ok? then old(checkpoints) + [r.value] else old(checkpoints)
      ensures files == if r.Ok? then old(files)[r.value.id := r.value] else old(files)
      ensures files.Keys == old(files).Keys <==> r.Err? || CheckpointId(runId, old(sequence) + 1) in old(files)
      ensures forall c :: c in old(checkpoints) ==> c.id != CheckpointId(runId, old(sequence) + 1)
    {
      forall i | 0 <= i < |checkpoints| ensures checkpoints[i].id != CheckpointId(runId, sequence + 1) {
        IdsDiffer(runId, i + 1, sequence + 1);
      }
      if reason == OtherReason { return Err(UnsupportedReason); }
      if leaks { return Err(ContainsSecrets); }
      var record := Checkpoint(CheckpointId(runId, sequence + 1), sequence + 1, reason);
      if !Safe(record.id) { return Err(UnsafeName); }
      if writeFails { return Err(WriteFailed); }
      files := files[record.id := record];
      sequence := sequence + 1;
      checkpoints := checkpoints + [record];
      return Ok(record);
    }
  }

  // ---------- a scheduler after another ----------

  /** The files after checkpoints for these reasons, numbered from `from` + 1. */
  function SaveAll(files: map<Text, Checkpoint>, runId: Text, from: nat, reasons: seq<Reason>): map<Text, Checkpoint>
    decreases |reasons|
  {
    if reasons == [] then files
    else
      var id := CheckpointId(runId, from + 1);
      SaveAll(files[id := Checkpoint(id, from + 1, reasons[0])], runId, from + 1, reasons[1..])
  }

  lemma {:induction false} SaveAllAt(files: map<Text, Checkpoint>, runId: Text, from: nat, reasons: seq<Reason>, n: nat)
    ensures
      var id, after := CheckpointId(runId, n), SaveAll(files, runId, from, reasons);
      Get(after, id) ==
        if from < n <= from + |reasons| then Some(Checkpoint(id, n, reasons[n - from - 1])) else Get(files, id)
    decreases |reasons|
  {
    if reasons != [] {
      var id := CheckpointId(runId, from + 1);
      SaveAllAt(files[id := Checkpoint(id, from + 1, reasons[0])], runId, from + 1, reasons[1..], n);
      IdsDiffer(runId, n, from + 1);
    }
  }

  /**
   Every scheduler counts from one. When a run gets a second scheduler over the files of the first, its checkpoints
   replace exactly those of the first with the same numbers; the first one's later checkpoints stay, as the newest.
   */
  lemma SecondSchedulerReplaces(
    files: map<Text, Checkpoint>, runId: Text, first: seq<Reason>, second: seq<Reason>, n: nat)
    requires 1 <= n <= |first|
    ensures
      var id, after := CheckpointId(runId, n), SaveAll(SaveAll(files, runId, 0, first), runId, 0, second);
      Get(after, id) == Some(Checkpoint(id, n, if n <= |second| then second[n - 1] else first[n - 1]))
  {
    SaveAllAt(files, runId, 0, first, n);
    SaveAllAt(SaveAll(files, runId, 0, first), runId, 0, second, n);
  }
}
