/**
 Size-based log rotation over a file system. The rename loop is proved against its effect on
 every path; over any sequence of appends and rotations the kept files are a suffix of what was written.
 */
module LogRotation {
  import opened Wrappers
  import opened Sequences

  type Byte = b: int | 0 <= b < 256
  type Bytes = seq<Byte>

  /** The live log, its numbered parts, and every other file. */
  datatype LogPath = Live | Part(n: nat) | Elsewhere(name: string)

  type Files = map<LogPath, Bytes>

  datatype Policy = Policy(maxBytes: nat, maxParts: nat)

  datatype PolicyError = InvalidPolicy

  predicate ValidPolicy(p: Policy) { p.maxBytes >= 1 && p.maxParts >= 1 }

  function CreateLogRotationPolicy(maxBytes: int, maxParts: int): (r: Result<Policy, PolicyError>)
    ensures r.Ok? <==> maxBytes >= 1 && maxParts >= 1
    ensures r.Ok? ==> ValidPolicy(r.value) && r.value.maxBytes == maxBytes && r.value.maxParts == maxParts
  {
    if maxBytes < 1 || maxParts < 1 then Err(InvalidPolicy) else Ok(Policy(maxBytes, maxParts))
  }

  function LiveBytes(files: Files): Bytes { Get(files, Live).GetOr([]) }

  /**
   What a rotation leaves at `p`: every part moves up one place, and the last place is overwritten only if a part moves
   into it.
   */
  function RotatedAt(files: Files, policy: Policy, p: LogPath): Option<Bytes> {
    match p
    case Live => Some([])
    case Part(n) =>
      if n == 1 then Get(files, Live)
      else if 2 <= n <= policy.maxParts then
        if Part(n - 1) in files then Get(files, Part(n - 1)) else if n == policy.maxParts then Get(files, p) else None
      else Get(files, p)
    case Elsewhere(_) => Get(files, p)
  }

  ghost predicate IsRotation(before: Files, after: Files, policy: Policy) {
    forall p: LogPath :: Get(after, p) == RotatedAt(before, policy, p)
  }

  /**
   What is at `p` once the rename loop has handled every part above `part`: the place after `part` is vacant, unless it
   is the last one.
   */
  function ShiftedAt(files: Files, policy: Policy, part: nat, p: LogPath): Option<Bytes> {
    if !p.Part? || p.n <= part || p.n > policy.maxParts then Get(files, p)
    else if p.n == part + 1 then if p.n == policy.maxParts then Get(files, p) else None
    else RotatedAt(files, policy, p)
  }

  ghost predicate IsShifted(before: Files, after: Files, policy: Policy, part: nat) {
    forall p: LogPath :: Get(after, p) == ShiftedAt(before, policy, part, p)
  }

  lemma ShiftStep(before: Files, previous: Files, files: Files, policy: Policy, part: nat)
    requires 1 <= part < policy.maxParts && IsShifted(before, previous, policy, part)
    requires files ==
      if Part(part) in previous then (previous - {Part(part)})[Part(part + 1) := previous[Part(part)]] else previous
    ensures IsShifted(before, files, policy, part - 1)
  {
    assert Get(previous, Part(part)) == Get(before, Part(part));
    forall p: LogPath ensures Get(files, p) == ShiftedAt(before, policy, part - 1, p) {
      assert Get(previous, p) == ShiftedAt(before, policy, part, p);
    }
  }

  /**
   A rename loop that stops early has lost at most the oldest part: every other part is where it was or one place up.
   */
  lemma InterruptedLosesOnlyOldest(before: Files, files: Files, policy: Policy, part: nat, n: nat)
    requires ValidPolicy(policy) && part < policy.maxParts && IsShifted(before, files, policy, part)
    requires 1 <= n < policy.maxParts && Part(n) in before
    ensures Get(files, Part(if n <= part then n else n + 1)) == Get(before, Part(n))
      && Get(files, Live) == Get(before, Live)
  {
    assert Get(files, Part(n + 1)) == ShiftedAt(before, policy, part, Part(n + 1));
    assert Get(files, Part(n)) == ShiftedAt(before, policy, part, Part(n));
    assert Get(files, Live) == ShiftedAt(before, policy, part, Live);
  }

  /** The effect of a call: nothing but the creation of an empty log, or a rotation. */
  ghost predicate IsRotationIfNeeded(before: Files, after: Files, policy: Policy) {
    var live := before[Live := LiveBytes(before)];
    if |LiveBytes(before)| < policy.maxBytes then after == live else IsRotation(live, after, policy)
  }

  datatype RotationReport = RotationReport(rotated: bool, size: nat, parts: seq<LogPath>, verified: bool)

  class LogFolder {
    var files: Files

    constructor ()
      ensures files == map[]
    {
      files := map[];
    }

    method Append(bytes: Bytes)
      modifies this
      ensures files == old(files)[Live := LiveBytes(old(files)) + bytes]
    {
      files := files[Live := LiveBytes(files) + bytes];
    }

    method Rename(from: LogPath, to: LogPath)
      requires from in files && from != to
      modifies this
      ensures files == (old(files) - {from})[to := old(files)[from]]
    {
      files := (files - {from})[to := files[from]];
    }

    /** The descending loop: each part moves into the place that the previous turn has vacated. */
    method ShiftParts(policy: Policy)
      requires ValidPolicy(policy)
      modifies this
      ensures IsShifted(old(files), files, policy, 0)
    {
      ghost var before := files;
      var part := policy.maxParts - 1;
      while part >= 1
        invariant 0 <= part < policy.maxParts
        invariant IsShifted(before, files, policy, part)
      {
        ghost var previous := files;
        var from, to := Part(part), Part(part + 1);
        if from in files { Rename(from, to); }
        ShiftStep(before, previous, files, policy, part);
        part := part - 1;
      }
    }

    method ExistingParts(policy: Policy) returns (parts: seq<LogPath>)
      ensures forall p: LogPath :: p in parts <==> p.Part? && 1 <= p.n <= policy.maxParts && p in files
      ensures |parts| <= policy.maxParts
    {
      parts := [];
      var n := 1;
      while n <= policy.maxParts
        invariant 1 <= n <= policy.maxParts + 1 && |parts| < n
        invariant forall p: LogPath :: p in parts <==> p.Part? && 1 <= p.n < n && p in files
      {
        if Part(n) in files { parts := parts + [Part(n)]; }
        n := n + 1;
      }
    }

    method RotateLogIfNeeded(policy: Policy) returns (report: RotationReport)
      requires ValidPolicy(policy)
      modifies this
      ensures IsRotationIfNeeded(old(files), files, policy)
      ensures report.rotated <==> |LiveBytes(old(files))| >= policy.maxBytes
      ensures report.size == |LiveBytes(old(files))| && report.verified
      ensures report.rotated ==>
        forall p: LogPath :: p in report.parts <==> p.Part? && 1 <= p.n <= policy.maxParts && p in files
    {
      if Live !in files { files := files[Live := []]; }
      ghost var before := files;
      var size := |files[Live]|;
      if size < policy.maxBytes { return RotationReport(false, size, [], true); }
      ShiftParts(policy);
      ghost var shifted := files;
      assert Get(shifted, Live) == Get(before, Live);
      Rename(Live, Part(1));
      files := files[Live := []];
      forall p: LogPath ensures Get(files, p) == RotatedAt(before, policy, p) {
        assert Get(shifted, p) == ShiftedAt(before, policy, 0, p);
      }
      var parts := ExistingParts(policy);
      report := RotationReport(true, size, parts, |parts| <= policy.maxParts);
    }
  }

  // ---------- what the files mean ----------

  /** The parts, newest first, and the live log. */
  datatype Log = Log(parts: seq<Bytes>, live: Bytes)

  ghost predicate Represents(files: Files, log: Log) {
    && LiveBytes(files) == log.live
    && forall n: nat :: n >= 1 ==> Get(files, Part(n)) == if n <= |log.parts| then Some(log.parts[n - 1]) else None
  }

  function Oldest(parts: seq<Bytes>): Bytes {
    if parts == [] then [] else Oldest(parts[1..]) + parts[0]
  }

  /** Everything kept, oldest first. */
  function Kept(log: Log): Bytes { Oldest(log.parts) + log.live }

  function Rotate(log: Log, policy: Policy): Log {
    if |log.live| < policy.maxBytes then log
    else Log(Take([log.live] + log.parts, policy.maxParts), [])
  }

  /** On files that hold parts 1..k, the rename loop performs the abstract rotation. */
  lemma RotationRefines(before: Files, after: Files, policy: Policy, log: Log)
    requires ValidPolicy(policy) && Represents(before, log) && |log.parts| <= policy.maxParts
    requires IsRotationIfNeeded(before, after, policy)
    ensures Represents(after, Rotate(log, policy))
  {
    var next := Rotate(log, policy);
    var live := before[Live := LiveBytes(before)];
    assert LiveBytes(after) == next.live by {
      assert Get(after, Live) == (if |log.live| < policy.maxBytes then Some(log.live)
          else RotatedAt(live, policy, Live));
    }
    forall n: nat | n >= 1 ensures Get(after, Part(n)) == if n <= |next.parts| then Some(next.parts[n - 1]) else None {
      assert Get(before, Part(n)) == if n <= |log.parts| then Some(log.parts[n - 1]) else None;
      assert n > 1 ==> Get(before, Part(n - 1)) == if n - 1 <= |log.parts| then Some(log.parts[n - 2]) else None;
      if |log.live| >= policy.maxBytes {
        assert Get(after, Part(n)) == RotatedAt(live, policy, Part(n));
      }
    }
  }

  // ---------- any sequence of appends and rotations ----------

  datatype Op = Write(bytes: Bytes) | RotateIfNeeded

  /** One operation on the files, and on everything ever written. */
  ghost predicate FileStep(before: Files, op: Op, after: Files, policy: Policy) {
    match op
    case Write(bytes) => after == before[Live := LiveBytes(before) + bytes]
    case RotateIfNeeded => IsRotationIfNeeded(before, after, policy)
  }

  /** `states` are the files before, between and after the operations, from an empty folder. */
  ghost predicate IsHistory(states: seq<Files>, ops: seq<Op>, policy: Policy) {
    && |states| == |ops| + 1 && (forall p: LogPath :: p in states[0] ==> p.Elsewhere?)
    && forall i :: 0 <= i < |ops| ==> FileStep(states[i], ops[i], states[i + 1], policy)
  }

  function Written(ops: seq<Op>): Bytes {
    if ops == [] then []
    else Written(ops[..|ops| - 1]) + (match ops[|ops| - 1] case Write(bytes) => bytes case RotateIfNeeded => [])
  }

  predicate IsSuffix(s: Bytes, t: Bytes) { |s| <= |t| && t[|t| - |s|..] == s }

  ghost predicate Good(log: Log, written: Bytes, policy: Policy) {
    && |log.parts| <= policy.maxParts
    && (forall i :: 0 <= i < |log.parts| ==> |log.parts[i]| >= policy.maxBytes)
    && IsSuffix(Kept(log), written)
    && (|log.parts| < policy.maxParts ==> Kept(log) == written)
    && (Kept(log) == written || |Oldest(log.parts)| >= policy.maxParts * policy.maxBytes)
  }

  lemma {:induction false} OldestLength(parts: seq<Bytes>, size: nat)
    requires forall i :: 0 <= i < |parts| ==> |parts[i]| >= size
    ensures |Oldest(parts)| >= |parts| * size
  {
    if parts != [] {
      assert forall i :: 0 <= i < |parts[1..]| ==> parts[1..][i] == parts[i + 1];
      OldestLength(parts[1..], size);
      assert |parts| * size == |parts[1..]| * size + size;
    }
  }

  /** Dropping the last, oldest part keeps a suffix. */
  lemma {:induction false} OldestDrop(parts: seq<Bytes>, k: nat)
    requires k <= |parts|
    ensures Oldest(parts) == Oldest(parts[k..]) + Oldest(parts[..k])
  {
    if k > 0 {
      OldestDrop(parts[1..], k - 1);
      assert parts[1..][k - 1..] == parts[k..] && parts[..k][1..] == parts[1..][..k - 1];
      assert Oldest(parts[..k]) == Oldest(parts[1..][..k - 1]) + parts[0];
      assert (Oldest(parts[k..]) + Oldest(parts[1..][..k - 1])) + parts[0] ==
          Oldest(parts[k..]) + (Oldest(parts[1..][..k - 1]) + parts[0]);
    } else {
      assert parts[k..] == parts;
    }
  }

  lemma WriteKeeps(log: Log, written: Bytes, policy: Policy, bytes: Bytes)
    requires Good(log, written, policy)
    ensures Good(log.(live := log.live + bytes), written + bytes, policy)
  {
    assert Oldest(log.parts) + (log.live + bytes) == Kept(log) + bytes;
  }

  lemma RotateKeeps(log: Log, written: Bytes, policy: Policy)
    requires ValidPolicy(policy) && Good(log, written, policy)
    ensures Good(Rotate(log, policy), written, policy)
  {
    var next := Rotate(log, policy);
    if |log.live| < policy.maxBytes { return; }
    var all := [log.live] + log.parts;
    assert all[1..] == log.parts;
    assert Oldest(all) == Kept(log);
    assert Kept(next) == Oldest(next.parts);
    OldestLength(next.parts, policy.maxBytes);
    if |log.parts| == policy.maxParts {
      assert next.parts == all[..policy.maxParts];
      OldestDrop(all, policy.maxParts);
      assert IsSuffix(Oldest(next.parts), Oldest(all));
    }
  }

  lemma {:induction false} HistoryIsGood(states: seq<Files>, ops: seq<Op>, policy: Policy, n: nat) returns (log: Log)
    requires ValidPolicy(policy) && IsHistory(states, ops, policy) && n <= |ops|
    ensures Represents(states[n], log) && Good(log, Written(ops[..n]), policy)
  {
    if n == 0 {
      log := Log([], []);
      assert forall k: nat :: Part(k) !in states[0];
    } else {
      var before := HistoryIsGood(states, ops, policy, n - 1);
      assert ops[..n][..n - 1] == ops[..n - 1];
      assert FileStep(states[n - 1], ops[n - 1], states[n], policy);
      match ops[n - 1]
      case Write(bytes) =>
        log := before.(live := before.live + bytes);
        WriteKeeps(before, Written(ops[..n - 1]), policy, bytes);
        forall k: nat | k >= 1 ensures Get(states[n], Part(k)) == Get(states[n - 1], Part(k)) {}
      case RotateIfNeeded =>
        log := Rotate(before, policy);
        RotateKeeps(before, Written(ops[..n - 1]), policy);
        RotationRefines(states[n - 1], states[n], policy, before);
        assert Written(ops[..n]) == Written(ops[..n - 1]);
    }
  }

  /**
   Rotation conserves a suffix. After any appends and rotations from an empty start under one policy, the parts on disk
   are exactly 1..k with k at most `maxParts`; oldest to newest and then the live log, they are a suffix of everything
   written; nothing is missing while a slot is free; and at least `maxParts` times `maxBytes` bytes are kept, or all of
   them.
   */
  lemma RotationConservesSuffix(states: seq<Files>, ops: seq<Op>, policy: Policy) returns (log: Log)
    requires ValidPolicy(policy) && IsHistory(states, ops, policy)
    ensures Represents(states[|ops|], log) && |log.parts| <= policy.maxParts
    ensures IsSuffix(Kept(log), Written(ops))
    ensures |log.parts| < policy.maxParts ==> Kept(log) == Written(ops)
    ensures |Kept(log)| >= policy.maxParts * policy.maxBytes || Kept(log) == Written(ops)
  {
    log := HistoryIsGood(states, ops, policy, |ops|);
    assert ops[..|ops|] == ops;
  }

  // ---------- rotations that stop part way ----------

  /** What is at the places 1 to `n`, oldest first, whatever places are vacant. */
  function PartsUpTo(files: Files, n: nat): Bytes {
    if n == 0 then [] else Get(files, Part(n)).GetOr([]) + PartsUpTo(files, n - 1)
  }

  function KeptOn(files: Files, policy: Policy): Bytes { PartsUpTo(files, policy.maxParts) + LiveBytes(files) }

  /**
   A rotation that stopped: after some turns of the rename loop, with the places above `part` handled, or after the
   rename of the live log and before a new one was written.
   */
  datatype Stop = InLoop(part: nat) | BeforeNewLog

  ghost predicate IsStopped(before: Files, after: Files, policy: Policy, stop: Stop) {
    match stop
    case InLoop(part) => part < policy.maxParts && IsShifted(before, after, policy, part)
    case BeforeNewLog =>
      Live !in after && forall p: LogPath :: p != Live ==> Get(after, p) == RotatedAt(before, policy, p)
  }

  ghost predicate RotatedOrStopped(before: Files, after: Files, policy: Policy, stop: Option<Stop>) {
    match stop
    case Some(at) => IsStopped(before, after, policy, at)
    case None => IsRotation(before, after, policy)
  }

  /** One operation, where a rotation that is due may stop anywhere. */
  ghost predicate StepOrStop(before: Files, op: Op, stop: Option<Stop>, after: Files, policy: Policy) {
    if op.RotateIfNeeded? && stop.Some? then
      var live := before[Live := LiveBytes(before)];
      |LiveBytes(before)| >= policy.maxBytes && IsStopped(live, after, policy, stop.value)
    else FileStep(before, op, after, policy)
  }

  ghost predicate IsFaultyHistory(states: seq<Files>, ops: seq<Op>, stops: seq<Option<Stop>>, policy: Policy) {
    && |states| == |ops| + 1 && |stops| == |ops| && (forall p: LogPath :: p in states[0] ==> p.Elsewhere?)
    && forall i :: 0 <= i < |ops| ==> StepOrStop(states[i], ops[i], stops[i], states[i + 1], policy)
  }

  /**
   After any history: what is kept is a suffix of what was written; as long as the last place is vacant nothing is
   missing, and once it is taken it stays taken; every part has at least `maxBytes` bytes.
   */
  ghost predicate StillGood(files: Files, written: Bytes, policy: Policy) {
    && IsSuffix(KeptOn(files, policy), written)
    && (Part(policy.maxParts) !in files ==> KeptOn(files, policy) == written)
    && PartsFull(files, policy)
  }

  ghost predicate PartsFull(files: Files, policy: Policy) {
    forall n: nat :: 1 <= n <= policy.maxParts && Part(n) in files ==> |files[Part(n)]| >= policy.maxBytes
  }

  lemma {:induction false} SameParts(before: Files, after: Files, n: nat)
    requires forall k: nat :: 1 <= k <= n ==> Get(after, Part(k)) == Get(before, Part(k))
    ensures PartsUpTo(after, n) == PartsUpTo(before, n)
  {
    if n > 0 { SameParts(before, after, n - 1); }
  }

  lemma ShiftedPlace(before: Files, after: Files, policy: Policy, part: nat, n: nat)
    requires part < n < policy.maxParts && IsShifted(before, after, policy, part)
    ensures Get(after, Part(n)).GetOr([]) == if n == part + 1 then [] else Get(before, Part(n - 1)).GetOr([])
  {
    assert Get(after, Part(n)) == ShiftedAt(before, policy, part, Part(n));
  }

  lemma UntouchedParts(before: Files, after: Files, policy: Policy, part: nat)
    requires part < policy.maxParts && IsShifted(before, after, policy, part)
    ensures PartsUpTo(after, part) == PartsUpTo(before, part)
    ensures part == policy.maxParts - 1 ==> PartsUpTo(after, part + 1) == PartsUpTo(before, part + 1)
  {
    forall k: nat | 1 <= k <= part || part + 1 == k == policy.maxParts
      ensures Get(after, Part(k)) == Get(before, Part(k))
    {
      assert Get(after, Part(k)) == ShiftedAt(before, policy, part, Part(k));
    }
    SameParts(before, after, part);
  }

  /** Below the last place the rename loop only moves parts up, in order. */
  lemma {:induction false} ShiftedParts(before: Files, after: Files, policy: Policy, part: nat, n: nat)
    requires part < n < policy.maxParts && IsShifted(before, after, policy, part)
    ensures PartsUpTo(after, n) == PartsUpTo(before, n - 1)
  {
    ShiftedPlace(before, after, policy, part, n);
    if n == part + 1 {
      UntouchedParts(before, after, policy, part);
    } else {
      ShiftedParts(before, after, policy, part, n - 1);
    }
  }

  /** The places whose parts survive when every part has moved up: the last one is overwritten if a part moves there. */
  function Surviving(before: Files, policy: Policy): nat
    requires ValidPolicy(policy)
  {
    if policy.maxParts == 1 || Part(policy.maxParts - 1) in before then policy.maxParts - 1 else policy.maxParts
  }

  lemma LastPlace(before: Files, last: Option<Bytes>, policy: Policy)
    requires ValidPolicy(policy) && policy.maxParts > 1 && last == RotatedAt(before, policy, Part(policy.maxParts))
    ensures last.GetOr([]) + PartsUpTo(before, policy.maxParts - 2) == PartsUpTo(before, Surviving(before, policy))
  {
    var m := policy.maxParts;
    if Part(m - 1) !in before { assert PartsUpTo(before, m - 1) == [] + PartsUpTo(before, m - 2); }
  }

  /** A loop that stopped keeps every part, or all but the one that was in the last place. */
  lemma ShiftKeeps(before: Files, after: Files, policy: Policy, part: nat)
    requires ValidPolicy(policy) && part < policy.maxParts && IsShifted(before, after, policy, part)
    ensures PartsUpTo(after, policy.maxParts)
      == PartsUpTo(before, if part < policy.maxParts - 1 then Surviving(before, policy) else policy.maxParts)
  {
    var m := policy.maxParts;
    assert Get(after, Part(m)) == ShiftedAt(before, policy, part, Part(m));
    if part < m - 1 {
      ShiftedParts(before, after, policy, part, m - 1);
      LastPlace(before, Get(after, Part(m)), policy);
    } else {
      UntouchedParts(before, after, policy, part);
    }
  }

  /** A rotation moves the live log behind the parts. */
  lemma {:induction false} RotatedParts(before: Files, after: Files, policy: Policy, n: nat)
    requires 1 <= n < policy.maxParts && Live in before
    requires forall p: LogPath :: p != Live ==> Get(after, p) == RotatedAt(before, policy, p)
    ensures PartsUpTo(after, n) == PartsUpTo(before, n - 1) + before[Live]
  {
    assert Get(after, Part(n)) == RotatedAt(before, policy, Part(n));
    if n > 1 {
      RotatedParts(before, after, policy, n - 1);
      Assoc(Get(before, Part(n - 1)).GetOr([]), PartsUpTo(before, n - 2), before[Live]);
    } else {
      assert PartsUpTo(after, 0) == [];
    }
  }

  lemma RotationKeeps(before: Files, after: Files, policy: Policy)
    requires ValidPolicy(policy) && Live in before
    requires forall p: LogPath :: p != Live ==> Get(after, p) == RotatedAt(before, policy, p)
    ensures PartsUpTo(after, policy.maxParts) == PartsUpTo(before, Surviving(before, policy)) + before[Live]
  {
    var m := policy.maxParts;
    var last := Get(after, Part(m));
    assert last == RotatedAt(before, policy, Part(m));
    if m > 1 {
      RotatedParts(before, after, policy, m - 1);
      LastPlace(before, last, policy);
      Assoc(last.GetOr([]), PartsUpTo(before, m - 2), before[Live]);
    } else {
      assert PartsUpTo(after, 0) == PartsUpTo(before, 0) == [];
    }
  }

  /** What survives is a suffix of all parts, and all of them while the last place is vacant. */
  lemma SurvivingIsSuffix(files: Files, policy: Policy)
    requires ValidPolicy(policy)
    ensures var parts := PartsUpTo(files, policy.maxParts);
      && IsSuffix(PartsUpTo(files, Surviving(files, policy)), parts)
      && (Part(policy.maxParts) !in files ==> PartsUpTo(files, Surviving(files, policy)) == parts)
  {
  }

  lemma SuffixTransitive(a: Bytes, b: Bytes, c: Bytes)
    requires IsSuffix(a, b) && IsSuffix(b, c)
    ensures IsSuffix(a, c)
  {
    assert c[|c| - |a|..] == c[|c| - |b|..][|b| - |a|..];
  }

  lemma SuffixAppends(a: Bytes, b: Bytes, more: Bytes)
    requires IsSuffix(a, b)
    ensures IsSuffix(a + more, b + more)
  {
    assert (b + more)[|b| - |a|..] == b[|b| - |a|..] + more;
  }

  /** A rotation, whole or stopped, keeps a suffix, and everything while the last place is vacant. */
  lemma StopKeepsSuffix(before: Files, after: Files, policy: Policy, stop: Option<Stop>)
    requires ValidPolicy(policy) && Live in before
    requires RotatedOrStopped(before, after, policy, stop)
    ensures IsSuffix(KeptOn(after, policy), KeptOn(before, policy))
    ensures Part(policy.maxParts) !in before ==> KeptOn(after, policy) == KeptOn(before, policy)
    ensures Part(policy.maxParts) in before ==> Part(policy.maxParts) in after
  {
    var live := LiveBytes(before);
    SurvivingIsSuffix(before, policy);
    var survived := PartsUpTo(before, Surviving(before, policy));
    SuffixAppends(survived, PartsUpTo(before, policy.maxParts), live);
    match stop
    case Some(InLoop(part)) => ShiftKeeps(before, after, policy, part);
    case _ => RotationKeeps(before, after, policy);
  }

  /** Every part comes from a part or from a live log that was due. */
  lemma PartsStayFull(before: Files, after: Files, policy: Policy, stop: Option<Stop>)
    requires ValidPolicy(policy) && Live in before && |before[Live]| >= policy.maxBytes
    requires RotatedOrStopped(before, after, policy, stop)
    requires PartsFull(before, policy)
    ensures PartsFull(after, policy)
    ensures Part(policy.maxParts) in before ==> Part(policy.maxParts) in after
  {
    forall n: nat | 1 <= n <= policy.maxParts
      ensures Get(after, Part(n)).Some? ==> |after[Part(n)]| >= policy.maxBytes
    {
      match stop
      case Some(InLoop(part)) => assert Get(after, Part(n)) == ShiftedAt(before, policy, part, Part(n));
      case _ => assert Get(after, Part(n)) == RotatedAt(before, policy, Part(n));
    }
    match stop
    case Some(InLoop(part)) =>
      assert Get(after, Part(policy.maxParts)) == ShiftedAt(before, policy, part, Part(policy.maxParts));
    case _ => assert Get(after, Part(policy.maxParts)) == RotatedAt(before, policy, Part(policy.maxParts));
  }

  lemma WriteStaysGood(before: Files, written: Bytes, policy: Policy, bytes: Bytes)
    requires StillGood(before, written, policy)
    ensures StillGood(before[Live := LiveBytes(before) + bytes], written + bytes, policy)
  {
    var after := before[Live := LiveBytes(before) + bytes];
    SameParts(before, after, policy.maxParts);
    Assoc(PartsUpTo(before, policy.maxParts), LiveBytes(before), bytes);
    SuffixAppends(KeptOn(before, policy), written, bytes);
  }

  /** A rotation that is not due, or is and runs to its end or stops. */
  lemma RotateStaysGood(before: Files, after: Files, written: Bytes, policy: Policy, stop: Option<Stop>)
    requires ValidPolicy(policy) && StillGood(before, written, policy)
    requires StepOrStop(before, RotateIfNeeded, stop, after, policy)
    ensures StillGood(after, written, policy)
  {
    var live := before[Live := LiveBytes(before)];
    SameParts(before, live, policy.maxParts);
    if |LiveBytes(before)| >= policy.maxBytes {
      StopKeepsSuffix(live, after, policy, stop);
      PartsStayFull(live, after, policy, stop);
      SuffixTransitive(KeptOn(after, policy), KeptOn(live, policy), written);
    }
  }

  lemma {:induction false} FaultyHistoryIsGood(
    states: seq<Files>, ops: seq<Op>, stops: seq<Option<Stop>>, policy: Policy, n: nat)
    requires ValidPolicy(policy) && IsFaultyHistory(states, ops, stops, policy) && n <= |ops|
    ensures StillGood(states[n], Written(ops[..n]), policy)
  {
    if n == 0 {
      NoParts(states[0], policy.maxParts);
    } else {
      FaultyHistoryIsGood(states, ops, stops, policy, n - 1);
      assert ops[..n][..n - 1] == ops[..n - 1];
      assert StepOrStop(states[n - 1], ops[n - 1], stops[n - 1], states[n], policy);
      match ops[n - 1]
      case Write(bytes) => WriteStaysGood(states[n - 1], Written(ops[..n - 1]), policy, bytes);
      case RotateIfNeeded =>
        RotateStaysGood(states[n - 1], states[n], Written(ops[..n - 1]), policy, stops[n - 1]);
        assert Written(ops[..n]) == Written(ops[..n - 1]);
    }
  }

  lemma {:induction false} NoParts(files: Files, n: nat)
    requires forall p: LogPath :: p in files ==> p.Elsewhere?
    ensures PartsUpTo(files, n) == []
  {
    if n > 0 { NoParts(files, n - 1); }
  }

  /**
   Rotations that stop anywhere still conserve a suffix. After any appends and rotations, each of which may have stopped
   part way: what is on disk, oldest place first and then the live log, is a suffix of everything written; nothing is
   missing while the last place is vacant; and otherwise at least `maxBytes` bytes of old parts are kept.
   */
  lemma StopsConserveSuffix(states: seq<Files>, ops: seq<Op>, stops: seq<Option<Stop>>, policy: Policy)
    requires ValidPolicy(policy) && IsFaultyHistory(states, ops, stops, policy)
    ensures
      var end := states[|ops|];
      && IsSuffix(KeptOn(end, policy), Written(ops))
      && (Part(policy.maxParts) !in end ==> KeptOn(end, policy) == Written(ops))
      && (KeptOn(end, policy) == Written(ops) || |PartsUpTo(end, policy.maxParts)| >= policy.maxBytes)
  {
    FaultyHistoryIsGood(states, ops, stops, policy, |ops|);
    assert ops[..|ops|] == ops;
  }
}
