/**
 Gate E: acceptance bound to a locked snapshot, through a hash of the snapshot and a hash
 of a payload that carries the snapshot hash and a digest of every section.
 */
module AcceptanceGate {
  import opened Wrappers
  import opened Clock
  import opened JsonText
  import opened CanonicalJson
  import opened Approvals

  datatype Snapshot = Snapshot(
    runId: Text, createdAt: Text, acceptedAt: Option<Text>, diff: Json, tests: Json, review: Json,
    risks: Json, artifacts: Json, snapshotHash: Digest, locked: bool)

  predicate IsSection(v: Json) { v.Arr? || v.Obj? }

  predicate Shaped(s: Snapshot) {
    s.runId != [] && IsSection(s.diff) && IsSection(s.tests) && IsSection(s.review) && IsSection(s.risks)
      && IsSection(s.artifacts)
  }

  function GateE(): Text { Ascii("Gate E") }

  function AcceptanceKind(): Text { Ascii("acceptance") }

  function Sections(s: Snapshot): seq<Field> {
    [Field(Ascii("diff"), s.diff), Field(Ascii("tests"), s.tests), Field(Ascii("review"), s.review),
     Field(Ascii("risks"), s.risks), Field(Ascii("artifacts"), s.artifacts)]
  }

  /** The snapshot without its hash and its lock: what the hash covers. */
  function Content(s: Snapshot): Json {
    Obj([Field(GateKey(), Str(GateE())), Field(Ascii("runId"), Str(s.runId)),
        Field(Ascii("createdAt"), Str(s.createdAt)),
         Field(Ascii("acceptedAt"), match s.acceptedAt case Some(t) => Str(t) case None => Null)] + Sections(s))
  }

  function CreateAcceptanceSnapshot(
    hash: HashFunction, runId: Text, createdAt: Text, acceptedAt: Option<Text>,
    diff: Json, tests: Json, review: Json, risks: Json, artifacts: Json): Result<Snapshot, ApprovalError>
  {
    var s := Snapshot(runId, createdAt, acceptedAt, diff, tests, review, risks, artifacts, [], true);
    if Shaped(s) then Ok(s.(snapshotHash := HashApprovalPayload(hash, Content(s)))) else Err(InvalidGate)
  }

  predicate IsSnapshot(hash: HashFunction, s: Snapshot) {
    Shaped(s) && s.locked && s.snapshotHash == HashApprovalPayload(hash, Content(s))
  }

  /** The check on a snapshot passes exactly what the constructor makes of its fields. */
  lemma SnapshotIffCreated(hash: HashFunction, s: Snapshot)
    ensures IsSnapshot(hash, s) <==>
      CreateAcceptanceSnapshot(
        hash, s.runId, s.createdAt, s.acceptedAt, s.diff, s.tests, s.review, s.risks, s.artifacts) == Ok(s)
  {
    var made := s.(snapshotHash := [], locked := true);
    assert Content(made) == Content(s);
  }

  /** `Object.keys(section).sort()`; the own keys of an array are its indices. */
  function SortedKeys(section: Json): seq<Json>
    requires IsSection(section)
  {
    var fields := if section.Obj? then section.fields
        else seq(|section.items|, i requires 0 <= i => Field(IntText(i), Null));
    Keys(SortFields(fields))
  }

  function Keys(fields: seq<Field>): (keys: seq<Json>)
    ensures |keys| == |fields| && forall i :: 0 <= i < |keys| ==> keys[i] == Str(fields[i].key)
  {
    if fields == [] then [] else [Str(fields[0].key)] + Keys(fields[1..])
  }

  function SummarizeSection(hash: HashFunction, section: Json): Json
    requires IsSection(section)
  {
    Obj([Field(Ascii("hash"), Str(HashApprovalPayload(hash, section))), Field(Ascii("keys"), Arr(SortedKeys(section)))])
  }

  function AcceptancePayload(hash: HashFunction, s: Snapshot): Json
    requires Shaped(s)
  {
    Obj([Field(GateKey(), Str(GateE())), Field(Ascii("runId"), Str(s.runId)),
        Field(Ascii("snapshotHash"), Str(s.snapshotHash)),
         Field(Ascii("sections"), Obj([
           Field(Ascii("diff"), SummarizeSection(hash, s.diff)), Field(Ascii("tests"), SummarizeSection(hash, s.tests)),
           Field(Ascii("review"), SummarizeSection(hash, s.review)),
           Field(Ascii("risks"), SummarizeSection(hash, s.risks)),
           Field(Ascii("artifacts"), SummarizeSection(hash, s.artifacts))]))])
  }

  function CreateAcceptanceGate(
    hash: HashFunction, id: Option<Text>, runId: Option<Text>, s: Snapshot, actor: Text, requestedAt: Instant,
    ttlMinutes: int)
    : Result<Request, ApprovalError>
  {
    if !IsSnapshot(hash, s) then Err(InvalidGate)
    else
      var run := runId.GetOr(s.runId);
      CreateApprovalRequest(
        id.GetOr(Ascii("acceptance-") + run), AcceptanceKind(),
        Obj([Field(GateKey(), Str(GateE())), Field(Ascii("runId"), Str(run)),
            Field(Ascii("snapshotHash"), Str(s.snapshotHash))]),
        HashApprovalPayload(hash, AcceptancePayload(hash, s)), s.snapshotHash, actor, requestedAt, ttlMinutes)
  }

  predicate IsGateE(request: Request) {
    request.kind == AcceptanceKind() && request.scope.Obj?
      && Lookup(request.scope.fields, GateKey()) == Some(Str(GateE()))
  }

  datatype AcceptanceVerdict = Accept | RequestChanges | Neither

  datatype AcceptanceInput = AcceptanceInput(
    verdict: AcceptanceVerdict, actor: Text, reason: Text, payloadHash: Digest, revisionHash: Digest,
    timestamp: Option<Instant>)

  datatype TargetState = RunAccepted | RunNeedsAttention

  function DecideAcceptanceGate(request: Request, input: AcceptanceInput,
      now: Instant): Result<(Decision, TargetState), ApprovalError> {
    if !IsGateE(request) then Err(InvalidGate)
    else if input.verdict == Neither || input.actor == [] || input.payloadHash == [] || input.revisionHash == []
      then Err(InvalidGate)
    else if input.verdict == RequestChanges && input.reason == [] then Err(InvalidGate)
    else
      var verdict := if input.verdict == Accept then Approve else Reject;
      var decision := DecisionInput(verdict, input.actor, input.reason, input.payloadHash, input.revisionHash,
          Some(input.timestamp.GetOr(now)));
      match DecideApproval(request, decision, now)
      case Err(error) => Err(error)
      case Ok(d) => Ok((d, if input.verdict == Accept then RunAccepted else RunNeedsAttention))
  }

  function InvalidateAcceptanceOnSnapshotChange(hash: HashFunction, request: Request,
      next: Snapshot): Result<Request, ApprovalError> {
    if !IsSnapshot(hash, next) then Err(InvalidGate)
    else if HashApprovalPayload(hash, AcceptancePayload(hash, next)) != request.payloadHash
      || next.snapshotHash != request.revisionHash
    then Ok(request.(state := Invalidated))
    else Ok(request)
  }

  function AfterSnapshots(hash: HashFunction, request: Request, chain: seq<Snapshot>): Request
    decreases |chain|
  {
    if chain == [] then request
    else
      var next := match InvalidateAcceptanceOnSnapshotChange(hash, request, chain[0]) case Ok(r) => r
          case Err(_) => request;
      AfterSnapshots(hash, next, chain[1..])
  }

  // ---------- the payload is determined by the content ----------

  /** Objects that list the same keys in the same order are equal exactly when their values are, one by one. */
  lemma SameFields(f: seq<Field>, g: seq<Field>)
    requires |f| == |g| && DistinctKeys(f)
    requires forall i :: 0 <= i < |f| ==> f[i].key == g[i].key
    ensures SameValue(Obj(f), Obj(g)) <==> forall i :: 0 <= i < |f| ==> SameValue(f[i].value, g[i].value)
  {
    if SameValue(Obj(f), Obj(g)) {
      forall i | 0 <= i < |f| ensures SameValue(f[i].value, g[i].value) {
        assert SameUnderKey(f[i], g);
        var j :| 0 <= j < |g| && g[j].key == f[i].key && SameValue(f[i].value, g[j].value);
        assert f[j].key == f[i].key && i == j;
      }
    }
    if forall i :: 0 <= i < |f| ==> SameValue(f[i].value, g[i].value) {
      forall i | 0 <= i < |f| ensures SameUnderKey(f[i], g) && HasKey(f, g[i].key) {
        assert g[i].key == f[i].key;
      }
    }
  }

  lemma ContentLayout(s: Snapshot)
    ensures
      var f := Content(s).fields;
      && |f| == 9 && f[1].value == Str(s.runId) && f[4].value == s.diff && f[5].value == s.tests
      && f[6].value == s.review && f[7].value == s.risks && f[8].value == s.artifacts
  {
  }

  lemma ContentSameKeys(a: Snapshot, b: Snapshot)
    ensures |Content(a).fields| == |Content(b).fields|
    ensures forall i :: 0 <= i < |Content(a).fields| ==> Content(a).fields[i].key == Content(b).fields[i].key
  {
  }

  lemma NineFields(f: seq<Field>, g: seq<Field>)
    requires |f| == |g| == 9 && DistinctKeys(f) && SameValue(Obj(f), Obj(g))
    requires forall i :: 0 <= i < |f| ==> f[i].key == g[i].key
    ensures SameValue(f[1].value, g[1].value) && SameValue(f[4].value, g[4].value) && SameValue(f[5].value, g[5].value)
    ensures SameValue(f[6].value, g[6].value) && SameValue(f[7].value, g[7].value) && SameValue(f[8].value, g[8].value)
  {
    SameFields(f, g);
  }

  lemma ContentSections(a: Snapshot, b: Snapshot)
    requires SameValue(Content(a), Content(b)) && WellFormed(Content(a))
    ensures SameValue(a.diff, b.diff) && SameValue(a.tests, b.tests) && SameValue(a.review, b.review)
    ensures SameValue(a.risks, b.risks) && SameValue(a.artifacts, b.artifacts) && a.runId == b.runId
  {
    ContentSameKeys(a, b);
    ContentLayout(a);
    ContentLayout(b);
    NineFields(Content(a).fields, Content(b).fields);
  }

  lemma SameSectionsSameKeys(a: Json, b: Json)
    requires IsSection(a) && WellFormed(a) && WellFormed(b) && SameValue(a, b)
    ensures IsSection(b) && SortedKeys(a) == SortedKeys(b)
  {
    if a.Obj? {
      CanonIffSame(a, b);
      CanonCommutesWithSort(a.fields);
      CanonCommutesWithSort(b.fields);
      var x, y := SortFields(a.fields), SortFields(b.fields);
      assert CanonFields(x) == CanonFields(y);
      assert |CanonFields(x)| == |x| && |CanonFields(y)| == |y|;
      forall i | 0 <= i < |x| ensures x[i].key == y[i].key {
        assert CanonFields(x)[i] == CanonFields(y)[i];
      }
      assert Keys(x) == Keys(y);
    }
  }

  lemma SameSummary(hash: HashFunction, a: Json, b: Json)
    requires CollisionFree(hash) && IsSection(a) && WellFormed(a) && WellFormed(b) && SameValue(a, b)
    ensures IsSection(b) && SummarizeSection(hash, a) == SummarizeSection(hash, b)
  {
    HashIffSame(hash, a, b);
    SameSectionsSameKeys(a, b);
  }

  ghost predicate WellFormedSnapshot(s: Snapshot) { WellFormed(Content(s)) }

  lemma WellFormedSections(s: Snapshot)
    requires WellFormedSnapshot(s)
    ensures WellFormed(s.diff) && WellFormed(s.tests) && WellFormed(s.review) && WellFormed(s.risks)
      && WellFormed(s.artifacts)
  {
    var f := Content(s).fields;
    assert WellFormed(f[4].value) && WellFormed(f[5].value) && WellFormed(f[6].value) && WellFormed(f[7].value)
      && WellFormed(f[8].value);
  }

  lemma SameContentSamePayload(hash: HashFunction, a: Snapshot, b: Snapshot)
    requires CollisionFree(hash) && IsSnapshot(hash, a) && IsSnapshot(hash, b) && WellFormedSnapshot(a)
      && WellFormedSnapshot(b)
    requires SameValue(Content(a), Content(b))
    ensures AcceptancePayload(hash, a) == AcceptancePayload(hash, b)
  {
    ContentSections(a, b);
    WellFormedSections(a);
    WellFormedSections(b);
    HashIffSame(hash, Content(a), Content(b));
    SameSummary(hash, a.diff, b.diff);
    SameSummary(hash, a.tests, b.tests);
    SameSummary(hash, a.review, b.review);
    SameSummary(hash, a.risks, b.risks);
    SameSummary(hash, a.artifacts, b.artifacts);
  }

  // ---------- chains of snapshots ----------

  /** Every snapshot of the chain that is valid has the content of `first`, up to key order. */
  ghost predicate KeepsContent(hash: HashFunction, first: Snapshot, chain: seq<Snapshot>) {
    forall i :: 0 <= i < |chain| && IsSnapshot(hash, chain[i]) ==> SameValue(Content(chain[i]), Content(first))
  }

  lemma KeepsContentStep(hash: HashFunction, first: Snapshot, chain: seq<Snapshot>)
    requires chain != []
    ensures KeepsContent(hash, first, chain) <==>
      (IsSnapshot(hash, chain[0]) ==> SameValue(Content(chain[0]), Content(first)))
        && KeepsContent(hash, first, chain[1..])
  {
    if KeepsContent(hash, first, chain) {
      assert forall i :: 0 <= i < |chain[1..]| ==> chain[1..][i] == chain[i + 1];
    }
    if KeepsContent(hash, first, chain[1..]) {
      forall i | 0 < i < |chain| && IsSnapshot(hash, chain[i]) ensures SameValue(Content(chain[i]), Content(first)) {
        assert chain[1..][i - 1] == chain[i];
      }
    }
  }

  lemma SnapshotStep(hash: HashFunction, request: Request, first: Snapshot, next: Snapshot)
    requires CollisionFree(hash) && IsSnapshot(hash, first) && WellFormedSnapshot(first) && WellFormedSnapshot(next)
    requires request.payloadHash == HashApprovalPayload(hash, AcceptancePayload(hash, first))
    requires request.revisionHash == first.snapshotHash && IsSnapshot(hash, next)
    ensures InvalidateAcceptanceOnSnapshotChange(hash, request, next) ==
      Ok(if SameValue(Content(next), Content(first)) then request else request.(state := Invalidated))
  {
    HashIffSame(hash, Content(next), Content(first));
    if SameValue(Content(next), Content(first)) { SameContentSamePayload(hash, next, first); }
  }

  lemma {:induction false} SnapshotChainOutcome(hash: HashFunction, request: Request, first: Snapshot,
      chain: seq<Snapshot>)
    requires CollisionFree(hash) && IsSnapshot(hash, first) && WellFormedSnapshot(first)
    requires forall i :: 0 <= i < |chain| ==> WellFormedSnapshot(chain[i])
    requires request.payloadHash == HashApprovalPayload(hash, AcceptancePayload(hash, first))
    requires request.revisionHash == first.snapshotHash
    ensures AfterSnapshots(hash, request, chain) ==
      if KeepsContent(hash, first, chain) then request else request.(state := Invalidated)
    decreases |chain|
  {
    if chain == [] { return; }
    if IsSnapshot(hash, chain[0]) { SnapshotStep(hash, request, first, chain[0]); }
    var next := match InvalidateAcceptanceOnSnapshotChange(hash, request, chain[0]) case Ok(r) => r
        case Err(_) => request;
    SnapshotChainOutcome(hash, next, first, chain[1..]);
    KeepsContentStep(hash, first, chain);
  }

  /** Accept on a Gate E request looks at its state, its two hashes and its expiry only. */
  lemma AcceptDecides(request: Request, input: AcceptanceInput, now: Instant)
    requires IsGateE(request) && request.payloadHash != [] && request.revisionHash != []
    requires input.verdict == Accept && input.actor != []
    ensures DecideAcceptanceGate(request, input, now).Ok? <==>
      && request.state == Pending && input.payloadHash == request.payloadHash
      && input.revisionHash == request.revisionHash
      && !After(input.timestamp.GetOr(now), request.expiresAt)
  {
  }

  lemma AcceptChangedGate(
    hash: HashFunction, gate: Request, first: Snapshot, chain: seq<Snapshot>, input: AcceptanceInput, now: Instant)
    requires CollisionFree(hash) && IsSnapshot(hash, first) && WellFormedSnapshot(first)
    requires forall i :: 0 <= i < |chain| ==> WellFormedSnapshot(chain[i])
    requires IsGateE(gate) && gate.state == Pending && gate.revisionHash == first.snapshotHash
    requires gate.payloadHash == HashApprovalPayload(hash, AcceptancePayload(hash, first))
    requires input.verdict == Accept && input.actor != []
    ensures DecideAcceptanceGate(AfterSnapshots(hash, gate, chain), input, now).Ok? <==>
      && KeepsContent(hash, first, chain)
      && input.payloadHash == gate.payloadHash && input.revisionHash == first.snapshotHash
      && !After(input.timestamp.GetOr(now), gate.expiresAt)
  {
    SnapshotChainOutcome(hash, gate, first, chain);
    AcceptDecides(gate, input, now);
    AcceptDecides(gate.(state := Invalidated), input, now);
  }

  lemma AcceptanceGateCreated(
    hash: HashFunction, id: Option<Text>, runId: Option<Text>, s: Snapshot, actor: Text, requestedAt: Instant,
    ttlMinutes: int)
    requires CreateAcceptanceGate(hash, id, runId, s, actor, requestedAt, ttlMinutes).Ok?
    ensures
      var gate := CreateAcceptanceGate(hash, id, runId, s, actor, requestedAt, ttlMinutes).value;
      && IsGateE(gate) && gate.state == Pending && gate.revisionHash == s.snapshotHash && IsSnapshot(hash, s)
      && gate.payloadHash == HashApprovalPayload(hash, AcceptancePayload(hash, s))
      && requestedAt.At? && gate.expiresAt == At(requestedAt.ms + ttlMinutes * MINUTE_MS)
  {
  }

  /**
   Gate E safety. After any chain of snapshot changes, Accept succeeds exactly when every valid snapshot
   offered since has the content first locked, the decision quotes its two hashes, and it is not late.
   */
  lemma AcceptIffSnapshotUnchanged(
    hash: HashFunction, id: Option<Text>, runId: Option<Text>, first: Snapshot, actor: Text, requestedAt: Instant,
    ttlMinutes: int, chain: seq<Snapshot>, input: AcceptanceInput, now: Instant)
    requires CollisionFree(hash) && WellFormedSnapshot(first)
    requires forall i :: 0 <= i < |chain| ==> WellFormedSnapshot(chain[i])
    requires CreateAcceptanceGate(hash, id, runId, first, actor, requestedAt, ttlMinutes).Ok?
    requires input.verdict == Accept && input.actor != []
    ensures
      var gate := CreateAcceptanceGate(hash, id, runId, first, actor, requestedAt, ttlMinutes).value;
      DecideAcceptanceGate(AfterSnapshots(hash, gate, chain), input, now).Ok? <==>
        && KeepsContent(hash, first, chain)
        && input.payloadHash == gate.payloadHash && input.revisionHash == first.snapshotHash
        && !After(input.timestamp.GetOr(now), At(requestedAt.ms + ttlMinutes * MINUTE_MS))
  {
    var gate := CreateAcceptanceGate(hash, id, runId, first, actor, requestedAt, ttlMinutes).value;
    AcceptanceGateCreated(hash, id, runId, first, actor, requestedAt, ttlMinutes);
    AcceptChangedGate(hash, gate, first, chain, input, now);
  }
}
