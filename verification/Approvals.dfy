/**
 Approval requests bound to the hash of the payload that was shown, and Gate A, the
 pipeline approval. SHA-256 is an arbitrary function from text to digest; its
 freedom from collisions is a hypothesis of the theorems that need it.
 */
module Approvals {
  import opened Wrappers
  import opened Clock
  import opened JsonText
  import opened CanonicalJson

  type Digest = Text
  type HashFunction = Text -> Digest

  /** Collision-freedom is asked only of texts that survive UTF-8 encoding. */
  ghost predicate CollisionFree(hash: HashFunction) {
    && (forall t :: hash(t) != [])
    && (forall s, t :: Paired(s) && Paired(t) && hash(s) == hash(t) ==> s == t)
  }

  datatype ApprovalState = Pending | Approved | Rejected | Expired | Invalidated

  datatype ApprovalError = InvalidDecision | ExpiredApproval | StaleApproval | InvalidGate | InvalidTime

  datatype Request = Request(
    id: Text, kind: Text, scope: Json, payloadHash: Digest, revisionHash: Digest,
    actor: Text, requestedAt: Instant, expiresAt: Instant, state: ApprovalState)

  /** `Other` stands for any string that is neither of the two decisions. */
  datatype Verdict = Approve | Reject | Other

  datatype DecisionInput = DecisionInput(
    verdict: Verdict, actor: Text, reason: Text, payloadHash: Digest, revisionHash: Digest, timestamp: Option<Instant>)

  datatype Decision = Decision(
    requestId: Text, actor: Text, verdict: Verdict, reason: Text, timestamp: Instant,
    revisionHash: Digest, payloadHash: Digest, state: ApprovalState)

  function HashApprovalPayload(hash: HashFunction, payload: Json): Digest {
    hash(StableJson(payload))
  }

  function CreateApprovalRequest(
    id: Text, kind: Text, scope: Json, payloadHash: Digest, revisionHash: Digest,
    actor: Text, requestedAt: Instant, ttlMinutes: int): Result<Request, ApprovalError>
  {
    if id == [] || kind == [] || payloadHash == [] || revisionHash == [] then Err(InvalidDecision)
    else if requestedAt.Unreadable? then Err(InvalidTime)
    else Ok(Request(id, kind, scope, payloadHash, revisionHash, actor, requestedAt,
                    At(requestedAt.ms + ttlMinutes * MINUTE_MS), Pending))
  }

  function AssertApprovalUsable(request: Request, payloadHash: Digest, revisionHash: Digest,
      now: Instant): Option<ApprovalError> {
    if request.state != Pending then Some(InvalidDecision)
    else if After(now, request.expiresAt) then Some(ExpiredApproval)
    else if payloadHash != request.payloadHash || revisionHash != request.revisionHash then Some(StaleApproval)
    else None
  }

  /** `now` is the clock, read when the decision carries no timestamp of its own. */
  function DecideApproval(request: Request, input: DecisionInput, now: Instant): Result<Decision, ApprovalError> {
    if input.verdict == Other || input.actor == [] || input.payloadHash == [] || input.revisionHash == [] then
      Err(InvalidDecision)
    else
      var timestamp := input.timestamp.GetOr(now);
      match AssertApprovalUsable(request, input.payloadHash, input.revisionHash, timestamp)
      case Some(error) => Err(error)
      case None =>
        Ok(Decision(request.id, input.actor, input.verdict, input.reason, timestamp, input.revisionHash,
                    input.payloadHash, if input.verdict == Approve then Approved else Rejected))
  }

  function InvalidateApprovalOnChange(request: Request, payloadHash: Digest, revisionHash: Digest): Request {
    if payloadHash != request.payloadHash || revisionHash != request.revisionHash
    then request.(state := Invalidated) else request
  }

  /**
   The code keeps no record of a decision: a request that was approved can still be rejected, and the other way round.
   */
  lemma DecisionsAreNotSingleUse(request: Request, input: DecisionInput, now: Instant)
    requires DecideApproval(request, input, now).Ok?
    ensures DecideApproval(request, input.(verdict := Approve), now).Ok?
    ensures DecideApproval(request, input.(verdict := Reject), now).Ok?
  {
  }

  // ---------- Gate A ----------

  datatype Template = Template(id: Text, displayName: Text, roles: Json, steps: seq<Json>, edges: Json, gates: Json,
      policies: Json)

  datatype GateConfig = GateConfig(
    template: Template, assignments: Json, context: Json, preflight: Json, permissions: Json,
    network: Json, secretAliases: seq<Text>, agentProcessStarted: bool)

  function GateKey(): Text { Ascii("gate") }

  function GateA(): Text { Ascii("Gate A") }

  function PipelineKind(): Text { Ascii("pipeline") }

  function TemplateJson(t: Template): Json {
    Obj([
      Field(Ascii("id"), Str(t.id)), Field(Ascii("displayName"), Str(t.displayName)), Field(Ascii("roles"), t.roles),
      Field(Ascii("steps"), Arr(t.steps)), Field(Ascii("edges"), t.edges), Field(Ascii("gates"), t.gates),
      Field(Ascii("policies"), t.policies)])
  }

  function Payload(c: GateConfig): Json {
    Obj([
      Field(GateKey(), Str(GateA())), Field(Ascii("template"), TemplateJson(c.template)),
      Field(Ascii("assignments"), c.assignments), Field(Ascii("context"), c.context),
      Field(Ascii("preflight"), c.preflight), Field(Ascii("permissions"), c.permissions),
      Field(Ascii("network"), c.network),
      Field(Ascii("secretAliases"), Arr(seq(|c.secretAliases|,
          i requires 0 <= i < |c.secretAliases| => Str(c.secretAliases[i])))),
      Field(Ascii("agentProcessStarted"), Bool(c.agentProcessStarted))])
  }

  predicate IsBlank(t: Text) { forall i :: 0 <= i < |t| ==> IsSpace(t[i]) }

  /** `leaks` is the regular-expression scan for secret-like strings. */
  function CreatePipelineApprovalPayload(c: GateConfig, leaks: Json -> bool): Result<Json, ApprovalError> {
    if c.agentProcessStarted || c.template.id == [] then Err(InvalidGate)
    else if !(c.assignments.Obj? && c.context.Obj? && c.preflight.Obj? && c.permissions.Obj? && c.network.Obj?)
      then Err(InvalidGate)
    else if exists i :: 0 <= i < |c.secretAliases| && IsBlank(c.secretAliases[i]) then Err(InvalidGate)
    else if leaks(Payload(c)) then Err(InvalidGate)
    else Ok(Payload(c))
  }

  function CreatePipelineApprovalGate(
    hash: HashFunction, leaks: Json -> bool, id: Option<Text>, runId: Option<Text>, config: GateConfig,
    revisionHash: Digest, actor: Text, requestedAt: Instant, ttlMinutes: int): Result<Request, ApprovalError>
  {
    match CreatePipelineApprovalPayload(config, leaks)
    case Err(error) => Err(error)
    case Ok(payload) =>
      var scope := Obj([
        Field(GateKey(), Str(GateA())),
        Field(Ascii("runId"), match runId case Some(r) => Str(r) case None => Null),
        Field(Ascii("templateId"), Str(config.template.id))]);
      CreateApprovalRequest(
        id.GetOr(Ascii("pipeline-approval-") + runId.GetOr(Ascii("unknown"))), PipelineKind(), scope,
        HashApprovalPayload(hash, payload), revisionHash, actor, requestedAt, ttlMinutes)
  }

  function Lookup(fields: seq<Field>, key: Text): Option<Json> {
    if fields == [] then None
    else if fields[0].key == key then Some(fields[0].value)
    else Lookup(fields[1..], key)
  }

  predicate IsGateA(request: Request) {
    request.kind == PipelineKind() && request.scope.Obj?
      && Lookup(request.scope.fields, GateKey()) == Some(Str(GateA()))
  }

  function DecidePipelineApprovalGate(request: Request, input: DecisionInput,
      now: Instant): Result<Decision, ApprovalError> {
    if !IsGateA(request) then Err(InvalidGate) else DecideApproval(request, input, now)
  }

  function InvalidateOnConfigChange(hash: HashFunction, leaks: Json -> bool, request: Request,
      next: GateConfig): Result<Request, ApprovalError> {
    match CreatePipelineApprovalPayload(next, leaks)
    case Err(error) => Err(error)
    case Ok(payload) =>
      Ok(InvalidateApprovalOnChange(request, HashApprovalPayload(hash, payload), request.revisionHash))
  }

  // ---------- chains of configuration changes ----------

  /** The request after a chain of changes; a change that is refused leaves it as it was. */
  function AfterChanges(hash: HashFunction, leaks: Json -> bool, request: Request, chain: seq<GateConfig>): Request
    decreases |chain|
  {
    if chain == [] then request
    else
      var next := match InvalidateOnConfigChange(hash, leaks, request, chain[0]) case Ok(r) => r case Err(_) => request;
      AfterChanges(hash, leaks, next, chain[1..])
  }

  ghost predicate WellFormedConfig(c: GateConfig) { WellFormed(Payload(c)) }

  predicate Accepted(c: GateConfig, leaks: Json -> bool) { CreatePipelineApprovalPayload(c, leaks).Ok? }

  /** Every change of the chain that took effect shows the payload of `first`, up to key order. */
  ghost predicate ShowsSamePayload(first: GateConfig, chain: seq<GateConfig>, leaks: Json -> bool) {
    forall i :: 0 <= i < |chain| && Accepted(chain[i], leaks) ==> SameValue(Payload(chain[i]), Payload(first))
  }

  lemma HashIffSame(hash: HashFunction, a: Json, b: Json)
    requires CollisionFree(hash) && WellFormed(a) && WellFormed(b)
    ensures HashApprovalPayload(hash, a) == HashApprovalPayload(hash, b) <==> SameValue(a, b)
  {
    StableJsonPaired(a);
    StableJsonPaired(b);
    StableJsonInjective(a, b);
  }

  /** Once invalidated, a request stays so through any further changes, and every decision on it is refused. */
  lemma {:induction false} InvalidationIsPermanent(
    hash: HashFunction, leaks: Json -> bool, request: Request, chain: seq<GateConfig>, input: DecisionInput,
    now: Instant)
    requires request.state == Invalidated
    ensures AfterChanges(hash, leaks, request, chain).state == Invalidated
    ensures DecidePipelineApprovalGate(AfterChanges(hash, leaks, request, chain), input, now).Err?
    decreases |chain|
  {
    if chain != [] {
      var next := match InvalidateOnConfigChange(hash, leaks, request, chain[0]) case Ok(r) => r case Err(_) => request;
      InvalidationIsPermanent(hash, leaks, next, chain[1..], input, now);
    }
  }

  /** A chain of changes either leaves the request alone or marks it invalidated, and nothing else. */
  lemma {:induction false} ChainOutcome(
    hash: HashFunction, leaks: Json -> bool, request: Request, first: GateConfig, chain: seq<GateConfig>)
    requires CollisionFree(hash) && WellFormedConfig(first)
    requires forall i :: 0 <= i < |chain| ==> WellFormedConfig(chain[i])
    requires request.payloadHash == HashApprovalPayload(hash, Payload(first))
    ensures AfterChanges(hash, leaks, request, chain) ==
      if ShowsSamePayload(first, chain, leaks) then request else request.(state := Invalidated)
    decreases |chain|
  {
    if chain == [] { return; }
    var next := match InvalidateOnConfigChange(hash, leaks, request, chain[0]) case Ok(r) => r case Err(_) => request;
    HashIffSame(hash, Payload(chain[0]), Payload(first));
    ChainOutcome(hash, leaks, next, first, chain[1..]);
    ShowsSameStep(first, chain, leaks);
  }

  lemma ShowsSameStep(first: GateConfig, chain: seq<GateConfig>, leaks: Json -> bool)
    requires chain != []
    ensures ShowsSamePayload(first, chain, leaks) <==>
      (Accepted(chain[0], leaks) ==> SameValue(Payload(chain[0]), Payload(first)))
        && ShowsSamePayload(first, chain[1..], leaks)
  {
    if ShowsSamePayload(first, chain, leaks) {
      assert forall i :: 0 <= i < |chain[1..]| ==> chain[1..][i] == chain[i + 1];
    }
    if ShowsSamePayload(first, chain[1..], leaks) {
      forall i | 0 < i < |chain| && Accepted(chain[i], leaks) ensures SameValue(Payload(chain[i]), Payload(first)) {
        assert chain[1..][i - 1] == chain[i];
      }
    }
  }

  lemma GateCreated(
    hash: HashFunction, leaks: Json -> bool, id: Option<Text>, runId: Option<Text>, config: GateConfig,
    revisionHash: Digest, actor: Text, requestedAt: Instant, ttlMinutes: int)
    requires CreatePipelineApprovalGate(hash, leaks, id, runId, config, revisionHash, actor, requestedAt,
      ttlMinutes).Ok?
    ensures
      var gate := CreatePipelineApprovalGate(hash, leaks, id, runId, config, revisionHash, actor, requestedAt,
          ttlMinutes).value;
      && IsGateA(gate) && gate.state == Pending && gate.revisionHash == revisionHash != []
      && gate.payloadHash == HashApprovalPayload(hash, Payload(config)) != []
      && requestedAt.At? && gate.expiresAt == At(requestedAt.ms + ttlMinutes * MINUTE_MS)
  {
  }

  lemma ApproveChangedGate(
    hash: HashFunction, leaks: Json -> bool, gate: Request, first: GateConfig, chain: seq<GateConfig>,
    input: DecisionInput, now: Instant)
    requires CollisionFree(hash) && WellFormedConfig(first)
    requires forall i :: 0 <= i < |chain| ==> WellFormedConfig(chain[i])
    requires IsGateA(gate) && gate.state == Pending && gate.payloadHash != [] && gate.revisionHash != []
    requires gate.payloadHash == HashApprovalPayload(hash, Payload(first))
    requires input.verdict == Approve && input.actor != []
    ensures DecidePipelineApprovalGate(AfterChanges(hash, leaks, gate, chain), input, now).Ok? <==>
      && ShowsSamePayload(first, chain, leaks)
      && input.payloadHash == gate.payloadHash && input.revisionHash == gate.revisionHash
      && !After(input.timestamp.GetOr(now), gate.expiresAt)
  {
    ChainOutcome(hash, leaks, gate, first, chain);
    var changed := AfterChanges(hash, leaks, gate, chain);
    assert IsGateA(changed);
  }

  /**
   Gate A approval safety. After any chain of configuration changes, an approve succeeds exactly when
   every change that took effect had the payload first shown, the decision quotes that payload and the
   revision, and it is not dated after the expiry.
   */
  lemma ApproveIffPayloadUnchanged(
    hash: HashFunction, leaks: Json -> bool, id: Option<Text>, runId: Option<Text>, first: GateConfig,
    revisionHash: Digest, actor: Text, requestedAt: Instant, ttlMinutes: int,
    chain: seq<GateConfig>, input: DecisionInput, now: Instant)
    requires CollisionFree(hash) && WellFormedConfig(first)
    requires forall i :: 0 <= i < |chain| ==> WellFormedConfig(chain[i])
    requires CreatePipelineApprovalGate(hash, leaks, id, runId, first, revisionHash, actor, requestedAt, ttlMinutes).Ok?
    requires input.verdict == Approve && input.actor != []
    ensures
      var gate := CreatePipelineApprovalGate(hash, leaks, id, runId, first, revisionHash, actor, requestedAt,
          ttlMinutes).value;
      DecidePipelineApprovalGate(AfterChanges(hash, leaks, gate, chain), input, now).Ok? <==>
        && ShowsSamePayload(first, chain, leaks)
        && input.payloadHash == HashApprovalPayload(hash, Payload(first))
        && input.revisionHash == revisionHash
        && !After(input.timestamp.GetOr(now), At(requestedAt.ms + ttlMinutes * MINUTE_MS))
  {
    var gate := CreatePipelineApprovalGate(hash, leaks, id, runId, first, revisionHash, actor, requestedAt,
        ttlMinutes).value;
    GateCreated(hash, leaks, id, runId, first, revisionHash, actor, requestedAt, ttlMinutes);
    ApproveChangedGate(hash, leaks, gate, first, chain, input, now);
  }
}
