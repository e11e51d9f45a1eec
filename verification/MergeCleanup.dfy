/**
 From acceptance to the cleanup plan: Gate F (manual merge verification over a commit graph), completion, and the
 retention clock.
 */
module MergeCleanup {
  import opened Wrappers
  import opened Clock
  import opened StateMachine

  type CommitId = string
  type Branch = string
  type RunId = string
  type Path = string

  // ---------- the commit graph ----------

  /** Each commit with its parents. */
  type Dag = map<CommitId, set<CommitId>>

  ghost predicate ReachesIn(dag: Dag, from: CommitId, to: CommitId, steps: nat)
    decreases steps
  {
    from == to || (steps > 0 && from in dag && exists p :: p in dag[from] && ReachesIn(dag, p, to, steps - 1))
  }

  ghost predicate Reaches(dag: Dag, from: CommitId, to: CommitId) {
    exists steps: nat :: ReachesIn(dag, from, to, steps)
  }

  lemma {:induction false} ReachesTransitive(dag: Dag, a: CommitId, b: CommitId, c: CommitId, n: nat, m: nat)
    requires ReachesIn(dag, a, b, n) && ReachesIn(dag, b, c, m)
    ensures ReachesIn(dag, a, c, n + m)
    decreases n
  {
    if a == b {
      ReachesLonger(dag, a, c, m, n + m);
    } else {
      var p :| p in dag[a] && ReachesIn(dag, p, b, n - 1);
      ReachesTransitive(dag, p, b, c, n - 1, m);
    }
  }

  lemma {:induction false} ReachesLonger(dag: Dag, a: CommitId, b: CommitId, n: nat, m: nat)
    requires ReachesIn(dag, a, b, n) && n <= m
    ensures ReachesIn(dag, a, b, m)
    decreases n
  {
    if a != b {
      var p :| p in dag[a] && ReachesIn(dag, p, b, n - 1);
      ReachesLonger(dag, p, b, n - 1, m - 1);
    }
  }

  /** Commits are never changed, only added. */
  ghost predicate Grows(before: Dag, after: Dag) {
    forall c :: c in before ==> c in after && after[c] == before[c]
  }

  lemma {:induction false} ReachesInGrows(before: Dag, after: Dag, a: CommitId, b: CommitId, n: nat)
    requires Grows(before, after) && ReachesIn(before, a, b, n)
    ensures ReachesIn(after, a, b, n)
    decreases n
  {
    if a != b {
      var p :| p in before[a] && ReachesIn(before, p, b, n - 1);
      ReachesInGrows(before, after, p, b, n - 1);
    }
  }

  ghost predicate Closed(dag: Dag) {
    forall c, p :: c in dag && p in dag[c] ==> p in dag
  }

  lemma {:induction false} ReachesInOld(before: Dag, after: Dag, a: CommitId, b: CommitId, n: nat)
    requires Grows(before, after) && Closed(before) && a in before && ReachesIn(after, a, b, n)
    ensures ReachesIn(before, a, b, n)
    decreases n
  {
    if a != b {
      var p :| p in after[a] && ReachesIn(after, p, b, n - 1);
      ReachesInOld(before, after, p, b, n - 1);
    }
  }

  /** New commits do not change what an old one reaches. */
  lemma ReachesUnchanged(before: Dag, after: Dag, a: CommitId, b: CommitId)
    requires Grows(before, after) && Closed(before) && a in before
    ensures Reaches(before, a, b) <==> Reaches(after, a, b)
  {
    if n: nat :| ReachesIn(before, a, b, n) { ReachesInGrows(before, after, a, b, n); }
    if n: nat :| ReachesIn(after, a, b, n) { ReachesInOld(before, after, a, b, n); }
  }

  /** Whatever is reachable from `to` is reachable from anything that reaches `to`. */
  ghost predicate Contains(dag: Dag, target: CommitId, head: CommitId) {
    forall c :: Reaches(dag, head, c) ==> Reaches(dag, target, c)
  }

  lemma ReachesContains(dag: Dag, target: CommitId, head: CommitId)
    ensures Reaches(dag, target, head) <==> Contains(dag, target, head)
  {
    if Reaches(dag, target, head) {
      var n: nat :| ReachesIn(dag, target, head, n);
      forall c | Reaches(dag, head, c) ensures Reaches(dag, target, c) {
        var m: nat :| ReachesIn(dag, head, c, m);
        ReachesTransitive(dag, target, head, c, n, m);
      }
    }
    if Contains(dag, target, head) {
      assert ReachesIn(dag, head, head, 0);
    }
  }

  // ---------- Gate F ----------

  datatype FailureReason =
    Conflict | Drift | TestFailure | MissingTargetCommit | ContainmentFailed | PatchEquivalenceFailed

  /** The answer to the ancestry command; its exit status does not tell a refusal from a failure. */
  datatype Ancestry = IsAncestor | NotAncestor | AncestryFailed

  /** What the Git and test commands answered; a command may fail for reasons of its own. */
  datatype GitAnswers = GitAnswers(
    repositoryExists: bool, targetHead: Option<CommitId>, mergeBaseFound: bool, ancestry: Ancestry,
    patchHash: Option<string>, testsPassed: bool)

  /** A verified result names the run of its gate and the branch that was verified. */
  datatype GateFResult =
    | NeedsMergeAttention(reason: FailureReason)
    | Verified(
        runId: RunId, runBranch: Branch, targetCommit: CommitId, verifiedAt: Instant, containmentVerified: bool,
        patchEquivalent: bool)

  /**
   `runId` is that of the gate; the caller may override the branch of the gate by `runBranch`. `expectedPatchHash`
   empty means none was supplied; `targetCommit` likewise.
   */
  function VerifyManualMerge(git: GitAnswers, runId: RunId, runBranch: Branch, targetCommit: CommitId,
      expectedPatchHash: string, now: Instant): GateFResult {
    if !git.repositoryExists then NeedsMergeAttention(Drift)
    else if targetCommit == "" then NeedsMergeAttention(MissingTargetCommit)
    else if git.targetHead != Some(targetCommit) then NeedsMergeAttention(Drift)
    else if !git.mergeBaseFound then NeedsMergeAttention(Conflict)
    else
      var equivalent := expectedPatchHash != "" && git.patchHash == Some(expectedPatchHash);
      var mismatch := expectedPatchHash != "" && git.patchHash.Some? && !equivalent;
      if git.ancestry != IsAncestor && !equivalent
        then NeedsMergeAttention(if mismatch then PatchEquivalenceFailed else ContainmentFailed)
      else if !git.testsPassed then NeedsMergeAttention(TestFailure)
      else Verified(runId, runBranch, targetCommit, now, git.ancestry == IsAncestor, equivalent)
  }

  // ---------- runs ----------

  datatype Run = Run(
    runId: RunId, state: RunState, keep: bool, branchName: Branch, worktreePath: Path,
    acceptedAt: Option<Instant>, completedAt: Option<Instant>, mergeVerifiedAt: Option<Instant>,
    terminalAt: Option<Instant>, updatedAt: Option<Instant>, targetCommit: CommitId)

  datatype CompletionError = MissingRun | NotAccepted | GateFRequired | TransitionRefused

  const COMPLETED_RETENTION_DAYS := 7
  const TERMINAL_RETENTION_DAYS := 30

  function CompletionContext(run: Run, result: GateFResult): Context
    requires result.Verified?
  {
    Context(
      map[TargetContainsChange := result.containmentVerified || result.patchEquivalent, NoConflict := true,
          HasAcceptedAt := run.acceptedAt.Some?, HasMergeVerifiedAt := true,
          HasTargetCommit := result.targetCommit != ""],
      0, 0, StatusOther)
  }

  /** Whose merge the result verified is not looked at; `completedAt` defaults to the time of verification. */
  function CompleteRunAfterGateF(run: Run, result: GateFResult,
      completedAt: Option<Instant>): Result<Run, CompletionError> {
    if run.runId == "" then Err(MissingRun)
    else if run.state != Accepted then Err(NotAccepted)
    else if !result.Verified? || result.targetCommit == "" then Err(GateFRequired)
    else match ApplyRunTransition(Accepted, VerifyMergeSuccess, CompletionContext(run, result))
      case Err(_) => Err(TransitionRefused)
      case Ok(next) =>
        Ok(run.(state := next, completedAt := Some(completedAt.GetOr(result.verifiedAt)),
                mergeVerifiedAt := Some(result.verifiedAt), targetCommit := result.targetCommit))
  }

  /** A run completes exactly when it is accepted and its merge was verified, by ancestry or by an equal patch. */
  lemma CompletesIff(run: Run, result: GateFResult, completedAt: Option<Instant>)
    ensures CompleteRunAfterGateF(run, result, completedAt).Ok? <==>
      && run.runId != "" && run.state == Accepted && run.acceptedAt.Some? && result.Verified?
      && result.targetCommit != ""
      && (result.containmentVerified || result.patchEquivalent)
    ensures CompleteRunAfterGateF(run, result, completedAt).Ok? ==>
      CompleteRunAfterGateF(run, result, completedAt).value == CompletedRun(run, result, completedAt)
  {
  }

  function CompletedRun(run: Run, result: GateFResult, completedAt: Option<Instant>): Run
    requires result.Verified?
  {
    run.(state := Completed, completedAt := Some(completedAt.GetOr(result.verifiedAt)),
         mergeVerifiedAt := Some(result.verifiedAt), targetCommit := result.targetCommit)
  }

  // ---------- the retention clock ----------

  datatype RetentionTrigger = NotStarted | Started(startedAt: Instant, cleanupEligibleAt: int)

  datatype TriggerError = MissingMetadata | InvalidDate

  function CreateRetentionTrigger(run: Run): Result<RetentionTrigger, TriggerError> {
    if run.state != Completed then Ok(NotStarted)
    else if run.completedAt.None? || run.mergeVerifiedAt.None? || run.targetCommit == "" then Err(MissingMetadata)
    else if run.completedAt.value.Unreadable? then Err(InvalidDate)
    else Ok(Started(run.completedAt.value, run.completedAt.value.ms + COMPLETED_RETENTION_DAYS * DAY_MS))
  }

  datatype Reason =
    | KeepEnabled | AcceptedAwaitingMerge | RunOpen | StateNotCleanable | MissingRetentionStart | RetentionWindowActive
    | MergeNotVerified

  datatype Plan = Plan(
    runId: RunId, state: RunState, eligible: bool, reasons: seq<Reason>, branchName: Branch, worktreePath: Path,
    removeWorktree: bool, deleteBranch: bool)

  predicate Terminal(s: RunState) { s.Failed? || s.Cancelled? || s.NeedsAttention? }

  predicate OpenForCleanup(s: RunState) { IsOpenRunState(s) && !s.Accepted? && !s.NeedsAttention? }

  function RetentionDays(s: RunState): Option<int> {
    if s == Completed then Some(COMPLETED_RETENTION_DAYS)
    else if Terminal(s) then Some(TERMINAL_RETENTION_DAYS)
    else None
  }

  function RetentionStart(run: Run): Option<Instant> {
    if run.state == Completed then run.completedAt.OrElse(run.mergeVerifiedAt)
    else if Terminal(run.state) then run.terminalAt.OrElse(run.updatedAt.OrElse(run.completedAt))
    else None
  }

  /** The window comparison; with an unreadable date on either side it is false, so the window counts as over. */
  predicate WindowActive(start: Instant, now: Instant, days: int) {
    start.At? && now.At? && now.ms - start.ms < days * DAY_MS
  }

  predicate MergeVerified(run: Run) { run.mergeVerifiedAt.Some? && run.targetCommit != "" }

  predicate Eligible(run: Run, now: Instant) {
    && !run.keep && RetentionDays(run.state).Some? && RetentionStart(run).Some?
    && !WindowActive(RetentionStart(run).value, now, RetentionDays(run.state).value)
    && (run.state == Completed ==> MergeVerified(run))
  }

  function PlanFor(run: Run, now: Instant, reasons: seq<Reason>): Plan {
    var eligible := Eligible(run, now);
    Plan(run.runId, run.state, eligible, reasons, run.branchName, run.worktreePath,
         eligible && run.worktreePath != "", eligible && run.state == Completed && MergeVerified(run)
           && run.branchName != "")
  }

  /** The plan is eligible exactly when no reason against it was collected, and every reason collected applies. */
  method CreateWorkspaceCleanupPlan(run: Run, now: Instant) returns (plan: Plan)
    ensures plan == PlanFor(run, now, plan.reasons)
    ensures plan.eligible <==> plan.reasons == []
    ensures KeepEnabled in plan.reasons <==> run.keep
    ensures AcceptedAwaitingMerge in plan.reasons <==> run.state == Accepted
    ensures RunOpen in plan.reasons <==> OpenForCleanup(run.state)
    ensures StateNotCleanable in plan.reasons <==> run.state != Completed && !Terminal(run.state)
    ensures MissingRetentionStart in plan.reasons <==> RetentionDays(run.state).Some? && RetentionStart(run).None?
    ensures RetentionWindowActive in plan.reasons <==>
      RetentionDays(run.state).Some? && RetentionStart(run).Some?
      && WindowActive(RetentionStart(run).value, now, RetentionDays(run.state).value)
    ensures MergeNotVerified in plan.reasons <==> run.state == Completed && !MergeVerified(run)
  {
    var reasons: seq<Reason> := [];
    if run.keep { reasons := reasons + [KeepEnabled]; }
    if run.state == Accepted { reasons := reasons + [AcceptedAwaitingMerge]; }
    if OpenForCleanup(run.state) { reasons := reasons + [RunOpen]; }
    var days := RetentionDays(run.state);
    if days.None? { reasons := reasons + [StateNotCleanable]; }
    assert reasons == [] <==> !run.keep && days.Some?;
    var start := RetentionStart(run);
    if days.Some? && start.None? { reasons := reasons + [MissingRetentionStart]; }
    if days.Some? && start.Some? && WindowActive(start.value, now, days.value) {
      reasons := reasons + [RetentionWindowActive];
    }
    if run.state == Completed && !MergeVerified(run) { reasons := reasons + [MergeNotVerified]; }
    assert reasons == [] <==> Eligible(run, now);
    var eligible := reasons == [];
    plan := Plan(
      run.runId, run.state, eligible, reasons, run.branchName, run.worktreePath,
      eligible && run.worktreePath != "", eligible && run.state == Completed && MergeVerified(run)
        && run.branchName != "");
  }

  /** The trigger's clock and the plan's clock agree: a completed run leaves its window at the announced time. */
  lemma TriggerAgreesWithPlan(run: Run, now: Instant)
    requires CreateRetentionTrigger(run).Ok? && run.state == Completed && now.At? && !run.keep
    ensures Eligible(run, now) <==> CreateRetentionTrigger(run).value.cleanupEligibleAt <= now.ms
  {
  }

  /** With an unreadable completion date the window never holds the cleanup back. */
  lemma UnreadableDateIsEligible(run: Run, now: Instant)
    requires run.state == Completed && run.completedAt == Some(Unreadable) && !run.keep && MergeVerified(run)
    ensures Eligible(run, now)
  {
  }
}
