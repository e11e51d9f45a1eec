/** The run and step state machines: guarded transition tables, and what holds of every accepted trace. */
module StateMachine {
  import opened Wrappers

  datatype RunState =
    | Draft | PreflightRunning | Blocked | Ready | AwaitingPipelineApproval | PreparingWorkspace | Running
    | AwaitingApproval | Unresponsive | RecoveryRequired | AwaitingAcceptance | Accepted | NeedsAttention
    | Failed | Cancelled | Completed | MaintenanceHold

  datatype RunEvent =
    | StartPreflight | CriticalCheckFailed | ChecksPassed | PresentPipeline | Approve | Edit | WorktreeReady | Failure
    | SensitiveActionRequested | RejectEssential | RejectOptional | HeartbeatMissing | Reconnected | NoRecovery | Crash
    | ResumeApproved | ReplaceApproved | Stop | PipelineSuccess | UnrecoverableFailure | ReviewFailedCorrection
    | ReviewFailedExhausted | CriticalFinding | Accept | RequestChanges | VerifyMergeSuccess | MergeVerificationFailed
    | Retry | ReplaceAgent | ControlledStop | ServiceShutdown

  /** The boolean (or merely present) facts a guard may look at. */
  datatype Fact =
    | RequiredFieldsComplete | ProjectPathExists | RecommendationComplete | ContextComplete | ManifestComplete
    | ApprovalMatchesRevision | WarningsApproved | GitReady | AclReady | LockAcquired | BaseCommitValid
    | SafeWorkspace | ValidGrant | ApprovalValid | PreflightValid | ActionEssential | ActiveAttempt | SessionVerified
    | AutomaticRetryUsed | AttemptUncertain | CheckpointValid | ExternalEffectsVerified
    | ReplacementAdapterPreflightPassed | CheckpointSaved | PipelineSuccessCriteriaMet | RetryAllowed
    | HasCriticalFinding | DiffPresented | TestsPresented | ReviewPresented | ReasonSaved | TargetContainsChange
    | NoConflict | HasAcceptedAt | HasMergeVerifiedAt | HasTargetCommit | MergeFailed | ReplacementAdapterQualified
    | UserConfirmed | TransactionOpen | ChildProcessesClosed | DependenciesReady | AssignedAdapterReady | ExitOk
    | AcceptanceChecksPassed | Unrecoverable | SkipApproved

  datatype PreflightStatus = StatusReady | StatusReadyWithWarnings | StatusOther

  /** A guard context; a fact it does not mention is `undefined`. */
  datatype Context = Context(facts: map<Fact, bool>, blockedChecks: int, correctionCycle: int,
      preflightStatus: PreflightStatus)
  {
    predicate Is(f: Fact) { f in facts && facts[f] }

    predicate IsNot(f: Fact) { f in facts && !facts[f] }
  }

  /** The target of the transition for a state and an event, and whether its guard holds. */
  function RunTransition(state: RunState, event: RunEvent, c: Context): Option<(RunState, bool)> {
    match (state, event)
    case (Draft, StartPreflight) => Some((PreflightRunning, c.Is(RequiredFieldsComplete) && c.Is(ProjectPathExists)))
    case (PreflightRunning, CriticalCheckFailed) => Some((Blocked, c.blockedChecks > 0))
    case (PreflightRunning, ChecksPassed) => Some((Ready, c.preflightStatus != StatusOther))
    case (Ready, PresentPipeline) =>
      Some((AwaitingPipelineApproval, c.Is(RecommendationComplete) && c.Is(ContextComplete) && c.Is(ManifestComplete)))
    case (AwaitingPipelineApproval, Approve) =>
      Some((PreparingWorkspace, c.Is(ApprovalMatchesRevision) && c.Is(WarningsApproved)))
    case (AwaitingPipelineApproval, Edit) => Some((Draft, true))
    case (PreparingWorkspace, WorktreeReady) =>
      Some((Running, c.Is(GitReady) && c.Is(AclReady) && c.Is(LockAcquired) && c.Is(BaseCommitValid)))
    case (PreparingWorkspace, Failure) => Some((NeedsAttention, c.IsNot(SafeWorkspace)))
    case (Running, SensitiveActionRequested) => Some((AwaitingApproval, !c.Is(ValidGrant)))
    case (AwaitingApproval, Approve) => Some((Running, c.Is(ApprovalValid) && !c.IsNot(PreflightValid)))
    case (AwaitingApproval, RejectEssential) => Some((NeedsAttention, c.Is(ActionEssential)))
    case (AwaitingApproval, RejectOptional) => Some((Running, c.IsNot(ActionEssential)))
    case (Running, HeartbeatMissing) => Some((Unresponsive, c.Is(ActiveAttempt)))
    case (Unresponsive, Reconnected) => Some((Running, c.Is(SessionVerified)))
    case (Unresponsive, NoRecovery) => Some((NeedsAttention, c.Is(AutomaticRetryUsed)))
    case (Unresponsive, Crash) => Some((RecoveryRequired, c.Is(AttemptUncertain)))
    case (RecoveryRequired, ResumeApproved) => Some((Running, c.Is(CheckpointValid) && c.Is(ExternalEffectsVerified)))
    case (RecoveryRequired, ReplaceApproved) => Some((Running, c.Is(ReplacementAdapterPreflightPassed)))
    case (RecoveryRequired, Stop) => Some((Cancelled, c.Is(CheckpointSaved)))
    case (Running, PipelineSuccess) => Some((AwaitingAcceptance, c.Is(PipelineSuccessCriteriaMet)))
    case (Running, UnrecoverableFailure) => Some((Failed, c.IsNot(RetryAllowed)))
    case (Running, ReviewFailedCorrection) => Some((Running, c.correctionCycle < 2 && !c.Is(HasCriticalFinding)))
    case (Running, ReviewFailedExhausted) => Some((NeedsAttention, c.correctionCycle >= 2))
    case (Running, CriticalFinding) => Some((AwaitingApproval, c.Is(HasCriticalFinding)))
    case (AwaitingAcceptance, Accept) =>
      Some((Accepted, c.Is(DiffPresented) && c.Is(TestsPresented) && c.Is(ReviewPresented)))
    case (AwaitingAcceptance, RequestChanges) => Some((NeedsAttention, c.Is(ReasonSaved)))
    case (Accepted, VerifyMergeSuccess) => Some((Completed, MergeGuard(c)))
    case (Accepted, MergeVerificationFailed) => Some((NeedsAttention, c.Is(MergeFailed)))
    case (NeedsAttention, Retry) => Some((Running, c.Is(ApprovalValid) && c.Is(PreflightValid)))
    case (NeedsAttention, ReplaceAgent) => Some((Running, c.Is(ReplacementAdapterQualified)))
    case (NeedsAttention, Stop) => Some((Cancelled, c.Is(UserConfirmed)))
    case _ => None
  }

  predicate MergeGuard(c: Context) {
    c.Is(TargetContainsChange) && c.Is(NoConflict) && c.Is(HasAcceptedAt) && c.Is(HasMergeVerifiedAt)
      && c.Is(HasTargetCommit)
  }

  datatype TransitionError = NoTransition | GuardFailed

  predicate IsRunFinal(s: RunState) { s.Failed? || s.Cancelled? || s.Completed? }

  predicate IsOpenRunState(s: RunState) { !IsRunFinal(s) }

  predicate IsActiveRunState(s: RunState) {
    s.PreflightRunning? || s.PreparingWorkspace? || s.Running? || s.AwaitingApproval? || s.Unresponsive? ||
    s.RecoveryRequired? || s.NeedsAttention? || s.MaintenanceHold?
  }

  function Guarded(target: RunState, guard: bool): Result<RunState, TransitionError> {
    if guard then Ok(target) else Err(GuardFailed)
  }

  function ApplyRunTransition(state: RunState, event: RunEvent, c: Context): Result<RunState, TransitionError> {
    if IsOpenRunState(state) && event == ControlledStop then Guarded(Cancelled, !c.Is(TransactionOpen))
    else if IsActiveRunState(state) && event == ServiceShutdown then
      Guarded(RecoveryRequired, c.Is(CheckpointSaved) && c.Is(ChildProcessesClosed))
    else match RunTransition(state, event, c)
      case None => Err(NoTransition)
      case Some((target, guard)) => Guarded(target, guard)
  }

  // ---------- runs: unbounded traces of accepted events ----------

  datatype Taken = Taken(event: RunEvent, context: Context)

  predicate Steps(state: RunState, taken: Taken, next: RunState) {
    ApplyRunTransition(state, taken.event, taken.context) == Ok(next)
  }

  /** `trace` is accepted from Draft and passes through `states`. */
  ghost predicate IsRun(states: seq<RunState>, trace: seq<Taken>) {
    && |states| == |trace| + 1 && states[0] == Draft
    && forall i :: 0 <= i < |trace| ==> Steps(states[i], trace[i], states[i + 1])
  }

  /** Event `event` was taken in `state`, among the first `n`. */
  ghost predicate Took(states: seq<RunState>, trace: seq<Taken>, n: nat, state: RunState, event: RunEvent) {
    exists i :: 0 <= i < n && i < |trace| && i < |states| && states[i] == state && trace[i].event == event
  }

  /** Final states admit no event, and every other state can be stopped unless a transaction is open. */
  lemma FinalIffStuck(state: RunState)
    ensures IsRunFinal(state) <==> forall event, c :: ApplyRunTransition(state, event, c).Err?
  {
    if !IsRunFinal(state) {
      assert ApplyRunTransition(state, ControlledStop, Context(map[], 0, 0, StatusOther)).Ok?;
    }
  }

  /** No run ever reaches Maintenance Hold. */
  lemma {:induction false} MaintenanceHoldUnreachable(states: seq<RunState>, trace: seq<Taken>, n: nat)
    requires IsRun(states, trace) && n < |states|
    ensures states[n] != MaintenanceHold
  {
    if n > 0 {
      MaintenanceHoldUnreachable(states, trace, n - 1);
      assert Steps(states[n - 1], trace[n - 1], states[n]);
    }
  }

  /** The one transition into each of the last three states of a completed run. */
  lemma OnlyWayToCompleted(state: RunState, taken: Taken)
    requires Steps(state, taken, Completed)
    ensures state == Accepted && taken.event == VerifyMergeSuccess && MergeGuard(taken.context)
  {
  }

  lemma OnlyWayToAccepted(state: RunState, taken: Taken)
    requires Steps(state, taken, Accepted)
    ensures state == AwaitingAcceptance && taken.event == Accept
    ensures taken.context.Is(DiffPresented) && taken.context.Is(TestsPresented) && taken.context.Is(ReviewPresented)
  {
  }

  lemma OnlyWayToAwaitingAcceptance(state: RunState, taken: Taken)
    requires Steps(state, taken, AwaitingAcceptance)
    ensures state == Running && taken.event == PipelineSuccess && taken.context.Is(PipelineSuccessCriteriaMet)
  {
  }

  /**
   A run is completed only by its last three events: pipeline success, acceptance, verified merge, each with its guard.
   */
  lemma CompletedEndsWith(states: seq<RunState>, trace: seq<Taken>)
    requires IsRun(states, trace) && states[|trace|] == Completed
    ensures
      var n := |trace|;
      && n >= 3 && states[n - 3] == Running
      && trace[n - 3].event == PipelineSuccess && trace[n - 3].context.Is(PipelineSuccessCriteriaMet)
      && trace[n - 2].event == Accept && trace[n - 2].context.Is(DiffPresented)
      && trace[n - 2].context.Is(TestsPresented) && trace[n - 2].context.Is(ReviewPresented)
      && trace[n - 1].event == VerifyMergeSuccess && MergeGuard(trace[n - 1].context)
  {
    var n := |trace|;
    OnlyWayToCompleted(states[n - 1], trace[n - 1]);
    OnlyWayToAccepted(states[n - 2], trace[n - 2]);
    OnlyWayToAwaitingAcceptance(states[n - 3], trace[n - 3]);
  }

  /** The states a run can be in before its pipeline is approved, unless it was shut down during preflight. */
  predicate BeforeApproval(s: RunState) {
    s.Draft? || s.PreflightRunning? || s.Blocked? || s.Ready? || s.AwaitingPipelineApproval? || s.Cancelled?
  }

  lemma LeavesBeforeApproval(state: RunState, taken: Taken, next: RunState)
    requires Steps(state, taken, next) && BeforeApproval(state) && !BeforeApproval(next)
    ensures
      || (state == AwaitingPipelineApproval && taken.event == Approve
          && taken.context.Is(ApprovalMatchesRevision) && taken.context.Is(WarningsApproved))
      || (state == PreflightRunning && taken.event == ServiceShutdown)
  {
  }

  /** A Gate A approval taken among the first `n` events, with its guard true. */
  ghost predicate Approved(states: seq<RunState>, trace: seq<Taken>, n: nat) {
    exists i :: 0 <= i < n && i < |trace| && i < |states| && states[i] == AwaitingPipelineApproval
      && trace[i].event == Approve
             && trace[i].context.Is(ApprovalMatchesRevision) && trace[i].context.Is(WarningsApproved)
  }

  /** No transition leads back before the approval, except into the final state Cancelled. */
  lemma StaysPastApproval(state: RunState, taken: Taken, next: RunState)
    requires Steps(state, taken, next) && !BeforeApproval(state)
    ensures !BeforeApproval(next) || next == Cancelled
  {
  }

  lemma {:induction false} PastApprovalForGood(states: seq<RunState>, trace: seq<Taken>, i: nat, n: nat)
    requires IsRun(states, trace) && i <= n < |states| && !BeforeApproval(states[i])
    ensures !BeforeApproval(states[n]) || states[n] == Cancelled
    decreases n
  {
    if i < n {
      PastApprovalForGood(states, trace, i, n - 1);
      assert Steps(states[n - 1], trace[n - 1], states[n]);
      if !BeforeApproval(states[n - 1]) { StaysPastApproval(states[n - 1], trace[n - 1], states[n]); }
    }
  }

  lemma ApprovalLeaves(states: seq<RunState>, trace: seq<Taken>, i: nat)
    requires IsRun(states, trace) && i < |trace|
    requires (states[i] == AwaitingPipelineApproval && trace[i].event == Approve)
      || (states[i] == PreflightRunning && trace[i].event == ServiceShutdown)
    ensures !BeforeApproval(states[i + 1])
  {
    assert Steps(states[i], trace[i], states[i + 1]);
  }

  /** After either way out, neither of the two source states is entered again. */
  lemma SameWayOut(states: seq<RunState>, trace: seq<Taken>, i: nat, j: nat)
    requires IsRun(states, trace) && i < |trace| && j < |trace|
    requires states[i] == AwaitingPipelineApproval && trace[i].event == Approve && trace[j].event == ServiceShutdown
    ensures states[j] != PreflightRunning
  {
    if states[j] == PreflightRunning {
      ApprovalLeaves(states, trace, i);
      ApprovalLeaves(states, trace, j);
      if i < j { PastApprovalForGood(states, trace, i + 1, j); } else { PastApprovalForGood(states, trace, j + 1, i); }
    }
  }

  /** A run cannot take both ways past the approval. */
  lemma OneWayPastApproval(states: seq<RunState>, trace: seq<Taken>, n: nat)
    requires IsRun(states, trace) && n < |states|
    ensures Approved(states, trace, n) ==> !Took(states, trace, n, PreflightRunning, ServiceShutdown)
  {
    forall i, j | 0 <= i < n && 0 <= j < n && states[i] == AwaitingPipelineApproval && trace[i].event == Approve
      ensures !(states[j] == PreflightRunning && trace[j].event == ServiceShutdown)
    {
      if trace[j].event == ServiceShutdown { SameWayOut(states, trace, i, j); }
    }
  }

  lemma {:induction false} SomeWayPastApproval(states: seq<RunState>, trace: seq<Taken>, n: nat)
    requires IsRun(states, trace) && n < |states| && !BeforeApproval(states[n])
    ensures Approved(states, trace, n) || Took(states, trace, n, PreflightRunning, ServiceShutdown)
  {
    assert n > 0;
    assert Steps(states[n - 1], trace[n - 1], states[n]);
    if BeforeApproval(states[n - 1]) {
      LeavesBeforeApproval(states[n - 1], trace[n - 1], states[n]);
    } else {
      SomeWayPastApproval(states, trace, n - 1);
    }
  }

  /**
   A run past the approval states took Gate A, with its guard true, exactly when it was not shut down during preflight.
   */
  lemma PastApproval(states: seq<RunState>, trace: seq<Taken>, n: nat)
    requires IsRun(states, trace) && n < |states| && !BeforeApproval(states[n])
    ensures Approved(states, trace, n) <==> !Took(states, trace, n, PreflightRunning, ServiceShutdown)
  {
    SomeWayPastApproval(states, trace, n);
    OneWayPastApproval(states, trace, n);
  }

  /** The exact condition under which a running run was approved. */
  lemma RunningMeansApproved(states: seq<RunState>, trace: seq<Taken>, n: nat)
    requires IsRun(states, trace) && n < |states| && states[n] == Running
    ensures Approved(states, trace, n) <==> !Took(states, trace, n, PreflightRunning, ServiceShutdown)
  {
    PastApproval(states, trace, n);
  }

  predicate BeforeWorkspace(s: RunState) { BeforeApproval(s) || s.PreparingWorkspace? }

  /** The guard of the transition out of Preparing Workspace into Running. */
  predicate WorkspaceGuard(c: Context) {
    c.Is(GitReady) && c.Is(AclReady) && c.Is(LockAcquired) && c.Is(BaseCommitValid)
  }

  datatype WorkspaceExit = ReadyExit | FailureExit | ShutdownExit | PreflightShutdownExit

  /** The step at `i` is the given way out of the states before the workspace. */
  ghost predicate ExitsBy(states: seq<RunState>, trace: seq<Taken>, i: nat, exit: WorkspaceExit)
    requires i < |trace| && i < |states|
  {
    match exit
    case ReadyExit =>
      states[i] == PreparingWorkspace && trace[i].event == WorktreeReady && WorkspaceGuard(trace[i].context)
    case FailureExit => states[i] == PreparingWorkspace && trace[i].event == Failure
    case ShutdownExit => states[i] == PreparingWorkspace && trace[i].event == ServiceShutdown
    case PreflightShutdownExit => states[i] == PreflightRunning && trace[i].event == ServiceShutdown
  }

  lemma LeavesBeforeWorkspace(state: RunState, taken: Taken, next: RunState)
    requires Steps(state, taken, next) && BeforeWorkspace(state) && !BeforeWorkspace(next)
    ensures
      || (state == PreparingWorkspace && taken.event == WorktreeReady && WorkspaceGuard(taken.context))
      || (state == PreparingWorkspace && (taken.event == Failure || taken.event == ServiceShutdown))
      || (state == PreflightRunning && taken.event == ServiceShutdown)
  {
  }

  lemma StaysPastWorkspace(state: RunState, taken: Taken, next: RunState)
    requires Steps(state, taken, next) && !BeforeWorkspace(state)
    ensures !BeforeWorkspace(next) || next == Cancelled
  {
  }

  lemma ExitLeaves(states: seq<RunState>, trace: seq<Taken>, i: nat, exit: WorkspaceExit)
    requires IsRun(states, trace) && i < |trace| && ExitsBy(states, trace, i, exit)
    ensures !BeforeWorkspace(states[i + 1])
  {
    assert Steps(states[i], trace[i], states[i + 1]);
  }

  lemma {:induction false} PastWorkspaceForGood(states: seq<RunState>, trace: seq<Taken>, i: nat, n: nat)
    requires IsRun(states, trace) && i <= n < |states| && !BeforeWorkspace(states[i])
    ensures !BeforeWorkspace(states[n]) || states[n] == Cancelled
    decreases n
  {
    if i < n {
      PastWorkspaceForGood(states, trace, i, n - 1);
      assert Steps(states[n - 1], trace[n - 1], states[n]);
      if !BeforeWorkspace(states[n - 1]) { StaysPastWorkspace(states[n - 1], trace[n - 1], states[n]); }
    }
  }

  lemma ExitAt(states: seq<RunState>, trace: seq<Taken>, i: nat) returns (exit: WorkspaceExit)
    requires IsRun(states, trace) && i < |trace| && BeforeWorkspace(states[i]) && !BeforeWorkspace(states[i + 1])
    ensures ExitsBy(states, trace, i, exit)
  {
    LeavesBeforeWorkspace(states[i], trace[i], states[i + 1]);
    exit := if trace[i].event == WorktreeReady then ReadyExit
      else if trace[i].event == Failure then FailureExit
      else if states[i] == PreparingWorkspace then ShutdownExit else PreflightShutdownExit;
  }

  lemma {:induction false} SomeExit(states: seq<RunState>, trace: seq<Taken>, n: nat)
    returns (i: nat, exit: WorkspaceExit)
    requires IsRun(states, trace) && n < |states| && !BeforeWorkspace(states[n])
    ensures i < n && ExitsBy(states, trace, i, exit)
  {
    assert n > 0;
    if BeforeWorkspace(states[n - 1]) {
      i := n - 1;
      exit := ExitAt(states, trace, i);
    } else {
      i, exit := SomeExit(states, trace, n - 1);
    }
  }

  lemma ExitIsUnique(
    states: seq<RunState>, trace: seq<Taken>, i: nat, exit: WorkspaceExit, j: nat, other: WorkspaceExit)
    requires IsRun(states, trace) && i < |trace| && j < |trace|
    requires ExitsBy(states, trace, i, exit) && ExitsBy(states, trace, j, other)
    ensures i == j && exit == other
  {
    if i < j {
      ExitLeaves(states, trace, i, exit);
      PastWorkspaceForGood(states, trace, i + 1, j);
    } else if j < i {
      ExitLeaves(states, trace, j, other);
      PastWorkspaceForGood(states, trace, j + 1, i);
    }
  }

  /**
   A run past its workspace left it exactly once and in exactly one of four ways: ready, with Git, access rights, lock
   and base commit all valid; by a failed preparation; by a shutdown; or by a shutdown during preflight. So the
   worktree guard held exactly when none of the other three was taken.
   */
  lemma PastWorkspaceMeansReady(states: seq<RunState>, trace: seq<Taken>, n: nat) returns (i: nat, exit: WorkspaceExit)
    requires IsRun(states, trace) && n < |states| && !BeforeWorkspace(states[n])
    ensures i < n && ExitsBy(states, trace, i, exit)
    ensures forall j, other :: 0 <= j < n && ExitsBy(states, trace, j, other) ==> j == i && other == exit
    ensures exit == ReadyExit <==>
      && !Took(states, trace, n, PreparingWorkspace, Failure)
      && !Took(states, trace, n, PreparingWorkspace, ServiceShutdown)
      && !Took(states, trace, n, PreflightRunning, ServiceShutdown)
  {
    i, exit := SomeExit(states, trace, n);
    forall j, other | 0 <= j < n && ExitsBy(states, trace, j, other) ensures j == i && other == exit {
      ExitIsUnique(states, trace, j, other, i, exit);
    }
    TookIsExit(states, trace, n, i, exit);
  }

  lemma TookIsExit(states: seq<RunState>, trace: seq<Taken>, n: nat, i: nat, exit: WorkspaceExit)
    requires IsRun(states, trace) && n < |states| && i < n && ExitsBy(states, trace, i, exit)
    requires forall j, other :: 0 <= j < n && ExitsBy(states, trace, j, other) ==> other == exit
    ensures Took(states, trace, n, PreparingWorkspace, Failure) <==> exit == FailureExit
    ensures Took(states, trace, n, PreparingWorkspace, ServiceShutdown) <==> exit == ShutdownExit
    ensures Took(states, trace, n, PreflightRunning, ServiceShutdown) <==> exit == PreflightShutdownExit
  {
    if Took(states, trace, n, PreparingWorkspace, Failure) {
      var j :| 0 <= j < n && states[j] == PreparingWorkspace && trace[j].event == Failure;
      assert ExitsBy(states, trace, j, FailureExit);
    }
    if Took(states, trace, n, PreparingWorkspace, ServiceShutdown) {
      var j :| 0 <= j < n && states[j] == PreparingWorkspace && trace[j].event == ServiceShutdown;
      assert ExitsBy(states, trace, j, ShutdownExit);
    }
    if Took(states, trace, n, PreflightRunning, ServiceShutdown) {
      var j :| 0 <= j < n && states[j] == PreflightRunning && trace[j].event == ServiceShutdown;
      assert ExitsBy(states, trace, j, PreflightShutdownExit);
    }
  }

  /**
   "Running implies approved" is false: a shutdown during preflight and an approved resume get there without Gate A.
   */
  lemma RunningWithoutApproval(start: Context, shutdown: Context, resume: Context)
    requires start.Is(RequiredFieldsComplete) && start.Is(ProjectPathExists)
    requires shutdown.Is(CheckpointSaved) && shutdown.Is(ChildProcessesClosed)
    requires resume.Is(CheckpointValid) && resume.Is(ExternalEffectsVerified)
    ensures IsRun(
      [Draft, PreflightRunning, RecoveryRequired, Running],
      [Taken(StartPreflight, start), Taken(ServiceShutdown, shutdown), Taken(ResumeApproved, resume)])
  {
    assert Steps(Draft, Taken(StartPreflight, start), PreflightRunning);
    assert Steps(PreflightRunning, Taken(ServiceShutdown, shutdown), RecoveryRequired);
    assert Steps(RecoveryRequired, Taken(ResumeApproved, resume), Running);
  }

  /** Nor does Running imply that the worktree guard ever held: once approved, a failed preparation may be retried. */
  lemma RunningWithoutWorktree(states: seq<RunState>, trace: seq<Taken>, failed: Context, retry: Context)
    requires IsRun(states, trace) && states[|trace|] == PreparingWorkspace
    requires failed.IsNot(SafeWorkspace) && retry.Is(ApprovalValid) && retry.Is(PreflightValid)
    ensures IsRun(states + [NeedsAttention, Running], trace + [Taken(Failure, failed), Taken(Retry, retry)])
  {
    assert Steps(PreparingWorkspace, Taken(Failure, failed), NeedsAttention);
    assert Steps(NeedsAttention, Taken(Retry, retry), Running);
    var states', trace' := states + [NeedsAttention, Running], trace + [Taken(Failure, failed), Taken(Retry, retry)];
    forall i | 0 <= i < |trace'| ensures Steps(states'[i], trace'[i], states'[i + 1]) {
      if i < |trace| { assert Steps(states[i], trace[i], states[i + 1]); }
    }
  }

  // ---------- steps ----------

  datatype StepState =
    StepPending | StepReady | StepRunning | StepAwaitingApproval | StepUnresponsive | StepRetrying
    | StepSucceeded | StepFailed | StepCancelled | StepSkipped

  datatype StepEvent =
    StepPrepare | StepStart | StepSensitive | StepApprove | StepRejectEssential | StepRejectOptional
    | StepHeartbeatMissing | StepRetry | StepRestarted | StepFail | StepDone | StepBroke | StepCancel | StepSkip

  function ApplyStepTransition(state: StepState, event: StepEvent, c: Context): Result<StepState, TransitionError> {
    match (state, event)
    case (StepPending, StepPrepare) => StepGuarded(StepReady, c.Is(DependenciesReady))
    case (StepReady, StepStart) => StepGuarded(StepRunning, c.Is(AssignedAdapterReady))
    case (StepRunning, StepSensitive) => StepGuarded(StepAwaitingApproval, !c.Is(ValidGrant))
    case (StepAwaitingApproval, StepApprove) => StepGuarded(StepRunning, c.Is(ApprovalValid))
    case (StepAwaitingApproval, StepRejectEssential) => StepGuarded(StepFailed, c.Is(ActionEssential))
    case (StepAwaitingApproval, StepRejectOptional) => StepGuarded(StepRunning, c.IsNot(ActionEssential))
    case (StepRunning, StepHeartbeatMissing) => StepGuarded(StepUnresponsive, c.Is(ActiveAttempt))
    case (StepUnresponsive, StepRetry) => StepGuarded(StepRetrying, c.Is(RetryAllowed))
    case (StepRetrying, StepRestarted) => StepGuarded(StepRunning, c.Is(ActiveAttempt))
    case (StepUnresponsive, StepFail) => StepGuarded(StepFailed, c.IsNot(RetryAllowed))
    case (StepRunning, StepDone) => StepGuarded(StepSucceeded, c.Is(ExitOk) && c.Is(AcceptanceChecksPassed))
    case (StepRunning, StepBroke) => StepGuarded(StepFailed, c.Is(Unrecoverable))
    case (StepRunning, StepCancel) => StepGuarded(StepCancelled, c.Is(CheckpointSaved))
    case (StepReady, StepSkip) => StepGuarded(StepSkipped, c.Is(SkipApproved))
    case _ => Err(NoTransition)
  }

  function StepGuarded(target: StepState, guard: bool): Result<StepState, TransitionError> {
    if guard then Ok(target) else Err(GuardFailed)
  }

  datatype StepTaken = StepTaken(event: StepEvent, context: Context)

  ghost predicate IsStepRun(states: seq<StepState>, trace: seq<StepTaken>) {
    && |states| == |trace| + 1 && states[0] == StepPending
    && forall i :: 0 <= i < |trace| ==>
         ApplyStepTransition(states[i], trace[i].event, trace[i].context) == Ok(states[i + 1])
  }

  /**
   Every step is prepared first, once its dependencies are ready. What comes next is either an approved skip, which ends
   it, or a start by a ready adapter, and a started step never goes back to waiting.
   */
  lemma {:induction false} StepStartsPrepared(states: seq<StepState>, trace: seq<StepTaken>, n: nat)
    requires IsStepRun(states, trace) && 0 < n < |states|
    ensures trace[0].event == StepPrepare && trace[0].context.Is(DependenciesReady) && states[1] == StepReady
    ensures n >= 2 ==>
      if trace[1].event == StepSkip then n == 2 && states[2] == StepSkipped && trace[1].context.Is(SkipApproved)
      else trace[1].event == StepStart && trace[1].context.Is(AssignedAdapterReady)
           && !states[n].StepPending? && !states[n].StepReady? && !states[n].StepSkipped?
  {
    assert ApplyStepTransition(states[n - 1], trace[n - 1].event, trace[n - 1].context) == Ok(states[n]);
    if n > 1 { StepStartsPrepared(states, trace, n - 1); }
  }
}
