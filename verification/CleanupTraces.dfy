/**
 Any interleaving of commits, Gate F verifications, completions, cleanup plans and their execution: what a deleted
 branch and a removed worktree may take with them.
 */
module CleanupTraces {
  import opened Wrappers
  import opened Clock
  import opened StateMachine
  import opened MergeCleanup

  /** A result of Gate F, with the head its branch had then and whether the ancestry command answered. */
  datatype Verification = Verification(result: GateFResult, head: Option<CommitId>, answered: bool)

  /**
   `completedWith` holds the result each completed run was completed with, `worktrees` the runs whose worktree is
   there, and `edits` the runs whose agents worked in their worktrees, in order.
   */
  datatype World = World(
    dag: Dag, refs: map<Branch, CommitId>, runs: map<RunId, Run>, verifications: set<Verification>,
    completedWith: map<RunId, GateFResult>, plans: set<Plan>, worktrees: set<RunId>, edits: seq<RunId>, now: int)

  datatype Step =
    | NewCommit(id: CommitId, parents: set<CommitId>)
    | MoveRef(branch: Branch, commit: CommitId)
    | Tick(now: int)
    | Transition(runId: RunId, taken: Taken, next: RunState)
    | Touch(runId: RunId, keep: bool, terminalAt: Option<Instant>, updatedAt: Option<Instant>)
    | Verify(
        runId: RunId, runBranch: Branch, targetBranch: Branch, git: GitAnswers, targetCommit: CommitId,
        expectedPatchHash: string)
    | Complete(runId: RunId, result: GateFResult, completedAt: Option<Instant>)
    | MakePlan(runId: RunId, reasons: seq<Reason>)
    | AddWorktree(runId: RunId)
    | EditWorktree(runId: RunId)
    | RemoveWorktree(plan: Plan)
    | DeleteBranch(plan: Plan)

  /** Git answers truthfully, and any of its commands may also fail for no reason. */
  ghost predicate Truthful(w: World, git: GitAnswers, runBranch: Branch, targetBranch: Branch) {
    && (git.targetHead.Some? ==> targetBranch in w.refs && w.refs[targetBranch] == git.targetHead.value)
    && (git.mergeBaseFound ==> runBranch in w.refs && targetBranch in w.refs)
    && (git.ancestry != AncestryFailed ==>
         (git.ancestry == IsAncestor <==>
           runBranch in w.refs && targetBranch in w.refs && Reaches(w.dag, w.refs[targetBranch], w.refs[runBranch])))
  }

  /**
   Anything may happen to the repository. A gate may verify any branch, a run may be completed with any result, and
   plans are executed whenever; an agent edits the worktree of its run only while the run is running.
   */
  ghost predicate Legal(w: World, step: Step) {
    match step
    case NewCommit(id, parents) => id !in w.dag && parents <= w.dag.Keys
    case MoveRef(_, commit) => commit in w.dag
    case Tick(now) => w.now <= now
    case Transition(runId, taken, next) =>
      runId in w.runs && taken.event != VerifyMergeSuccess && Steps(w.runs[runId].state, taken, next)
    case Touch(runId, _, _, _) => runId in w.runs
    case Verify(_, runBranch, targetBranch, git, _, _) => Truthful(w, git, runBranch, targetBranch)
    case Complete(runId, result, completedAt) =>
      runId in w.runs && CompleteRunAfterGateF(w.runs[runId], result, completedAt).Ok?
    case MakePlan(runId, _) => runId in w.runs
    case AddWorktree(runId) => runId in w.runs
    case EditWorktree(runId) => runId in w.runs && runId in w.worktrees && w.runs[runId].state == Running
    case RemoveWorktree(plan) => plan in w.plans && plan.eligible && plan.removeWorktree && plan.runId in w.worktrees
    case DeleteBranch(plan) => plan in w.plans && plan.eligible && plan.deleteBranch && plan.branchName in w.refs
  }

  function VerificationOf(w: World, step: Step): Verification
    requires step.Verify?
  {
    Verification(
      VerifyManualMerge(
        step.git, step.runId, step.runBranch, step.targetCommit, step.expectedPatchHash, At(w.now)),
      if step.runBranch in w.refs then Some(w.refs[step.runBranch]) else None, step.git.ancestry != AncestryFailed)
  }

  ghost function Apply(w: World, step: Step): World
    requires Legal(w, step)
  {
    match step
    case NewCommit(id, parents) => w.(dag := w.dag[id := parents])
    case MoveRef(branch, commit) => w.(refs := w.refs[branch := commit])
    case Tick(now) => w.(now := now)
    case Transition(runId, taken, next) =>
      var run := w.runs[runId];
      w.(runs := w.runs[runId := run.(state := next,
          acceptedAt := if taken.event == Accept then Some(At(w.now)) else run.acceptedAt)])
    case Touch(runId, keep, terminalAt, updatedAt) =>
      w.(runs := w.runs[runId := w.runs[runId].(keep := keep, terminalAt := terminalAt, updatedAt := updatedAt)])
    case Verify(_, _, _, _, _, _) => w.(verifications := w.verifications + {VerificationOf(w, step)})
    case Complete(runId, result, completedAt) =>
      w.(runs := w.runs[runId := CompleteRunAfterGateF(w.runs[runId], result, completedAt).value],
         completedWith := w.completedWith[runId := result])
    case MakePlan(runId, reasons) => w.(plans := w.plans + {PlanFor(w.runs[runId], At(w.now), reasons)})
    case AddWorktree(runId) => w.(worktrees := w.worktrees + {runId})
    case EditWorktree(runId) => w.(edits := w.edits + [runId])
    case RemoveWorktree(plan) => w.(worktrees := w.worktrees - {plan.runId})
    case DeleteBranch(plan) => w.(refs := w.refs - {plan.branchName})
  }

  ghost predicate LegalTrace(w: World, trace: seq<Step>)
    decreases |trace|
  {
    trace == [] || (Legal(w, trace[0]) && LegalTrace(Apply(w, trace[0]), trace[1..]))
  }

  ghost function Outcome(w: World, trace: seq<Step>): World
    requires LegalTrace(w, trace)
    decreases |trace|
  {
    if trace == [] then w else Outcome(Apply(w, trace[0]), trace[1..])
  }

  // ---------- the invariant ----------

  /**
   A verification by ancestry means that the target commit reaches the head of that moment; the converse needs an
   answer from Git.
   */
  ghost predicate Sound(dag: Dag, v: Verification) {
    v.result.Verified? ==>
      && v.head.Some? && v.result.targetCommit in dag
      && (v.result.containmentVerified ==> Reaches(dag, v.result.targetCommit, v.head.value))
      && (v.answered && Reaches(dag, v.result.targetCommit, v.head.value) ==> v.result.containmentVerified)
  }

  ghost predicate CompletedSoundly(w: World, run: Run) {
    && run.runId in w.completedWith && w.completedWith[run.runId].Verified?
    && run.targetCommit == w.completedWith[run.runId].targetCommit && run.completedAt.Some?
  }

  /**
   A plan for a run that has ended still describes its state; one that deletes a branch was made for a completed run
   whose window was over.
   */
  ghost predicate PlanSound(w: World, plan: Plan) {
    && plan.runId in w.runs && (IsRunFinal(plan.state) ==> w.runs[plan.runId].state == plan.state)
    && (plan.eligible ==> plan.state == Completed || Terminal(plan.state))
    && (plan.deleteBranch ==>
         && plan.state == Completed && w.runs[plan.runId].branchName == plan.branchName
         && w.runs[plan.runId].completedAt.Some?
         && !WindowActive(w.runs[plan.runId].completedAt.value, At(w.now), COMPLETED_RETENTION_DAYS))
  }

  ghost predicate Invariant(w: World) {
    && Closed(w.dag)
    && (forall b :: b in w.refs ==> w.refs[b] in w.dag)
    && (forall r :: r in w.runs ==> w.runs[r].runId == r)
    && (forall v :: v in w.verifications ==> Sound(w.dag, v))
    && (forall r :: r in w.runs && w.runs[r].state == Completed ==> CompletedSoundly(w, w.runs[r]))
    && (forall p :: p in w.plans ==> PlanSound(w, p))
  }

  /** Runs that have not been verified, completed or planned for yet, in any repository. */
  ghost predicate Initial(w: World) {
    && Closed(w.dag) && (forall b :: b in w.refs ==> w.refs[b] in w.dag)
    && (forall r :: r in w.runs ==> w.runs[r].runId == r && w.runs[r].state != Completed)
    && w.verifications == {} && w.plans == {}
  }

  lemma NewCommitKeeps(w: World, id: CommitId, parents: set<CommitId>)
    requires Invariant(w) && Legal(w, NewCommit(id, parents))
    ensures Invariant(Apply(w, NewCommit(id, parents)))
  {
    var next := Apply(w, NewCommit(id, parents));
    forall v | v in w.verifications ensures Sound(next.dag, v) {
      assert Sound(w.dag, v);
      if v.result.Verified? { ReachesUnchanged(w.dag, next.dag, v.result.targetCommit, v.head.value); }
    }
  }

  lemma NeverCompletes(state: RunState, taken: Taken, next: RunState)
    requires taken.event != VerifyMergeSuccess && Steps(state, taken, next)
    ensures !IsRunFinal(state) && next != Completed
  {
    FinalIffStuck(state);
    if next == Completed { OnlyWayToCompleted(state, taken); }
  }

  /** A run that has not ended is replaced by one that is completed soundly, if it is completed. */
  lemma RunChangeKeeps(w: World, next: Run)
    requires Invariant(w) && next.runId in w.runs && next.branchName == w.runs[next.runId].branchName
    requires next.state != Completed && next.completedAt == w.runs[next.runId].completedAt
    requires IsRunFinal(w.runs[next.runId].state) ==> next.state == w.runs[next.runId].state
    ensures Invariant(w.(runs := w.runs[next.runId := next]))
  {
    var after := w.(runs := w.runs[next.runId := next]);
    forall p | p in w.plans ensures PlanSound(after, p) { assert PlanSound(w, p); }
  }

  lemma CompleteKeeps(w: World, runId: RunId, result: GateFResult, completedAt: Option<Instant>)
    requires Invariant(w) && runId in w.runs && result.Verified? && w.runs[runId].state == Accepted
    ensures Invariant(w.(runs := w.runs[runId := CompletedRun(w.runs[runId], result, completedAt)],
                         completedWith := w.completedWith[runId := result]))
  {
    var after := w.(runs := w.runs[runId := CompletedRun(w.runs[runId], result, completedAt)],
                    completedWith := w.completedWith[runId := result]);
    forall p | p in w.plans ensures PlanSound(after, p) { assert PlanSound(w, p); }
  }

  /** New dates and flags, on a completed run or another. */
  lemma TouchKeeps(w: World, step: Step)
    requires Invariant(w) && Legal(w, step) && step.Touch?
    ensures Invariant(Apply(w, step))
  {
    forall p | p in w.plans ensures PlanSound(Apply(w, step), p) { assert PlanSound(w, p); }
    assert w.runs[step.runId].state == Completed ==> CompletedSoundly(w, w.runs[step.runId]);
  }

  lemma RunStepKeeps(w: World, step: Step)
    requires Invariant(w) && Legal(w, step) && (step.Transition? || step.Complete?)
    ensures Invariant(Apply(w, step))
  {
    if step.Transition? {
      NeverCompletes(w.runs[step.runId].state, step.taken, step.next);
      RunChangeKeeps(w, Apply(w, step).runs[step.runId]);
    } else {
      CompletesIff(w.runs[step.runId], step.result, step.completedAt);
      CompleteKeeps(w, step.runId, step.result, step.completedAt);
    }
  }

  lemma VerifyKeeps(w: World, step: Step)
    requires Invariant(w) && Legal(w, step) && step.Verify?
    ensures Invariant(Apply(w, step))
  {
    assert Sound(w.dag, VerificationOf(w, step));
  }

  lemma MakePlanKeeps(w: World, runId: RunId, reasons: seq<Reason>)
    requires Invariant(w) && runId in w.runs
    ensures Invariant(w.(plans := w.plans + {PlanFor(w.runs[runId], At(w.now), reasons)}))
  {
    var plan := PlanFor(w.runs[runId], At(w.now), reasons);
    assert w.runs[runId].state == Completed ==> CompletedSoundly(w, w.runs[runId]);
    assert PlanSound(w, plan);
  }

  lemma OtherStepKeeps(w: World, step: Step)
    requires Invariant(w) && Legal(w, step)
    requires step.Tick? || step.DeleteBranch? || step.MoveRef? || step.AddWorktree? || step.EditWorktree?
      || step.RemoveWorktree?
    ensures Invariant(Apply(w, step))
  {
    forall p | p in w.plans ensures PlanSound(Apply(w, step), p) { assert PlanSound(w, p); }
  }

  lemma StepKeeps(w: World, step: Step)
    requires Invariant(w) && Legal(w, step)
    ensures Invariant(Apply(w, step))
  {
    match step
    case NewCommit(id, parents) => NewCommitKeeps(w, id, parents);
    case Verify(_, _, _, _, _, _) => VerifyKeeps(w, step);
    case Transition(_, _, _) => RunStepKeeps(w, step);
    case Complete(_, _, _) => RunStepKeeps(w, step);
    case Touch(_, _, _, _) => TouchKeeps(w, step);
    case MakePlan(runId, reasons) => MakePlanKeeps(w, runId, reasons);
    case _ => OtherStepKeeps(w, step);
  }

  lemma {:induction false} TraceKeeps(w: World, trace: seq<Step>)
    requires Invariant(w) && LegalTrace(w, trace)
    ensures Invariant(Outcome(w, trace))
    decreases |trace|
  {
    if trace != [] {
      StepKeeps(w, trace[0]);
      TraceKeeps(Apply(w, trace[0]), trace[1..]);
    }
  }

  // ---------- deleting a branch ----------

  /** The run was completed with this verification, of its own branch, whose head has not changed since. */
  predicate OwnAndUnmoved(w: World, run: Run, v: Verification)
    requires run.runId in w.completedWith
  {
    && v.result == w.completedWith[run.runId] && v.result.Verified? && v.result.runBranch == run.branchName
    && run.branchName in w.refs && v.head == Some(w.refs[run.branchName])
  }

  /**
   No work is lost by cleanup. When any trace comes to delete a run branch, the run is completed, seven days have passed
   since its recorded completion (if that date can be read), and for a verification of the run's own branch whose head
   has not changed since, every commit the branch reaches is reachable from the recorded target commit if the merge was
   verified by ancestry; and only if, unless the ancestry command failed.
   */
  lemma NoWorkLost(start: World, trace: seq<Step>, plan: Plan)
    requires Initial(start) && LegalTrace(start, trace)
    requires Legal(Outcome(start, trace), DeleteBranch(plan))
    ensures
      var w := Outcome(start, trace);
      && plan.runId in w.runs && plan.runId in w.completedWith
      && var run := w.runs[plan.runId];
      && run.state == Completed && run.runId == plan.runId && run.branchName == plan.branchName
      && run.completedAt.Some? && w.completedWith[plan.runId].Verified?
      && run.targetCommit == w.completedWith[plan.runId].targetCommit
      && (run.completedAt.value.At? ==> w.now >= run.completedAt.value.ms + 7 * DAY_MS)
      && forall v :: v in w.verifications && OwnAndUnmoved(w, run, v) ==>
           && (v.result.containmentVerified ==> Contains(w.dag, run.targetCommit, w.refs[plan.branchName]))
           && (v.answered && Contains(w.dag, run.targetCommit, w.refs[plan.branchName]) ==>
                v.result.containmentVerified)
  {
    TraceKeeps(start, trace);
    var w := Outcome(start, trace);
    assert PlanSound(w, plan);
    var run := w.runs[plan.runId];
    assert CompletedSoundly(w, run);
    ReachesContains(w.dag, run.targetCommit, w.refs[plan.branchName]);
    forall v | v in w.verifications && OwnAndUnmoved(w, run, v)
      ensures v.result.containmentVerified ==> Contains(w.dag, run.targetCommit, w.refs[plan.branchName])
      ensures v.answered && Contains(w.dag, run.targetCommit, w.refs[plan.branchName]) ==>
        v.result.containmentVerified
    {
      assert Sound(w.dag, v);
    }
  }

  /** A trace after which the cleanup deletes a branch with a commit that the recorded target commit does not reach. */
  ghost predicate LosesCommits(w: World, trace: seq<Step>, plan: Plan) {
    && LegalTrace(w, trace) && Legal(Outcome(w, trace), DeleteBranch(plan)) && plan.runId in Outcome(w, trace).runs
    && var end := Outcome(w, trace);
    !Contains(end.dag, end.runs[plan.runId].targetCommit, end.refs[plan.branchName])
  }

  lemma Prepend(w: World, step: Step, rest: seq<Step>)
    requires Legal(w, step) && LegalTrace(Apply(w, step), rest)
    ensures LegalTrace(w, [step] + rest) && Outcome(w, [step] + rest) == Outcome(Apply(w, step), rest)
  {
    assert ([step] + rest)[1..] == rest;
  }

  lemma ThreeSteps(w: World, a: Step, b: Step, c: Step)
    requires Legal(w, a) && Legal(Apply(w, a), b) && Legal(Apply(Apply(w, a), b), c)
    ensures LegalTrace(w, [a, b, c]) && Outcome(w, [a, b, c]) == Apply(Apply(Apply(w, a), b), c)
  {
    var second := Apply(w, a);
    Prepend(Apply(second, b), c, []);
    Prepend(second, b, [c] + []);
    Prepend(w, a, [b] + ([c] + []));
    assert [a] + ([b] + ([c] + [])) == [a, b, c];
  }

  /** An accepted run with a branch, and a result that completes it. */
  predicate Completable(w: World, runId: RunId, result: GateFResult) {
    && runId in w.runs && runId != "" && w.runs[runId].runId == runId && w.runs[runId].state == Accepted
    && w.runs[runId].acceptedAt.Some? && !w.runs[runId].keep
    && w.runs[runId].branchName != "" && w.runs[runId].branchName in w.refs
    && result.Verified? && result.targetCommit != "" && (result.containmentVerified || result.patchEquivalent)
  }

  /** The world in which the run was completed with that date and then planned for. */
  function Planned(w: World, runId: RunId, result: GateFResult, date: Option<Instant>, now: int): World
    requires Completable(w, runId, result)
  {
    var run := CompletedRun(w.runs[runId], result, date);
    w.(runs := w.runs[runId := run], completedWith := w.completedWith[runId := result], now := now,
       plans := w.plans + {PlanFor(run, At(now), [])})
  }

  /** The run was completed with this result, and branches and verifications are as they were. */
  predicate CompletedAfter(w: World, end: World, runId: RunId, result: GateFResult)
    requires runId in w.runs
  {
    && runId in end.runs && end.runs[runId].runId == runId && end.runs[runId].branchName == w.runs[runId].branchName
    && runId in end.completedWith && end.completedWith[runId] == result
    && end.refs == w.refs && end.verifications == w.verifications
  }

  lemma CompleteApplies(w: World, runId: RunId, result: GateFResult, date: Option<Instant>)
    requires Completable(w, runId, result)
    ensures Legal(w, Complete(runId, result, date))
    ensures Apply(w, Complete(runId, result, date))
      == w.(runs := w.runs[runId := CompletedRun(w.runs[runId], result, date)],
            completedWith := w.completedWith[runId := result])
  {
    CompletesIff(w.runs[runId], result, date);
  }

  lemma PlanApplies(w: World, runId: RunId, now: int)
    requires runId in w.runs && w.now <= now
    ensures Legal(w, Tick(now)) && Legal(Apply(w, Tick(now)), MakePlan(runId, []))
    ensures Apply(Apply(w, Tick(now)), MakePlan(runId, []))
      == w.(now := now, plans := w.plans + {PlanFor(w.runs[runId], At(now), [])})
  {
  }

  lemma CompletionIsPlanned(w: World, runId: RunId, result: GateFResult, date: Option<Instant>, now: int)
    returns (trace: seq<Step>)
    requires Completable(w, runId, result) && w.now <= now
    ensures LegalTrace(w, trace) && Outcome(w, trace) == Planned(w, runId, result, date, now)
  {
    var a, b, c := Complete(runId, result, date), Tick(now), MakePlan(runId, []);
    CompleteApplies(w, runId, result, date);
    PlanApplies(Apply(w, a), runId, now);
    ThreeSteps(w, a, b, c);
    trace := [a, b, c];
  }

  /**
   Whatever result completes a run, its branch can be deleted, and after any wait: the date of completion is the
   caller's. So commits are lost whenever the recorded target commit does not reach the head of the branch.
   */
  lemma UncontainedIsLost(w: World, runId: RunId, result: GateFResult, wait: nat)
    returns (trace: seq<Step>, plan: Plan)
    requires Completable(w, runId, result)
    ensures LegalTrace(w, trace) && CompletedAfter(w, Outcome(w, trace), runId, result)
    ensures Outcome(w, trace).now == w.now + wait
    ensures Legal(Outcome(w, trace), DeleteBranch(plan))
    ensures plan.runId == runId && plan.branchName == w.runs[runId].branchName
    ensures LosesCommits(w, trace, plan) <==> !Reaches(w.dag, result.targetCommit, w.refs[w.runs[runId].branchName])
  {
    var date := Some(At(w.now + wait - COMPLETED_RETENTION_DAYS * DAY_MS));
    trace := CompletionIsPlanned(w, runId, result, date, w.now + wait);
    var end := Planned(w, runId, result, date, w.now + wait);
    plan := PlanFor(end.runs[runId], At(end.now), []);
    ReachesContains(w.dag, result.targetCommit, w.refs[w.runs[runId].branchName]);
  }

  /** Two unrelated commits, `main` and `aa` at one of them, and an accepted run whose branch is at `head`. */
  function Example(head: CommitId): World {
    World(
      map["m" := {}, "c" := {}], map["main" := "m", "aa" := "m", "bb" := head],
      map["b" := Run("b", Accepted, false, "bb", "/wt/b", Some(At(0)), None, None, None, None, "")],
      {}, map[], {}, {}, [], 0)
  }

  lemma ExampleReaches(head: CommitId)
    requires head == "m" || head == "c"
    ensures Initial(Example(head)) && !Reaches(Example(head).dag, "m", "c") && Reaches(Example(head).dag, "m", "m")
  {
    assert ReachesIn(Example(head).dag, "m", "m", 0);
  }

  /** The verification of a branch whose head in the example is `head`, against `main`. */
  function ExampleVerify(runId: RunId, branch: Branch, ancestry: Ancestry, hash: string): Step {
    Verify(runId, branch, "main", GitAnswers(true, Some("m"), true, ancestry, Some("h"), true), "m", hash)
  }

  lemma ExampleVerifies(head: CommitId, runId: RunId, branch: Branch, ancestry: Ancestry, hash: string)
    requires (head == "m" || head == "c") && branch in Example(head).refs
    requires ancestry == (if Example(head).refs[branch] == "m" then IsAncestor else NotAncestor)
    requires ancestry == IsAncestor || hash == "h"
    ensures
      var step := ExampleVerify(runId, branch, ancestry, hash);
      var v := VerificationOf(Example(head), step);
      && Legal(Example(head), step) && v.head == Some(Example(head).refs[branch]) && v.answered
      && v.result == Verified(runId, branch, "m", At(0), ancestry == IsAncestor, hash == "h")
      && Completable(Example(head), "b", v.result) && Example(head).runs["b"].branchName == "bb"
      && Example(head).refs["bb"] == head
  {
    ExampleReaches(head);
  }

  /** The end of a trace that loses commits of run `b`, completed with that verification. */
  ghost predicate LosesWith(start: World, trace: seq<Step>, plan: Plan, v: Verification) {
    && Initial(start) && LosesCommits(start, trace, plan)
    && var end := Outcome(start, trace);
    && v in end.verifications && v.answered && v.result.Verified? && plan.runId in end.completedWith
    && end.runs[plan.runId].runId == plan.runId && end.completedWith[plan.runId] == v.result
  }

  lemma VerifiedIsLost(start: World, step: Step, runId: RunId)
    returns (trace: seq<Step>, plan: Plan, v: Verification)
    requires Initial(start) && step.Verify? && Legal(start, step)
    requires VerificationOf(start, step).answered && Completable(start, runId, VerificationOf(start, step).result)
    requires !Reaches(
      start.dag, VerificationOf(start, step).result.targetCommit, start.refs[start.runs[runId].branchName])
    ensures LosesWith(start, trace, plan, v) && v == VerificationOf(start, step) && plan.runId == runId
    ensures plan.branchName == start.runs[runId].branchName == Outcome(start, trace).runs[runId].branchName
    ensures Outcome(start, trace).refs == start.refs
  {
    v := VerificationOf(start, step);
    var rest;
    rest, plan := UncontainedIsLost(Apply(start, step), runId, v.result, 7 * DAY_MS);
    Prepend(start, step, rest);
    trace := [step] + rest;
  }

  lemma MovedIsLost(start: World, step: Step, runId: RunId, commit: CommitId)
    returns (trace: seq<Step>, plan: Plan, v: Verification)
    requires Initial(start) && step.Verify? && Legal(start, step) && commit in start.dag
    requires VerificationOf(start, step).answered && Completable(start, runId, VerificationOf(start, step).result)
    requires !Reaches(start.dag, VerificationOf(start, step).result.targetCommit, commit)
    ensures LosesWith(start, trace, plan, v) && v == VerificationOf(start, step) && plan.runId == runId
    ensures plan.branchName == start.runs[runId].branchName && plan.branchName in Outcome(start, trace).refs
    ensures Outcome(start, trace).refs[plan.branchName] == commit
  {
    v := VerificationOf(start, step);
    var move := MoveRef(start.runs[runId].branchName, commit);
    var rest;
    rest, plan := UncontainedIsLost(Apply(Apply(start, step), move), runId, v.result, 7 * DAY_MS);
    Prepend(Apply(start, step), move, rest);
    Prepend(start, step, [move] + rest);
    trace := [step] + ([move] + rest);
  }

  /** A merge verified by an equal patch alone: the commits of the branch are on no other, and are deleted with it. */
  lemma PatchEquivalenceLosesWork() returns (start: World, trace: seq<Step>, plan: Plan, v: Verification)
    ensures LosesWith(start, trace, plan, v) && !v.result.containmentVerified
    ensures OwnAndUnmoved(Outcome(start, trace), Outcome(start, trace).runs[plan.runId], v)
  {
    ExampleVerifies("c", "b", "bb", NotAncestor, "h");
    start := Example("c");
    ExampleReaches("c");
    trace, plan, v := VerifiedIsLost(start, ExampleVerify("b", "bb", NotAncestor, "h"), "b");
  }

  /** A merge of another run, verified by ancestry: its result completes this run, whose commits are then deleted. */
  lemma ForeignResultLosesWork() returns (start: World, trace: seq<Step>, plan: Plan, v: Verification)
    ensures LosesWith(start, trace, plan, v) && v.result.containmentVerified
    ensures v.result.runId != plan.runId && v.result.runBranch != plan.branchName
  {
    ExampleVerifies("c", "a", "aa", IsAncestor, "");
    start := Example("c");
    ExampleReaches("c");
    trace, plan, v := VerifiedIsLost(start, ExampleVerify("a", "aa", IsAncestor, ""), "b");
  }

  /** A commit made on the branch after its merge was verified by ancestry is deleted with it. */
  lemma MovedBranchLosesWork() returns (start: World, trace: seq<Step>, plan: Plan, v: Verification)
    ensures LosesWith(start, trace, plan, v) && v.result.containmentVerified
    ensures v.result.runId == plan.runId && v.result.runBranch == plan.branchName
    ensures v.head != Some(Outcome(start, trace).refs[plan.branchName])
  {
    ExampleVerifies("m", "b", "bb", IsAncestor, "");
    start := Example("m");
    ExampleReaches("m");
    trace, plan, v := MovedIsLost(start, ExampleVerify("b", "bb", IsAncestor, ""), "b", "c");
  }

  // ---------- removing a worktree ----------

  /** The run takes a transition out of Needs Attention somewhere in the trace. */
  ghost predicate LeavesAttention(w: World, trace: seq<Step>, runId: RunId)
    requires LegalTrace(w, trace)
    decreases |trace|
  {
    && trace != []
    && (|| (trace[0].Transition? && trace[0].runId == runId && w.runs[runId].state == NeedsAttention)
        || LeavesAttention(Apply(w, trace[0]), trace[1..], runId))
  }

  /** The agents of the run worked in its worktree in the course of the trace. */
  ghost predicate Works(w: World, trace: seq<Step>, runId: RunId)
    requires LegalTrace(w, trace)
  {
    |w.edits| <= |Outcome(w, trace).edits| && runId in Outcome(w, trace).edits[|w.edits|..]
  }

  lemma {:induction false} EditsGrow(w: World, trace: seq<Step>)
    requires LegalTrace(w, trace)
    ensures w.edits <= Outcome(w, trace).edits
    decreases |trace|
  {
    if trace != [] { EditsGrow(Apply(w, trace[0]), trace[1..]); }
  }

  predicate Cleanable(s: RunState) { IsRunFinal(s) || s.NeedsAttention? }

  lemma NewIsEither(before: seq<RunId>, between: seq<RunId>, after: seq<RunId>, runId: RunId)
    requires before <= between <= after
    ensures runId in after[|before|..] <==> runId in between[|before|..] || runId in after[|between|..]
  {
    assert after[|before|..] == between[|before|..] + after[|between|..];
  }

  lemma StepStaysClean(w: World, step: Step, runId: RunId)
    requires Legal(w, step) && runId in w.runs && Cleanable(w.runs[runId].state)
    requires step.Transition? && step.runId == runId ==> w.runs[runId].state != NeedsAttention
    ensures runId in Apply(w, step).runs && Apply(w, step).runs[runId].state == w.runs[runId].state
    ensures w.edits <= Apply(w, step).edits && runId !in Apply(w, step).edits[|w.edits|..]
  {
    if step.Transition? && step.runId == runId { FinalIffStuck(w.runs[runId].state); }
    if step.Complete? { CompletesIff(w.runs[step.runId], step.result, step.completedAt); }
  }

  /** A run that may be cleaned up and does not leave Needs Attention stays as it is, and nothing works in it. */
  lemma {:induction false} StaysClean(w: World, trace: seq<Step>, runId: RunId)
    requires LegalTrace(w, trace) && runId in w.runs && Cleanable(w.runs[runId].state)
    requires !LeavesAttention(w, trace, runId)
    ensures runId in Outcome(w, trace).runs && Outcome(w, trace).runs[runId].state == w.runs[runId].state
    ensures !Works(w, trace, runId)
    decreases |trace|
  {
    if trace != [] {
      StepStaysClean(w, trace[0], runId);
      var next := Apply(w, trace[0]);
      StaysClean(next, trace[1..], runId);
      EditsGrow(next, trace[1..]);
      NewIsEither(w.edits, next.edits, Outcome(next, trace[1..]).edits, runId);
    }
  }

  /** Executing the plan after this trace removes a worktree with work that was done since. */
  ghost predicate LosesEdits(w: World, trace: seq<Step>, plan: Plan) {
    LegalTrace(w, trace) && Legal(Outcome(w, trace), RemoveWorktree(plan)) && Works(w, trace, plan.runId)
  }

  /** Only a plan whose run left Needs Attention since removes newer work. */
  lemma StalePlanLeftAttention(w: World, trace: seq<Step>, plan: Plan)
    requires LosesEdits(w, trace, plan) && plan.runId in w.runs && Cleanable(w.runs[plan.runId].state)
    ensures LeavesAttention(w, trace, plan.runId)
  {
    if !LeavesAttention(w, trace, plan.runId) { StaysClean(w, trace, plan.runId); }
  }

  lemma {:induction false} FinalNeverLeaves(w: World, trace: seq<Step>, runId: RunId)
    requires LegalTrace(w, trace) && runId in w.runs && IsRunFinal(w.runs[runId].state)
    ensures !LeavesAttention(w, trace, runId)
    decreases |trace|
  {
    if trace != [] {
      var step := trace[0];
      StepStaysClean(w, step, runId);
      FinalNeverLeaves(Apply(w, step), trace[1..], runId);
    }
  }

  /** A retry and one edit are enough to make a plan for a run in Needs Attention take newer work. */
  lemma RetryThenEdit(w: World, plan: Plan) returns (trace: seq<Step>)
    requires plan in w.plans && plan.eligible && plan.removeWorktree && plan.runId in w.worktrees
    requires plan.runId in w.runs && w.runs[plan.runId].state == NeedsAttention
    ensures LosesEdits(w, trace, plan)
  {
    var retry := Taken(Retry, Context(map[ApprovalValid := true, PreflightValid := true], 0, 0, StatusOther));
    assert Steps(NeedsAttention, retry, Running);
    var first, second := Transition(plan.runId, retry, Running), EditWorktree(plan.runId);
    var retried := Apply(w, first);
    Prepend(retried, second, []);
    Prepend(w, first, [second] + []);
    trace := [first] + ([second] + []);
    assert Outcome(w, trace).edits == w.edits + [plan.runId];
    assert Outcome(w, trace).edits[|w.edits|..] == [plan.runId];
  }

  /**
   An execution never looks at the run again and removes the worktree by force. So a plan to remove a worktree, just
   made, can take newer uncommitted work with it if and only if its run is in Needs Attention: it may be retried.
   */
  lemma StalePlanLosesEditsIff(w: World, plan: Plan)
    requires Invariant(w) && plan in w.plans && plan.eligible && plan.removeWorktree && plan.runId in w.worktrees
    requires w.runs[plan.runId].state == plan.state
    ensures (exists trace :: LosesEdits(w, trace, plan)) <==> plan.state == NeedsAttention
  {
    assert PlanSound(w, plan);
    if plan.state == NeedsAttention {
      var trace := RetryThenEdit(w, plan);
    } else {
      forall trace ensures !LosesEdits(w, trace, plan) {
        if LosesEdits(w, trace, plan) {
          StalePlanLeftAttention(w, trace, plan);
          FinalNeverLeaves(w, trace, plan.runId);
        }
      }
    }
  }
}
