/** Review artifacts and the bounded Build -> Review correction cycle they drive. */
module CorrectionCycle {
  import opened Wrappers
  import opened Sequences
  import StateMachine

  datatype Severity = Info | Low | Medium | High | Critical | UnknownSeverity

  datatype Finding = Finding(severity: Severity, sensitive: bool)

  datatype ReviewDecision = RequiresApproval | BlockedDecision | Passed

  datatype Review = Review(hash: string, highestSeverity: Severity, blocking: bool, criticalSensitive: bool,
      decision: ReviewDecision)

  datatype ReviewError = MissingFixes | UnknownSeverityGiven

  function Index(s: Severity): int {
    match s case Info => 0 case Low => 1 case Medium => 2 case High => 3 case Critical => 4 case UnknownSeverity => -1
  }

  function SeverityAt(index: nat): Severity
    requires index <= 4
  {
    match index case 0 => Info case 1 => Low case 2 => Medium case 3 => High case _ => Critical
  }

  predicate AllKnown(findings: seq<Finding>) {
    forall i :: 0 <= i < |findings| ==> findings[i].severity != UnknownSeverity
  }

  predicate IsHighest(s: Severity, findings: seq<Finding>) {
    && (forall i :: 0 <= i < |findings| ==> Index(findings[i].severity) <= Index(s))
    && (s == Info || exists i :: 0 <= i < |findings| && findings[i].severity == s)
  }

  /** No findings are as good as one that only informs. */
  method GetHighestReviewSeverity(findings: seq<Finding>) returns (r: Result<Severity, ReviewError>)
    ensures r.Ok? <==> AllKnown(findings)
    ensures r.Ok? ==> IsHighest(r.value, findings) && r.value != UnknownSeverity
  {
    if |findings| == 0 { return Ok(Info); }
    var highestIndex := 0;
    var i := 0;
    while i < |findings|
      invariant 0 <= i <= |findings| && 0 <= highestIndex <= 4
      invariant AllKnown(findings[..i]) && IsHighest(SeverityAt(highestIndex), findings[..i])
    {
      var index := Index(findings[i].severity);
      assert findings[..i + 1] == findings[..i] + [findings[i]];
      if index < 0 {
        assert findings[i].severity == UnknownSeverity;
        return Err(UnknownSeverityGiven);
      }
      if index > highestIndex {
        highestIndex := index;
        assert findings[..i + 1][i].severity == SeverityAt(index);
      } else if SeverityAt(highestIndex) != Info {
        var k :| 0 <= k < i && findings[..i][k].severity == SeverityAt(highestIndex);
        assert findings[..i + 1][k].severity == SeverityAt(highestIndex);
      }
      i := i + 1;
    }
    assert findings[..i] == findings;
    return Ok(SeverityAt(highestIndex));
  }

  predicate BlockingSeverity(s: Severity) { s == High || s == Critical }

  predicate HasCriticalSensitive(findings: seq<Finding>) {
    exists i :: 0 <= i < |findings| && findings[i].severity == Critical && findings[i].sensitive
  }

  predicate HasBlocking(findings: seq<Finding>) {
    exists i :: 0 <= i < |findings| && BlockingSeverity(findings[i].severity)
  }

  /** `hash` is the hash of the rendered review. A review blocks exactly when some finding is high or critical. */
  method CreateReviewArtifact(findings: seq<Finding>, requiredFixes: nat, hash: string)
    returns (r: Result<Review, ReviewError>)
    ensures r.Ok? <==> AllKnown(findings) && (HasBlocking(findings) ==> requiredFixes > 0)
    ensures r.Ok? ==> IsArtifactOf(r.value, findings) && r.value.hash == hash
  {
    if exists i :: 0 <= i < |findings| && findings[i].severity == UnknownSeverity { return Err(UnknownSeverityGiven); }
    if HasBlocking(findings) && requiredFixes == 0 { return Err(MissingFixes); }
    var highest := GetHighestReviewSeverity(findings);
    var blocking, criticalSensitive := BlockingSeverity(highest.value), HasCriticalSensitive(findings);
    return Ok(Review(
      hash, highest.value, blocking, criticalSensitive,
      if criticalSensitive then RequiresApproval else if blocking then BlockedDecision else Passed));
  }

  predicate IsArtifactOf(review: Review, findings: seq<Finding>) {
    && IsHighest(review.highestSeverity, findings) && review.highestSeverity != UnknownSeverity
    && (review.blocking <==> HasBlocking(findings)) && (review.blocking <==> BlockingSeverity(review.highestSeverity))
    && (review.criticalSensitive <==> HasCriticalSensitive(findings))
    && (review.criticalSensitive ==> review.highestSeverity == Critical)
    && review.decision == (if review.criticalSensitive then RequiresApproval
        else if review.blocking then BlockedDecision else Passed)
  }

  // ---------- the cycle ----------

  const CORRECTION_CYCLE_LIMIT := 2

  datatype Action = Continue | NeedsAttention | RequiresExceptionApproval | CriticalApproval

  datatype Entry = Entry(cycle: nat, action: Action, reviewHash: string, highestSeverity: Severity, exceptionUsed: bool)

  datatype CycleState = CycleState(runId: string, cycleCounter: nat, history: seq<Entry>)

  datatype Decision = Decision(
    action: Action, reviewHash: string, highestSeverity: Severity, nextCycleCounter: nat, exceptionRequired: bool,
    exceptionUsed: bool)

  function Evaluate(state: CycleState, review: Review, exceptionApproved: bool): Decision {
    var now := state.cycleCounter;
    if review.criticalSensitive then Decision(CriticalApproval, review.hash, review.highestSeverity, now, false, false)
    else if !review.blocking || !BlockingSeverity(review.highestSeverity)
      then Decision(Continue, review.hash, review.highestSeverity, now, false, false)
    else if now < CORRECTION_CYCLE_LIMIT
      then Decision(Continue, review.hash, review.highestSeverity, now + 1, false, false)
    else if exceptionApproved then Decision(Continue, review.hash, review.highestSeverity, now + 1, false, true)
    else Decision(NeedsAttention, review.hash, review.highestSeverity, now, true, false)
  }

  function ApplyDecision(state: CycleState, d: Decision): CycleState {
    state.(cycleCounter := d.nextCycleCounter,
           history := state.history + [Entry(d.nextCycleCounter, d.action, d.reviewHash, d.highestSeverity,
               d.exceptionUsed)])
  }

  // ---------- any sequence of reviews ----------

  datatype Step = Step(review: Review, exceptionApproved: bool)

  function AfterReviews(start: CycleState, steps: seq<Step>): CycleState {
    if steps == [] then start
    else
      var before := AfterReviews(start, steps[..|steps| - 1]);
      ApplyDecision(before, Evaluate(before, steps[|steps| - 1].review, steps[|steps| - 1].exceptionApproved))
  }

  /** The counter before an entry. */
  function Before(history: seq<Entry>, i: nat): nat
    requires i <= |history|
  {
    if i == 0 then 0 else history[i - 1].cycle
  }

  predicate Advances(history: seq<Entry>, i: nat)
    requires i < |history|
  {
    history[i].cycle == Before(history, i) + 1
  }

  function CountAdvances(history: seq<Entry>, n: nat, withException: bool): nat
    requires n <= |history|
  {
    if n == 0 then 0
    else
      var counts := Advances(history, n - 1) && history[n - 1].exceptionUsed == withException;
      CountAdvances(history, n - 1, withException) + if counts then 1 else 0
  }

  /** Entry `i` records the outcome of step `i`. */
  predicate Records(history: seq<Entry>, steps: seq<Step>, i: nat)
    requires i < |history| == |steps|
  {
    var review := steps[i].review;
    && history[i].reviewHash == review.hash && history[i].highestSeverity == review.highestSeverity
    && (Advances(history, i) <==>
         !review.criticalSensitive && review.blocking
           && (Before(history, i) < CORRECTION_CYCLE_LIMIT || steps[i].exceptionApproved))
    && (!Advances(history, i) ==> history[i].cycle == Before(history, i) && !history[i].exceptionUsed)
    && (history[i].exceptionUsed <==> Advances(history, i) && Before(history, i) >= CORRECTION_CYCLE_LIMIT)
    && (history[i].action == CriticalApproval <==> review.criticalSensitive)
    && (history[i].action == NeedsAttention <==>
         !review.criticalSensitive && review.blocking && Before(history, i) >= CORRECTION_CYCLE_LIMIT
           && !steps[i].exceptionApproved)
  }

  ghost predicate IsArtifact(review: Review) { exists findings :: IsArtifactOf(review, findings) }

  ghost predicate Made(steps: seq<Step>) { forall i :: 0 <= i < |steps| ==> IsArtifact(steps[i].review) }

  lemma CountPrefix(history: seq<Entry>, e: Entry, n: nat, withException: bool)
    requires n <= |history|
    ensures CountAdvances(history + [e], n, withException) == CountAdvances(history, n, withException)
  {
    if n > 0 { CountPrefix(history, e, n - 1, withException); }
  }

  /** What holds of the state after the first `steps`. */
  predicate Bounded(state: CycleState, steps: seq<Step>) {
    && |state.history| == |steps| && state.cycleCounter == Before(state.history, |steps|)
    && (forall i :: 0 <= i < |steps| ==> Records(state.history, steps, i))
    && CountAdvances(state.history, |steps|, false) == Min(state.cycleCounter, CORRECTION_CYCLE_LIMIT)
    && CountAdvances(state.history, |steps|, false) + CountAdvances(state.history, |steps|, true) == state.cycleCounter
  }

  lemma ReviewKeepsBounded(state: CycleState, steps: seq<Step>, step: Step)
    requires Bounded(state, steps) && IsArtifact(step.review)
    ensures Bounded(ApplyDecision(state, Evaluate(state, step.review, step.exceptionApproved)), steps + [step])
  {
    var end := ApplyDecision(state, Evaluate(state, step.review, step.exceptionApproved));
    var e := end.history[|steps|];
    CountPrefix(state.history, e, |steps|, false);
    CountPrefix(state.history, e, |steps|, true);
    forall i | 0 <= i < |steps| ensures Records(end.history, steps + [step], i) {
      assert Records(state.history, steps, i);
    }
    var findings :| IsArtifactOf(step.review, findings);
    assert Records(end.history, steps + [step], |steps|);
  }

  /**
   The cycle stays bounded. For any reviews and exception flags, from a counter of 0: there is one entry per review,
   recording it; the counter is the number of entries that advanced it; the first two advances, and only those, needed
   no exception; a critical-sensitive review never advances; and an advance without exception starts below the limit.
   */
  lemma {:induction false} CycleIsBounded(runId: string, steps: seq<Step>)
    requires Made(steps)
    ensures Bounded(AfterReviews(CycleState(runId, 0, []), steps), steps)
      && AfterReviews(CycleState(runId, 0, []), steps).runId == runId
  {
    if steps != [] {
      var front, last := steps[..|steps| - 1], steps[|steps| - 1];
      forall i | 0 <= i < |front| ensures IsArtifact(front[i].review) { assert front[i] == steps[i]; }
      CycleIsBounded(runId, front);
      ReviewKeepsBounded(AfterReviews(CycleState(runId, 0, []), front), front, last);
      assert front + [last] == steps;
    }
  }

  predicate GuardAccepts(c: StateMachine.Context) {
    StateMachine.Steps(StateMachine.Running, StateMachine.Taken(StateMachine.ReviewFailedCorrection, c),
        StateMachine.Running)
  }

  /**
   An advance of the cycle is a transition that the run's state machine accepts exactly when it used no exception and
   the review has no critical finding. The context carries the counter before the advance and whether there is a
   critical finding.
   */
  lemma GuardAgreesWithCycle(steps: seq<Step>, end: CycleState, i: nat, c: StateMachine.Context)
    requires Bounded(end, steps) && i < |steps| && Advances(end.history, i)
    requires c.correctionCycle == Before(end.history, i)
    requires c.Is(StateMachine.HasCriticalFinding) <==> steps[i].review.highestSeverity == Critical
    ensures GuardAccepts(c) <==> !end.history[i].exceptionUsed && steps[i].review.highestSeverity != Critical
  {
    assert Records(end.history, steps, i);
  }

  /**
   A critical finding that is not sensitive advances the cycle without exception, while the guard refuses the
   correction.
   */
  lemma CriticalFindingIsRefused(runId: string, hash: string, c: StateMachine.Context) returns (review: Review)
    requires c.correctionCycle == 0 && c.Is(StateMachine.HasCriticalFinding)
    ensures IsArtifactOf(review, [Finding(Critical, false)]) && review.hash == hash
    ensures Evaluate(CycleState(runId, 0, []), review, false) == Decision(Continue, hash, Critical, 1, false, false)
    ensures !GuardAccepts(c)
  {
    review := Review(hash, Critical, true, false, BlockedDecision);
    assert [Finding(Critical, false)][0].severity == Critical;
  }

  /** History is only ever appended to, and the counter never goes back. */
  lemma {:induction false} HistoryGrows(start: CycleState, steps: seq<Step>, n: nat)
    requires n <= |steps|
    ensures AfterReviews(start, steps[..n]).history <= AfterReviews(start, steps).history
    ensures AfterReviews(start, steps[..n]).cycleCounter <= AfterReviews(start, steps).cycleCounter
    decreases |steps|
  {
    if n < |steps| {
      var front := steps[..|steps| - 1];
      assert front[..n] == steps[..n];
      HistoryGrows(start, front, n);
    } else {
      assert steps[..n] == steps;
    }
  }
}
