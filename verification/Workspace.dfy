/**
 Run workspaces: the lock store, creation of a branch and worktree with its undo step, and
 cleanup that can be repeated. Any Git call may fail, and cleanup may be interrupted between calls.
 */
module Workspace {
  import opened Wrappers
  import opened Sequences
  import opened MergeCleanup

  // ---------- branch names ----------

  /** Lower case, and anything but letters, digits and dashes becomes a dash. */
  function CleanChar(c: char): char {
    if 'A' <= c <= 'Z' then (c as int + 32) as char else if SlugChar(c) then c else '-'
  }

  predicate SlugChar(c: char) { 'a' <= c <= 'z' || '0' <= c <= '9' || c == '-' }

  function Clean(s: string): string { seq(|s|, i requires 0 <= i < |s| => CleanChar(s[i])) }

  function Collapse(s: string): string {
    if |s| < 2 then s else if s[0] == '-' && s[1] == '-' then Collapse(s[1..]) else [s[0]] + Collapse(s[1..])
  }

  function Strip(s: string): string {
    var front := if s != "" && s[0] == '-' then s[1..] else s;
    if front != "" && front[|front| - 1] == '-' then front[..|front| - 1] else front
  }

  function Slug(runId: RunId): string { Strip(Collapse(Clean(runId))) }

  function DeriveRunBranchName(runId: RunId): Option<Branch> {
    if Slug(runId) == "" then None else Some("londi/run-" + Take(Slug(runId), 12))
  }

  lemma {:induction false} CollapseKeeps(s: string)
    requires forall i :: 0 <= i < |s| ==> SlugChar(s[i])
    ensures forall i :: 0 <= i < |Collapse(s)| ==> SlugChar(Collapse(s)[i])
    ensures forall i :: 0 <= i < |Collapse(s)| - 1 ==> !(Collapse(s)[i] == '-' && Collapse(s)[i + 1] == '-')
    ensures s != "" ==> Collapse(s) != "" && Collapse(s)[0] == s[0]
  {
    if |s| >= 2 {
      CollapseKeeps(s[1..]);
    }
  }

  /**
   A branch name is the prefix and one to twelve lower-case letters, digits and single dashes, not starting with a
   dash.
   */
  lemma BranchNameIsSafe(runId: RunId)
    requires DeriveRunBranchName(runId).Some?
    ensures var slug := Take(Slug(runId), 12);
      && DeriveRunBranchName(runId).value == "londi/run-" + slug && 1 <= |slug| <= 12 && slug[0] != '-'
      && (forall i :: 0 <= i < |slug| ==> SlugChar(slug[i]))
      && (forall i :: 0 <= i < |slug| - 1 ==> !(slug[i] == '-' && slug[i + 1] == '-'))
  {
    CollapseKeeps(Clean(runId));
    var collapsed, slug := Collapse(Clean(runId)), Take(Slug(runId), 12);
    var skipped := if collapsed[0] == '-' then 1 else 0;
    assert slug == collapsed[skipped..skipped + |slug|];
    forall i | 0 <= i < |slug| ensures slug[i] == collapsed[skipped + i] {}
    assert skipped == 1 ==> !(collapsed[0] == '-' && collapsed[0 + 1] == '-');
  }

  /** A text without dashes is collapsed as it is, whatever follows. */
  lemma {:induction false} CollapseAfterPlain(s: string, t: string)
    requires '-' !in s
    ensures Collapse(s + t) == s + Collapse(t)
  {
    if s == "" {
      assert s + t == t;
    } else {
      CollapseAfterPlain(s[1..], t);
      assert (s + t)[1..] == s[1..] + t && (s + t)[0] == s[0] && s[0] in s;
      if |s + t| < 2 { assert s[1..] + t == ""; }
      assert Collapse(s + t) == [s[0]] + Collapse(s[1..] + t);
      assert [s[0]] + (s[1..] + Collapse(t)) == s + Collapse(t);
    }
  }

  /** A run id that begins with twelve letters and digits is cut to these: whatever follows, the branch is the same. */
  lemma SlugsCollide(start: string, x: string)
    requires |start| == 12 && '-' !in Clean(start)
    ensures DeriveRunBranchName(start + x) == Some("londi/run-" + Clean(start))
  {
    assert Clean(start + x) == Clean(start) + Clean(x);
    CollapseAfterPlain(Clean(start), Clean(x));
    var collapsed, slug := Clean(start) + Collapse(Clean(x)), Slug(start + x);
    assert collapsed[0] == Clean(start)[0] && collapsed[11] == Clean(start)[11];
    assert slug == collapsed || slug == collapsed[..|collapsed| - 1];
    assert Take(slug, 12) == collapsed[..12] == Clean(start);
  }

  // ---------- locks ----------

  /** Joined with `#`, without escaping. */
  function LockKey(repositoryPath: Path, targetBranch: Branch): string { repositoryPath + "#" + targetBranch }

  /** The longer path contains the shorter one, a number sign and the start of its branch. */
  ghost predicate SplitDifferently(p: Path, b: Branch, q: Path, c: Branch) {
    exists x: string :: q == p + "#" + x && b == x + "#" + c
  }

  lemma LongerPath(p: Path, b: Branch, q: Path, c: Branch)
    requires |p| < |q| && LockKey(p, b) == LockKey(q, c)
    ensures SplitDifferently(p, b, q, c)
  {
    var key := LockKey(p, b);
    var x := q[|p| + 1..];
    assert q == key[..|q|] && p == key[..|p|] && key[|p|] == '#';
    assert q == p + "#" + x;
    assert b == key[|p| + 1..] && LockKey(q, c)[|q|..] == "#" + c;
    assert b == x + "#" + c;
  }

  lemma SplitsShareKey(p: Path, b: Branch, q: Path, c: Branch)
    requires SplitDifferently(p, b, q, c)
    ensures LockKey(p, b) == LockKey(q, c)
  {
    var x: string :| q == p + "#" + x && b == x + "#" + c;
    assert p + "#" + (x + "#" + c) == (p + "#" + x) + "#" + c;
  }

  /**
   Two locks share a key exactly when they are for the same repository and branch, or one path and branch split the same
   text at another number sign.
   */
  lemma LockKeysShared(p: Path, b: Branch, q: Path, c: Branch)
    ensures LockKey(p, b) == LockKey(q, c) <==>
      (p == q && b == c) || SplitDifferently(p, b, q, c) || SplitDifferently(q, c, p, b)
  {
    if LockKey(p, b) == LockKey(q, c) {
      if |p| < |q| {
        LongerPath(p, b, q, c);
      } else if |q| < |p| {
        LongerPath(q, c, p, b);
      } else {
        assert LockKey(p, b)[..|p|] == p && LockKey(q, c)[..|q|] == q;
        assert LockKey(p, b)[|p| + 1..] == b && LockKey(q, c)[|q| + 1..] == c;
      }
    }
    if SplitDifferently(p, b, q, c) { SplitsShareKey(p, b, q, c); }
    if SplitDifferently(q, c, p, b) { SplitsShareKey(q, c, p, b); }
  }

  lemma SplitNeedsSign(p: Path, b: Branch, q: Path, c: Branch)
    requires SplitDifferently(p, b, q, c)
    ensures '#' in b
  {
    var x: string :| q == p + "#" + x && b == x + "#" + c;
    assert b[|x|] == '#';
  }

  /** So keys never mix as long as branch names have no number sign. */
  lemma LockKeysDiffer(p: Path, b: Branch, q: Path, c: Branch)
    requires '#' !in b && '#' !in c
    ensures LockKey(p, b) == LockKey(q, c) <==> p == q && b == c
  {
    LockKeysShared(p, b, q, c);
    if SplitDifferently(p, b, q, c) { SplitNeedsSign(p, b, q, c); }
    if SplitDifferently(q, c, p, b) { SplitNeedsSign(q, c, p, b); }
  }

  /** With a number sign in names there is a collision for every repository and every two parts of a branch name. */
  lemma LockKeysCollide(p: Path, x: string, c: Branch)
    ensures LockKey(p, x + "#" + c) == LockKey(p + "#" + x, c)
    ensures p != p + "#" + x
  {
    assert SplitDifferently(p, x + "#" + c, p + "#" + x, c);
    SplitsShareKey(p, x + "#" + c, p + "#" + x, c);
    assert |p| < |p + "#" + x|;
  }

  type Locks = map<string, RunId>

  predicate MayAcquire(locks: Locks, key: string, runId: RunId) { key in locks ==> locks[key] == runId }

  class LockStore {
    var locks: Locks

    constructor ()
      ensures locks == map[]
    {
      locks := map[];
    }

    method Acquire(repositoryPath: Path, targetBranch: Branch, runId: RunId) returns (ok: bool)
      modifies this
      ensures ok <==> MayAcquire(old(locks), LockKey(repositoryPath, targetBranch), runId)
      ensures locks == if ok then old(locks)[LockKey(repositoryPath, targetBranch) := runId] else old(locks)
    {
      var key := LockKey(repositoryPath, targetBranch);
      if key in locks && locks[key] != runId { return false; }
      locks := locks[key := runId];
      return true;
    }

    /** A lock that is not held is no error; one of another run is. */
    method Release(repositoryPath: Path, targetBranch: Branch, runId: RunId) returns (r: Option<bool>)
      modifies this
      ensures r == Some(true) <==>
        LockKey(repositoryPath, targetBranch) in old(locks)
          && old(locks)[LockKey(repositoryPath, targetBranch)] == runId
      ensures r == Some(false) <==> LockKey(repositoryPath, targetBranch) !in old(locks)
      ensures locks == if r == Some(true) then old(locks) - {LockKey(repositoryPath, targetBranch)} else old(locks)
    {
      var key := LockKey(repositoryPath, targetBranch);
      if key !in locks { return Some(false); }
      if locks[key] != runId { return None; }
      locks := locks - {key};
      return Some(true);
    }
  }

  // ---------- the repository, and the Git calls ----------

  /** Branch refs, registered worktrees with the branch checked out in each, and the paths that exist on disk. */
  datatype Repo = Repo(refs: map<Branch, CommitId>, worktrees: map<Path, Branch>, paths: set<Path>)

  predicate CheckedOut(repo: Repo, branch: Branch) { exists p :: p in repo.worktrees && repo.worktrees[p] == branch }

  function GitBranch(repo: Repo, name: Branch, commit: CommitId): Option<Repo> {
    if name in repo.refs then None else Some(repo.(refs := repo.refs[name := commit]))
  }

  function GitWorktreeAdd(repo: Repo, path: Path, name: Branch): Option<Repo> {
    if name !in repo.refs || path in repo.paths || path in repo.worktrees || CheckedOut(repo, name) then None
    else Some(repo.(worktrees := repo.worktrees[path := name], paths := repo.paths + {path}))
  }

  /** Git refuses to delete a branch that a worktree has checked out. */
  function GitBranchDelete(repo: Repo, name: Branch): Option<Repo> {
    if name !in repo.refs || CheckedOut(repo, name) then None else Some(repo.(refs := repo.refs - {name}))
  }

  function GitWorktreeRemove(repo: Repo, path: Path): Option<Repo> {
    if path !in repo.worktrees then None
    else Some(repo.(worktrees := repo.worktrees - {path}, paths := repo.paths - {path}))
  }

  /** The calls that may fail of themselves. */
  datatype Fault =
    ShowRef | WorktreeList | BranchCall | WorktreeAdd | Undo | ManifestWrite | WorktreeRemove | BranchDelete

  datatype CreateError =
    | ValidationBlocked | LockConflict | NoSlug | BranchExists | PathExists | WorktreeRegistered | BranchFailed
    | WorktreeFailed | ManifestFailed

  function Attempted(call: Option<Repo>, fails: bool): Option<Repo> { if fails then None else call }

  /** Creating a branch at `base` and its worktree, once validation has passed. */
  function CreateAt(repo: Repo, name: Branch, path: Path, base: CommitId,
      faults: set<Fault>): (Repo, Option<CreateError>) {
    if ShowRef !in faults && name in repo.refs then (repo, Some(BranchExists))
    else if path in repo.paths then (repo, Some(PathExists))
    else if WorktreeList !in faults && path in repo.worktrees then (repo, Some(WorktreeRegistered))
    else match Attempted(GitBranch(repo, name, base), BranchCall in faults)
      case None => (repo, Some(BranchFailed))
      case Some(branched) =>
        match Attempted(GitWorktreeAdd(branched, path, name), WorktreeAdd in faults)
        case None => (Attempted(GitBranchDelete(branched, name), Undo in faults).GetOr(branched), Some(WorktreeFailed))
        case Some(added) => (added, if ManifestWrite in faults then Some(ManifestFailed) else None)
  }

  predicate CanValidate(repo: Repo, targetBranch: Branch, readable: bool) { readable && targetBranch in repo.refs }

  datatype CleanupAction = RemovedWorktree | WorktreeAbsent | DeletedBranch | BranchAbsent

  datatype CleanupError = NotEligible | RemoveFailed | DeleteFailed

  function Removal(repo: Repo, plan: Plan, fails: bool): Option<Repo> {
    if plan.removeWorktree && plan.worktreePath != "" && plan.worktreePath in repo.paths
    then Attempted(GitWorktreeRemove(repo, plan.worktreePath), fails)
    else Some(repo)
  }

  /** A branch lookup that fails is taken for an absent branch. */
  function Deletion(repo: Repo, plan: Plan, lookupFails: bool, fails: bool): Option<Repo> {
    if plan.deleteBranch && plan.branchName != "" && !lookupFails && plan.branchName in repo.refs
    then Attempted(GitBranchDelete(repo, plan.branchName), fails)
    else Some(repo)
  }

  /** The repository after a cleanup, and whether it completed. */
  function Cleaned(repo: Repo, plan: Plan, faults: set<Fault>): (Repo, Option<CleanupError>) {
    if !plan.eligible then (repo, Some(NotEligible))
    else match Removal(repo, plan, WorktreeRemove in faults)
      case None => (repo, Some(RemoveFailed))
      case Some(removed) =>
        match Deletion(removed, plan, ShowRef in faults, BranchDelete in faults)
        case None => (removed, Some(DeleteFailed))
        case Some(deleted) => (deleted, None)
  }

  class Repository {
    var repo: Repo

    constructor (initial: Repo)
      ensures repo == initial
    {
      repo := initial;
    }

    /** The lock is taken while validating, and kept when a later step fails. */
    method CreateRunWorkspace(
      lockStore: LockStore?, repositoryPath: Path, targetBranch: Branch, runId: RunId, worktreePath: Path,
      readable: bool, faults: set<Fault>)
      returns (r: Result<Branch, CreateError>)
      modifies this, lockStore
      ensures !CanValidate(old(repo), targetBranch, readable) ==> r == Err(ValidationBlocked) && repo == old(repo)
      ensures lockStore != null && !CanValidate(old(repo), targetBranch, readable) ==>
        lockStore.locks == old(lockStore.locks)
      ensures lockStore != null && CanValidate(old(repo), targetBranch, readable) ==>
        var key := LockKey(repositoryPath, targetBranch);
        && lockStore.locks == (if MayAcquire(old(lockStore.locks), key, runId) then old(lockStore.locks)[key := runId]
            else old(lockStore.locks))
        && (!MayAcquire(old(lockStore.locks), key, runId) ==> r == Err(LockConflict) && repo == old(repo))
      ensures CanValidate(old(repo), targetBranch, readable) && r != Err(LockConflict) ==>
        match DeriveRunBranchName(runId)
        case None => r == Err(NoSlug) && repo == old(repo)
        case Some(name) =>
          var (after, error) := CreateAt(old(repo), name, worktreePath, old(repo).refs[targetBranch], faults);
          repo == after && r == if error.Some? then Err(error.value) else Ok(name)
      ensures r == Err(LockConflict) ==> lockStore != null
    {
      if !readable || targetBranch !in repo.refs { return Err(ValidationBlocked); }
      var base := repo.refs[targetBranch];
      if lockStore != null {
        var acquired := lockStore.Acquire(repositoryPath, targetBranch, runId);
        if !acquired { return Err(LockConflict); }
      }
      var derived := DeriveRunBranchName(runId);
      if derived.None? { return Err(NoSlug); }
      var name := derived.value;
      if ShowRef !in faults && name in repo.refs { return Err(BranchExists); }
      if worktreePath in repo.paths { return Err(PathExists); }
      if WorktreeList !in faults && worktreePath in repo.worktrees { return Err(WorktreeRegistered); }
      var branched := Attempted(GitBranch(repo, name, base), BranchCall in faults);
      if branched.None? { return Err(BranchFailed); }
      repo := branched.value;
      var added := Attempted(GitWorktreeAdd(repo, worktreePath, name), WorktreeAdd in faults);
      if added.None? {
        var undone := Attempted(GitBranchDelete(repo, name), Undo in faults);
        if undone.Some? { repo := undone.value; }
        return Err(WorktreeFailed);
      }
      repo := added.value;
      if ManifestWrite in faults { return Err(ManifestFailed); }
      return Ok(name);
    }

    method ExecuteWorkspaceCleanupPlan(plan: Plan, faults: set<Fault>)
      returns (r: Result<seq<CleanupAction>, CleanupError>)
      modifies this
      ensures repo == Cleaned(old(repo), plan, faults).0
      ensures r.Err? <==> Cleaned(old(repo), plan, faults).1.Some?
      ensures r.Err? ==> Cleaned(old(repo), plan, faults).1 == Some(r.error)
      ensures r.Ok? ==>
        (DeletedBranch in r.value <==> plan.branchName in old(repo).refs && plan.branchName !in repo.refs)
      ensures r.Ok? ==>
        (RemovedWorktree in r.value <==>
        plan.worktreePath in old(repo).worktrees && plan.worktreePath !in repo.worktrees)
    {
      if !plan.eligible { return Err(NotEligible); }
      var results: seq<CleanupAction> := [];
      if plan.removeWorktree && plan.worktreePath != "" {
        if plan.worktreePath in repo.paths {
          var removed := Attempted(GitWorktreeRemove(repo, plan.worktreePath), WorktreeRemove in faults);
          if removed.None? { return Err(RemoveFailed); }
          repo := removed.value;
          results := results + [RemovedWorktree];
        } else {
          results := results + [WorktreeAbsent];
        }
      }
      if plan.deleteBranch && plan.branchName != "" {
        if ShowRef !in faults && plan.branchName in repo.refs {
          var deleted := Attempted(GitBranchDelete(repo, plan.branchName), BranchDelete in faults);
          if deleted.None? { return Err(DeleteFailed); }
          repo := deleted.value;
          results := results + [DeletedBranch];
        } else {
          results := results + [BranchAbsent];
        }
      }
      return Ok(results);
    }
  }

  // ---------- a failed creation is undone ----------

  /** The branch is free, nothing shows that the path is taken, and the call that makes the branch works. */
  predicate MakesBranch(repo: Repo, name: Branch, path: Path, faults: set<Fault>) {
    && name !in repo.refs && path !in repo.paths && (path !in repo.worktrees || WorktreeList in faults)
    && BranchCall !in faults
  }

  /** The worktree cannot be added to the new branch. */
  predicate WorktreeRefused(repo: Repo, name: Branch, path: Path, faults: set<Fault>) {
    WorktreeAdd in faults || path in repo.worktrees || CheckedOut(repo, name)
  }

  /**
   A creation fails and leaves something behind exactly when it made the branch and then either the worktree could not
   be added and the branch not be deleted again, or the manifest could not be written.
   */
  lemma FailedCreationRestores(repo: Repo, name: Branch, path: Path, base: CommitId, faults: set<Fault>)
    ensures
      var (after, error) := CreateAt(repo, name, path, base, faults);
      error.Some? && after != repo <==>
        && MakesBranch(repo, name, path, faults)
        && if WorktreeRefused(repo, name, path, faults) then Undo in faults || CheckedOut(repo, name)
           else ManifestWrite in faults
    ensures
      var (after, error) := CreateAt(repo, name, path, base, faults);
      error.None? <==>
        MakesBranch(repo, name, path, faults) && !WorktreeRefused(repo, name, path, faults) && ManifestWrite !in faults
  {
    if name !in repo.refs {
      assert repo.refs[name := base] - {name} == repo.refs;
      assert CheckedOut(repo.(refs := repo.refs[name := base]), name) <==> CheckedOut(repo, name);
    }
  }

  // ---------- cleanup can be repeated ----------

  /** What a cleanup that was interrupted or failed somewhere may leave. */
  predicate PartlyCleaned(before: Repo, plan: Plan, after: Repo) {
    || after == before
    || (plan.eligible && Some(after) == Removal(before, plan, false))
    || (plan.eligible && Removal(before, plan, false).Some?
        && Some(after) == Deletion(Removal(before, plan, false).value, plan, false, false))
  }

  lemma FaultyCleanupIsPartial(repo: Repo, plan: Plan, faults: set<Fault>)
    ensures PartlyCleaned(repo, plan, Cleaned(repo, plan, faults).0)
  {
  }

  lemma OneMoreRun(before: Repo, plan: Plan, after: Repo)
    requires PartlyCleaned(before, plan, after)
    ensures Cleaned(after, plan, {}) == Cleaned(before, plan, {})
  {
    var removed := Removal(before, plan, false);
    if removed.Some? {
      assert Removal(removed.value, plan, false) == removed;
      var deleted := Deletion(removed.value, plan, false, false);
      if deleted.Some? {
        assert Removal(deleted.value, plan, false) == deleted;
        assert Deletion(deleted.value, plan, false, false) == deleted;
      }
    }
  }

  /**
   However often a cleanup was interrupted or failed, one complete run reaches the same state, and the same verdict, as
   a single uninterrupted run.
   */
  lemma {:induction false} CleanupConverges(states: seq<Repo>, plan: Plan)
    requires states != [] && forall i :: 0 <= i < |states| - 1 ==> PartlyCleaned(states[i], plan, states[i + 1])
    ensures Cleaned(states[|states| - 1], plan, {}) == Cleaned(states[0], plan, {})
    decreases |states|
  {
    if |states| > 1 {
      CleanupConverges(states[..|states| - 1], plan);
      OneMoreRun(states[|states| - 2], plan, states[|states| - 1]);
    }
  }

  /** A completed cleanup left its branch behind exactly when it did not have to delete it, or the lookup failed. */
  lemma CompletedLeavesBranchIff(repo: Repo, plan: Plan, faults: set<Fault>)
    requires Cleaned(repo, plan, faults).1 == None
    ensures plan.branchName in Cleaned(repo, plan, faults).0.refs <==>
      plan.branchName in repo.refs && (!plan.deleteBranch || plan.branchName == "" || ShowRef in faults)
  {
  }

  // ---------- any sequence of operations ----------

  /** `live` are the workspaces created and not yet given to a cleanup. */
  datatype World = World(locks: Locks, repo: Repo, live: map<RunId, Branch>)

  datatype Step =
    | Acquire(repositoryPath: Path, targetBranch: Branch, runId: RunId)
    | Release(repositoryPath: Path, targetBranch: Branch, runId: RunId)
    | Create(repositoryPath: Path, targetBranch: Branch, runId: RunId, readable: bool, faults: set<Fault>)
    | Cleanup(plan: Plan, after: Repo)
    | MoveRef(branch: Branch, commit: CommitId)

  function AfterCreate(w: World, worktreeOf: RunId -> Path, step: Step): World
    requires step.Create?
  {
    var key := LockKey(step.repositoryPath, step.targetBranch);
    if !CanValidate(w.repo, step.targetBranch, step.readable) || !MayAcquire(w.locks, key, step.runId) then w
    else
      var locked := w.(locks := w.locks[key := step.runId]);
      match DeriveRunBranchName(step.runId)
      case None => locked
      case Some(name) =>
        var (repo, error) := CreateAt(w.repo, name, worktreeOf(step.runId), w.repo.refs[step.targetBranch],
            step.faults);
        locked.(repo := repo, live := if error.None? then w.live[step.runId := name] else w.live)
  }

  /**
   A cleanup works on the worktree of its own run; its plan may be old, its branch name anything, and it may stop
   anywhere.
   */
  ghost predicate Legal(w: World, worktreeOf: RunId -> Path, step: Step) {
    step.Cleanup? ==>
        step.plan.worktreePath == worktreeOf(step.plan.runId) && PartlyCleaned(w.repo, step.plan, step.after)
  }

  function After(w: World, worktreeOf: RunId -> Path, step: Step): World {
    match step
    case Acquire(p, b, r) =>
      if MayAcquire(w.locks, LockKey(p, b), r) then w.(locks := w.locks[LockKey(p, b) := r]) else w
    case Release(p, b, r) =>
      if LockKey(p, b) in w.locks && w.locks[LockKey(p, b)] == r then w.(locks := w.locks - {LockKey(p, b)}) else w
    case Create(_, _, _, _, _) => AfterCreate(w, worktreeOf, step)
    case Cleanup(plan, after) => w.(repo := after, live := w.live - {plan.runId})
    case MoveRef(branch, commit) => w.(repo := w.repo.(refs := w.repo.refs[branch := commit]))
  }

  ghost predicate Injective(worktreeOf: RunId -> Path) { forall r, s :: worktreeOf(r) == worktreeOf(s) ==> r == s }

  predicate Present(repo: Repo, path: Path, branch: Branch) {
    branch in repo.refs && path in repo.paths && path in repo.worktrees && repo.worktrees[path] == branch
  }

  /** Every live run has its own branch, checked out in its own worktree. */
  ghost predicate Exclusive(w: World, worktreeOf: RunId -> Path) {
    && (forall r :: r in w.live ==> Present(w.repo, worktreeOf(r), w.live[r]))
    && (forall r, s :: r in w.live && s in w.live && r != s ==> w.live[r] != w.live[s])
  }

  lemma CreateKeepsPresent(repo: Repo, name: Branch, path: Path, base: CommitId, faults: set<Fault>, p: Path, b: Branch)
    requires Present(repo, p, b)
    ensures Present(CreateAt(repo, name, path, base, faults).0, p, b)
    ensures CreateAt(repo, name, path, base, faults).1 == None ==>
      Present(CreateAt(repo, name, path, base, faults).0, path, name) && name != b && path != p
  {
  }

  /** Git's refusal to delete a checked-out branch protects every other run from a stale plan. */
  lemma CleanupKeepsPresent(repo: Repo, plan: Plan, after: Repo, p: Path, b: Branch)
    requires Present(repo, p, b) && p != plan.worktreePath && PartlyCleaned(repo, plan, after)
    ensures Present(after, p, b)
  {
    var removed := Removal(repo, plan, false);
    if removed.Some? {
      assert Present(removed.value, p, b);
      assert CheckedOut(removed.value, b);
    }
  }

  lemma CreateKeepsExclusive(w: World, worktreeOf: RunId -> Path, step: Step)
    requires Exclusive(w, worktreeOf) && step.Create?
    ensures Exclusive(AfterCreate(w, worktreeOf, step), worktreeOf)
  {
    if CanValidate(w.repo, step.targetBranch, step.readable) && DeriveRunBranchName(step.runId).Some? {
      var name, base, path := DeriveRunBranchName(step.runId).value, w.repo.refs[step.targetBranch],
          worktreeOf(step.runId);
      var (repo, error) := CreateAt(w.repo, name, path, base, step.faults);
      forall r | r in w.live
        ensures Present(repo, worktreeOf(r), w.live[r]) && (error == None ==> name != w.live[r] && r != step.runId)
      {
        CreateKeepsPresent(w.repo, name, path, base, step.faults, worktreeOf(r), w.live[r]);
      }
      assert error == None ==> Present(repo, path, name);
    }
  }

  lemma CleanupKeepsExclusive(w: World, worktreeOf: RunId -> Path, step: Step)
    requires Injective(worktreeOf) && Exclusive(w, worktreeOf) && step.Cleanup? && Legal(w, worktreeOf, step)
    ensures Exclusive(After(w, worktreeOf, step), worktreeOf)
  {
    forall r | r in w.live && r != step.plan.runId ensures Present(step.after, worktreeOf(r), w.live[r]) {
      CleanupKeepsPresent(w.repo, step.plan, step.after, worktreeOf(r), w.live[r]);
    }
  }

  lemma StepKeepsExclusive(w: World, worktreeOf: RunId -> Path, step: Step)
    requires Injective(worktreeOf) && Exclusive(w, worktreeOf) && Legal(w, worktreeOf, step)
    ensures Exclusive(After(w, worktreeOf, step), worktreeOf)
  {
    match step
    case Create(_, _, _, _, _) => CreateKeepsExclusive(w, worktreeOf, step);
    case Cleanup(_, _) => CleanupKeepsExclusive(w, worktreeOf, step);
    case Acquire(_, _, _) =>
    case Release(_, _, _) =>
    case MoveRef(_, _) =>
  }

  ghost predicate IsTrace(states: seq<World>, worktreeOf: RunId -> Path, steps: seq<Step>) {
    && |states| == |steps| + 1 && states[0].live == map[]
    && forall i :: 0 <= i < |steps| ==>
         Legal(states[i], worktreeOf, steps[i]) && states[i + 1] == After(states[i], worktreeOf, steps[i])
  }

  /**
   Exclusivity. Through any creations, locks, commits and cleanups, with any Git call failing, any cleanup stopping
   anywhere and plans however old, live runs never share a branch or a worktree, even when their 12-character names
   collide, and each one's branch and worktree are still there.
   */
  lemma {:induction false} LiveRunsAreExclusive(states: seq<World>, worktreeOf: RunId -> Path, steps: seq<Step>, n: nat)
    requires Injective(worktreeOf) && IsTrace(states, worktreeOf, steps) && n <= |steps|
    ensures Exclusive(states[n], worktreeOf)
  {
    if n > 0 {
      LiveRunsAreExclusive(states, worktreeOf, steps, n - 1);
      StepKeepsExclusive(states[n - 1], worktreeOf, steps[n - 1]);
    }
  }

  predicate Releases(step: Step, key: string, runId: RunId) {
    step.Release? && LockKey(step.repositoryPath, step.targetBranch) == key && step.runId == runId
  }

  /**
   Once a run holds a lock it is the only owner until it releases it: no other acquire, release, creation or cleanup
   takes it away.
   */
  lemma {:induction false} LockIsKept(states: seq<World>, worktreeOf: RunId -> Path, steps: seq<Step>, i: nat, j: nat,
      key: string, runId: RunId)
    requires IsTrace(states, worktreeOf, steps) && i <= j <= |steps|
    requires key in states[i].locks && states[i].locks[key] == runId
    requires forall k :: i <= k < j ==> !Releases(steps[k], key, runId)
    ensures key in states[j].locks && states[j].locks[key] == runId
    decreases j
  {
    if i < j {
      LockIsKept(states, worktreeOf, steps, i, j - 1, key, runId);
      assert states[j] == After(states[j - 1], worktreeOf, steps[j - 1]);
    }
  }
}
