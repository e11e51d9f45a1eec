/** The backup retention plan: sorted newest first, the newest of each mode are kept. */
module BackupRetention {
  import opened Sequences

  datatype Mode = Daily | Weekly | PreMaintenance | OtherMode

  datatype Backup = Backup(backupId: string, mode: Mode, createdAt: int)

  datatype Plan = Plan(keep: seq<Backup>, delete: seq<Backup>)

  /** Stable insertion: before the first strictly older backup. */
  function Insert(b: Backup, sorted: seq<Backup>): seq<Backup> {
    if sorted == [] || sorted[0].createdAt <= b.createdAt then [b] + sorted else [sorted[0]] + Insert(b, sorted[1..])
  }

  /** A stable sort, newest first. */
  function SortNewest(backups: seq<Backup>): seq<Backup> {
    if backups == [] then [] else Insert(backups[0], SortNewest(backups[1..]))
  }

  function Is(mode: Mode): Backup -> bool { (b: Backup) => b.mode == mode }

  function OfMode(backups: seq<Backup>, mode: Mode): seq<Backup> { Filter(backups, Is(mode)) }

  function Ids(backups: seq<Backup>): set<string> { set i | 0 <= i < |backups| :: backups[i].backupId }

  function In(ids: set<string>): Backup -> bool { (b: Backup) => b.backupId in ids }

  function NotIn(ids: set<string>): Backup -> bool { (b: Backup) => b.backupId !in ids }

  /** Backups before an operation count with the daily limit. */
  function Limit(mode: Mode, dailyKeep: nat, weeklyKeep: nat): nat {
    match mode case Daily => dailyKeep case Weekly => weeklyKeep case PreMaintenance => dailyKeep case OtherMode => 0
  }

  function KeptIds(sorted: seq<Backup>, dailyKeep: nat, weeklyKeep: nat): set<string> {
    Ids(Take(OfMode(sorted, Daily), dailyKeep)) + Ids(Take(OfMode(sorted, Weekly), weeklyKeep))
        + Ids(Take(OfMode(sorted, PreMaintenance), dailyKeep))
  }

  function CreateBackupRetentionPlan(backups: seq<Backup>, dailyKeep: nat, weeklyKeep: nat): Plan {
    var sorted := SortNewest(backups);
    var ids := KeptIds(sorted, dailyKeep, weeklyKeep);
    Plan(Filter(sorted, In(ids)), Filter(sorted, NotIn(ids)))
  }

  predicate NewestFirst(s: seq<Backup>) { forall i, j :: 0 <= i < j < |s| ==> s[i].createdAt >= s[j].createdAt }

  predicate DistinctIds(s: seq<Backup>) { forall i, j :: 0 <= i < j < |s| ==> s[i].backupId != s[j].backupId }

  // ---------- sorting ----------

  lemma {:induction false} InsertSorts(b: Backup, sorted: seq<Backup>)
    requires NewestFirst(sorted)
    ensures NewestFirst(Insert(b, sorted)) && multiset(Insert(b, sorted)) == multiset([b]) + multiset(sorted)
    ensures Insert(b, sorted)[0] == b || (sorted != [] && Insert(b, sorted)[0] == sorted[0])
  {
    if sorted != [] && sorted[0].createdAt > b.createdAt {
      InsertSorts(b, sorted[1..]);
      assert sorted == [sorted[0]] + sorted[1..];
      var rest := Insert(b, sorted[1..]);
      forall j | 0 <= j < |rest| ensures sorted[0].createdAt >= rest[j].createdAt {
        if j > 0 { assert rest[0].createdAt >= rest[j].createdAt; }
      }
    }
  }

  lemma {:induction false} SortSorts(backups: seq<Backup>)
    ensures NewestFirst(SortNewest(backups)) && multiset(SortNewest(backups)) == multiset(backups)
  {
    if backups != [] {
      SortSorts(backups[1..]);
      InsertSorts(backups[0], SortNewest(backups[1..]));
      assert backups == [backups[0]] + backups[1..];
    }
  }

  lemma {:induction false} SortedStays(sorted: seq<Backup>)
    requires NewestFirst(sorted)
    ensures SortNewest(sorted) == sorted
  {
    if sorted != [] {
      SortedStays(sorted[1..]);
      if |sorted| > 1 { assert sorted[0].createdAt >= sorted[1].createdAt; }
    }
  }

  lemma {:induction false} FilterKeepsOrder(s: seq<Backup>, p: Backup -> bool)
    requires NewestFirst(s)
    ensures NewestFirst(Filter(s, p))
  {
    if s != [] {
      FilterKeepsOrder(s[1..], p);
      FilterMembers(s[1..], p);
      var rest := Filter(s[1..], p);
      forall j | 0 <= j < |rest| ensures s[0].createdAt >= rest[j].createdAt {
        assert rest[j] in s[1..];
        var k :| 0 <= k < |s[1..]| && s[1..][k] == rest[j];
        assert s[k + 1] == rest[j];
      }
    }
  }

  lemma {:induction false} FilterKeepsDistinct(s: seq<Backup>, p: Backup -> bool)
    requires DistinctIds(s)
    ensures DistinctIds(Filter(s, p))
  {
    if s != [] {
      FilterKeepsDistinct(s[1..], p);
      FilterMembers(s[1..], p);
      var rest := Filter(s[1..], p);
      forall j | 0 <= j < |rest| ensures s[0].backupId != rest[j].backupId {
        assert rest[j] in s[1..];
        var k :| 0 <= k < |s[1..]| && s[1..][k] == rest[j];
        assert s[k + 1] == rest[j];
      }
    }
  }

  lemma {:induction false} FilterSplits(s: seq<Backup>, p: Backup -> bool, q: Backup -> bool)
    requires forall b :: p(b) != q(b)
    ensures multiset(Filter(s, p)) + multiset(Filter(s, q)) == multiset(s)
  {
    if s != [] {
      FilterSplits(s[1..], p, q);
      assert s == [s[0]] + s[1..];
    }
  }

  lemma OccursTwice(t: seq<Backup>, i: nat, j: nat)
    requires i < j < |t| && t[i] == t[j]
    ensures multiset(t)[t[i]] >= 2
  {
    assert t == t[..i] + [t[i]] + t[i + 1..j] + [t[j]] + t[j + 1..];
  }

  lemma DistinctOccursOnce(s: seq<Backup>, a: nat)
    requires DistinctIds(s) && a < |s|
    ensures multiset(s)[s[a]] == 1
  {
    assert s == s[..a] + [s[a]] + s[a + 1..];
    assert s[a] !in s[..a] && s[a] !in s[a + 1..];
  }

  /** Sorting keeps ids distinct: it is a permutation. */
  lemma DistinctPermutation(s: seq<Backup>, t: seq<Backup>)
    requires DistinctIds(s) && multiset(s) == multiset(t)
    ensures DistinctIds(t)
  {
    forall i, j | 0 <= i < j < |t| ensures t[i].backupId != t[j].backupId {
      assert t[i] in multiset(s) && t[j] in multiset(s);
      var a :| 0 <= a < |s| && s[a] == t[i];
      var b :| 0 <= b < |s| && s[b] == t[j];
      DistinctOccursOnce(s, a);
      if t[i] == t[j] { OccursTwice(t, i, j); }
    }
  }

  lemma {:induction false} InsertCount(b: Backup, sorted: seq<Backup>, p: Backup -> bool)
    ensures |Filter(Insert(b, sorted), p)| == |Filter(sorted, p)| + if p(b) then 1 else 0
  {
    if sorted == [] || sorted[0].createdAt <= b.createdAt {
      assert ([b] + sorted)[1..] == sorted;
    } else {
      InsertCount(b, sorted[1..], p);
      assert ([sorted[0]] + Insert(b, sorted[1..]))[1..] == Insert(b, sorted[1..]);
    }
  }

  lemma {:induction false} SortCount(backups: seq<Backup>, p: Backup -> bool)
    ensures |Filter(SortNewest(backups), p)| == |Filter(backups, p)|
  {
    if backups != [] {
      SortCount(backups[1..], p);
      InsertCount(backups[0], SortNewest(backups[1..]), p);
    }
  }

  // ---------- the plan ----------

  lemma IdsOfTake(s: seq<Backup>, n: nat, i: nat)
    requires DistinctIds(s) && i < |s|
    ensures s[i].backupId in Ids(Take(s, n)) <==> i < n
  {
    var taken := Take(s, n);
    if i < n { assert taken[i] == s[i]; }
    if s[i].backupId in Ids(taken) {
      var k :| 0 <= k < |taken| && taken[k].backupId == s[i].backupId;
      assert s[k] == taken[k];
    }
  }

  /** An id that a mode keeps belongs to a backup of that mode. */
  lemma KeptOfOtherMode(sorted: seq<Backup>, mode: Mode, n: nat, b: Backup)
    requires DistinctIds(sorted) && b in sorted && b.backupId in Ids(Take(OfMode(sorted, mode), n))
    ensures b.mode == mode
  {
    var taken := Take(OfMode(sorted, mode), n);
    var k :| 0 <= k < |taken| && taken[k].backupId == b.backupId;
    FilterMembers(sorted, Is(mode));
    assert OfMode(sorted, mode)[k] in sorted;
  }

  lemma KeptIff(sorted: seq<Backup>, dailyKeep: nat, weeklyKeep: nat, mode: Mode, i: nat)
    requires DistinctIds(sorted) && i < |OfMode(sorted, mode)|
    ensures OfMode(sorted, mode)[i].backupId in KeptIds(sorted, dailyKeep, weeklyKeep) <==>
      i < Limit(mode, dailyKeep, weeklyKeep)
  {
    var l := OfMode(sorted, mode);
    FilterMembers(sorted, Is(mode));
    FilterKeepsDistinct(sorted, Is(mode));
    assert l[i] in sorted && l[i].mode == mode;
    IdsOfTake(l, Limit(mode, dailyKeep, weeklyKeep), i);
    if l[i].backupId in Ids(Take(OfMode(sorted, Daily), dailyKeep)) { KeptOfOtherMode(sorted, Daily, dailyKeep, l[i]); }
    if l[i].backupId in Ids(Take(OfMode(sorted, Weekly), weeklyKeep)) {
      KeptOfOtherMode(sorted, Weekly, weeklyKeep, l[i]);
    }
    if l[i].backupId in Ids(Take(OfMode(sorted, PreMaintenance), dailyKeep)) {
      KeptOfOtherMode(sorted, PreMaintenance, dailyKeep, l[i]);
    }
  }

  /** Keep and delete share out the input, each newest first. */
  lemma PlanIsPartition(backups: seq<Backup>, dailyKeep: nat, weeklyKeep: nat)
    ensures var plan := CreateBackupRetentionPlan(backups, dailyKeep, weeklyKeep);
      multiset(plan.keep) + multiset(plan.delete) == multiset(backups) && NewestFirst(plan.keep)
        && NewestFirst(plan.delete)
  {
    var sorted := SortNewest(backups);
    var ids := KeptIds(sorted, dailyKeep, weeklyKeep);
    SortSorts(backups);
    FilterKeepsOrder(sorted, In(ids));
    FilterKeepsOrder(sorted, NotIn(ids));
    FilterSplits(sorted, In(ids), NotIn(ids));
  }

  /** Some mode keeps this id: it is the id of one of the newest backups of the mode, within its limit. */
  ghost predicate WithinSomeLimit(sorted: seq<Backup>, dailyKeep: nat, weeklyKeep: nat, id: string) {
    exists mode, k ::
      0 <= k < |OfMode(sorted, mode)| && k < Limit(mode, dailyKeep, weeklyKeep)
        && OfMode(sorted, mode)[k].backupId == id
  }

  lemma IdTaken(s: seq<Backup>, n: nat, id: string)
    ensures id in Ids(Take(s, n)) <==> exists k :: 0 <= k < |s| && k < n && s[k].backupId == id
  {
    var taken := Take(s, n);
    if id in Ids(taken) {
      var k :| 0 <= k < |taken| && taken[k].backupId == id;
      assert s[k] == taken[k];
    }
    if k :| 0 <= k < |s| && k < n && s[k].backupId == id {
      assert taken[k] == s[k];
    }
  }

  lemma KeptIdsIff(sorted: seq<Backup>, dailyKeep: nat, weeklyKeep: nat, id: string)
    ensures id in KeptIds(sorted, dailyKeep, weeklyKeep) <==> WithinSomeLimit(sorted, dailyKeep, weeklyKeep, id)
  {
    IdTaken(OfMode(sorted, Daily), dailyKeep, id);
    IdTaken(OfMode(sorted, Weekly), weeklyKeep, id);
    IdTaken(OfMode(sorted, PreMaintenance), dailyKeep, id);
    if mode, k :|
      && 0 <= k < |OfMode(sorted, mode)| && k < Limit(mode, dailyKeep, weeklyKeep)
      && OfMode(sorted, mode)[k].backupId == id
    {
      match mode case Daily => case Weekly => case PreMaintenance => case OtherMode =>
    }
  }

  /** No backup of the mode past its limit carries an id that some mode keeps. */
  ghost predicate NoKeptIdPastLimit(sorted: seq<Backup>, dailyKeep: nat, weeklyKeep: nat, mode: Mode) {
    forall i :: Limit(mode, dailyKeep, weeklyKeep) <= i < |OfMode(sorted, mode)| ==>
      !WithinSomeLimit(sorted, dailyKeep, weeklyKeep, OfMode(sorted, mode)[i].backupId)
  }

  /** A filter that holds of the first `n` elements selects exactly those if and only if it holds of no other. */
  lemma FilterFirstIff(s: seq<Backup>, p: Backup -> bool, n: nat)
    requires forall i :: 0 <= i < |s| && i < n ==> p(s[i])
    ensures Filter(s, p) == Take(s, n) <==> forall i :: n <= i < |s| ==> !p(s[i])
  {
    if n < |s| {
      assert s == s[..n] + s[n..];
      FilterConcat(s[..n], s[n..], p);
      FilterAll(s[..n], p);
      FilterNone(s[n..], p);
      assert forall i :: n <= i < |s| ==> s[i] == s[n..][i - n];
      assert |Filter(s, p)| == n + |Filter(s[n..], p)|;
    } else {
      FilterAll(s, p);
    }
  }

  lemma KeptOfMode(sorted: seq<Backup>, ids: set<string>, mode: Mode)
    ensures OfMode(Filter(sorted, In(ids)), mode) == Filter(OfMode(sorted, mode), In(ids))
  {
    var both := (b: Backup) => b.backupId in ids && b.mode == mode;
    FilterTwice(sorted, In(ids), Is(mode), both);
    FilterTwice(sorted, Is(mode), In(ids), both);
  }

  /**
   For any backups, a mode keeps exactly its newest up to its limit if and only if none of its backups past the limit
   carries an id found within the limit of some mode; the ids of all modes are kept in one set.
   */
  lemma KeepsTopIff(backups: seq<Backup>, dailyKeep: nat, weeklyKeep: nat, mode: Mode)
    ensures
      var sorted := SortNewest(backups);
      OfMode(CreateBackupRetentionPlan(backups, dailyKeep, weeklyKeep).keep, mode)
        == Take(OfMode(sorted, mode), Limit(mode, dailyKeep, weeklyKeep))
      <==> NoKeptIdPastLimit(sorted, dailyKeep, weeklyKeep, mode)
  {
    var sorted := SortNewest(backups);
    var ids, l := KeptIds(sorted, dailyKeep, weeklyKeep), OfMode(sorted, mode);
    KeptOfMode(sorted, ids, mode);
    forall i | 0 <= i < |l| ensures In(ids)(l[i]) <==> WithinSomeLimit(sorted, dailyKeep, weeklyKeep, l[i].backupId) {
      KeptIdsIff(sorted, dailyKeep, weeklyKeep, l[i].backupId);
    }
    FilterFirstIff(l, In(ids), Limit(mode, dailyKeep, weeklyKeep));
  }

  /** Unique ids are enough: each mode then keeps exactly its newest backups up to its limit. */
  lemma KeepsTopOfMode(backups: seq<Backup>, dailyKeep: nat, weeklyKeep: nat, mode: Mode)
    requires DistinctIds(backups)
    ensures OfMode(CreateBackupRetentionPlan(backups, dailyKeep, weeklyKeep).keep, mode)
      == Take(OfMode(SortNewest(backups), mode), Limit(mode, dailyKeep, weeklyKeep))
  {
    var sorted := SortNewest(backups);
    SortSorts(backups);
    DistinctPermutation(backups, sorted);
    var l := OfMode(sorted, mode);
    forall i | Limit(mode, dailyKeep, weeklyKeep) <= i < |l|
      ensures !WithinSomeLimit(sorted, dailyKeep, weeklyKeep, l[i].backupId)
    {
      KeptIff(sorted, dailyKeep, weeklyKeep, mode, i);
      KeptIdsIff(sorted, dailyKeep, weeklyKeep, l[i].backupId);
    }
    KeepsTopIff(backups, dailyKeep, weeklyKeep, mode);
  }

  /** Each mode keeps as many as it may. */
  lemma KeepsLimit(backups: seq<Backup>, dailyKeep: nat, weeklyKeep: nat, mode: Mode)
    requires DistinctIds(backups)
    ensures |OfMode(CreateBackupRetentionPlan(backups, dailyKeep, weeklyKeep).keep, mode)|
      == Min(Limit(mode, dailyKeep, weeklyKeep), |OfMode(backups, mode)|)
  {
    KeepsTopOfMode(backups, dailyKeep, weeklyKeep, mode);
    SortCount(backups, Is(mode));
  }

  /**
   No backup that is deleted is newer than one of its mode that is kept, if no id past the limit of the mode is kept:
   the condition under which the mode keeps exactly its newest.
   */
  lemma DeletedIsNotNewer(backups: seq<Backup>, dailyKeep: nat, weeklyKeep: nat, kept: Backup, deleted: Backup)
    requires kept.mode == deleted.mode
    requires NoKeptIdPastLimit(SortNewest(backups), dailyKeep, weeklyKeep, kept.mode)
    requires kept in CreateBackupRetentionPlan(backups, dailyKeep, weeklyKeep).keep
    requires deleted in CreateBackupRetentionPlan(backups, dailyKeep, weeklyKeep).delete
    ensures kept.createdAt >= deleted.createdAt
  {
    var sorted := SortNewest(backups);
    var ids, l := KeptIds(sorted, dailyKeep, weeklyKeep), OfMode(sorted, kept.mode);
    SortSorts(backups);
    FilterKeepsOrder(sorted, Is(kept.mode));
    FilterMembers(sorted, Is(kept.mode));
    FilterMembers(sorted, In(ids));
    FilterMembers(sorted, NotIn(ids));
    var a :| 0 <= a < |l| && l[a] == kept;
    var b :| 0 <= b < |l| && l[b] == deleted;
    KeptIdsIff(sorted, dailyKeep, weeklyKeep, l[a].backupId);
    KeptIdsIff(sorted, dailyKeep, weeklyKeep, l[b].backupId);
    assert a < Limit(kept.mode, dailyKeep, weeklyKeep) <= b;
  }

  /** A filter that holds of the first `n` elements leaves them first. */
  lemma FilterKeepsFirst(s: seq<Backup>, p: Backup -> bool, n: nat)
    requires forall i :: 0 <= i < |s| && i < n ==> p(s[i])
    ensures Take(Filter(s, p), n) == Take(s, n)
  {
    if n < |s| {
      assert s == s[..n] + s[n..];
      FilterConcat(s[..n], s[n..], p);
      FilterAll(s[..n], p);
    } else {
      FilterAll(s, p);
    }
  }

  /** Each mode of what was kept has the same newest up to its limit. */
  lemma KeptHasSameTop(backups: seq<Backup>, dailyKeep: nat, weeklyKeep: nat, mode: Mode)
    ensures
      var sorted := SortNewest(backups);
      var kept, n := Filter(sorted, In(KeptIds(sorted, dailyKeep, weeklyKeep))), Limit(mode, dailyKeep, weeklyKeep);
      Take(OfMode(kept, mode), n) == Take(OfMode(sorted, mode), n)
  {
    var sorted := SortNewest(backups);
    var ids, l := KeptIds(sorted, dailyKeep, weeklyKeep), OfMode(sorted, mode);
    forall i | 0 <= i < |l| && i < Limit(mode, dailyKeep, weeklyKeep) ensures In(ids)(l[i]) {
      KeptIdsIff(sorted, dailyKeep, weeklyKeep, l[i].backupId);
    }
    KeptOfMode(sorted, ids, mode);
    FilterKeepsFirst(l, In(ids), Limit(mode, dailyKeep, weeklyKeep));
  }

  /** For any backups, planning again over what was kept deletes nothing. */
  lemma ReplanKeepsAll(backups: seq<Backup>, dailyKeep: nat, weeklyKeep: nat)
    ensures var kept := CreateBackupRetentionPlan(backups, dailyKeep, weeklyKeep).keep;
      CreateBackupRetentionPlan(kept, dailyKeep, weeklyKeep) == Plan(kept, [])
  {
    var sorted, kept := SortNewest(backups), CreateBackupRetentionPlan(backups, dailyKeep, weeklyKeep).keep;
    var ids := KeptIds(sorted, dailyKeep, weeklyKeep);
    PlanIsPartition(backups, dailyKeep, weeklyKeep);
    SortedStays(kept);
    KeptHasSameTop(backups, dailyKeep, weeklyKeep, Daily);
    KeptHasSameTop(backups, dailyKeep, weeklyKeep, Weekly);
    KeptHasSameTop(backups, dailyKeep, weeklyKeep, PreMaintenance);
    assert KeptIds(kept, dailyKeep, weeklyKeep) == ids;
    FilterMembers(sorted, In(ids));
    forall i | 0 <= i < |kept| ensures kept[i].backupId in ids { assert kept[i] in kept; }
    FilterAll(kept, In(ids));
    FilterNone(kept, NotIn(ids));
  }

  lemma FilterExceeds(s: seq<Backup>, p: Backup -> bool, n: nat, i: nat)
    requires n <= i < |s| && p(s[i]) && forall j :: 0 <= j < n ==> p(s[j])
    ensures |Filter(s, p)| > n
  {
    assert s == s[..n] + s[n..];
    FilterConcat(s[..n], s[n..], p);
    FilterAll(s[..n], p);
    FilterNone(s[n..], p);
    assert s[n..][i - n] == s[i];
  }

  /**
   An id that some mode keeps, carried past the limit of the same or another mode: that mode keeps more than its limit.
   */
  lemma SharedIdExceedsLimit(
    backups: seq<Backup>, dailyKeep: nat, weeklyKeep: nat, keeper: Mode, k: nat, mode: Mode, i: nat)
    requires k < Limit(keeper, dailyKeep, weeklyKeep) && k < |OfMode(SortNewest(backups), keeper)|
    requires Limit(mode, dailyKeep, weeklyKeep) <= i < |OfMode(SortNewest(backups), mode)|
    requires OfMode(SortNewest(backups), keeper)[k].backupId == OfMode(SortNewest(backups), mode)[i].backupId
    ensures |OfMode(CreateBackupRetentionPlan(backups, dailyKeep, weeklyKeep).keep, mode)|
      > Limit(mode, dailyKeep, weeklyKeep)
  {
    var sorted, n := SortNewest(backups), Limit(mode, dailyKeep, weeklyKeep);
    var ids, l := KeptIds(sorted, dailyKeep, weeklyKeep), OfMode(sorted, mode);
    KeptOfMode(sorted, ids, mode);
    forall j | 0 <= j < n ensures In(ids)(l[j]) { KeptIdsIff(sorted, dailyKeep, weeklyKeep, l[j].backupId); }
    KeptIdsIff(sorted, dailyKeep, weeklyKeep, l[i].backupId);
    FilterExceeds(l, In(ids), n, i);
  }

  /** Such ids exist across modes: a daily backup past its limit is kept because a weekly one has its id. */
  lemma WeeklyIdKeepsDaily(id: string, other: string, t: int)
    ensures
      var weekly, newer, older := Backup(id, Weekly, t), Backup(other, Daily, t), Backup(id, Daily, t - 1);
      CreateBackupRetentionPlan([weekly, newer, older], 1, 1) == Plan([weekly, newer, older], [])
  {
    var weekly, newer, older := Backup(id, Weekly, t), Backup(other, Daily, t), Backup(id, Daily, t - 1);
    var all := [weekly, newer, older];
    SortedStays(all);
    assert all[1..] == [newer, older] && [newer, older][1..] == [older] && [older][1..] == [];
    FilterAll([newer, older], Is(Daily));
    FilterNone([newer, older], Is(Weekly));
    assert OfMode(all, Daily) == [newer, older] && OfMode(all, Weekly) == [weekly];
    assert Take([newer, older], 1) == [newer] && Take([weekly], 1) == [weekly];
    var ids := KeptIds(all, 1, 1);
    assert [newer][0].backupId == other && [weekly][0].backupId == id;
    assert other in Ids([newer]) && id in Ids([weekly]);
    FilterAll(all, In(ids));
    FilterNone(all, NotIn(ids));
  }
}
