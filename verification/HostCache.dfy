/** The connector's TTL cache with its guard on forced refreshes. */
module HostCache {
  import opened Wrappers

  const MANUAL_REFRESH_GUARD_MS := 10_000

  datatype Entry<V> = Entry(value: V, storedAtMs: int, lastManualRefreshMs: int)

  /**
   One read: the clock as the guard sees it, then as the freshness check sees it, and what the producer would return,
   or `None` when it throws.
   */
  datatype Read<V> = Read(force: bool, guardNow: int, current: int, produced: Option<V>)

  datatype Answer<V> = Cached(value: V) | Produced(value: V) | ProducerThrew

  predicate RefreshAllowed<V>(cached: Option<Entry<V>>, now: int) {
    cached.None? || now - cached.value.lastManualRefreshMs >= MANUAL_REFRESH_GUARD_MS
  }

  /** The read is answered from the cache. */
  predicate Serves<V>(cached: Option<Entry<V>>, ttlMs: int, r: Read<V>) {
    && !(r.force && RefreshAllowed(cached, r.guardNow))
    && cached.Some? && r.current - cached.value.storedAtMs < ttlMs
  }

  function LastManual<V>(cached: Option<Entry<V>>): int { if cached.Some? then cached.value.lastManualRefreshMs else 0 }

  function AfterRead<V>(cached: Option<Entry<V>>, ttlMs: int, r: Read<V>): (Option<Entry<V>>, Answer<V>) {
    if Serves(cached, ttlMs, r) then (cached, Cached(cached.value.value))
    else match r.produced
      case None => (cached, ProducerThrew)
      case Some(v) => (Some(Entry(v, r.current, if r.force then r.current else LastManual(cached))), Produced(v))
  }

  class HostConnectorCache<V> {
    var cache: map<string, Entry<V>>

    constructor ()
      ensures cache == map[]
    {
      cache := map[];
    }

    function At(key: string): Option<Entry<V>>
      reads this
    {
      if key in cache then Some(cache[key]) else None
    }

    method ReadCached(key: string, ttlMs: int, r: Read<V>) returns (answer: Answer<V>)
      modifies this
      ensures (At(key), answer) == AfterRead(old(At(key)), ttlMs, r)
      ensures forall k: string :: k != key ==> At(k) == old(At(k))
    {
      var forceAllowed := r.force && (key !in cache
          || r.guardNow - cache[key].lastManualRefreshMs >= MANUAL_REFRESH_GUARD_MS);
      if !forceAllowed && key in cache && r.current - cache[key].storedAtMs < ttlMs { return Cached(cache[key].value); }
      if r.produced.None? { return ProducerThrew; }
      var lastManual := if r.force then r.current else if key in cache then cache[key].lastManualRefreshMs else 0;
      cache := cache[key := Entry(r.produced.value, r.current, lastManual)];
      return Produced(r.produced.value);
    }
  }

  // ---------- any sequence of reads of one key ----------

  function EntryAfter<V>(ttlMs: int, log: seq<Read<V>>): Option<Entry<V>> {
    if log == [] then None else AfterRead(EntryAfter(ttlMs, log[..|log| - 1]), ttlMs, log[|log| - 1]).0
  }

  function AnswerAt<V>(ttlMs: int, log: seq<Read<V>>, i: nat): Answer<V>
    requires i < |log|
  {
    AfterRead(EntryAfter(ttlMs, log[..i]), ttlMs, log[i]).1
  }

  /** The producer was called, and returned. */
  predicate Produces<V>(ttlMs: int, log: seq<Read<V>>, i: nat)
    requires i < |log|
  {
    AnswerAt(ttlMs, log, i).Produced?
  }

  ghost predicate ClockNeverGoesBack<V>(log: seq<Read<V>>) {
    && (forall i :: 0 <= i < |log| ==> log[i].guardNow <= log[i].current)
    && (forall i, j :: 0 <= i < j < |log| ==> log[i].current <= log[j].guardNow)
  }

  lemma PrefixProduces<V>(ttlMs: int, log: seq<Read<V>>, n: nat)
    requires n <= |log|
    ensures forall i :: 0 <= i < n ==> Produces(ttlMs, log[..n], i) == Produces(ttlMs, log, i)
  {
    forall i | 0 <= i < n ensures Produces(ttlMs, log[..n], i) == Produces(ttlMs, log, i) {
      assert log[..n][..i] == log[..i];
    }
  }

  lemma ReadCases<V>(cached: Option<Entry<V>>, ttlMs: int, r: Read<V>)
    ensures var (next, answer) := AfterRead(cached, ttlMs, r);
      && (!answer.Produced? ==> next == cached)
      && (answer.Produced? ==>
           next == Some(Entry(answer.value, r.current, if r.force then r.current else LastManual(cached))))
  {
  }

  /**
   The entry holds the result and time of the last producer call that returned, and its guard time is no earlier than
   any forced one.
   */
  lemma {:induction false} EntryIsLatest<V>(ttlMs: int, log: seq<Read<V>>) returns (last: Option<nat>)
    requires ClockNeverGoesBack(log)
    ensures EntryAfter(ttlMs, log).Some? <==> last.Some?
    ensures last.Some? ==>
      && last.value < |log| && Produces(ttlMs, log, last.value)
      && EntryAfter(ttlMs, log).value.storedAtMs == log[last.value].current
      && AnswerAt(ttlMs, log, last.value) == Produced(EntryAfter(ttlMs, log).value.value)
    ensures forall i :: 0 <= i < |log| && Produces(ttlMs, log, i) ==> last.Some? && i <= last.value
    ensures forall i :: 0 <= i < |log| && Produces(ttlMs, log, i) && log[i].force ==>
      EntryAfter(ttlMs, log).value.lastManualRefreshMs >= log[i].current
  {
    if log == [] { return None; }
    var n := |log| - 1;
    last := EntryIsLatest(ttlMs, log[..n]);
    PrefixProduces(ttlMs, log, n);
    ReadCases(EntryAfter(ttlMs, log[..n]), ttlMs, log[n]);
    assert last.Some? ==> log[..n][..last.value] == log[..last.value];
    if Produces(ttlMs, log, n) { last := Some(n); }
  }

  /** Whatever is served from the cache is the last produced value, and is younger than its time to live. */
  lemma ServedIsFresh<V>(ttlMs: int, log: seq<Read<V>>, i: nat) returns (j: nat)
    requires ClockNeverGoesBack(log) && i < |log| && AnswerAt(ttlMs, log, i).Cached?
    ensures j < i && AnswerAt(ttlMs, log, j) == Produced(AnswerAt(ttlMs, log, i).value)
    ensures log[i].current - log[j].current < ttlMs
    ensures forall k :: j < k < i ==> !Produces(ttlMs, log, k)
  {
    var last := EntryIsLatest(ttlMs, log[..i]);
    j := last.value;
    PrefixProduces(ttlMs, log, i);
    assert log[..i][..j] == log[..j];
  }

  /**
   A forced producer call comes at least ten seconds after any earlier forced one, an unforced call at least one TTL
   after any earlier call.
   */
  lemma CallsAreApart<V>(ttlMs: int, log: seq<Read<V>>, i: nat, j: nat)
    requires ClockNeverGoesBack(log) && ttlMs >= MANUAL_REFRESH_GUARD_MS && i < j < |log|
    requires Produces(ttlMs, log, i) && !AnswerAt(ttlMs, log, j).Cached?
    ensures log[i].force && log[j].force ==> log[j].current - log[i].current >= MANUAL_REFRESH_GUARD_MS
    ensures !log[j].force ==> log[j].current - log[i].current >= ttlMs
  {
    var last := EntryIsLatest(ttlMs, log[..j]);
    PrefixProduces(ttlMs, log, j);
    assert Produces(ttlMs, log[..j], i) && log[..j][i] == log[i];
    assert log[i].current <= log[last.value].current;
  }

  // ---------- the rate ----------

  /** The reads, among the first `n`, that called the producer within the window and got a value, of one kind. */
  function CallsIn<V>(ttlMs: int, log: seq<Read<V>>, n: nat, force: bool, from: int, to: int): (r: seq<nat>)
    requires n <= |log|
    ensures forall k :: 0 <= k < |r| ==>
      r[k] < n && Produces(ttlMs, log, r[k]) && log[r[k]].force == force && from <= log[r[k]].current <= to
    ensures forall k :: 0 <= k < |r| - 1 ==> r[k] < r[k + 1]
  {
    if n == 0 then []
    else
      var rest := CallsIn(ttlMs, log, n - 1, force, from, to);
      if Produces(ttlMs, log, n - 1) && log[n - 1].force == force && from <= log[n - 1].current <= to
        then rest + [n - 1] else rest
  }

  function TimesOf<V>(log: seq<Read<V>>, calls: seq<nat>): seq<int>
    requires forall k :: 0 <= k < |calls| ==> calls[k] < |log|
  {
    seq(|calls|, k requires 0 <= k < |calls| => log[calls[k]].current)
  }

  ghost predicate Spaced(times: seq<int>, gap: int) {
    forall i :: 0 <= i < |times| - 1 ==> times[i + 1] - times[i] >= gap
  }

  lemma {:induction false} SpacedCount(times: seq<int>, gap: int)
    requires gap > 0 && Spaced(times, gap) && times != []
    ensures (|times| - 1) * gap <= times[|times| - 1] - times[0]
  {
    if |times| > 1 {
      SpacedCount(times[..|times| - 1], gap);
      assert (|times| - 1) * gap == (|times| - 2) * gap + gap;
    }
  }

  /** How far apart producer calls of one kind are. */
  function Gap(ttlMs: int, force: bool): int { if force then MANUAL_REFRESH_GUARD_MS else ttlMs }

  lemma CallsAreSpaced<V>(ttlMs: int, log: seq<Read<V>>, force: bool, from: int, to: int)
    requires ClockNeverGoesBack(log) && ttlMs >= MANUAL_REFRESH_GUARD_MS
    ensures Spaced(TimesOf(log, CallsIn(ttlMs, log, |log|, force, from, to)), Gap(ttlMs, force))
  {
    var calls := CallsIn(ttlMs, log, |log|, force, from, to);
    forall k | 0 <= k < |calls| - 1
      ensures log[calls[k + 1]].current - log[calls[k]].current >= Gap(ttlMs, force)
    {
      CallsAreApart(ttlMs, log, calls[k], calls[k + 1]);
    }
  }

  lemma TimesMonotone(a: int, b: int, factor: int)
    requires a <= b && factor > 0
    ensures a * factor <= b * factor
  {
  }

  lemma CountWithin(times: seq<int>, gap: int, from: int, span: nat)
    requires gap > 0 && Spaced(times, gap) && forall k :: 0 <= k < |times| ==> from <= times[k] <= from + span
    ensures |times| <= span / gap + 1
  {
    if times != [] {
      SpacedCount(times, gap);
      var q := span / gap;
      assert span < (q + 1) * gap;
      if |times| - 1 >= q + 1 { TimesMonotone(q + 1, |times| - 1, gap); }
    }
  }

  lemma KindIsBounded<V>(ttlMs: int, log: seq<Read<V>>, force: bool, from: int, span: nat)
    requires ClockNeverGoesBack(log) && ttlMs >= MANUAL_REFRESH_GUARD_MS
    ensures |CallsIn(ttlMs, log, |log|, force, from, from + span)| <= span / Gap(ttlMs, force) + 1
  {
    CallsAreSpaced(ttlMs, log, force, from, from + span);
    CountWithin(TimesOf(log, CallsIn(ttlMs, log, |log|, force, from, from + span)), Gap(ttlMs, force), from, span);
  }

  /**
   In any window of T ms the producer returns at most T / 10000 + T / TTL + 2 times, for a TTL of at least ten seconds.
   */
  lemma RateIsBounded<V>(ttlMs: int, log: seq<Read<V>>, from: int, span: nat)
    requires ClockNeverGoesBack(log) && ttlMs >= MANUAL_REFRESH_GUARD_MS
    ensures |CallsIn(ttlMs, log, |log|, true, from, from + span)|
      + |CallsIn(ttlMs, log, |log|, false, from, from + span)|
      <= span / MANUAL_REFRESH_GUARD_MS + span / ttlMs + 2
  {
    KindIsBounded(ttlMs, log, true, from, span);
    KindIsBounded(ttlMs, log, false, from, span);
  }

  /** A producer that throws leaves no trace: after it, every read is answered as it would have been before. */
  lemma ThrowingLeavesNoTrace<V>(ttlMs: int, log: seq<Read<V>>, r: Read<V>, next: Read<V>)
    requires AfterRead(EntryAfter(ttlMs, log), ttlMs, r).1 == ProducerThrew
    ensures EntryAfter(ttlMs, log + [r]) == EntryAfter(ttlMs, log)
    ensures AfterRead(EntryAfter(ttlMs, log + [r]), ttlMs, next) == AfterRead(EntryAfter(ttlMs, log), ttlMs, next)
  {
    assert (log + [r])[..|log|] == log;
  }

  /**
   So nothing limits how often it is called: after any reads, a read that throws can be repeated and calls the producer
   every time.
   */
  lemma {:induction false} ThrowingIsNotLimited<V>(ttlMs: int, log: seq<Read<V>>, r: Read<V>, again: seq<Read<V>>)
    requires AfterRead(EntryAfter(ttlMs, log), ttlMs, r).1 == ProducerThrew
    requires forall i :: 0 <= i < |again| ==> again[i] == r
    ensures EntryAfter(ttlMs, log + again) == EntryAfter(ttlMs, log)
    ensures forall i :: |log| <= i < |log + again| ==> AnswerAt(ttlMs, log + again, i) == ProducerThrew
    decreases |again|
  {
    if again == [] {
      assert log + again == log;
    } else {
      var front := again[..|again| - 1];
      ThrowingIsNotLimited(ttlMs, log, r, front);
      ThrowingLeavesNoTrace(ttlMs, log + front, r, r);
      assert log + again == (log + front) + [r];
      forall i | |log| <= i < |log + again| ensures AnswerAt(ttlMs, log + again, i) == ProducerThrew {
        if i < |log + front| {
          assert AnswerAt(ttlMs, log + front, i) == ProducerThrew;
          assert (log + again)[..i] == (log + front)[..i];
        } else {
          assert (log + again)[..i] == log + front;
        }
      }
    }
  }
}
