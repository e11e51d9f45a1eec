/**
 Idempotent execution: a key, once recorded, answers every later call from its record.
 The SQLite store keeps results as JSON text and refines the in-memory map.
 */
module Idempotency {
  import opened Wrappers
  import opened JsonText
  import opened CanonicalJson

  /**
   What a command body may return: a JSON value, or something else, which may or may not be cloneable and may or may
   not have a JSON text. A date has both, `undefined` only the first, an object that holds a function only the
   second, and a function neither.
   */
  datatype Value = JsonValue(json: Json) | OtherValue(cloneable: bool, jsonText: Option<Json>)
  {
    predicate Cloneable() { JsonValue? || cloneable }

    /** What `JSON.stringify` makes of it. */
    function ToJson(): Option<Json> { if JsonValue? then Some(json) else jsonText }
  }

  datatype Effect = NoEffect | Unknown | OtherEffect(name: Text)

  datatype Record = Record(fingerprint: Text, effect: Effect, result: Value)

  datatype CallError = KeyRequired | FingerprintRequired | FingerprintConflict | ReplayBlocked | BodyThrew | StoreFailed

  datatype Reply = Reply(replayed: bool, result: Value)

  /** A store over states `S`; a `save` that throws gives `None`. */
  datatype StoreOps<!S> = StoreOps(lookup: (S, Text) -> Option<Record>, save: (S, Text, Record) -> Option<S>)

  /** One call; `body` is what executing it would return, or `None` when it throws. */
  datatype Call = Call(key: Text, fingerprint: Text, effect: Effect, body: Option<Value>)

  datatype Answer = Answer(reply: Result<Reply, CallError>, executed: bool)

  function AnswerFrom(existing: Record, c: Call): Result<Reply, CallError> {
    if existing.fingerprint != c.fingerprint then Err(FingerprintConflict)
    else if existing.effect == Unknown then Err(ReplayBlocked)
    else Ok(Reply(true, existing.result))
  }

  /** The state after a call, and its answer. */
  function AfterCall<S>(ops: StoreOps<S>, s: S, c: Call): (S, Answer) {
    if c.key == [] then (s, Answer(Err(KeyRequired), false))
    else if c.fingerprint == [] then (s, Answer(Err(FingerprintRequired), false))
    else match ops.lookup(s, c.key)
      case Some(existing) => (s, Answer(AnswerFrom(existing, c), false))
      case None =>
        if c.body.None? then (s, Answer(Err(BodyThrew), true))
        else match ops.save(s, c.key, Record(c.fingerprint, c.effect, c.body.value))
          case None => (s, Answer(Err(StoreFailed), true))
          case Some(next) => (next, Answer(Ok(Reply(false, c.body.value)), true))
  }

  class IdempotencyStore<S> {
    const ops: StoreOps<S>
    var state: S
    /** How often a command body ran. */
    ghost var executions: nat

    constructor (ops: StoreOps<S>, empty: S)
      ensures this.ops == ops && state == empty && executions == 0
    {
      this.ops, state, executions := ops, empty, 0;
    }

    method WithIdempotency(c: Call) returns (reply: Result<Reply, CallError>)
      modifies this
      ensures (state, reply) == (AfterCall(ops, old(state), c).0, AfterCall(ops, old(state), c).1.reply)
      ensures executions == old(executions) + if AfterCall(ops, old(state), c).1.executed then 1 else 0
    {
      if c.key == [] { return Err(KeyRequired); }
      if c.fingerprint == [] { return Err(FingerprintRequired); }
      var existing := ops.lookup(state, c.key);
      if existing.Some? {
        if existing.value.fingerprint != c.fingerprint { return Err(FingerprintConflict); }
        if existing.value.effect == Unknown { return Err(ReplayBlocked); }
        return Ok(Reply(true, existing.value.result));
      }
      executions := executions + 1;
      if c.body.None? { return Err(BodyThrew); }
      var next := ops.save(state, c.key, Record(c.fingerprint, c.effect, c.body.value));
      if next.None? { return Err(StoreFailed); }
      state := next.value;
      return Ok(Reply(false, c.body.value));
    }
  }

  // ---------- the two stores ----------

  type Records = map<Text, Record>

  /** A Map of structured clones; copying an uncloneable result throws. */
  function MemoryStore(): StoreOps<Records> {
    StoreOps(
      (s: Records, key: Text) => if key in s then Some(s[key]) else None,
      (s: Records, key: Text, r: Record) => if r.result.Cloneable() then Some(s[key := r]) else None)
  }

  datatype Row = Row(fingerprint: Text, effect: Effect, resultJson: Text)

  type Rows = map<Text, Row>

  function ReadRow(row: Row): Option<Record> {
    match Parse(row.resultJson)
    case Some((json, rest)) => if rest == [] then Some(Record(row.fingerprint, row.effect, JsonValue(json))) else None
    case None => None
  }

  /** A table keyed by the idempotency key: INSERT refuses a repeated key, and a result without a text to store. */
  function SqliteStore(): StoreOps<Rows> {
    StoreOps(
      (s: Rows, key: Text) => if key in s then ReadRow(s[key]) else None,
      (s: Rows, key: Text, r: Record) =>
        if key in s || r.result.ToJson().None? then None
        else Some(s[key := Row(r.fingerprint, r.effect, Plain(r.result.ToJson().value))]))
  }

  // ---------- any sequence of calls ----------

  function AfterCalls<S>(ops: StoreOps<S>, s: S, calls: seq<Call>): S {
    if calls == [] then s else AfterCall(ops, AfterCalls(ops, s, calls[..|calls| - 1]), calls[|calls| - 1]).0
  }

  function AnswerAt<S>(ops: StoreOps<S>, s: S, calls: seq<Call>, i: nat): Answer
    requires i < |calls|
  {
    AfterCall(ops, AfterCalls(ops, s, calls[..i]), calls[i]).1
  }

  /** The call ran its body and its result was recorded. */
  predicate RecordedAt<S>(ops: StoreOps<S>, s: S, calls: seq<Call>, i: nat)
    requires i < |calls|
  {
    var a := AnswerAt(ops, s, calls, i);
    a.executed && a.reply.Ok?
  }

  function RecordFor(c: Call): Record
    requires c.body.Some?
  {
    Record(c.fingerprint, c.effect, c.body.value)
  }

  lemma PrefixAnswer<S>(ops: StoreOps<S>, s: S, calls: seq<Call>, n: nat, i: nat)
    requires i < n <= |calls|
    ensures AnswerAt(ops, s, calls[..n], i) == AnswerAt(ops, s, calls, i)
  {
    assert calls[..n][..i] == calls[..i];
  }

  lemma MemoryStep(s: Records, c: Call, key: Text)
    ensures var (next, a) := AfterCall(MemoryStore(), s, c);
      && (key in next <==> key in s || (c.key == key && a.executed && a.reply.Ok?))
      && (key in s ==> next[key] == s[key] && !(c.key == key && a.executed))
      && (c.key == key && a.executed && a.reply.Ok? ==> c.body.Some? && next[key] == RecordFor(c))
  {
  }

  /** After some calls, the record under a key is that of the one call that recorded it. */
  lemma {:induction false} RecordIsFirst(calls: seq<Call>, key: Text) returns (first: Option<nat>)
    ensures key in AfterCalls(MemoryStore(), map[], calls) <==> first.Some?
    ensures first.Some? ==>
      && first.value < |calls| && calls[first.value].key == key && calls[first.value].body.Some?
      && RecordedAt(MemoryStore(), map[], calls, first.value)
      && AfterCalls(MemoryStore(), map[], calls)[key] == RecordFor(calls[first.value])
    ensures forall i :: 0 <= i < |calls| && calls[i].key == key && RecordedAt(MemoryStore(), map[], calls, i) ==>
      first == Some(i)
  {
    if calls == [] { return None; }
    var n := |calls| - 1;
    var ops := MemoryStore();
    first := RecordIsFirst(calls[..n], key);
    forall i | 0 <= i < n ensures RecordedAt(ops, map[], calls, i) == RecordedAt(ops, map[], calls[..n], i) {
      PrefixAnswer(ops, map[], calls, n, i);
    }
    MemoryStep(AfterCalls(ops, map[], calls[..n]), calls[n], key);
    if calls[n].key == key && RecordedAt(ops, map[], calls, n) { first := Some(n); }
  }

  /**
   At most once. A body runs exactly when its key has not been recorded before; once call `i` has
   recorded its key, every later call with that key is answered from it and from nothing else:
   a different fingerprint is refused, an `Unknown` effect is never replayed, and otherwise the reply is the first
   result.
   */
  lemma AtMostOnce(calls: seq<Call>, i: nat, j: nat)
    requires i < j < |calls| && calls[i].key == calls[j].key && calls[j].fingerprint != []
    requires RecordedAt(MemoryStore(), map[], calls, i)
    ensures calls[i].body.Some?
    ensures AnswerAt(MemoryStore(), map[], calls, j) == Answer(
      if calls[j].fingerprint != calls[i].fingerprint then Err(FingerprintConflict)
      else if calls[i].effect == Unknown then Err(ReplayBlocked)
      else Ok(Reply(true, calls[i].body.value)), false)
  {
    var first := RecordIsFirst(calls[..j], calls[j].key);
    PrefixAnswer(MemoryStore(), map[], calls, j, i);
    assert first == Some(i);
  }

  lemma ExecutesIff(calls: seq<Call>, j: nat)
    requires j < |calls|
    ensures AnswerAt(MemoryStore(), map[], calls, j).executed <==>
      && calls[j].key != [] && calls[j].fingerprint != []
      && forall i :: 0 <= i < j && calls[i].key == calls[j].key ==> !RecordedAt(MemoryStore(), map[], calls, i)
    ensures RecordedAt(MemoryStore(), map[], calls, j) <==>
      AnswerAt(MemoryStore(), map[], calls, j).executed && calls[j].body.Some? && calls[j].body.value.Cloneable()
  {
    var first := RecordIsFirst(calls[..j], calls[j].key);
    forall i | 0 <= i < j
      ensures RecordedAt(MemoryStore(), map[], calls[..j], i) == RecordedAt(MemoryStore(), map[], calls, i)
    {
      PrefixAnswer(MemoryStore(), map[], calls, j, i);
    }
  }

  // ---------- refinement ----------

  /** The table holds the same records as the map. */
  ghost predicate SameRecords(rows: Rows, records: Records) {
    rows.Keys == records.Keys && forall key :: key in rows ==> ReadRow(rows[key]) == Some(records[key])
  }

  predicate Representable(c: Call) { c.body.Some? ==> c.body.value.JsonValue? }

  lemma StepRefines(rows: Rows, records: Records, c: Call)
    requires SameRecords(rows, records) && Representable(c)
    ensures SameRecords(AfterCall(SqliteStore(), rows, c).0, AfterCall(MemoryStore(), records, c).0)
    ensures AfterCall(SqliteStore(), rows, c).1 == AfterCall(MemoryStore(), records, c).1
  {
    if c.body.Some? {
      TextReadsBack(c.body.value.json, c.fingerprint, c.effect);
    }
    if c.key in rows {
      assert ReadRow(rows[c.key]) == Some(records[c.key]);
      assert SqliteStore().lookup(rows, c.key) == MemoryStore().lookup(records, c.key);
    }
  }

  lemma {:induction false} SameAfterCalls(calls: seq<Call>)
    requires forall i :: 0 <= i < |calls| ==> Representable(calls[i])
    ensures SameRecords(AfterCalls(SqliteStore(), map[], calls), AfterCalls(MemoryStore(), map[], calls))
  {
    if calls != [] {
      SameAfterCalls(calls[..|calls| - 1]);
      StepRefines(AfterCalls(SqliteStore(), map[], calls[..|calls| - 1]),
          AfterCalls(MemoryStore(), map[], calls[..|calls| - 1]), calls[|calls| - 1]);
    }
  }

  /**
   On results that JSON can represent, the SQLite store answers every call of every sequence as the in-memory map does.
   */
  lemma SqliteRefinesMemory(calls: seq<Call>, i: nat)
    requires i < |calls| && forall k :: 0 <= k <= i ==> Representable(calls[k])
    ensures AnswerAt(SqliteStore(), map[], calls, i) == AnswerAt(MemoryStore(), map[], calls, i)
  {
    SameAfterCalls(calls[..i]);
    StepRefines(AfterCalls(SqliteStore(), map[], calls[..i]), AfterCalls(MemoryStore(), map[], calls[..i]), calls[i]);
  }

  /**
   Where the stores differ. Two calls with one fresh key run a body that completes both times exactly when its result
   cannot be stored: for SQLite when it has no JSON text, for the map when it cannot be cloned. A stored result is
   replayed by SQLite as the value of its text, so the stores answer the second call alike exactly when the result is a
   JSON value, or the effect blocks every replay and both store it, or neither stores it.
   */
  lemma RunsTwiceIff(c: Call)
    requires c.key != [] && c.fingerprint != [] && c.body.Some?
    ensures AnswerAt(SqliteStore(), map[], [c, c], 1).executed <==> c.body.value.ToJson().None?
    ensures AnswerAt(MemoryStore(), map[], [c, c], 1).executed <==> !c.body.value.Cloneable()
    ensures AnswerAt(SqliteStore(), map[], [c, c], 1) == AnswerAt(MemoryStore(), map[], [c, c], 1) <==>
      || c.body.value.JsonValue?
      || (c.body.value.ToJson().Some? && c.body.value.Cloneable() && c.effect == Unknown)
      || (c.body.value.ToJson().None? && !c.body.value.Cloneable())
  {
    assert [c, c][..1] == [c] && [c, c][..0] == [];
    StepOnce(SqliteStore(), c);
    StepOnce(MemoryStore(), c);
    if c.body.value.ToJson().Some? {
      TextReadsBack(c.body.value.ToJson().value, c.fingerprint, c.effect);
    }
  }

  lemma TextReadsBack(json: Json, fingerprint: Text, effect: Effect)
    ensures ReadRow(Row(fingerprint, effect, Plain(json))) == Some(Record(fingerprint, effect, JsonValue(json)))
  {
    RoundTrip(json, []);
    assert Plain(json) + [] == Plain(json);
  }

  lemma StepOnce<S>(ops: StoreOps<S>, c: Call)
    ensures forall s: S :: AfterCalls(ops, s, [c]) == AfterCall(ops, s, c).0
  {
    assert [c][..0] == [];
  }
}
