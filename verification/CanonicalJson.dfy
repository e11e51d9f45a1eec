/**
 The serialisation under every approval hash: `stableJson` prints a JSON tree with the keys
 of every object sorted by code unit (section 3.2.3 of RFC 8785). The parser below
 inverts it, so two trees print alike exactly when they are equal up to key order.
 */
module CanonicalJson {
  import opened Wrappers
  import opened JsonText
  import opened Sequences

  /** An object lists its own keys in insertion order. */
  datatype Json =
    | Null
    | Bool(b: bool)
    | Num(n: int)
    | Str(s: Text)
    | Arr(items: seq<Json>)
    | Obj(fields: seq<Field>)

  datatype Field = Field(key: Text, value: Json)

  /** What JavaScript guarantees of every object: no key twice. */
  ghost predicate WellFormed(v: Json) {
    match v
    case Arr(items) => forall i :: 0 <= i < |items| ==> WellFormed(items[i])
    case Obj(fields) =>
      && DistinctKeys(fields)
      && forall i :: 0 <= i < |fields| ==> WellFormed(fields[i].value)
    case _ => true
  }

  ghost predicate DistinctKeys(fields: seq<Field>) {
    forall i, j :: 0 <= i < j < |fields| ==> fields[i].key != fields[j].key
  }

  /** Equality up to the order in which objects list their keys. */
  ghost predicate SameValue(a: Json, b: Json)
    decreases a
  {
    match (a, b)
    case (Arr(xs), Arr(ys)) => |xs| == |ys| && forall i :: 0 <= i < |xs| ==> SameValue(xs[i], ys[i])
    case (Obj(f), Obj(g)) =>
      && (forall i :: 0 <= i < |f| ==> SameUnderKey(f[i], g))
      && (forall j :: 0 <= j < |g| ==> HasKey(f, g[j].key))
    case _ => a == b
  }

  ghost predicate SameUnderKey(f: Field, g: seq<Field>)
    decreases f
  {
    exists j :: 0 <= j < |g| && g[j].key == f.key && SameValue(f.value, g[j].value)
  }

  predicate HasKey(fields: seq<Field>, key: Text) {
    exists i :: 0 <= i < |fields| && fields[i].key == key
  }

  // ---------- key order ----------

  predicate Less(a: Text, b: Text) {
    b != [] && (a == [] || a[0] < b[0] || (a[0] == b[0] && Less(a[1..], b[1..])))
  }

  lemma {:induction false} LessTotal(a: Text, b: Text)
    ensures a != b ==> Less(a, b) || Less(b, a)
    ensures !(Less(a, b) && Less(b, a)) && !Less(a, a)
  {
    if a != [] && b != [] && a[0] == b[0] {
      LessTotal(a[1..], b[1..]);
      assert a == [a[0]] + a[1..] && b == [b[0]] + b[1..];
    }
    if a != [] { LessTotal(a[1..], a[1..]); }
  }

  lemma {:induction false} LessTransitive(a: Text, b: Text, c: Text)
    requires Less(a, b) && Less(b, c)
    ensures Less(a, c)
  {
    if a != [] && a[0] == b[0] && b[0] == c[0] { LessTransitive(a[1..], b[1..], c[1..]); }
  }

  function Insert(f: Field, sorted: seq<Field>): seq<Field> {
    if sorted == [] || Less(f.key, sorted[0].key) then [f] + sorted else [sorted[0]] + Insert(f, sorted[1..])
  }

  function SortFields(fields: seq<Field>): seq<Field> {
    if fields == [] then [] else Insert(fields[0], SortFields(fields[1..]))
  }

  ghost predicate Sorted(fields: seq<Field>) {
    forall i, j :: 0 <= i < j < |fields| ==> Less(fields[i].key, fields[j].key)
  }

  lemma {:induction false} InsertKeepsFields(f: Field, sorted: seq<Field>)
    ensures forall x :: x in Insert(f, sorted) <==> x == f || x in sorted
  {
    if sorted != [] && !Less(f.key, sorted[0].key) {
      InsertKeepsFields(f, sorted[1..]);
      assert sorted == [sorted[0]] + sorted[1..];
    }
  }

  lemma {:induction false} SortKeepsFields(fields: seq<Field>)
    ensures forall x :: x in SortFields(fields) <==> x in fields
    ensures forall i :: 0 <= i < |SortFields(fields)| ==> SortFields(fields)[i] in fields
  {
    if fields != [] {
      SortKeepsFields(fields[1..]);
      InsertKeepsFields(fields[0], SortFields(fields[1..]));
      assert fields == [fields[0]] + fields[1..];
    }
  }

  lemma {:induction false} InsertSorts(f: Field, sorted: seq<Field>)
    requires Sorted(sorted) && forall x :: x in sorted ==> x.key != f.key
    ensures Sorted(Insert(f, sorted))
  {
    if sorted == [] { return; }
    var head, tail := sorted[0], sorted[1..];
    if Less(f.key, head.key) {
      forall j | 0 <= j < |sorted| ensures Less(f.key, sorted[j].key) {
        if j > 0 { LessTransitive(f.key, head.key, sorted[j].key); }
      }
    } else {
      LessTotal(f.key, head.key);
      InsertSorts(f, tail);
      InsertKeepsFields(f, tail);
      var r := Insert(f, tail);
      forall j | 0 <= j < |r| ensures Less(head.key, r[j].key) {
        assert r[j] in r;
        if r[j] != f {
          var k :| 0 <= k < |tail| && tail[k] == r[j];
          assert tail[k] == sorted[k + 1];
        }
      }
    }
  }

  lemma {:induction false} SortSorts(fields: seq<Field>)
    requires DistinctKeys(fields)
    ensures Sorted(SortFields(fields))
  {
    if fields != [] {
      SortSorts(fields[1..]);
      SortKeepsFields(fields[1..]);
      InsertSorts(fields[0], SortFields(fields[1..]));
    }
  }

  /** A strictly sorted list is determined by its members. */
  lemma {:induction false} SortedUnique(s: seq<Field>, t: seq<Field>)
    requires Sorted(s) && Sorted(t) && forall x :: x in s <==> x in t
    ensures s == t
  {
    assert s != [] ==> s[0] in t;
    assert t != [] ==> t[0] in s;
    if s == [] { return; }
    var i :| 0 <= i < |t| && t[i] == s[0];
    var j :| 0 <= j < |s| && s[j] == t[0];
    LessTotal(s[0].key, t[0].key);
    assert s[0] == t[0];
    TailMembers(s, t);
    TailMembers(t, s);
    SortedUnique(s[1..], t[1..]);
    assert s == [s[0]] + s[1..] && t == [t[0]] + t[1..];
  }

  lemma TailMembers(s: seq<Field>, t: seq<Field>)
    requires s != [] && t != [] && s[0] == t[0] && Sorted(s)
    requires forall x :: x in s ==> x in t
    ensures forall x :: x in s[1..] ==> x in t[1..]
  {
    forall x | x in s[1..] ensures x in t[1..] {
      var i :| 0 <= i < |s[1..]| && s[1..][i] == x;
      assert s[i + 1] == x && x in s;
      LessTotal(s[0].key, x.key);
      var j :| 0 <= j < |t| && t[j] == x;
      assert j > 0 && t[1..][j - 1] == x;
    }
  }

  // ---------- the printer ----------

  function StableJson(v: Json): Text
    decreases v, 1
  {
    match v
    case Null => Ascii("null")
    case Bool(b) => if b then Ascii("true") else Ascii("false")
    case Num(n) => IntText(n)
    case Str(s) => Quote(s)
    case Arr(items) => [LBRACKET] + StableItems(items) + [RBRACKET]
    case Obj(fields) => SortKeepsFields(fields); [LBRACE] + StableFields(v, SortFields(fields)) + [RBRACE]
  }

  /** Printed items joined with commas. */
  function StableItems(items: seq<Json>): Text
    decreases items, 0
  {
    if items == [] then []
    else if |items| == 1 then StableJson(items[0])
    else StableJson(items[0]) + [COMMA] + StableItems(items[1..])
  }

  /** Printed fields of the object `v`, in the order given, joined with commas. */
  function StableFields(v: Json, fields: seq<Field>): Text
    requires forall i :: 0 <= i < |fields| ==> fields[i].value < v
    decreases v, 0, |fields|
  {
    if fields == [] then []
    else
      var first := Quote(fields[0].key) + [COLON] + StableJson(fields[0].value);
      if |fields| == 1 then first else first + [COMMA] + StableFields(v, fields[1..])
  }

  // ---------- the canonical tree: what the printed text denotes ----------

  function Canon(v: Json): Json
    decreases v, 1
  {
    match v
    case Arr(items) => Arr(CanonItems(items))
    case Obj(fields) => Obj(SortFields(CanonFields(fields)))
    case _ => v
  }

  function CanonItems(items: seq<Json>): (r: seq<Json>)
    ensures |r| == |items| && forall i :: 0 <= i < |r| ==> r[i] == Canon(items[i])
    decreases items, 0
  {
    if items == [] then [] else [Canon(items[0])] + CanonItems(items[1..])
  }

  function CanonFields(fields: seq<Field>): (r: seq<Field>)
    ensures |r| == |fields|
    ensures forall i :: 0 <= i < |r| ==> r[i] == Field(fields[i].key, Canon(fields[i].value))
    decreases fields, 0
  {
    if fields == [] then [] else [Field(fields[0].key, Canon(fields[0].value))] + CanonFields(fields[1..])
  }

  /** The tree printed with the fields of every object in the order listed. */
  function Plain(v: Json): Text
    decreases v, 1
  {
    match v
    case Null => Ascii("null")
    case Bool(b) => if b then Ascii("true") else Ascii("false")
    case Num(n) => IntText(n)
    case Str(s) => Quote(s)
    case Arr(items) => [LBRACKET] + PlainItems(items) + [RBRACKET]
    case Obj(fields) => [LBRACE] + PlainFields(fields) + [RBRACE]
  }

  function PlainItems(items: seq<Json>): Text
    decreases items, 0
  {
    if items == [] then []
    else if |items| == 1 then Plain(items[0])
    else Plain(items[0]) + [COMMA] + PlainItems(items[1..])
  }

  function PlainField(f: Field): Text
    decreases f, 0
  {
    Quote(f.key) + [COLON] + Plain(f.value)
  }

  function PlainFields(fields: seq<Field>): Text
    decreases fields, 0
  {
    if fields == [] then []
    else if |fields| == 1 then PlainField(fields[0])
    else PlainField(fields[0]) + [COMMA] + PlainFields(fields[1..])
  }

  lemma {:induction false} CanonCommutesWithInsert(f: Field, sorted: seq<Field>)
    ensures CanonFields(Insert(f, sorted)) == Insert(Field(f.key, Canon(f.value)), CanonFields(sorted))
  {
    if sorted != [] && !Less(f.key, sorted[0].key) {
      CanonCommutesWithInsert(f, sorted[1..]);
      assert CanonFields(sorted)[1..] == CanonFields(sorted[1..]);
    }
  }

  lemma {:induction false} CanonCommutesWithSort(fields: seq<Field>)
    ensures CanonFields(SortFields(fields)) == SortFields(CanonFields(fields))
  {
    if fields != [] {
      CanonCommutesWithSort(fields[1..]);
      CanonCommutesWithInsert(fields[0], SortFields(fields[1..]));
      assert CanonFields(fields)[1..] == CanonFields(fields[1..]);
    }
  }

  /** Sorting while printing prints the canonical tree. */
  lemma {:induction false} StablePrintsCanon(v: Json)
    ensures StableJson(v) == Plain(Canon(v))
    decreases v, 1
  {
    match v
    case Arr(items) => StableItemsPrintCanon(items);
    case Obj(fields) =>
      SortKeepsFields(fields);
      StableFieldsPrintCanon(v, SortFields(fields));
      CanonCommutesWithSort(fields);
    case _ =>
  }

  lemma {:induction false} StableItemsPrintCanon(items: seq<Json>)
    ensures StableItems(items) == PlainItems(CanonItems(items))
    decreases items, 0
  {
    if items != [] {
      StablePrintsCanon(items[0]);
      StableItemsPrintCanon(items[1..]);
      assert CanonItems(items)[1..] == CanonItems(items[1..]);
    }
  }

  lemma {:induction false} StableFieldsPrintCanon(v: Json, fields: seq<Field>)
    requires forall i :: 0 <= i < |fields| ==> fields[i].value < v
    ensures StableFields(v, fields) == PlainFields(CanonFields(fields))
    decreases v, 0, |fields|
  {
    if fields != [] {
      StablePrintsCanon(fields[0].value);
      StableFieldsPrintCanon(v, fields[1..]);
      assert CanonFields(fields)[1..] == CanonFields(fields[1..]);
    }
  }

  // ---------- the parser ----------

  predicate StartsWith(t: Text, p: Text) { p <= t }

  /** Reads one value from the front of `t`: JSON without white space or fractions, leading zeros let through. */
  function Parse(t: Text): (r: Option<(Json, Text)>)
    ensures r.Some? ==> |r.value.1| < |t|
    decreases |t|, 1
  {
    if t == [] then None
    else if StartsWith(t, Ascii("null")) then Some((Null, t[4..]))
    else if StartsWith(t, Ascii("true")) then Some((Bool(true), t[4..]))
    else if StartsWith(t, Ascii("false")) then Some((Bool(false), t[5..]))
    else if DigitStarts(t) then var (n, rest) := ParseDigits(t[1..], t[0] - 0x30); Some((Num(n), rest))
    else if t[0] == MINUS && DigitStarts(t[1..]) then var (n, rest) := ParseDigits(t[1..], 0); Some((Num(0 - n), rest))
    else if t[0] == QUOTE then
      match ParseStringBody(t[1..])
      case Some((s, rest)) => Some((Str(s), rest))
      case None => None
    else if t[0] == LBRACKET then
      if |t| > 1 && t[1] == RBRACKET then Some((Arr([]), t[2..]))
      else match ParseItems(t[1..])
        case Some((items, rest)) => Some((Arr(items), rest))
        case None => None
    else if t[0] == LBRACE then
      if |t| > 1 && t[1] == RBRACE then Some((Obj([]), t[2..]))
      else match ParseFields(t[1..])
        case Some((fields, rest)) => Some((Obj(fields), rest))
        case None => None
    else None
  }

  /** One or more items, up to and including the closing bracket. */
  function ParseItems(t: Text): (r: Option<(seq<Json>, Text)>)
    ensures r.Some? ==> |r.value.1| < |t|
    decreases |t|, 2
  {
    match Parse(t)
    case None => None
    case Some((v, rest)) =>
      if rest == [] then None
      else if rest[0] == RBRACKET then Some(([v], rest[1..]))
      else if rest[0] == COMMA then
        match ParseItems(rest[1..])
        case Some((vs, end)) => Some(([v] + vs, end))
        case None => None
      else None
  }

  function ParseField(t: Text): (r: Option<(Field, Text)>)
    ensures r.Some? ==> |r.value.1| < |t|
    decreases |t|, 2
  {
    if t == [] || t[0] != QUOTE then None
    else match ParseStringBody(t[1..])
      case None => None
      case Some((key, rest)) =>
        if rest == [] || rest[0] != COLON then None
        else match Parse(rest[1..])
          case Some((v, end)) => Some((Field(key, v), end))
          case None => None
  }

  /** One or more fields, up to and including the closing brace. */
  function ParseFields(t: Text): (r: Option<(seq<Field>, Text)>)
    ensures r.Some? ==> |r.value.1| < |t|
    decreases |t|, 3
  {
    match ParseField(t)
    case None => None
    case Some((f, rest)) =>
      if rest == [] then None
      else if rest[0] == RBRACE then Some(([f], rest[1..]))
      else if rest[0] == COMMA then
        match ParseFields(rest[1..])
        case Some((fs, end)) => Some(([f] + fs, end))
        case None => None
      else None
  }

  // ---------- unique readability ----------

  lemma PlainFirst(v: Json)
    ensures Plain(v) != [] && Plain(v)[0] != RBRACKET
  {
  }

  lemma NotLiteral(t: Text)
    requires t != [] && t[0] != 0x6E && t[0] != 0x74 && t[0] != 0x66
    ensures !StartsWith(t, Ascii("null")) && !StartsWith(t, Ascii("true")) && !StartsWith(t, Ascii("false"))
  {
    assert Ascii("null")[0] == 0x6E && Ascii("true")[0] == 0x74 && Ascii("false")[0] == 0x66;
  }

  lemma NegativeStep(u: Text, n: nat, rest: Text)
    requires DigitStarts(u) && ParseDigits(u, 0) == (n, rest)
    ensures Parse([MINUS] + u) == Some((Num(0 - n), rest))
  {
    NotLiteral([MINUS] + u);
    assert ([MINUS] + u)[1..] == u;
  }

  lemma NaturalStep(u: Text, n: nat, rest: Text)
    requires DigitStarts(u) && ParseDigits(u, 0) == (n, rest)
    ensures Parse(u) == Some((Num(n), rest))
  {
    NotLiteral(u);
  }

  lemma NumRoundTrip(n: int, rest: Text)
    requires !DigitStarts(rest)
    ensures Parse(IntText(n) + rest) == Some((Num(n), rest))
  {
    var d: nat := if n < 0 then -n else n;
    DigitsRoundTrip(d, rest);
    assert (Digits(d) + rest)[0] == Digits(d)[0];
    if n < 0 {
      NegativeStep(Digits(d) + rest, d, rest);
      Assoc([MINUS], Digits(d), rest);
    } else {
      NaturalStep(Digits(d) + rest, d, rest);
    }
  }

  lemma LiteralRoundTrip(v: Json, rest: Text)
    requires v.Null? || v.Bool?
    ensures Parse(Plain(v) + rest) == Some((v, rest))
  {
    var p := Plain(v);
    var t := p + rest;
    assert StartsWith(t, p) && t[|p|..] == rest;
    if v == Bool(true) {
      assert t[0] == 0x74 && Ascii("null")[0] == 0x6E;
    } else if v == Bool(false) {
      assert t[0] == 0x66 && Ascii("null")[0] == 0x6E && Ascii("true")[0] == 0x74;
    }
  }

  lemma ArrSteps(u: Text)
    requires u != []
    ensures u[0] != RBRACKET ==>
      Parse([LBRACKET] + u) == match ParseItems(u) case Some((items, rest)) => Some((Arr(items), rest))
          case None => None
    ensures u[0] == RBRACKET ==> Parse([LBRACKET] + u) == Some((Arr([]), u[1..]))
  {
    NotLiteral([LBRACKET] + u);
    assert ([LBRACKET] + u)[1..] == u && ([LBRACKET] + u)[2..] == u[1..];
  }

  lemma ObjSteps(u: Text)
    requires u != []
    ensures u[0] != RBRACE ==>
      Parse([LBRACE] + u) == match ParseFields(u) case Some((fields, rest)) => Some((Obj(fields), rest))
          case None => None
    ensures u[0] == RBRACE ==> Parse([LBRACE] + u) == Some((Obj([]), u[1..]))
  {
    NotLiteral([LBRACE] + u);
    assert ([LBRACE] + u)[1..] == u && ([LBRACE] + u)[2..] == u[1..];
  }

  lemma StrRoundTrip(s: Text, rest: Text)
    ensures Parse(Quote(s) + rest) == Some((Str(s), rest))
  {
    EscapeRoundTrip(s, rest);
    var u := Escape(s) + ([QUOTE] + rest);
    assert Quote(s) + rest == [QUOTE] + u;
    assert ([QUOTE] + u)[1..] == u;
    NotLiteral([QUOTE] + u);
  }

  lemma Wrap(open: Unit, body: Text, close: Unit, rest: Text)
    ensures [open] + body + [close] + rest == [open] + (body + ([close] + rest))
  {
  }

  lemma Join(first: Text, others: Text, rest: Text)
    ensures first + [COMMA] + others + rest == first + ([COMMA] + (others + rest))
  {
  }

  /** A parser recovers a value from its text, whatever follows, as long as that is not a digit. */
  lemma {:induction false} RoundTrip(v: Json, rest: Text)
    requires !DigitStarts(rest)
    ensures Parse(Plain(v) + rest) == Some((v, rest))
    decreases v, 1
  {
    match v
    case Num(n) => NumRoundTrip(n, rest);
    case Str(s) => StrRoundTrip(s, rest);
    case Arr(items) => ArrRoundTrip(items, rest);
    case Obj(fields) => ObjRoundTrip(fields, rest);
    case _ => LiteralRoundTrip(v, rest);
  }

  lemma {:induction false} ArrRoundTrip(items: seq<Json>, rest: Text)
    ensures Parse(Plain(Arr(items)) + rest) == Some((Arr(items), rest))
    decreases items, 2
  {
    var u := PlainItems(items) + ([RBRACKET] + rest);
    Wrap(LBRACKET, PlainItems(items), RBRACKET, rest);
    if items == [] {
      assert u == [RBRACKET] + rest && u[1..] == rest;
    } else {
      PlainFirst(items[0]);
      ItemsRoundTrip(items, rest);
    }
    ArrSteps(u);
  }

  lemma {:induction false} ObjRoundTrip(fields: seq<Field>, rest: Text)
    ensures Parse(Plain(Obj(fields)) + rest) == Some((Obj(fields), rest))
    decreases fields, 2
  {
    var u := PlainFields(fields) + ([RBRACE] + rest);
    Wrap(LBRACE, PlainFields(fields), RBRACE, rest);
    if fields == [] {
      assert u == [RBRACE] + rest && u[1..] == rest;
    } else {
      FieldsRoundTrip(fields, rest);
    }
    ObjSteps(u);
  }

  lemma ItemsStep(t: Text, v: Json, u: Text)
    ensures Parse(t) == Some((v, [RBRACKET] + u)) ==> ParseItems(t) == Some(([v], u))
    ensures Parse(t) == Some((v, [COMMA] + u)) && ParseItems(u).Some? ==>
      ParseItems(t) == Some(([v] + ParseItems(u).value.0, ParseItems(u).value.1))
  {
    assert ([RBRACKET] + u)[1..] == u && ([COMMA] + u)[1..] == u;
  }

  lemma LastItem(p: Text, v: Json, rest: Text)
    requires Parse(p + ([RBRACKET] + rest)) == Some((v, [RBRACKET] + rest))
    ensures ParseItems(p + ([RBRACKET] + rest)) == Some(([v], rest))
  {
    ItemsStep(p + ([RBRACKET] + rest), v, rest);
  }

  lemma NextItem(p: Text, v: Json, u: Text, items: seq<Json>, rest: Text)
    requires Parse(p + ([COMMA] + u)) == Some((v, [COMMA] + u)) && ParseItems(u) == Some((items, rest))
    ensures ParseItems(p + ([COMMA] + u)) == Some(([v] + items, rest))
  {
    ItemsStep(p + ([COMMA] + u), v, u);
  }

  lemma {:induction false} ItemsRoundTrip(items: seq<Json>, rest: Text)
    requires items != []
    ensures ParseItems(PlainItems(items) + ([RBRACKET] + rest)) == Some((items, rest))
    decreases items, 1
  {
    var close := [RBRACKET] + rest;
    if |items| == 1 {
      RoundTrip(items[0], close);
      LastItem(Plain(items[0]), items[0], rest);
      assert items == [items[0]];
    } else {
      var u := PlainItems(items[1..]) + close;
      ItemsRoundTrip(items[1..], rest);
      RoundTrip(items[0], [COMMA] + u);
      Join(Plain(items[0]), PlainItems(items[1..]), close);
      NextItem(Plain(items[0]), items[0], u, items[1..], rest);
      assert items == [items[0]] + items[1..];
    }
  }

  lemma FieldStep(key: Text, u: Text, v: Json, rest: Text)
    requires Parse(u) == Some((v, rest))
    ensures ParseField([QUOTE] + (Escape(key) + ([QUOTE] + ([COLON] + u)))) == Some((Field(key, v), rest))
  {
    var t := Escape(key) + ([QUOTE] + ([COLON] + u));
    EscapeRoundTrip(key, [COLON] + u);
    assert ([QUOTE] + t)[1..] == t;
    assert ([COLON] + u)[1..] == u;
  }

  lemma {:induction false} FieldRoundTrip(f: Field, rest: Text)
    requires !DigitStarts(rest)
    ensures ParseField(PlainField(f) + rest) == Some((f, rest))
    decreases f, 0
  {
    var u := Plain(f.value) + rest;
    RoundTrip(f.value, rest);
    FieldStep(f.key, u, f.value, rest);
    FieldText(f, rest);
  }

  lemma FieldText(f: Field, rest: Text)
    ensures PlainField(f) + rest == [QUOTE] + (Escape(f.key) + ([QUOTE] + ([COLON] + (Plain(f.value) + rest))))
  {
    Wrap(QUOTE, Escape(f.key), QUOTE, [COLON] + (Plain(f.value) + rest));
    Assoc(Quote(f.key), [COLON], Plain(f.value));
    Assoc(Quote(f.key), [COLON] + Plain(f.value), rest);
    Assoc([COLON], Plain(f.value), rest);
  }

  lemma FieldsStep(t: Text, f: Field, u: Text)
    ensures ParseField(t) == Some((f, [RBRACE] + u)) ==> ParseFields(t) == Some(([f], u))
    ensures ParseField(t) == Some((f, [COMMA] + u)) && ParseFields(u).Some? ==>
      ParseFields(t) == Some(([f] + ParseFields(u).value.0, ParseFields(u).value.1))
  {
    assert ([RBRACE] + u)[1..] == u && ([COMMA] + u)[1..] == u;
  }

  lemma LastField(p: Text, f: Field, rest: Text)
    requires ParseField(p + ([RBRACE] + rest)) == Some((f, [RBRACE] + rest))
    ensures ParseFields(p + ([RBRACE] + rest)) == Some(([f], rest))
  {
    FieldsStep(p + ([RBRACE] + rest), f, rest);
  }

  lemma NextField(p: Text, f: Field, u: Text, fields: seq<Field>, rest: Text)
    requires ParseField(p + ([COMMA] + u)) == Some((f, [COMMA] + u)) && ParseFields(u) == Some((fields, rest))
    ensures ParseFields(p + ([COMMA] + u)) == Some(([f] + fields, rest))
  {
    FieldsStep(p + ([COMMA] + u), f, u);
  }

  lemma {:induction false} FieldsRoundTrip(fields: seq<Field>, rest: Text)
    requires fields != []
    ensures ParseFields(PlainFields(fields) + ([RBRACE] + rest)) == Some((fields, rest))
    decreases fields, 1
  {
    var close := [RBRACE] + rest;
    if |fields| == 1 {
      FieldRoundTrip(fields[0], close);
      LastField(PlainField(fields[0]), fields[0], rest);
      assert fields == [fields[0]];
    } else {
      var u := PlainFields(fields[1..]) + close;
      FieldsRoundTrip(fields[1..], rest);
      FieldRoundTrip(fields[0], [COMMA] + u);
      Join(PlainField(fields[0]), PlainFields(fields[1..]), close);
      NextField(PlainField(fields[0]), fields[0], u, fields[1..], rest);
      assert fields == [fields[0]] + fields[1..];
    }
  }

  /** `stableJson` is uniquely readable: its output, before any suffix but a digit, parses to the canonical tree. */
  lemma StableJsonReadable(v: Json, rest: Text)
    requires !DigitStarts(rest)
    ensures Parse(StableJson(v) + rest) == Some((Canon(v), rest))
  {
    StablePrintsCanon(v);
    RoundTrip(Canon(v), rest);
  }

  // ---------- equality up to key order ----------

  lemma {:induction false} CanonIffSame(a: Json, b: Json)
    requires WellFormed(a) && WellFormed(b)
    ensures Canon(a) == Canon(b) <==> SameValue(a, b)
    decreases a
  {
    match (a, b)
    case (Arr(xs), Arr(ys)) =>
      forall i | 0 <= i < |xs| && i < |ys| ensures Canon(xs[i]) == Canon(ys[i]) <==> SameValue(xs[i], ys[i]) {
        CanonIffSame(xs[i], ys[i]);
      }
      if SameValue(a, b) {
        assert CanonItems(xs) == CanonItems(ys);
      } else if Canon(a) == Canon(b) {
        assert |CanonItems(xs)| == |CanonItems(ys)|;
        forall i | 0 <= i < |xs| ensures SameValue(xs[i], ys[i]) {
          assert CanonItems(xs)[i] == CanonItems(ys)[i];
        }
      }
    case (Obj(f), Obj(g)) =>
      forall i, j | 0 <= i < |f| && 0 <= j < |g|
        ensures Canon(f[i].value) == Canon(g[j].value) <==> SameValue(f[i].value, g[j].value)
      {
        CanonIffSame(f[i].value, g[j].value);
      }
      CanonFieldsIffSame(f, g);
    case _ =>
  }

  lemma InCanonFields(x: Field, g: seq<Field>)
    ensures x in CanonFields(g) <==> exists j :: 0 <= j < |g| && g[j].key == x.key && Canon(g[j].value) == x.value
  {
    var cg := CanonFields(g);
    if x in cg {
      var j :| 0 <= j < |cg| && cg[j] == x;
      assert g[j].key == x.key;
    }
    if j :| 0 <= j < |g| && g[j].key == x.key && Canon(g[j].value) == x.value {
      assert cg[j] == x;
    }
  }

  lemma SortedAlikeIffSameMembers(f: seq<Field>, g: seq<Field>)
    requires DistinctKeys(f) && DistinctKeys(g)
    ensures SortFields(f) == SortFields(g) <==> forall x :: x in f <==> x in g
  {
    SortKeepsFields(f);
    SortKeepsFields(g);
    if forall x :: x in f <==> x in g {
      SortSorts(f);
      SortSorts(g);
      SortedUnique(SortFields(f), SortFields(g));
    }
    if SortFields(f) == SortFields(g) {
      forall x ensures x in f <==> x in g {
        assert x in SortFields(f) <==> x in f;
      }
    }
  }

  lemma CanonFieldsIffSame(f: seq<Field>, g: seq<Field>)
    requires DistinctKeys(f) && DistinctKeys(g)
    requires CanonDecides(f, g)
    ensures SortFields(CanonFields(f)) == SortFields(CanonFields(g)) <==> SameValue(Obj(f), Obj(g))
  {
    SortedAlikeIffSameMembers(CanonFields(f), CanonFields(g));
    if SameValue(Obj(f), Obj(g)) { SameHasSameMembers(f, g); }
    if forall x :: x in CanonFields(f) <==> x in CanonFields(g) { SameMembersAreSame(f, g); }
  }

  ghost predicate CanonDecides(f: seq<Field>, g: seq<Field>) {
    forall i, j :: 0 <= i < |f| && 0 <= j < |g| ==>
      (Canon(f[i].value) == Canon(g[j].value) <==> SameValue(f[i].value, g[j].value))
  }

  lemma MemberToRight(f: seq<Field>, g: seq<Field>, x: Field)
    requires CanonDecides(f, g) && SameValue(Obj(f), Obj(g)) && x in CanonFields(f)
    ensures x in CanonFields(g)
  {
    InCanonFields(x, f);
    InCanonFields(x, g);
    var i :| 0 <= i < |f| && f[i].key == x.key && Canon(f[i].value) == x.value;
    assert SameUnderKey(f[i], g);
    var j :| 0 <= j < |g| && g[j].key == f[i].key && SameValue(f[i].value, g[j].value);
    assert Canon(g[j].value) == x.value;
  }

  lemma MemberToLeft(f: seq<Field>, g: seq<Field>, x: Field)
    requires DistinctKeys(g) && CanonDecides(f, g) && SameValue(Obj(f), Obj(g)) && x in CanonFields(g)
    ensures x in CanonFields(f)
  {
    InCanonFields(x, f);
    InCanonFields(x, g);
    var j :| 0 <= j < |g| && g[j].key == x.key && Canon(g[j].value) == x.value;
    assert HasKey(f, g[j].key);
    var i :| 0 <= i < |f| && f[i].key == g[j].key;
    assert SameUnderKey(f[i], g);
    var k :| 0 <= k < |g| && g[k].key == f[i].key && SameValue(f[i].value, g[k].value);
    assert k == j;
  }

  lemma SameHasSameMembers(f: seq<Field>, g: seq<Field>)
    requires DistinctKeys(f) && DistinctKeys(g) && CanonDecides(f, g) && SameValue(Obj(f), Obj(g))
    ensures forall x :: x in CanonFields(f) <==> x in CanonFields(g)
  {
    forall x ensures x in CanonFields(f) <==> x in CanonFields(g) {
      if x in CanonFields(f) { MemberToRight(f, g, x); }
      if x in CanonFields(g) { MemberToLeft(f, g, x); }
    }
  }

  lemma SameMembersAreSame(f: seq<Field>, g: seq<Field>)
    requires CanonDecides(f, g)
    requires forall x :: x in CanonFields(f) <==> x in CanonFields(g)
    ensures SameValue(Obj(f), Obj(g))
  {
    forall i | 0 <= i < |f| ensures SameUnderKey(f[i], g) {
      var x := CanonFields(f)[i];
      assert x in CanonFields(g);
      InCanonFields(x, g);
      var j :| 0 <= j < |g| && g[j].key == x.key && Canon(g[j].value) == x.value;
      assert SameValue(f[i].value, g[j].value);
    }
    forall j | 0 <= j < |g| ensures HasKey(f, g[j].key) {
      var x := CanonFields(g)[j];
      assert x in CanonFields(f);
      InCanonFields(x, f);
    }
  }

  /** Two values print alike exactly when they are equal up to key order. */
  lemma StableJsonInjective(a: Json, b: Json)
    requires WellFormed(a) && WellFormed(b)
    ensures StableJson(a) == StableJson(b) <==> SameValue(a, b)
  {
    StableJsonReadable(a, []);
    StableJsonReadable(b, []);
    StablePrintsCanon(a);
    StablePrintsCanon(b);
    assert StableJson(a) + [] == StableJson(a) && StableJson(b) + [] == StableJson(b);
    CanonIffSame(a, b);
  }

  // ---------- the text that is hashed ----------

  lemma {:induction false} PlainPaired(v: Json)
    ensures Paired(Plain(v))
    decreases v, 1
  {
    match v
    case Num(n) => IntTextPaired(n);
    case Str(s) => QuotePaired(s);
    case Arr(items) => PlainItemsPaired(items); PairedSurround(LBRACKET, PlainItems(items), RBRACKET);
    case Obj(fields) => PlainFieldsPaired(fields); PairedSurround(LBRACE, PlainFields(fields), RBRACE);
    case _ => PlainUnitsPaired(Plain(v));
  }

  lemma PairedJoin(a: Text, separator: Unit, b: Text)
    requires Paired(a) && Paired(b) && separator < 0xD800
    ensures Paired(a + [separator] + b)
  {
    PlainUnitsPaired([separator]);
    PairedConcat(a, [separator]);
    PairedConcat(a + [separator], b);
  }

  lemma {:induction false} PlainItemsPaired(items: seq<Json>)
    ensures Paired(PlainItems(items))
    decreases items, 0
  {
    if items != [] {
      PlainPaired(items[0]);
      PlainItemsPaired(items[1..]);
      PairedJoin(Plain(items[0]), COMMA, PlainItems(items[1..]));
    }
  }

  lemma {:induction false} PlainFieldsPaired(fields: seq<Field>)
    ensures Paired(PlainFields(fields))
    decreases fields, 0
  {
    if fields != [] {
      QuotePaired(fields[0].key);
      PlainPaired(fields[0].value);
      PairedJoin(Quote(fields[0].key), COLON, Plain(fields[0].value));
      PlainFieldsPaired(fields[1..]);
      PairedJoin(PlainField(fields[0]), COMMA, PlainFields(fields[1..]));
    }
  }

  /**
   The hash reads the UTF-8 bytes of the text, and UTF-8 confuses lone surrogates.
   The printed text never holds one, even when the strings of the tree do.
   */
  lemma StableJsonPaired(v: Json)
    ensures Paired(StableJson(v))
  {
    StablePrintsCanon(v);
    PlainPaired(Canon(v));
  }
}
