/**
 UTF-16 text as JavaScript holds it, and the lexical layer of JSON: string
 escapes (section 7 of RFC 8259, as `JSON.stringify` writes them) and decimal integers.
 Every printer here comes with the parser that inverts it.
 */
module JsonText {
  import opened Wrappers
  import opened Sequences

  /** One UTF-16 code unit; a JavaScript string is any sequence of them. */
  type Unit = c: int | 0 <= c < 0x1_0000
  type Text = seq<Unit>

  const QUOTE: Unit := 0x22
  const COMMA: Unit := 0x2C
  const MINUS: Unit := 0x2D
  const SLASH: Unit := 0x2F
  const COLON: Unit := 0x3A
  const LBRACKET: Unit := 0x5B
  const BACKSLASH: Unit := 0x5C
  const RBRACKET: Unit := 0x5D
  const LBRACE: Unit := 0x7B
  const RBRACE: Unit := 0x7D

  /** The code units of an ASCII literal. */
  function Ascii(s: string): Text {
    seq(|s|, i requires 0 <= i < |s| => (s[i] as int) % 0x1_0000)
  }

  /** What `String.prototype.trim` removes. */
  predicate IsSpace(u: Unit) {
    || 0x09 <= u <= 0x0D || u == 0x20 || u == 0xA0 || u == 0x1680 || 0x2000 <= u <= 0x200A
    || u == 0x2028 || u == 0x2029 || u == 0x202F || u == 0x205F || u == 0x3000 || u == 0xFEFF
  }

  predicate IsDigit(c: Unit) { 0x30 <= c <= 0x39 }

  predicate IsHigh(c: Unit) { 0xD800 <= c < 0xDC00 }

  predicate IsLow(c: Unit) { 0xDC00 <= c < 0xE000 }

  predicate StartsPair(s: Text) { |s| > 1 && IsHigh(s[0]) && IsLow(s[1]) }

  predicate DigitStarts(s: Text) { |s| > 0 && IsDigit(s[0]) }

  // ---------- \uXXXX ----------

  function HexDigit(d: int): Unit
    requires 0 <= d < 16
  {
    if d < 10 then 0x30 + d else 0x57 + d
  }

  function Hex4(c: Unit): Text {
    [HexDigit(c / 0x1000), HexDigit(c / 0x100 % 16), HexDigit(c / 0x10 % 16), HexDigit(c % 16)]
  }

  /** A hexadecimal digit of either case. */
  function HexValue(c: Unit): Option<int> {
    if IsDigit(c) then Some(c - 0x30)
    else if 0x61 <= c <= 0x66 then Some(c - 0x57)
    else if 0x41 <= c <= 0x46 then Some(c - 0x37)
    else None
  }

  function ParseHex4(t: Text): Option<int>
    requires |t| >= 4
  {
    match (HexValue(t[0]), HexValue(t[1]), HexValue(t[2]), HexValue(t[3]))
    case (Some(a), Some(b), Some(c), Some(d)) => Some(((a * 16 + b) * 16 + c) * 16 + d)
    case _ => None
  }

  lemma HexDigitRoundTrip(d: int)
    requires 0 <= d < 16
    ensures HexValue(HexDigit(d)) == Some(d)
  {
  }

  lemma ReadHex4(a: int, b: int, c: int, d: int, rest: Text)
    requires 0 <= a < 16 && 0 <= b < 16 && 0 <= c < 16 && 0 <= d < 16
    ensures ParseHex4([HexDigit(a), HexDigit(b), HexDigit(c), HexDigit(d)] + rest) ==
      Some(((a * 16 + b) * 16 + c) * 16 + d)
  {
    HexDigitRoundTrip(a);
    HexDigitRoundTrip(b);
    HexDigitRoundTrip(c);
    HexDigitRoundTrip(d);
  }

  lemma HexDigitsOf(c: nat)
    ensures ((c / 0x1000 * 16 + c / 0x100 % 16) * 16 + c / 0x10 % 16) * 16 + c % 16 == c
  {
    assert c / 0x1000 == c / 0x100 / 16 && c / 0x100 == c / 0x10 / 16;
  }

  lemma Hex4RoundTrip(c: Unit, rest: Text)
    ensures ParseHex4(Hex4(c) + rest) == Some(c)
  {
    ReadHex4(c / 0x1000, c / 0x100 % 16, c / 0x10 % 16, c % 16, rest);
    HexDigitsOf(c);
  }

  // ---------- string escapes ----------

  /** The escape of a unit that does not belong to a surrogate pair. */
  function EscapeUnit(c: Unit): Text {
    if c == 0x08 then [BACKSLASH, 0x62]
    else if c == 0x09 then [BACKSLASH, 0x74]
    else if c == 0x0A then [BACKSLASH, 0x6E]
    else if c == 0x0C then [BACKSLASH, 0x66]
    else if c == 0x0D then [BACKSLASH, 0x72]
    else if c == QUOTE || c == BACKSLASH then [BACKSLASH, c]
    else if c < 0x20 || IsHigh(c) || IsLow(c) then [BACKSLASH, 0x75] + Hex4(c)
    else [c]
  }

  /** Surrogate pairs pass through; a lone surrogate is escaped. */
  function Escape(s: Text): Text {
    if s == [] then []
    else if StartsPair(s) then s[..2] + Escape(s[2..])
    else EscapeUnit(s[0]) + Escape(s[1..])
  }

  function Quote(s: Text): Text {
    [QUOTE] + Escape(s) + [QUOTE]
  }

  /** The unit an escape stands for and the number of units it takes; `t` starts with a backslash. */
  function ParseEscape(t: Text): (r: Option<(Unit, nat)>)
    requires |t| > 0
    ensures r.Some? ==> 2 <= r.value.1 <= |t|
  {
    if |t| < 2 then None
    else if t[1] == 0x62 then Some((0x08, 2))
    else if t[1] == 0x74 then Some((0x09, 2))
    else if t[1] == 0x6E then Some((0x0A, 2))
    else if t[1] == 0x66 then Some((0x0C, 2))
    else if t[1] == 0x72 then Some((0x0D, 2))
    else if t[1] == QUOTE || t[1] == BACKSLASH || t[1] == SLASH then Some((t[1], 2))
    else if t[1] == 0x75 && |t| >= 6 then
      match ParseHex4(t[2..])
      case Some(v) => if 0 <= v < 0x1_0000 then Some((v, 6)) else None
      case None => None
    else None
  }

  /** Reads the rest of a string after its opening quote, up to the closing one. */
  function ParseStringBody(t: Text): (r: Option<(Text, Text)>)
    ensures r.Some? ==> |r.value.1| < |t|
  {
    if t == [] then None
    else if t[0] == QUOTE then Some(([], t[1..]))
    else if t[0] == BACKSLASH then
      match ParseEscape(t)
      case Some((c, n)) => Prepend(c, ParseStringBody(t[n..]))
      case None => None
    else if t[0] < 0x20 then None
    else Prepend(t[0], ParseStringBody(t[1..]))
  }

  function Prepend(c: Unit, r: Option<(Text, Text)>): (p: Option<(Text, Text)>)
    ensures p.Some? ==> r.Some? && p.value.1 == r.value.1
  {
    match r
    case Some((s, rest)) => Some(([c] + s, rest))
    case None => None
  }

  lemma HexEscapeRoundTrip(c: Unit, rest: Text)
    ensures ParseStringBody([BACKSLASH, 0x75] + Hex4(c) + rest) == Prepend(c, ParseStringBody(rest))
  {
    var t := [BACKSLASH, 0x75] + Hex4(c) + rest;
    Hex4RoundTrip(c, rest);
    assert t[2..] == Hex4(c) + rest && t[6..] == rest;
  }

  lemma ShortEscapeRoundTrip(e: Unit, c: Unit, rest: Text)
    requires ParseEscape([BACKSLASH, e] + rest) == Some((c, 2))
    ensures ParseStringBody([BACKSLASH, e] + rest) == Prepend(c, ParseStringBody(rest))
  {
    assert ([BACKSLASH, e] + rest)[2..] == rest;
  }

  lemma EscapeUnitRoundTrip(c: Unit, rest: Text)
    ensures ParseStringBody(EscapeUnit(c) + rest) == Prepend(c, ParseStringBody(rest))
  {
    var e := EscapeUnit(c);
    if |e| == 6 {
      HexEscapeRoundTrip(c, rest);
    } else if |e| == 2 {
      assert e == [BACKSLASH, e[1]];
      ShortEscapeRoundTrip(e[1], c, rest);
    } else {
      RawUnitRoundTrip(c, rest);
    }
  }

  lemma RawUnitRoundTrip(c: Unit, rest: Text)
    requires c >= 0x20 && c != QUOTE && c != BACKSLASH
    ensures ParseStringBody([c] + rest) == Prepend(c, ParseStringBody(rest))
  {
    assert ([c] + rest)[1..] == rest;
  }

  /** The escape of the front of `s`, and how many units of `s` it covers. */
  lemma EscapeStep(s: Text, rest: Text)
    requires s != []
    ensures StartsPair(s) ==> Escape(s) + rest == [s[0]] + ([s[1]] + (Escape(s[2..]) + rest))
    ensures !StartsPair(s) ==> Escape(s) + rest == EscapeUnit(s[0]) + (Escape(s[1..]) + rest)
  {
    if StartsPair(s) {
      Assoc([s[0]], [s[1]], Escape(s[2..]) + rest);
      assert s[..2] == [s[0]] + [s[1]];
      Assoc(s[..2], Escape(s[2..]), rest);
    } else {
      Assoc(EscapeUnit(s[0]), Escape(s[1..]), rest);
    }
  }

  lemma ReadUnit(c: Unit, t: Text, s: Text, rest: Text)
    requires ParseStringBody(t) == Some((s, rest))
    ensures ParseStringBody(EscapeUnit(c) + t) == Some(([c] + s, rest))
  {
    EscapeUnitRoundTrip(c, t);
  }

  lemma ReadPair(high: Unit, low: Unit, t: Text, s: Text, rest: Text)
    requires ParseStringBody(t) == Some((s, rest)) && IsHigh(high) && IsLow(low)
    ensures ParseStringBody([high] + ([low] + t)) == Some(([high] + ([low] + s), rest))
  {
    RawUnitRoundTrip(low, t);
    RawUnitRoundTrip(high, [low] + t);
  }

  lemma {:induction false} EscapeRoundTrip(s: Text, rest: Text)
    ensures ParseStringBody(Escape(s) + ([QUOTE] + rest)) == Some((s, rest))
  {
    var close := [QUOTE] + rest;
    if s == [] {
      assert Escape(s) + close == close;
      assert close[1..] == rest;
    } else if StartsPair(s) {
      EscapeStep(s, close);
      EscapeRoundTrip(s[2..], rest);
      ReadPair(s[0], s[1], Escape(s[2..]) + close, s[2..], rest);
      assert s == [s[0]] + ([s[1]] + s[2..]);
    } else {
      EscapeStep(s, close);
      EscapeRoundTrip(s[1..], rest);
      ReadUnit(s[0], Escape(s[1..]) + close, s[1..], rest);
      assert s == [s[0]] + s[1..];
    }
  }

  // ---------- integers ----------

  function Digits(n: nat): (t: Text)
    ensures |t| > 0 && IsDigit(t[0])
    decreases n
  {
    if n < 10 then [0x30 + n] else Digits(n / 10) + [0x30 + n % 10]
  }

  function IntText(n: int): Text {
    if n < 0 then [MINUS] + Digits(-n) else Digits(n)
  }

  /** The longest run of digits at the start of `t`, read onto `acc`. */
  function ParseDigits(t: Text, acc: nat): (r: (nat, Text))
    ensures |r.1| <= |t|
  {
    if DigitStarts(t) then ParseDigits(t[1..], 10 * acc + (t[0] - 0x30)) else (acc, t)
  }

  lemma {:induction false} DigitsRoundTrip(n: nat, rest: Text)
    ensures ParseDigits(Digits(n) + rest, 0) == ParseDigits(rest, n)
    decreases n
  {
    if n >= 10 {
      var last := [0x30 + n % 10];
      DigitsRoundTrip(n / 10, last + rest);
      assert Digits(n) + rest == Digits(n / 10) + (last + rest);
      assert (last + rest)[1..] == rest;
    } else {
      assert (Digits(n) + rest)[1..] == rest;
    }
  }

  // ---------- well-formed UTF-16 ----------

  /** No lone surrogate: encoding such a text as UTF-8 loses nothing. */
  predicate Paired(t: Text) {
    t == [] || (if StartsPair(t) then Paired(t[2..]) else !IsHigh(t[0]) && !IsLow(t[0]) && Paired(t[1..]))
  }

  lemma {:induction false} PairedConcat(a: Text, b: Text)
    requires Paired(a) && Paired(b)
    ensures Paired(a + b)
  {
    if a == [] {
      assert a + b == b;
    } else if StartsPair(a) {
      PairedConcat(a[2..], b);
      assert (a + b)[2..] == a[2..] + b;
    } else {
      PairedConcat(a[1..], b);
      assert (a + b)[1..] == a[1..] + b;
    }
  }

  lemma {:induction false} PlainUnitsPaired(t: Text)
    requires forall i :: 0 <= i < |t| ==> t[i] < 0xD800
    ensures Paired(t)
  {
    if t != [] { PlainUnitsPaired(t[1..]); }
  }

  lemma EscapeUnitPaired(c: Unit)
    ensures Paired(EscapeUnit(c))
  {
    if IsHigh(c) || IsLow(c) || c < 0xD800 {
      PlainUnitsPaired(EscapeUnit(c));
    } else {
      assert EscapeUnit(c)[1..] == [];
    }
  }

  /** Whatever the string, its escaped form has no lone surrogate. */
  lemma {:induction false} EscapePaired(s: Text)
    ensures Paired(Escape(s))
  {
    if s == [] {
    } else if StartsPair(s) {
      EscapePaired(s[2..]);
      assert Paired(s[..2]) by { assert s[..2][2..] == []; }
      PairedConcat(s[..2], Escape(s[2..]));
    } else {
      EscapePaired(s[1..]);
      EscapeUnitPaired(s[0]);
      PairedConcat(EscapeUnit(s[0]), Escape(s[1..]));
    }
  }

  lemma QuotePaired(s: Text)
    ensures Paired(Quote(s))
  {
    EscapePaired(s);
    PairedSurround(QUOTE, Escape(s), QUOTE);
  }

  lemma PairedSurround(open: Unit, body: Text, close: Unit)
    requires Paired(body) && open < 0xD800 && close < 0xD800
    ensures Paired([open] + body + [close])
  {
    PlainUnitsPaired([open]);
    PlainUnitsPaired([close]);
    PairedConcat([open], body);
    PairedConcat([open] + body, [close]);
  }

  lemma {:induction false} DigitsSmall(n: nat)
    ensures forall i :: 0 <= i < |Digits(n)| ==> Digits(n)[i] < 0xD800
    decreases n
  {
    if n >= 10 { DigitsSmall(n / 10); }
  }

  lemma IntTextPaired(n: int)
    ensures Paired(IntText(n))
  {
    DigitsSmall(if n < 0 then -n else n);
    PlainUnitsPaired(IntText(n));
  }
}
