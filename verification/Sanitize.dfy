/** Text and slug normalisation of the run records, and when a second normalisation changes nothing. */
module Sanitize {
  import opened JsonText
  import opened Sequences

  const SPACE: Unit := 0x20
  const DASH: Unit := 0x2D
  const MAX_SLUG := 80

  predicate IsBreak(u: Unit) { u == 0x0A || u == 0x0D || u == 0x2028 || u == 0x2029 }

  predicate IsDash(u: Unit) { u == DASH }

  predicate IsSlugUnit(u: Unit) { 0x61 <= u <= 0x7A || IsDigit(u) || u == 0x2E || u == 0x5F || u == DASH }

  predicate NotSlugUnit(u: Unit) { !IsSlugUnit(u) }

  function DropWhile(t: Text, p: Unit -> bool): (r: Text)
    ensures |r| <= |t|
  {
    if t != [] && p(t[0]) then DropWhile(t[1..], p) else t
  }

  /** Each longest run of units that satisfy `p` is replaced by `put`. */
  function ReplaceRuns(t: Text, p: Unit -> bool, put: Unit): Text
    decreases |t|
  {
    if t == [] then []
    else if p(t[0]) then [put] + ReplaceRuns(DropWhile(t[1..], p), p, put)
    else [t[0]] + ReplaceRuns(t[1..], p, put)
  }

  function TrimEnd(t: Text, p: Unit -> bool): Text {
    if t != [] && p(t[|t| - 1]) then TrimEnd(t[..|t| - 1], p) else t
  }

  function Trim(t: Text, p: Unit -> bool): Text { TrimEnd(DropWhile(t, p), p) }

  function LowerUnit(u: Unit): Unit { if 0x41 <= u <= 0x5A then u + 0x20 else u }

  function Lower(t: Text): Text { seq(|t|, i requires 0 <= i < |t| => LowerUnit(t[i])) }

  function SanitizeText(t: Text): Text { Trim(ReplaceRuns(t, IsBreak, SPACE), IsSpace) }

  /** The slug before it is cut. */
  function FullSlug(t: Text): Text { Trim(ReplaceRuns(Lower(t), NotSlugUnit, DASH), IsDash) }

  /** The slug; the source refuses an empty one. */
  function SanitizeSlug(t: Text): Text { Take(FullSlug(t), MAX_SLUG) }

  // ---------- the pieces ----------

  predicate All(t: Text, p: Unit -> bool) { forall i :: 0 <= i < |t| ==> p(t[i]) }

  predicate NoUnit(t: Text, p: Unit -> bool) { forall i :: 0 <= i < |t| ==> !p(t[i]) }

  lemma {:induction false} DropWhileIsSuffix(t: Text, p: Unit -> bool) returns (k: nat)
    ensures k <= |t| && DropWhile(t, p) == t[k..] && All(t[..k], p) && (k < |t| ==> !p(t[k]))
  {
    k := 0;
    if t != [] && p(t[0]) {
      var j := DropWhileIsSuffix(t[1..], p);
      k := j + 1;
      assert t[1..][j..] == t[k..];
      forall i | 0 <= i < k ensures p(t[..k][i]) {
        if i > 0 { assert t[1..][..j][i - 1] == t[i]; }
      }
    }
  }

  lemma {:induction false} TrimEndIsPrefix(t: Text, p: Unit -> bool) returns (k: nat)
    ensures k <= |t| && TrimEnd(t, p) == t[..k] && All(t[k..], p) && (k > 0 ==> !p(t[k - 1]))
  {
    k := |t|;
    if t != [] && p(t[|t| - 1]) {
      k := TrimEndIsPrefix(t[..|t| - 1], p);
      assert t[..|t| - 1][..k] == t[..k];
      forall i | 0 <= i < |t| - k ensures p(t[k..][i]) {
        if k + i < |t| - 1 { assert t[..|t| - 1][k..][i] == t[k + i]; }
      }
    } else {
      assert t[..|t|] == t;
    }
  }

  /**
   A trimmed text is a slice that neither starts nor ends with a trimmed unit; it is empty only if all of it was
   trimmed.
   */
  lemma TrimIsSlice(t: Text, p: Unit -> bool) returns (a: nat, b: nat)
    ensures a <= b <= |t| && Trim(t, p) == t[a..b] && (a < b ==> !p(t[a]) && !p(t[b - 1]))
    ensures Trim(t, p) == [] <==> All(t, p)
  {
    a := DropWhileIsSuffix(t, p);
    assert a < |t| ==> t[a..][0] == t[a];
    var k := TrimEndIsPrefix(t[a..], p);
    b := a + k;
    assert t[a..][..k] == t[a..b];
    if k == 0 {
      assert t[a..][k..] == t[a..];
      assert a == |t|;
      assert t[..a] == t;
    } else {
      assert t[a..][0] == t[a] && t[a..][k - 1] == t[b - 1];
    }
  }

  lemma TrimmedStays(t: Text, p: Unit -> bool)
    ensures Trim(t, p) == t <==> t == [] || (!p(t[0]) && !p(t[|t| - 1]))
  {
    var a, b := TrimIsSlice(t, p);
    if Trim(t, p) == t {
      assert b - a == |t|;
    }
  }

  lemma {:induction false} ReplaceRunsOf(t: Text, p: Unit -> bool, put: Unit)
    requires !p(put)
    ensures NoUnit(ReplaceRuns(t, p, put), p)
    decreases |t|
  {
    if t != [] {
      ReplaceRunsOf(if p(t[0]) then DropWhile(t[1..], p) else t[1..], p, put);
    }
  }

  lemma {:induction false} NothingToReplace(t: Text, p: Unit -> bool, put: Unit)
    requires NoUnit(t, p)
    ensures ReplaceRuns(t, p, put) == t
  {
    if t != [] {
      NothingToReplace(t[1..], p, put);
      assert t == [t[0]] + t[1..];
    }
  }

  // ---------- text ----------

  /** Normalising a text twice is normalising it once. */
  lemma TextTwice(t: Text)
    ensures SanitizeText(SanitizeText(t)) == SanitizeText(t)
  {
    var joined, s := ReplaceRuns(t, IsBreak, SPACE), SanitizeText(t);
    ReplaceRunsOf(t, IsBreak, SPACE);
    var a, b := TrimIsSlice(joined, IsSpace);
    assert NoUnit(s, IsBreak) by { assert forall i :: 0 <= i < |s| ==> s[i] == joined[a + i]; }
    NothingToReplace(s, IsBreak, SPACE);
    TrimmedStays(s, IsSpace);
  }

  /** A text normalises to nothing exactly when it is blank. */
  lemma BlankIff(t: Text)
    ensures SanitizeText(t) == [] <==> All(t, IsSpace)
  {
    var _, _ := TrimIsSlice(ReplaceRuns(t, IsBreak, SPACE), IsSpace);
    BlankRuns(t);
  }

  lemma AllCons(t: Text, p: Unit -> bool)
    requires t != []
    ensures All(t, p) <==> p(t[0]) && All(t[1..], p)
  {
    assert t == [t[0]] + t[1..];
  }

  lemma AllConcat(s: Text, t: Text, p: Unit -> bool)
    ensures All(s + t, p) <==> All(s, p) && All(t, p)
  {
    if All(s + t, p) {
      assert forall i :: 0 <= i < |s| ==> s[i] == (s + t)[i];
      assert forall i :: 0 <= i < |t| ==> t[i] == (s + t)[|s| + i];
    }
  }

  lemma BreaksAreBlank(t: Text)
    requires All(t, IsBreak)
    ensures All(t, IsSpace)
  {
  }

  lemma {:induction false} BlankRuns(t: Text)
    ensures All(ReplaceRuns(t, IsBreak, SPACE), IsSpace) <==> All(t, IsSpace)
    decreases |t|
  {
    if t != [] {
      AllCons(t, IsSpace);
      var rest := if IsBreak(t[0]) then DropWhile(t[1..], IsBreak) else t[1..];
      if IsBreak(t[0]) {
        var k := DropWhileIsSuffix(t[1..], IsBreak);
        BreaksAreBlank(t[1..][..k]);
        AllConcat(t[1..][..k], rest, IsSpace);
        assert t[1..] == t[1..][..k] + rest;
      }
      BlankRuns(rest);
      AllCons(ReplaceRuns(t, IsBreak, SPACE), IsSpace);
      assert ReplaceRuns(t, IsBreak, SPACE)[1..] == ReplaceRuns(rest, IsBreak, SPACE);
    }
  }

  // ---------- slugs ----------

  lemma SlugUnits(t: Text)
    ensures All(FullSlug(t), IsSlugUnit)
      && (FullSlug(t) != [] ==> FullSlug(t)[0] != DASH && FullSlug(t)[|FullSlug(t)| - 1] != DASH)
  {
    var replaced := ReplaceRuns(Lower(t), NotSlugUnit, DASH);
    ReplaceRunsOf(Lower(t), NotSlugUnit, DASH);
    var a, b := TrimIsSlice(replaced, IsDash);
    assert forall i :: 0 <= i < b - a ==> FullSlug(t)[i] == replaced[a + i];
  }

  lemma SlugOfSlugUnits(s: Text)
    requires All(s, IsSlugUnit)
    ensures FullSlug(s) == Trim(s, IsDash)
  {
    assert Lower(s) == s;
    assert NoUnit(s, NotSlugUnit);
    NothingToReplace(s, NotSlugUnit, DASH);
  }

  /** A slug is its own slug exactly when the cut did not leave a dash at its end; slugs that fit are never changed. */
  lemma SlugStableIff(t: Text)
    ensures var s := SanitizeSlug(t); SanitizeSlug(s) == s <==> s == [] || s[|s| - 1] != DASH
    ensures |FullSlug(t)| <= MAX_SLUG ==> SanitizeSlug(SanitizeSlug(t)) == SanitizeSlug(t)
  {
    var full, s := FullSlug(t), SanitizeSlug(t);
    SlugUnits(t);
    assert All(s, IsSlugUnit) by { assert forall i :: 0 <= i < |s| ==> s[i] == full[i]; }
    SlugOfSlugUnits(s);
    TrimmedStays(s, IsDash);
    var _, _ := TrimIsSlice(s, IsDash);
  }

  /** The second normalisation of a slug is final. */
  lemma SlugTwice(t: Text)
    ensures var s := SanitizeSlug(SanitizeSlug(t)); SanitizeSlug(s) == s
  {
    SlugUnits(t);
    var s := SanitizeSlug(t);
    assert All(s, IsSlugUnit) by { assert forall i :: 0 <= i < |s| ==> s[i] == FullSlug(t)[i]; }
    SlugOfSlugUnits(s);
    var a, b := TrimIsSlice(s, IsDash);
    SlugStableIff(s);
  }

  /** Cutting can leave a dash that the next normalisation removes: 79 units, a dash and more. */
  lemma CutSlugChanges(body: Text, next: Unit)
    requires |body| == 79 && All(body, IsSlugUnit) && body[0] != DASH && body[78] != DASH && IsSlugUnit(next)
      && next != DASH
    ensures SanitizeSlug(body + [DASH, next]) == body + [DASH] && SanitizeSlug(body + [DASH]) == body
  {
    var t := body + [DASH, next];
    assert All(t, IsSlugUnit) && All(body + [DASH], IsSlugUnit);
    SlugOfSlugUnits(t);
    TrimmedStays(t, IsDash);
    assert t[..80] == body + [DASH];
    SlugOfSlugUnits(body + [DASH]);
    assert (body + [DASH])[..79] == body;
    assert DropWhile(body + [DASH], IsDash) == body + [DASH];
    assert TrimEnd(body, IsDash) == body;
  }
}
