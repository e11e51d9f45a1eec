/**
 The CSV export of the audit trail, and a parser following section 2 of RFC 4180 (with LF
 line ends) that inverts it.
 */
module AuditCsv {
  import opened Wrappers
  import opened JsonText
  import opened CanonicalJson
  import opened EventStore
  import opened Sequences

  const LF: Unit := 0x0A

  function DoubleQuotes(t: Text): Text {
    if t == [] then [] else (if t[0] == QUOTE then [QUOTE, QUOTE] else [t[0]]) + DoubleQuotes(t[1..])
  }

  predicate NeedsQuotes(t: Text) {
    exists i :: 0 <= i < |t| && (t[i] == QUOTE || t[i] == COMMA || t[i] == LF)
  }

  function CsvCell(t: Text): Text {
    var doubled := DoubleQuotes(t);
    if NeedsQuotes(doubled) then [QUOTE] + doubled + [QUOTE] else doubled
  }

  function CsvRow(cells: seq<Text>): Text {
    if cells == [] then []
    else if |cells| == 1 then CsvCell(cells[0])
    else CsvCell(cells[0]) + ([COMMA] + CsvRow(cells[1..]))
  }

  function CsvTable(rows: seq<seq<Text>>): Text {
    if rows == [] then []
    else if |rows| == 1 then CsvRow(rows[0])
    else CsvRow(rows[0]) + ([LF] + CsvTable(rows[1..]))
  }

  function Header(): seq<Text> {
    [Ascii("id"), Ascii("eventId"), Ascii("actor"), Ascii("action"), Ascii("target"), Ascii("result"), Ascii("runId"),
     Ascii("stepId"), Ascii("metadataRedacted"), Ascii("createdAt")]
  }

  /** The cells of an entry; the metadata object is printed with its keys in insertion order. */
  function Cells(e: AuditEntry): seq<Text> {
    [e.id, IntText(e.eventId), e.actor, e.action, e.target, e.result, e.runId.GetOr([]), e.stepId.GetOr([]),
     Plain(e.metadata), e.createdAt]
  }

  function Rows(entries: seq<AuditEntry>): (rows: seq<seq<Text>>)
    ensures |rows| == |entries| && forall i :: 0 <= i < |rows| ==> rows[i] == Cells(entries[i])
  {
    if entries == [] then [] else [Cells(entries[0])] + Rows(entries[1..])
  }

  /** The header line is written as it stands, without going through the cell printer. */
  function ToAuditCsv(entries: seq<AuditEntry>): Text {
    var header := JoinCommas(Header());
    if entries == [] then header else header + ([LF] + CsvTable(Rows(entries)))
  }

  function JoinCommas(cells: seq<Text>): Text {
    if cells == [] then [] else if |cells| == 1 then cells[0] else cells[0] + ([COMMA] + JoinCommas(cells[1..]))
  }

  // ---------- the parser ----------

  /** The rest of a quoted cell: a doubled quote is a quote, a single one closes the cell. */
  function ParseQuoted(t: Text): (r: Option<(Text, Text)>)
    ensures r.Some? ==> |r.value.1| < |t|
  {
    if t == [] then None
    else if t[0] == QUOTE then
      if |t| > 1 && t[1] == QUOTE then Prepend(QUOTE, ParseQuoted(t[2..])) else Some(([], t[1..]))
    else Prepend(t[0], ParseQuoted(t[1..]))
  }

  function ParseBare(t: Text): (r: (Text, Text))
    ensures |r.1| <= |t|
  {
    if t == [] || t[0] == COMMA || t[0] == LF then ([], t)
    else var (cell, rest) := ParseBare(t[1..]); ([t[0]] + cell, rest)
  }

  function ParseCell(t: Text): (r: Option<(Text, Text)>)
    ensures r.Some? ==> |r.value.1| <= |t|
  {
    if t != [] && t[0] == QUOTE then ParseQuoted(t[1..]) else Some(ParseBare(t))
  }

  /** One row, and what follows it: nothing or a line end. */
  function ParseRow(t: Text): (r: Option<(seq<Text>, Text)>)
    ensures r.Some? ==> |r.value.1| <= |t|
    decreases |t|
  {
    match ParseCell(t)
    case None => None
    case Some((cell, rest)) =>
      if rest == [] || rest[0] == LF then Some(([cell], rest))
      else if rest[0] != COMMA then None
      else match ParseRow(rest[1..])
        case Some((cells, end)) => Some(([cell] + cells, end))
        case None => None
  }

  function ParseTable(t: Text): Option<seq<seq<Text>>>
    decreases |t|
  {
    match ParseRow(t)
    case None => None
    case Some((row, rest)) =>
      if rest == [] then Some([row])
      else match ParseTable(rest[1..])
        case Some(rows) => Some([row] + rows)
        case None => None
  }

  // ---------- the parser inverts the printer ----------

  predicate EndsCell(rest: Text) { rest == [] || rest[0] == COMMA || rest[0] == LF }

  lemma QuotedStep(c: Unit, u: Text)
    ensures ParseQuoted((if c == QUOTE then [QUOTE, QUOTE] else [c]) + u) == Prepend(c, ParseQuoted(u))
  {
    assert ([QUOTE, QUOTE] + u)[2..] == u && ([c] + u)[1..] == u;
  }

  lemma {:induction false} QuotedRoundTrip(t: Text, rest: Text)
    requires EndsCell(rest)
    ensures ParseQuoted(DoubleQuotes(t) + ([QUOTE] + rest)) == Some((t, rest))
  {
    var close := [QUOTE] + rest;
    if t == [] {
      assert DoubleQuotes(t) + close == close && close[1..] == rest;
    } else {
      QuotedRoundTrip(t[1..], rest);
      QuotedStep(t[0], DoubleQuotes(t[1..]) + close);
      Assoc(if t[0] == QUOTE then [QUOTE, QUOTE] else [t[0]], DoubleQuotes(t[1..]), close);
      assert t == [t[0]] + t[1..];
    }
  }

  lemma {:induction false} BareRoundTrip(t: Text, rest: Text)
    requires EndsCell(rest) && !NeedsQuotes(t)
    ensures ParseBare(t + rest) == (t, rest)
  {
    if t == [] {
      assert t + rest == rest;
    } else {
      assert t[0] != COMMA && t[0] != LF;
      assert (t + rest)[1..] == t[1..] + rest;
      forall i | 0 <= i < |t[1..]| ensures t[1..][i] != QUOTE && t[1..][i] != COMMA && t[1..][i] != LF {
        assert t[1..][i] == t[i + 1];
      }
      BareRoundTrip(t[1..], rest);
      assert t == [t[0]] + t[1..];
    }
  }

  lemma {:induction false} DoublingKeepsPlain(t: Text)
    ensures !NeedsQuotes(DoubleQuotes(t)) ==> DoubleQuotes(t) == t
  {
    if t != [] {
      DoublingKeepsPlain(t[1..]);
      var d := DoubleQuotes(t);
      if !NeedsQuotes(d) {
        assert d[0] != QUOTE;
        assert d[1..] == DoubleQuotes(t[1..]);
        forall i | 0 <= i < |d[1..]| ensures d[1..][i] != QUOTE && d[1..][i] != COMMA && d[1..][i] != LF {
          assert d[1..][i] == d[i + 1];
        }
      }
    }
  }

  lemma QuotedCell(u: Text, t: Text, rest: Text)
    requires ParseQuoted(u) == Some((t, rest))
    ensures ParseCell([QUOTE] + u) == Some((t, rest))
  {
    assert ([QUOTE] + u)[1..] == u;
  }

  lemma CellRoundTrip(t: Text, rest: Text)
    requires EndsCell(rest)
    ensures ParseCell(CsvCell(t) + rest) == Some((t, rest))
  {
    if NeedsQuotes(DoubleQuotes(t)) {
      QuotedRoundTrip(t, rest);
      QuotedCell(DoubleQuotes(t) + ([QUOTE] + rest), t, rest);
      Wrap(QUOTE, DoubleQuotes(t), QUOTE, rest);
    } else {
      DoublingKeepsPlain(t);
      BareRoundTrip(t, rest);
      if t != [] { assert t[0] != QUOTE; }
    }
  }

  predicate EndsRow(rest: Text) { rest == [] || rest[0] == LF }

  lemma RowStep(t: Text, cell: Text, u: Text)
    ensures EndsRow(u) && ParseCell(t) == Some((cell, u)) ==> ParseRow(t) == Some(([cell], u))
    ensures ParseCell(t) == Some((cell, [COMMA] + u)) && ParseRow(u).Some? ==>
      ParseRow(t) == Some(([cell] + ParseRow(u).value.0, ParseRow(u).value.1))
  {
    assert ([COMMA] + u)[1..] == u;
  }

  lemma RowText(cells: seq<Text>, rest: Text)
    requires |cells| > 1
    ensures CsvRow(cells) + rest == CsvCell(cells[0]) + ([COMMA] + (CsvRow(cells[1..]) + rest))
  {
    Assoc(CsvCell(cells[0]), [COMMA] + CsvRow(cells[1..]), rest);
    Assoc([COMMA], CsvRow(cells[1..]), rest);
  }

  lemma NextCell(p: Text, cell: Text, u: Text, cells: seq<Text>, rest: Text)
    requires ParseCell(p + ([COMMA] + u)) == Some((cell, [COMMA] + u)) && ParseRow(u) == Some((cells, rest))
    ensures ParseRow(p + ([COMMA] + u)) == Some(([cell] + cells, rest))
  {
    RowStep(p + ([COMMA] + u), cell, u);
  }

  lemma LastCell(p: Text, cell: Text, rest: Text)
    requires ParseCell(p + rest) == Some((cell, rest)) && EndsRow(rest)
    ensures ParseRow(p + rest) == Some(([cell], rest))
  {
    RowStep(p + rest, cell, rest);
  }

  lemma {:induction false} RowRoundTrip(cells: seq<Text>, rest: Text)
    requires cells != [] && EndsRow(rest)
    ensures ParseRow(CsvRow(cells) + rest) == Some((cells, rest))
  {
    if |cells| == 1 {
      CellRoundTrip(cells[0], rest);
      LastCell(CsvCell(cells[0]), cells[0], rest);
      assert cells == [cells[0]];
    } else {
      var u := CsvRow(cells[1..]) + rest;
      RowRoundTrip(cells[1..], rest);
      CellRoundTrip(cells[0], [COMMA] + u);
      RowText(cells, rest);
      NextCell(CsvCell(cells[0]), cells[0], u, cells[1..], rest);
      assert cells == [cells[0]] + cells[1..];
    }
  }

  lemma TableStep(t: Text, row: seq<Text>, u: Text)
    ensures ParseRow(t) == Some((row, [])) ==> ParseTable(t) == Some([row])
    ensures ParseRow(t) == Some((row, [LF] + u)) && ParseTable(u).Some? ==>
      ParseTable(t) == Some([row] + ParseTable(u).value)
  {
    assert ([LF] + u)[1..] == u;
  }

  lemma NextRow(p: Text, row: seq<Text>, u: Text, rows: seq<seq<Text>>)
    requires ParseRow(p + ([LF] + u)) == Some((row, [LF] + u)) && ParseTable(u) == Some(rows)
    ensures ParseTable(p + ([LF] + u)) == Some([row] + rows)
  {
    TableStep(p + ([LF] + u), row, u);
  }

  /** Every cell of every row comes back, whatever quotes, commas and line ends it holds. */
  lemma {:induction false} TableRoundTrip(rows: seq<seq<Text>>)
    requires rows != [] && forall i :: 0 <= i < |rows| ==> rows[i] != []
    ensures ParseTable(CsvTable(rows)) == Some(rows)
  {
    if |rows| == 1 {
      RowRoundTrip(rows[0], []);
      assert CsvRow(rows[0]) + [] == CsvRow(rows[0]);
      TableStep(CsvRow(rows[0]), rows[0], []);
      assert rows == [rows[0]];
    } else {
      var u := CsvTable(rows[1..]);
      TableRoundTrip(rows[1..]);
      RowRoundTrip(rows[0], [LF] + u);
      NextRow(CsvRow(rows[0]), rows[0], u, rows[1..]);
      assert rows == [rows[0]] + rows[1..];
    }
  }

  /** A row none of whose cells needs quoting prints as the plain join. */
  lemma {:induction false} JoinIsRow(cells: seq<Text>)
    requires forall i :: 0 <= i < |cells| ==> CsvCell(cells[i]) == cells[i]
    ensures JoinCommas(cells) == CsvRow(cells)
  {
    if |cells| > 1 {
      assert forall i :: 0 <= i < |cells[1..]| ==> cells[1..][i] == cells[i + 1];
      JoinIsRow(cells[1..]);
    }
  }

  lemma {:induction false} PlainCell(t: Text)
    requires forall i :: 0 <= i < |t| ==> t[i] >= 0x41
    ensures DoubleQuotes(t) == t && CsvCell(t) == t
  {
    if t != [] {
      PlainCell(t[1..]);
    }
  }

  lemma LetterCell(s: string)
    requires forall i :: 0 <= i < |s| ==> 'A' <= s[i] <= 'z'
    ensures CsvCell(Ascii(s)) == Ascii(s)
  {
    PlainCell(Ascii(s));
  }

  lemma FirstNames()
    ensures CsvCell(Ascii("id")) == Ascii("id") && CsvCell(Ascii("eventId")) == Ascii("eventId")
    ensures CsvCell(Ascii("actor")) == Ascii("actor") && CsvCell(Ascii("action")) == Ascii("action")
    ensures CsvCell(Ascii("target")) == Ascii("target")
  {
    LetterCell("id");
    LetterCell("eventId");
    LetterCell("actor");
    LetterCell("action");
    LetterCell("target");
  }

  lemma OtherNames()
    ensures CsvCell(Ascii("result")) == Ascii("result") && CsvCell(Ascii("runId")) == Ascii("runId")
    ensures CsvCell(Ascii("stepId")) == Ascii("stepId")
      && CsvCell(Ascii("metadataRedacted")) == Ascii("metadataRedacted")
    ensures CsvCell(Ascii("createdAt")) == Ascii("createdAt")
  {
    LetterCell("result");
    LetterCell("runId");
    LetterCell("stepId");
    LetterCell("metadataRedacted");
    LetterCell("createdAt");
  }

  lemma TenCells(a: Text, b: Text, c: Text, d: Text, e: Text, f: Text, g: Text, h: Text, i: Text, j: Text)
    requires CsvCell(a) == a && CsvCell(b) == b && CsvCell(c) == c && CsvCell(d) == d && CsvCell(e) == e
    requires CsvCell(f) == f && CsvCell(g) == g && CsvCell(h) == h && CsvCell(i) == i && CsvCell(j) == j
    ensures JoinCommas([a, b, c, d, e, f, g, h, i, j]) == CsvRow([a, b, c, d, e, f, g, h, i, j])
  {
    JoinIsRow([a, b, c, d, e, f, g, h, i, j]);
  }

  lemma HeaderIsRow()
    ensures JoinCommas(Header()) == CsvRow(Header())
  {
    FirstNames();
    OtherNames();
    TenCells(
      Ascii("id"), Ascii("eventId"), Ascii("actor"), Ascii("action"), Ascii("target"), Ascii("result"), Ascii("runId"),
      Ascii("stepId"), Ascii("metadataRedacted"), Ascii("createdAt"));
  }

  /** The export is invertible: the header, then the cells of every entry. */
  lemma AuditCsvRoundTrip(entries: seq<AuditEntry>)
    ensures ParseTable(ToAuditCsv(entries)) == Some([Header()] + Rows(entries))
  {
    var rows := [Header()] + Rows(entries);
    TableRoundTrip(rows);
    ExportIsTable(entries);
  }

  lemma ExportIsTable(entries: seq<AuditEntry>)
    ensures ToAuditCsv(entries) == CsvTable([Header()] + Rows(entries))
  {
    HeaderIsRow();
    HeaderFirst(Header(), Rows(entries));
  }

  lemma HeaderFirst(header: seq<Text>, rows: seq<seq<Text>>)
    ensures CsvTable([header] + rows) == if rows == [] then CsvRow(header) else CsvRow(header) + ([LF] + CsvTable(rows))
  {
    assert ([header] + rows)[1..] == rows;
  }

  /** The metadata cell and the event id cell read back to the values they were printed from. */
  lemma TypedCellsReadBack(e: AuditEntry)
    ensures Parse(Cells(e)[8]) == Some((e.metadata, []))
    ensures Parse(Cells(e)[1]) == Some((Num(e.eventId), []))
  {
    RoundTrip(e.metadata, []);
    NumRoundTrip(e.eventId, []);
    assert Plain(e.metadata) + [] == Plain(e.metadata) && IntText(e.eventId) + [] == IntText(e.eventId);
  }
}
