/** The CSV writer, and a reader of section 2 of RFC 4180 that undoes it. */
module Csv {
  import opened Prelude

  const QUOTE := '\"'
  const CRLF := "\r\n"
  const BOM := '\U{FEFF}'

  /** A field as given: null or undefined, or what `String(field)` makes of it. */
  datatype Cell = Missing | Text(text: string)

  // ---------------------------------------------------------------- the writer

  predicate NeedsQuotes(s: string) {
    ',' in s || QUOTE in s || '\n' in s || '\r' in s
  }

  function Doubled(s: string): string {
    if s == "" then "" else (if s[0] == QUOTE then [QUOTE, QUOTE] else [s[0]]) + Doubled(s[1..])
  }

  function EscapeCsvField(field: Cell): string {
    match field
    case Missing => ""
    case Text(s) => if NeedsQuotes(s) then [QUOTE] + Doubled(s) + [QUOTE] else s
  }

  function Join(parts: seq<string>, separator: string): string {
    if parts == [] then "" else if |parts| == 1 then parts[0] else parts[0] + separator + Join(parts[1..], separator)
  }

  function Fields(row: seq<Cell>): (fields: seq<string>)
    ensures |fields| == |row|
  {
    if row == [] then [] else [EscapeCsvField(row[0])] + Fields(row[1..])
  }

  function Lines(rows: seq<seq<Cell>>): (lines: seq<string>)
    ensures |lines| == |rows|
  {
    if rows == [] then [] else [Join(Fields(rows[0]), ",")] + Lines(rows[1..])
  }

  /** The document before it is encoded as UTF-8. */
  function BuildCsv(rows: seq<seq<Cell>>): string {
    [BOM] + Join(Lines(rows), CRLF)
  }

  // ---------------------------------------------------------------- the reader

  /** Where a reader of section 2 of RFC 4180 stands: at the start of a field, inside an unquoted or a
      quoted one, after a quote that either closes the field or is half of a doubled one, after a CR. */
  datatype State = Start | Bare | Quoted | Quote | Return

  datatype Reader = Reader(state: State, rows: seq<seq<string>>, row: seq<string>, field: string) | Malformed

  function EndField(r: Reader): Reader
    requires r.Reader?
  {
    Reader(Start, r.rows, r.row + [r.field], "")
  }

  function EndRow(r: Reader): Reader
    requires r.Reader?
  {
    Reader(Start, r.rows + [r.row + [r.field]], [], "")
  }

  function Step(r: Reader, c: char): Reader {
    if r.Malformed? then Malformed
    else
      match r.state
      case Quoted => if c == '\"' then r.(state := Quote) else r.(field := r.field + [c])
      case Return => if c == '\n' then EndRow(r) else Malformed
      case Quote =>
        if c == '\"' then r.(state := Quoted, field := r.field + [c])
        else if c == ',' then EndField(r)
        else if c == '\r' then r.(state := Return)
        else Malformed
      case _ =>
        if c == '\"' then (if r.state == Start then r.(state := Quoted) else Malformed)
        else if c == ',' then EndField(r)
        else if c == '\r' then r.(state := Return)
        else if c == '\n' then Malformed
        else r.(state := Bare, field := r.field + [c])
  }

  function Feed(r: Reader, s: string): Reader
    decreases |s|
  {
    if s == "" then r else Feed(Step(r, s[0]), s[1..])
  }

  /** Every line break separates two records. */
  function Finish(r: Reader): Option<seq<seq<string>>> {
    if r.Malformed? || r.state in {Quoted, Return} then None else Some(r.rows + [r.row + [r.field]])
  }

  /** The same, but a line break at the very end only ends the last record (rule 2 of the section). */
  function FinishOptional(r: Reader): Option<seq<seq<string>>> {
    if r.Reader? && r.state == Start && r.row == [] && r.rows != [] then Some(r.rows) else Finish(r)
  }

  const BEGIN := Reader(Start, [], [], "")

  function Parse(s: string): Option<seq<seq<string>>> {
    Finish(Feed(BEGIN, s))
  }

  function ParseOptional(s: string): Option<seq<seq<string>>> {
    FinishOptional(Feed(BEGIN, s))
  }

  // ---------------------------------------------------------------- what is read back

  function Plain(cell: Cell): string {
    if cell.Text? then cell.text else ""
  }

  function Plains(row: seq<Cell>): (r: seq<string>)
    ensures |r| == |row|
  {
    if row == [] then [] else [Plain(row[0])] + Plains(row[1..])
  }

  /** A row without fields cannot be written: it reads back as one empty field. */
  function NormalRow(row: seq<Cell>): (r: seq<string>)
    ensures r != []
  {
    if row == [] then [""] else Plains(row)
  }

  function NormalRows(rows: seq<seq<Cell>>): (r: seq<seq<string>>)
    ensures |r| == |rows|
  {
    if rows == [] then [] else [NormalRow(rows[0])] + NormalRows(rows[1..])
  }

  function Normal(rows: seq<seq<Cell>>): (r: seq<seq<string>>)
    ensures r != []
  {
    if rows == [] then [[""]] else NormalRows(rows)
  }

  lemma {:induction false} FeedConcat(r: Reader, s: string, t: string)
    ensures Feed(r, s + t) == Feed(Feed(r, s), t)
    decreases |s|
  {
    if s == "" {
      assert s + t == t;
    } else {
      assert (s + t)[0] == s[0] && (s + t)[1..] == s[1..] + t;
      FeedConcat(Step(r, s[0]), s[1..], t);
    }
  }

  lemma FeedOne(r: Reader, c: char)
    ensures Feed(r, [c]) == Step(r, c)
  {
    assert [c][1..] == "";
  }

  lemma {:induction false} FeedBare(r: Reader, s: string)
    requires r.Reader? && r.state in {Start, Bare} && !NeedsQuotes(s)
    ensures Feed(r, s) == r.(state := if s == "" then r.state else Bare, field := r.field + s)
    decreases |s|
  {
    if s == "" {
      assert r.field + s == r.field;
    } else {
      assert s[0] in s;
      assert forall c :: c in s[1..] ==> c in s;
      FeedBare(Step(r, s[0]), s[1..]);
      assert r.field + [s[0]] + s[1..] == r.field + s;
    }
  }

  lemma FeedPair(r: Reader)
    requires r.Reader? && r.state == Quoted
    ensures Feed(r, [QUOTE, QUOTE]) == r.(field := r.field + [QUOTE])
  {
    FeedConcat(r, [QUOTE], [QUOTE]);
    FeedOne(r, QUOTE);
    FeedOne(Step(r, QUOTE), QUOTE);
    assert [QUOTE, QUOTE] == [QUOTE] + [QUOTE];
  }

  lemma {:induction false} FeedDoubled(r: Reader, s: string)
    requires r.Reader? && r.state == Quoted
    ensures Feed(r, Doubled(s)) == r.(field := r.field + s)
    decreases |s|
  {
    if s == "" {
      assert r.field + s == r.field;
    } else {
      var head := if s[0] == QUOTE then [QUOTE, QUOTE] else [s[0]];
      FeedConcat(r, head, Doubled(s[1..]));
      if s[0] == QUOTE {
        FeedPair(r);
      } else {
        FeedOne(r, s[0]);
      }
      FeedDoubled(r.(field := r.field + [s[0]]), s[1..]);
      assert r.field + [s[0]] + s[1..] == r.field + s;
    }
  }

  /** The reader's state after a written field: at its start exactly if nothing was written. */
  function Ended(cell: Cell): State {
    if EscapeCsvField(cell) == "" then Start else if NeedsQuotes(Plain(cell)) then Quote else Bare
  }

  lemma FeedField(r: Reader, cell: Cell)
    requires r.Reader? && r.state == Start && r.field == ""
    ensures Feed(r, EscapeCsvField(cell)) == r.(state := Ended(cell), field := Plain(cell))
  {
    var s := Plain(cell);
    if NeedsQuotes(s) {
      var quoted := r.(state := Quoted);
      assert [QUOTE] + Doubled(s) + [QUOTE] == [QUOTE] + (Doubled(s) + [QUOTE]);
      FeedConcat(r, [QUOTE], Doubled(s) + [QUOTE]);
      FeedOne(r, QUOTE);
      FeedConcat(quoted, Doubled(s), [QUOTE]);
      FeedDoubled(quoted, s);
      assert r.field + s == s;
      FeedOne(quoted.(field := s), QUOTE);
    } else {
      FeedBare(r, s);
      assert r.field + s == s;
    }
  }

  /** The reader after a written row: everything but the last field is in the row. */
  function AfterRow(r: Reader, row: seq<Cell>): Reader
    requires r.Reader?
    decreases |row|
  {
    if row == [] then r
    else if |row| == 1 then r.(state := Ended(row[0]), field := Plain(row[0]))
    else AfterRow(r.(row := r.row + [Plain(row[0])]), row[1..])
  }

  lemma {:induction false} FeedRow(r: Reader, row: seq<Cell>)
    requires r.Reader? && r.state == Start && r.field == ""
    ensures Feed(r, Join(Fields(row), ",")) == AfterRow(r, row)
    decreases |row|
  {
    if |row| == 1 {
      FeedField(r, row[0]);
    } else if |row| > 1 {
      var (first, rest) := (EscapeCsvField(row[0]), Join(Fields(row[1..]), ","));
      assert Fields(row)[1..] == Fields(row[1..]);
      assert first + "," + rest == first + ("," + rest);
      FeedConcat(r, first, "," + rest);
      FeedField(r, row[0]);
      var ended := r.(state := Ended(row[0]), field := Plain(row[0]));
      FeedConcat(ended, ",", rest);
      FeedOne(ended, ',');
      FeedRow(EndField(ended), row[1..]);
    }
  }

  lemma {:induction false} RowIsRead(r: Reader, row: seq<Cell>)
    requires r.Reader? && r.state == Start && r.field == ""
    ensures var a := AfterRow(r, row);
      a.Reader? && a.state in {Start, Bare, Quote} && a.rows == r.rows && a.row + [a.field] == r.row + NormalRow(row)
      && (a.state == Start <==> a.field == "")
    decreases |row|
  {
    if |row| > 1 {
      var next := r.(row := r.row + [Plain(row[0])]);
      RowIsRead(next, row[1..]);
      assert r.row + [Plain(row[0])] + Plains(row[1..]) == r.row + Plains(row);
    }
  }

  lemma FeedBreak(r: Reader)
    requires r.Reader? && r.state in {Start, Bare, Quote}
    ensures Feed(r, CRLF) == EndRow(r)
  {
    FeedConcat(r, "\r", "\n");
    FeedOne(r, '\r');
    FeedOne(r.(state := Return), '\n');
    assert CRLF == "\r" + "\n";
  }

  /** The reader after all rows: the last row is still open. */
  function AfterRows(r: Reader, rows: seq<seq<Cell>>): Reader
    requires r.Reader?
    decreases |rows|
  {
    if rows == [] then r
    else if |rows| == 1 then AfterRow(r, rows[0])
    else AfterRows(Reader(Start, r.rows + [NormalRow(rows[0])], [], ""), rows[1..])
  }

  lemma {:induction false} FeedRows(r: Reader, rows: seq<seq<Cell>>)
    requires r.Reader? && r.state == Start && r.field == "" && r.row == []
    ensures Feed(r, Join(Lines(rows), CRLF)) == AfterRows(r, rows)
    decreases |rows|
  {
    if |rows| == 1 {
      FeedRow(r, rows[0]);
    } else if |rows| > 1 {
      var (line, rest) := (Join(Fields(rows[0]), ","), Join(Lines(rows[1..]), CRLF));
      assert Lines(rows)[1..] == Lines(rows[1..]);
      assert line + CRLF + rest == line + (CRLF + rest);
      FeedConcat(r, line, CRLF + rest);
      FeedRow(r, rows[0]);
      RowIsRead(r, rows[0]);
      var a := AfterRow(r, rows[0]);
      FeedConcat(a, CRLF, rest);
      FeedBreak(a);
      assert r.row + NormalRow(rows[0]) == NormalRow(rows[0]);
      FeedRows(EndRow(a), rows[1..]);
    }
  }

  lemma {:induction false} RowsAreRead(r: Reader, rows: seq<seq<Cell>>)
    requires r.Reader? && r.state == Start && r.field == "" && r.row == [] && rows != []
    ensures Finish(AfterRows(r, rows)) == Some(r.rows + NormalRows(rows))
    decreases |rows|
  {
    if |rows| == 1 {
      RowIsRead(r, rows[0]);
      assert r.row + NormalRow(rows[0]) == NormalRow(rows[0]);
      assert NormalRows(rows) == [NormalRow(rows[0])];
    } else {
      RowsAreRead(Reader(Start, r.rows + [NormalRow(rows[0])], [], ""), rows[1..]);
      assert r.rows + [NormalRow(rows[0])] + NormalRows(rows[1..]) == r.rows + NormalRows(rows);
    }
  }

  /** Reading what was written gives the rows back for every table: every comma, quote, CR and LF inside
      a field included, with missing cells as empty fields and empty rows as one empty field. */
  lemma ParseUndoesBuild(rows: seq<seq<Cell>>)
    ensures BuildCsv(rows)[0] == '\U{FEFF}' && Parse(BuildCsv(rows)[1..]) == Some(Normal(rows))
  {
    assert BuildCsv(rows)[1..] == Join(Lines(rows), CRLF);
    FeedRows(BEGIN, rows);
    if rows != [] {
      RowsAreRead(BEGIN, rows);
      assert [] + NormalRows(rows) == NormalRows(rows);
    } else {
      assert Feed(BEGIN, "") == BEGIN && Join(Lines(rows), CRLF) == "";
      assert BEGIN.row + [BEGIN.field] == [""];
      assert BEGIN.rows + [[""]] == [[""]];
    }
  }

  /** The table comes back cell by cell exactly when it has a row and no row is empty. */
  lemma {:induction false} RoundTripIff(rows: seq<seq<Cell>>)
    ensures Parse(BuildCsv(rows)[1..]) == Some(PlainRows(rows)) <==>
      rows != [] && forall i :: 0 <= i < |rows| ==> rows[i] != []
  {
    ParseUndoesBuild(rows);
    if rows != [] {
      NormalIsPlainIff(rows);
    }
  }

  function PlainRows(rows: seq<seq<Cell>>): (r: seq<seq<string>>)
    ensures |r| == |rows|
  {
    if rows == [] then [] else [Plains(rows[0])] + PlainRows(rows[1..])
  }

  lemma {:induction false} NormalIsPlainIff(rows: seq<seq<Cell>>)
    ensures NormalRows(rows) == PlainRows(rows) <==> forall i :: 0 <= i < |rows| ==> rows[i] != []
  {
    if rows != [] {
      NormalIsPlainIff(rows[1..]);
      assert NormalRows(rows)[0] == NormalRow(rows[0]) && PlainRows(rows)[0] == Plains(rows[0]);
      assert NormalRows(rows)[1..] == NormalRows(rows[1..]) && PlainRows(rows)[1..] == PlainRows(rows[1..]);
      if NormalRows(rows) == PlainRows(rows) {
        forall i | 0 <= i < |rows| ensures rows[i] != [] {
          if i > 0 {
            assert rows[i] == rows[1..][i - 1];
          }
        }
      } else {
        assert rows[0] != [] ==> NormalRows(rows[1..]) != PlainRows(rows[1..]);
      }
    }
  }

  // ---------------------------------------------------------------- which tables give one document

  function Cells(row: seq<string>): (r: seq<Cell>)
    ensures |r| == |row|
  {
    if row == [] then [] else [Text(row[0])] + Cells(row[1..])
  }

  function Table(rows: seq<seq<string>>): (r: seq<seq<Cell>>)
    ensures |r| == |rows|
  {
    if rows == [] then [] else [Cells(rows[0])] + Table(rows[1..])
  }

  lemma {:induction false} PlainsWriteAlike(row: seq<Cell>)
    ensures Fields(Cells(Plains(row))) == Fields(row)
  {
    if row != [] {
      PlainsWriteAlike(row[1..]);
      assert Plains(row)[1..] == Plains(row[1..]);
      assert Cells(Plains(row))[1..] == Cells(Plains(row[1..]));
    }
  }

  lemma {:induction false} NormalRowsWriteAlike(rows: seq<seq<Cell>>)
    ensures Lines(Table(NormalRows(rows))) == Lines(rows)
  {
    if rows != [] {
      NormalRowsWriteAlike(rows[1..]);
      assert NormalRows(rows)[1..] == NormalRows(rows[1..]);
      assert Table(NormalRows(rows))[1..] == Table(NormalRows(rows[1..]));
      assert Join(Fields(Cells(NormalRow(rows[0]))), ",") == Join(Fields(rows[0]), ",") by {
        if rows[0] == [] {
          assert Cells([""])[1..] == [];
        } else {
          PlainsWriteAlike(rows[0]);
        }
      }
    }
  }

  lemma NormalWritesAlike(rows: seq<seq<Cell>>)
    ensures BuildCsv(Table(Normal(rows))) == BuildCsv(rows)
  {
    if rows == [] {
      assert Cells([""]) == [Text("")] by { assert [""][1..] == []; }
      assert Table([[""]]) == [[Text("")]] by { assert [[""]][1..] == []; }
      var row := [Text("")];
      assert Fields(row) == [""] by { assert row[1..] == []; }
      var table := [row];
      assert Lines(table) == [""] by { assert table[1..] == []; }
    } else {
      NormalRowsWriteAlike(rows);
    }
  }

  /** Two tables give the same document exactly when they differ only in null against empty cells and
      in empty rows against rows of one empty cell. */
  lemma BuildIsInjectiveUpToNormal(a: seq<seq<Cell>>, b: seq<seq<Cell>>)
    ensures BuildCsv(a) == BuildCsv(b) <==> Normal(a) == Normal(b)
  {
    ParseUndoesBuild(a);
    ParseUndoesBuild(b);
    if Normal(a) == Normal(b) {
      NormalWritesAlike(a);
      NormalWritesAlike(b);
    }
  }

  // ---------------------------------------------------------------- the optional last line break

  lemma {:induction false} LastRowIsOpen(r: Reader, rows: seq<seq<Cell>>)
    requires r.Reader? && r.state == Start && r.field == "" && r.row == [] && rows != []
    ensures var a := AfterRows(r, rows);
      && a.Reader? && |a.rows| == |r.rows| + |rows| - 1
      && (a.state == Start && a.row == [] <==> NormalRow(rows[|rows| - 1]) == [""])
    decreases |rows|
  {
    if |rows| == 1 {
      RowIsRead(r, rows[0]);
      var a := AfterRow(r, rows[0]);
      assert r.row + NormalRow(rows[0]) == NormalRow(rows[0]);
      assert a.row + [a.field] == [""] <==> a.row == [] && a.field == "" by {
        if a.row + [a.field] == [""] {
          assert |a.row| == 0;
          assert (a.row + [a.field])[0] == a.field;
        }
      }
    } else {
      LastRowIsOpen(Reader(Start, r.rows + [NormalRow(rows[0])], [], ""), rows[1..]);
    }
  }

  /** A reader that lets a line break end the last record reads the table back exactly unless the table
      has two rows or more and the last is empty, one null or one empty text: that row is lost. */
  lemma OptionalBreakRoundTripIff(rows: seq<seq<Cell>>)
    ensures ParseOptional(BuildCsv(rows)[1..]) == Some(Normal(rows))
      <==> |rows| < 2 || NormalRow(rows[|rows| - 1]) != [""]
  {
    ParseUndoesBuild(rows);
    assert BuildCsv(rows)[1..] == Join(Lines(rows), CRLF);
    FeedRows(BEGIN, rows);
    if rows != [] {
      LastRowIsOpen(BEGIN, rows);
    }
  }

  // ---------------------------------------------------------------- quotes only where needed

  lemma {:induction false} FieldGrows(r: Reader, s: string)
    ensures Feed(r, s).Reader? ==> r.Reader? && |Feed(r, s).field| <= |r.field| + |s|
    decreases |s|
  {
    if s != "" {
      FieldGrows(Step(r, s[0]), s[1..]);
    }
  }

  /** Outside quotes a comma, quote, CR or LF is never part of the field. */
  lemma {:induction false} SpecialIsNotContent(r: Reader, s: string)
    requires r.Reader? && r.state in {Start, Bare} && NeedsQuotes(s)
    ensures Feed(r, s).Reader? ==> |Feed(r, s).field| < |r.field| + |s|
    decreases |s|
  {
    FieldGrows(Step(r, s[0]), s[1..]);
    if s[0] !in {',', QUOTE, '\n', '\r'} {
      assert s == [s[0]] + s[1..];
      SpecialIsNotContent(Step(r, s[0]), s[1..]);
    }
  }

  lemma OnlyFieldIsOpen(r: Reader, s: string)
    ensures Finish(r) == Some([[s]]) ==> r.Reader? && r.field == s
  {
    if Finish(r) == Some([[s]]) {
      assert (r.rows + [r.row + [r.field]])[0] == r.row + [r.field] == [s];
      assert (r.row + [r.field])[0] == r.field;
    }
  }

  /** A text is written without quotes exactly when it would be read back as itself without them. */
  lemma QuotesExactlyWhenNeeded(s: string)
    ensures EscapeCsvField(Text(s)) == s <==> Parse(s) == Some([[s]])
  {
    if NeedsQuotes(s) {
      DoubledIsLonger(s);
      SpecialIsNotContent(BEGIN, s);
      OnlyFieldIsOpen(Feed(BEGIN, s), s);
    } else {
      FeedBare(BEGIN, s);
      assert BEGIN.field + s == s;
      assert BEGIN.row + [s] == [s];
      assert BEGIN.rows + [[s]] == [[s]];
    }
  }

  lemma {:induction false} DoubledIsLonger(s: string)
    ensures |Doubled(s)| >= |s|
  {
    if s != "" {
      DoubledIsLonger(s[1..]);
    }
  }
}
