/**
  CSV text: the printer of the ad-performance and capture exports, the document
  parser of the marketing import and the line parser of the Meta import. The format
  is section 2 of RFC 4180; the document parser also takes a lone CR or LF as a line end.
 */
module Csv {

  const BOM: char := '\U{FEFF}'
  const CRLF: string := "\r\n"

  // ------------------------------------------------------------- printing

  predicate Special(c: char) {
    c == '"' || c == ',' || c == '\r' || c == '\n'
  }

  predicate Plain(s: string) {
    forall i :: 0 <= i < |s| ==> !Special(s[i])
  }

  /** value.replace(/"/g, '""') */
  function Doubled(s: string): string {
    if s == "" then "" else (if s[0] == '"' then "\"\"" else [s[0]]) + Doubled(s[1..])
  }

  function Quoted(s: string): string {
    "\"" + Doubled(s) + "\""
  }

  function Escape(s: string): string {
    if Plain(s) then s else Quoted(s)
  }

  function Escaped(cells: seq<string>): seq<string> {
    if cells == [] then [] else [Escape(cells[0])] + Escaped(cells[1..])
  }

  function Join(parts: seq<string>, sep: string): string {
    if parts == [] then ""
    else if |parts| == 1 then parts[0]
    else parts[0] + sep + Join(parts[1..], sep)
  }

  function PrintRow(cells: seq<string>): string {
    Join(Escaped(cells), ",")
  }

  function PrintRows(rows: seq<seq<string>>): seq<string> {
    if rows == [] then [] else [PrintRow(rows[0])] + PrintRows(rows[1..])
  }

  /** The body of an export; the exports use CRLF. */
  function PrintBody(rows: seq<seq<string>>, lineEnd: string): string {
    Join(PrintRows(rows), lineEnd)
  }

  function PrintCsv(rows: seq<seq<string>>): string {
    [BOM] + PrintBody(rows, CRLF)
  }

  // ------------------------------------------------------------- the document parser

  /** What is pushed after the last character. */
  function Rest(row: seq<string>, value: string): seq<seq<string>> {
    if |value| > 0 || |row| > 0 then [row + [value]] else []
  }

  /** The rows still to come, given the unread text and the parser's variables. */
  function Rows(s: string, row: seq<string>, value: string, inQuotes: bool): seq<seq<string>>
    decreases |s|
  {
    if s == "" then Rest(row, value)
    else if s[0] == '"' then
      if inQuotes && |s| > 1 && s[1] == '"' then Rows(s[2..], row, value + "\"", inQuotes)
      else Rows(s[1..], row, value, !inQuotes)
    else if s[0] == ',' && !inQuotes then Rows(s[1..], row + [value], "", inQuotes)
    else if (s[0] == '\n' || s[0] == '\r') && !inQuotes then
      [row + [value]] + Rows(if s[0] == '\r' && |s| > 1 && s[1] == '\n' then s[2..] else s[1..], [], "", inQuotes)
    else Rows(s[1..], row, value + [s[0]], inQuotes)
  }

  function WithoutBom(content: string): string {
    if content != "" && content[0] == BOM then content[1..] else content
  }

  function ParsedCsv(content: string): seq<seq<string>> {
    Rows(WithoutBom(content), [], "", false)
  }

  method ParseCsv(content: string) returns (rows: seq<seq<string>>)
    ensures rows == ParsedCsv(content)
  {
    rows := [];
    var currentRow: seq<string> := [];
    var currentValue := "";
    var inQuotes := false;
    var normalized := WithoutBom(content);
    var index := 0;
    while index < |normalized|
      invariant 0 <= index <= |normalized|
      invariant rows + Rows(normalized[index..], currentRow, currentValue, inQuotes) == ParsedCsv(content)
    {
      ghost var s := normalized[index..];
      var c := normalized[index];
      var next := if index + 1 < |normalized| then normalized[index + 1] else '\0';
      var hasNext := index + 1 < |normalized|;
      assert s[1..] == normalized[index + 1..];
      assert hasNext ==> s[1] == next && s[2..] == normalized[index + 2..];
      if c == '"' {
        if inQuotes && hasNext && next == '"' {
          currentValue := currentValue + "\"";
          index := index + 2;
        } else {
          inQuotes := !inQuotes;
          index := index + 1;
        }
      } else if c == ',' && !inQuotes {
        currentRow := currentRow + [currentValue];
        currentValue := "";
        index := index + 1;
      } else if (c == '\n' || c == '\r') && !inQuotes {
        if c == '\r' && hasNext && next == '\n' {
          index := index + 1;
        }
        currentRow := currentRow + [currentValue];
        rows := rows + [currentRow];
        currentRow := [];
        currentValue := "";
        index := index + 1;
      } else {
        currentValue := currentValue + [c];
        index := index + 1;
      }
    }
    if |currentValue| > 0 || |currentRow| > 0 {
      currentRow := currentRow + [currentValue];
      rows := rows + [currentRow];
    }
  }

  // ------------------------------------------------------------- the line parser

  /** The cells of a line, given the unread text and the parser's variables. */
  function Cells(s: string, done: seq<string>, current: string, inQuotes: bool): seq<string>
    decreases |s|
  {
    if s == "" then done + [current]
    else if s[0] == '"' then
      if inQuotes && |s| > 1 && s[1] == '"' then Cells(s[2..], done, current + "\"", inQuotes)
      else Cells(s[1..], done, current, !inQuotes)
    else if s[0] == ',' && !inQuotes then Cells(s[1..], done + [current], "", inQuotes)
    else Cells(s[1..], done, current + [s[0]], inQuotes)
  }

  function ParsedLine(line: string): seq<string> {
    Cells(line, [], "", false)
  }

  method ParseCsvLine(line: string) returns (result: seq<string>)
    ensures result == ParsedLine(line)
  {
    result := [];
    var current := "";
    var inQuotes := false;
    var i := 0;
    while i < |line|
      invariant 0 <= i <= |line|
      invariant Cells(line[i..], result, current, inQuotes) == ParsedLine(line)
    {
      ghost var s := line[i..];
      var c := line[i];
      assert s[1..] == line[i + 1..];
      assert i + 1 < |line| ==> s[1] == line[i + 1] && s[2..] == line[i + 2..];
      if c == '"' {
        if inQuotes && i + 1 < |line| && line[i + 1] == '"' {
          current := current + "\"";
          i := i + 1;
        } else {
          inQuotes := !inQuotes;
        }
      } else if c == ',' && !inQuotes {
        result := result + [current];
        current := "";
      } else {
        current := current + [c];
      }
      i := i + 1;
    }
    result := result + [current];
  }

  // ------------------------------------------------------------- the two parsers agree

  predicate OneLine(s: string) {
    forall i :: 0 <= i < |s| ==> s[i] != '\r' && s[i] != '\n'
  }

  lemma {:induction false} RowsOfOneLine(s: string, row: seq<string>, value: string, inQuotes: bool)
    requires OneLine(s)
    ensures var cells := Cells(s, row, value, inQuotes);
            Rows(s, row, value, inQuotes) == if cells == [""] then [] else [cells]
    decreases |s|
  {
    if s == "" {
      assert (row + [value])[|row|] == value;
    } else if s[0] == '"' {
      if inQuotes && |s| > 1 && s[1] == '"' {
        RowsOfOneLine(s[2..], row, value + "\"", inQuotes);
      } else {
        RowsOfOneLine(s[1..], row, value, !inQuotes);
      }
    } else if s[0] == ',' && !inQuotes {
      RowsOfOneLine(s[1..], row + [value], "", inQuotes);
    } else {
      RowsOfOneLine(s[1..], row, value + [s[0]], inQuotes);
    }
  }

  /** On a single line the document parser finds exactly the line parser's row, unless that row is one empty cell. */
  lemma ParsersAgree(line: string)
    requires OneLine(line) && !(line != "" && line[0] == BOM)
    ensures ParsedCsv(line) == if ParsedLine(line) == [""] then [] else [ParsedLine(line)]
  {
    RowsOfOneLine(line, [], "", false);
  }

  // ------------------------------------------------------------- reading back cells

  /** A cell's text as a whole: quoted, or bare when it needs no quotes. */
  predicate Renders(text: string, cell: string) {
    text == Quoted(cell) || (text == cell && Plain(cell))
  }

  predicate StopsCell(t: string) {
    t != "" ==> t[0] != '"'
  }

  lemma {:induction false} RowsReadQuoted(v: string, t: string, row: seq<string>, value: string)
    requires StopsCell(t)
    ensures Rows(Doubled(v) + "\"" + t, row, value, true) == Rows(t, row, value + v, false)
    decreases |v|
  {
    var s := Doubled(v) + "\"" + t;
    if v == "" {
      assert s[0] == '"' && s[1..] == t;
      assert value + v == value;
    } else {
      var s' := Doubled(v[1..]) + "\"" + t;
      RowsReadQuoted(v[1..], t, row, value + [v[0]]);
      assert value + [v[0]] + v[1..] == value + v;
      if v[0] == '"' {
        assert s == "\"\"" + s';
        assert s[2..] == s';
      } else {
        assert s == [v[0]] + s';
        assert s[1..] == s';
      }
    }
  }

  lemma {:induction false} RowsReadPlain(v: string, t: string, row: seq<string>, value: string)
    requires Plain(v)
    ensures Rows(v + t, row, value, false) == Rows(t, row, value + v, false)
    decreases |v|
  {
    if v == "" {
      assert v + t == t && value + v == value;
    } else {
      assert (v + t)[1..] == v[1..] + t;
      RowsReadPlain(v[1..], t, row, value + [v[0]]);
      assert value + [v[0]] + v[1..] == value + v;
    }
  }

  lemma RowsOpen(s: string, row: seq<string>)
    ensures Rows("\"" + s, row, "", false) == Rows(s, row, "", true)
  {
    assert ("\"" + s)[1..] == s;
  }

  lemma RowsComma(s: string, row: seq<string>, value: string)
    ensures Rows("," + s, row, value, false) == Rows(s, row + [value], "", false)
  {
    assert ("," + s)[1..] == s;
  }

  lemma RowsReadCell(v: string, t: string, row: seq<string>)
    requires StopsCell(t)
    ensures Rows(Escape(v) + t, row, "", false) == Rows(t, row, v, false)
  {
    assert "" + v == v;
    if Plain(v) {
      RowsReadPlain(v, t, row, "");
    } else {
      var s := Doubled(v) + "\"" + t;
      assert Escape(v) + t == "\"" + s;
      RowsOpen(s, row);
      RowsReadQuoted(v, t, row, "");
    }
  }

  lemma PrintRowSplits(cells: seq<string>)
    requires |cells| > 1
    ensures PrintRow(cells) == Escape(cells[0]) + "," + PrintRow(cells[1..])
  {
    assert |Escaped(cells[1..])| >= 1;
    assert Escaped(cells)[1..] == Escaped(cells[1..]);
  }

  lemma FrontShift(row: seq<string>, cells: seq<string>)
    requires |cells| > 1
    ensures row + [cells[0]] + cells[1..][..|cells[1..]| - 1] == row + cells[..|cells| - 1]
    ensures cells[1..][|cells[1..]| - 1] == cells[|cells| - 1]
  {
  }

  lemma Regroup(a: string, b: string, c: string, d: string)
    ensures a + b + c + d == a + (b + (c + d))
  {
  }

  lemma RowsReadFirstCell(cells: seq<string>, t: string, row: seq<string>)
    requires |cells| > 1
    ensures Rows(PrintRow(cells) + t, row, "", false) == Rows(PrintRow(cells[1..]) + t, row + [cells[0]], "", false)
  {
    var more := PrintRow(cells[1..]) + t;
    PrintRowSplits(cells);
    Regroup(Escape(cells[0]), ",", PrintRow(cells[1..]), t);
    RowsReadCell(cells[0], "," + more, row);
    RowsComma(more, row, cells[0]);
  }

  lemma {:induction false} RowsReadRow(cells: seq<string>, t: string, row: seq<string>)
    requires cells != [] && StopsCell(t)
    ensures Rows(PrintRow(cells) + t, row, "", false) == Rows(t, row + cells[..|cells| - 1], cells[|cells| - 1], false)
    decreases |cells|
  {
    if |cells| == 1 {
      assert Escaped(cells[1..]) == [];
      RowsReadCell(cells[0], t, row);
      assert row + cells[..0] == row;
    } else {
      RowsReadFirstCell(cells, t, row);
      RowsReadRow(cells[1..], t, row + [cells[0]]);
      FrontShift(row, cells);
    }
  }

  // ------------------------------------------------------------- reading back documents

  /**
    What is left of rows after printing: an empty row reads as one empty cell, and a last
    row of one empty cell is lost.
   */
  function Filled(row: seq<string>): seq<string> {
    if row == [] then [""] else row
  }

  function Readable(rows: seq<seq<string>>): seq<seq<string>> {
    if rows == [] then []
    else if |rows| == 1 then (if Filled(rows[0]) == [""] then [] else [rows[0]])
    else [Filled(rows[0])] + Readable(rows[1..])
  }

  predicate LineEnd(s: string) {
    s == CRLF || s == "\n" || s == "\r"
  }

  lemma PrintFilled(row: seq<string>)
    ensures PrintRow(row) == PrintRow(Filled(row))
  {
    if row == [] {
      assert Escaped([""][1..]) == [];
      assert Escaped([""]) == [Escape("")];
    }
  }

  lemma RowsReadLineEnd(lineEnd: string, t: string, row: seq<string>, value: string)
    requires LineEnd(lineEnd) && (t != "" ==> t[0] != '\n' || lineEnd != "\r")
    ensures Rows(lineEnd + t, row, value, false) == [row + [value]] + Rows(t, [], "", false)
  {
    var s := lineEnd + t;
    assert s[|lineEnd|..] == t;
    assert s[0] == lineEnd[0];
    if lineEnd == CRLF {
      assert s[1] == '\n';
    } else if |s| > 1 {
      assert s[1] == t[0];
    }
  }

  lemma PrintRowStart(row: seq<string>)
    ensures PrintRow(row) != "" ==> PrintRow(row)[0] != '\n' && PrintRow(row)[0] != '\r'
  {
    if row != [] {
      assert Escaped(row)[0] == Escape(row[0]);
      assert Escape(row[0]) != "" ==> Escape(row[0])[0] != '\n' && Escape(row[0])[0] != '\r';
    }
  }

  lemma {:induction false} PrintBodyStart(rows: seq<seq<string>>, lineEnd: string)
    requires lineEnd == "\r"
    ensures PrintBody(rows, lineEnd) != "" ==> PrintBody(rows, lineEnd)[0] != '\n'
  {
    if rows != [] {
      PrintRowStart(rows[0]);
      assert PrintRows(rows)[0] == PrintRow(rows[0]);
    }
  }

  lemma FrontAndLast(cells: seq<string>)
    requires cells != []
    ensures [] + cells[..|cells| - 1] + [cells[|cells| - 1]] == cells
  {
  }

  lemma RowsReadLast(row: seq<string>)
    ensures Rows(PrintRow(row), [], "", false) == if Filled(row) == [""] then [] else [row]
  {
    var cells := Filled(row);
    PrintFilled(row);
    RowsReadRow(cells, "", []);
    assert PrintRow(cells) + "" == PrintRow(cells);
    FrontAndLast(cells);
  }

  lemma RowsReadFirst(row: seq<string>, lineEnd: string, body: string)
    requires LineEnd(lineEnd) && (body != "" ==> body[0] != '\n' || lineEnd != "\r")
    ensures Rows(PrintRow(row) + (lineEnd + body), [], "", false) == [Filled(row)] + Rows(body, [], "", false)
  {
    var cells := Filled(row);
    PrintFilled(row);
    RowsReadRow(cells, lineEnd + body, []);
    RowsReadLineEnd(lineEnd, body, [] + cells[..|cells| - 1], cells[|cells| - 1]);
    FrontAndLast(cells);
  }

  lemma {:induction false} RowsReadBody(rows: seq<seq<string>>, lineEnd: string)
    requires LineEnd(lineEnd)
    ensures Rows(PrintBody(rows, lineEnd), [], "", false) == Readable(rows)
    decreases |rows|
  {
    if |rows| == 1 {
      assert PrintRows(rows[1..]) == [];
      RowsReadLast(rows[0]);
    } else if |rows| > 1 {
      RowsReadBody(rows[1..], lineEnd);
      if lineEnd == "\r" { PrintBodyStart(rows[1..], lineEnd); }
      var body := PrintBody(rows[1..], lineEnd);
      RowsReadFirst(rows[0], lineEnd, body);
      assert PrintRow(rows[0]) + lineEnd + body == PrintRow(rows[0]) + (lineEnd + body);
      assert |PrintRows(rows[1..])| >= 1;
      assert PrintRows(rows)[1..] == PrintRows(rows[1..]);
    }
  }

  /** Parsing what was printed, for all rows of arbitrary strings. */
  lemma ParsedPrint(rows: seq<seq<string>>)
    ensures ParsedCsv(PrintCsv(rows)) == Readable(rows)
  {
    assert WithoutBom(PrintCsv(rows)) == PrintBody(rows, CRLF);
    RowsReadBody(rows, CRLF);
  }

  lemma {:induction false} ReadableIsIdentity(rows: seq<seq<string>>)
    ensures |Readable(rows)| <= |rows|
    ensures Readable(rows) == rows <==>
            (forall i :: 0 <= i < |rows| ==> rows[i] != []) && (rows != [] ==> rows[|rows| - 1] != [""])
  {
    if |rows| > 1 {
      ReadableIsIdentity(rows[1..]);
      var r := [Filled(rows[0])] + Readable(rows[1..]);
      assert rows == [rows[0]] + rows[1..];
      if r == rows {
        assert r[0] == rows[0] && r[1..] == rows[1..];
        assert Readable(rows[1..]) == rows[1..];
        assert forall i :: 1 <= i < |rows| ==> rows[i] == rows[1..][i - 1];
      } else if forall i :: 0 <= i < |rows| ==> rows[i] != [] {
        assert Readable(rows[1..]) != rows[1..];
        assert forall i :: 0 <= i < |rows[1..]| ==> rows[1..][i] == rows[i + 1];
      }
    }
  }

  /** The parser undoes the printer exactly when no row is empty and the last one is not a single empty cell. */
  lemma RoundTrip(rows: seq<seq<string>>)
    ensures ParsedCsv(PrintCsv(rows)) == rows <==>
            (forall i :: 0 <= i < |rows| ==> rows[i] != []) && (rows != [] ==> rows[|rows| - 1] != [""])
  {
    ParsedPrint(rows);
    ReadableIsIdentity(rows);
  }

  // ------------------------------------------------------------- reading back lines

  lemma {:induction false} CellsReadQuoted(v: string, t: string, done: seq<string>, current: string)
    requires StopsCell(t)
    ensures Cells(Doubled(v) + "\"" + t, done, current, true) == Cells(t, done, current + v, false)
    decreases |v|
  {
    var s := Doubled(v) + "\"" + t;
    if v == "" {
      assert s[0] == '"' && s[1..] == t;
      assert current + v == current;
    } else {
      var s' := Doubled(v[1..]) + "\"" + t;
      CellsReadQuoted(v[1..], t, done, current + [v[0]]);
      assert current + [v[0]] + v[1..] == current + v;
      if v[0] == '"' {
        assert s == "\"\"" + s';
        assert s[2..] == s';
      } else {
        assert s == [v[0]] + s';
        assert s[1..] == s';
      }
    }
  }

  lemma {:induction false} CellsReadPlain(v: string, t: string, done: seq<string>, current: string)
    requires Plain(v)
    ensures Cells(v + t, done, current, false) == Cells(t, done, current + v, false)
    decreases |v|
  {
    if v == "" {
      assert v + t == t && current + v == current;
    } else {
      assert (v + t)[1..] == v[1..] + t;
      CellsReadPlain(v[1..], t, done, current + [v[0]]);
      assert current + [v[0]] + v[1..] == current + v;
    }
  }

  lemma CellsOpen(s: string, done: seq<string>)
    ensures Cells("\"" + s, done, "", false) == Cells(s, done, "", true)
  {
    assert ("\"" + s)[1..] == s;
  }

  lemma CellsComma(s: string, done: seq<string>, current: string)
    ensures Cells("," + s, done, current, false) == Cells(s, done + [current], "", false)
  {
    assert ("," + s)[1..] == s;
  }

  lemma CellsReadCell(text: string, v: string, t: string, done: seq<string>)
    requires StopsCell(t) && Renders(text, v)
    ensures Cells(text + t, done, "", false) == Cells(t, done, v, false)
  {
    assert "" + v == v;
    if text == Quoted(v) {
      var s := Doubled(v) + "\"" + t;
      assert text + t == "\"" + s;
      CellsOpen(s, done);
      CellsReadQuoted(v, t, done, "");
    } else {
      CellsReadPlain(v, t, done, "");
    }
  }

  lemma {:induction false} CellsReadLine(texts: seq<string>, cells: seq<string>, done: seq<string>)
    requires |texts| == |cells| > 0
    requires forall i :: 0 <= i < |cells| ==> Renders(texts[i], cells[i])
    ensures Cells(Join(texts, ","), done, "", false) == done + cells
    decreases |cells|
  {
    if |cells| == 1 {
      assert texts[0] + "" == texts[0];
      CellsReadCell(texts[0], cells[0], "", done);
      assert done + cells == done + [cells[0]];
    } else {
      var more := Join(texts[1..], ",");
      assert Join(texts, ",") == texts[0] + ("," + more);
      CellsReadCell(texts[0], cells[0], "," + more, done);
      CellsComma(more, done, cells[0]);
      CellsReadLine(texts[1..], cells[1..], done + [cells[0]]);
      assert done + [cells[0]] + cells[1..] == done + cells;
    }
  }

  /**
    The line parser undoes a line of cells joined by commas, each cell quoted or, if
    it holds no quote, comma or line end, left bare; quoted cells may hold anything.
   */
  lemma LineRoundTrip(texts: seq<string>, cells: seq<string>)
    requires |texts| == |cells| > 0
    requires forall i :: 0 <= i < |cells| ==> Renders(texts[i], cells[i])
    ensures ParsedLine(Join(texts, ",")) == cells
  {
    CellsReadLine(texts, cells, []);
    assert [] + cells == cells;
  }
}
