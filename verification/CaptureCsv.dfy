/**
  The capture export as CSV text: streamed batch by batch under question headers
  queried beforehand, and built in memory from one query under those it collects.
 */
module CaptureCsv {
  import opened Options
  import opened Keyset
  import opened Csv
  import opened QuestionHeaders
  import opened QuizExport

  function Ids(rows: seq<Capture>): (ids: seq<int>)
    ensures |ids| == |rows|
    ensures forall i :: 0 <= i < |rows| ==> ids[i] == rows[i].key.id
  {
    seq(|rows|, i requires 0 <= i < |rows| => rows[i].key.id)
  }

  /** The persons of the rows that have one. */
  function PersonIds(rows: seq<Capture>): (ids: seq<int>)
    ensures forall i :: 0 <= i < |rows| && rows[i].data.personId.Some? ==> rows[i].data.personId.value in ids
  {
    if rows == [] then []
    else
      var front := PersonIds(rows[..|rows| - 1]);
      var person := rows[|rows| - 1].data.personId;
      if person.Some? then front + [person.value] else front
  }

  function QuestionCells(headers: seq<string>, answers: AnswerMap): seq<string> {
    if headers == [] then []
    else [if headers[0] in answers then answers[headers[0]] else ""] + QuestionCells(headers[1..], answers)
  }

  /** The cells of a row, given its quiz detail, its answers by label and its person's contacts. */
  function RowText(data: CaptureData, headers: seq<string>, detail: Option<Detail>, answers: AnswerMap,
                   person: Person): seq<string>
  {
    data.before
    + [if detail.Some? || data.hasForm then "Sim" else "Não",
       if detail.Some? then detail.value.scoreTotal.GetOr("") else "",
       if detail.Some? then detail.value.tier.GetOr("") else "",
       data.name,
       data.email.GetOr(person.email.GetOr("")),
       data.phone.GetOr(person.phone.GetOr(""))]
    + data.after
    + QuestionCells(headers, answers)
  }

  const NOBODY := Person(None, None)

  function DetailIn(quiz: Resolved, id: int): Option<Detail> {
    if id in quiz.details then Some(quiz.details[id]) else None
  }

  function AnswersIn(quiz: Resolved, id: int): AnswerMap {
    if id in quiz.answers then quiz.answers[id] else map[]
  }

  function PersonIn(persons: map<int, Person>, person: Option<int>): Person {
    if person.Some? && person.value in persons then persons[person.value] else NOBODY
  }

  /** The cells of a row looked up in the maps resolved for its batch. */
  function RowCells(row: Capture, headers: seq<string>, quiz: Resolved, persons: map<int, Person>): seq<string> {
    RowText(row.data, headers, DetailIn(quiz, row.key.id), AnswersIn(quiz, row.key.id),
            PersonIn(persons, row.data.personId))
  }

  function DetailFor(db: Db, id: int): Option<Detail> {
    var latest := LatestResponse(db.responses, id);
    if latest.Some? then Some(DetailOf(db, latest.value)) else None
  }

  function AnswersFor(db: Db, id: int): AnswerMap {
    var latest := LatestResponse(db.responses, id);
    if latest.Some? then Labelled(OfResponse(db.answers, latest.value)) else map[]
  }

  function PersonFor(db: Db, person: Option<int>): Person {
    if person.Some? then PersonFrom(OfPerson(db.contacts, person.value)) else NOBODY
  }

  /** The cells of a row from the tables directly. */
  function CellsOf(db: Db, headers: seq<string>, row: Capture): seq<string> {
    RowText(row.data, headers, DetailFor(db, row.key.id), AnswersFor(db, row.key.id), PersonFor(db, row.data.personId))
  }

  lemma QuizLookup(db: Db, ids: seq<int>, quiz: Resolved, id: int)
    requires ResolvedFor(db, ids, quiz) && id in ids
    ensures DetailIn(quiz, id) == DetailFor(db, id) && AnswersIn(quiz, id) == AnswersFor(db, id)
  {
    assert CaptureOk(db, id in ids, quiz.details, quiz.answers, id);
  }

  lemma PersonLookup(db: Db, ids: seq<int>, persons: map<int, Person>, person: Option<int>)
    requires PersonsFor(db, ids, persons) && (person.Some? ==> person.value in ids)
    ensures PersonIn(persons, person) == PersonFor(db, person)
  {
    if person.Some? {
      assert PersonOk(db, person.value in ids, persons, person.value);
    }
  }

  /** What a batch resolves for one of its rows is what the tables say about that row. */
  lemma BatchCells(db: Db, rows: seq<Capture>, headers: seq<string>, quiz: Resolved, persons: map<int, Person>, i: nat)
    requires i < |rows|
    requires ResolvedFor(db, Ids(rows), quiz) && PersonsFor(db, PersonIds(rows), persons)
    ensures RowCells(rows[i], headers, quiz, persons) == CellsOf(db, headers, rows[i])
  {
    assert Ids(rows)[i] == rows[i].key.id;
    QuizLookup(db, Ids(rows), quiz, rows[i].key.id);
    PersonLookup(db, PersonIds(rows), persons, rows[i].data.personId);
  }

  /** One text for each row. */
  function Each(rows: seq<Capture>, f: Capture -> string): seq<string> {
    if rows == [] then [] else [f(rows[0])] + Each(rows[1..], f)
  }

  lemma {:induction false} EachAt(rows: seq<Capture>, f: Capture -> string)
    ensures |Each(rows, f)| == |rows| && forall i :: 0 <= i < |rows| ==> Each(rows, f)[i] == f(rows[i])
  {
    if rows != [] {
      EachAt(rows[1..], f);
      assert forall i :: 1 <= i < |rows| ==> rows[i] == rows[1..][i - 1];
    }
  }

  lemma EachPart(rows: seq<Capture>, f: Capture -> string, from: nat, part: seq<Capture>)
    requires from + |part| <= |rows| && part == rows[from..from + |part|]
    ensures |Each(rows, f)| == |rows| && |Each(part, f)| == |part|
    ensures Each(part, f) == Each(rows, f)[from..from + |part|]
  {
    EachAt(rows, f);
    EachAt(part, f);
  }

  lemma EachSame(rows: seq<Capture>, f: Capture -> string, g: Capture -> string)
    requires forall i :: 0 <= i < |rows| ==> f(rows[i]) == g(rows[i])
    ensures Each(rows, f) == Each(rows, g)
  {
    EachAt(rows, f);
    EachAt(rows, g);
  }

  ghost function LineOf(db: Db, headers: seq<string>): Capture -> string {
    (row: Capture) => PrintRow(CellsOf(db, headers, row))
  }

  /** The lines of the rows. */
  ghost function Lines(db: Db, headers: seq<string>, rows: seq<Capture>): seq<string> {
    Each(rows, LineOf(db, headers))
  }

  lemma LinesAt(db: Db, headers: seq<string>, rows: seq<Capture>)
    ensures |Lines(db, headers, rows)| == |rows|
    ensures forall i :: 0 <= i < |rows| ==> Lines(db, headers, rows)[i] == PrintRow(CellsOf(db, headers, rows[i]))
  {
    EachAt(rows, LineOf(db, headers));
  }

  lemma LinesOfPart(db: Db, headers: seq<string>, rows: seq<Capture>, from: nat, part: seq<Capture>)
    requires from + |part| <= |rows| && part == rows[from..from + |part|]
    ensures |Lines(db, headers, rows)| == |rows| && |Lines(db, headers, part)| == |part|
    ensures Lines(db, headers, part) == Lines(db, headers, rows)[from..from + |part|]
  {
    EachPart(rows, LineOf(db, headers), from, part);
  }

  /** The text of the lines. */
  ghost function Body(db: Db, headers: seq<string>, rows: seq<Capture>): string {
    Join(Lines(db, headers, rows), CRLF)
  }

  ghost function HeaderLine(columns: seq<string>, headers: seq<string>): string {
    PrintRow(columns + headers)
  }

  /** The texts the two exports are specified to produce. */
  ghost function Streamed(db: Db, columns: seq<string>, headers: seq<string>, rows: seq<Capture>): string {
    [BOM] + HeaderLine(columns, headers) + CRLF + Body(db, headers, rows)
  }

  ghost function InMemory(db: Db, columns: seq<string>, headers: seq<string>, rows: seq<Capture>): string {
    [BOM] + Join([HeaderLine(columns, headers)] + Lines(db, headers, rows), CRLF)
  }

  // ------------------------------------------------------------- lines one after the other

  /** A line, with a line end in front unless it is the first of all. */
  function Led(first: bool, line: string): string {
    (if first then "" else CRLF) + line
  }

  /** The first n of some lines, each after the first of all with a line end in front. */
  function Chained(lines: seq<string>, n: nat, first: bool): string
    requires n <= |lines|
  {
    if n == 0 then "" else Chained(lines, n - 1, first) + Led(first && n == 1, lines[n - 1])
  }

  lemma {:induction false} JoinSnoc(parts: seq<string>, last: string, sep: string)
    ensures Join(parts + [last], sep) == if parts == [] then last else Join(parts, sep) + sep + last
  {
    if |parts| > 1 {
      assert (parts + [last])[1..] == parts[1..] + [last];
      JoinSnoc(parts[1..], last, sep);
      assert Join(parts + [last], sep) == parts[0] + sep + (Join(parts[1..], sep) + sep + last);
    } else if |parts| == 1 {
      assert (parts + [last])[1..] == [last];
    }
  }

  lemma JoinLed(lines: seq<string>, line: string)
    ensures Join(lines + [line], CRLF) == Join(lines, CRLF) + Led(lines == [], line)
  {
    JoinSnoc(lines, line, CRLF);
    if lines != [] {
      assert Join(lines, CRLF) + (CRLF + line) == Join(lines, CRLF) + CRLF + line;
    }
  }

  /** Written one after the other, lines make up their join. */
  lemma {:induction false} ChainedIsJoin(lines: seq<string>, n: nat)
    requires n <= |lines|
    ensures Chained(lines, n, true) == Join(lines[..n], CRLF)
  {
    if n > 0 {
      ChainedIsJoin(lines, n - 1);
      JoinLed(lines[..n - 1], lines[n - 1]);
      assert lines[..n] == lines[..n - 1] + [lines[n - 1]];
    }
  }

  /** The text of lines from..to, as it continues that of the lines before them. */
  ghost predicate Continues(lines: seq<string>, from: nat, to: nat, text: string)
    requires from <= to <= |lines|
  {
    Chained(lines, from, true) + text == Chained(lines, to, true)
  }

  lemma LineContinues(lines: seq<string>, from: nat, k: nat, text: string)
    requires from <= k < |lines| && Continues(lines, from, k, text)
    ensures Continues(lines, from, k + 1, text + Led(k == 0, lines[k]))
  {
    var before, line := Chained(lines, from, true), Led(k == 0, lines[k]);
    assert before + (text + line) == (before + text) + line;
  }

  lemma {:induction false} PartContinues(lines: seq<string>, from: nat, part: seq<string>, n: nat)
    requires n <= |part| && from + |part| <= |lines| && part == lines[from..from + |part|]
    ensures Continues(lines, from, from + n, Chained(part, n, from == 0))
  {
    if n == 0 {
      assert Chained(lines, from, true) + "" == Chained(lines, from, true);
    } else {
      PartContinues(lines, from, part, n - 1);
      LineContinues(lines, from, from + n - 1, Chained(part, n - 1, from == 0));
    }
  }

  // ------------------------------------------------------------- the stream

  function RowLine(headers: seq<string>, quiz: Resolved, persons: map<int, Person>): Capture -> string {
    (row: Capture) => PrintRow(RowCells(row, headers, quiz, persons))
  }

  /** The lines of a batch. */
  function RowLines(rows: seq<Capture>, headers: seq<string>, quiz: Resolved, persons: map<int, Person>): seq<string> {
    Each(rows, RowLine(headers, quiz, persons))
  }

  lemma BatchLines(db: Db, rows: seq<Capture>, headers: seq<string>, quiz: Resolved, persons: map<int, Person>)
    requires ResolvedFor(db, Ids(rows), quiz) && PersonsFor(db, PersonIds(rows), persons)
    ensures RowLines(rows, headers, quiz, persons) == Lines(db, headers, rows)
  {
    var f, g := RowLine(headers, quiz, persons), LineOf(db, headers);
    forall i | 0 <= i < |rows| ensures f(rows[i]) == g(rows[i]) {
      BatchCells(db, rows, headers, quiz, persons, i);
    }
    EachSame(rows, f, g);
  }

  method BatchText(rows: seq<Capture>, headers: seq<string>, quiz: Resolved, persons: map<int, Person>, first: bool)
    returns (text: string)
    ensures |RowLines(rows, headers, quiz, persons)| == |rows|
    ensures text == Chained(RowLines(rows, headers, quiz, persons), |rows|, first)
  {
    ghost var lines := RowLines(rows, headers, quiz, persons);
    EachAt(rows, RowLine(headers, quiz, persons));
    text := "";
    var firstDataRow := first;
    for i := 0 to |rows|
      invariant text == Chained(lines, i, first)
      invariant firstDataRow == (first && i == 0)
    {
      text := text + Led(firstDataRow, PrintRow(RowCells(rows[i], headers, quiz, persons)));
      firstDataRow := false;
    }
  }

  /** Resolve one batch and render it: its text continues the lines before it. */
  method ExportBatch(db: Db, rows: seq<Capture>, headers: seq<string>, chunk: nat, first: bool,
                     ghost lines: seq<string>, ghost from: nat)
    returns (text: string)
    requires chunk >= 1 && DbOk(db) && first == (from == 0)
    requires from + |rows| <= |lines| && Lines(db, headers, rows) == lines[from..from + |rows|]
    ensures Continues(lines, from, from + |rows|, text)
  {
    var quiz := ResolveQuizExportData(db, Ids(rows), chunk);
    var persons := ResolvePersonContacts(db, PersonIds(rows), chunk);
    text := BatchText(rows, headers, quiz, persons, first);
    BatchLines(db, rows, headers, quiz, persons);
    PartContinues(lines, from, Lines(db, headers, rows), |rows|);
  }

  lemma BatchIsNext(db: Db, headers: seq<string>, table: seq<Capture>, p: Capture -> bool, cursor: Option<Key>,
                    batch: nat, processed: nat)
    requires batch >= 1 && DistinctIds(table)
    requires processed == Start(Desc, cursor, Listing(Desc, table, p))
    ensures var l, rows := Listing(Desc, table, p), Query(Desc, table, p, cursor, batch);
            && |rows| == BatchSize(|l|, processed, batch) && processed + |rows| <= |l|
            && |Lines(db, headers, l)| == |l| && |Lines(db, headers, rows)| == |rows|
            && Lines(db, headers, rows) == Lines(db, headers, l)[processed..processed + |rows|]
            && (rows != [] ==> Start(Desc, Some(rows[|rows| - 1].key), l) == processed + |rows|)
  {
    BatchStep(table, p, cursor, batch, processed);
    LinesOfPart(db, headers, Listing(Desc, table, p), processed, Query(Desc, table, p, cursor, batch));
  }

  /** Query the batch behind the cursor and render it: its text continues the lines written so far. */
  method NextBatch(db: Db, table: seq<Capture>, p: Capture -> bool, headers: seq<string>, batch: nat, chunk: nat,
                   cursor: Option<Key>, ghost lines: seq<string>, ghost processed: nat, first: bool)
    returns (rows: seq<Capture>, text: string)
    requires batch >= 1 && chunk >= 1 && DistinctIds(table) && DbOk(db)
    requires processed == Start(Desc, cursor, Listing(Desc, table, p)) && first == (processed == 0)
    requires lines == Lines(db, headers, Listing(Desc, table, p))
    ensures |rows| == BatchSize(|lines|, processed, batch) && processed + |rows| <= |lines|
    ensures Continues(lines, processed, processed + |rows|, text)
    ensures rows != [] ==> Start(Desc, Some(rows[|rows| - 1].key), Listing(Desc, table, p)) == processed + |rows|
  {
    BatchIsNext(db, headers, table, p, cursor, batch, processed);
    rows := Query(Desc, table, p, cursor, batch);
    text := ExportBatch(db, rows, headers, chunk, first, lines, processed);
  }

  /** Every batch of the loop, joined into one body. */
  method StreamRows(db: Db, table: seq<Capture>, p: Capture -> bool, headers: seq<string>, batch: nat, chunk: nat)
    returns (body: string)
    requires batch >= 1 && chunk >= 1 && DistinctIds(table) && DbOk(db)
    ensures body == Body(db, headers, Listing(Desc, table, p))
  {
    ghost var l := Listing(Desc, table, p);
    ghost var lines := Lines(db, headers, l);
    body := "";
    var cursor: Option<Key> := None;
    ghost var processed := 0;
    var firstDataRow := true;
    var more := true;
    while more
      invariant processed <= |lines| && processed == Start(Desc, cursor, l)
      invariant firstDataRow == (processed == 0)
      invariant !more ==> processed == |lines|
      invariant body == Chained(lines, processed, true)
      decreases |lines| - processed, more
    {
      var rows, text := NextBatch(db, table, p, headers, batch, chunk, cursor, lines, processed, firstDataRow);
      if rows == [] {
        break;
      }
      body := body + text;
      firstDataRow := false;
      processed := processed + |rows|;
      cursor := Some(rows[|rows| - 1].key);
      more := |rows| == batch;
    }
    ChainedIsJoin(lines, |lines|);
    assert lines[..|lines|] == lines;
  }

  /** The question headers of the stream: those of all captures the filter matches. */
  ghost function StreamHeaders(db: Db, rows: seq<Capture>, le: (string, string) -> bool): seq<string> {
    HeadersOf(QueriedLabels(db, Ids(rows), le), le)
  }

  /** streamCapturesCsv: everything written to the stream. */
  method StreamCapturesCsv(db: Db, table: seq<Capture>, p: Capture -> bool, columns: seq<string>,
                           le: (string, string) -> bool, batch: nat, chunk: nat)
    returns (text: string)
    requires batch >= 1 && chunk >= 1 && DistinctIds(table) && DbOk(db)
    ensures var l := Listing(Desc, table, p);
            text == Streamed(db, columns, StreamHeaders(db, l, le), l)
  {
    var headers := CollectExportQuestionHeaders(db, Ids(Listing(Desc, table, p)), le);
    var head := [BOM] + PrintRow(columns + headers) + CRLF;
    var body := StreamRows(db, table, p, headers, batch, chunk);
    text := head + body;
  }

  // ------------------------------------------------------------- in memory

  /** All cells of an in-memory export. */
  function DataRows(rows: seq<Capture>, headers: seq<string>, quiz: Resolved,
                    persons: map<int, Person>): seq<seq<string>>
  {
    seq(|rows|, i requires 0 <= i < |rows| => RowCells(rows[i], headers, quiz, persons))
  }

  lemma {:induction false} PrintRowsAt(rows: seq<seq<string>>)
    ensures |PrintRows(rows)| == |rows| && forall i :: 0 <= i < |rows| ==> PrintRows(rows)[i] == PrintRow(rows[i])
  {
    if rows != [] {
      PrintRowsAt(rows[1..]);
      assert forall i :: 1 <= i < |rows| ==> rows[i] == rows[1..][i - 1];
    }
  }

  lemma TablePrinted(db: Db, columns: seq<string>, headers: seq<string>, rows: seq<Capture>, cells: seq<seq<string>>)
    requires |cells| == |rows|
    requires forall i :: 0 <= i < |rows| ==> cells[i] == CellsOf(db, headers, rows[i])
    ensures PrintCsv([columns + headers] + cells) == InMemory(db, columns, headers, rows)
  {
    PrintRowsAt(cells);
    LinesAt(db, headers, rows);
    assert PrintRows(cells) == Lines(db, headers, rows);
    assert ([columns + headers] + cells)[1..] == cells;
  }

  /** The question headers of the in-memory export: of each key the label it reads first. */
  function MemoryHeaders(db: Db, rows: seq<Capture>, chunk: nat, le: (string, string) -> bool): seq<string>
    requires chunk >= 1
  {
    HeadersOf(CollectedLabels(db, Ids(rows), chunk), le)
  }

  /** exportCapturesCsv: one query, one resolution, one print, under the headers of the labels collected. */
  method ExportCapturesCsv(db: Db, table: seq<Capture>, p: Capture -> bool, columns: seq<string>,
                           le: (string, string) -> bool, chunk: nat)
    returns (text: string)
    requires chunk >= 1 && DistinctIds(table) && DbOk(db)
    ensures var l := Listing(Desc, table, p);
            text == InMemory(db, columns, MemoryHeaders(db, l, chunk, le), l)
  {
    var rows := Listing(Desc, table, p);
    var quiz := ResolveQuizExportData(db, Ids(rows), chunk);
    var persons := ResolvePersonContacts(db, PersonIds(rows), chunk);
    var headers := HeadersOf(quiz.labels, le);
    text := PrintCsv([columns + headers] + DataRows(rows, headers, quiz, persons));
    forall i | 0 <= i < |rows| ensures RowCells(rows[i], headers, quiz, persons) == CellsOf(db, headers, rows[i]) {
      BatchCells(db, rows, headers, quiz, persons, i);
    }
    TablePrinted(db, columns, headers, rows, DataRows(rows, headers, quiz, persons));
  }

  // ------------------------------------------------------------- when the two files agree

  /**
    Under the same headers the stream carries the in-memory file if there is a row; without
    rows it ends in one more CRLF.
   */
  lemma StreamContinuesMemory(db: Db, columns: seq<string>, headers: seq<string>, rows: seq<Capture>)
    ensures Streamed(db, columns, headers, rows)
            == InMemory(db, columns, headers, rows) + if rows == [] then CRLF else ""
  {
    var lines, header := Lines(db, headers, rows), HeaderLine(columns, headers);
    if rows == [] {
      assert [header] + lines == [header];
    } else {
      assert |lines| > 0;
      assert ([header] + lines)[1..] == lines;
    }
  }

  /** The cells the specification gives a table. */
  ghost function Cells(db: Db, headers: seq<string>, rows: seq<Capture>): (cells: seq<seq<string>>)
    ensures |cells| == |rows|
    ensures forall i :: 0 <= i < |rows| ==> cells[i] == CellsOf(db, headers, rows[i])
  {
    seq(|rows|, i requires 0 <= i < |rows| => CellsOf(db, headers, rows[i]))
  }

  /** The file can be read back: its first row is the header row. */
  lemma FirstRowRead(db: Db, columns: seq<string>, headers: seq<string>, rows: seq<Capture>)
    requires columns != []
    ensures var read := ParsedCsv(InMemory(db, columns, headers, rows));
            if rows == [] && columns + headers == [""] then read == [] else read != [] && read[0] == columns + headers
  {
    var table := [columns + headers] + Cells(db, headers, rows);
    TablePrinted(db, columns, headers, rows, Cells(db, headers, rows));
    ParsedPrint(table);
    assert table[0] == columns + headers;
  }

  lemma EmptyStreamRead(db: Db, columns: seq<string>, headers: seq<string>)
    requires columns != []
    ensures ParsedCsv(Streamed(db, columns, headers, [])) == [columns + headers]
  {
    var head := PrintRow(columns + headers);
    assert WithoutBom(Streamed(db, columns, headers, [])) == head + (CRLF + "");
    RowsReadFirst(columns + headers, CRLF, "");
  }

  lemma SameTail(a: seq<string>, b: seq<string>, c: seq<string>)
    requires a + b == a + c
    ensures b == c
  {
    assert (a + b)[|a|..] == b && (a + c)[|a|..] == c;
  }

  lemma EmptyFilesDiffer(db: Db, columns: seq<string>, streamed: seq<string>, collected: seq<string>)
    requires columns != []
    ensures Streamed(db, columns, streamed, []) != InMemory(db, columns, collected, [])
  {
    EmptyStreamRead(db, columns, streamed);
    FirstRowRead(db, columns, collected, []);
    StreamContinuesMemory(db, columns, streamed, []);
    assert |Streamed(db, columns, streamed, [])| == |InMemory(db, columns, streamed, [])| + 2;
  }

  /**
    For every batch size and chunk size: the two files are the same exactly when there is a
    row and the headers agree.
   */
  lemma StreamEqualsInMemory(db: Db, columns: seq<string>, streamed: seq<string>, collected: seq<string>,
                             rows: seq<Capture>)
    requires columns != []
    ensures Streamed(db, columns, streamed, rows) == InMemory(db, columns, collected, rows)
            <==> rows != [] && streamed == collected
  {
    if rows == [] {
      EmptyFilesDiffer(db, columns, streamed, collected);
    } else {
      StreamContinuesMemory(db, columns, streamed, rows);
      FirstRowRead(db, columns, collected, rows);
      FirstRowRead(db, columns, streamed, rows);
      if InMemory(db, columns, streamed, rows) == InMemory(db, columns, collected, rows) {
        SameTail(columns, streamed, collected);
      }
    }
  }

  /**
    What streamCapturesCsv and exportCapturesCsv write about the same captures: one and the
    same file exactly when there is a capture and, in the order in which the answers are
    read, the first answer to each question key shows the least label of that key.
   */
  lemma ExportsAgreeExactly(db: Db, columns: seq<string>, rows: seq<Capture>, chunk: nat,
                            le: (string, string) -> bool)
    requires columns != [] && chunk >= 1 && Collates(le)
    ensures Streamed(db, columns, StreamHeaders(db, rows, le), rows)
            == InMemory(db, columns, MemoryHeaders(db, rows, chunk, le), rows)
            <==> rows != [] && FirstReadIsLeast(ReadFor(db, Ids(rows), chunk), le)
  {
    HeadersAgreeExactly(db, Ids(rows), chunk, le);
    StreamEqualsInMemory(db, columns, StreamHeaders(db, rows, le), MemoryHeaders(db, rows, chunk, le), rows);
  }

  /** A table on which the two exports write different files, whatever the columns and sizes. */
  lemma ExportsCanDiffer(columns: seq<string>, row: Capture, chunk: nat, le: (string, string) -> bool)
    requires columns != [] && row.key.id == 7 && chunk >= 1 && Collates(le) && le("A", "B")
    ensures Streamed(TwoLabels(), columns, StreamHeaders(TwoLabels(), [row], le), [row])
            != InMemory(TwoLabels(), columns, MemoryHeaders(TwoLabels(), [row], chunk, le), [row])
  {
    assert Ids([row]) == [7];
    HeadersCanDiffer(chunk, le);
    StreamEqualsInMemory(TwoLabels(), columns, StreamHeaders(TwoLabels(), [row], le),
                         MemoryHeaders(TwoLabels(), [row], chunk, le), [row]);
  }
}
