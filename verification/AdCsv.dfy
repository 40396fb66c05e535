/**
  Ad performance as CSV: the export, the reading of an import, and that an exported table
  is read back.
 */
module AdCsv {
  import opened Consolidation
  import Csv
  import opened Decimals
  import opened Options
  import opened Text

  // ------------------------------------------------------------- reading a CSV row

  /** The cells of an import row by column, and whether its metadata_json parses. */
  datatype RawRow = RawRow(
    provider: string, account: string, ad: string, date: string, campaign: string,
    impressions: string, clicks: string, spend: string, conversions: string, metadataOk: bool)

  datatype ImportError = NoFile | MissingColumn(header: string) | NoRows | MissingKey | BadDate | BadCell | BadMetadata

  /** /^\d{4}-\d{2}-\d{2}$/ */
  predicate IsoDate(s: string) {
    |s| == 10 && s[4] == '-' && s[7] == '-' && Digits(s[..4]) && Digits(s[5..7]) && Digits(s[8..])
  }

  /** /^\d+$/ after trimming. */
  function IntegerCell(s: string): Result<int, ImportError> {
    var t := Trimmed(s);
    if t != "" && Digits(t) then Ok(NatOf(t)) else Err(BadCell)
  }

  /** /^\d+(\.\d+)?$/ after trimming; the value is what the numeric column stores. */
  function DecimalCell(s: string): Result<int, ImportError> {
    var t := Trimmed(s);
    var whole, fraction := BeforeDot(t), AfterDot(t);
    if whole != "" && Digits(whole) && (t == whole || (fraction != "" && Digits(fraction)))
    then Ok(NatOf(whole) * UNIT + RoundedFraction(if t == whole then "" else fraction)) else Err(BadCell)
  }

  /** mapCsvRow */
  function MapCsvRow(raw: RawRow, providerOverride: Option<string>): Result<CsvRow, ImportError> {
    var provider := Trimmed(providerOverride.GetOr(raw.provider));
    var account, ad, date := Trimmed(raw.account), Trimmed(raw.ad), Trimmed(raw.date);
    if provider == "" || account == "" || ad == "" || date == "" then Err(MissingKey)
    else if !IsoDate(date) then Err(BadDate)
    else
      var impressions, clicks, spend := IntegerCell(raw.impressions), IntegerCell(raw.clicks), DecimalCell(raw.spend);
      if impressions.Err? || clicks.Err? || spend.Err? then Err(BadCell)
      else
        var campaign := if Trimmed(raw.campaign) == "" then None else Some(Trimmed(raw.campaign));
        var group := Group(provider, account, date);
        if Trimmed(raw.conversions) == "" then
          Ok(CsvRow(group, ad, campaign, impressions.value, clicks.value, spend.value, None, raw.metadataOk))
        else
          var conversions := DecimalCell(raw.conversions);
          if conversions.Err? then Err(BadCell)
          else Ok(CsvRow(group, ad, campaign, impressions.value, clicks.value, spend.value, Some(conversions.value),
                         raw.metadataOk))
  }

  /** Maps rows one after the other, up to the first that fails. */
  function MapRows<A>(rows: seq<A>, f: A -> Result<CsvRow, ImportError>): Result<seq<CsvRow>, ImportError> {
    if rows == [] then Ok([])
    else
      var front := MapRows(rows[..|rows| - 1], f);
      if front.Err? then front
      else
        var last := f(rows[|rows| - 1]);
        if last.Err? then Err(last.error) else Ok(front.value + [last.value])
  }

  // ------------------------------------------------------------- reading a file

  const REQUIRED: seq<string> :=
    ["provider", "external_account_id", "external_ad_id", "report_date", "impressions", "clicks", "spend"]

  function TrimmedCells(row: seq<string>): (cells: seq<string>)
    ensures |cells| == |row| && forall i :: 0 <= i < |row| ==> cells[i] == Trimmed(row[i])
  {
    seq(|row|, i requires 0 <= i < |row| => Trimmed(row[i]))
  }

  function FirstMissing(required: seq<string>, headers: seq<string>): Option<string> {
    if required == [] then None
    else if required[0] !in headers then Some(required[0])
    else FirstMissing(required[1..], headers)
  }

  /** headers.indexOf(name), or the number of headers. */
  function ColumnOf(headers: seq<string>, name: string): (at: nat)
    ensures at <= |headers|
  {
    if headers == [] || headers[0] == name then 0 else 1 + ColumnOf(headers[1..], name)
  }

  /** A missing column or a short row reads as an empty cell. */
  function Cell(headers: seq<string>, row: seq<string>, name: string): string {
    var at := ColumnOf(headers, name);
    if at < |headers| && at < |row| then row[at] else ""
  }

  /** metadata_json may be blank; otherwise it has to parse. */
  predicate MetadataOk(text: string, parses: string -> bool) {
    Trimmed(text) == "" || parses(Trimmed(text))
  }

  function RawOf(headers: seq<string>, row: seq<string>, parses: string -> bool): RawRow {
    RawRow(Cell(headers, row, "provider"), Cell(headers, row, "external_account_id"),
           Cell(headers, row, "external_ad_id"), Cell(headers, row, "report_date"),
           Cell(headers, row, "external_campaign_id"), Cell(headers, row, "impressions"),
           Cell(headers, row, "clicks"), Cell(headers, row, "spend"), Cell(headers, row, "conversions"),
           MetadataOk(Cell(headers, row, "metadata_json"), parses))
  }

  predicate BlankRow(row: seq<string>) {
    forall i :: 0 <= i < |row| ==> Trimmed(row[i]) == ""
  }

  function FilledRows(rows: seq<seq<string>>): seq<seq<string>> {
    if rows == [] then []
    else
      var front, last := FilledRows(rows[..|rows| - 1]), rows[|rows| - 1];
      if BlankRow(last) then front else front + [last]
  }

  /** mapCsvRow on the cells of a line. */
  function MapLine(headers: seq<string>, providerOverride: Option<string>, parses: string -> bool)
    : seq<string> -> Result<CsvRow, ImportError>
  {
    (row: seq<string>) => MapCsvRow(RawOf(headers, row, parses), providerOverride)
  }

  /** What an import file says, before anything is saved. */
  function ReadFile(content: string, providerOverride: Option<string>, parses: string -> bool)
    : Result<seq<CsvRow>, ImportError>
  {
    var rows := Csv.ParsedCsv(content);
    if rows == [] then Err(NoFile)
    else
      var headers := TrimmedCells(rows[0]);
      var missing := FirstMissing(REQUIRED, headers);
      if missing.Some? then Err(MissingColumn(missing.value))
      else
        var mapped := MapRows(FilledRows(rows[1..]), MapLine(headers, providerOverride, parses));
        if mapped.Ok? && mapped.value == [] then Err(NoRows) else mapped
  }

  // ------------------------------------------------------------- the export

  /** The columns of an exported row that the tables here do not hold. */
  datatype Extra = Extra(account: string, campaign: string, adset: string, adsetName: string, ad: string,
                         metadata: string)

  const HEADERS: seq<string> :=
    ["provider", "external_account_id", "account_name", "external_campaign_id", "campaign_name", "external_adset_id",
     "adset_name", "external_ad_id", "ad_name", "report_date", "impressions", "clicks", "spend", "conversions",
     "metadata_json"]

  function ConversionsText(c: Option<int>): string {
    if c.Some? then ScaledText(c.value) else ""
  }

  function ExportCells(a: AdRow, x: Extra): seq<string> {
    [a.group.provider, a.group.account, x.account, a.campaign.GetOr(""), x.campaign, x.adset, x.adsetName, a.ad, x.ad,
     a.group.date, IntText(a.impressions), IntText(a.clicks), ScaledText(a.spend), ConversionsText(a.conversions),
     x.metadata]
  }

  function ExportRows(ads: seq<AdRow>, xs: seq<Extra>): seq<seq<string>>
    requires |ads| == |xs|
  {
    seq(|ads|, i requires 0 <= i < |ads| => ExportCells(ads[i], xs[i]))
  }

  /** exportAdPerformanceCsv */
  function ExportText(ads: seq<AdRow>, xs: seq<Extra>): string
    requires |ads| == |xs|
  {
    Csv.PrintCsv([HEADERS] + ExportRows(ads, xs))
  }

  // ------------------------------------------------------------- cells come back

  lemma LettersStay(s: string)
    requires s != "" && 'a' <= s[0] <= 'z' && 'a' <= s[|s| - 1] <= 'z'
    ensures Trimmed(s) == s
  {
  }

  lemma HeaderEdges(k: nat)
    requires k < |HEADERS|
    ensures HEADERS[k] != "" && 'a' <= HEADERS[k][0] <= 'z' && 'a' <= HEADERS[k][|HEADERS[k]| - 1] <= 'z'
  {
  }

  lemma HeadersAreTrimmed()
    ensures TrimmedCells(HEADERS) == HEADERS
  {
    forall i | 0 <= i < |HEADERS| ensures Trimmed(HEADERS[i]) == HEADERS[i] {
      HeaderEdges(i);
      LettersStay(HEADERS[i]);
    }
  }

  lemma HeadersDiffer(i: nat, j: nat)
    requires i < j < |HEADERS|
    ensures HEADERS[i] != HEADERS[j]
  {
    assert |HEADERS[i]| != |HEADERS[j]| || HEADERS[i][0] != HEADERS[j][0];
  }

  lemma {:induction false} ColumnIs(headers: seq<string>, k: nat)
    requires k < |headers| && forall i :: 0 <= i < k ==> headers[i] != headers[k]
    ensures ColumnOf(headers, headers[k]) == k
  {
    if k > 0 {
      assert headers[0] != headers[k];
      assert forall i :: 0 <= i < k - 1 ==> headers[1..][i] != headers[1..][k - 1];
      ColumnIs(headers[1..], k - 1);
    }
  }

  lemma CellIs(row: seq<string>, k: nat)
    requires k < |HEADERS| == |row|
    ensures Cell(HEADERS, row, HEADERS[k]) == row[k]
  {
    forall i | 0 <= i < k ensures HEADERS[i] != HEADERS[k] {
      HeadersDiffer(i, k);
    }
    ColumnIs(HEADERS, k);
  }

  lemma NoneMissing()
    ensures FirstMissing(REQUIRED, HEADERS) == None
  {
    assert REQUIRED[0] == HEADERS[0] && REQUIRED[1] == HEADERS[1] && REQUIRED[2] == HEADERS[7];
    assert REQUIRED[3] == HEADERS[9] && REQUIRED[4] == HEADERS[10] && REQUIRED[5] == HEADERS[11];
    assert REQUIRED[6] == HEADERS[12];
    NoneMissingFrom(REQUIRED, HEADERS);
  }

  lemma {:induction false} NoneMissingFrom(required: seq<string>, headers: seq<string>)
    requires forall i :: 0 <= i < |required| ==> required[i] in headers
    ensures FirstMissing(required, headers) == None
  {
    if required != [] { NoneMissingFrom(required[1..], headers); }
  }

  /** The cells of an exported row as the import finds them. */
  lemma ExportedRaw(a: AdRow, x: Extra, parses: string -> bool)
    ensures RawOf(HEADERS, ExportCells(a, x), parses)
            == RawRow(a.group.provider, a.group.account, a.ad, a.group.date, a.campaign.GetOr(""),
                      IntText(a.impressions), IntText(a.clicks), ScaledText(a.spend), ConversionsText(a.conversions),
                      MetadataOk(x.metadata, parses))
  {
    var row := ExportCells(a, x);
    CellIs(row, 0);
    CellIs(row, 1);
    CellIs(row, 3);
    CellIs(row, 7);
    CellIs(row, 9);
    CellIs(row, 10);
    CellIs(row, 11);
    CellIs(row, 12);
    CellIs(row, 13);
    CellIs(row, 14);
  }

  /** What a cell is read as that holds a printed number. */
  function Returned(n: int): Result<int, ImportError> {
    if n >= 0 then Ok(n) else Err(BadCell)
  }

  lemma IntegerReturns(n: int)
    ensures Trimmed(IntText(n)) != ""
    ensures IntegerCell(IntText(n)) == Returned(n)
  {
    NatTextDigits(if n < 0 then -n else n);
    if n >= 0 { DigitsStayTrimmed(IntText(n)); }
  }

  lemma WholeOrSplit(d: Plain)
    requires PlainOk(d) && !d.negative
    ensures PlainText(d) == d.whole <==> !d.dot
  {
    assert |PlainText(d)| == |d.whole| + if d.dot then 1 + |d.fraction| else 0;
    assert d.whole + "" == d.whole;
  }

  /** The cell of a trimmed text whose parts are digits. */
  lemma CellOfParts(t: string, whole: string, fraction: string)
    requires Trimmed(t) == t && BeforeDot(t) == whole && AfterDot(t) == fraction
    requires whole != "" && Digits(whole) && Digits(fraction) && (fraction == "" <==> t == whole)
    ensures DecimalCell(t) == Ok(NatOf(whole) * UNIT + RoundedFraction(fraction))
  {
  }

  lemma PlainDecimalCell(d: Plain)
    requires PlainOk(d) && !d.negative
    ensures DecimalCell(PlainText(d)) == Ok(NatOf(d.whole) * UNIT + RoundedFraction(d.fraction))
  {
    assert Trimmed(PlainText(d)) == PlainText(d) by { PlainIsTrimmed(d); }
    assert BeforeDot(PlainText(d)) == d.whole && AfterDot(PlainText(d)) == d.fraction by {
      PlainStart(d);
      UnsignedSplits(d);
    }
    assert PlainText(d) == d.whole <==> !d.dot by { WholeOrSplit(d); }
    CellOfParts(PlainText(d), d.whole, d.fraction);
  }

  lemma NegativeDecimalCell(d: Plain)
    requires PlainOk(d) && d.negative
    ensures DecimalCell(PlainText(d)) == Err(BadCell)
  {
    PlainStart(d);
    PlainIsTrimmed(d);
    assert BeforeDot(PlainText(d))[0] == '-';
  }

  lemma SixAreKept(fraction: string)
    requires Digits(fraction) && |fraction| == SCALE
    ensures RoundedFraction(fraction) == NatOf(fraction)
  {
    assert Pow10(0) == 1;
  }

  lemma ScaledCell(v: nat)
    ensures DecimalCell(ScaledText(v)) == Ok(v)
  {
    var d := PlainOf(v);
    assert PlainText(d) == ScaledText(v) by { PlainOfText(v); }
    PlainOfDigits(v);
    assert NatOf(d.whole) * UNIT + RoundedFraction(d.fraction) == v by {
      SixAreKept(d.fraction);
      assert v == v / UNIT * UNIT + v % UNIT;
    }
    assert DecimalCell(PlainText(d)) == Ok(NatOf(d.whole) * UNIT + RoundedFraction(d.fraction)) by {
      PlainDecimalCell(d);
    }
  }

  lemma DecimalReturns(v: int)
    ensures Trimmed(ScaledText(v)) != ""
    ensures DecimalCell(ScaledText(v)) == Returned(v)
  {
    PlainOfOk(v);
    PlainIsTrimmed(PlainOf(v));
    if v < 0 {
      NegativeDecimalCell(PlainOf(v));
    } else {
      ScaledCell(v);
    }
  }

  // ------------------------------------------------------------- rows come back

  function CsvOf(a: AdRow): CsvRow {
    CsvRow(a.group, a.ad, a.campaign, a.impressions, a.clicks, a.spend, a.conversions, true)
  }

  function CsvRowsOf(ads: seq<AdRow>): seq<CsvRow> {
    seq(|ads|, i requires 0 <= i < |ads| => CsvOf(ads[i]))
  }

  predicate Tidy(s: string) {
    s != "" && Trimmed(s) == s
  }

  /** Tidy ids, an ISO date and no negative number: what the import accepts as it is. */
  predicate Portable(a: AdRow) {
    && Tidy(a.group.provider) && Tidy(a.group.account) && Tidy(a.ad)
    && IsoDate(a.group.date) && Trimmed(a.group.date) == a.group.date
    && (a.campaign.Some? ==> Tidy(a.campaign.value))
    && a.impressions >= 0 && a.clicks >= 0 && a.spend >= 0 && (a.conversions.Some? ==> a.conversions.value >= 0)
  }

  /** The cells of a row whose numbers are read as told. */
  ghost predicate Carries(raw: RawRow, a: AdRow) {
    && raw.provider == a.group.provider && raw.account == a.group.account && raw.ad == a.ad
    && raw.date == a.group.date && raw.campaign == a.campaign.GetOr("") && raw.metadataOk
    && IntegerCell(raw.impressions) == Returned(a.impressions)
    && IntegerCell(raw.clicks) == Returned(a.clicks)
    && DecimalCell(raw.spend) == Returned(a.spend)
    && (Trimmed(raw.conversions) == "" <==> a.conversions.None?)
    && (a.conversions.Some? ==> DecimalCell(raw.conversions) == Returned(a.conversions.value))
  }

  lemma PortableReturns(raw: RawRow, a: AdRow)
    requires Carries(raw, a) && Portable(a)
    ensures MapCsvRow(raw, None) == Ok(CsvOf(a))
  {
    assert None.GetOr(raw.provider) == raw.provider;
  }

  lemma ReturnedIsPortable(raw: RawRow, a: AdRow)
    requires Carries(raw, a) && MapCsvRow(raw, None) == Ok(CsvOf(a))
    ensures Portable(a)
  {
    assert None.GetOr(raw.provider) == raw.provider;
  }

  /** An exported row is read back exactly when it is portable. */
  lemma RowReturns(a: AdRow, x: Extra, parses: string -> bool)
    requires MetadataOk(x.metadata, parses)
    ensures MapCsvRow(RawOf(HEADERS, ExportCells(a, x), parses), None) == Ok(CsvOf(a)) <==> Portable(a)
  {
    ExportedRaw(a, x, parses);
    IntegerReturns(a.impressions);
    IntegerReturns(a.clicks);
    DecimalReturns(a.spend);
    if a.conversions.Some? { DecimalReturns(a.conversions.value); }
    var raw := RawOf(HEADERS, ExportCells(a, x), parses);
    if Portable(a) { PortableReturns(raw, a); }
    if MapCsvRow(raw, None) == Ok(CsvOf(a)) { ReturnedIsPortable(raw, a); }
  }

  lemma ExportedRowIsNotBlank(a: AdRow, x: Extra)
    ensures !BlankRow(ExportCells(a, x))
  {
    IntegerReturns(a.impressions);
    assert ExportCells(a, x)[10] == IntText(a.impressions);
  }

  ghost predicate AllPortable(ads: seq<AdRow>) {
    forall i :: 0 <= i < |ads| ==> Portable(ads[i])
  }

  /** JSON.stringify gives texts that parse. */
  ghost predicate MetadataParses(xs: seq<Extra>, parses: string -> bool) {
    forall i :: 0 <= i < |xs| ==> MetadataOk(xs[i].metadata, parses)
  }

  lemma {:induction false} AllFilled(rows: seq<seq<string>>, n: nat)
    requires n <= |rows| && forall i :: 0 <= i < n ==> !BlankRow(rows[i])
    ensures FilledRows(rows[..n]) == rows[..n]
  {
    if n > 0 {
      AllFilled(rows, n - 1);
      assert rows[..n][..n - 1] == rows[..n - 1];
      assert rows[..n] == rows[..n - 1] + [rows[n - 1]];
    }
  }

  lemma {:induction false} MapRowsAre<A>(rows: seq<A>, f: A -> Result<CsvRow, ImportError>, mapped: seq<CsvRow>)
    requires |mapped| == |rows|
    ensures MapRows(rows, f) == Ok(mapped) <==> forall i :: 0 <= i < |rows| ==> f(rows[i]) == Ok(mapped[i])
    decreases |rows|
  {
    if rows != [] {
      var n := |rows| - 1;
      MapRowsAre(rows[..n], f, mapped[..n]);
      assert mapped == mapped[..n] + [mapped[n]];
      if MapRows(rows, f) == Ok(mapped) {
        assert MapRows(rows, f).value[..n] == MapRows(rows[..n], f).value;
      }
    }
  }

  /** The lines of an export come back exactly when every row is portable. */
  lemma LinesReturn(ads: seq<AdRow>, xs: seq<Extra>, parses: string -> bool)
    requires |ads| == |xs| && MetadataParses(xs, parses)
    ensures MapRows(ExportRows(ads, xs), MapLine(HEADERS, None, parses)) == Ok(CsvRowsOf(ads)) <==> AllPortable(ads)
  {
    var lines, f := ExportRows(ads, xs), MapLine(HEADERS, None, parses);
    MapRowsAre(lines, f, CsvRowsOf(ads));
    forall i | 0 <= i < |ads| ensures f(lines[i]) == Ok(CsvRowsOf(ads)[i]) <==> Portable(ads[i]) {
      RowReturns(ads[i], xs[i], parses);
    }
  }

  lemma ExportedLinesAreFilled(ads: seq<AdRow>, xs: seq<Extra>)
    requires |ads| == |xs|
    ensures FilledRows(ExportRows(ads, xs)) == ExportRows(ads, xs)
  {
    var lines := ExportRows(ads, xs);
    forall i | 0 <= i < |lines| ensures !BlankRow(lines[i]) {
      ExportedRowIsNotBlank(ads[i], xs[i]);
    }
    AllFilled(lines, |lines|);
    assert lines[..|lines|] == lines;
  }

  lemma ExportParses(ads: seq<AdRow>, xs: seq<Extra>)
    requires |ads| == |xs|
    ensures Csv.ParsedCsv(ExportText(ads, xs)) == [HEADERS] + ExportRows(ads, xs)
  {
    var table := [HEADERS] + ExportRows(ads, xs);
    assert forall i :: 0 <= i < |table| ==> |table[i]| == |HEADERS|;
    Csv.RoundTrip(table);
  }

  lemma ReadTable(content: string, table: seq<seq<string>>, parses: string -> bool)
    requires Csv.ParsedCsv(content) == table && table != [] && table[0] == HEADERS
    ensures ReadFile(content, None, parses)
            == var mapped := MapRows(FilledRows(table[1..]), MapLine(HEADERS, None, parses));
               if mapped.Ok? && mapped.value == [] then Err(NoRows) else mapped
  {
    HeadersAreTrimmed();
    NoneMissing();
  }

  /** The import reads an exported file as the exported rows exactly when there are some and all are portable. */
  lemma ExportReadsBack(ads: seq<AdRow>, xs: seq<Extra>, parses: string -> bool)
    requires |ads| == |xs| && MetadataParses(xs, parses)
    ensures ReadFile(ExportText(ads, xs), None, parses) == Ok(CsvRowsOf(ads)) <==> ads != [] && AllPortable(ads)
  {
    var table := [HEADERS] + ExportRows(ads, xs);
    ExportParses(ads, xs);
    assert table[0] == HEADERS && table[1..] == ExportRows(ads, xs);
    ReadTable(ExportText(ads, xs), table, parses);
    ExportedLinesAreFilled(ads, xs);
    LinesReturn(ads, xs, parses);
  }

  // ------------------------------------------------------------- importing an export

  /** The table's unique key: no two rows for one ad and day. */
  ghost predicate DistinctAds(ads: seq<AdRow>) {
    forall i, j :: 0 <= i < j < |ads| ==> !SameAd(ads[i], CsvOf(ads[j]))
  }

  lemma {:induction false} KnownRowStays(ads: seq<AdRow>, k: nat)
    requires DistinctAds(ads) && k < |ads|
    ensures Upsert(ads, CsvOf(ads[k])) == ads
  {
    if k > 0 {
      assert !SameAd(ads[0], CsvOf(ads[k]));
      KnownRowStays(ads[1..], k - 1);
    }
  }

  /** Importing rows the table holds changes nothing. */
  lemma {:induction false} KnownRowsStay(ads: seq<AdRow>, part: seq<AdRow>)
    requires DistinctAds(ads) && forall i :: 0 <= i < |part| ==> part[i] in ads
    ensures UpsertAll(ads, CsvRowsOf(part)) == ads
    decreases |part|
  {
    if part != [] {
      var n := |part| - 1;
      KnownRowsStay(ads, part[..n]);
      assert CsvRowsOf(part)[..n] == CsvRowsOf(part[..n]);
      var k :| 0 <= k < |ads| && ads[k] == part[n];
      KnownRowStays(ads, k);
    }
  }

  lemma {:induction false} NewRowIsAppended(ads: seq<AdRow>, a: AdRow)
    requires forall i :: 0 <= i < |ads| ==> !SameAd(ads[i], CsvOf(a))
    ensures Upsert(ads, CsvOf(a)) == ads + [a]
  {
    if ads != [] {
      NewRowIsAppended(ads[1..], a);
      assert [ads[0]] + (ads[1..] + [a]) == ads + [a];
    }
  }

  /** Imported into an empty table the rows of a table make up that table. */
  lemma {:induction false} RowsRestore(ads: seq<AdRow>)
    requires DistinctAds(ads)
    ensures UpsertAll([], CsvRowsOf(ads)) == ads
  {
    if ads != [] {
      var n := |ads| - 1;
      RowsRestore(ads[..n]);
      assert CsvRowsOf(ads)[..n] == CsvRowsOf(ads[..n]);
      NewRowIsAppended(ads[..n], ads[n]);
      assert ads[..n] + [ads[n]] == ads;
    }
  }
}
