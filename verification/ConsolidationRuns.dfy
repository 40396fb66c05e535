/**
  The two writers as they run, and what any sequence of their runs keeps: the campaign
  table holds exactly the per-day sums of the ad table.
 */
module ConsolidationRuns {
  import opened AdCsv
  import opened Consolidation
  import Csv
  import opened Decimals
  import opened Options
  import opened Text

  // ------------------------------------------------------------- the import

  /** The keys of the rebuilt groups, each once. */
  function AffectedKeys(rows: seq<CsvRow>): seq<string> {
    if rows == [] then []
    else
      var front, key := AffectedKeys(rows[..|rows| - 1]), KeyText(rows[|rows| - 1].group);
      if key in front then front else front + [key]
  }

  function GroupsOf(keys: seq<string>): seq<Group> {
    seq(|keys|, i requires 0 <= i < |keys| => GroupOfText(keys[i]))
  }

  /** The number of rows saved before one whose metadata_json does not parse. */
  function Saved(rows: seq<CsvRow>): (n: nat)
    ensures n <= |rows|
  {
    if rows == [] || !rows[0].metadataOk then 0 else 1 + Saved(rows[1..])
  }

  /**
    The tables after an import of mapped rows; one bad metadata cell leaves the rows before
    it saved and nothing rebuilt.
   */
  function AfterImport(t: Tables, rows: seq<CsvRow>): Tables {
    var ads := UpsertAll(t.ads, rows[..Saved(rows)]);
    Tables(ads, if Saved(rows) < |rows| then t.campaigns
           else RebuildAll(ads, t.campaigns, GroupsOf(AffectedKeys(rows))))
  }

  // ------------------------------------------------------------- the writers

  class MarketingTables {
    var ads: seq<AdRow>
    var campaigns: seq<CampaignRow>

    ghost function State(): Tables
      reads this
    {
      Tables(ads, campaigns)
    }

    constructor ()
      ensures State() == Tables([], [])
    {
      ads, campaigns := [], [];
    }

    /** processGoogleJob and processMetaJob: clear the range, aggregate, insert campaigns, insert ads. */
    method ProcessJob(job: Job, rows: seq<ProviderRow>) returns (r: Result<nat, JobError>)
      modifies this
      ensures State() == AfterJob(old(State()), job, rows)
      ensures r.Ok? <==> Collect(job, rows).Ok? && AllStorable(Collect(job, rows).value.ads)
      ensures r == Err(BadNumber) <==> Collect(job, rows).Err?
    {
      ads := KeepAds(ads, g => InRange(job, g));
      campaigns := KeepCampaigns(campaigns, g => InRange(job, g));
      var acc := Collected([], []);
      for i := 0 to |rows|
        invariant Collect(job, rows[..i]) == Ok(acc)
        invariant State() == Cleared(old(State()), job)
      {
        assert rows[..i + 1][..i] == rows[..i];
        var step := CollectRow(job, acc, rows[i]);
        if step.Err? {
          CollectStops(job, rows, i + 1);
          return Err(BadNumber);
        }
        acc := step.value;
      }
      assert rows[..|rows|] == rows;
      campaigns := campaigns + CampaignsOf(acc.aggregates);
      var saved := InsertAds(acc.ads);
      r := if saved == |acc.ads| then Ok(saved) else Err(RejectedByDatabase);
    }

    method InsertAds(list: seq<Pending>) returns (saved: nat)
      modifies this`ads
      ensures ads == old(ads) + AdsOf(list)
      ensures saved <= |list| && (saved == |list| <==> AllStorable(list))
    {
      saved := 0;
      while saved < |list| && Storable(list[saved])
        invariant saved <= |list|
        invariant ads + AdsOf(list[saved..]) == old(ads) + AdsOf(list)
        invariant forall i :: 0 <= i < saved ==> Storable(list[i])
      {
        assert list[saved..][1..] == list[saved + 1..];
        AppendFirst(ads, AdOf(list[saved]), AdsOf(list[saved + 1..]));
        ads := ads + [AdOf(list[saved])];
        saved := saved + 1;
      }
    }

    /** The loop over the required columns; it stops at the first that the header line lacks. */
    static method LookForMissing(required: seq<string>, headers: seq<string>) returns (missing: Option<string>)
      ensures missing == FirstMissing(required, headers)
    {
      for i := 0 to |required|
        invariant FirstMissing(required, headers) == FirstMissing(required[i..], headers)
      {
        assert required[i..][1..] == required[i + 1..];
        if required[i] !in headers {
          return Some(required[i]);
        }
      }
      missing := None;
    }

    /** importAdPerformanceCsv; `parses` tells which metadata_json texts are JSON. */
    method ImportAdPerformanceCsv(content: string, providerOverride: Option<string>, parses: string -> bool)
      returns (r: Result<nat, ImportError>)
      modifies this
      ensures var read := ReadFile(content, providerOverride, parses);
              match read
              case Err(e) => State() == old(State()) && r == Err(e)
              case Ok(rows) => State() == AfterImport(old(State()), rows)
                               && r == if Saved(rows) == |rows| then Ok(|rows|) else Err(BadMetadata)
    {
      var rows := Csv.ParseCsv(content);
      if rows == [] {
        return Err(NoFile);
      }
      var headers := TrimmedCells(rows[0]);
      var missing := LookForMissing(REQUIRED, headers);
      if missing.Some? {
        return Err(MissingColumn(missing.value));
      }
      var mapped := MapRows(FilledRows(rows[1..]), MapLine(headers, providerOverride, parses));
      if mapped.Err? {
        return Err(mapped.error);
      }
      if mapped.value == [] {
        return Err(NoRows);
      }
      r := ImportRows(mapped.value);
    }

    method ImportRows(rows: seq<CsvRow>) returns (r: Result<nat, ImportError>)
      modifies this
      ensures State() == AfterImport(old(State()), rows)
      ensures r == if Saved(rows) == |rows| then Ok(|rows|) else Err(BadMetadata)
    {
      var keys := SaveRows(rows);
      if keys.None? {
        return Err(BadMetadata);
      }
      assert rows[..|rows|] == rows;
      RebuildCampaigns(GroupsOf(keys.value));
      r := Ok(|rows|);
    }

    /** The loop that saves the rows and notes the groups they touch; it stops at metadata that does not parse. */
    method SaveRows(rows: seq<CsvRow>) returns (affected: Option<seq<string>>)
      modifies this`ads
      ensures ads == UpsertAll(old(ads), rows[..Saved(rows)])
      ensures affected == if Saved(rows) == |rows| then Some(AffectedKeys(rows)) else None
    {
      var keys: seq<string> := [];
      var i := 0;
      while i < |rows|
        invariant i <= |rows| && (forall j :: 0 <= j < i ==> rows[j].metadataOk)
        invariant ads == UpsertAll(old(ads), rows[..i])
        invariant keys == AffectedKeys(rows[..i])
      {
        assert rows[..i + 1][..i] == rows[..i];
        if !rows[i].metadataOk {
          SavedUpTo(rows, i);
          return None;
        }
        ads := Upsert(ads, rows[i]);
        var key := KeyText(rows[i].group);
        if key !in keys {
          keys := keys + [key];
        }
        i := i + 1;
      }
      SavedUpTo(rows, |rows|);
      assert rows[..|rows|] == rows;
      affected := Some(keys);
    }

    /** rebuildCampaignPerformanceFromAdRows */
    method RebuildCampaigns(groups: seq<Group>)
      modifies this`campaigns
      ensures campaigns == RebuildAll(ads, old(campaigns), groups)
    {
      for k := 0 to |groups|
        invariant campaigns == RebuildAll(ads, old(campaigns), groups[..k])
      {
        assert groups[..k + 1][..k] == groups[..k];
        campaigns := RebuildOne(ads, campaigns, groups[k]);
      }
      assert groups[..|groups|] == groups;
    }
  }

  lemma AppendFirst(a: seq<AdRow>, x: AdRow, b: seq<AdRow>)
    ensures a + [x] + b == a + ([x] + b)
  {
  }

  lemma {:induction false} CollectStops(job: Job, rows: seq<ProviderRow>, i: nat)
    requires i <= |rows| && Collect(job, rows[..i]).Err?
    ensures Collect(job, rows).Err?
    decreases |rows|
  {
    if i < |rows| {
      assert rows[..|rows| - 1][..i] == rows[..i];
      CollectStops(job, rows[..|rows| - 1], i);
    } else {
      assert rows[..i] == rows;
    }
  }

  lemma {:induction false} SavedUpTo(rows: seq<CsvRow>, i: nat)
    requires i <= |rows| && (forall j :: 0 <= j < i ==> rows[j].metadataOk)
    requires i < |rows| ==> !rows[i].metadataOk
    ensures Saved(rows) == i
  {
    if i > 0 { SavedUpTo(rows[1..], i - 1); }
  }

  // ------------------------------------------------------------- consistency

  /** Key parts without a bar, and metadata that parses. */
  ghost predicate GoodImport(rows: seq<CsvRow>) {
    forall i :: 0 <= i < |rows| ==>
      rows[i].metadataOk && NoBar(rows[i].group.provider) && NoBar(rows[i].group.account) && NoBar(rows[i].group.date)
  }

  lemma {:induction false} KeyIsAffected(rows: seq<CsvRow>, i: nat)
    requires i < |rows|
    ensures KeyText(rows[i].group) in AffectedKeys(rows)
  {
    var n := |rows| - 1;
    if i < n {
      KeyIsAffected(rows[..n], i);
    }
  }

  /** Every group of the rows is rebuilt. */
  lemma GroupIsRebuilt(rows: seq<CsvRow>, i: nat)
    requires GoodImport(rows) && i < |rows|
    ensures rows[i].group in GroupsOf(AffectedKeys(rows))
  {
    var keys := AffectedKeys(rows);
    KeyIsAffected(rows, i);
    KeySurvives(rows[i].group);
    var k :| 0 <= k < |keys| && keys[k] == KeyText(rows[i].group);
    assert GroupsOf(keys)[k] == rows[i].group;
  }

  /** An import whose keys hold no bar and whose metadata parses keeps the tables consistent. */
  lemma ImportKeepsConsistency(t: Tables, rows: seq<CsvRow>)
    requires Consistent(t.ads, t.campaigns) && GoodImport(rows)
    ensures Consistent(AfterImport(t, rows).ads, AfterImport(t, rows).campaigns)
  {
    SavedUpTo(rows, |rows|);
    assert rows[..|rows|] == rows;
    var after, groups := AfterImport(t, rows), GroupsOf(AffectedKeys(rows));
    forall k ensures Agrees(after.ads, after.campaigns, k) {
      assert Agrees(t.ads, t.campaigns, k);
      RebuildAgrees(after.ads, t.campaigns, groups, k);
      if k.group !in groups {
        forall i | 0 <= i < |rows| ensures rows[i].group != k.group {
          GroupIsRebuilt(rows, i);
        }
        UpsertAllElsewhere(t.ads, rows, |rows|, k);
      }
    }
  }

  // ------------------------------------------------------------- runs

  datatype Event = Extract(job: Job, rows: seq<ProviderRow>) | Import(csv: seq<CsvRow>)

  function After(t: Tables, e: Event): Tables {
    match e
    case Extract(job, rows) => AfterJob(t, job, rows)
    case Import(rows) => AfterImport(t, rows)
  }

  ghost predicate GoodEvent(e: Event) {
    match e
    case Extract(job, rows) => GoodResponse(job, rows) || Collect(job, rows).Err?
    case Import(rows) => GoodImport(rows)
  }

  function AfterAll(events: seq<Event>): Tables {
    if events == [] then Tables([], []) else After(AfterAll(events[..|events| - 1]), events[|events| - 1])
  }

  /**
    From empty tables, any sequence of good jobs and imports leaves the campaign table equal
    to the sums of the ad table.
   */
  lemma {:induction false} RunsStayConsistent(events: seq<Event>)
    requires forall i :: 0 <= i < |events| ==> GoodEvent(events[i])
    ensures Consistent(AfterAll(events).ads, AfterAll(events).campaigns)
  {
    if events != [] {
      var n := |events| - 1;
      RunsStayConsistent(events[..n]);
      var t := AfterAll(events[..n]);
      assert GoodEvent(events[n]);
      match events[n]
      case Extract(job, rows) => JobKeepsConsistency(t, job, rows);
      case Import(rows) => ImportKeepsConsistency(t, rows);
    }
  }

  // ------------------------------------------------------------- what makes a row good

  /** Plain decimals with a seventh decimal below five, if any. */
  predicate CleanDecimal(d: Plain) {
    PlainOk(d) && (|d.fraction| <= SCALE || d.fraction[SCALE] < '5')
  }

  /** The text of such a decimal. */
  ghost predicate CleanText(s: string) {
    exists d: Plain :: CleanDecimal(d) && PlainText(d) == s
  }

  ghost predicate CleanConversions(c: Option<string>) {
    c.Some? ==> CleanText(c.value)
  }

  lemma CleanTextIsKept(s: string)
    requires CleanText(s)
    ensures ScaledInt(Some(s)).Ok? && DbNumeric(s) == ScaledInt(Some(s))
  {
    var d: Plain :| CleanDecimal(d) && PlainText(d) == s;
    StoredEqualsAggregated(d);
    ScaledIntOfPlain(d);
  }

  lemma ZeroIsKept()
    ensures DbNumeric("0") == Ok(0)
  {
    var d := Plain(false, "0", false, "");
    assert PlainOk(d) && PlainText(d) == "0";
    StoredEqualsAggregated(d);
    ScaledIntOfPlain(d);
    assert NatOf("0") == 0;
  }

  lemma CleanConversionsAreKept(c: Option<string>)
    requires CleanConversions(c)
    ensures ScaledInt(c).Ok? && StoredConversions(c).Ok?
    ensures StoredConversions(c).value.GetOr(0) == ScaledInt(c).value
  {
    if c.Some? { CleanTextIsKept(c.value); }
  }

  /** A Google row with a cost of zero or more micros and no or clean conversions is good. */
  lemma GoogleRowIsGood(job: Job, row: ProviderRow, micros: int)
    requires row.spend == CostMicros(micros) && micros >= 0 && CleanConversions(row.conversions)
    requires Present(row.campaign) && Present(row.ad) && InRange(job, DayGroup(job, row))
    ensures GoodRow(job, row)
  {
    MicrosTextAgrees(micros);
    StoredScaledText(micros);
    CleanConversionsAreKept(row.conversions);
  }

  /** A Meta row with no or a clean cost and no or clean conversions is good. */
  lemma MetaRowIsGood(job: Job, row: ProviderRow, spend: Option<string>)
    requires row.spend == Decimal(spend) && (spend.Some? ==> CleanText(spend.value))
             && CleanConversions(row.conversions)
    requires Present(row.campaign) && Present(row.ad) && InRange(job, DayGroup(job, row))
    ensures GoodRow(job, row)
  {
    if spend.Some? { CleanTextIsKept(spend.value); } else { ZeroIsKept(); }
    CleanConversionsAreKept(row.conversions);
  }

  /** What a response row must be by its own texts: ids, date, sign and decimals. */
  ghost predicate CleanRow(job: Job, row: ProviderRow) {
    Present(row.campaign) ==>
      && Present(row.ad) && InRange(job, DayGroup(job, row)) && CleanConversions(row.conversions)
      && match row.spend
         case CostMicros(m) => m >= 0
         case Decimal(text) => text.Some? ==> CleanText(text.value)
  }

  lemma CleanRowIsGood(job: Job, row: ProviderRow)
    requires CleanRow(job, row)
    ensures GoodRow(job, row)
  {
    if Present(row.campaign) {
      match row.spend
      case CostMicros(m) => GoogleRowIsGood(job, row, m);
      case Decimal(text) => MetaRowIsGood(job, row, text);
    }
  }

  ghost predicate CleanEvent(e: Event) {
    match e
    case Extract(job, rows) =>
      && (forall i :: 0 <= i < |rows| ==> CleanRow(job, rows[i]))
      && (forall i, j :: 0 <= i < j < |rows| ==> !SameAdDay(job, rows[i], rows[j]))
    case Import(rows) => GoodImport(rows)
  }

  /** The same over runs, told of the texts of responses and files alone. */
  lemma CleanRunsStayConsistent(events: seq<Event>)
    requires forall i :: 0 <= i < |events| ==> CleanEvent(events[i])
    ensures Consistent(AfterAll(events).ads, AfterAll(events).campaigns)
  {
    forall i | 0 <= i < |events| ensures GoodEvent(events[i]) {
      assert CleanEvent(events[i]);
      if events[i].Extract? {
        forall k | 0 <= k < |events[i].rows| ensures GoodRow(events[i].job, events[i].rows[k]) {
          CleanRowIsGood(events[i].job, events[i].rows[k]);
        }
      }
    }
    RunsStayConsistent(events);
  }

  // ------------------------------------------------------------- importing an export

  /** Portable rows whose provider and account hold no bar. */
  ghost predicate Reimportable(ads: seq<AdRow>) {
    AllPortable(ads) && forall i :: 0 <= i < |ads| ==> NoBar(ads[i].group.provider) && NoBar(ads[i].group.account)
  }

  lemma IsoDateHasNoBar(s: string)
    requires IsoDate(s)
    ensures NoBar(s)
  {
    forall i | 0 <= i < |s| ensures s[i] != '|' {
      if i < 4 {
        assert s[i] == s[..4][i];
      } else if 5 <= i < 7 {
        assert s[i] == s[5..7][i - 5];
      } else if i >= 8 {
        assert s[i] == s[8..][i - 8];
      }
    }
  }

  lemma ExportIsGoodImport(ads: seq<AdRow>)
    requires Reimportable(ads)
    ensures GoodImport(CsvRowsOf(ads)) && Saved(CsvRowsOf(ads)) == |ads|
  {
    forall i | 0 <= i < |ads| ensures NoBar(ads[i].group.date) {
      IsoDateHasNoBar(ads[i].group.date);
    }
    SavedUpTo(CsvRowsOf(ads), |ads|);
  }

  lemma AdsAfterImport(t: Tables, rows: seq<CsvRow>)
    requires Saved(rows) == |rows|
    ensures AfterImport(t, rows).ads == UpsertAll(t.ads, rows)
  {
    assert rows[..|rows|] == rows;
  }

  /**
    Exporting any rows of the ad table and importing the file again leaves the ad table as
    it is and the sums right.
   */
  lemma ReimportChangesNothing(t: Tables, part: seq<AdRow>, xs: seq<Extra>, parses: string -> bool)
    requires Consistent(t.ads, t.campaigns) && DistinctAds(t.ads)
    requires part != [] && Reimportable(part) && forall i :: 0 <= i < |part| ==> part[i] in t.ads
    requires |part| == |xs| && MetadataParses(xs, parses)
    ensures var read := ReadFile(ExportText(part, xs), None, parses);
            && read.Ok? && Saved(read.value) == |part|
            && AfterImport(t, read.value).ads == t.ads
            && Consistent(AfterImport(t, read.value).ads, AfterImport(t, read.value).campaigns)
  {
    ExportReadsBack(part, xs, parses);
    ExportIsGoodImport(part);
    KnownRowsStay(t.ads, part);
    AdsAfterImport(t, CsvRowsOf(part));
    ImportKeepsConsistency(t, CsvRowsOf(part));
  }

  /** Imported into empty tables, the export of an ad table restores it, and the campaign sums with it. */
  lemma ExportRestores(ads: seq<AdRow>, xs: seq<Extra>, parses: string -> bool)
    requires ads != [] && DistinctAds(ads) && Reimportable(ads)
    requires |ads| == |xs| && MetadataParses(xs, parses)
    ensures var read := ReadFile(ExportText(ads, xs), None, parses);
            && read.Ok? && Saved(read.value) == |ads|
            && AfterImport(Tables([], []), read.value).ads == ads
            && Consistent(ads, AfterImport(Tables([], []), read.value).campaigns)
  {
    ExportReadsBack(ads, xs, parses);
    ExportIsGoodImport(ads);
    RowsRestore(ads);
    AdsAfterImport(Tables([], []), CsvRowsOf(ads));
    ImportKeepsConsistency(Tables([], []), CsvRowsOf(ads));
  }
}
