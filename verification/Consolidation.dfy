/**
  The consolidated marketing tables: ads per day, and campaigns per day derived from
  them by two unrelated writers, the provider extraction jobs and the CSV import.
  Money and conversions are micro-units, as a numeric(18,6) column holds them. A job
  replaces its range of days; an import overwrites rows and rebuilds the groups it touched.
 */
module Consolidation {
  import opened Options
  import opened Text
  import opened Decimals

  datatype Metrics = Metrics(impressions: int, clicks: int, spend: int, conversions: int)

  const ZERO := Metrics(0, 0, 0, 0)

  function Plus(a: Metrics, b: Metrics): Metrics {
    Metrics(a.impressions + b.impressions, a.clicks + b.clicks, a.spend + b.spend, a.conversions + b.conversions)
  }

  /** provider, external_account_id and report_date: what a CSV import rebuilds. */
  datatype Group = Group(provider: string, account: string, date: string)

  datatype CampaignKey = CampaignKey(group: Group, campaign: string)

  /** A row of marketing_ad_daily_performance; a null conversion count reads as none. */
  datatype AdRow = AdRow(group: Group, ad: string, campaign: Option<string>, impressions: int, clicks: int, spend: int,
                         conversions: Option<int>)

  /** A row of marketing_campaign_daily_performance. */
  datatype CampaignRow = CampaignRow(key: CampaignKey, impressions: int, clicks: int, spend: int,
                                     conversions: Option<int>)

  function MetricsOfAd(r: AdRow): Metrics {
    Metrics(r.impressions, r.clicks, r.spend, r.conversions.GetOr(0))
  }

  function MetricsOfCampaign(r: CampaignRow): Metrics {
    Metrics(r.impressions, r.clicks, r.spend, r.conversions.GetOr(0))
  }

  predicate Belongs(r: AdRow, k: CampaignKey) {
    r.group == k.group && r.campaign == Some(k.campaign)
  }

  // ------------------------------------------------------------- the relation between the tables

  /** Whether a campaign has an ad on that day. */
  predicate Has(ads: seq<AdRow>, k: CampaignKey) {
    ads != [] && (Has(ads[..|ads| - 1], k) || Belongs(ads[|ads| - 1], k))
  }

  /** The sums over a campaign's ads of a day. */
  function Totals(ads: seq<AdRow>, k: CampaignKey): Metrics {
    if ads == [] then ZERO
    else
      var t := Totals(ads[..|ads| - 1], k);
      if Belongs(ads[|ads| - 1], k) then Plus(t, MetricsOfAd(ads[|ads| - 1])) else t
  }

  /** All rows the campaign table holds under a key. */
  function RowsOf(campaigns: seq<CampaignRow>, k: CampaignKey): seq<Metrics> {
    if campaigns == [] then []
    else
      var front := RowsOf(campaigns[..|campaigns| - 1], k);
      if campaigns[|campaigns| - 1].key == k then front + [MetricsOfCampaign(campaigns[|campaigns| - 1])] else front
  }

  /** Exactly one row with the sums for a campaign that has ads, none otherwise. */
  predicate Agrees(ads: seq<AdRow>, campaigns: seq<CampaignRow>, k: CampaignKey) {
    RowsOf(campaigns, k) == if Has(ads, k) then [Totals(ads, k)] else []
  }

  ghost predicate Consistent(ads: seq<AdRow>, campaigns: seq<CampaignRow>) {
    forall k :: Agrees(ads, campaigns, k)
  }

  // ------------------------------------------------------------- deleting rows

  function KeepAds(ads: seq<AdRow>, gone: Group -> bool): seq<AdRow> {
    if ads == [] then []
    else
      var front := KeepAds(ads[..|ads| - 1], gone);
      if gone(ads[|ads| - 1].group) then front else front + [ads[|ads| - 1]]
  }

  function KeepCampaigns(campaigns: seq<CampaignRow>, gone: Group -> bool): seq<CampaignRow> {
    if campaigns == [] then []
    else
      var front := KeepCampaigns(campaigns[..|campaigns| - 1], gone);
      if gone(campaigns[|campaigns| - 1].key.group) then front else front + [campaigns[|campaigns| - 1]]
  }

  lemma {:induction false} KeptAds(ads: seq<AdRow>, gone: Group -> bool, k: CampaignKey)
    ensures Has(KeepAds(ads, gone), k) == (Has(ads, k) && !gone(k.group))
    ensures Totals(KeepAds(ads, gone), k) == if gone(k.group) then ZERO else Totals(ads, k)
  {
    if ads != [] {
      var n := |ads| - 1;
      KeptAds(ads[..n], gone, k);
      var front := KeepAds(ads[..n], gone);
      assert (front + [ads[n]])[..|front|] == front;
    }
  }

  lemma {:induction false} KeptCampaigns(campaigns: seq<CampaignRow>, gone: Group -> bool, k: CampaignKey)
    ensures RowsOf(KeepCampaigns(campaigns, gone), k) == if gone(k.group) then [] else RowsOf(campaigns, k)
  {
    if campaigns != [] {
      var n := |campaigns| - 1;
      KeptCampaigns(campaigns[..n], gone, k);
      var front := KeepCampaigns(campaigns[..n], gone);
      assert (front + [campaigns[n]])[..|front|] == front;
    }
  }

  // ------------------------------------------------------------- adding rows

  lemma {:induction false} AddedAds(a: seq<AdRow>, b: seq<AdRow>, k: CampaignKey)
    ensures Has(a + b, k) == (Has(a, k) || Has(b, k))
    ensures Totals(a + b, k) == Plus(Totals(a, k), Totals(b, k))
  {
    if b == [] {
      assert a + b == a;
    } else {
      var n := |b| - 1;
      AddedAds(a, b[..n], k);
      assert (a + b)[..|a + b| - 1] == a + b[..n];
    }
  }

  lemma {:induction false} AddedCampaigns(a: seq<CampaignRow>, b: seq<CampaignRow>, k: CampaignKey)
    ensures RowsOf(a + b, k) == RowsOf(a, k) + RowsOf(b, k)
  {
    if b == [] {
      assert a + b == a;
    } else {
      var n := |b| - 1;
      AddedCampaigns(a, b[..n], k);
      assert (a + b)[..|a + b| - 1] == a + b[..n];
    }
  }

  lemma {:induction false} NoAdsNoTotals(ads: seq<AdRow>, k: CampaignKey)
    requires !Has(ads, k)
    ensures Totals(ads, k) == ZERO
  {
    if ads != [] { NoAdsNoTotals(ads[..|ads| - 1], k); }
  }

  // ------------------------------------------------------------- the provider's rows

  datatype Amount = CostMicros(micros: int) | Decimal(text: Option<string>)

  /** One row of a Google or Meta response. */
  datatype ProviderRow = ProviderRow(
    campaign: Option<string>, ad: Option<string>, date: Option<string>,
    impressions: int, clicks: int, spend: Amount, conversions: Option<string>)

  datatype Job = Job(provider: string, account: string, dateFrom: string, dateTo: string)

  datatype JobError = BadNumber | RejectedByDatabase

  /** An id counts only when it is there and not empty. */
  predicate Present(id: Option<string>) {
    id.Some? && id.value != ""
  }

  function DayGroup(job: Job, row: ProviderRow): Group {
    Group(job.provider, job.account, row.date.GetOr(job.dateFrom))
  }

  /** What the campaign aggregate adds for a row's cost. */
  function AggregatedSpend(a: Amount): Result<int, NumberError> {
    match a
    case CostMicros(m) => Ok(m)
    case Decimal(text) => ScaledInt(text)
  }

  /** What the ad table holds for a row's cost. */
  function StoredSpend(a: Amount): Result<int, NumberError> {
    match a
    case CostMicros(m) => DbNumeric(MicrosText(m))
    case Decimal(text) => DbNumeric(text.GetOr("0"))
  }

  function StoredConversions(c: Option<string>): Result<Option<int>, NumberError> {
    if c.None? then Ok(None)
    else
      var r := DbNumeric(c.value);
      if r.Ok? then Ok(Some(r.value)) else Err(r.error)
  }

  /** The aggregate of one campaign and day. */
  datatype Aggregate = Aggregate(key: CampaignKey, metrics: Metrics)

  function AddTo(list: seq<Aggregate>, key: CampaignKey, m: Metrics): seq<Aggregate> {
    if list == [] then [Aggregate(key, m)]
    else if list[0].key == key then [Aggregate(key, Plus(list[0].metrics, m))] + list[1..]
    else [list[0]] + AddTo(list[1..], key, m)
  }

  /** An ad's pending row: its database values are known, or the database will reject it. */
  datatype Pending = Pending(group: Group, ad: string, campaign: string, impressions: int, clicks: int,
                             spend: Result<int, NumberError>, conversions: Result<Option<int>, NumberError>)

  /** Map.set under the key ad:date. */
  function Put(list: seq<Pending>, p: Pending): seq<Pending> {
    if list == [] then [p]
    else if list[0].ad == p.ad && list[0].group == p.group then [p] + list[1..]
    else [list[0]] + Put(list[1..], p)
  }

  function PendingOf(job: Job, row: ProviderRow): Pending
    requires Present(row.campaign) && Present(row.ad)
  {
    Pending(DayGroup(job, row), row.ad.value, row.campaign.value, row.impressions, row.clicks,
            StoredSpend(row.spend), StoredConversions(row.conversions))
  }

  function RowMetrics(row: ProviderRow): Result<Metrics, NumberError> {
    var spend, conversions := AggregatedSpend(row.spend), ScaledInt(row.conversions);
    if spend.Err? || conversions.Err? then Err(NotANumber)
    else Ok(Metrics(row.impressions, row.clicks, spend.value, conversions.value))
  }

  datatype Collected = Collected(aggregates: seq<Aggregate>, ads: seq<Pending>)

  function CollectRow(job: Job, acc: Collected, row: ProviderRow): Result<Collected, JobError> {
    if !Present(row.campaign) then Ok(acc)
    else
      var m := RowMetrics(row);
      if m.Err? then Err(BadNumber)
      else
        var aggregates := AddTo(acc.aggregates, CampaignKey(DayGroup(job, row), row.campaign.value), m.value);
        Ok(Collected(aggregates, if Present(row.ad) then Put(acc.ads, PendingOf(job, row)) else acc.ads))
  }

  function Collect(job: Job, rows: seq<ProviderRow>): Result<Collected, JobError> {
    if rows == [] then Ok(Collected([], []))
    else
      var front := Collect(job, rows[..|rows| - 1]);
      if front.Err? then front else CollectRow(job, front.value, rows[|rows| - 1])
  }

  /** scaledIntToOptionalDecimalString: zero is stored as null. */
  function CampaignOf(a: Aggregate): CampaignRow {
    CampaignRow(a.key, a.metrics.impressions, a.metrics.clicks, a.metrics.spend,
                if a.metrics.conversions == 0 then None else Some(a.metrics.conversions))
  }

  function CampaignsOf(list: seq<Aggregate>): seq<CampaignRow> {
    if list == [] then [] else [CampaignOf(list[0])] + CampaignsOf(list[1..])
  }

  predicate Storable(p: Pending) {
    p.spend.Ok? && p.conversions.Ok?
  }

  function AdOf(p: Pending): AdRow
    requires Storable(p)
  {
    AdRow(p.group, p.ad, Some(p.campaign), p.impressions, p.clicks, p.spend.value, p.conversions.value)
  }

  /** The rows the database takes before the first one it rejects. */
  function AdsOf(list: seq<Pending>): seq<AdRow> {
    if list == [] || !Storable(list[0]) then [] else [AdOf(list[0])] + AdsOf(list[1..])
  }

  ghost predicate AllStorable(list: seq<Pending>) {
    forall i :: 0 <= i < |list| ==> Storable(list[i])
  }

  /** report_date BETWEEN date_from AND date_to, on ISO dates. */
  predicate NotAfter(a: string, b: string) {
    a == "" || (b != "" && (a[0] < b[0] || (a[0] == b[0] && NotAfter(a[1..], b[1..]))))
  }

  predicate InRange(job: Job, g: Group) {
    g.provider == job.provider && g.account == job.account && NotAfter(job.dateFrom, g.date)
        && NotAfter(g.date, job.dateTo)
  }

  // ------------------------------------------------------------- the CSV rows

  /** A row of the import after mapCsvRow; `metadataOk` tells whether its metadata_json parses. */
  datatype CsvRow = CsvRow(group: Group, ad: string, campaign: Option<string>, impressions: int, clicks: int,
                           spend: int, conversions: Option<int>, metadataOk: bool)

  function AdFromCsv(r: CsvRow): AdRow {
    AdRow(r.group, r.ad, r.campaign, r.impressions, r.clicks, r.spend, r.conversions)
  }

  /** Saving over a stored row leaves a column alone for which the import has no value. */
  function Overwritten(a: AdRow, r: CsvRow): AdRow {
    AdRow(r.group, r.ad, if r.campaign.Some? then r.campaign else a.campaign, r.impressions, r.clicks, r.spend,
          if r.conversions.Some? then r.conversions else a.conversions)
  }

  predicate SameAd(a: AdRow, r: CsvRow) {
    a.group == r.group && a.ad == r.ad
  }

  /** findOne, then save: the first row of that ad and day is overwritten, or a new one appended. */
  function Upsert(ads: seq<AdRow>, r: CsvRow): seq<AdRow> {
    if ads == [] then [AdFromCsv(r)]
    else if SameAd(ads[0], r) then [Overwritten(ads[0], r)] + ads[1..]
    else [ads[0]] + Upsert(ads[1..], r)
  }

  function UpsertAll(ads: seq<AdRow>, rows: seq<CsvRow>): seq<AdRow> {
    if rows == [] then ads else Upsert(UpsertAll(ads, rows[..|rows| - 1]), rows[|rows| - 1])
  }

  /** GROUP BY external_campaign_id over one group's ads. */
  function GroupBy(ads: seq<AdRow>, g: Group): seq<Aggregate> {
    if ads == [] then []
    else
      var front, last := GroupBy(ads[..|ads| - 1], g), ads[|ads| - 1];
      if last.group == g && last.campaign.Some?
      then AddTo(front, CampaignKey(g, last.campaign.value), MetricsOfAd(last))
      else front
  }

  /** Whether any of a campaign's ads has a conversion count; without one the sum's text is '0'. */
  predicate AnyConversions(ads: seq<AdRow>, k: CampaignKey) {
    ads != [] && (AnyConversions(ads[..|ads| - 1], k)
                  || (Belongs(ads[|ads| - 1], k) && ads[|ads| - 1].conversions.Some?))
  }

  function RebuiltOf(ads: seq<AdRow>, list: seq<Aggregate>): seq<CampaignRow> {
    if list == [] then []
    else
      var key, m := list[0].key, list[0].metrics;
      [CampaignRow(key, m.impressions, m.clicks, m.spend,
                   if AnyConversions(ads, key) then Some(m.conversions) else None)]
      + RebuiltOf(ads, list[1..])
  }

  function RebuildOne(ads: seq<AdRow>, campaigns: seq<CampaignRow>, g: Group): seq<CampaignRow> {
    KeepCampaigns(campaigns, x => x == g) + RebuiltOf(ads, GroupBy(ads, g))
  }

  function RebuildAll(ads: seq<AdRow>, campaigns: seq<CampaignRow>, groups: seq<Group>): seq<CampaignRow> {
    if groups == [] then campaigns
    else RebuildOne(ads, RebuildAll(ads, campaigns, groups[..|groups| - 1]), groups[|groups| - 1])
  }

  // ------------------------------------------------------------- aggregates

  /** The metrics a list of aggregates holds under a key. */
  function Found(list: seq<Aggregate>, k: CampaignKey): seq<Metrics> {
    if list == [] then []
    else (if list[0].key == k then [list[0].metrics] else []) + Found(list[1..], k)
  }

  function Added(found: seq<Metrics>, m: Metrics): seq<Metrics> {
    if found == [] then [m] else [Plus(found[0], m)] + found[1..]
  }

  lemma {:induction false} AddToFound(list: seq<Aggregate>, key: CampaignKey, m: Metrics, k: CampaignKey)
    ensures Found(AddTo(list, key, m), k) == if k == key then Added(Found(list, k), m) else Found(list, k)
  {
    if list != [] && list[0].key != key {
      AddToFound(list[1..], key, m, k);
    }
  }

  lemma {:induction false} CampaignsFound(list: seq<Aggregate>, k: CampaignKey)
    ensures RowsOf(CampaignsOf(list), k) == Found(list, k)
  {
    if list != [] {
      CampaignsFound(list[1..], k);
      AddedCampaigns([CampaignOf(list[0])], CampaignsOf(list[1..]), k);
      assert RowsOf([CampaignOf(list[0])], k) == if list[0].key == k then [list[0].metrics] else [];
    }
  }

  // ------------------------------------------------------------- the rebuild

  lemma {:induction false} GroupByFound(ads: seq<AdRow>, g: Group, k: CampaignKey)
    ensures Found(GroupBy(ads, g), k) == if k.group == g && Has(ads, k) then [Totals(ads, k)] else []
  {
    if ads != [] {
      var front, last := ads[..|ads| - 1], ads[|ads| - 1];
      GroupByFound(front, g, k);
      if last.group == g && last.campaign.Some? {
        AddToFound(GroupBy(front, g), CampaignKey(g, last.campaign.value), MetricsOfAd(last), k);
        if !Has(front, k) { NoAdsNoTotals(front, k); }
      }
    }
  }

  /** Without any conversion count the sum is zero, so storing null loses nothing. */
  lemma {:induction false} NoConversionsSumToZero(ads: seq<AdRow>, k: CampaignKey)
    requires !AnyConversions(ads, k)
    ensures Totals(ads, k).conversions == 0
  {
    if ads != [] { NoConversionsSumToZero(ads[..|ads| - 1], k); }
  }

  lemma {:induction false} RebuiltFound(ads: seq<AdRow>, list: seq<Aggregate>, k: CampaignKey)
    requires !AnyConversions(ads, k) ==> forall m :: m in Found(list, k) ==> m.conversions == 0
    ensures RowsOf(RebuiltOf(ads, list), k) == Found(list, k)
  {
    if list != [] {
      var rest := Found(list[1..], k);
      assert forall m :: m in rest ==> m in Found(list, k);
      assert list[0].key == k ==> Found(list, k)[0] == list[0].metrics;
      RebuiltFound(ads, list[1..], k);
      AddedCampaigns([RebuiltOf(ads, list)[0]], RebuiltOf(ads, list[1..]), k);
      assert RowsOf([RebuiltOf(ads, list)[0]], k) == if list[0].key == k then [list[0].metrics] else [];
    }
  }

  lemma RebuiltGroup(ads: seq<AdRow>, campaigns: seq<CampaignRow>, g: Group, k: CampaignKey)
    ensures RowsOf(RebuildOne(ads, campaigns, g), k)
            == if k.group != g then RowsOf(campaigns, k) else if Has(ads, k) then [Totals(ads, k)] else []
  {
    GroupByFound(ads, g, k);
    if !AnyConversions(ads, k) { NoConversionsSumToZero(ads, k); }
    RebuiltFound(ads, GroupBy(ads, g), k);
    KeptCampaigns(campaigns, x => x == g, k);
    AddedCampaigns(KeepCampaigns(campaigns, x => x == g), RebuiltOf(ads, GroupBy(ads, g)), k);
  }

  /** The rebuild puts the groups it names right and leaves every other group alone. */
  lemma {:induction false} RebuildAgrees(ads: seq<AdRow>, campaigns: seq<CampaignRow>, groups: seq<Group>,
                                         k: CampaignKey)
    ensures k.group in groups ==> Agrees(ads, RebuildAll(ads, campaigns, groups), k)
    ensures k.group !in groups ==> RowsOf(RebuildAll(ads, campaigns, groups), k) == RowsOf(campaigns, k)
  {
    if groups != [] {
      var n := |groups| - 1;
      RebuildAgrees(ads, campaigns, groups[..n], k);
      RebuiltGroup(ads, RebuildAll(ads, campaigns, groups[..n]), groups[n], k);
      assert k.group in groups <==> k.group == groups[n] || k.group in groups[..n];
    }
  }

  lemma {:induction false} UpsertElsewhere(ads: seq<AdRow>, r: CsvRow, k: CampaignKey)
    requires k.group != r.group
    ensures Has(Upsert(ads, r), k) == Has(ads, k) && Totals(Upsert(ads, r), k) == Totals(ads, k)
  {
    if ads == [] {
      assert Upsert(ads, r)[..0] == [];
    } else if SameAd(ads[0], r) {
      assert ads == [ads[0]] + ads[1..];
      AddedAds([ads[0]], ads[1..], k);
      AddedAds([Overwritten(ads[0], r)], ads[1..], k);
    } else {
      UpsertElsewhere(ads[1..], r, k);
      assert ads == [ads[0]] + ads[1..];
      AddedAds([ads[0]], ads[1..], k);
      AddedAds([ads[0]], Upsert(ads[1..], r), k);
    }
  }

  lemma UpsertedUpTo(ads: seq<AdRow>, rows: seq<CsvRow>, n: nat)
    requires 1 <= n <= |rows|
    ensures UpsertAll(ads, rows[..n]) == Upsert(UpsertAll(ads, rows[..n - 1]), rows[n - 1])
  {
    assert rows[..n][..n - 1] == rows[..n - 1];
  }

  lemma {:induction false} UpsertAllElsewhere(ads: seq<AdRow>, rows: seq<CsvRow>, n: nat, k: CampaignKey)
    requires n <= |rows| && forall i :: 0 <= i < n ==> rows[i].group != k.group
    ensures Has(UpsertAll(ads, rows[..n]), k) == Has(ads, k)
    ensures Totals(UpsertAll(ads, rows[..n]), k) == Totals(ads, k)
  {
    if n > 0 {
      UpsertAllElsewhere(ads, rows, n - 1, k);
      UpsertedUpTo(ads, rows, n);
      UpsertElsewhere(UpsertAll(ads, rows[..n - 1]), rows[n - 1], k);
    }
  }

  // ------------------------------------------------------------- affected keys as text

  predicate NoBar(s: string) {
    forall i :: 0 <= i < |s| ==> s[i] != '|'
  }

  function KeyText(g: Group): string {
    g.provider + "|" + g.account + "|" + g.date
  }

  function BeforeBar(s: string): string {
    if s == "" || s[0] == '|' then "" else [s[0]] + BeforeBar(s[1..])
  }

  function AfterBar(s: string): string {
    if s == "" then "" else if s[0] == '|' then s[1..] else AfterBar(s[1..])
  }

  /** const [provider, externalAccountId, reportDate] = key.split('|') */
  function GroupOfText(key: string): Group {
    Group(BeforeBar(key), BeforeBar(AfterBar(key)), BeforeBar(AfterBar(AfterBar(key))))
  }

  lemma {:induction false} BeforeBarHasNone(s: string)
    ensures NoBar(BeforeBar(s))
  {
    if s != "" && s[0] != '|' { BeforeBarHasNone(s[1..]); }
  }

  lemma {:induction false} BarSplits(a: string, b: string)
    requires NoBar(a)
    ensures BeforeBar(a + "|" + b) == a && AfterBar(a + "|" + b) == b && BeforeBar(a) == a
  {
    var s := a + "|" + b;
    if a == "" {
      assert s[0] == '|' && s[1..] == b;
    } else {
      BarSplits(a[1..], b);
      assert s[1..] == a[1..] + "|" + b;
    }
  }

  /** A group comes back from its key's text exactly when none of its parts holds a bar. */
  lemma KeySurvives(g: Group)
    ensures GroupOfText(KeyText(g)) == g <==> NoBar(g.provider) && NoBar(g.account) && NoBar(g.date)
  {
    BeforeBarHasNone(KeyText(g));
    BeforeBarHasNone(AfterBar(KeyText(g)));
    BeforeBarHasNone(AfterBar(AfterBar(KeyText(g))));
    if NoBar(g.provider) && NoBar(g.account) && NoBar(g.date) {
      assert KeyText(g) == g.provider + "|" + (g.account + "|" + g.date);
      BarSplits(g.provider, g.account + "|" + g.date);
      BarSplits(g.account, g.date);
      BarSplits(g.date, "");
    }
  }

  // ------------------------------------------------------------- extraction jobs

  datatype Tables = Tables(ads: seq<AdRow>, campaigns: seq<CampaignRow>)

  function Cleared(t: Tables, job: Job): Tables {
    Tables(KeepAds(t.ads, g => InRange(job, g)), KeepCampaigns(t.campaigns, g => InRange(job, g)))
  }

  /** The tables after a job: the range is deleted first, and stays deleted if a number does not parse. */
  function AfterJob(t: Tables, job: Job, rows: seq<ProviderRow>): Tables {
    var c := Collect(job, rows);
    var cleared := Cleared(t, job);
    if c.Err? then cleared
    else Tables(cleared.ads + AdsOf(c.value.ads), cleared.campaigns + CampaignsOf(c.value.aggregates))
  }

  /**
    Rows that count for a campaign name an ad, lie in the job's range, and carry numbers the
    database stores as they are summed.
   */
  predicate GoodRow(job: Job, row: ProviderRow) {
    Present(row.campaign) ==>
      && Present(row.ad) && InRange(job, DayGroup(job, row))
      && AggregatedSpend(row.spend).Ok? && StoredSpend(row.spend) == AggregatedSpend(row.spend)
      && ScaledInt(row.conversions).Ok?
      && StoredConversions(row.conversions).Ok?
      && StoredConversions(row.conversions).value.GetOr(0) == ScaledInt(row.conversions).value
  }

  predicate SameAdDay(job: Job, a: ProviderRow, b: ProviderRow) {
    Present(a.campaign) && Present(b.campaign) && a.ad == b.ad && DayGroup(job, a) == DayGroup(job, b)
  }

  /** A response whose rows are good and name each ad at most once a day. */
  ghost predicate GoodResponse(job: Job, rows: seq<ProviderRow>) {
    && (forall i :: 0 <= i < |rows| ==> GoodRow(job, rows[i]))
    && (forall i, j :: 0 <= i < j < |rows| ==> !SameAdDay(job, rows[i], rows[j]))
  }

  /** The pending ads stem from the rows, can all be stored and lie in the range. */
  ghost predicate FromRows(job: Job, rows: seq<ProviderRow>, list: seq<Pending>) {
    forall p :: p in list ==>
      && Storable(p) && InRange(job, p.group)
      && exists i :: 0 <= i < |rows| && Present(rows[i].campaign) && rows[i].ad == Some(p.ad)
          && DayGroup(job, rows[i]) == p.group
  }

  lemma {:induction false} PutAppends(list: seq<Pending>, p: Pending)
    requires forall x :: x in list ==> !(x.ad == p.ad && x.group == p.group)
    ensures Put(list, p) == list + [p]
  {
    if list != [] {
      assert list[0] in list;
      PutAppends(list[1..], p);
      assert list == [list[0]] + list[1..];
    }
  }

  lemma {:induction false} AdsOfAppend(list: seq<Pending>, p: Pending)
    requires Storable(p) && forall x :: x in list ==> Storable(x)
    ensures AdsOf(list + [p]) == AdsOf(list) + [AdOf(p)]
  {
    if list == [] {
      assert [p][1..] == [];
    } else {
      assert list[0] in list;
      assert (list + [p])[1..] == list[1..] + [p];
      AdsOfAppend(list[1..], p);
    }
  }

  /** Aggregates and ads move in step. */
  predicate InStep(c: Collected, k: CampaignKey) {
    var ads := AdsOf(c.ads);
    Found(c.aggregates, k) == if Has(ads, k) then [Totals(ads, k)] else []
  }

  lemma OneMoreAd(ads: seq<AdRow>, x: AdRow, k: CampaignKey)
    ensures Has(ads + [x], k) == (Has(ads, k) || Belongs(x, k))
    ensures Totals(ads + [x], k) == if Belongs(x, k) then Plus(Totals(ads, k), MetricsOfAd(x)) else Totals(ads, k)
  {
    assert (ads + [x])[..|ads|] == ads;
  }

  lemma HasFirst(ads: seq<AdRow>, k: CampaignKey)
    requires ads != []
    ensures Has(ads, k) == (Belongs(ads[0], k) || Has(ads[1..], k))
  {
    assert ads == [ads[0]] + ads[1..];
    AddedAds([ads[0]], ads[1..], k);
    OneMoreAd([], ads[0], k);
    assert [] + [ads[0]] == [ads[0]];
  }

  lemma TotalsFirst(ads: seq<AdRow>, k: CampaignKey)
    requires ads != []
    ensures Totals(ads, k)
            == if Belongs(ads[0], k) then Plus(MetricsOfAd(ads[0]), Totals(ads[1..], k)) else Totals(ads[1..], k)
  {
    assert ads == [ads[0]] + ads[1..];
    AddedAds([ads[0]], ads[1..], k);
    OneMoreAd([], ads[0], k);
    assert [] + [ads[0]] == [ads[0]];
  }

  lemma CollectStep(job: Job, rows: seq<ProviderRow>, c: Collected, row: ProviderRow)
    requires GoodRow(job, row) && FromRows(job, rows, c.ads)
    requires forall i :: 0 <= i < |rows| ==> !SameAdDay(job, rows[i], row)
    ensures CollectRow(job, c, row).Ok?
    ensures !Present(row.campaign) ==> CollectRow(job, c, row).value == c
    ensures Present(row.campaign) ==>
              var p, r := PendingOf(job, row), CollectRow(job, c, row).value;
              && Storable(p) && InRange(job, p.group)
              && r == Collected(AddTo(c.aggregates, CampaignKey(p.group, p.campaign), MetricsOfAd(AdOf(p))),
                                c.ads + [p])
  {
    if Present(row.campaign) {
      var p := PendingOf(job, row);
      forall x | x in c.ads ensures !(x.ad == p.ad && x.group == p.group) {
        var i :| 0 <= i < |rows| && Present(rows[i].campaign) && rows[i].ad == Some(x.ad)
            && DayGroup(job, rows[i]) == x.group;
        assert !SameAdDay(job, rows[i], row);
      }
      PutAppends(c.ads, p);
    }
  }

  lemma StepInStep(c: Collected, p: Pending, k: CampaignKey)
    requires Storable(p) && forall x :: x in c.ads ==> Storable(x)
    requires InStep(c, k)
    ensures InStep(Collected(AddTo(c.aggregates, CampaignKey(p.group, p.campaign), MetricsOfAd(AdOf(p))), c.ads + [p]),
                   k)
  {
    AdsOfAppend(c.ads, p);
    OneMoreAd(AdsOf(c.ads), AdOf(p), k);
    AddToFound(c.aggregates, CampaignKey(p.group, p.campaign), MetricsOfAd(AdOf(p)), k);
    if !Has(AdsOf(c.ads), k) { NoAdsNoTotals(AdsOf(c.ads), k); }
  }

  lemma {:induction false} CollectInStep(job: Job, rows: seq<ProviderRow>)
    requires GoodResponse(job, rows)
    ensures Collect(job, rows).Ok?
    ensures FromRows(job, rows, Collect(job, rows).value.ads)
    ensures forall k :: InStep(Collect(job, rows).value, k)
  {
    if rows == [] {
    } else {
      var n := |rows| - 1;
      var front, row := rows[..n], rows[n];
      assert forall i :: 0 <= i < n ==> front[i] == rows[i];
      CollectInStep(job, front);
      var c := Collect(job, front).value;
      CollectStep(job, front, c, row);
      if Present(row.campaign) {
        var p := PendingOf(job, row);
        FromRowsGrows(job, rows, c.ads, p);
        forall k ensures InStep(CollectRow(job, c, row).value, k) {
          StepInStep(c, p, k);
        }
      } else {
        FromRowsKeeps(job, rows, c.ads);
      }
    }
  }

  lemma FromRowsKeeps(job: Job, rows: seq<ProviderRow>, list: seq<Pending>)
    requires rows != [] && FromRows(job, rows[..|rows| - 1], list)
    ensures FromRows(job, rows, list)
  {
    var front := rows[..|rows| - 1];
    forall p | p in list
      ensures exists i ::
                && 0 <= i < |rows| && Present(rows[i].campaign) && rows[i].ad == Some(p.ad)
                && DayGroup(job, rows[i]) == p.group
    {
      var i :| 0 <= i < |front| && Present(front[i].campaign) && front[i].ad == Some(p.ad)
          && DayGroup(job, front[i]) == p.group;
      assert rows[i] == front[i];
    }
  }

  lemma FromRowsGrows(job: Job, rows: seq<ProviderRow>, list: seq<Pending>, p: Pending)
    requires rows != [] && FromRows(job, rows[..|rows| - 1], list)
    requires var row := rows[|rows| - 1]; Present(row.campaign) && Present(row.ad) && p == PendingOf(job, row)
    requires Storable(p) && InRange(job, p.group)
    ensures FromRows(job, rows, list + [p])
  {
    FromRowsKeeps(job, rows, list);
    var i := |rows| - 1;
    assert Present(rows[i].campaign) && rows[i].ad == Some(p.ad) && DayGroup(job, rows[i]) == p.group;
  }

  lemma {:induction false} HasInside(ads: seq<AdRow>, inside: Group -> bool, k: CampaignKey)
    requires forall x :: x in ads ==> inside(x.group)
    ensures Has(ads, k) ==> inside(k.group)
  {
    if ads != [] {
      assert ads[|ads| - 1] in ads;
      HasInside(ads[..|ads| - 1], inside, k);
    }
  }

  lemma {:induction false} AdsOfInside(list: seq<Pending>, inside: Group -> bool)
    requires forall i :: 0 <= i < |list| ==> inside(list[i].group)
    ensures forall x :: x in AdsOf(list) ==> inside(x.group)
  {
    if list != [] && Storable(list[0]) {
      AdsOfInside(list[1..], inside);
    }
  }

  lemma StoredStayInside(list: seq<Pending>, inside: Group -> bool, k: CampaignKey)
    requires forall p :: p in list ==> inside(p.group)
    ensures Has(AdsOf(list), k) ==> inside(k.group)
  {
    AdsOfInside(list, inside);
    HasInside(AdsOf(list), inside, k);
  }

  lemma ClearedAgrees(t: Tables, job: Job, k: CampaignKey)
    requires Agrees(t.ads, t.campaigns, k)
    ensures Agrees(Cleared(t, job).ads, Cleared(t, job).campaigns, k)
    ensures InRange(job, k.group) ==> !Has(Cleared(t, job).ads, k) && Totals(Cleared(t, job).ads, k) == ZERO
  {
    KeptAds(t.ads, g => InRange(job, g), k);
    KeptCampaigns(t.campaigns, g => InRange(job, g), k);
  }

  lemma JobAgrees(t: Tables, job: Job, c: Collected, k: CampaignKey)
    requires Agrees(t.ads, t.campaigns, k) && InStep(c, k)
    requires Has(AdsOf(c.ads), k) ==> InRange(job, k.group)
    ensures Agrees(Cleared(t, job).ads + AdsOf(c.ads), Cleared(t, job).campaigns + CampaignsOf(c.aggregates), k)
  {
    ClearedAgrees(t, job, k);
    AddedAds(Cleared(t, job).ads, AdsOf(c.ads), k);
    AddedCampaigns(Cleared(t, job).campaigns, CampaignsOf(c.aggregates), k);
    CampaignsFound(c.aggregates, k);
    if !Has(AdsOf(c.ads), k) { NoAdsNoTotals(AdsOf(c.ads), k); }
  }

  /** A job over a good response, or one that stops at a number it cannot parse, keeps the tables consistent. */
  lemma JobKeepsConsistency(t: Tables, job: Job, rows: seq<ProviderRow>)
    requires Consistent(t.ads, t.campaigns)
    requires GoodResponse(job, rows) || Collect(job, rows).Err?
    ensures Consistent(AfterJob(t, job, rows).ads, AfterJob(t, job, rows).campaigns)
  {
    var after := AfterJob(t, job, rows);
    if Collect(job, rows).Err? {
      forall k ensures Agrees(after.ads, after.campaigns, k) {
        ClearedAgrees(t, job, k);
      }
    } else {
      CollectInStep(job, rows);
      var c := Collect(job, rows).value;
      forall k ensures Agrees(after.ads, after.campaigns, k) {
        assert Agrees(t.ads, t.campaigns, k) && InStep(c, k);
        StoredStayInside(c.ads, g => InRange(job, g), k);
        JobAgrees(t, job, c, k);
      }
    }
  }
}
