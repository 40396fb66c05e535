/**
  Exactly when an extraction job keeps the campaign table equal to the sums of the ad
  table. A response may name an ad twice on a day, or a row without any; the aggregate
  counts both rows and the ad table holds one, or none. It may also carry amounts that
  the aggregate cuts off and the database rounds.
 */
module JobLimits {
  import opened Options
  import opened Decimals
  import opened Consolidation
  import opened CampaignSums

  // ------------------------------------------------------------- what is summed and what is stored

  /** What is added up for a campaign and day: its rows, and their four metrics. */
  datatype Column = Rows | Impressions | Clicks | Spend | Conversions

  /** A row or an ad with these metrics counts for one, or for its metric. */
  function Cell(m: Metrics, c: Column): int {
    match c
    case Rows => 1
    case Impressions => m.impressions
    case Clicks => m.clicks
    case Spend => m.spend
    case Conversions => m.conversions
  }

  /** A row as the campaign aggregate counts it. */
  function Counted(job: Job, row: ProviderRow, k: CampaignKey, c: Column): int {
    if InKey(job, row, k) then Cell(Part(job, row, k), c) else 0
  }

  /** A response as the campaign aggregate counts it. */
  function Summed(job: Job, rows: seq<ProviderRow>, k: CampaignKey, c: Column): int {
    if c.Rows? then CountOf(job, rows, k) else Cell(SumOf(job, rows, k), c)
  }

  /** A row leaves no ad behind when it names none, or a later row names the same one on that day. */
  predicate LeavesNoAd(job: Job, row: ProviderRow, later: seq<ProviderRow>) {
    !Present(row.ad) || exists j :: 0 <= j < |later| && SameAdDay(job, row, later[j])
  }

  /** A row as the ad table holds it. */
  function Kept(job: Job, row: ProviderRow, k: CampaignKey, c: Column): int {
    if InKey(job, row, k) && Present(row.ad) && Storable(PendingOf(job, row))
    then Cell(MetricsOfAd(AdOf(PendingOf(job, row))), c)
    else 0
  }

  /** What a response sums for a campaign and day beyond what it stores in the ad table. */
  function Lost(job: Job, rows: seq<ProviderRow>, k: CampaignKey, c: Column): int {
    if rows == [] then 0
    else
      Counted(job, rows[0], k, c) - (if LeavesNoAd(job, rows[0], rows[1..]) then 0 else Kept(job, rows[0], k, c))
        + Lost(job, rows[1..], k, c)
  }

  /** All a campaign's metrics are stored, and so is one of its rows if there are any. */
  predicate LosesNothing(job: Job, rows: seq<ProviderRow>, k: CampaignKey) {
    && Lost(job, rows, k, Impressions) == Lost(job, rows, k, Clicks) == 0
    && Lost(job, rows, k, Spend) == Lost(job, rows, k, Conversions) == 0
    && (CountOf(job, rows, k) > 0 ==> Lost(job, rows, k, Rows) < CountOf(job, rows, k))
  }

  /** A row that counts for a campaign lies in the range, can be summed, and can be stored if it names an ad. */
  predicate SoundRow(job: Job, row: ProviderRow) {
    Present(row.campaign) ==>
      && InRange(job, DayGroup(job, row)) && RowMetrics(row).Ok?
      && (Present(row.ad) ==> Storable(PendingOf(job, row)))
  }

  ghost predicate Sound(job: Job, rows: seq<ProviderRow>) {
    forall i :: 0 <= i < |rows| ==> SoundRow(job, rows[i])
  }

  function KeyOf(p: Pending): CampaignKey {
    CampaignKey(p.group, p.campaign)
  }

  predicate SameName(p: Pending, q: Pending) {
    p.ad == q.ad && p.group == q.group
  }

  /** The pending ad that a new one of the same ad and day overwrites. */
  function Replaced(list: seq<Pending>, p: Pending): Option<Pending> {
    if list == [] then None else if SameName(list[0], p) then Some(list[0]) else Replaced(list[1..], p)
  }

  function Share(p: Option<Pending>, k: CampaignKey, c: Column): int {
    if p.Some? && KeyOf(p.value) == k && Storable(p.value) then Cell(MetricsOfAd(AdOf(p.value)), c) else 0
  }

  /** The ads the table will hold for a campaign. */
  function Stored(list: seq<Pending>, k: CampaignKey, c: Column): int {
    if list == [] then 0 else Share(Some(list[0]), k, c) + Stored(list[1..], k, c)
  }

  lemma StoredFirst(p: Pending, rest: seq<Pending>, k: CampaignKey, c: Column)
    ensures Stored([p] + rest, k, c) == Share(Some(p), k, c) + Stored(rest, k, c)
  {
    assert ([p] + rest)[1..] == rest;
  }

  lemma ReplacedFirst(x: Pending, rest: seq<Pending>, p: Pending)
    ensures Replaced([x] + rest, p) == if SameName(x, p) then Some(x) else Replaced(rest, p)
  {
    assert ([x] + rest)[1..] == rest;
  }

  lemma {:induction false} PutStored(list: seq<Pending>, p: Pending, k: CampaignKey, c: Column)
    ensures Stored(Put(list, p), k, c) + Share(Replaced(list, p), k, c) == Stored(list, k, c) + Share(Some(p), k, c)
  {
    if list == [] {
      StoredFirst(p, [], k, c);
      assert [p] + [] == [p];
    } else if SameName(list[0], p) {
      StoredFirst(p, list[1..], k, c);
    } else {
      PutStored(list[1..], p, k, c);
      StoredFirst(list[0], Put(list[1..], p), k, c);
    }
  }

  /** An ad and day once put stay in the list until a row that names them overwrites them. */
  lemma {:induction false} PutReplaced(list: seq<Pending>, p: Pending, q: Pending)
    ensures Replaced(Put(list, p), q) == if SameName(p, q) then Some(p) else Replaced(list, q)
  {
    if list == [] {
      ReplacedFirst(p, [], q);
      assert [p] + [] == [p];
    } else if SameName(list[0], p) {
      ReplacedFirst(p, list[1..], q);
    } else {
      PutReplaced(list[1..], p, q);
      ReplacedFirst(list[0], Put(list[1..], p), q);
    }
  }

  predicate Fine(job: Job, p: Pending) {
    Storable(p) && InRange(job, p.group)
  }

  ghost predicate AllFine(job: Job, list: seq<Pending>) {
    forall i :: 0 <= i < |list| ==> Fine(job, list[i])
  }

  lemma {:induction false} PutFine(job: Job, list: seq<Pending>, p: Pending)
    requires AllFine(job, list) && Fine(job, p)
    ensures AllFine(job, Put(list, p))
  {
    if list != [] {
      assert Fine(job, list[0]);
      if !SameName(list[0], p) { PutFine(job, list[1..], p); }
    }
  }

  /** The ads of a table that count for a campaign, in the column's sense. */
  function InTable(ads: seq<AdRow>, k: CampaignKey, c: Column): int {
    if ads == [] then 0 else (if Belongs(ads[0], k) then Cell(MetricsOfAd(ads[0]), c) else 0) + InTable(ads[1..], k, c)
  }

  lemma {:induction false} StoredInTable(job: Job, list: seq<Pending>, k: CampaignKey, c: Column)
    requires AllFine(job, list)
    ensures InTable(AdsOf(list), k, c) == Stored(list, k, c)
  {
    if list != [] {
      assert Fine(job, list[0]);
      StoredInTable(job, list[1..], k, c);
      assert ([AdOf(list[0])] + AdsOf(list[1..]))[1..] == AdsOf(list[1..]);
    }
  }

  /** The table's totals are its columns. */
  lemma {:induction false} TotalsInTable(ads: seq<AdRow>, k: CampaignKey, c: Column)
    ensures !c.Rows? ==> Cell(Totals(ads, k), c) == InTable(ads, k, c)
    ensures InTable(ads, k, Rows) >= 0 && (Has(ads, k) <==> InTable(ads, k, Rows) > 0)
  {
    if ads != [] {
      TotalsInTable(ads[1..], k, c);
      TotalsFirst(ads, k);
      HasFirst(ads, k);
    }
  }

  // ------------------------------------------------------------- the rows a job loses

  /** The last row before this one of the same ad and day. */
  function Previous(job: Job, rows: seq<ProviderRow>, row: ProviderRow): Option<ProviderRow> {
    if rows == [] then None
    else
      var later := Previous(job, rows[1..], row);
      if later.Some? then later else if SameAdDay(job, rows[0], row) then Some(rows[0]) else None
  }

  lemma {:induction false} PreviousIs(job: Job, rows: seq<ProviderRow>, row: ProviderRow)
    ensures var p := Previous(job, rows, row);
            if p.Some? then p.value in rows && SameAdDay(job, p.value, row)
            else forall j :: 0 <= j < |rows| ==> !SameAdDay(job, rows[j], row)
  {
    if rows != [] { PreviousIs(job, rows[1..], row); }
  }

  lemma {:induction false} PreviousOfMore(job: Job, rows: seq<ProviderRow>, last: ProviderRow, row: ProviderRow)
    ensures Previous(job, rows + [last], row)
            == if SameAdDay(job, last, row) then Some(last) else Previous(job, rows, row)
  {
    if rows == [] {
      assert ([] + [last])[1..] == [];
    } else {
      PreviousOfMore(job, rows[1..], last, row);
      assert (rows + [last])[1..] == rows[1..] + [last];
    }
  }

  lemma LeavesNoneOfMore(job: Job, row: ProviderRow, later: seq<ProviderRow>, last: ProviderRow)
    ensures LeavesNoAd(job, row, later + [last]) <==> LeavesNoAd(job, row, later) || SameAdDay(job, row, last)
  {
    var more := later + [last];
    assert more[|later|] == last;
    assert forall j :: 0 <= j < |later| ==> more[j] == later[j];
  }

  /** What is lost through one more row: what it does not store itself, and what the ad it overwrites stored. */
  function Loss(job: Job, rows: seq<ProviderRow>, row: ProviderRow, k: CampaignKey, c: Column): int {
    var p := Previous(job, rows, row);
    Counted(job, row, k, c) - Kept(job, row, k, c)
      + (if Present(row.ad) && p.Some? then Kept(job, p.value, k, c) else 0)
  }

  lemma FirstLoss(job: Job, first: ProviderRow, rest: seq<ProviderRow>, row: ProviderRow)
    requires Present(row.ad) && SameAdDay(job, first, row)
    ensures LeavesNoAd(job, first, rest) <==> Previous(job, rest, row).Some?
  {
    PreviousIs(job, rest, row);
  }

  lemma {:induction false} LostOfMore(job: Job, rows: seq<ProviderRow>, row: ProviderRow, k: CampaignKey, c: Column)
    ensures Lost(job, rows + [row], k, c) == Lost(job, rows, k, c) + Loss(job, rows, row, k, c)
  {
    if rows == [] {
      assert [] + [row] == [row] && [row][1..] == [];
    } else {
      var first, rest := rows[0], rows[1..];
      assert (rows + [row])[1..] == rest + [row];
      LostOfMore(job, rest, row, k, c);
      LeavesNoneOfMore(job, first, rest, row);
      if Present(row.ad) && SameAdDay(job, first, row) { FirstLoss(job, first, rest, row); }
    }
  }

  lemma KeptShare(job: Job, row: ProviderRow, k: CampaignKey, c: Column)
    requires Present(row.campaign) && Present(row.ad)
    ensures Share(Some(PendingOf(job, row)), k, c) == Kept(job, row, k, c)
  {
  }

  lemma SoundCollects(job: Job, c: Collected, row: ProviderRow)
    requires SoundRow(job, row) && AllFine(job, c.ads)
    ensures CollectRow(job, c, row).Ok? && AllFine(job, CollectRow(job, c, row).value.ads)
    ensures CollectRow(job, c, row).value.ads
            == if Present(row.campaign) && Present(row.ad) then Put(c.ads, PendingOf(job, row)) else c.ads
  {
    if Present(row.campaign) && Present(row.ad) {
      PutFine(job, c.ads, PendingOf(job, row));
    }
  }

  lemma {:induction false} SoundIsCollected(job: Job, rows: seq<ProviderRow>)
    requires Sound(job, rows)
    ensures Collect(job, rows).Ok? && AllFine(job, Collect(job, rows).value.ads)
  {
    if rows != [] {
      var n := |rows| - 1;
      SoundIsCollected(job, rows[..n]);
      SoundCollects(job, Collect(job, rows[..n]).value, rows[n]);
    }
  }

  lemma CollectedUpTo(job: Job, rows: seq<ProviderRow>)
    requires rows != [] && Sound(job, rows)
    ensures var n := |rows| - 1;
            && Sound(job, rows[..n]) && Collect(job, rows[..n]).Ok? && Collect(job, rows).Ok?
            && Collect(job, rows).value.ads
               == if Present(rows[n].campaign) && Present(rows[n].ad)
                  then Put(Collect(job, rows[..n]).value.ads, PendingOf(job, rows[n]))
                  else Collect(job, rows[..n]).value.ads
  {
    var n := |rows| - 1;
    SoundIsCollected(job, rows[..n]);
    SoundCollects(job, Collect(job, rows[..n]).value, rows[n]);
  }

  function PendingOfSome(job: Job, p: Option<ProviderRow>): Option<Pending> {
    if p.Some? && Present(p.value.campaign) && Present(p.value.ad) then Some(PendingOf(job, p.value)) else None
  }

  lemma PutStep(job: Job, before: seq<Pending>, previous: Option<ProviderRow>, last: ProviderRow, row: ProviderRow)
    requires Present(row.campaign) && Present(row.ad)
    requires Replaced(before, PendingOf(job, row)) == PendingOfSome(job, previous)
    ensures var named := Present(last.campaign) && Present(last.ad);
            var after := if named then Put(before, PendingOf(job, last)) else before;
            Replaced(after, PendingOf(job, row))
            == PendingOfSome(job, if SameAdDay(job, last, row) then Some(last) else previous)
  {
    if Present(last.campaign) && Present(last.ad) {
      PutReplaced(before, PendingOf(job, last), PendingOf(job, row));
    }
  }

  /** The pending ad a row overwrites stems from the last row before it of the same ad and day. */
  lemma {:induction false} ReplacedIsPrevious(job: Job, rows: seq<ProviderRow>, row: ProviderRow)
    requires Sound(job, rows) && Present(row.campaign) && Present(row.ad) && Collect(job, rows).Ok?
    ensures Replaced(Collect(job, rows).value.ads, PendingOf(job, row)) == PendingOfSome(job, Previous(job, rows, row))
  {
    if rows != [] {
      var n := |rows| - 1;
      CollectedUpTo(job, rows);
      ReplacedIsPrevious(job, rows[..n], row);
      PutStep(job, Collect(job, rows[..n]).value.ads, Previous(job, rows[..n], row), rows[n], row);
      assert rows[..n] + [rows[n]] == rows;
      PreviousOfMore(job, rows[..n], rows[n], row);
    }
  }

  lemma ReplacedShare(job: Job, rows: seq<ProviderRow>, row: ProviderRow, k: CampaignKey, c: Column)
    requires Sound(job, rows) && Present(row.campaign) && Present(row.ad) && Collect(job, rows).Ok?
    ensures Share(Replaced(Collect(job, rows).value.ads, PendingOf(job, row)), k, c)
            == Loss(job, rows, row, k, c) - Counted(job, row, k, c) + Kept(job, row, k, c)
  {
    ReplacedIsPrevious(job, rows, row);
    PreviousIs(job, rows, row);
    var p := Previous(job, rows, row);
    if p.Some? { KeptShare(job, p.value, k, c); }
  }

  lemma NoCampaignNoLoss(job: Job, rows: seq<ProviderRow>, row: ProviderRow, k: CampaignKey, c: Column)
    requires !Present(row.campaign)
    ensures Loss(job, rows, row, k, c) == Counted(job, row, k, c) == 0
  {
    PreviousIs(job, rows, row);
  }

  /** Putting a row stores it in place of what is lost through it. */
  lemma StoreStep(job: Job, rows: seq<ProviderRow>, row: ProviderRow, k: CampaignKey, c: Column)
    requires Sound(job, rows) && Collect(job, rows).Ok?
    ensures var ads := Collect(job, rows).value.ads;
            var after := if Present(row.campaign) && Present(row.ad) then Put(ads, PendingOf(job, row)) else ads;
            Stored(after, k, c) + Loss(job, rows, row, k, c) == Stored(ads, k, c) + Counted(job, row, k, c)
  {
    if !Present(row.campaign) {
      NoCampaignNoLoss(job, rows, row, k, c);
    } else if Present(row.ad) {
      ReplacedShare(job, rows, row, k, c);
      PutStored(Collect(job, rows).value.ads, PendingOf(job, row), k, c);
      KeptShare(job, row, k, c);
    }
  }

  lemma CellOfPlus(a: Metrics, b: Metrics, c: Column)
    requires !c.Rows?
    ensures Cell(Plus(a, b), c) == Cell(a, c) + Cell(b, c)
  {
  }

  lemma SummedOfMore(job: Job, rows: seq<ProviderRow>, row: ProviderRow, k: CampaignKey, c: Column)
    ensures Summed(job, rows + [row], k, c) == Summed(job, rows, k, c) + Counted(job, row, k, c)
  {
    SumLast(job, rows, row, k);
    if !c.Rows? { CellOfPlus(SumOf(job, rows, k), Part(job, row, k), c); }
  }

  /** What is summed for a campaign is what is stored of it and what is lost of it. */
  lemma {:induction false} SummedIsStoredAndLost(job: Job, rows: seq<ProviderRow>, k: CampaignKey, c: Column)
    requires Sound(job, rows) && Collect(job, rows).Ok?
    ensures Summed(job, rows, k, c) == Stored(Collect(job, rows).value.ads, k, c) + Lost(job, rows, k, c)
  {
    if rows != [] {
      var n := |rows| - 1;
      var front, row := rows[..n], rows[n];
      assert front + [row] == rows;
      CollectedUpTo(job, rows);
      SummedIsStoredAndLost(job, front, k, c);
      LostOfMore(job, front, row, k, c);
      SummedOfMore(job, front, row, k, c);
      StoreStep(job, front, row, k, c);
    }
  }

  // ------------------------------------------------------------- when a job keeps the tables consistent

  lemma {:induction false} OutsideNothingCounts(job: Job, rows: seq<ProviderRow>, k: CampaignKey)
    requires Sound(job, rows) && !InRange(job, k.group)
    ensures CountOf(job, rows, k) == 0
  {
    if rows != [] {
      var n := |rows| - 1;
      assert SoundRow(job, rows[n]);
      OutsideNothingCounts(job, rows[..n], k);
    }
  }

  lemma SameMetrics(a: Metrics, b: Metrics)
    ensures a == b
            <==> Cell(a, Impressions) == Cell(b, Impressions) && Cell(a, Clicks) == Cell(b, Clicks)
                 && Cell(a, Spend) == Cell(b, Spend) && Cell(a, Conversions) == Cell(b, Conversions)
  {
  }

  /** A metric of the stored ads is that of the summed rows, short of those lost. */
  lemma ShortByLost(job: Job, rows: seq<ProviderRow>, k: CampaignKey, c: Column)
    requires Sound(job, rows) && Collect(job, rows).Ok?
    ensures var ads := AdsOf(Collect(job, rows).value.ads);
            && (!c.Rows? ==> Cell(SumOf(job, rows, k), c) == Cell(Totals(ads, k), c) + Lost(job, rows, k, c))
            && (Has(ads, k) <==> Lost(job, rows, k, Rows) < CountOf(job, rows, k))
  {
    var list := Collect(job, rows).value.ads;
    SoundIsCollected(job, rows);
    SummedIsStoredAndLost(job, rows, k, c);
    SummedIsStoredAndLost(job, rows, k, Rows);
    StoredInTable(job, list, k, c);
    StoredInTable(job, list, k, Rows);
    TotalsInTable(AdsOf(list), k, c);
  }

  lemma {:induction false} LostRowsAtLeastZero(job: Job, rows: seq<ProviderRow>, k: CampaignKey)
    ensures Lost(job, rows, k, Rows) >= 0
  {
    if rows != [] { LostRowsAtLeastZero(job, rows[1..], k); }
  }

  lemma NothingToAdd(job: Job, rows: seq<ProviderRow>, ads: seq<AdRow>, k: CampaignKey)
    ensures CountOf(job, rows, k) == 0 ==> SumOf(job, rows, k) == ZERO
    ensures !Has(ads, k) ==> Totals(ads, k) == ZERO
  {
    if CountOf(job, rows, k) == 0 { NoRowsNoSum(job, rows, k); }
    if !Has(ads, k) { NoAdsNoTotals(ads, k); }
  }

  /** The collected ads have the sums of the rows exactly when nothing is lost. */
  lemma StoredAsSummed(job: Job, rows: seq<ProviderRow>, k: CampaignKey)
    requires Sound(job, rows) && Collect(job, rows).Ok?
    ensures var ads := AdsOf(Collect(job, rows).value.ads);
            (Has(ads, k) <==> CountOf(job, rows, k) > 0) && SumOf(job, rows, k) == Totals(ads, k)
            <==> LosesNothing(job, rows, k)
  {
    var ads := AdsOf(Collect(job, rows).value.ads);
    LostRowsAtLeastZero(job, rows, k);
    NothingToAdd(job, rows, ads, k);
    ShortByLost(job, rows, k, Impressions);
    ShortByLost(job, rows, k, Clicks);
    ShortByLost(job, rows, k, Spend);
    ShortByLost(job, rows, k, Conversions);
    SameMetrics(SumOf(job, rows, k), Totals(ads, k));
  }

  lemma EntryInserted(campaigns: seq<CampaignRow>, list: seq<Aggregate>, k: CampaignKey)
    requires RowsOf(campaigns, k) == []
    ensures RowsOf(campaigns + CampaignsOf(list), k) == Found(list, k)
  {
    AddedCampaigns(campaigns, CampaignsOf(list), k);
    CampaignsFound(list, k);
    assert [] + Found(list, k) == Found(list, k);
  }

  lemma AdsInserted(ads: seq<AdRow>, more: seq<AdRow>, k: CampaignKey)
    requires !Has(ads, k) && Totals(ads, k) == ZERO
    ensures Has(ads + more, k) == Has(more, k) && Totals(ads + more, k) == Totals(more, k)
  {
    AddedAds(ads, more, k);
  }

  lemma OneEntryAgrees(has: bool, totals: Metrics, count: nat, sum: Metrics)
    requires (count == 0 ==> sum == ZERO) && (!has ==> totals == ZERO)
    ensures (if count == 0 then [] else [sum]) == (if has then [totals] else [])
            <==> (has <==> count > 0) && sum == totals
  {
    assert [sum][0] == sum && [totals][0] == totals;
  }

  /** Inside its range a job leaves the sums of the response's rows, and the ads it collected. */
  lemma InsideAgreesExactly(t: Tables, job: Job, rows: seq<ProviderRow>, k: CampaignKey)
    requires Agrees(t.ads, t.campaigns, k) && Sound(job, rows) && Collect(job, rows).Ok? && InRange(job, k.group)
    ensures Agrees(AfterJob(t, job, rows).ads, AfterJob(t, job, rows).campaigns, k) <==> LosesNothing(job, rows, k)
  {
    var cleared, c := Cleared(t, job), Collect(job, rows).value;
    ClearedAgrees(t, job, k);
    EntryInserted(cleared.campaigns, c.aggregates, k);
    CollectSums(job, rows, k);
    AdsInserted(cleared.ads, AdsOf(c.ads), k);
    NothingToAdd(job, rows, AdsOf(c.ads), k);
    OneEntryAgrees(Has(AdsOf(c.ads), k), Totals(AdsOf(c.ads), k), CountOf(job, rows, k), SumOf(job, rows, k));
    StoredAsSummed(job, rows, k);
  }

  lemma NothingInserted(t: Tables, c: Collected, k: CampaignKey)
    requires Agrees(t.ads, t.campaigns, k) && !Has(AdsOf(c.ads), k) && Found(c.aggregates, k) == []
    ensures Agrees(t.ads + AdsOf(c.ads), t.campaigns + CampaignsOf(c.aggregates), k)
  {
    AddedAds(t.ads, AdsOf(c.ads), k);
    NoAdsNoTotals(AdsOf(c.ads), k);
    NothingAdded(Totals(t.ads, k));
    AddedCampaigns(t.campaigns, CampaignsOf(c.aggregates), k);
    CampaignsFound(c.aggregates, k);
    assert RowsOf(t.campaigns, k) + [] == RowsOf(t.campaigns, k);
  }

  lemma OutsideAgrees(t: Tables, job: Job, rows: seq<ProviderRow>, k: CampaignKey)
    requires Agrees(t.ads, t.campaigns, k) && Sound(job, rows) && Collect(job, rows).Ok? && !InRange(job, k.group)
    ensures Agrees(AfterJob(t, job, rows).ads, AfterJob(t, job, rows).campaigns, k) && LosesNothing(job, rows, k)
  {
    var c := Collect(job, rows).value;
    OutsideNothingCounts(job, rows, k);
    CollectSums(job, rows, k);
    SoundIsCollected(job, rows);
    forall p | p in c.ads ensures InRange(job, p.group) {
      var i :| 0 <= i < |c.ads| && c.ads[i] == p;
      assert Fine(job, c.ads[i]);
    }
    StoredStayInside(c.ads, g => InRange(job, g), k);
    ClearedAgrees(t, job, k);
    NothingInserted(Cleared(t, job), c, k);
    NothingToAdd(job, rows, AdsOf(c.ads), k);
    StoredAsSummed(job, rows, k);
  }

  /**
    A job whose rows lie in its range and can be summed and stored keeps a consistent store
    consistent exactly when every campaign and day has all it sums stored in the ad table.
   */
  lemma JobIsConsistentExactly(t: Tables, job: Job, rows: seq<ProviderRow>)
    requires Consistent(t.ads, t.campaigns) && Sound(job, rows)
    ensures Consistent(AfterJob(t, job, rows).ads, AfterJob(t, job, rows).campaigns)
            <==> forall k :: LosesNothing(job, rows, k)
  {
    var after := AfterJob(t, job, rows);
    SoundIsCollected(job, rows);
    forall k ensures Agrees(after.ads, after.campaigns, k) <==> LosesNothing(job, rows, k) {
      assert Agrees(t.ads, t.campaigns, k);
      if InRange(job, k.group) {
        InsideAgreesExactly(t, job, rows, k);
      } else {
        OutsideAgrees(t, job, rows, k);
      }
    }
  }

  // ------------------------------------------------------------- responses without negative numbers

  /** Row i counts for a campaign and leaves no ad behind. */
  predicate IsLost(job: Job, rows: seq<ProviderRow>, i: nat)
    requires i < |rows|
  {
    Present(rows[i].campaign) && LeavesNoAd(job, rows[i], rows[i + 1..])
  }

  /** Row i counts for this campaign and leaves its ad behind. */
  predicate IsKept(job: Job, rows: seq<ProviderRow>, k: CampaignKey, i: nat)
    requires i < |rows|
  {
    InKey(job, rows[i], k) && !LeavesNoAd(job, rows[i], rows[i + 1..])
  }

  /** A row is stored with the numbers it is summed with, and these are not negative. */
  predicate PlainRow(job: Job, row: ProviderRow) {
    Present(row.campaign) ==>
      && SoundRow(job, row) && (Present(row.ad) ==> GoodRow(job, row))
      && forall c: Column :: Cell(RowMetrics(row).value, c) >= 0
  }

  ghost predicate AllPlainRows(job: Job, rows: seq<ProviderRow>) {
    forall i :: 0 <= i < |rows| ==> PlainRow(job, rows[i])
  }

  /** Rows that leave no ad behind have nothing but zeros. */
  ghost predicate LostAreZero(job: Job, rows: seq<ProviderRow>) {
    forall i :: 0 <= i < |rows| && IsLost(job, rows, i) ==> RowMetrics(rows[i]) == Ok(ZERO)
  }

  predicate LosesNone(job: Job, rows: seq<ProviderRow>, k: CampaignKey, c: Column, i: nat)
    requires i < |rows|
  {
    IsLost(job, rows, i) && InKey(job, rows[i], k) ==>
      RowMetrics(rows[i]).Ok? && Cell(RowMetrics(rows[i]).value, c) == 0
  }

  ghost predicate LostAreZeroAt(job: Job, rows: seq<ProviderRow>, k: CampaignKey, c: Column) {
    forall i :: 0 <= i < |rows| ==> LosesNone(job, rows, k, c, i)
  }

  ghost predicate AnyKept(job: Job, rows: seq<ProviderRow>, k: CampaignKey) {
    exists i :: 0 <= i < |rows| && IsKept(job, rows, k, i)
  }

  lemma ZeroFirst(job: Job, rows: seq<ProviderRow>, k: CampaignKey, c: Column)
    requires rows != []
    ensures LostAreZeroAt(job, rows, k, c) <==> LosesNone(job, rows, k, c, 0) && LostAreZeroAt(job, rows[1..], k, c)
  {
    forall i | 0 <= i < |rows| - 1 ensures LosesNone(job, rows, k, c, i + 1) == LosesNone(job, rows[1..], k, c, i) {
      assert rows[i + 2..] == rows[1..][i + 1..];
    }
    if LosesNone(job, rows, k, c, 0) && LostAreZeroAt(job, rows[1..], k, c) {
      forall i | 0 <= i < |rows| ensures LosesNone(job, rows, k, c, i) {
        assert i > 0 ==> LosesNone(job, rows[1..], k, c, i - 1);
      }
    }
    if LostAreZeroAt(job, rows, k, c) {
      forall i | 0 <= i < |rows| - 1 ensures LosesNone(job, rows[1..], k, c, i) {
        assert LosesNone(job, rows, k, c, i + 1);
      }
    }
  }

  lemma {:induction false} LostAtZero(job: Job, rows: seq<ProviderRow>, k: CampaignKey, c: Column)
    requires AllPlainRows(job, rows)
    ensures Lost(job, rows, k, c) >= 0 && (Lost(job, rows, k, c) == 0 <==> LostAreZeroAt(job, rows, k, c))
  {
    if rows != [] {
      assert PlainRow(job, rows[0]);
      LostAtZero(job, rows[1..], k, c);
      ZeroFirst(job, rows, k, c);
    }
  }

  lemma CountFirst(job: Job, rows: seq<ProviderRow>, k: CampaignKey)
    requires rows != []
    ensures CountOf(job, rows, k) == CountOf(job, rows[1..], k) + (if InKey(job, rows[0], k) then 1 else 0)
  {
    CampaignSums.SumWithout(job, rows, 0, k);
    assert rows[..0] + rows[0 + 1..] == rows[1..];
  }

  lemma KeptFirst(job: Job, rows: seq<ProviderRow>, k: CampaignKey)
    requires rows != []
    ensures AnyKept(job, rows, k) <==> IsKept(job, rows, k, 0) || AnyKept(job, rows[1..], k)
  {
    forall i | 0 <= i < |rows| - 1 ensures IsKept(job, rows, k, i + 1) == IsKept(job, rows[1..], k, i) {
      assert rows[i + 2..] == rows[1..][i + 1..];
    }
    if AnyKept(job, rows, k) {
      var i :| 0 <= i < |rows| && IsKept(job, rows, k, i);
      assert i > 0 ==> IsKept(job, rows[1..], k, i - 1);
    }
    if AnyKept(job, rows[1..], k) {
      var i :| 0 <= i < |rows| - 1 && IsKept(job, rows[1..], k, i);
      assert IsKept(job, rows, k, i + 1);
    }
  }

  /** A campaign keeps a row exactly when fewer are lost than counted. */
  lemma {:induction false} KeptExactly(job: Job, rows: seq<ProviderRow>, k: CampaignKey)
    requires Sound(job, rows)
    ensures Lost(job, rows, k, Rows) <= CountOf(job, rows, k)
    ensures AnyKept(job, rows, k) <==> Lost(job, rows, k, Rows) < CountOf(job, rows, k)
  {
    if rows != [] {
      assert SoundRow(job, rows[0]);
      KeptExactly(job, rows[1..], k);
      KeptFirst(job, rows, k);
      CountFirst(job, rows, k);
    }
  }

  function RowKey(job: Job, row: ProviderRow): CampaignKey
    requires Present(row.campaign)
  {
    CampaignKey(DayGroup(job, row), row.campaign.value)
  }

  /** Each campaign and day of the response leaves an ad behind. */
  ghost predicate AllKeepOne(job: Job, rows: seq<ProviderRow>) {
    forall i :: 0 <= i < |rows| && Present(rows[i].campaign) ==> AnyKept(job, rows, RowKey(job, rows[i]))
  }

  lemma {:induction false} CountedHasRow(job: Job, rows: seq<ProviderRow>, k: CampaignKey)
    ensures CountOf(job, rows, k) > 0 <==> exists i :: 0 <= i < |rows| && InKey(job, rows[i], k)
  {
    if rows != [] {
      var n := |rows| - 1;
      CountedHasRow(job, rows[..n], k);
      assert forall i :: 0 <= i < n ==> rows[..n][i] == rows[i];
    }
  }

  lemma KeepOneExactly(job: Job, rows: seq<ProviderRow>)
    ensures AllKeepOne(job, rows) <==> forall k :: CountOf(job, rows, k) > 0 ==> AnyKept(job, rows, k)
  {
    forall k ensures CountOf(job, rows, k) > 0 <==> exists i :: 0 <= i < |rows| && InKey(job, rows[i], k) {
      CountedHasRow(job, rows, k);
    }
    forall i | 0 <= i < |rows| && Present(rows[i].campaign) ensures CountOf(job, rows, RowKey(job, rows[i])) > 0 {
      assert InKey(job, rows[i], RowKey(job, rows[i]));
    }
    if AllKeepOne(job, rows) {
      forall k | CountOf(job, rows, k) > 0 ensures AnyKept(job, rows, k) {
        var i :| 0 <= i < |rows| && InKey(job, rows[i], k);
        assert RowKey(job, rows[i]) == k;
      }
    }
  }

  ghost predicate ZeroAtAll(job: Job, rows: seq<ProviderRow>, k: CampaignKey) {
    && LostAreZeroAt(job, rows, k, Impressions) && LostAreZeroAt(job, rows, k, Clicks)
    && LostAreZeroAt(job, rows, k, Spend) && LostAreZeroAt(job, rows, k, Conversions)
  }

  lemma LostAreZeroExactly(job: Job, rows: seq<ProviderRow>)
    requires AllPlainRows(job, rows)
    ensures LostAreZero(job, rows) <==> forall k :: ZeroAtAll(job, rows, k)
  {
    if forall k :: ZeroAtAll(job, rows, k) {
      forall i | 0 <= i < |rows| && IsLost(job, rows, i) ensures RowMetrics(rows[i]) == Ok(ZERO) {
        var k := RowKey(job, rows[i]);
        assert ZeroAtAll(job, rows, k);
        assert LosesNone(job, rows, k, Impressions, i) && LosesNone(job, rows, k, Clicks, i);
        assert LosesNone(job, rows, k, Spend, i) && LosesNone(job, rows, k, Conversions, i);
        SameMetrics(RowMetrics(rows[i]).value, ZERO);
      }
    }
  }

  /**
    A job over rows that are stored as they are summed, without negative numbers, keeps a
    consistent store consistent exactly when the rows that leave no ad behind have nothing
    but zeros and each campaign and day keeps an ad.
   */
  lemma NonNegativeJobIsConsistentExactly(t: Tables, job: Job, rows: seq<ProviderRow>)
    requires Consistent(t.ads, t.campaigns) && AllPlainRows(job, rows)
    ensures Consistent(AfterJob(t, job, rows).ads, AfterJob(t, job, rows).campaigns)
            <==> LostAreZero(job, rows) && AllKeepOne(job, rows)
  {
    forall i | 0 <= i < |rows| ensures SoundRow(job, rows[i]) {
      assert PlainRow(job, rows[i]);
    }
    JobIsConsistentExactly(t, job, rows);
    forall k
      ensures LosesNothing(job, rows, k)
              <==> ZeroAtAll(job, rows, k) && (CountOf(job, rows, k) > 0 ==> AnyKept(job, rows, k))
    {
      LostAtZero(job, rows, k, Impressions);
      LostAtZero(job, rows, k, Clicks);
      LostAtZero(job, rows, k, Spend);
      LostAtZero(job, rows, k, Conversions);
      KeptExactly(job, rows, k);
    }
    LostAreZeroExactly(job, rows);
    KeepOneExactly(job, rows);
  }

  lemma OneRowLost(job: Job, row: ProviderRow, k: CampaignKey, c: Column)
    ensures Lost(job, [row], k, c) == Counted(job, row, k, c) - Kept(job, row, k, c)
    ensures CountOf(job, [row], k) == if InKey(job, row, k) then 1 else 0
  {
    assert [row][1..] == [] && [row][..0] == [];
    assert LeavesNoAd(job, row, []) == !Present(row.ad);
  }

  lemma SoundIsGood(job: Job, row: ProviderRow, k: CampaignKey)
    requires SoundRow(job, row) && InKey(job, row, k)
    ensures GoodRow(job, row) <==> Present(row.ad) && MetricsOfAd(AdOf(PendingOf(job, row))) == RowMetrics(row).value
  {
  }

  lemma OneRowLoses(job: Job, row: ProviderRow, k: CampaignKey)
    requires SoundRow(job, row)
    ensures LosesNothing(job, [row], k) <==> GoodRow(job, row) || !InKey(job, row, k)
  {
    OneRowLost(job, row, k, Rows);
    OneRowLost(job, row, k, Impressions);
    OneRowLost(job, row, k, Clicks);
    OneRowLost(job, row, k, Spend);
    OneRowLost(job, row, k, Conversions);
    if InKey(job, row, k) {
      SoundIsGood(job, row, k);
      if Present(row.ad) { SameMetrics(MetricsOfAd(AdOf(PendingOf(job, row))), RowMetrics(row).value); }
    }
  }

  /** A job over one row keeps the tables consistent exactly when the row names an ad and is stored as it is summed. */
  lemma OneRowIsConsistentExactly(t: Tables, job: Job, row: ProviderRow)
    requires Consistent(t.ads, t.campaigns) && SoundRow(job, row)
    ensures Consistent(AfterJob(t, job, [row]).ads, AfterJob(t, job, [row]).campaigns) <==> GoodRow(job, row)
  {
    JobIsConsistentExactly(t, job, [row]);
    forall k ensures LosesNothing(job, [row], k) <==> GoodRow(job, row) || !InKey(job, row, k) {
      OneRowLoses(job, row, k);
    }
    if Present(row.campaign) {
      assert InKey(job, row, RowKey(job, row));
      assert LosesNothing(job, [row], RowKey(job, row)) <==> GoodRow(job, row);
    }
  }

  // ------------------------------------------------------------- responses that count impressions

  /** All rows are good, and those that count have impressions. */
  ghost predicate CountedResponse(job: Job, rows: seq<ProviderRow>) {
    forall i :: 0 <= i < |rows| ==> GoodRow(job, rows[i]) && (Present(rows[i].campaign) ==> rows[i].impressions > 0)
  }

  /** No ad is named twice on a day by rows that count. */
  ghost predicate NoAdTwice(job: Job, rows: seq<ProviderRow>) {
    forall i, j :: 0 <= i < j < |rows| ==> !SameAdDay(job, rows[i], rows[j])
  }

  lemma {:induction false} LostImpressions(job: Job, rows: seq<ProviderRow>, i: nat, k: CampaignKey)
    requires CountedResponse(job, rows)
    ensures Lost(job, rows, k, Impressions) >= 0
    ensures i < |rows| && IsLost(job, rows, i) && InKey(job, rows[i], k) ==> Lost(job, rows, k, Impressions) > 0
  {
    if rows != [] {
      assert GoodRow(job, rows[0]);
      LostImpressions(job, rows[1..], if i == 0 then 0 else i - 1, k);
      assert 0 < i < |rows| ==> rows[i + 1..] == rows[1..][i..];
    }
  }

  lemma CountedIsSound(job: Job, rows: seq<ProviderRow>)
    requires CountedResponse(job, rows)
    ensures Sound(job, rows)
  {
    forall i | 0 <= i < |rows| ensures SoundRow(job, rows[i]) {
      assert GoodRow(job, rows[i]);
    }
  }

  lemma RepeatIsLost(job: Job, rows: seq<ProviderRow>, i: nat, j: nat)
    requires i < j < |rows| && SameAdDay(job, rows[i], rows[j])
    ensures IsLost(job, rows, i)
  {
    assert rows[i + 1..][j - i - 1] == rows[j];
  }

  /** A response that names an ad twice on a day sums impressions it does not store. */
  lemma RepeatLoses(job: Job, rows: seq<ProviderRow>, i: nat, j: nat) returns (k: CampaignKey)
    requires CountedResponse(job, rows) && i < j < |rows| && SameAdDay(job, rows[i], rows[j])
    ensures !LosesNothing(job, rows, k)
  {
    k := RowKey(job, rows[i]);
    RepeatIsLost(job, rows, i, j);
    LostImpressions(job, rows, i, k);
  }

  /**
    On a response of good rows that count impressions, a job keeps a consistent store
    consistent exactly when no ad is named twice on a day.
   */
  lemma CountedJobIsConsistentExactly(t: Tables, job: Job, rows: seq<ProviderRow>)
    requires Consistent(t.ads, t.campaigns) && CountedResponse(job, rows)
    ensures Consistent(AfterJob(t, job, rows).ads, AfterJob(t, job, rows).campaigns) <==> NoAdTwice(job, rows)
  {
    if NoAdTwice(job, rows) {
      JobKeepsConsistency(t, job, rows);
    } else {
      var i, j :| 0 <= i < j < |rows| && SameAdDay(job, rows[i], rows[j]);
      var k := RepeatLoses(job, rows, i, j);
      CountedIsSound(job, rows);
      JobIsConsistentExactly(t, job, rows);
    }
  }

  /** A response that names an ad twice on a day is summed twice but stored once. */
  lemma RepeatedAdBreaksConsistency(job: Job, row: ProviderRow)
    requires GoodRow(job, row) && Present(row.campaign) && row.impressions > 0
    ensures !Consistent(AfterJob(Tables([], []), job, [row, row]).ads,
                        AfterJob(Tables([], []), job, [row, row]).campaigns)
  {
    assert SameAdDay(job, [row, row][0], [row, row][1]);
    CountedJobIsConsistentExactly(Tables([], []), job, [row, row]);
  }
}
