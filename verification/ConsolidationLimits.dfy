/**
  Exactly when a CSV import keeps the campaign table equal to the sums of the ad table: it
  may stop at metadata that does not parse, and rebuild groups whose keys hold a bar.
 */
module ConsolidationLimits {
  import opened Options
  import opened Decimals
  import opened Consolidation
  import opened ConsolidationRuns

  // ------------------------------------------------------------- imports

  /** Key parts without a bar. */
  ghost predicate BarFree(rows: seq<CsvRow>) {
    forall i :: 0 <= i < |rows| ==>
      NoBar(rows[i].group.provider) && NoBar(rows[i].group.account) && NoBar(rows[i].group.date)
  }

  ghost predicate SameAt(a: seq<AdRow>, b: seq<AdRow>, k: CampaignKey) {
    Has(a, k) == Has(b, k) && (Has(a, k) ==> Totals(a, k) == Totals(b, k))
  }

  /** Every campaign has the same sums in both. */
  ghost predicate SameSums(a: seq<AdRow>, b: seq<AdRow>) {
    forall k :: SameAt(a, b, k)
  }

  lemma {:induction false} SavedAreOk(rows: seq<CsvRow>, i: nat)
    requires i < Saved(rows)
    ensures rows[i].metadataOk
  {
    if i > 0 { SavedAreOk(rows[1..], i - 1); }
  }

  /** A campaign table that agrees with one ad table agrees with another exactly when the sums are the same. */
  lemma AgreesWithBoth(a: seq<AdRow>, b: seq<AdRow>, campaigns: seq<CampaignRow>, k: CampaignKey)
    requires Agrees(a, campaigns, k)
    ensures Agrees(b, campaigns, k) <==> SameAt(b, a, k)
  {
    if Has(a, k) && Has(b, k) {
      assert [Totals(a, k)][0] == Totals(a, k) && [Totals(b, k)][0] == Totals(b, k);
    }
  }

  lemma ConsistentWithBoth(a: seq<AdRow>, b: seq<AdRow>, campaigns: seq<CampaignRow>)
    requires Consistent(a, campaigns)
    ensures Consistent(b, campaigns) <==> SameSums(b, a)
  {
    forall k ensures Agrees(b, campaigns, k) <==> SameAt(b, a, k) {
      assert Agrees(a, campaigns, k);
      AgreesWithBoth(a, b, campaigns, k);
    }
  }

  lemma AllSavedIsGood(rows: seq<CsvRow>)
    requires BarFree(rows) && Saved(rows) == |rows|
    ensures GoodImport(rows)
  {
    forall i | 0 <= i < |rows| ensures rows[i].metadataOk {
      SavedAreOk(rows, i);
    }
  }

  /** The tables after an import that stopped at bad metadata: nothing is rebuilt. */
  lemma StoppedImport(t: Tables, rows: seq<CsvRow>)
    requires Saved(rows) < |rows|
    ensures AfterImport(t, rows) == Tables(UpsertAll(t.ads, rows[..Saved(rows)]), t.campaigns)
  {
  }

  /** No part of a group's key holds a bar. */
  predicate BarFreeGroup(g: Group) {
    NoBar(g.provider) && NoBar(g.account) && NoBar(g.date)
  }

  lemma RebuiltHaveNoBar(keys: seq<string>, g: Group)
    requires g in GroupsOf(keys)
    ensures BarFreeGroup(g)
  {
    var i :| 0 <= i < |keys| && GroupsOf(keys)[i] == g;
    BeforeBarHasNone(keys[i]);
    BeforeBarHasNone(AfterBar(keys[i]));
    BeforeBarHasNone(AfterBar(AfterBar(keys[i])));
  }

  lemma BarFreeIsRebuilt(rows: seq<CsvRow>, i: nat)
    requires i < |rows| && BarFreeGroup(rows[i].group)
    ensures rows[i].group in GroupsOf(AffectedKeys(rows))
  {
    var keys := AffectedKeys(rows);
    KeyIsAffected(rows, i);
    KeySurvives(rows[i].group);
    var k :| 0 <= k < |keys| && keys[k] == KeyText(rows[i].group);
    assert GroupsOf(keys)[k] == rows[i].group;
  }

  lemma UntouchedIsSame(ads: seq<AdRow>, rows: seq<CsvRow>, k: CampaignKey)
    requires k.group !in GroupsOf(AffectedKeys(rows)) && BarFreeGroup(k.group)
    ensures SameAt(UpsertAll(ads, rows), ads, k)
  {
    forall i | 0 <= i < |rows| ensures rows[i].group != k.group {
      if rows[i].group == k.group { BarFreeIsRebuilt(rows, i); }
    }
    UpsertAllElsewhere(ads, rows, |rows|, k);
    assert rows[..|rows|] == rows;
  }

  /** A rebuild over ads puts right the groups it names, and these have no bars. */
  lemma RebuildAgreesExactly(was: seq<AdRow>, campaigns: seq<CampaignRow>, rows: seq<CsvRow>, k: CampaignKey)
    requires Agrees(was, campaigns, k)
    ensures var ads, groups := UpsertAll(was, rows), GroupsOf(AffectedKeys(rows));
            Agrees(ads, RebuildAll(ads, campaigns, groups), k) <==> BarFreeGroup(k.group) || SameAt(ads, was, k)
  {
    var ads, groups := UpsertAll(was, rows), GroupsOf(AffectedKeys(rows));
    RebuildAgrees(ads, campaigns, groups, k);
    if k.group in groups {
      RebuiltHaveNoBar(AffectedKeys(rows), k.group);
    } else {
      AgreesWithBoth(was, ads, campaigns, k);
      if BarFreeGroup(k.group) { UntouchedIsSame(was, rows, k); }
    }
  }

  /** Whether an import brings the campaigns of a group up to date. */
  predicate Rebuilds(rows: seq<CsvRow>, g: Group) {
    Saved(rows) == |rows| && BarFreeGroup(g)
  }

  /**
    An import keeps a consistent store consistent exactly when every campaign whose sums
    the saved rows change is of a group without bars, and all metadata parses.
   */
  lemma ImportIsConsistentExactly(t: Tables, rows: seq<CsvRow>)
    requires Consistent(t.ads, t.campaigns)
    ensures Consistent(AfterImport(t, rows).ads, AfterImport(t, rows).campaigns)
            <==> forall k: CampaignKey ::
                   Rebuilds(rows, k.group) || SameAt(UpsertAll(t.ads, rows[..Saved(rows)]), t.ads, k)
  {
    var after := AfterImport(t, rows);
    forall k: CampaignKey
      ensures Agrees(after.ads, after.campaigns, k)
              <==> Rebuilds(rows, k.group) || SameAt(UpsertAll(t.ads, rows[..Saved(rows)]), t.ads, k)
    {
      assert Agrees(t.ads, t.campaigns, k);
      if Saved(rows) == |rows| {
        assert rows[..|rows|] == rows;
        RebuildAgreesExactly(t.ads, t.campaigns, rows, k);
      } else {
        StoppedImport(t, rows);
        AgreesWithBoth(t.ads, after.ads, t.campaigns, k);
      }
    }
  }

  lemma BarFreeRowsChangeNoBarredSums(ads: seq<AdRow>, rows: seq<CsvRow>, k: CampaignKey)
    requires BarFree(rows) && !BarFreeGroup(k.group)
    ensures SameAt(UpsertAll(ads, rows), ads, k)
  {
    UpsertAllElsewhere(ads, rows, |rows|, k);
    assert rows[..|rows|] == rows;
  }

  /** Without bars: exactly when all metadata parses or the rows saved before the first that does not change no sums. */
  lemma BarFreeImportIsConsistentExactly(t: Tables, rows: seq<CsvRow>)
    requires Consistent(t.ads, t.campaigns) && (Saved(rows) == |rows| ==> BarFree(rows))
    ensures Consistent(AfterImport(t, rows).ads, AfterImport(t, rows).campaigns)
            <==> Saved(rows) == |rows| || SameSums(UpsertAll(t.ads, rows[..Saved(rows)]), t.ads)
  {
    ImportIsConsistentExactly(t, rows);
    if Saved(rows) == |rows| {
      assert rows[..|rows|] == rows;
      forall k: CampaignKey ensures Rebuilds(rows, k.group) || SameAt(UpsertAll(t.ads, rows), t.ads, k) {
        if !BarFreeGroup(k.group) { BarFreeRowsChangeNoBarredSums(t.ads, rows, k); }
      }
    }
  }

  /** Some ad of a group that is not rebuilt is assigned to a campaign. */
  predicate AnyStale(ads: seq<AdRow>, rows: seq<CsvRow>) {
    ads != [] && ((ads[0].campaign.Some? && !Rebuilds(rows, ads[0].group)) || AnyStale(ads[1..], rows))
  }

  /** One of the first n rows names a campaign in a group that is not rebuilt. */
  predicate NamesStale(rows: seq<CsvRow>, n: nat)
    requires n <= |rows|
  {
    exists i :: 0 <= i < n && rows[i].campaign.Some? && !Rebuilds(rows, rows[i].group)
  }

  lemma {:induction false} UpsertStale(ads: seq<AdRow>, r: CsvRow, rows: seq<CsvRow>)
    ensures AnyStale(Upsert(ads, r), rows) == (AnyStale(ads, rows) || (r.campaign.Some? && !Rebuilds(rows, r.group)))
  {
    if ads != [] && !SameAd(ads[0], r) {
      UpsertStale(ads[1..], r, rows);
    }
  }

  lemma {:induction false} UpsertsStale(rows: seq<CsvRow>, n: nat)
    requires n <= |rows|
    ensures AnyStale(UpsertAll([], rows[..n]), rows) == NamesStale(rows, n)
  {
    if n > 0 {
      UpsertsStale(rows, n - 1);
      UpsertedUpTo([], rows, n);
      UpsertStale(UpsertAll([], rows[..n - 1]), rows[n - 1], rows);
    }
  }

  lemma {:induction false} StaleHas(ads: seq<AdRow>, rows: seq<CsvRow>) returns (k: CampaignKey)
    requires AnyStale(ads, rows)
    ensures Has(ads, k) && !Rebuilds(rows, k.group)
  {
    if ads[0].campaign.Some? && !Rebuilds(rows, ads[0].group) {
      k := CampaignKey(ads[0].group, ads[0].campaign.value);
    } else {
      k := StaleHas(ads[1..], rows);
    }
    HasFirst(ads, k);
  }

  lemma {:induction false} NoStaleHasNone(ads: seq<AdRow>, rows: seq<CsvRow>, k: CampaignKey)
    requires !AnyStale(ads, rows) && !Rebuilds(rows, k.group)
    ensures !Has(ads, k)
  {
    if ads != [] {
      NoStaleHasNone(ads[1..], rows, k);
      HasFirst(ads, k);
    }
  }

  /**
    A first import leaves consistent tables exactly when every saved row that names a
    campaign has a key without bars, and all metadata parses if there is such a row.
   */
  lemma FirstImportIsConsistentExactly(rows: seq<CsvRow>)
    ensures Consistent(AfterImport(Tables([], []), rows).ads, AfterImport(Tables([], []), rows).campaigns)
            <==> forall i :: 0 <= i < Saved(rows) && rows[i].campaign.Some? ==>
                   Saved(rows) == |rows| && BarFreeGroup(rows[i].group)
  {
    var t, ads := Tables([], []), UpsertAll([], rows[..Saved(rows)]);
    ImportIsConsistentExactly(t, rows);
    UpsertsStale(rows, Saved(rows));
    if AnyStale(ads, rows) {
      var k := StaleHas(ads, rows);
      assert !SameAt(ads, [], k);
    } else {
      forall k: CampaignKey ensures Rebuilds(rows, k.group) || SameAt(ads, [], k) {
        if !Rebuilds(rows, k.group) { NoStaleHasNone(ads, rows, k); }
      }
    }
  }

  /** One bad metadata_json behind a good row leaves that row's campaign without its sums. */
  lemma BadMetadataBreaksConsistency(good: CsvRow, bad: CsvRow)
    requires good.metadataOk && good.campaign.Some? && !bad.metadataOk
    ensures !Consistent(AfterImport(Tables([], []), [good, bad]).ads,
                        AfterImport(Tables([], []), [good, bad]).campaigns)
  {
    SavedUpTo([good, bad], 1);
    FirstImportIsConsistentExactly([good, bad]);
    assert [good, bad][0].campaign.Some?;
  }

  /** A bar in a key leaves the row's campaign without its sums: another group is rebuilt. */
  lemma BarBreaksConsistency(row: CsvRow)
    requires row.metadataOk && row.campaign.Some? && !BarFreeGroup(row.group)
    ensures !Consistent(AfterImport(Tables([], []), [row]).ads, AfterImport(Tables([], []), [row]).campaigns)
  {
    SavedUpTo([row], 1);
    FirstImportIsConsistentExactly([row]);
    assert [row][0].campaign.Some?;
  }
}
