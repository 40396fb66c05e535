/**
  What the aggregation of a provider response amounts to: one entry for each campaign and
  day with the sums of its rows, in whatever order they come, and a bounded rounding error.
 */
module CampaignSums {
  import opened Options
  import opened Decimals
  import opened Consolidation

  // ------------------------------------------------------------- sums of rows

  predicate InKey(job: Job, row: ProviderRow, k: CampaignKey) {
    Present(row.campaign) && row.campaign.value == k.campaign && DayGroup(job, row) == k.group
  }

  /** What a row adds to a campaign's sums. */
  function Part(job: Job, row: ProviderRow, k: CampaignKey): Metrics {
    if InKey(job, row, k) && RowMetrics(row).Ok? then RowMetrics(row).value else ZERO
  }

  function SumOf(job: Job, rows: seq<ProviderRow>, k: CampaignKey): Metrics {
    if rows == [] then ZERO else Plus(SumOf(job, rows[..|rows| - 1], k), Part(job, rows[|rows| - 1], k))
  }

  /** How many rows count for a campaign and day. */
  function CountOf(job: Job, rows: seq<ProviderRow>, k: CampaignKey): nat {
    if rows == [] then 0
    else CountOf(job, rows[..|rows| - 1], k) + (if InKey(job, rows[|rows| - 1], k) then 1 else 0)
  }

  lemma {:induction false} NoRowsNoSum(job: Job, rows: seq<ProviderRow>, k: CampaignKey)
    requires CountOf(job, rows, k) == 0
    ensures SumOf(job, rows, k) == ZERO
  {
    if rows != [] {
      var n := |rows| - 1;
      NoRowsNoSum(job, rows[..n], k);
      assert !InKey(job, rows[n], k);
      NothingAdded(SumOf(job, rows[..n], k));
    }
  }

  predicate Readable(row: ProviderRow) {
    Present(row.campaign) ==> RowMetrics(row).Ok?
  }

  ghost predicate AllReadable(rows: seq<ProviderRow>) {
    forall i :: 0 <= i < |rows| ==> Readable(rows[i])
  }

  lemma ReadableLast(rows: seq<ProviderRow>)
    requires rows != []
    ensures AllReadable(rows) <==> AllReadable(rows[..|rows| - 1]) && Readable(rows[|rows| - 1])
  {
    assert forall i :: 0 <= i < |rows| - 1 ==> rows[..|rows| - 1][i] == rows[i];
  }

  lemma CollectsLast(job: Job, rows: seq<ProviderRow>)
    requires rows != []
    ensures Collect(job, rows).Ok? <==> Collect(job, rows[..|rows| - 1]).Ok? && Readable(rows[|rows| - 1])
  {
  }

  /** The aggregation goes through exactly when the numbers of every row that counts can be read. */
  lemma {:induction false} CollectsExactly(job: Job, rows: seq<ProviderRow>)
    ensures Collect(job, rows).Ok? <==> AllReadable(rows)
  {
    if rows != [] {
      CollectsLast(job, rows);
      CollectsExactly(job, rows[..|rows| - 1]);
      ReadableLast(rows);
    }
  }

  lemma CollectStepFound(job: Job, c: Collected, row: ProviderRow, k: CampaignKey)
    requires CollectRow(job, c, row).Ok?
    ensures Found(CollectRow(job, c, row).value.aggregates, k)
            == if InKey(job, row, k) then Added(Found(c.aggregates, k), Part(job, row, k)) else Found(c.aggregates, k)
  {
    if Present(row.campaign) {
      AddToFound(c.aggregates, CampaignKey(DayGroup(job, row), row.campaign.value), RowMetrics(row).value, k);
    }
  }

  lemma MoreSums(found: seq<Metrics>, count: nat, sum: Metrics, m: Metrics)
    requires found == (if count == 0 then [] else [sum]) && (count == 0 ==> sum == ZERO)
    ensures Added(found, m) == [Plus(sum, m)]
  {
  }

  lemma NothingAdded(sum: Metrics)
    ensures Plus(sum, ZERO) == sum
  {
  }

  /** Each campaign and day with a row has one entry, the sums of its rows. */
  lemma {:induction false} CollectSums(job: Job, rows: seq<ProviderRow>, k: CampaignKey)
    requires Collect(job, rows).Ok?
    ensures Found(Collect(job, rows).value.aggregates, k)
            == if CountOf(job, rows, k) == 0 then [] else [SumOf(job, rows, k)]
  {
    if rows != [] {
      var n := |rows| - 1;
      var c, count, sum := Collect(job, rows[..n]).value, CountOf(job, rows[..n], k), SumOf(job, rows[..n], k);
      CollectsLast(job, rows);
      CollectSums(job, rows[..n], k);
      CollectStepFound(job, c, rows[n], k);
      if count == 0 { NoRowsNoSum(job, rows[..n], k); }
      if InKey(job, rows[n], k) {
        MoreSums(Found(c.aggregates, k), count, sum, Part(job, rows[n], k));
      } else {
        NothingAdded(sum);
      }
    }
  }

  // ------------------------------------------------------------- the order of the rows

  lemma PlusSwaps(a: Metrics, b: Metrics, c: Metrics)
    ensures Plus(Plus(a, b), c) == Plus(Plus(a, c), b)
  {
  }

  lemma SumLast(job: Job, front: seq<ProviderRow>, last: ProviderRow, k: CampaignKey)
    ensures SumOf(job, front + [last], k) == Plus(SumOf(job, front, k), Part(job, last, k))
    ensures CountOf(job, front + [last], k) == CountOf(job, front, k) + (if InKey(job, last, k) then 1 else 0)
  {
    assert (front + [last])[..|front|] == front;
  }

  lemma {:induction false} SumWithout(job: Job, rows: seq<ProviderRow>, i: nat, k: CampaignKey)
    requires i < |rows|
    ensures SumOf(job, rows, k) == Plus(SumOf(job, rows[..i] + rows[i + 1..], k), Part(job, rows[i], k))
    ensures CountOf(job, rows, k)
            == CountOf(job, rows[..i] + rows[i + 1..], k) + (if InKey(job, rows[i], k) then 1 else 0)
  {
    var n := |rows| - 1;
    var front, last := rows[..n], rows[n];
    assert rows == front + [last];
    SumLast(job, front, last, k);
    if i == n {
      assert rows[..i] + rows[i + 1..] == front;
    } else {
      var rest := front[..i] + front[i + 1..];
      assert rows[..i] + rows[i + 1..] == rest + [last];
      SumWithout(job, front, i, k);
      SumLast(job, rest, last, k);
      PlusSwaps(SumOf(job, rest, k), Part(job, rows[i], k), Part(job, last, k));
    }
  }

  lemma RowsWithout(rows: seq<ProviderRow>, i: nat)
    requires i < |rows|
    ensures multiset(rows[..i] + rows[i + 1..]) == multiset(rows) - multiset{rows[i]}
  {
    assert rows == rows[..i] + [rows[i]] + rows[i + 1..];
  }

  /** The last row of one order is somewhere in the other, and the rest is the same rest. */
  lemma SameRest(a: seq<ProviderRow>, b: seq<ProviderRow>) returns (i: nat)
    requires a != [] && multiset(a) == multiset(b)
    ensures i < |b| && b[i] == a[|a| - 1]
    ensures multiset(a[..|a| - 1]) == multiset(b[..i] + b[i + 1..])
  {
    var n := |a| - 1;
    assert a[n] in multiset(b);
    i :| 0 <= i < |b| && b[i] == a[n];
    RowsWithout(a, n);
    RowsWithout(b, i);
    assert a[..n] + a[n + 1..] == a[..n];
  }

  lemma {:induction false} SumIgnoresOrder(job: Job, a: seq<ProviderRow>, b: seq<ProviderRow>, k: CampaignKey)
    requires multiset(a) == multiset(b)
    ensures SumOf(job, a, k) == SumOf(job, b, k) && CountOf(job, a, k) == CountOf(job, b, k)
    decreases |a|
  {
    assert |a| == |multiset(a)| == |multiset(b)| == |b|;
    if a != [] {
      var i := SameRest(a, b);
      SumWithout(job, b, i, k);
      SumIgnoresOrder(job, a[..|a| - 1], b[..i] + b[i + 1..], k);
    }
  }

  /** Permuting a response changes no campaign's aggregate, nor whether it can be aggregated. */
  lemma AggregationIgnoresOrder(job: Job, a: seq<ProviderRow>, b: seq<ProviderRow>, k: CampaignKey)
    requires multiset(a) == multiset(b) && Collect(job, a).Ok?
    ensures Collect(job, b).Ok?
    ensures Found(Collect(job, a).value.aggregates, k) == Found(Collect(job, b).value.aggregates, k)
  {
    CollectsExactly(job, a);
    CollectsExactly(job, b);
    forall i | 0 <= i < |b| ensures Readable(b[i]) {
      assert b[i] in multiset(a);
    }
    CollectSums(job, a, k);
    CollectSums(job, b, k);
    SumIgnoresOrder(job, a, b, k);
  }

  // ------------------------------------------------------------- the rounding error

  /** The cost texts of the rows that count for a campaign are the plain decimals ds. */
  ghost predicate PlainSpends(job: Job, rows: seq<ProviderRow>, ds: seq<Plain>, k: CampaignKey) {
    |ds| == |rows| && forall i :: 0 <= i < |rows| && InKey(job, rows[i], k) ==>
      PlainOk(ds[i]) && rows[i].spend == Decimal(Some(PlainText(ds[i])))
  }

  /** The decimals of the rows that count. */
  function Picked(job: Job, rows: seq<ProviderRow>, ds: seq<Plain>, k: CampaignKey): seq<Plain>
    requires |ds| == |rows|
  {
    if rows == [] then []
    else
      var n := |rows| - 1;
      Picked(job, rows[..n], ds[..n], k) + (if InKey(job, rows[n], k) then [ds[n]] else [])
  }

  lemma PlainFront(job: Job, rows: seq<ProviderRow>, ds: seq<Plain>, k: CampaignKey)
    requires rows != [] && PlainSpends(job, rows, ds, k)
    ensures PlainSpends(job, rows[..|rows| - 1], ds[..|rows| - 1], k)
  {
  }

  lemma OneMorePlain(ds: seq<Plain>, d: Plain)
    requires AllPlain(ds) && PlainOk(d)
    ensures AllPlain(ds + [d]) && SumMicros(ds + [d]) == SumMicros(ds) + Micros(d)
  {
    assert (ds + [d])[..|ds|] == ds;
  }

  lemma PlainPart(job: Job, row: ProviderRow, d: Plain, k: CampaignKey)
    requires InKey(job, row, k) && RowMetrics(row).Ok? && PlainOk(d) && row.spend == Decimal(Some(PlainText(d)))
    ensures Part(job, row, k).spend == Micros(d)
  {
    ScaledIntOfPlain(d);
  }

  lemma {:induction false} SpendIsSumOfMicros(job: Job, rows: seq<ProviderRow>, ds: seq<Plain>, k: CampaignKey)
    requires PlainSpends(job, rows, ds, k) && AllReadable(rows)
    ensures |Picked(job, rows, ds, k)| == CountOf(job, rows, k) && AllPlain(Picked(job, rows, ds, k))
    ensures SumOf(job, rows, k).spend == SumMicros(Picked(job, rows, ds, k))
  {
    if rows != [] {
      var n := |rows| - 1;
      var front := Picked(job, rows[..n], ds[..n], k);
      PlainFront(job, rows, ds, k);
      ReadableLast(rows);
      SpendIsSumOfMicros(job, rows[..n], ds[..n], k);
      if InKey(job, rows[n], k) {
        OneMorePlain(front, ds[n]);
        PlainPart(job, rows[n], ds[n], k);
      } else {
        assert front + [] == front;
      }
    }
  }

  /** The aggregated cost of a campaign with n rows a day is within n micro-units of the exact sum. */
  lemma CampaignSpendError(job: Job, rows: seq<ProviderRow>, ds: seq<Plain>, k: CampaignKey)
    requires Collect(job, rows).Ok? && PlainSpends(job, rows, ds, k) && CountOf(job, rows, k) > 0
    ensures AllPlain(Picked(job, rows, ds, k)) && |Found(Collect(job, rows).value.aggregates, k)| == 1
    ensures var n, exact := CountOf(job, rows, k) as real, SumValues(Picked(job, rows, ds, k)) * UNIT as real;
            exact - n < Found(Collect(job, rows).value.aggregates, k)[0].spend as real < exact + n
  {
    CollectsExactly(job, rows);
    CollectSums(job, rows, k);
    SpendIsSumOfMicros(job, rows, ds, k);
    AggregateError(Picked(job, rows, ds, k));
  }
}
