/**
  The capture table read in key order: one sorted query, the descending batches of
  an export, and the ascending pages of the incremental sync.

  A key is (created_at in microseconds, id); ids are unique, as primary keys are.
 */
module Keyset {
  import opened Options

  datatype Key = Key(at: int, id: int)

  /**
    A capture row. Its own columns are already text: those exported before the quiz
    columns, its name, and those exported after the contact columns.
   */
  datatype Capture = Capture(key: Key, data: CaptureData)

  datatype CaptureData = CaptureData(
    before: seq<string>, name: string, after: seq<string>,
    personId: Option<int>, hasForm: bool, email: Option<string>, phone: Option<string>)

  datatype Direction = Asc | Desc

  predicate Less(a: Key, b: Key) {
    a.at < b.at || (a.at == b.at && a.id < b.id)
  }

  predicate Before(dir: Direction, a: Key, b: Key) {
    if dir.Asc? then Less(a, b) else Less(b, a)
  }

  ghost predicate DistinctIds(table: seq<Capture>) {
    forall i, j :: 0 <= i < j < |table| ==> table[i].key.id != table[j].key.id
  }

  ghost predicate Sorted(dir: Direction, s: seq<Capture>) {
    forall i, j :: 0 <= i < j < |s| ==> Before(dir, s[i].key, s[j].key)
  }

  // ---------------------------------------------------------------- one query

  function Filter(s: seq<Capture>, p: Capture -> bool): seq<Capture> {
    if s == [] then []
    else if p(s[0]) then [s[0]] + Filter(s[1..], p)
    else Filter(s[1..], p)
  }

  function Insert(dir: Direction, x: Capture, s: seq<Capture>): seq<Capture> {
    if s == [] || Before(dir, x.key, s[0].key) then [x] + s
    else [s[0]] + Insert(dir, x, s[1..])
  }

  /** ORDER BY created_at, id in the given direction. */
  function Sort(dir: Direction, s: seq<Capture>): seq<Capture> {
    if s == [] then [] else Insert(dir, s[0], Sort(dir, s[1..]))
  }

  /** The keyset clause: rows strictly after the cursor, all rows without one. */
  function After(dir: Direction, cursor: Option<Key>, s: seq<Capture>): seq<Capture> {
    match cursor
    case None => s
    case Some(c) => Filter(s, (x: Capture) => Before(dir, c, x.key))
  }

  function Take<T>(s: seq<T>, limit: nat): (r: seq<T>)
    ensures |r| == if |s| <= limit then |s| else limit
    ensures r <= s
  {
    if |s| <= limit then s else s[..limit]
  }

  /** Everything that matches, in one sorted query. */
  function Listing(dir: Direction, table: seq<Capture>, p: Capture -> bool): seq<Capture> {
    Sort(dir, Filter(table, p))
  }

  /** buildExportBatchQuery: filters, keyset clause, order and limit. */
  function Query(dir: Direction, table: seq<Capture>, p: Capture -> bool, cursor: Option<Key>, limit: nat): seq<Capture>
  {
    Take(Sort(dir, After(dir, cursor, Filter(table, p))), limit)
  }

  // ------------------------------------------------- sorting and filtering

  lemma {:induction false} FilterKeeps(s: seq<Capture>, p: Capture -> bool)
    ensures forall x :: x in Filter(s, p) <==> x in s && p(x)
    ensures DistinctIds(s) ==> DistinctIds(Filter(s, p))
  {
    if s != [] {
      FilterKeeps(s[1..], p);
      assert forall x :: x in s <==> x == s[0] || x in s[1..];
      if DistinctIds(s) && p(s[0]) {
        assert forall x :: x in s[1..] ==> x.key.id != s[0].key.id;
      }
    }
  }

  lemma {:induction false} InsertKeeps(dir: Direction, x: Capture, s: seq<Capture>)
    ensures multiset(Insert(dir, x, s)) == multiset(s) + multiset{x}
  {
    if s != [] && !Before(dir, x.key, s[0].key) {
      InsertKeeps(dir, x, s[1..]);
      assert s == [s[0]] + s[1..];
    }
  }

  lemma {:induction false} SortIsPermutation(dir: Direction, s: seq<Capture>)
    ensures multiset(Sort(dir, s)) == multiset(s)
  {
    if s != [] {
      SortIsPermutation(dir, s[1..]);
      InsertKeeps(dir, s[0], Sort(dir, s[1..]));
      assert s == [s[0]] + s[1..];
    }
  }

  lemma SortKeeps(dir: Direction, s: seq<Capture>)
    ensures multiset(Sort(dir, s)) == multiset(s)
    ensures forall x :: x in Sort(dir, s) <==> x in s
  {
    SortIsPermutation(dir, s);
    assert forall x :: x in Sort(dir, s) <==> x in multiset(Sort(dir, s));
  }

  lemma {:induction false} InsertSorts(dir: Direction, x: Capture, s: seq<Capture>)
    requires Sorted(dir, s)
    requires forall y :: y in s ==> y.key.id != x.key.id
    ensures Sorted(dir, Insert(dir, x, s))
  {
    if s != [] && !Before(dir, x.key, s[0].key) {
      InsertSorts(dir, x, s[1..]);
      var r := Insert(dir, x, s[1..]);
      InsertKeeps(dir, x, s[1..]);
      forall y | y in r ensures Before(dir, s[0].key, y.key) {
        assert y in multiset(r);
        assert y == x || y in s[1..];
      }
    }
  }

  lemma {:induction false} SortSorts(dir: Direction, s: seq<Capture>)
    requires DistinctIds(s)
    ensures Sorted(dir, Sort(dir, s))
  {
    if s != [] {
      SortSorts(dir, s[1..]);
      SortKeeps(dir, s[1..]);
      assert forall y :: y in s[1..] ==> y.key.id != s[0].key.id;
      InsertSorts(dir, s[0], Sort(dir, s[1..]));
    }
  }

  /** The listing holds each matching row once, in strict key order. */
  lemma ListingIsSorted(dir: Direction, table: seq<Capture>, p: Capture -> bool)
    requires DistinctIds(table)
    ensures Sorted(dir, Listing(dir, table, p))
    ensures multiset(Listing(dir, table, p)) == multiset(Filter(table, p))
    ensures forall x :: x in Listing(dir, table, p) <==> x in table && p(x)
  {
    FilterKeeps(table, p);
    SortSorts(dir, Filter(table, p));
    SortKeeps(dir, Filter(table, p));
  }

  /** Two sorted sequences with the same elements are equal, so the listing is the only sorted answer. */
  lemma {:induction false} SortedIsUnique(dir: Direction, a: seq<Capture>, b: seq<Capture>)
    requires Sorted(dir, a) && Sorted(dir, b)
    requires forall x :: x in a <==> x in b
    ensures a == b
  {
    assert a != [] ==> a[0] in b;
    assert b != [] ==> b[0] in a;
    if a != [] {
      assert a[0] == b[0];
      forall x ensures x in a[1..] <==> x in b[1..] {
        if x in a[1..] { assert x in b; assert x != a[0]; }
        if x in b[1..] { assert x in a; assert x != b[0]; }
      }
      SortedIsUnique(dir, a[1..], b[1..]);
    }
  }

  lemma {:induction false} FilterOfSorted(dir: Direction, s: seq<Capture>, p: Capture -> bool)
    requires Sorted(dir, s)
    ensures Sorted(dir, Filter(s, p))
  {
    if s != [] {
      FilterOfSorted(dir, s[1..], p);
      FilterKeeps(s[1..], p);
      assert forall x :: x in s[1..] ==> Before(dir, s[0].key, x.key);
    }
  }

  /** Sorting commutes with the keyset clause. */
  lemma SortAfter(dir: Direction, c: Key, s: seq<Capture>)
    requires DistinctIds(s)
    ensures Sort(dir, After(dir, Some(c), s)) == After(dir, Some(c), Sort(dir, s))
  {
    var p := (x: Capture) => Before(dir, c, x.key);
    SortSorts(dir, s);
    SortKeeps(dir, s);
    FilterKeeps(s, p);
    SortSorts(dir, Filter(s, p));
    SortKeeps(dir, Filter(s, p));
    FilterKeeps(Sort(dir, s), p);
    FilterOfSorted(dir, Sort(dir, s), p);
    SortedIsUnique(dir, Sort(dir, Filter(s, p)), Filter(Sort(dir, s), p));
  }

  /** On a sorted sequence the keyset clause keeps a suffix. */
  lemma {:induction false} AfterIsSuffix(dir: Direction, c: Key, s: seq<Capture>, k: nat)
    requires Sorted(dir, s) && k <= |s|
    requires forall i :: 0 <= i < k ==> !Before(dir, c, s[i].key)
    requires forall i :: k <= i < |s| ==> Before(dir, c, s[i].key)
    ensures After(dir, Some(c), s) == s[k..]
  {
    if s != [] {
      if k == 0 {
        AfterIsSuffix(dir, c, s[1..], 0);
        assert s == [s[0]] + s[1..];
      } else {
        AfterIsSuffix(dir, c, s[1..], k - 1);
        assert s[1..][k - 1..] == s[k..];
      }
    }
  }

  /** The position of the first row after a cursor. */
  function Position(dir: Direction, c: Key, s: seq<Capture>): (k: nat)
    ensures k <= |s|
  {
    if s == [] || Before(dir, c, s[0].key) then 0 else 1 + Position(dir, c, s[1..])
  }

  lemma {:induction false} PositionSplits(dir: Direction, c: Key, s: seq<Capture>)
    requires Sorted(dir, s)
    ensures forall i :: 0 <= i < Position(dir, c, s) ==> !Before(dir, c, s[i].key)
    ensures forall i :: Position(dir, c, s) <= i < |s| ==> Before(dir, c, s[i].key)
  {
    if s != [] {
      PositionSplits(dir, c, s[1..]);
      assert forall i :: 1 <= i < |s| ==> s[i] == s[1..][i - 1];
    }
  }

  function Start(dir: Direction, cursor: Option<Key>, s: seq<Capture>): (k: nat)
    ensures k <= |s|
  {
    match cursor
    case None => 0
    case Some(c) => Position(dir, c, s)
  }

  /** Every keyset query is a slice of the one sorted listing. */
  lemma QueryIsSlice(dir: Direction, table: seq<Capture>, p: Capture -> bool, cursor: Option<Key>, limit: nat)
    requires DistinctIds(table)
    ensures var l := Listing(dir, table, p);
            Query(dir, table, p, cursor, limit) == Take(l[Start(dir, cursor, l)..], limit)
  {
    var l := Listing(dir, table, p);
    match cursor
    case None => assert l[0..] == l;
    case Some(c) =>
      FilterKeeps(table, p);
      SortAfter(dir, c, Filter(table, p));
      ListingIsSorted(dir, table, p);
      PositionSplits(dir, c, l);
      AfterIsSuffix(dir, c, l, Position(dir, c, l));
  }

  /** The exact key of a row is a cursor that continues right behind that row. */
  lemma ExactCursor(dir: Direction, s: seq<Capture>, k: nat)
    requires Sorted(dir, s) && 1 <= k <= |s|
    ensures Start(dir, Some(s[k - 1].key), s) == k
  {
    PositionSplits(dir, s[k - 1].key, s);
    assert !Before(dir, s[k - 1].key, s[k - 1].key);
    assert k < |s| ==> Before(dir, s[k - 1].key, s[k].key);
  }

  // -------------------------------------------------- the export batch loop

  /** How many rows of a listing of n rows the next batch brings. */
  function BatchSize(n: nat, processed: nat, batch: nat): nat {
    if n <= processed then 0
    else if n - processed <= batch then n - processed
    else batch
  }

  /** What onProgress is told from `processed` rows on: one running total a batch. */
  function Reports(n: nat, processed: nat, batch: nat): seq<nat>
    requires batch >= 1
    decreases n - processed
  {
    var size := BatchSize(n, processed, batch);
    if size == 0 then [] else [processed + size] + Reports(n, processed + size, batch)
  }

  /** One turn of the loop: the next rows of the listing, and a cursor right behind them. */
  lemma BatchStep(table: seq<Capture>, p: Capture -> bool, cursor: Option<Key>, batch: nat, processed: nat)
    requires batch >= 1 && DistinctIds(table)
    requires processed == Start(Desc, cursor, Listing(Desc, table, p))
    ensures var l, rows := Listing(Desc, table, p), Query(Desc, table, p, cursor, batch);
            && |rows| == BatchSize(|l|, processed, batch)
            && processed + |rows| <= |l|
            && rows == l[processed..processed + |rows|]
            && l[..processed] + rows == l[..processed + |rows|]
            && (rows != [] ==> Start(Desc, Some(rows[|rows| - 1].key), l) == processed + |rows|)
  {
    var l, rows := Listing(Desc, table, p), Query(Desc, table, p, cursor, batch);
    QueryIsSlice(Desc, table, p, cursor, batch);
    if rows != [] {
      ListingIsSorted(Desc, table, p);
      ExactCursor(Desc, l, processed + |rows|);
    }
  }

  /**
    The loop shared by the CSV and the Excel stream: batches are fetched behind the
    exact key of the last row until one comes back short.
   */
  method ExportRows(table: seq<Capture>, p: Capture -> bool, batch: nat)
    returns (out: seq<Capture>, progress: seq<nat>)
    requires batch >= 1
    requires DistinctIds(table)
    ensures out == Listing(Desc, table, p)
    ensures progress == Reports(|out|, 0, batch)
  {
    ghost var l := Listing(Desc, table, p);
    var cursor: Option<Key> := None;
    var processed := 0;
    var more := true;
    out, progress := [], [];
    while more
      invariant processed <= |l| && out == l[..processed]
      invariant Start(Desc, cursor, l) == processed
      invariant !more ==> processed == |l|
      invariant progress + Reports(|l|, processed, batch) == Reports(|l|, 0, batch)
      decreases |l| - processed, more
    {
      BatchStep(table, p, cursor, batch, processed);
      var rows := Query(Desc, table, p, cursor, batch);
      if rows == [] {
        break;
      }
      out := out + rows;
      ReportsStep(|l|, processed, batch, progress);
      processed := processed + |rows|;
      progress := progress + [processed];
      cursor := Some(rows[|rows| - 1].key);
      more := |rows| == batch;
    }
    assert l[..|l|] == l;
  }

  lemma ReportsStep(n: nat, processed: nat, batch: nat, told: seq<nat>)
    requires batch >= 1 && BatchSize(n, processed, batch) > 0
    ensures var next := processed + BatchSize(n, processed, batch);
            told + [next] + Reports(n, next, batch) == told + Reports(n, processed, batch)
  {
  }

  /** The totals grow strictly and the last one is the whole listing, so an export of one row or more ends at 100%. */
  lemma {:induction false} ReportsReachTheEnd(n: nat, processed: nat, batch: nat)
    requires batch >= 1 && processed <= n
    ensures var r := Reports(n, processed, batch);
            && (forall i :: 0 <= i < |r| ==> processed < r[i] <= n)
            && (forall i, j :: 0 <= i < j < |r| ==> r[i] < r[j])
            && (if processed < n then r != [] && r[|r| - 1] == n else r == [])
    decreases n - processed
  {
    if processed < n {
      ReportsReachTheEnd(n, processed + BatchSize(n, processed, batch), batch);
    }
  }
}
