/**
  The incremental sync: ascending pages whose next_cursor is cut to milliseconds,
  although rows are ordered by (microsecond created_at, id).
 */
module SyncWalk {
  import opened Options
  import opened Keyset

  datatype Page = Page(items: seq<Capture>, next: Option<Key>, hasMore: bool)

  /** A caller's progress: where to continue, what came so far, whether has_more was false. */
  datatype Walk = Walk(cursor: Option<Key>, delivered: seq<Capture>, done: bool)

  /** toIsoString of created_at: microseconds below the millisecond are dropped. */
  function Truncated(k: Key): Key {
    Key(k.at / 1000 * 1000, k.id)
  }

  /** listCapturesForSync: one row more than the limit tells whether there is more. */
  function FetchPage(table: seq<Capture>, p: Capture -> bool, cursor: Option<Key>, limit: nat): Page {
    var rows := Query(Asc, table, p, cursor, limit + 1);
    var items := Take(rows, limit);
    Page(items, if items == [] then None else Some(Truncated(items[|items| - 1].key)), |rows| > limit)
  }

  function NextWalk(table: seq<Capture>, p: Capture -> bool, limit: nat, w: Walk): Walk {
    var page := FetchPage(table, p, w.cursor, limit);
    Walk(if page.next.Some? then page.next else w.cursor, w.delivered + page.items, !page.hasMore)
  }

  /** Take n pages, stopping once has_more is false. */
  function Repeat(page: Walk -> Walk, n: nat): Walk {
    if n == 0 then Walk(None, [], false)
    else
      var v := Repeat(page, n - 1);
      if v.done then v else page(v)
  }

  /** Follow next_cursor n times. */
  function Follow(table: seq<Capture>, p: Capture -> bool, limit: nat, n: nat): Walk {
    Repeat(v => NextWalk(table, p, limit, v), n)
  }

  /** The number of rows created before a microsecond. */
  function RowsBefore(l: seq<Capture>, t: int): (n: nat)
    ensures n <= |l|
  {
    if l == [] then 0 else (if l[0].key.at < t then 1 else 0) + RowsBefore(l[1..], t)
  }

  /** The number of rows in millisecond m. */
  function InMillisecond(l: seq<Capture>, m: int): int {
    RowsBefore(l, 1000 * m + 1000) - RowsBefore(l, 1000 * m)
  }

  /** The number of rows in millisecond m or later. */
  function FromMillisecond(l: seq<Capture>, m: int): int {
    |l| - RowsBefore(l, 1000 * m)
  }

  /** The number of rows inside millisecond m but not exactly on it. */
  function InsideMillisecond(l: seq<Capture>, m: int): int {
    RowsBefore(l, 1000 * m + 1000) - RowsBefore(l, 1000 * m + 1)
  }

  /** No millisecond fills a page that has anything behind it. */
  ghost predicate LimitSuffices(l: seq<Capture>, limit: nat) {
    forall m :: InMillisecond(l, m) < limit || FromMillisecond(l, m) <= limit
  }

  ghost predicate Terminates(table: seq<Capture>, p: Capture -> bool, limit: nat) {
    exists n: nat :: Follow(table, p, limit, n).done
  }

  // ------------------------------------------------------------- positions

  lemma {:induction false} RowsBeforeIsPosition(l: seq<Capture>, t: int)
    requires Sorted(Asc, l)
    ensures forall i :: 0 <= i < RowsBefore(l, t) ==> l[i].key.at < t
    ensures forall i :: RowsBefore(l, t) <= i < |l| ==> t <= l[i].key.at
  {
    if l != [] {
      RowsBeforeIsPosition(l[1..], t);
      assert forall i :: 1 <= i < |l| ==> l[i] == l[1..][i - 1] && l[0].key.at <= l[i].key.at;
    }
  }

  /** A page is the slice of the one sorted listing that starts behind the cursor. */
  lemma PageIsSlice(table: seq<Capture>, p: Capture -> bool, cursor: Option<Key>, limit: nat)
    requires DistinctIds(table)
    ensures var l, page := Listing(Asc, table, p), FetchPage(table, p, cursor, limit);
            var from := Start(Asc, cursor, l);
            && (page.hasMore <==> |l| - from > limit)
            && from + |page.items| <= |l|
            && page.items == l[from..from + |page.items|]
            && |page.items| == (if page.hasMore then limit else |l| - from)
  {
    QueryIsSlice(Asc, table, p, cursor, limit + 1);
  }

  /** Cutting the key of row k-1 never moves the cursor past row k. */
  lemma TruncatedStart(l: seq<Capture>, k: nat)
    requires Sorted(Asc, l) && 1 <= k <= |l|
    ensures Start(Asc, Some(Truncated(l[k - 1].key)), l) <= k
  {
    PositionSplits(Asc, Truncated(l[k - 1].key), l);
    assert k < |l| ==> Before(Asc, l[k - 1].key, l[k].key);
  }

  // ------------------------------------------------------------- no row is skipped

  /** How far the page after v reaches in the sorted listing. */
  function Reach(l: seq<Capture>, v: Walk, limit: nat): (to: nat)
    ensures Start(Asc, v.cursor, l) <= to <= |l|
  {
    var from := Start(Asc, v.cursor, l);
    if |l| - from <= limit then |l| else from + limit
  }

  /** One more page, told in positions of the sorted listing. */
  function Advance(l: seq<Capture>, v: Walk, limit: nat): Walk {
    var from, to := Start(Asc, v.cursor, l), Reach(l, v, limit);
    Walk(if from < to then Some(Truncated(l[to - 1].key)) else v.cursor, v.delivered + l[from..to], |l| - from <= limit)
  }

  /** The walk over the one sorted listing that following next_cursor amounts to. */
  function Glide(l: seq<Capture>, limit: nat, n: nat): Walk {
    Repeat(v => Advance(l, v, limit), n)
  }

  lemma GlideStep(l: seq<Capture>, limit: nat, n: nat)
    ensures var v := Glide(l, limit, n);
            Glide(l, limit, n + 1) == if v.done then v else Advance(l, v, limit)
  {
  }

  lemma {:induction false} SamePages(f: Walk -> Walk, g: Walk -> Walk, n: nat)
    requires forall v :: f(v) == g(v)
    ensures Repeat(f, n) == Repeat(g, n)
  {
    if n > 0 { SamePages(f, g, n - 1); }
  }

  lemma PageAdvances(table: seq<Capture>, p: Capture -> bool, limit: nat, v: Walk)
    requires DistinctIds(table) && limit >= 1
    ensures NextWalk(table, p, limit, v) == Advance(Listing(Asc, table, p), v, limit)
  {
    PageIsSlice(table, p, v.cursor, limit);
  }

  lemma FollowIsGlide(table: seq<Capture>, p: Capture -> bool, limit: nat, n: nat)
    requires DistinctIds(table) && limit >= 1
    ensures Follow(table, p, limit, n) == Glide(Listing(Asc, table, p), limit, n)
  {
    var l := Listing(Asc, table, p);
    forall v ensures NextWalk(table, p, limit, v) == Advance(l, v, limit) {
      PageAdvances(table, p, limit, v);
    }
    SamePages(v => NextWalk(table, p, limit, v), v => Advance(l, v, limit), n);
  }

  /** Every row before the cursor has been delivered, and at the end every row. */
  ghost predicate NothingSkipped(l: seq<Capture>, w: Walk) {
    && (forall i :: 0 <= i < Start(Asc, w.cursor, l) ==> l[i] in w.delivered)
    && (w.done ==> forall x :: x in l ==> x in w.delivered)
    && (forall x :: x in w.delivered ==> x in l)
  }

  lemma PageSkipsNothing(l: seq<Capture>, v: Walk, limit: nat)
    requires Sorted(Asc, l) && NothingSkipped(l, v)
    ensures NothingSkipped(l, Advance(l, v, limit))
  {
    var from, to, w := Start(Asc, v.cursor, l), Reach(l, v, limit), Advance(l, v, limit);
    assert forall x :: x in l[from..to] ==> x in l;
    forall i | 0 <= i < to ensures l[i] in w.delivered {
      if from <= i { assert l[from..to][i - from] == l[i]; }
    }
    if from < to { TruncatedStart(l, to); }
  }

  lemma {:induction false} GlideSkipsNothing(l: seq<Capture>, limit: nat, n: nat)
    requires Sorted(Asc, l)
    ensures NothingSkipped(l, Glide(l, limit, n))
  {
    if n > 0 {
      GlideSkipsNothing(l, limit, n - 1);
      PageSkipsNothing(l, Glide(l, limit, n - 1), limit);
    }
  }

  /**
    Whatever the limit, every row the cursor has passed was delivered, and a walk
    that ends has delivered every matching row.
   */
  lemma NoRowIsSkipped(table: seq<Capture>, p: Capture -> bool, limit: nat, n: nat)
    requires DistinctIds(table) && limit >= 1
    ensures NothingSkipped(Listing(Asc, table, p), Follow(table, p, limit, n))
    ensures Follow(table, p, limit, n).done ==>
              forall x :: x in table && p(x) ==> x in Follow(table, p, limit, n).delivered
  {
    ListingIsSorted(Asc, table, p);
    GlideSkipsNothing(Listing(Asc, table, p), limit, n);
    FollowIsGlide(table, p, limit, n);
  }

  // ------------------------------------------------------------- termination

  /** With a sufficient limit the cursor leaves its millisecond on every page that has more. */
  lemma LaterMillisecond(l: seq<Capture>, limit: nat, c: Key)
    requires Sorted(Asc, l) && LimitSuffices(l, limit) && limit >= 1
    requires c.at % 1000 == 0
    requires |l| - Start(Asc, Some(c), l) > limit
    ensures c.at + 1000 <= l[Start(Asc, Some(c), l) + limit - 1].key.at
  {
    var m := c.at / 1000;
    var from := Start(Asc, Some(c), l);
    PositionSplits(Asc, c, l);
    RowsBeforeIsPosition(l, 1000 * m);
    RowsBeforeIsPosition(l, 1000 * m + 1000);
    assert Before(Asc, c, l[from].key);
    assert InMillisecond(l, m) < limit || FromMillisecond(l, m) <= limit;
  }

  /** The walk is in its n-th millisecond at least. */
  ghost predicate AtLeastMillisecond(l: seq<Capture>, w: Walk, n: nat) {
    w.cursor.Some? && w.cursor.value.at % 1000 == 0 && n <= RowsBefore(l, w.cursor.value.at + 1000)
  }

  lemma {:induction false} GlideLeavesMilliseconds(l: seq<Capture>, limit: nat, n: nat)
    requires Sorted(Asc, l) && LimitSuffices(l, limit) && limit >= 1
    requires n >= 1 && !Glide(l, limit, n).done
    ensures AtLeastMillisecond(l, Glide(l, limit, n), n)
  {
    var v := Glide(l, limit, n - 1);
    assert !v.done && Glide(l, limit, n) == Advance(l, v, limit);
    RowsBeforeIsPosition(l, Truncated(l[Reach(l, v, limit) - 1].key).at + 1000);
    if n > 1 {
      GlideLeavesMilliseconds(l, limit, n - 1);
      LaterMillisecond(l, limit, v.cursor.value);
      RowsBeforeIsPosition(l, v.cursor.value.at + 1000);
    }
  }

  /** A sufficient limit ends the walk within one page more than there are rows. */
  lemma SufficientLimitTerminates(table: seq<Capture>, p: Capture -> bool, limit: nat)
    requires DistinctIds(table) && limit >= 1
    requires LimitSuffices(Listing(Asc, table, p), limit)
    ensures Follow(table, p, limit, |Listing(Asc, table, p)| + 1).done
  {
    var l := Listing(Asc, table, p);
    ListingIsSorted(Asc, table, p);
    FollowIsGlide(table, p, limit, |l| + 1);
    if !Glide(l, limit, |l| + 1).done {
      GlideLeavesMilliseconds(l, limit, |l| + 1);
    }
  }

  /** The walk has more to come and has not left millisecond m behind. */
  ghost predicate Trapped(w: Walk, m: int) {
    !w.done && (w.cursor.Some? ==> w.cursor.value.at <= 1000 * m)
  }

  lemma PageStaysTrapped(l: seq<Capture>, v: Walk, limit: nat, m: int)
    requires Sorted(Asc, l) && Trapped(v, m)
    requires InsideMillisecond(l, m) >= limit && InsideMillisecond(l, m) + FromMillisecond(l, m + 1) > limit
    ensures Trapped(Advance(l, v, limit), m)
  {
    var first := RowsBefore(l, 1000 * m + 1);
    RowsBeforeIsPosition(l, 1000 * m + 1);
    RowsBeforeIsPosition(l, 1000 * m + 1000);
    if v.cursor.Some? { PositionSplits(Asc, v.cursor.value, l); }
    assert v.cursor.Some? && first < |l| ==> Before(Asc, v.cursor.value, l[first].key);
    assert Start(Asc, v.cursor, l) <= first;
  }

  lemma {:induction false} GlideIsTrapped(l: seq<Capture>, limit: nat, m: int, n: nat)
    requires Sorted(Asc, l)
    requires InsideMillisecond(l, m) >= limit && InsideMillisecond(l, m) + FromMillisecond(l, m + 1) > limit
    ensures Trapped(Glide(l, limit, n), m)
  {
    if n > 0 {
      GlideIsTrapped(l, limit, m, n - 1);
      PageStaysTrapped(l, Glide(l, limit, n - 1), limit, m);
    }
  }

  /** A millisecond with `limit` rows off its boundary and anything behind them traps the walk. */
  lemma CrowdedMillisecondTraps(table: seq<Capture>, p: Capture -> bool, limit: nat, m: int)
    requires DistinctIds(table) && limit >= 1
    requires var l := Listing(Asc, table, p);
             InsideMillisecond(l, m) >= limit && InsideMillisecond(l, m) + FromMillisecond(l, m + 1) > limit
    ensures !Terminates(table, p, limit)
  {
    ListingIsSorted(Asc, table, p);
    forall n: nat ensures !Follow(table, p, limit, n).done {
      FollowIsGlide(table, p, limit, n);
      GlideIsTrapped(Listing(Asc, table, p), limit, m, n);
    }
  }

  /**
    When no timestamp falls exactly on a millisecond, as with microsecond clocks
    almost always, the walk ends if and only if no millisecond fills a page that has
    anything behind it.
   */
  lemma TerminatesExactlyWhenLimitSuffices(table: seq<Capture>, p: Capture -> bool, limit: nat)
    requires DistinctIds(table) && limit >= 1
    requires forall x :: x in table && p(x) ==> x.key.at % 1000 != 0
    ensures Terminates(table, p, limit) <==> LimitSuffices(Listing(Asc, table, p), limit)
  {
    var l := Listing(Asc, table, p);
    if LimitSuffices(l, limit) {
      SufficientLimitTerminates(table, p, limit);
    } else {
      var m :| !(InMillisecond(l, m) < limit || FromMillisecond(l, m) <= limit);
      ListingIsSorted(Asc, table, p);
      RowsBeforeIsPosition(l, 1000 * m);
      RowsBeforeIsPosition(l, 1000 * m + 1);
      NoRowOnBoundary(l, m);
      CrowdedMillisecondTraps(table, p, limit, m);
    }
  }

  lemma {:induction false} NoRowOnBoundary(l: seq<Capture>, m: int)
    requires forall x :: x in l ==> x.key.at % 1000 != 0
    ensures RowsBefore(l, 1000 * m) == RowsBefore(l, 1000 * m + 1)
  {
    if l != [] {
      assert l[0] in l;
      NoRowOnBoundary(l[1..], m);
    }
  }

  // ------------------------------------------------------------- timestamps on and off the boundary

  /** Not more rows are inside any millisecond than its page can pass, or nothing is behind them. */
  ghost predicate InsidesPass(l: seq<Capture>, limit: nat) {
    forall m :: InsideMillisecond(l, m) < limit || InsideMillisecond(l, m) + FromMillisecond(l, m + 1) <= limit
  }

  /** The rows of a millisecond are all exactly on it or all off it. */
  ghost predicate Pure(l: seq<Capture>, m: int) {
    InsideMillisecond(l, m) == 0 || InsideMillisecond(l, m) == InMillisecond(l, m)
  }

  /** A millisecond that fills a page with something behind it does not mix the two kinds of rows. */
  ghost predicate CrowdsArePure(l: seq<Capture>, limit: nat) {
    forall m :: Pure(l, m) || InMillisecond(l, m) < limit || FromMillisecond(l, m) <= limit
  }

  /** What grows from page to page: the rows passed, and those of the milliseconds reached. */
  function Potential(l: seq<Capture>, c: Key): nat {
    Start(Asc, Some(c), l) + RowsBefore(l, c.at + 1000)
  }

  lemma LaterPage(l: seq<Capture>, c: Key, e: nat)
    requires Sorted(Asc, l) && e < |l| && c.at % 1000 == 0 && c.at + 1000 <= l[e].key.at
    ensures Potential(l, Truncated(l[e].key)) > Potential(l, c)
  {
    var d := Truncated(l[e].key);
    PositionSplits(Asc, c, l);
    PositionSplits(Asc, d, l);
    RowsBeforeIsPosition(l, c.at + 1000);
    RowsBeforeIsPosition(l, d.at + 1000);
    assert RowsBefore(l, c.at + 1000) <= e < RowsBefore(l, d.at + 1000);
    var k := Start(Asc, Some(d), l);
    assert k < |l| ==> Before(Asc, c, l[k].key);
  }

  /** A page that ends exactly on a millisecond continues right behind its last row. */
  lemma BoundaryPage(l: seq<Capture>, c: Key, e: nat)
    requires Sorted(Asc, l) && Start(Asc, Some(c), l) <= e < |l| && l[e].key.at == c.at && c.at % 1000 == 0
    ensures Potential(l, Truncated(l[e].key)) > Potential(l, c)
  {
    ExactCursor(Asc, l, e + 1);
  }

  /** A page that ends inside the cursor's own millisecond meets a crowd there. */
  lemma InsidePage(l: seq<Capture>, limit: nat, c: Key)
    requires Sorted(Asc, l) && limit >= 1 && c.at % 1000 == 0 && |l| - Start(Asc, Some(c), l) > limit
    requires InsidesPass(l, limit) && CrowdsArePure(l, limit)
    ensures var e := Start(Asc, Some(c), l) + limit - 1; !(c.at < l[e].key.at < c.at + 1000)
  {
    var m, from := c.at / 1000, Start(Asc, Some(c), l);
    PositionSplits(Asc, c, l);
    RowsBeforeIsPosition(l, 1000 * m);
    RowsBeforeIsPosition(l, 1000 * m + 1);
    RowsBeforeIsPosition(l, 1000 * m + 1000);
    assert Before(Asc, c, l[from].key);
    assert InsideMillisecond(l, m) < limit || InsideMillisecond(l, m) + FromMillisecond(l, m + 1) <= limit;
    assert Pure(l, m) || InMillisecond(l, m) < limit || FromMillisecond(l, m) <= limit;
    assert RowsBefore(l, 1000 * m) <= from;
  }

  lemma PageProgresses(l: seq<Capture>, limit: nat, c: Key)
    requires Sorted(Asc, l) && limit >= 1 && c.at % 1000 == 0 && |l| - Start(Asc, Some(c), l) > limit
    requires InsidesPass(l, limit) && CrowdsArePure(l, limit)
    ensures Potential(l, Truncated(l[Start(Asc, Some(c), l) + limit - 1].key)) > Potential(l, c)
  {
    var e := Start(Asc, Some(c), l) + limit - 1;
    PositionSplits(Asc, c, l);
    assert Before(Asc, c, l[e].key);
    InsidePage(l, limit, c);
    if l[e].key.at == c.at {
      BoundaryPage(l, c, e);
    } else {
      LaterPage(l, c, e);
    }
  }

  ghost predicate Progressed(l: seq<Capture>, w: Walk, n: nat) {
    w.cursor.Some? && w.cursor.value.at % 1000 == 0 && n <= Potential(l, w.cursor.value)
  }

  lemma FirstPageProgresses(l: seq<Capture>, limit: nat, v: Walk)
    requires Sorted(Asc, l) && limit >= 1 && !Advance(l, v, limit).done
    ensures Progressed(l, Advance(l, v, limit), 1)
  {
    RowsBeforeIsPosition(l, Truncated(l[Reach(l, v, limit) - 1].key).at + 1000);
  }

  lemma NextPageProgresses(l: seq<Capture>, limit: nat, v: Walk, n: nat)
    requires Sorted(Asc, l) && limit >= 1 && InsidesPass(l, limit) && CrowdsArePure(l, limit)
    requires Progressed(l, v, n) && !Advance(l, v, limit).done
    ensures Progressed(l, Advance(l, v, limit), n + 1)
  {
    PageProgresses(l, limit, v.cursor.value);
  }

  lemma {:induction false} GlideProgresses(l: seq<Capture>, limit: nat, n: nat)
    requires Sorted(Asc, l) && limit >= 1 && InsidesPass(l, limit) && CrowdsArePure(l, limit)
    requires n >= 1 && !Glide(l, limit, n).done
    ensures Progressed(l, Glide(l, limit, n), n)
  {
    GlideStep(l, limit, n - 1);
    if n == 1 {
      FirstPageProgresses(l, limit, Glide(l, limit, 0));
    } else {
      GlideProgresses(l, limit, n - 1);
      NextPageProgresses(l, limit, Glide(l, limit, n - 1), n - 1);
    }
  }

  /**
    Unless a crowded millisecond mixes rows on and off its boundary, the walk ends if and
    only if no millisecond has `limit` rows off its boundary and anything behind them.
   */
  lemma TerminatesExactlyWhenInsidesPass(table: seq<Capture>, p: Capture -> bool, limit: nat)
    requires DistinctIds(table) && limit >= 1
    requires CrowdsArePure(Listing(Asc, table, p), limit)
    ensures Terminates(table, p, limit) <==> InsidesPass(Listing(Asc, table, p), limit)
  {
    var l := Listing(Asc, table, p);
    if InsidesPass(l, limit) {
      var n := 2 * |l| + 1;
      ListingIsSorted(Asc, table, p);
      FollowIsGlide(table, p, limit, n);
      if !Glide(l, limit, n).done {
        GlideProgresses(l, limit, n);
      }
    } else {
      var m :| !(InsideMillisecond(l, m) < limit || InsideMillisecond(l, m) + FromMillisecond(l, m + 1) <= limit);
      CrowdedMillisecondTraps(table, p, limit, m);
    }
  }

  // ------------------------------------------------------------- a walk that ends, ends soon

  lemma {:induction false} Range(m: nat) returns (r: set<int>)
    ensures |r| == m && forall x :: x in r <==> 0 <= x < m
  {
    r := {};
    if m > 0 {
      var q := Range(m - 1);
      r := q + {m - 1};
    }
  }

  lemma {:induction false} DistinctElements(s: seq<int>)
    requires forall i, j :: 0 <= i < j < |s| ==> s[i] != s[j]
    ensures |set x | x in s| == |s|
  {
    if s == [] {
      assert (set x | x in s) == {};
    } else {
      var front, last := s[..|s| - 1], s[|s| - 1];
      DistinctElements(front);
      assert s == front + [last];
      assert (set x | x in s) == (set x | x in front) + {last};
      assert last !in front;
    }
  }

  /** Among more than m numbers below m, two are the same. */
  lemma Pigeonhole(s: seq<int>, m: nat) returns (i: nat, j: nat)
    requires |s| > m && forall k :: 0 <= k < |s| ==> 0 <= s[k] < m
    ensures i < j < |s| && s[i] == s[j]
  {
    if forall i, j :: 0 <= i < j < |s| ==> s[i] != s[j] {
      DistinctElements(s);
      var r := Range(m);
      CardinalityFits((set x | x in s), r);
      assert false;
    }
    i, j :| 0 <= i < j < |s| && s[i] == s[j];
  }

  lemma CardinalityFits(a: set<int>, b: set<int>)
    requires a <= b
    ensures |a| <= |b|
  {
    assert a * b == a;
    assert |b - a| == |b| - |b * a|;
  }

  /** Walks at the same cursor, both ended or both not. */
  ghost predicate Alike(v: Walk, w: Walk) {
    v.cursor == w.cursor && v.done == w.done
  }

  lemma AlikeAdvance(l: seq<Capture>, limit: nat, v: Walk, w: Walk)
    requires Alike(v, w)
    ensures Alike(Advance(l, v, limit), Advance(l, w, limit))
  {
  }

  lemma {:induction false} SameRepeat(page: Walk -> Walk, i: nat, j: nat, n: nat)
    requires forall v, w {:trigger page(v), page(w)} :: Alike(v, w) ==> Alike(page(v), page(w))
    requires Alike(Repeat(page, i), Repeat(page, j))
    ensures Alike(Repeat(page, i + n), Repeat(page, j + n))
  {
    if n > 0 { SameRepeat(page, i, j, n - 1); }
  }

  /** Two walks at one cursor take the same pages from there. */
  lemma SameFuture(l: seq<Capture>, limit: nat, i: nat, j: nat, n: nat)
    requires Alike(Glide(l, limit, i), Glide(l, limit, j))
    ensures Alike(Glide(l, limit, i + n), Glide(l, limit, j + n))
  {
    forall v, w | Alike(v, w) ensures Alike(Advance(l, v, limit), Advance(l, w, limit)) {
      AlikeAdvance(l, limit, v, w);
    }
    SameRepeat(v => Advance(l, v, limit), i, j, n);
  }

  /** The row the page after n ends with, as a position. */
  function LastOf(l: seq<Capture>, limit: nat, n: nat): int {
    Reach(l, Glide(l, limit, n), limit) - 1
  }

  lemma PageEnds(l: seq<Capture>, limit: nat, n: nat)
    requires limit >= 1 && !Glide(l, limit, n + 1).done
    ensures 0 <= LastOf(l, limit, n) < |l|
    ensures Glide(l, limit, n + 1).cursor == Some(Truncated(l[LastOf(l, limit, n)].key))
  {
    GlideStep(l, limit, n);
  }

  lemma {:induction false} NotDoneBefore(l: seq<Capture>, limit: nat, k: nat, n: nat)
    requires k <= n && !Glide(l, limit, n).done
    ensures !Glide(l, limit, k).done
  {
    if k < n {
      GlideStep(l, limit, n - 1);
      NotDoneBefore(l, limit, k, n - 1);
    }
  }

  /** Pages that came to a cursor once more will come to it for ever. */
  lemma {:induction false} CycleNeverEnds(l: seq<Capture>, limit: nat, i: nat, j: nat, n: nat)
    requires i < j && !Glide(l, limit, j).done && Alike(Glide(l, limit, i), Glide(l, limit, j))
    ensures !Glide(l, limit, n).done
    decreases n
  {
    if n <= j {
      NotDoneBefore(l, limit, n, j);
    } else {
      CycleNeverEnds(l, limit, i, j, n - (j - i));
      SameFuture(l, limit, i, j, n - j);
    }
  }

  function Ends(l: seq<Capture>, limit: nat): (ends: seq<int>)
    ensures |ends| == |l| + 1 && forall n :: 0 <= n <= |l| ==> ends[n] == LastOf(l, limit, n)
  {
    seq(|l| + 1, n requires 0 <= n <= |l| => LastOf(l, limit, n))
  }

  lemma EndsAreRows(l: seq<Capture>, limit: nat)
    requires limit >= 1 && !Glide(l, limit, |l| + 1).done
    ensures forall n :: 0 <= n <= |l| ==> 0 <= Ends(l, limit)[n] < |l|
  {
    forall n | 0 <= n <= |l| ensures 0 <= Ends(l, limit)[n] < |l| {
      NotDoneBefore(l, limit, n + 1, |l| + 1);
      PageEnds(l, limit, n);
    }
  }

  /** More pages than rows: two of them end with the same row. */
  lemma TwoPagesAgree(l: seq<Capture>, limit: nat) returns (i: nat, j: nat)
    requires limit >= 1 && !Glide(l, limit, |l| + 1).done
    ensures i < j && !Glide(l, limit, j).done && Alike(Glide(l, limit, i), Glide(l, limit, j))
  {
    EndsAreRows(l, limit);
    var x, y := Pigeonhole(Ends(l, limit), |l|);
    NotDoneBefore(l, limit, x + 1, |l| + 1);
    NotDoneBefore(l, limit, y + 1, |l| + 1);
    PageEnds(l, limit, x);
    PageEnds(l, limit, y);
    i, j := x + 1, y + 1;
  }

  /** For every table: a walk that ends at all ends within one page more than there are rows. */
  lemma EndsSoonOrNever(table: seq<Capture>, p: Capture -> bool, limit: nat)
    requires DistinctIds(table) && limit >= 1
    ensures Terminates(table, p, limit) <==> Follow(table, p, limit, |Listing(Asc, table, p)| + 1).done
  {
    var l := Listing(Asc, table, p);
    FollowIsGlide(table, p, limit, |l| + 1);
    if !Glide(l, limit, |l| + 1).done {
      var i, j := TwoPagesAgree(l, limit);
      forall n: nat ensures !Follow(table, p, limit, n).done {
        FollowIsGlide(table, p, limit, n);
        CycleNeverEnds(l, limit, i, j, n);
      }
    }
  }

  // ------------------------------------------------------------- exactly once

  /** Exactly the rows up to the cursor so far, each once, and at the end the whole listing. */
  ghost predicate ExactSoFar(l: seq<Capture>, w: Walk, n: nat) {
    if w.done then w.delivered == l
    else w.delivered == l[..Start(Asc, w.cursor, l)] && n <= Start(Asc, w.cursor, l)
  }

  lemma PageIsExact(l: seq<Capture>, v: Walk, limit: nat, n: nat)
    requires Sorted(Asc, l) && limit >= 1
    requires forall x :: x in l ==> x.key.at % 1000 == 0
    requires !v.done && ExactSoFar(l, v, n)
    ensures ExactSoFar(l, Advance(l, v, limit), n + 1)
  {
    var from, to := Start(Asc, v.cursor, l), Reach(l, v, limit);
    assert l[..from] + l[from..to] == l[..to];
    assert l[..|l|] == l;
    if |l| - from > limit {
      assert l[to - 1] in l;
      ExactCursor(Asc, l, to);
    }
  }

  lemma {:induction false} GlideIsExact(l: seq<Capture>, limit: nat, n: nat)
    requires Sorted(Asc, l) && limit >= 1
    requires forall x :: x in l ==> x.key.at % 1000 == 0
    ensures ExactSoFar(l, Glide(l, limit, n), n)
  {
    if n > 0 {
      GlideIsExact(l, limit, n - 1);
      if !Glide(l, limit, n - 1).done {
        PageIsExact(l, Glide(l, limit, n - 1), limit, n - 1);
      }
    }
  }

  /** On millisecond-aligned timestamps the walk always ends and delivers the sorted listing, each row once. */
  lemma AlignedWalkIsExact(table: seq<Capture>, p: Capture -> bool, limit: nat, n: nat)
    requires DistinctIds(table) && limit >= 1
    requires forall x :: x in table && p(x) ==> x.key.at % 1000 == 0
    ensures ExactSoFar(Listing(Asc, table, p), Follow(table, p, limit, n), n)
    ensures n > |Listing(Asc, table, p)| ==> Follow(table, p, limit, n).done
  {
    ListingIsSorted(Asc, table, p);
    FollowIsGlide(table, p, limit, n);
    GlideIsExact(Listing(Asc, table, p), limit, n);
  }

  /**
    The limit must exceed, not match, the rows of a millisecond: with one row a page,
    two rows inside one millisecond are never passed.
   */
  lemma OneRowPagesCanLoop(data: CaptureData)
    ensures var table := [Capture(Key(1, 5), data), Capture(Key(2, 3), data)];
            !Terminates(table, (x: Capture) => true, 1)
  {
    var table := [Capture(Key(1, 5), data), Capture(Key(2, 3), data)];
    var p := (x: Capture) => true;
    assert Filter(table[1..][1..], p) == [];
    assert Filter(table[1..], p) == [table[1]];
    assert Filter(table, p) == [table[0], table[1]];
    assert Sort(Asc, [table[0], table[1]][1..]) == [table[1]];
    var l := Listing(Asc, table, p);
    assert l == [table[0], table[1]];
    assert RowsBefore(l[1..], 1) == 0 && RowsBefore(l[1..], 1000) == 1;
    assert InsideMillisecond(l, 0) == 2;
    CrowdedMillisecondTraps(table, p, 1, 0);
  }
}
