/**
  What saving the scores of a payload leaves in the tables. Every score with its option
  points and range points is there, rows that were there stay, and nothing else is new. A
  score's points are saved right behind it, so their ids follow from the score's. As for
  questions, the properties are shown for one score and carried over the loop by one
  principle of induction, AllScores.
 */
module FormScores {
  import opened Options
  import opened FormStore
  import opened FormPayload

  // ------------------------------------------------------------- what all scores leave

  /** The id option point j of a score is saved under. */
  function PointId(score: Id, j: nat): Id {
    score + 1 + j
  }

  function RangeId(score: Id, item: ScoreItem, j: nat): Id {
    score + 1 + |item.points| + j
  }

  ghost predicate AllOk(items: seq<ScoreItem>, byKey: map<string, Id>, byPair: map<string, Id>) {
    ScoreItemsOk(byKey.Keys, byPair.Keys, items)
  }

  /** Saving one more score keeps the property. */
  ghost predicate ScoreInductive(P: (Scoring, nat) -> bool, version: Id, items: seq<ScoreItem>, byKey: map<string, Id>,
                                 byPair: map<string, Id>)
    requires AllOk(items, byKey, byPair)
  {
    forall t: Scoring, k: nat :: k < |items| && |t.ids| == k && P(t, k) ==>
        P(ScoreSaved(t, version, items[k], byKey, byPair), k + 1)
  }

  lemma {:induction false} AllScores(P: (Scoring, nat) -> bool, s: Scoring, version: Id, items: seq<ScoreItem>,
                                     byKey: map<string, Id>, byPair: map<string, Id>, n: nat)
    requires n <= |items| && AllOk(items, byKey, byPair) && s.ids == [] && P(s, 0)
             && ScoreInductive(P, version, items, byKey, byPair)
    ensures P(ScoresSaved(s, version, items, byKey, byPair, n), n)
            && |ScoresSaved(s, version, items, byKey, byPair, n).ids| == n
  {
    if n > 0 {
      AllScores(P, s, version, items, byKey, byPair, n - 1);
      var t := ScoresSaved(s, version, items, byKey, byPair, n - 1);
      assert P(ScoreSaved(t, version, items[n - 1], byKey, byPair), n);
    }
  }

  ghost predicate ScoringBounded(s: Scoring) {
    Below(s.scores.Keys, s.next) && Below(s.points.Keys, s.next) && Below(s.ranges.Keys, s.next)
  }

  lemma ScoreBounded(s: Scoring, version: Id, item: ScoreItem, byKey: map<string, Id>, byPair: map<string, Id>)
    requires ScoreOk(byKey.Keys, byPair.Keys, item) && ScoringBounded(s)
    ensures ScoringBounded(ScoreSaved(s, version, item, byKey, byPair))
  {
    AddedAre(s.points, s.next + 1, PointRows(s.next, item, byKey, byPair));
    AddedAre(s.ranges, s.next + 1 + |item.points|, RangeRows(s.next, item, byKey, byPair));
  }

  /** The i-th score of the payload is in the tables with all its points. */
  ghost predicate HasScore(s: Scoring, version: Id, item: ScoreItem, i: nat, byKey: map<string, Id>,
                           byPair: map<string, Id>)
    requires ScoreOk(byKey.Keys, byPair.Keys, item)
  {
    && i < |s.ids| && s.ids[i] in s.scores && s.scores[s.ids[i]] == ScoreRow(version, item)
    && HasPoints(s.points, s.ids[i], item, byKey, byPair) && HasRanges(s.ranges, s.ids[i], item, byKey, byPair)
  }

  ghost predicate HasPoints(points: map<Id, OptionPoint>, score: Id, item: ScoreItem, byKey: map<string, Id>,
                            byPair: map<string, Id>)
    requires ScoreOk(byKey.Keys, byPair.Keys, item)
  {
    forall j :: 0 <= j < |item.points| ==>
      PointId(score, j) in points && points[PointId(score, j)] == PointRow(score, item.points[j], byKey, byPair)
  }

  ghost predicate HasRanges(ranges: map<Id, RangePoint>, score: Id, item: ScoreItem, byKey: map<string, Id>,
                            byPair: map<string, Id>)
    requires ScoreOk(byKey.Keys, byPair.Keys, item)
  {
    forall j :: 0 <= j < |item.ranges| ==>
      RangeId(score, item, j) in ranges && ranges[RangeId(score, item, j)] == RangeRow(score, item.ranges[j], byKey)
  }

  lemma {:induction false} AddedAt<R>(rows: map<Id, R>, next: Id, items: seq<R>, j: nat)
    requires j < |items|
    ensures next + j in Added(rows, next, items) && Added(rows, next, items)[next + j] == items[j]
  {
    if j < |items| - 1 { AddedAt(rows, next, items[..|items| - 1], j); }
  }

  lemma {:induction false} AddedKeeps<R>(rows: map<Id, R>, next: Id, items: seq<R>, x: Id)
    requires x in rows && x < next
    ensures x in Added(rows, next, items) && Added(rows, next, items)[x] == rows[x]
  {
    if items != [] { AddedKeeps(rows, next, items[..|items| - 1], x); }
  }

  lemma ScoreIsThere(s: Scoring, version: Id, item: ScoreItem, byKey: map<string, Id>, byPair: map<string, Id>)
    requires ScoreOk(byKey.Keys, byPair.Keys, item)
    ensures HasScore(ScoreSaved(s, version, item, byKey, byPair), version, item, |s.ids|, byKey, byPair)
  {
    var points := Added(s.points, s.next + 1, PointRows(s.next, item, byKey, byPair));
    forall j | 0 <= j < |item.points|
      ensures PointId(s.next, j) in points
              && points[PointId(s.next, j)] == PointRow(s.next, item.points[j], byKey, byPair)
    {
      AddedAt(s.points, s.next + 1, PointRows(s.next, item, byKey, byPair), j);
    }
    var ranges := Added(s.ranges, s.next + 1 + |item.points|, RangeRows(s.next, item, byKey, byPair));
    forall j | 0 <= j < |item.ranges|
      ensures RangeId(s.next, item, j) in ranges
              && ranges[RangeId(s.next, item, j)] == RangeRow(s.next, item.ranges[j], byKey)
    {
      AddedAt(s.ranges, s.next + 1 + |item.points|, RangeRows(s.next, item, byKey, byPair), j);
    }
  }

  lemma PointsStay(points: map<Id, OptionPoint>, next: Id, rows: seq<OptionPoint>, score: Id, item: ScoreItem,
                   byKey: map<string, Id>, byPair: map<string, Id>)
    requires ScoreOk(byKey.Keys, byPair.Keys, item) && HasPoints(points, score, item, byKey, byPair)
             && Below(points.Keys, next)
    ensures HasPoints(Added(points, next, rows), score, item, byKey, byPair)
  {
    forall j | 0 <= j < |item.points|
      ensures PointId(score, j) in Added(points, next, rows)
              && Added(points, next, rows)[PointId(score, j)] == points[PointId(score, j)]
    {
      AddedKeeps(points, next, rows, PointId(score, j));
    }
  }

  lemma RangesStay(ranges: map<Id, RangePoint>, next: Id, rows: seq<RangePoint>, score: Id, item: ScoreItem,
                   byKey: map<string, Id>, byPair: map<string, Id>)
    requires ScoreOk(byKey.Keys, byPair.Keys, item) && HasRanges(ranges, score, item, byKey, byPair)
             && Below(ranges.Keys, next)
    ensures HasRanges(Added(ranges, next, rows), score, item, byKey, byPair)
  {
    forall j | 0 <= j < |item.ranges|
      ensures RangeId(score, item, j) in Added(ranges, next, rows)
              && Added(ranges, next, rows)[RangeId(score, item, j)] == ranges[RangeId(score, item, j)]
    {
      AddedKeeps(ranges, next, rows, RangeId(score, item, j));
    }
  }

  lemma ScoreStays(s: Scoring, version: Id, item: ScoreItem, i: nat, other: ScoreItem, byKey: map<string, Id>,
                   byPair: map<string, Id>)
    requires ScoreOk(byKey.Keys, byPair.Keys, item) && ScoreOk(byKey.Keys, byPair.Keys, other) && ScoringBounded(s)
    requires HasScore(s, version, item, i, byKey, byPair)
    ensures HasScore(ScoreSaved(s, version, other, byKey, byPair), version, item, i, byKey, byPair)
  {
    PointsStay(s.points, s.next + 1, PointRows(s.next, other, byKey, byPair), s.ids[i], item, byKey, byPair);
    RangesStay(s.ranges, s.next + 1 + |other.points|, RangeRows(s.next, other, byKey, byPair), s.ids[i], item, byKey,
               byPair);
  }

  lemma ScoresAreThere(s: Scoring, version: Id, items: seq<ScoreItem>, byKey: map<string, Id>, byPair: map<string, Id>,
                       i: nat)
    requires i < |items| && AllOk(items, byKey, byPair) && s.ids == [] && ScoringBounded(s)
    ensures HasScore(ScoresSaved(s, version, items, byKey, byPair, |items|), version, items[i], i, byKey, byPair)
  {
    var P := (t: Scoring, k: nat) => ScoringBounded(t) && (i < k ==> HasScore(t, version, items[i], i, byKey, byPair));
    forall t: Scoring, k: nat | k < |items| && |t.ids| == k && P(t, k)
      ensures P(ScoreSaved(t, version, items[k], byKey, byPair), k + 1)
    {
      ScoreBounded(t, version, items[k], byKey, byPair);
      if i < k {
        ScoreStays(t, version, items[i], i, items[k], byKey, byPair);
      } else if i == k {
        ScoreIsThere(t, version, items[k], byKey, byPair);
      }
    }
    AllScores(P, s, version, items, byKey, byPair, |items|);
  }

  /** A new score, option point or range point is one of the payload's. */
  ghost predicate IsScore(ids: seq<Id>, n: nat, x: Id) {
    n <= |ids| && exists i :: 0 <= i < n && ids[i] == x
  }

  ghost predicate IsPoint(ids: seq<Id>, items: seq<ScoreItem>, n: nat, x: Id) {
    n <= |ids| && n <= |items| && exists i, j :: 0 <= i < n && 0 <= j < |items[i].points| && PointId(ids[i], j) == x
  }

  ghost predicate IsRange(ids: seq<Id>, items: seq<ScoreItem>, n: nat, x: Id) {
    n <= |ids| && n <= |items| && exists i, j ::
      && 0 <= i < n && 0 <= j < |items[i].ranges|
      && RangeId(ids[i], items[i], j) == x
  }

  /** The old rows are kept and the next id is not used by any. */
  ghost predicate Kept<R>(before: map<Id, R>, after: map<Id, R>, next: Id) {
    Below(after.Keys, next) && forall x :: x in before ==> x in after && after[x] == before[x]
  }

  /** The tables hold their old rows and the first n scores with their points, nothing else. */
  ghost predicate ScoresDrafted(before: Scoring, s: Scoring, n: nat) {
    Kept(before.scores, s.scores, s.next) && forall x :: x in s.scores && x !in before.scores ==> IsScore(s.ids, n, x)
  }

  ghost predicate PointsDrafted(before: Scoring, s: Scoring, items: seq<ScoreItem>, n: nat) {
    Kept(before.points, s.points, s.next) && forall x :: x in s.points && x !in before.points ==>
        IsPoint(s.ids, items, n, x)
  }

  ghost predicate RangesDrafted(before: Scoring, s: Scoring, items: seq<ScoreItem>, n: nat) {
    Kept(before.ranges, s.ranges, s.next) && forall x :: x in s.ranges && x !in before.ranges ==>
        IsRange(s.ids, items, n, x)
  }

  lemma MoreIds(ids: seq<Id>, items: seq<ScoreItem>, n: nat, x: Id, id: Id)
    ensures IsScore(ids, n, x) ==> IsScore(ids + [id], n + 1, x)
    ensures IsPoint(ids, items, n, x) && n < |items| ==> IsPoint(ids + [id], items, n + 1, x)
    ensures IsRange(ids, items, n, x) && n < |items| ==> IsRange(ids + [id], items, n + 1, x)
  {
    if IsScore(ids, n, x) {
      var i :| 0 <= i < n && ids[i] == x;
      assert (ids + [id])[i] == x;
    }
    if IsPoint(ids, items, n, x) && n < |items| {
      var i, j :| 0 <= i < n && 0 <= j < |items[i].points| && PointId(ids[i], j) == x;
      assert PointId((ids + [id])[i], j) == x;
    }
    if IsRange(ids, items, n, x) && n < |items| {
      var i, j :| 0 <= i < n && 0 <= j < |items[i].ranges| && RangeId(ids[i], items[i], j) == x;
      assert RangeId((ids + [id])[i], items[i], j) == x;
    }
  }

  lemma OneMoreScore(before: Scoring, s: Scoring, version: Id, items: seq<ScoreItem>, k: nat, byKey: map<string, Id>,
                     byPair: map<string, Id>)
    requires k < |items| && |s.ids| == k && ScoreOk(byKey.Keys, byPair.Keys, items[k]) && ScoresDrafted(before, s, k)
    ensures ScoresDrafted(before, ScoreSaved(s, version, items[k], byKey, byPair), k + 1)
  {
    var t := ScoreSaved(s, version, items[k], byKey, byPair);
    forall x | x in t.scores && x !in before.scores ensures IsScore(t.ids, k + 1, x) {
      if x == s.next {
        assert t.ids[k] == x;
      } else {
        MoreIds(s.ids, items, k, x, s.next);
      }
    }
  }

  lemma MorePoints(before: Scoring, s: Scoring, version: Id, items: seq<ScoreItem>, k: nat, byKey: map<string, Id>,
                   byPair: map<string, Id>)
    requires k < |items| && |s.ids| == k && ScoreOk(byKey.Keys, byPair.Keys, items[k])
             && PointsDrafted(before, s, items, k)
    ensures PointsDrafted(before, ScoreSaved(s, version, items[k], byKey, byPair), items, k + 1)
  {
    var t := ScoreSaved(s, version, items[k], byKey, byPair);
    AddedAre(s.points, s.next + 1, PointRows(s.next, items[k], byKey, byPair));
    forall x | x in t.points && x !in before.points ensures IsPoint(t.ids, items, k + 1, x) {
      if x in s.points {
        MoreIds(s.ids, items, k, x, s.next);
      } else {
        assert PointId(t.ids[k], x - s.next - 1) == x;
      }
    }
  }

  lemma NewRangeIs(ids: seq<Id>, items: seq<ScoreItem>, k: nat, x: Id, id: Id)
    requires |ids| == k < |items| && 0 <= x - id - 1 - |items[k].points| < |items[k].ranges|
    ensures IsRange(ids + [id], items, k + 1, x)
  {
    assert RangeId((ids + [id])[k], items[k], x - id - 1 - |items[k].points|) == x;
  }

  lemma MoreRanges(before: Scoring, s: Scoring, version: Id, items: seq<ScoreItem>, k: nat, byKey: map<string, Id>,
                   byPair: map<string, Id>)
    requires k < |items| && |s.ids| == k && ScoreOk(byKey.Keys, byPair.Keys, items[k])
             && RangesDrafted(before, s, items, k)
    ensures RangesDrafted(before, ScoreSaved(s, version, items[k], byKey, byPair), items, k + 1)
  {
    var t := ScoreSaved(s, version, items[k], byKey, byPair);
    AddedAre(s.ranges, s.next + 1 + |items[k].points|, RangeRows(s.next, items[k], byKey, byPair));
    forall x | x in t.ranges && x !in before.ranges ensures IsRange(t.ids, items, k + 1, x) {
      if x in s.ranges {
        MoreIds(s.ids, items, k, x, s.next);
      } else {
        NewRangeIs(s.ids, items, k, x, s.next);
      }
    }
  }

  lemma NothingElse(s: Scoring, version: Id, items: seq<ScoreItem>, byKey: map<string, Id>, byPair: map<string, Id>)
    requires AllOk(items, byKey, byPair) && s.ids == [] && ScoringBounded(s)
    ensures ScoresDrafted(s, ScoresSaved(s, version, items, byKey, byPair, |items|), |items|)
    ensures PointsDrafted(s, ScoresSaved(s, version, items, byKey, byPair, |items|), items, |items|)
    ensures RangesDrafted(s, ScoresSaved(s, version, items, byKey, byPair, |items|), items, |items|)
  {
    var P := (t: Scoring, k: nat) => ScoresDrafted(s, t, k) && PointsDrafted(s, t, items, k)
        && RangesDrafted(s, t, items, k);
    forall t: Scoring, k: nat | k < |items| && |t.ids| == k && P(t, k)
      ensures P(ScoreSaved(t, version, items[k], byKey, byPair), k + 1)
    {
      OneMoreScore(s, t, version, items, k, byKey, byPair);
      MorePoints(s, t, version, items, k, byKey, byPair);
      MoreRanges(s, t, version, items, k, byKey, byPair);
    }
    AllScores(P, s, version, items, byKey, byPair, |items|);
  }
}
