/**
  Creating a form from a payload: the new store is sound, holds everything the payload
  lists, and its points match their options exactly when no joined text of the payload
  mixes two questions up.
 */
module FormCreate {
  import opened Options
  import opened FormStore
  import opened FormPayload
  import opened FormDraft
  import opened FormScores
  import opened FormFull

  datatype FullReport = FullReport(form: Id, version: Id, questions: nat, options: nat, scores: nat)

  // ------------------------------------------------------------- what the operation guarantees

  /** Everything the payload lists is in the new store, with all its attributes and defaults. */
  lemma PayloadIsThere(d: Db, p: Payload)
    requires Accepted(p) && AllBelow(d)
    ensures Savable(d, p)
    ensures forall k :: 0 <= k < |p.questions| ==> HasItem(FullDraft(d, p), d.next, d.next + 1, p.questions[k], k)
    ensures forall i :: 0 <= i < |p.scores| ==>
              HasScore(FullScoring(d, p), d.next + 1, p.scores[i], i, FullDraft(d, p).byKey, FullDraft(d, p).byPair)
  {
    AcceptedIsSavable(d, p);
    StartsFresh(d, p);
    forall k | 0 <= k < |p.questions| ensures HasItem(FullDraft(d, p), d.next, d.next + 1, p.questions[k], k) {
      ItemsAreThere(StartDraft(d), d.next, d.next + 1, p.questions, k);
    }
    forall i | 0 <= i < |p.scores|
      ensures HasScore(FullScoring(d, p), d.next + 1, p.scores[i], i, FullDraft(d, p).byKey, FullDraft(d, p).byPair)
    {
      FullScore(d, p, i);
    }
  }

  /** The new store is sound: in particular one version of the new form and at most one of its scores are active. */
  lemma FullIsSound(d: Db, p: Payload)
    requires Sound(d) && Accepted(p)
    ensures Savable(d, p) && Sound(FullDb(d, p))
  {
    AcceptedIsSavable(d, p);
    FullIntegrity(d, p);
    FullOneActiveScore(d, p);
  }

  // ------------------------------------------------------------- whether points match their options

  /** The text of every option point stands for a pair of the question the point names. */
  predicate Unmixed(p: Payload) {
    forall i, j :: 0 <= i < |p.scores| && 0 <= j < |p.scores[i].points| ==> PointUnmixed(p, p.scores[i].points[j])
  }

  predicate PointUnmixed(p: Payload, item: PointItem) {
    var last, text := LastPairs(p.questions, |p.questions|), Joined(item.question, item.option);
    text in last ==> last[text].0 == item.question
  }

  /** The option found for a point belongs to the point's question exactly when the text does. */
  lemma PointMatchesWhenUnmixed(d: Db, p: Payload, item: PointItem)
    requires Accepted(p) && AllBelow(d) && PointOk(FullDraft(d, p).byKey.Keys, FullDraft(d, p).byPair.Keys, item)
    ensures var t, text := FullDraft(d, p), Joined(item.question, item.option);
            t.byPair[text] in t.choices && (t.choices[t.byPair[text]].question == t.byKey[item.question]
                                            <==> PointUnmixed(p, item))
  {
    TextedChoice(d, p, Joined(item.question, item.option));
    FullQuestions(d, p);
  }

  /** The row of option point j of score i. */
  lemma PointAt(d: Db, p: Payload, i: nat, j: nat) returns (x: Id)
    requires Accepted(p) && AllBelow(d) && Savable(d, p) && i < |p.scores| && j < |p.scores[i].points|
    ensures x in FullScoring(d, p).points && i < |FullScoring(d, p).ids|
    ensures FullScoring(d, p).points[x] == PointRow(FullScoring(d, p).ids[i], p.scores[i].points[j],
                                                    FullDraft(d, p).byKey, FullDraft(d, p).byPair)
  {
    FullScore(d, p, i);
    x := PointId(FullScoring(d, p).ids[i], j);
  }

  lemma FullLinksMatch(d: Db, p: Payload)
    requires Matching(d) && Accepted(p) && Savable(d, p) && Integrity(FullDb(d, p))
    ensures LinksMatch(FullDb(d, p))
  {
    OldLinksKept(d, p);
    FullQuestionsOk(d, p);
    var e := FullDb(d, p);
    forall x | x in e.links ensures e.questions[e.links[x].question].form == e.versions[e.links[x].version].form {
      if x !in d.links { NewLink(d, p, x); }
    }
  }

  lemma OldRangeMatches(d: Db, p: Payload, x: Id)
    requires Matching(d) && Accepted(p) && Savable(d, p) && Integrity(FullDb(d, p)) && x in d.rangePoints
    ensures var e := FullDb(d, p);
            && x in e.rangePoints
            && e.questions[e.rangePoints[x].question].form == e.versions[e.scores[e.rangePoints[x].score].version].form
  {
    OldRangesKept(d, p);
    OldScoresKept(d, p);
    FullQuestionsOk(d, p);
  }

  lemma NewRangeMatches(d: Db, p: Payload, x: Id)
    requires Matching(d) && Accepted(p) && Savable(d, p) && Integrity(FullDb(d, p))
    requires x in FullDb(d, p).rangePoints && x !in d.rangePoints
    ensures var e := FullDb(d, p);
            e.questions[e.rangePoints[x].question].form == e.versions[e.scores[e.rangePoints[x].score].version].form
  {
    var i, j := NewRange(d, p, x);
    KeyedQuestion(d, p, p.scores[i].ranges[j].question);
  }

  lemma FullRangesMatch(d: Db, p: Payload)
    requires Matching(d) && Accepted(p) && Savable(d, p) && Integrity(FullDb(d, p))
    ensures RangePointsMatch(FullDb(d, p))
  {
    var e := FullDb(d, p);
    forall x | x in e.rangePoints
      ensures e.questions[e.rangePoints[x].question].form == e.versions[e.scores[e.rangePoints[x].score].version].form
    {
      if x in d.rangePoints {
        OldRangeMatches(d, p, x);
      } else {
        NewRangeMatches(d, p, x);
      }
    }
  }

  lemma FullPointsMatch(d: Db, p: Payload)
    requires Matching(d) && Accepted(p) && Savable(d, p) && Integrity(FullDb(d, p)) && Unmixed(p)
    ensures OptionPointsMatch(FullDb(d, p))
  {
    var e := FullDb(d, p);
    forall x | x in e.optionPoints
      ensures e.choices[e.optionPoints[x].choice].question == e.optionPoints[x].question
      ensures e.questions[e.optionPoints[x].question].form == e.versions[e.scores[e.optionPoints[x].score].version].form
    {
      if x in d.optionPoints {
        OldPointMatches(d, p, x);
      } else {
        NewPointMatches(d, p, x);
      }
    }
  }

  lemma OldPointMatches(d: Db, p: Payload, x: Id)
    requires Matching(d) && Accepted(p) && Savable(d, p) && Integrity(FullDb(d, p)) && x in d.optionPoints
    ensures var e := FullDb(d, p);
            && x in e.optionPoints && e.choices[e.optionPoints[x].choice].question == e.optionPoints[x].question
            && e.questions[e.optionPoints[x].question].form
                == e.versions[e.scores[e.optionPoints[x].score].version].form
  {
    OldPointsKept(d, p);
    OldScoresKept(d, p);
    FullChoicesOk(d, p);
    FullQuestionsOk(d, p);
  }

  lemma NewPointMatches(d: Db, p: Payload, x: Id)
    requires Matching(d) && Accepted(p) && Savable(d, p) && Integrity(FullDb(d, p))
    requires x in FullDb(d, p).optionPoints && x !in d.optionPoints && Unmixed(p)
    ensures var e := FullDb(d, p);
            && e.choices[e.optionPoints[x].choice].question == e.optionPoints[x].question
            && e.questions[e.optionPoints[x].question].form
                == e.versions[e.scores[e.optionPoints[x].score].version].form
  {
    var i, j := NewPoint(d, p, x);
    KeyedQuestion(d, p, p.scores[i].points[j].question);
    PointMatchesWhenUnmixed(d, p, p.scores[i].points[j]);
  }

  lemma MatchingIsUnmixed(d: Db, p: Payload)
    requires Sound(d) && Accepted(p) && Savable(d, p) && Integrity(FullDb(d, p)) && OptionPointsMatch(FullDb(d, p))
    ensures Unmixed(p)
  {
    forall i, j | 0 <= i < |p.scores| && 0 <= j < |p.scores[i].points| ensures PointUnmixed(p, p.scores[i].points[j]) {
      var x := PointAt(d, p, i, j);
      PointMatchesWhenUnmixed(d, p, p.scores[i].points[j]);
    }
  }

  /** A matching store still matches after the operation exactly when the payload is unmixed. */
  lemma FullMatchesExactlyWhenUnmixed(d: Db, p: Payload)
    requires Sound(d) && Matching(d) && Accepted(p)
    ensures Savable(d, p) && (Matching(FullDb(d, p)) <==> Unmixed(p))
  {
    FullIsSound(d, p);
    FullLinksMatch(d, p);
    FullRangesMatch(d, p);
    if Unmixed(p) {
      FullPointsMatch(d, p);
    }
    if OptionPointsMatch(FullDb(d, p)) {
      MatchingIsUnmixed(d, p);
    }
  }

  // ------------------------------------------------------------- the operation

  /** The requested number, or the next one of the form; a new form has no version yet. */
  method VersionNumber(d: Db, form: Id, requested: Option<int>) returns (n: int)
    requires Integrity(d) && form !in d.forms
    ensures n == requested.GetOr(1)
  {
    if requested.Some? {
      n := requested.value;
    } else {
      n := NextFormVersionNumber(d.versions, form);
    }
  }

  lemma {:induction false} ScoresCounted(s: Scoring, version: Id, items: seq<ScoreItem>, byKey: map<string, Id>,
                                         byPair: map<string, Id>, n: nat)
    requires n <= |items| && AllOk(items, byKey, byPair)
    ensures |ScoresSaved(s, version, items, byKey, byPair, n).ids| == |s.ids| + n
  {
    if n > 0 { ScoresCounted(s, version, items, byKey, byPair, n - 1); }
  }

  lemma FullScoreCount(d: Db, p: Payload)
    requires Savable(d, p)
    ensures |FullScoring(d, p).ids| == |p.scores|
  {
    var t := FullDraft(d, p);
    ScoresCounted(StartScoring(d, t.next), d.next + 1, p.scores, t.byKey, t.byPair, |p.scores|);
  }

  /** Question keys without a colon never mix: then every accepted payload leaves a matching store. */
  lemma ColonFreeIsUnmixed(p: Payload)
    requires Accepted(p) && forall k :: 0 <= k < |p.questions| ==> !HasColon(p.questions[k].key)
    ensures Unmixed(p)
  {
    var n := |p.questions|;
    forall i, j | 0 <= i < |p.scores| && 0 <= j < |p.scores[i].points| ensures PointUnmixed(p, p.scores[i].points[j]) {
      var item := p.scores[i].points[j];
      var text := Joined(item.question, item.option);
      if text in LastPairs(p.questions, n) {
        PairFound(p.questions, n, text);
        assert ScoreOk(KeysOf(p.questions), LastPairs(p.questions, n).Keys, p.scores[i]);
        JoinedIsInjective(item.question, item.option, LastPairs(p.questions, n)[text].0,
                          LastPairs(p.questions, n)[text].1);
      }
    }
  }

  /** An accepted payload with colons in its keys that gives points for a question by another question's option. */
  lemma MixedPayload() returns (p: Payload)
    ensures Accepted(p) && !Unmixed(p)
  {
    var q1 := QuestionItem("a", None, None, [OptionItem("b::c", None, None)], None, None);
    var q2 := QuestionItem("a::b", None, None, [OptionItem("c", None, None)], None, None);
    var s := ScoreItem("s", None, [PointItem("a", "b::c", 1.0)], []);
    p := Payload("f", None, None, [q1, q2], [s]);
    JoinedIsAmbiguous();
    MixedLookup(q1, q2);
    assert q1 == p.questions[0] && q2 == p.questions[1];
    assert "a" in KeysOf(p.questions);
    assert PointUnmixed(p, s.points[0]) ==> false;
    assert !PointUnmixed(p, p.scores[0].points[0]);
  }

  lemma OnlyOption(last: map<string, (string, string)>, q: QuestionItem)
    requires |q.options| == 1
    ensures AddPairs(last, q, 1) == last[Joined(q.key, q.options[0].key) := (q.key, q.options[0].key)]
  {
    assert AddPairs(last, q, 0) == last;
  }

  lemma MixedLookup(q1: QuestionItem, q2: QuestionItem)
    requires |q1.options| == |q2.options| == 1 && Joined(q1.key, q1.options[0].key) == Joined(q2.key, q2.options[0].key)
    ensures LastPairs([q1, q2], 2) == map[Joined(q1.key, q1.options[0].key) := (q2.key, q2.options[0].key)]
  {
    var items := [q1, q2];
    OnlyOption(map[], q1);
    OnlyOption(AddPairs(map[], q1, 1), q2);
    assert LastPairs(items, 0) == map[];
    assert LastPairs(items, 1) == AddPairs(map[], items[0], 1);
    assert LastPairs(items, 2) == AddPairs(LastPairs(items, 1), items[1], 1);
  }

  lemma SavableIsAccepted(d: Db, p: Payload)
    requires HeaderOk(p)
    ensures OptionsOk(p.questions) && Savable(d, p) <==> Accepted(p)
  {
    if OptionsOk(p.questions) { AcceptedIsSavable(d, p); }
  }

  /** The saves of questions and scores; a refused row leaves nothing. */
  method SaveContent(d: Db, p: Payload) returns (r: Option<(Draft, Scoring)>, options: nat)
    ensures r.Some? <==> OptionsOk(p.questions) && Savable(d, p)
    ensures r.Some? ==>
              && r.value == (FullDraft(d, p), FullScoring(d, p))
              && options == OptionCount(p.questions, |p.questions|)
  {
    var draft, count := SaveItems(StartDraft(d), d.next, d.next + 1, p.questions);
    if draft.None? {
      return None, 0;
    }
    var t := draft.value;
    var scoring := SaveScores(StartScoring(d, t.next), d.next + 1, p.scores, t.byKey, t.byPair);
    if scoring.None? {
      return None, 0;
    }
    r, options := Some((t, scoring.value)), count;
  }

  /** The launch and the season a form is created for. */
  datatype Origin = Origin(launch: Option<Id>, season: Option<Id>)

  predicate OriginFound(o: Origin, launches: set<Id>, seasons: map<Id, Option<Id>>) {
    (o.launch.Some? ==> o.launch.value in launches) && (o.season.Some? ==> o.season.value in seasons)
  }

  /** A season that belongs to a launch belongs to the one given. */
  predicate OriginConsistent(o: Origin, seasons: map<Id, Option<Id>>)
    requires o.season.Some? ==> o.season.value in seasons
  {
    o.launch.Some? && o.season.Some? && seasons[o.season.value].Some? ==> seasons[o.season.value] == o.launch
  }

  method CreateFull(fm: FormManagement, p: Payload, o: Origin, launches: set<Id>, seasons: map<Id, Option<Id>>)
    returns (r: Result<FullReport, FormError>)
    requires Sound(fm.db)
    modifies fm
    ensures Sound(fm.db)
    ensures r.Ok? <==> Accepted(p) && OriginFound(o, launches, seasons) && OriginConsistent(o, seasons)
    ensures r == Err(NotFound) <==> HeaderOk(p) && !OriginFound(o, launches, seasons)
    ensures r.Err? ==> fm.db == old(fm.db)
    ensures r.Ok? ==> Savable(old(fm.db), p) && fm.db == FullDb(old(fm.db), p)
    ensures r.Ok? ==>
            r.value == FullReport(old(fm.db).next, old(fm.db).next + 1, |p.questions|,
                                  OptionCount(p.questions, |p.questions|), |p.scores|)
  {
    var d := fm.db;
    if !HeaderOk(p) {
      return Err(BadRequest);
    }
    if !OriginFound(o, launches, seasons) {
      return Err(NotFound);
    }
    if !OriginConsistent(o, seasons) {
      return Err(BadRequest);
    }
    var form, version := d.next, d.next + 1;
    var number := VersionNumber(d, form, p.number);
    var saved, options := SaveContent(d, p);
    SavableIsAccepted(d, p);
    if saved.None? {
      return Err(BadRequest);
    }
    FullIsSound(d, p);
    FullScoreCount(d, p);
    var t, c := saved.value.0, saved.value.1;
    fm.db := d.(forms := d.forms + {form},
                versions := d.versions[version := Version(form, number, p.active.GetOr(true))],
                questions := t.questions, choices := t.choices, links := t.links,
                scores := c.scores, optionPoints := c.points, rangePoints := c.ranges, next := c.next);
    r := Ok(FullReport(form, version, |p.questions|, options, |c.ids|));
  }
}
