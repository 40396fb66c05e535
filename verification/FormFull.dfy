/**
  The store after a form has been created from a payload, table by table: where each new
  row comes from, that old rows are kept, that foreign keys hold and that at most one new
  score is active. Created rows are numbered from the store's next id on: the form first,
  then its version, then the questions with their options and links, then the scores with
  their points.
 */
module FormFull {
  import opened Options
  import opened FormStore
  import opened FormPayload
  import opened FormDraft
  import opened FormScores

  // ------------------------------------------------------------- the new store

  function StartDraft(d: Db): Draft {
    Draft(d.questions, d.choices, d.links, map[], map[], map[], map[], d.next + 2)
  }

  /** The question tables after the whole payload; the form is d.next and its version d.next + 1. */
  function FullDraft(d: Db, p: Payload): Draft {
    ItemsSaved(StartDraft(d), d.next, d.next + 1, p.questions, |p.questions|)
  }

  function StartScoring(d: Db, next: Id): Scoring {
    Scoring(d.scores, d.optionPoints, d.rangePoints, [], next)
  }

  ghost predicate Savable(d: Db, p: Payload) {
    AllOk(p.scores, FullDraft(d, p).byKey, FullDraft(d, p).byPair)
  }

  function FullScoring(d: Db, p: Payload): Scoring
    requires Savable(d, p)
  {
    var t := FullDraft(d, p);
    ScoresSaved(StartScoring(d, t.next), d.next + 1, p.scores, t.byKey, t.byPair, |p.scores|)
  }

  function FullVersion(d: Db, p: Payload): Version {
    Version(d.next, p.number.GetOr(1), p.active.GetOr(true))
  }

  /** The store after the whole payload. */
  function FullDb(d: Db, p: Payload): Db
    requires Savable(d, p)
  {
    var t, c := FullDraft(d, p), FullScoring(d, p);
    d.(forms := d.forms + {d.next}, versions := d.versions[d.next + 1 := FullVersion(d, p)],
       questions := t.questions, choices := t.choices, links := t.links,
       scores := c.scores, optionPoints := c.points, rangePoints := c.ranges, next := c.next)
  }

  lemma StartsFresh(d: Db, p: Payload)
    requires Accepted(p) && AllBelow(d)
    ensures Start(StartDraft(d), p.questions) && Bounded(StartDraft(d))
    ensures QuestionRows(d.questions, StartDraft(d), d.next) && LinkRows(d.links, StartDraft(d), d.next + 1)
            && ChoicesDrafted(d.choices, StartDraft(d))
  {
  }

  /** The keys the scores may use are the payload's. */
  lemma AcceptedIsSavable(d: Db, p: Payload)
    requires HeaderOk(p) && OptionsOk(p.questions)
    ensures Savable(d, p) <==> Accepted(p)
  {
    var t := FullDraft(d, p);
    AllLookups(StartDraft(d), d.next, d.next + 1, p.questions, |p.questions|);
    assert t.byPair.Keys == LastPairs(p.questions, |p.questions|).Keys;
    forall key ensures key in t.byKey.Keys <==> key in KeysOf(p.questions) {
      KeysSaved(StartDraft(d), d.next, d.next + 1, p.questions, |p.questions|, key);
    }
    assert t.byKey.Keys == KeysOf(p.questions);
  }

  /** Each new question, link and option is one of the payload's and fits the form. */
  lemma FullQuestions(d: Db, p: Payload)
    requires Accepted(p) && AllBelow(d)
    ensures QuestionRows(d.questions, FullDraft(d, p), d.next)
  {
    StartsFresh(d, p);
    AllQuestions(d.questions, StartDraft(d), d.next, d.next + 1, p.questions, |p.questions|);
  }

  lemma FullLinks(d: Db, p: Payload)
    requires Accepted(p) && AllBelow(d)
    ensures LinkRows(d.links, FullDraft(d, p), d.next + 1)
  {
    StartsFresh(d, p);
    AllLinks(d.links, StartDraft(d), d.next, d.next + 1, p.questions, |p.questions|);
  }

  lemma FullChoices(d: Db, p: Payload)
    requires Accepted(p) && AllBelow(d)
    ensures ChoicesDrafted(d.choices, FullDraft(d, p))
  {
    StartsFresh(d, p);
    AllChoices(d.choices, StartDraft(d), d.next, d.next + 1, p.questions, |p.questions|);
  }

  lemma FullLookup(d: Db, p: Payload)
    requires Accepted(p) && AllBelow(d)
    ensures Lookup(FullDraft(d, p), p.questions, |p.questions|)
  {
    StartsFresh(d, p);
    AllLookups(StartDraft(d), d.next, d.next + 1, p.questions, |p.questions|);
  }

  lemma ScoringStarts(d: Db, p: Payload)
    requires Accepted(p) && AllBelow(d)
    ensures ScoringBounded(StartScoring(d, FullDraft(d, p).next))
    ensures d.next + 1 < FullDraft(d, p).next
  {
    NextGrows(StartDraft(d), d.next, d.next + 1, p.questions, |p.questions|);
  }

  lemma {:induction false} NextGrows(s: Draft, form: Id, version: Id, items: seq<QuestionItem>, n: nat)
    requires n <= |items|
    ensures s.next <= ItemsSaved(s, form, version, items, n).next
  {
    if n > 0 {
      NextGrows(s, form, version, items, n - 1);
      ItemFrame(ItemsSaved(s, form, version, items, n - 1), form, version, items[n - 1], n - 1);
    }
  }

  /** The new score tables hold the payload's scores and points, nothing else new. */
  lemma FullScores(d: Db, p: Payload)
    requires Accepted(p) && AllBelow(d)
    ensures Savable(d, p)
    ensures var c, was := FullScoring(d, p), StartScoring(d, FullDraft(d, p).next);
            ScoresDrafted(was, c, |p.scores|) && PointsDrafted(was, c, p.scores, |p.scores|)
                && RangesDrafted(was, c, p.scores, |p.scores|)
  {
    AcceptedIsSavable(d, p);
    ScoringStarts(d, p);
    var t := FullDraft(d, p);
    NothingElse(StartScoring(d, t.next), d.next + 1, p.scores, t.byKey, t.byPair);
  }

  lemma FullScore(d: Db, p: Payload, i: nat)
    requires Accepted(p) && AllBelow(d) && i < |p.scores| && Savable(d, p)
    ensures HasScore(FullScoring(d, p), d.next + 1, p.scores[i], i, FullDraft(d, p).byKey, FullDraft(d, p).byPair)
  {
    ScoringStarts(d, p);
    var t := FullDraft(d, p);
    ScoresAreThere(StartScoring(d, t.next), d.next + 1, p.scores, t.byKey, t.byPair, i);
  }

  // ------------------------------------------------------------- the new store is well formed

  /** Where a new option point comes from. */
  lemma NewPoint(d: Db, p: Payload, x: Id) returns (i: nat, j: nat)
    requires Accepted(p) && AllBelow(d) && Savable(d, p)
    requires x in FullScoring(d, p).points && x !in d.optionPoints
    ensures i < |p.scores| && j < |p.scores[i].points| && i < |FullScoring(d, p).ids|
    ensures FullScoring(d, p).points[x] == PointRow(FullScoring(d, p).ids[i], p.scores[i].points[j],
                                                    FullDraft(d, p).byKey, FullDraft(d, p).byPair)
    ensures FullScoring(d, p).ids[i] in FullScoring(d, p).scores
    ensures FullScoring(d, p).scores[FullScoring(d, p).ids[i]].version == d.next + 1
  {
    FullScores(d, p);
    var c := FullScoring(d, p);
    i, j :| 0 <= i < |p.scores| && 0 <= j < |p.scores[i].points| && PointId(c.ids[i], j) == x;
    FullScore(d, p, i);
  }

  lemma NewRange(d: Db, p: Payload, x: Id) returns (i: nat, j: nat)
    requires Accepted(p) && AllBelow(d) && Savable(d, p)
    requires x in FullScoring(d, p).ranges && x !in d.rangePoints
    ensures i < |p.scores| && j < |p.scores[i].ranges| && i < |FullScoring(d, p).ids|
    ensures FullScoring(d, p).ranges[x] == RangeRow(FullScoring(d, p).ids[i], p.scores[i].ranges[j],
                                                    FullDraft(d, p).byKey)
    ensures FullScoring(d, p).ids[i] in FullScoring(d, p).scores
    ensures FullScoring(d, p).scores[FullScoring(d, p).ids[i]].version == d.next + 1
  {
    FullScores(d, p);
    var c := FullScoring(d, p);
    i, j :| 0 <= i < |p.scores| && 0 <= j < |p.scores[i].ranges| && RangeId(c.ids[i], p.scores[i], j) == x;
    FullScore(d, p, i);
  }

  /** Where a new score comes from. */
  lemma NewScore(d: Db, p: Payload, x: Id) returns (i: nat)
    requires Accepted(p) && AllBelow(d) && Savable(d, p)
    requires x in FullScoring(d, p).scores && x !in d.scores
    ensures i < |p.scores| && i < |FullScoring(d, p).ids| && FullScoring(d, p).ids[i] == x
    ensures FullScoring(d, p).scores[x] == ScoreRow(d.next + 1, p.scores[i])
  {
    FullScores(d, p);
    var c := FullScoring(d, p);
    i :| 0 <= i < |p.scores| && c.ids[i] == x;
    FullScore(d, p, i);
  }

  /** A key's question is a row of the form, and a text's option a row of the question its pair names. */
  lemma KeyedQuestion(d: Db, p: Payload, key: string)
    requires Accepted(p) && AllBelow(d) && key in FullDraft(d, p).byKey
    ensures FullDraft(d, p).byKey[key] in FullDraft(d, p).questions
    ensures FullDraft(d, p).questions[FullDraft(d, p).byKey[key]].form == d.next
  {
    FullQuestions(d, p);
  }

  lemma TextedChoice(d: Db, p: Payload, text: string)
    requires Accepted(p) && AllBelow(d) && text in FullDraft(d, p).byPair
    ensures text in LastPairs(p.questions, |p.questions|)
    ensures LastPairs(p.questions, |p.questions|)[text].0 in FullDraft(d, p).byKey
    ensures FullDraft(d, p).byPair[text] in FullDraft(d, p).choices
    ensures FullDraft(d, p).choices[FullDraft(d, p).byPair[text]].question
            == FullDraft(d, p).byKey[LastPairs(p.questions, |p.questions|)[text].0]
  {
    FullChoices(d, p);
    FullLookup(d, p);
    var t := FullDraft(d, p);
    assert PairFits(t, LastPairs(p.questions, |p.questions|)[text]);
  }

  lemma OldScoresKept(d: Db, p: Payload)
    requires Accepted(p) && AllBelow(d) && Savable(d, p)
    ensures forall x :: x in d.scores ==> x in FullScoring(d, p).scores && FullScoring(d, p).scores[x] == d.scores[x]
  {
    FullScores(d, p);
  }

  lemma OldPointsKept(d: Db, p: Payload)
    requires Accepted(p) && AllBelow(d) && Savable(d, p)
    ensures forall x :: x in d.optionPoints ==>
              && x in FullScoring(d, p).points
              && FullScoring(d, p).points[x] == d.optionPoints[x]
  {
    FullScores(d, p);
  }

  lemma OldRangesKept(d: Db, p: Payload)
    requires Accepted(p) && AllBelow(d) && Savable(d, p)
    ensures forall x :: x in d.rangePoints ==>
              && x in FullScoring(d, p).ranges
              && FullScoring(d, p).ranges[x] == d.rangePoints[x]
  {
    FullScores(d, p);
  }

  lemma FullQuestionsOk(d: Db, p: Payload)
    requires Integrity(d) && Accepted(p)
    ensures FormStore.QuestionsOk(d.forms + {d.next}, FullDraft(d, p).questions)
    ensures forall x :: x in d.questions ==>
              && x in FullDraft(d, p).questions
              && FullDraft(d, p).questions[x] == d.questions[x]
  {
    FullQuestions(d, p);
    var t := FullDraft(d, p);
    forall x | x in t.questions && x !in d.questions ensures t.questions[x].form == d.next {
      var key := NewRowKey(d.questions, t.questions, t.byKey, x);
    }
  }

  lemma FullChoicesOk(d: Db, p: Payload)
    requires Integrity(d) && Accepted(p)
    ensures ChoicesOk(FullDraft(d, p).questions.Keys, FullDraft(d, p).choices)
    ensures forall x :: x in d.choices ==> x in FullDraft(d, p).choices && FullDraft(d, p).choices[x] == d.choices[x]
  {
    FullChoices(d, p);
    FullQuestionsOk(d, p);
    var t := FullDraft(d, p);
    forall x | x in t.choices && x !in d.choices ensures t.choices[x].question in t.questions {
      var pair := NewRowKey(d.choices, t.choices, t.ids, x);
      assert PairFits(t, pair);
      KeyedQuestion(d, p, pair.0);
    }
  }

  lemma NewLink(d: Db, p: Payload, x: Id)
    requires AllBelow(d) && Accepted(p) && x in FullDraft(d, p).links && x !in d.links
    ensures FullDraft(d, p).links[x].version == d.next + 1
    ensures FullDraft(d, p).links[x].question in FullDraft(d, p).questions
    ensures FullDraft(d, p).questions[FullDraft(d, p).links[x].question].form == d.next
  {
    FullLinks(d, p);
    var t := FullDraft(d, p);
    var key := NewRowKey(d.links, t.links, t.linkIds, x);
    KeyedQuestion(d, p, key);
  }

  lemma OldLinksKept(d: Db, p: Payload)
    requires AllBelow(d) && Accepted(p)
    ensures forall x :: x in d.links ==> x in FullDraft(d, p).links && FullDraft(d, p).links[x] == d.links[x]
  {
    FullLinks(d, p);
  }

  lemma FullLinksOk(d: Db, p: Payload)
    requires Integrity(d) && Accepted(p)
    ensures LinksOk(d.versions.Keys + {d.next + 1}, FullDraft(d, p).questions.Keys, FullDraft(d, p).links)
  {
    OldLinksKept(d, p);
    FullQuestionsOk(d, p);
    var t := FullDraft(d, p);
    forall x | x in t.links && x !in d.links
      ensures t.links[x].version == d.next + 1 && t.links[x].question in t.questions
    {
      NewLink(d, p, x);
    }
  }

  lemma FullScoresOk(d: Db, p: Payload)
    requires Integrity(d) && Accepted(p) && Savable(d, p)
    ensures ScoresOk(d.versions.Keys + {d.next + 1}, FullScoring(d, p).scores)
    ensures forall x :: x in d.scores ==> x in FullScoring(d, p).scores && FullScoring(d, p).scores[x] == d.scores[x]
  {
    OldScoresKept(d, p);
    forall x | x in FullScoring(d, p).scores && x !in d.scores
      ensures FullScoring(d, p).scores[x].version == d.next + 1
    {
      var i := NewScore(d, p, x);
    }
  }

  lemma FullPointsOk(d: Db, p: Payload)
    requires Integrity(d) && Accepted(p) && Savable(d, p)
    ensures OptionPointsOk(FullScoring(d, p).scores.Keys, FullDraft(d, p).questions.Keys, FullDraft(d, p).choices.Keys,
                           FullScoring(d, p).points)
  {
    OldPointsKept(d, p);
    FullScoresOk(d, p);
    FullChoicesOk(d, p);
    FullQuestionsOk(d, p);
    var c, t := FullScoring(d, p), FullDraft(d, p);
    forall x | x in c.points && x !in d.optionPoints
      ensures c.points[x].score in c.scores && c.points[x].question in t.questions && c.points[x].choice in t.choices
    {
      var i, j := NewPoint(d, p, x);
      KeyedQuestion(d, p, p.scores[i].points[j].question);
      TextedChoice(d, p, Joined(p.scores[i].points[j].question, p.scores[i].points[j].option));
    }
  }

  lemma FullRangesOk(d: Db, p: Payload)
    requires Integrity(d) && Accepted(p) && Savable(d, p)
    ensures RangePointsOk(FullScoring(d, p).scores.Keys, FullDraft(d, p).questions.Keys, FullScoring(d, p).ranges)
  {
    OldRangesKept(d, p);
    FullScoresOk(d, p);
    FullQuestionsOk(d, p);
    var c, t := FullScoring(d, p), FullDraft(d, p);
    forall x | x in c.ranges && x !in d.rangePoints
      ensures c.ranges[x].score in c.scores && c.ranges[x].question in t.questions
    {
      var i, j := NewRange(d, p, x);
      KeyedQuestion(d, p, p.scores[i].ranges[j].question);
    }
  }

  lemma {:induction false} NextScoreGrows(s: Scoring, version: Id, items: seq<ScoreItem>, byKey: map<string, Id>,
                                          byPair: map<string, Id>, n: nat)
    requires n <= |items| && AllOk(items, byKey, byPair)
    ensures s.next <= ScoresSaved(s, version, items, byKey, byPair, n).next
  {
    if n > 0 { NextScoreGrows(s, version, items, byKey, byPair, n - 1); }
  }

  lemma FullNext(d: Db, p: Payload)
    requires AllBelow(d) && Accepted(p) && Savable(d, p)
    ensures d.next + 1 < FullDraft(d, p).next <= FullScoring(d, p).next
  {
    var t := FullDraft(d, p);
    ScoringStarts(d, p);
    NextScoreGrows(StartScoring(d, t.next), d.next + 1, p.scores, t.byKey, t.byPair, |p.scores|);
  }

  lemma BelowGrows(ids: set<Id>, n: Id, next: Id)
    requires Below(ids, n) && n <= next
    ensures Below(ids, next)
  {
  }

  lemma FullDraftBelow(d: Db, p: Payload)
    requires AllBelow(d) && Accepted(p)
    ensures var t := FullDraft(d, p);
            Below(t.questions.Keys, t.next) && Below(t.choices.Keys, t.next) && Below(t.links.Keys, t.next)
  {
    FullQuestions(d, p);
    FullLinks(d, p);
    FullChoices(d, p);
  }

  lemma FullScoringBelow(d: Db, p: Payload)
    requires AllBelow(d) && Accepted(p) && Savable(d, p)
    ensures var c := FullScoring(d, p);
            Below(c.scores.Keys, c.next) && Below(c.points.Keys, c.next) && Below(c.ranges.Keys, c.next)
  {
    FullScores(d, p);
  }

  lemma FullBelow(d: Db, p: Payload)
    requires AllBelow(d) && Accepted(p) && Savable(d, p)
    ensures AllBelow(FullDb(d, p))
  {
    var t, next := FullDraft(d, p), FullScoring(d, p).next;
    FullNext(d, p);
    FullDraftBelow(d, p);
    FullScoringBelow(d, p);
    BelowGrows(t.questions.Keys, t.next, next);
    BelowGrows(t.choices.Keys, t.next, next);
    BelowGrows(t.links.Keys, t.next, next);
  }

  lemma FullVersionsOk(d: Db, p: Payload)
    requires Integrity(d)
    ensures VersionsOk(d.forms + {d.next}, d.versions[d.next + 1 := FullVersion(d, p)])
    ensures d.versions[d.next + 1 := FullVersion(d, p)].Keys == d.versions.Keys + {d.next + 1}
  {
    assert VersionsOk(d.forms, d.versions);
  }

  lemma FullTables(d: Db, p: Payload)
    requires Savable(d, p)
    ensures var e, t := FullDb(d, p), FullDraft(d, p);
            && e.forms == d.forms + {d.next} && e.versions == d.versions[d.next + 1 := FullVersion(d, p)]
            && e.questions == t.questions && e.choices == t.choices && e.links == t.links
  {
  }

  lemma FullQuestionTablesOk(d: Db, p: Payload)
    requires Integrity(d) && Accepted(p) && Savable(d, p)
    ensures var e := FullDb(d, p);
            && VersionsOk(e.forms, e.versions) && QuestionsOk(e.forms, e.questions)
            && ChoicesOk(e.questions.Keys, e.choices) && LinksOk(e.versions.Keys, e.questions.Keys, e.links)
  {
    FullVersionsOk(d, p);
    FullQuestionsOk(d, p);
    FullChoicesOk(d, p);
    FullLinksOk(d, p);
    var t := FullDraft(d, p);
    FullTables(d, p);
    assert ChoicesOk(t.questions.Keys, t.choices);
    assert LinksOk(d.versions.Keys + {d.next + 1}, t.questions.Keys, t.links);
  }

  lemma FullScoreTablesOk(d: Db, p: Payload)
    requires Integrity(d) && Accepted(p) && Savable(d, p)
    ensures var e := FullDb(d, p);
            && ScoresOk(e.versions.Keys, e.scores)
            && OptionPointsOk(e.scores.Keys, e.questions.Keys, e.choices.Keys, e.optionPoints)
            && RangePointsOk(e.scores.Keys, e.questions.Keys, e.rangePoints)
            && TierRulesOk(e.scores.Keys, e.tierRules)
  {
    FullScoresOk(d, p);
    FullPointsOk(d, p);
    FullRangesOk(d, p);
  }

  lemma FullIntegrity(d: Db, p: Payload)
    requires Integrity(d) && Accepted(p) && Savable(d, p)
    ensures Integrity(FullDb(d, p))
  {
    FullBelow(d, p);
    FullQuestionTablesOk(d, p);
    FullScoreTablesOk(d, p);
  }

  /** At most one new score is active, and it shares its version with no old one. */
  lemma FullOneActiveScore(d: Db, p: Payload)
    requires Sound(d) && Accepted(p) && Savable(d, p)
    ensures OneActiveScore(FullScoring(d, p).scores)
  {
    OldScoresKept(d, p);
    var s := FullScoring(d, p).scores;
    forall x, y | x in s && y in s && s[x].active && s[y].active && s[x].version == s[y].version ensures x == y {
      if x !in d.scores {
        var i := NewScore(d, p, x);
        if y !in d.scores {
          var j := NewScore(d, p, y);
        }
      } else if y !in d.scores {
        var j := NewScore(d, p, y);
      }
    }
  }
}
