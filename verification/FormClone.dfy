/**
  The deep copy of a form version into another form: questions, options, links,
  scores, option points, range points and tier rules, joined through id maps.
 */
module FormClone {
  import opened Options
  import opened FormStore

  /** The id maps of a clone, from source id to the id of the copy. */
  datatype Clones = Clones(
    questions: map<Id, Id>, choices: map<Id, Id>, links: map<Id, Id>, scores: map<Id, Id>,
    optionPoints: map<Id, Id>, rangePoints: map<Id, Id>, tierRules: map<Id, Id>)

  datatype CloneReport = CloneReport(
    targetVersion: Id, createdNewVersion: bool, questions: nat, links: nat, options: nat,
    scores: nat, optionPoints: nat, rangePoints: nat, tierRules: nat)

  // ------------------------------------------------------------- what belongs to a version

  function LinksOf(d: Db, version: Id): set<Id> {
    set i | i in d.links && d.links[i].version == version
  }

  function ScoresOf(d: Db, version: Id): set<Id> {
    set i | i in d.scores && d.scores[i].version == version
  }

  function OptionPointsOf(d: Db, version: Id): set<Id> {
    set i | i in d.optionPoints && d.optionPoints[i].score in ScoresOf(d, version)
  }

  function RangePointsOf(d: Db, version: Id): set<Id> {
    set i | i in d.rangePoints && d.rangePoints[i].score in ScoresOf(d, version)
  }

  function TierRulesOf(d: Db, version: Id): set<Id> {
    set i | i in d.tierRules && d.tierRules[i].score in ScoresOf(d, version)
  }

  /** The questions a version links to or gives points for. */
  function QuestionsOf(d: Db, version: Id): set<Id> {
    (set i | i in LinksOf(d, version) :: d.links[i].question)
    + (set i | i in OptionPointsOf(d, version) :: d.optionPoints[i].question)
    + (set i | i in RangePointsOf(d, version) :: d.rangePoints[i].question)
  }

  function ChoicesOf(d: Db, version: Id): set<Id> {
    set i | i in d.choices && d.choices[i].question in QuestionsOf(d, version)
  }

  // ------------------------------------------------------------- copying rows

  /** The table has grown by the copies: new ids, one for each source, all else as before. */
  ghost predicate Grown<R>(before: map<Id, R>, after: map<Id, R>, clones: map<Id, Id>) {
    && clones.Keys <= before.Keys
    && (forall i :: i in before ==> i in after && after[i] == before[i])
    && (forall i :: i in clones ==> clones[i] in after && clones[i] !in before)
    && (forall i, j :: i in clones && j in clones && clones[i] == clones[j] ==> i == j)
    && (forall x :: x in after ==> x in before || exists i :: i in clones && clones[i] == x)
  }

  /** Save a copy of every source row and note its id under the source's id. */
  method CopyRows<R>(rows: map<Id, R>, sources: set<Id>, copy: R --> R, next: Id)
    returns (out: map<Id, R>, clones: map<Id, Id>, end: Id)
    requires sources <= rows.Keys && Below(rows.Keys, next)
    requires forall i :: i in sources ==> copy.requires(rows[i])
    ensures Grown(rows, out, clones)
    ensures clones.Keys == sources && next <= end && Below(out.Keys, end)
    ensures forall i :: i in sources ==> out[clones[i]] == copy(rows[i])
  {
    var left := sources;
    out, clones, end := rows, map[], next;
    while left != {}
      invariant left <= sources && clones.Keys == sources - left && next <= end
      invariant Grown(rows, out, clones)
      invariant forall i :: i in clones ==> out[clones[i]] == copy(rows[i])
      invariant Below(out.Keys, end)
      decreases |left|
    {
      var source :| source in left;
      left := left - {source};
      GrownByOne(rows, out, clones, end, source, copy(rows[source]));
      out := out[end := copy(rows[source])];
      clones := clones[source := end];
      end := end + 1;
    }
  }

  lemma GrownByOne<R>(rows: map<Id, R>, out: map<Id, R>, clones: map<Id, Id>, to: Id, source: Id, row: R)
    requires Grown(rows, out, clones) && Below(out.Keys, to)
    requires source in rows && source !in clones
    ensures Grown(rows, out[to := row], clones[source := to])
  {
    var after, more := out[to := row], clones[source := to];
    forall x | x in after ensures x in rows || exists i :: i in more && more[i] == x {
      if x == to {
        assert more[source] == x;
      } else if x !in rows {
        var i :| i in clones && clones[i] == x;
        assert more[i] == x;
      }
    }
  }

  // ------------------------------------------------------------- an isomorphic image

  /** Copies of questions go to the target form, with all their attributes. */
  ghost predicate QuestionsCloned(d: Db, e: Db, m: map<Id, Id>, form: Id) {
    Grown(d.questions, e.questions, m)
    && forall i :: i in m ==> e.questions[m[i]] == d.questions[i].(form := form)
  }

  /** The copy of an option belongs to the copy of its question. */
  ghost predicate ChoicesCloned(d: Db, e: Db, m: Clones) {
    Grown(d.choices, e.choices, m.choices)
    && forall i :: i in m.choices ==>
      var c := d.choices[i];
      c.question in m.questions && e.choices[m.choices[i]] == c.(question := m.questions[c.question])
  }

  ghost predicate LinksCloned(d: Db, e: Db, m: Clones, version: Id) {
    Grown(d.links, e.links, m.links)
    && forall i :: i in m.links ==>
      var l := d.links[i];
      l.question in m.questions && e.links[m.links[i]] == l.(version := version, question := m.questions[l.question])
  }

  ghost predicate ScoresCloned(d: Db, e: Db, m: map<Id, Id>, version: Id) {
    Grown(d.scores, e.scores, m)
    && forall i :: i in m ==> e.scores[m[i]] == d.scores[i].(version := version)
  }

  /** The copy of a point refers to the copies of its score, question and option. */
  ghost predicate OptionPointsCloned(d: Db, e: Db, m: Clones) {
    Grown(d.optionPoints, e.optionPoints, m.optionPoints)
    && forall i :: i in m.optionPoints ==>
      var p := d.optionPoints[i];
      && p.score in m.scores && p.question in m.questions && p.choice in m.choices
      && e.optionPoints[m.optionPoints[i]] == OptionPoint(m.scores[p.score], m.questions[p.question],
                                                          m.choices[p.choice], p.points)
  }

  ghost predicate RangePointsCloned(d: Db, e: Db, m: Clones) {
    Grown(d.rangePoints, e.rangePoints, m.rangePoints)
    && forall i :: i in m.rangePoints ==>
      var p := d.rangePoints[i];
      && p.score in m.scores && p.question in m.questions
      && e.rangePoints[m.rangePoints[i]] == p.(score := m.scores[p.score], question := m.questions[p.question])
  }

  ghost predicate TierRulesCloned(d: Db, e: Db, m: Clones) {
    Grown(d.tierRules, e.tierRules, m.tierRules)
    && forall i :: i in m.tierRules ==>
      var r := d.tierRules[i];
      r.score in m.scores && e.tierRules[m.tierRules[i]] == r.(score := m.scores[r.score])
  }

  /** Everything the source version consists of is copied, nothing else. */
  ghost predicate Covers(d: Db, m: Clones, version: Id) {
    && m.questions.Keys == QuestionsOf(d, version) && m.choices.Keys == ChoicesOf(d, version)
    && m.links.Keys == LinksOf(d, version) && m.scores.Keys == ScoresOf(d, version)
    && m.optionPoints.Keys == OptionPointsOf(d, version) && m.rangePoints.Keys == RangePointsOf(d, version)
    && m.tierRules.Keys == TierRulesOf(d, version)
  }

  /** The copies of questions, options, links and scores. */
  ghost predicate StructureImage(d: Db, e: Db, m: Clones, form: Id, target: Id) {
    && QuestionsCloned(d, e, m.questions, form) && ChoicesCloned(d, e, m)
    && LinksCloned(d, e, m, target) && ScoresCloned(d, e, m.scores, target)
  }

  /** The copies of points and rules. */
  ghost predicate PointsImage(d: Db, e: Db, m: Clones) {
    OptionPointsCloned(d, e, m) && RangePointsCloned(d, e, m) && TierRulesCloned(d, e, m)
  }

  /** e is d plus an isomorphic image of one version's content in another version. */
  ghost predicate IsImage(d: Db, e: Db, m: Clones, source: Id, form: Id, target: Id) {
    && Covers(d, m, source)
    && StructureImage(d, e, m, form, target) && PointsImage(d, e, m)
    && e.forms == d.forms && e.versions == d.versions && e.responses == d.responses
    && AllBelow(e)
  }

  /** What the clone checks before it copies: questions of the source form, and options among the copied ones. */
  predicate Clonable(d: Db, form: Id, version: Id)
    requires forall i :: i in QuestionsOf(d, version) ==> i in d.questions
  {
    && (forall i :: i in QuestionsOf(d, version) ==> d.questions[i].form == form)
    && (forall i :: i in OptionPointsOf(d, version) ==> d.optionPoints[i].choice in ChoicesOf(d, version))
  }

  lemma NeededQuestionsExist(d: Db, version: Id)
    requires Integrity(d)
    ensures QuestionsOf(d, version) <= d.questions.Keys
  {
  }

  /** In a matching store both checks always pass for a version of the form. */
  lemma MatchingIsClonable(d: Db, version: Id)
    requires Matching(d) && version in d.versions
    ensures QuestionsOf(d, version) <= d.questions.Keys && Clonable(d, d.versions[version].form, version)
  {
    NeededQuestionsExist(d, version);
    forall i | i in OptionPointsOf(d, version) ensures d.optionPoints[i].choice in ChoicesOf(d, version) {
      assert d.optionPoints[i].question in QuestionsOf(d, version);
    }
  }

  // ------------------------------------------------------------- the clone

  method CloneQuestions(d: Db, sources: set<Id>, form: Id) returns (e: Db, m: map<Id, Id>)
    requires AllBelow(d) && sources <= d.questions.Keys
    ensures e == d.(questions := e.questions, next := e.next) && AllBelow(e)
    ensures m.Keys == sources && QuestionsCloned(d, e, m, form)
  {
    var rows, ids, next := CopyRows(d.questions, sources, (q: Question) => q.(form := form), d.next);
    e, m := d.(questions := rows, next := next), ids;
  }

  method CloneChoices(d: Db, sources: set<Id>, questions: map<Id, Id>) returns (e: Db, m: map<Id, Id>)
    requires AllBelow(d) && sources <= d.choices.Keys
    requires forall i :: i in sources ==> d.choices[i].question in questions
    ensures e == d.(choices := e.choices, next := e.next) && AllBelow(e)
    ensures m.Keys == sources && Grown(d.choices, e.choices, m)
    ensures forall i :: i in m ==> e.choices[m[i]] == d.choices[i].(question := questions[d.choices[i].question])
  {
    var rows, ids, next := CopyRows(d.choices, sources,
                                    (c: Choice) requires c.question in questions =>
                                        c.(question := questions[c.question]), d.next);
    e, m := d.(choices := rows, next := next), ids;
  }

  method CloneLinks(d: Db, sources: set<Id>, target: Id, questions: map<Id, Id>) returns (e: Db, m: map<Id, Id>)
    requires AllBelow(d) && sources <= d.links.Keys
    requires forall i :: i in sources ==> d.links[i].question in questions
    ensures e == d.(links := e.links, next := e.next) && AllBelow(e)
    ensures m.Keys == sources && Grown(d.links, e.links, m)
    ensures forall i :: i in m ==>
            e.links[m[i]] == d.links[i].(version := target, question := questions[d.links[i].question])
  {
    var rows, ids, next := CopyRows(d.links, sources,
                                    (l: Link) requires l.question in questions =>
                                        l.(version := target, question := questions[l.question]), d.next);
    e, m := d.(links := rows, next := next), ids;
  }

  method CloneScores(d: Db, sources: set<Id>, target: Id) returns (e: Db, m: map<Id, Id>)
    requires AllBelow(d) && sources <= d.scores.Keys
    ensures e == d.(scores := e.scores, next := e.next) && AllBelow(e)
    ensures m.Keys == sources && ScoresCloned(d, e, m, target)
  {
    var rows, ids, next := CopyRows(d.scores, sources, (s: Score) => s.(version := target), d.next);
    e, m := d.(scores := rows, next := next), ids;
  }

  lemma OptionPointsBelow(d: Db, rows: map<Id, OptionPoint>, next: Id)
    requires AllBelow(d) && Below(rows.Keys, next) && d.next <= next
    ensures AllBelow(d.(optionPoints := rows, next := next))
  {
  }

  method CloneOptionPoints(d: Db, points: set<Id>, m: Clones) returns (e: Db, ids: map<Id, Id>)
    requires points <= d.optionPoints.Keys && AllBelow(d)
    requires forall i :: i in points ==>
               d.optionPoints[i].score in m.scores && d.optionPoints[i].question in m.questions
                   && d.optionPoints[i].choice in m.choices
    ensures e == d.(optionPoints := e.optionPoints, next := e.next) && AllBelow(e)
    ensures ids.Keys == points && OptionPointsCloned(d, e, m.(optionPoints := ids))
  {
    var rows, clones, next := CopyRows(d.optionPoints, points,
      (p: OptionPoint) requires p.score in m.scores && p.question in m.questions && p.choice in m.choices =>
        OptionPoint(m.scores[p.score], m.questions[p.question], m.choices[p.choice], p.points), d.next);
    OptionPointsBelow(d, rows, next);
    e, ids := d.(optionPoints := rows, next := next), clones;
  }

  lemma RangePointsBelow(d: Db, rows: map<Id, RangePoint>, next: Id)
    requires AllBelow(d) && Below(rows.Keys, next) && d.next <= next
    ensures AllBelow(d.(rangePoints := rows, next := next))
  {
  }

  method CloneRangePoints(d: Db, points: set<Id>, m: Clones) returns (e: Db, ids: map<Id, Id>)
    requires points <= d.rangePoints.Keys && AllBelow(d)
    requires forall i :: i in points ==> d.rangePoints[i].score in m.scores && d.rangePoints[i].question in m.questions
    ensures e == d.(rangePoints := e.rangePoints, next := e.next) && AllBelow(e)
    ensures ids.Keys == points && RangePointsCloned(d, e, m.(rangePoints := ids))
  {
    var rows, clones, next := CopyRows(d.rangePoints, points,
      (p: RangePoint) requires p.score in m.scores && p.question in m.questions =>
        p.(score := m.scores[p.score], question := m.questions[p.question]), d.next);
    RangePointsBelow(d, rows, next);
    e, ids := d.(rangePoints := rows, next := next), clones;
  }

  method CloneTierRules(d: Db, rules: set<Id>, m: Clones) returns (e: Db, ids: map<Id, Id>)
    requires rules <= d.tierRules.Keys && AllBelow(d)
    requires forall i :: i in rules ==> d.tierRules[i].score in m.scores
    ensures e == d.(tierRules := e.tierRules, next := e.next) && AllBelow(e)
    ensures ids.Keys == rules && TierRulesCloned(d, e, m.(tierRules := ids))
  {
    var rows, clones, next := CopyRows(d.tierRules, rules,
      (r: TierRule) requires r.score in m.scores => r.(score := m.scores[r.score]), d.next);
    e, ids := d.(tierRules := rows, next := next), clones;
  }

  method CloneStructure(d: Db, source: Id, form: Id, target: Id) returns (e: Db, m: Clones)
    requires Integrity(d)
    ensures e == d.(questions := e.questions, choices := e.choices, links := e.links, scores := e.scores,
                    next := e.next)
    ensures AllBelow(e) && StructureImage(d, e, m, form, target)
    ensures m.questions.Keys == QuestionsOf(d, source) && m.choices.Keys == ChoicesOf(d, source)
    ensures m.links.Keys == LinksOf(d, source) && m.scores.Keys == ScoresOf(d, source)
  {
    NeededQuestionsExist(d, source);
    var d1, questions := CloneQuestions(d, QuestionsOf(d, source), form);
    var d2, choices := CloneChoices(d1, ChoicesOf(d, source), questions);
    var d3, links := CloneLinks(d2, LinksOf(d, source), target, questions);
    var scores: map<Id, Id>;
    e, scores := CloneScores(d3, ScoresOf(d, source), target);
    m := Clones(questions, choices, links, scores, map[], map[], map[]);
  }

  method ClonePoints(d: Db, optionPoints: set<Id>, rangePoints: set<Id>, tierRules: set<Id>, s: Clones)
    returns (e: Db, m: Clones)
    requires AllBelow(d)
    requires optionPoints <= d.optionPoints.Keys && rangePoints <= d.rangePoints.Keys && tierRules <= d.tierRules.Keys
    requires forall i :: i in optionPoints ==>
               d.optionPoints[i].score in s.scores && d.optionPoints[i].question in s.questions
                   && d.optionPoints[i].choice in s.choices
    requires forall i :: i in rangePoints ==>
               && d.rangePoints[i].score in s.scores
               && d.rangePoints[i].question in s.questions
    requires forall i :: i in tierRules ==> d.tierRules[i].score in s.scores
    ensures e == d.(optionPoints := e.optionPoints, rangePoints := e.rangePoints, tierRules := e.tierRules,
                    next := e.next)
    ensures AllBelow(e) && PointsImage(d, e, m)
    ensures m == s.(optionPoints := m.optionPoints, rangePoints := m.rangePoints, tierRules := m.tierRules)
    ensures m.optionPoints.Keys == optionPoints && m.rangePoints.Keys == rangePoints && m.tierRules.Keys == tierRules
  {
    var d1, options := CloneOptionPoints(d, optionPoints, s);
    var d2, ranges := CloneRangePoints(d1, rangePoints, s);
    var rules: map<Id, Id>;
    e, rules := CloneTierRules(d2, tierRules, s);
    m := s.(optionPoints := options, rangePoints := ranges, tierRules := rules);
  }

  /** The copying part: questions and options, links, scores, then points and rules. */
  method CloneContent(d: Db, source: Id, form: Id, target: Id) returns (e: Db, m: Clones)
    requires Integrity(d)
    requires forall i :: i in OptionPointsOf(d, source) ==> d.optionPoints[i].choice in ChoicesOf(d, source)
    ensures IsImage(d, e, m, source, form, target)
  {
    var s: Clones;
    var copied: Db;
    copied, s := CloneStructure(d, source, form, target);
    e, m := ClonePoints(copied, OptionPointsOf(d, source), RangePointsOf(d, source), TierRulesOf(d, source), s);
  }

  // ------------------------------------------------------------- the image is well formed

  /** A row of a grown table is an old row or the copy of a source row. */
  lemma OldOrCopy<R>(before: map<Id, R>, after: map<Id, R>, clones: map<Id, Id>, x: Id) returns (i: Id)
    requires Grown(before, after, clones) && x in after && x !in before
    ensures i in clones && clones[i] == x
  {
    i :| i in clones && clones[i] == x;
  }

  lemma ImageQuestionsOk(d: Db, e: Db, m: Clones, form: Id, target: Id)
    requires Integrity(d) && StructureImage(d, e, m, form, target) && form in d.forms
    ensures QuestionsOk(d.forms, e.questions) && ChoicesOk(e.questions.Keys, e.choices)
  {
    forall x | x in e.questions ensures e.questions[x].form in d.forms {
      if x !in d.questions { var i := OldOrCopy(d.questions, e.questions, m.questions, x); }
    }
    forall x | x in e.choices ensures e.choices[x].question in e.questions {
      if x !in d.choices { var i := OldOrCopy(d.choices, e.choices, m.choices, x); }
    }
  }

  lemma ImageLinksOk(d: Db, e: Db, m: Clones, form: Id, target: Id)
    requires Integrity(d) && StructureImage(d, e, m, form, target) && target in d.versions
    ensures LinksOk(d.versions.Keys, e.questions.Keys, e.links) && ScoresOk(d.versions.Keys, e.scores)
  {
    forall x | x in e.links ensures e.links[x].version in d.versions && e.links[x].question in e.questions {
      if x !in d.links { var i := OldOrCopy(d.links, e.links, m.links, x); }
    }
    forall x | x in e.scores ensures e.scores[x].version in d.versions {
      if x !in d.scores { var i := OldOrCopy(d.scores, e.scores, m.scores, x); }
    }
  }

  lemma ImagePointsOk(d: Db, e: Db, m: Clones, form: Id, target: Id)
    requires Integrity(d) && StructureImage(d, e, m, form, target) && PointsImage(d, e, m)
    ensures OptionPointsOk(e.scores.Keys, e.questions.Keys, e.choices.Keys, e.optionPoints)
    ensures RangePointsOk(e.scores.Keys, e.questions.Keys, e.rangePoints)
    ensures TierRulesOk(e.scores.Keys, e.tierRules)
  {
    forall x | x in e.optionPoints
      ensures e.optionPoints[x].score in e.scores && e.optionPoints[x].question in e.questions
              && e.optionPoints[x].choice in e.choices
    {
      if x !in d.optionPoints { var i := OldOrCopy(d.optionPoints, e.optionPoints, m.optionPoints, x); }
    }
    forall x | x in e.rangePoints
      ensures e.rangePoints[x].score in e.scores && e.rangePoints[x].question in e.questions
    {
      if x !in d.rangePoints { var i := OldOrCopy(d.rangePoints, e.rangePoints, m.rangePoints, x); }
    }
    forall x | x in e.tierRules ensures e.tierRules[x].score in e.scores {
      if x !in d.tierRules { var i := OldOrCopy(d.tierRules, e.tierRules, m.tierRules, x); }
    }
  }

  lemma ImageIntegrity(d: Db, e: Db, m: Clones, source: Id, form: Id, target: Id)
    requires Integrity(d) && IsImage(d, e, m, source, form, target)
    requires form in d.forms && target in d.versions
    ensures Integrity(e)
  {
    ImageQuestionsOk(d, e, m, form, target);
    ImageLinksOk(d, e, m, form, target);
    ImagePointsOk(d, e, m, form, target);
  }

  /** A version without scores receives at most one active score, as its source has at most one. */
  lemma ImageOneActiveScore(d: Db, e: Db, m: Clones, source: Id, target: Id)
    requires OneActiveScore(d.scores) && ScoresOf(d, target) == {}
    requires m.scores.Keys == ScoresOf(d, source) && ScoresCloned(d, e, m.scores, target)
    ensures OneActiveScore(e.scores)
  {
    assert forall k :: k in d.scores ==> k !in ScoresOf(d, target);
    forall x, y | x in e.scores && y in e.scores && e.scores[x].active && e.scores[y].active
        && e.scores[x].version == e.scores[y].version
      ensures x == y
    {
      if x !in d.scores {
        var i := OldOrCopy(d.scores, e.scores, m.scores, x);
        if y !in d.scores {
          var j := OldOrCopy(d.scores, e.scores, m.scores, y);
          assert i in ScoresOf(d, source) && j in ScoresOf(d, source);
        }
      } else if y !in d.scores {
        var j := OldOrCopy(d.scores, e.scores, m.scores, y);
      }
    }
  }

  lemma ImageLinksMatch(d: Db, e: Db, m: Clones, source: Id, form: Id, target: Id)
    requires Integrity(d) && LinksMatch(d) && Integrity(e) && IsImage(d, e, m, source, form, target)
    requires target in d.versions && d.versions[target].form == form
    ensures LinksMatch(e)
  {
    forall x | x in e.links ensures e.questions[e.links[x].question].form == e.versions[e.links[x].version].form {
      if x !in d.links { var i := OldOrCopy(d.links, e.links, m.links, x); }
    }
  }

  lemma ImageOptionPointsMatch(d: Db, e: Db, m: Clones, source: Id, form: Id, target: Id)
    requires Integrity(d) && OptionPointsMatch(d) && Integrity(e) && IsImage(d, e, m, source, form, target)
    requires target in d.versions && d.versions[target].form == form
    ensures OptionPointsMatch(e)
  {
    forall x | x in e.optionPoints
      ensures var p := e.optionPoints[x];
              e.choices[p.choice].question == p.question
                  && e.questions[p.question].form == e.versions[e.scores[p.score].version].form
    {
      if x !in d.optionPoints { var i := OldOrCopy(d.optionPoints, e.optionPoints, m.optionPoints, x); }
    }
  }

  lemma ImageRangePointsMatch(d: Db, e: Db, m: Clones, source: Id, form: Id, target: Id)
    requires Integrity(d) && RangePointsMatch(d) && Integrity(e) && IsImage(d, e, m, source, form, target)
    requires target in d.versions && d.versions[target].form == form
    ensures RangePointsMatch(e)
  {
    forall x | x in e.rangePoints
      ensures e.questions[e.rangePoints[x].question].form == e.versions[e.scores[e.rangePoints[x].score].version].form
    {
      if x !in d.rangePoints { var i := OldOrCopy(d.rangePoints, e.rangePoints, m.rangePoints, x); }
    }
  }

  /** Copying into a version of the target form that has no scores keeps the store sound, and matching if it was. */
  lemma ImageIsSound(d: Db, e: Db, m: Clones, source: Id, form: Id, target: Id)
    requires Sound(d) && IsImage(d, e, m, source, form, target)
    requires form in d.forms && target in d.versions && ScoresOf(d, target) == {}
    ensures Sound(e)
  {
    ImageIntegrity(d, e, m, source, form, target);
    ImageOneActiveScore(d, e, m, source, target);
  }

  lemma ImageMatches(d: Db, e: Db, m: Clones, source: Id, form: Id, target: Id)
    requires Matching(d) && Integrity(e) && IsImage(d, e, m, source, form, target)
    requires target in d.versions && d.versions[target].form == form
    ensures Matching(e)
  {
    ImageLinksMatch(d, e, m, source, form, target);
    ImageOptionPointsMatch(d, e, m, source, form, target);
    ImageRangePointsMatch(d, e, m, source, form, target);
  }

  // ------------------------------------------------------------- the image is complete

  lemma TargetLinksAreCopies(d: Db, e: Db, m: Clones, source: Id, target: Id)
    requires LinksCloned(d, e, m, target) && LinksOf(d, target) == {}
    ensures LinksOf(e, target) == m.links.Values
    ensures target != source ==> LinksOf(e, source) == LinksOf(d, source)
  {
    forall x | x in e.links
      ensures e.links[x].version == target <==> x in m.links.Values
      ensures target != source && e.links[x].version == source ==> x in LinksOf(d, source)
    {
      if x in d.links {
        assert x !in LinksOf(d, target);
      } else {
        var i := OldOrCopy(d.links, e.links, m.links, x);
      }
    }
  }

  lemma TargetScoresAreCopies(d: Db, e: Db, m: Clones, source: Id, target: Id)
    requires ScoresCloned(d, e, m.scores, target) && ScoresOf(d, target) == {}
    ensures ScoresOf(e, target) == m.scores.Values
    ensures target != source ==> ScoresOf(e, source) == ScoresOf(d, source)
  {
    forall x | x in e.scores
      ensures e.scores[x].version == target <==> x in m.scores.Values
      ensures target != source && e.scores[x].version == source ==> x in ScoresOf(d, source)
    {
      if x in d.scores {
        assert x !in ScoresOf(d, target);
      } else {
        var i := OldOrCopy(d.scores, e.scores, m.scores, x);
      }
    }
  }

  /** An empty target version holds exactly the copies afterwards, and the source holds what it held. */
  lemma TargetHoldsExactlyTheCopies(d: Db, e: Db, m: Clones, source: Id, form: Id, target: Id)
    requires IsImage(d, e, m, source, form, target)
    requires LinksOf(d, target) == {} && ScoresOf(d, target) == {}
    ensures LinksOf(e, target) == m.links.Values && ScoresOf(e, target) == m.scores.Values
    ensures target != source ==> LinksOf(e, source) == LinksOf(d, source) && ScoresOf(e, source) == ScoresOf(d, source)
  {
    TargetLinksAreCopies(d, e, m, source, target);
    TargetScoresAreCopies(d, e, m, source, target);
  }

  /** The option points a score gives for one option. */
  function PointsFor(d: Db, score: Id, choice: Id): set<Id> {
    set i | i in d.optionPoints && d.optionPoints[i].score == score && d.optionPoints[i].choice == choice
  }

  /** The cloned score awards the cloned option only copies of the points its source awards the source option. */
  lemma PointIsCopy(d: Db, e: Db, m: Clones, s: Id, c: Id, x: Id) returns (i: Id)
    requires OptionPointsCloned(d, e, m) && Grown(d.scores, e.scores, m.scores)
             && Grown(d.choices, e.choices, m.choices)
    requires forall k :: k in d.optionPoints ==> d.optionPoints[k].score in d.scores
    requires s in m.scores && c in m.choices && x in PointsFor(e, m.scores[s], m.choices[c])
    ensures i in PointsFor(d, s, c) && i in m.optionPoints && m.optionPoints[i] == x
  {
    assert x !in d.optionPoints;
    i := OldOrCopy(d.optionPoints, e.optionPoints, m.optionPoints, x);
  }

  /** And it awards a copy, with the same value, of each of them. */
  lemma PointIsCloned(d: Db, e: Db, m: Clones, source: Id, s: Id, c: Id, i: Id)
    requires OptionPointsCloned(d, e, m) && m.scores.Keys == ScoresOf(d, source)
             && m.optionPoints.Keys == OptionPointsOf(d, source)
    requires s in m.scores && c in m.choices && i in PointsFor(d, s, c)
    ensures i in m.optionPoints && m.optionPoints[i] in PointsFor(e, m.scores[s], m.choices[c])
    ensures e.optionPoints[m.optionPoints[i]].points == d.optionPoints[i].points
  {
    assert i in OptionPointsOf(d, source);
  }

  /** A table grows by exactly the number of copies. */
  lemma GrownByCount<R>(before: map<Id, R>, after: map<Id, R>, clones: map<Id, Id>)
    requires Grown(before, after, clones)
    ensures |after| == |before| + |clones|
  {
    forall x ensures x in after.Keys <==> x in before.Keys || x in clones.Values {
    }
    assert after.Keys == before.Keys + clones.Values;
    InjectiveCount(clones);
  }

  lemma {:induction false} InjectiveCount(m: map<Id, Id>)
    requires forall i, j :: i in m && j in m && m[i] == m[j] ==> i == j
    ensures |m.Values| == |m|
    decreases |m|
  {
    if |m| == 0 {
      assert m.Values == {};
    } else {
      var k :| k in m;
      var rest := m - {k};
      assert |rest| == |m| - 1;
      InjectiveCount(rest);
      forall v | v in m.Values ensures v in rest.Values + {m[k]} {
        var i :| i in m && m[i] == v;
        if i != k { assert rest[i] == v; }
      }
      assert m.Values == rest.Values + {m[k]};
    }
  }

  // ------------------------------------------------------------- the operation

  predicate Used(d: Db, version: Id) {
    LinksOf(d, version) != {} || ScoresOf(d, version) != {} || exists i :: i in d.responses && d.responses[i] == version
  }

  predicate KnownIds(d: Db, sourceForm: Id, sourceVersion: Id, targetForm: Id, requested: Id) {
    && sourceForm in d.forms && targetForm in d.forms
    && sourceVersion in d.versions && d.versions[sourceVersion].form == sourceForm
    && requested in d.versions && d.versions[requested].form == targetForm
  }

  /**
    The store with the version the copies go to: the requested one if it is unused, else a
    new one that takes over its activity.
   */
  ghost predicate TargetReady(d: Db, e: Db, form: Id, requested: Id, target: Id, created: bool) {
    && requested in d.versions
    && created == Used(d, requested)
    && (!created ==> target == requested && e == d)
    && (created ==>
          && target == d.next && target in e.versions
          && var v := e.versions[target];
          && v.form == form && v.active == d.versions[requested].active
              && IsLatestNumber(d.versions, form, v.number - 1)
          && e == StoredVersion(d, target, v))
  }

  lemma NewVersionIsEmpty(d: Db, e: Db, id: Id)
    requires Integrity(d) && id !in d.versions && e == d.(versions := e.versions, next := e.next)
    ensures LinksOf(e, id) == {} && ScoresOf(e, id) == {}
  {
  }

  method PrepareTarget(d: Db, form: Id, requested: Id) returns (e: Db, target: Id, created: bool)
    requires Sound(d) && requested in d.versions && d.versions[requested].form == form && form in d.forms
    ensures TargetReady(d, e, form, requested, target, created)
    ensures Keeps(d, e) && target in e.versions && e.versions[target].form == form
    ensures LinksOf(e, target) == {} && ScoresOf(e, target) == {}
    ensures e == d.(versions := e.versions, next := e.next)
  {
    created := Used(d, requested);
    e, target := d, requested;
    if created {
      var number := NextFormVersionNumber(d.versions, form);
      var v := Version(form, number, d.versions[requested].active);
      target := d.next;
      StoredVersionIsSound(d, target, v);
      if Matching(d) { StoredVersionMatches(d, target, v); }
      e := StoredVersion(d, target, v);
      NewVersionIsEmpty(d, e, target);
    }
  }

  /** Preparing the target leaves the source's content as it was. */
  lemma ContentUntouched(d: Db, e: Db, version: Id)
    requires e == d.(versions := e.versions, next := e.next)
    ensures LinksOf(e, version) == LinksOf(d, version) && ScoresOf(e, version) == ScoresOf(d, version)
    ensures OptionPointsOf(e, version) == OptionPointsOf(d, version)
            && RangePointsOf(e, version) == RangePointsOf(d, version)
    ensures TierRulesOf(e, version) == TierRulesOf(d, version)
    ensures QuestionsOf(e, version) == QuestionsOf(d, version) && ChoicesOf(e, version) == ChoicesOf(d, version)
  {
  }

  /** The copies into an empty version of the target form. */
  method CloneInto(d: Db, source: Id, form: Id, target: Id) returns (e: Db, m: Clones)
    requires Sound(d) && target in d.versions && d.versions[target].form == form && form in d.forms
             && ScoresOf(d, target) == {}
    requires forall i :: i in OptionPointsOf(d, source) ==> d.optionPoints[i].choice in ChoicesOf(d, source)
    ensures IsImage(d, e, m, source, form, target) && Keeps(d, e)
  {
    e, m := CloneContent(d, source, form, target);
    ImageIsSound(d, e, m, source, form, target);
    if Matching(d) { ImageMatches(d, e, m, source, form, target); }
  }

  method Clone(fm: FormManagement, sourceForm: Id, sourceVersion: Id, targetForm: Id, requested: Id)
    returns (r: Result<CloneReport, FormError>, ghost prepared: Db, ghost m: Clones)
    requires Sound(fm.db)
    modifies fm
    ensures Keeps(old(fm.db), fm.db)
    ensures QuestionsOf(old(fm.db), sourceVersion) <= old(fm.db).questions.Keys
    ensures r.Ok? <==>
              && KnownIds(old(fm.db), sourceForm, sourceVersion, targetForm, requested)
              && Clonable(old(fm.db), sourceForm, sourceVersion)
    ensures r.Err? ==> fm.db == old(fm.db)
    ensures r.Ok? ==>
              && TargetReady(old(fm.db), prepared, targetForm, requested, r.value.targetVersion,
                             r.value.createdNewVersion)
              && IsImage(prepared, fm.db, m, sourceVersion, targetForm, r.value.targetVersion)
              && LinksOf(prepared, r.value.targetVersion) == {} && ScoresOf(prepared, r.value.targetVersion) == {}
              && r.value.questions == |m.questions| && r.value.links == |m.links| && r.value.options == |m.choices|
              && r.value.scores == |m.scores| && r.value.optionPoints == |m.optionPoints|
              && r.value.rangePoints == |m.rangePoints| && r.value.tierRules == |m.tierRules|
  {
    var d := fm.db;
    prepared, m := d, Clones(map[], map[], map[], map[], map[], map[], map[]);
    NeededQuestionsExist(d, sourceVersion);
    if !KnownIds(d, sourceForm, sourceVersion, targetForm, requested) {
      return Err(NotFound), prepared, m;
    }
    var ready, target, created := PrepareTarget(d, targetForm, requested);
    ContentUntouched(d, ready, sourceVersion);
    if !Clonable(ready, sourceForm, sourceVersion) {
      return Err(BadRequest), prepared, m;
    }
    var e, clones := CloneInto(ready, sourceVersion, targetForm, target);
    fm.db := e;
    prepared, m := ready, clones;
    r := Ok(CloneReport(target, created, |clones.questions|, |clones.links|, |clones.choices|, |clones.scores|,
                        |clones.optionPoints|, |clones.rangePoints|, |clones.tierRules|));
  }
}
