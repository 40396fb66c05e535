/**
  The tables behind forms, their versions and their lead scores, and the operations
  that create, update, activate and remove versions and scores, add questions, options
  and links, and replace a score's points. Every operation keeps the foreign keys, at
  most one active version of a form and at most one active score of a version; points
  that match their options go on doing so.
 */
module FormStore {
  import opened Options

  type Id = nat

  datatype Version = Version(form: Id, number: int, active: bool)

  datatype Question = Question(form: Id, key: string, text: Option<string>, inputType: Option<string>)

  /** A question_option row. */
  datatype Choice = Choice(question: Id, key: string, text: Option<string>, order: int)

  /** A form_version_question row. */
  datatype Link = Link(version: Id, question: Id, order: int, required: bool)

  datatype Score = Score(version: Id, name: string, active: bool)

  datatype OptionPoint = OptionPoint(score: Id, question: Id, choice: Id, points: real)

  datatype RangePoint = RangePoint(score: Id, question: Id, min: Option<real>, max: Option<real>, points: real)

  datatype TierRule = TierRule(score: Id, tier: Id, min: Option<real>, max: Option<real>)

  /** All tables; responses maps a response to its version; generated ids are next, next + 1, ... */
  datatype Db = Db(
    forms: set<Id>, versions: map<Id, Version>, questions: map<Id, Question>, choices: map<Id, Choice>,
    links: map<Id, Link>, responses: map<Id, Id>, scores: map<Id, Score>,
    optionPoints: map<Id, OptionPoint>, rangePoints: map<Id, RangePoint>, tierRules: map<Id, TierRule>, next: Id)

  datatype FormError = NotFound | BadRequest

  // ------------------------------------------------------------- integrity

  ghost predicate Below(ids: set<Id>, next: Id) {
    forall i :: i in ids ==> i < next
  }

  ghost predicate AllBelow(d: Db) {
    && Below(d.forms, d.next) && Below(d.versions.Keys, d.next) && Below(d.questions.Keys, d.next)
    && Below(d.choices.Keys, d.next) && Below(d.links.Keys, d.next) && Below(d.scores.Keys, d.next)
    && Below(d.optionPoints.Keys, d.next) && Below(d.rangePoints.Keys, d.next) && Below(d.tierRules.Keys, d.next)
  }

  ghost predicate VersionsOk(forms: set<Id>, versions: map<Id, Version>) {
    forall i :: i in versions ==> versions[i].form in forms
  }

  ghost predicate QuestionsOk(forms: set<Id>, questions: map<Id, Question>) {
    forall i :: i in questions ==> questions[i].form in forms
  }

  ghost predicate ChoicesOk(questions: set<Id>, choices: map<Id, Choice>) {
    forall i :: i in choices ==> choices[i].question in questions
  }

  ghost predicate LinksOk(versions: set<Id>, questions: set<Id>, links: map<Id, Link>) {
    forall i :: i in links ==> links[i].version in versions && links[i].question in questions
  }

  ghost predicate ScoresOk(versions: set<Id>, scores: map<Id, Score>) {
    forall i :: i in scores ==> scores[i].version in versions
  }

  ghost predicate OptionPointsOk(scores: set<Id>, questions: set<Id>, choices: set<Id>, points: map<Id, OptionPoint>) {
    forall i :: i in points ==>
      && points[i].score in scores && points[i].question in questions
      && points[i].choice in choices
  }

  ghost predicate RangePointsOk(scores: set<Id>, questions: set<Id>, points: map<Id, RangePoint>) {
    forall i :: i in points ==> points[i].score in scores && points[i].question in questions
  }

  ghost predicate TierRulesOk(scores: set<Id>, rules: map<Id, TierRule>) {
    forall i :: i in rules ==> rules[i].score in scores
  }

  /** Foreign keys hold and generated ids are new. */
  ghost predicate Integrity(d: Db) {
    && AllBelow(d)
    && VersionsOk(d.forms, d.versions) && QuestionsOk(d.forms, d.questions)
    && ChoicesOk(d.questions.Keys, d.choices) && LinksOk(d.versions.Keys, d.questions.Keys, d.links)
    && ScoresOk(d.versions.Keys, d.scores)
    && OptionPointsOk(d.scores.Keys, d.questions.Keys, d.choices.Keys, d.optionPoints)
    && RangePointsOk(d.scores.Keys, d.questions.Keys, d.rangePoints)
    && TierRulesOk(d.scores.Keys, d.tierRules)
  }

  /** At most one version of a form is active. */
  ghost predicate OneActiveVersion(versions: map<Id, Version>) {
    forall i, j ::
      i in versions && j in versions && versions[i].active && versions[j].active && versions[i].form == versions[j].form
      ==> i == j
  }

  /** At most one score of a version is active. */
  ghost predicate OneActiveScore(scores: map<Id, Score>) {
    forall i, j ::
      i in scores && j in scores && scores[i].active && scores[j].active && scores[i].version == scores[j].version
      ==> i == j
  }

  /** A version asks questions of its own form only. */
  ghost predicate LinksMatch(d: Db)
    requires Integrity(d)
  {
    forall i :: i in d.links ==> d.questions[d.links[i].question].form == d.versions[d.links[i].version].form
  }

  /** Points are given for questions of the score's form, and for an option of that question. */
  ghost predicate OptionPointsMatch(d: Db)
    requires Integrity(d)
  {
    forall i :: i in d.optionPoints ==>
      var p := d.optionPoints[i];
      d.choices[p.choice].question == p.question && d.questions[p.question].form
          == d.versions[d.scores[p.score].version].form
  }

  ghost predicate RangePointsMatch(d: Db)
    requires Integrity(d)
  {
    forall i :: i in d.rangePoints ==>
      d.questions[d.rangePoints[i].question].form == d.versions[d.scores[d.rangePoints[i].score].version].form
  }

  ghost predicate Matching(d: Db) {
    Integrity(d) && LinksMatch(d) && OptionPointsMatch(d) && RangePointsMatch(d)
  }

  /** What every operation keeps. */
  ghost predicate Sound(d: Db) {
    Integrity(d) && OneActiveVersion(d.versions) && OneActiveScore(d.scores)
  }

  /** After a change the store is sound, and still matches if it did before. */
  ghost predicate Keeps(d: Db, e: Db) {
    Sound(e) && (Matching(d) ==> Matching(e))
  }

  // ------------------------------------------------------------- statements

  /** UPDATE form_version SET active = false WHERE form_id = form */
  function DeactivateVersions(versions: map<Id, Version>, form: Id): map<Id, Version> {
    map i | i in versions :: if versions[i].form == form then versions[i].(active := false) else versions[i]
  }

  function DeactivateScores(scores: map<Id, Score>, version: Id): map<Id, Score> {
    map i | i in scores :: if scores[i].version == version then scores[i].(active := false) else scores[i]
  }

  /** Save a version, first deactivating its form's versions if it is active. */
  function SaveVersion(versions: map<Id, Version>, id: Id, v: Version): map<Id, Version> {
    (if v.active then DeactivateVersions(versions, v.form) else versions)[id := v]
  }

  function SaveScore(scores: map<Id, Score>, id: Id, s: Score): map<Id, Score> {
    (if s.active then DeactivateScores(scores, s.version) else scores)[id := s]
  }

  lemma SaveVersionKeepsOne(versions: map<Id, Version>, id: Id, v: Version)
    requires OneActiveVersion(versions)
    ensures OneActiveVersion(SaveVersion(versions, id, v))
    ensures SaveVersion(versions, id, v).Keys == versions.Keys + {id}
  {
  }

  lemma SaveScoreKeepsOne(scores: map<Id, Score>, id: Id, s: Score)
    requires OneActiveScore(scores)
    ensures OneActiveScore(SaveScore(scores, id, s))
    ensures SaveScore(scores, id, s).Keys == scores.Keys + {id}
  {
  }

  function StoredVersion(d: Db, id: Id, v: Version): Db {
    d.(versions := SaveVersion(d.versions, id, v), next := if id < d.next then d.next else id + 1)
  }

  function StoredScore(d: Db, id: Id, s: Score): Db {
    d.(scores := SaveScore(d.scores, id, s), next := if id < d.next then d.next else id + 1)
  }

  /** A row is saved under the id it has, with its parent unchanged, or under the next id. */
  predicate VersionFits(d: Db, id: Id, v: Version) {
    v.form in d.forms && if id in d.versions then d.versions[id].form == v.form && id < d.next else id == d.next
  }

  predicate ScoreFits(d: Db, id: Id, s: Score) {
    s.version in d.versions && if id in d.scores then d.scores[id].version == s.version && id < d.next else id == d.next
  }

  lemma StoredVersionIsSound(d: Db, id: Id, v: Version)
    requires Sound(d) && VersionFits(d, id, v)
    ensures Sound(StoredVersion(d, id, v))
  {
    SaveVersionKeepsOne(d.versions, id, v);
  }

  lemma StoredVersionMatches(d: Db, id: Id, v: Version)
    requires Matching(d) && VersionFits(d, id, v) && Integrity(StoredVersion(d, id, v))
    ensures Matching(StoredVersion(d, id, v))
  {
    var e := StoredVersion(d, id, v);
    assert forall i :: i in d.versions ==> e.versions[i].form == d.versions[i].form;
  }

  lemma StoredScoreIsSound(d: Db, id: Id, s: Score)
    requires Sound(d) && ScoreFits(d, id, s)
    ensures Sound(StoredScore(d, id, s))
  {
    SaveScoreKeepsOne(d.scores, id, s);
  }

  lemma StoredScoreMatches(d: Db, id: Id, s: Score)
    requires Matching(d) && ScoreFits(d, id, s) && Integrity(StoredScore(d, id, s))
    ensures Matching(StoredScore(d, id, s))
  {
    var e := StoredScore(d, id, s);
    assert forall i :: i in d.scores ==> e.scores[i].version == d.scores[i].version;
  }

  /** The highest version number of a form, or 0 without versions. */
  ghost predicate IsLatestNumber(versions: map<Id, Version>, form: Id, n: int) {
    if exists i :: i in versions && versions[i].form == form then
      && (exists i :: i in versions && versions[i].form == form && versions[i].number == n)
      && (forall i :: i in versions && versions[i].form == form ==> versions[i].number <= n)
    else n == 0
  }

  /** nextFormVersionNumber: one more than the highest, 1 for a first version. */
  method NextFormVersionNumber(versions: map<Id, Version>, form: Id) returns (n: int)
    ensures IsLatestNumber(versions, form, n - 1)
    ensures forall i :: i in versions && versions[i].form == form ==> versions[i].number != n
  {
    var ids := versions.Keys;
    var found := false;
    var latest := 0;
    while ids != {}
      invariant ids <= versions.Keys
      invariant found <==> exists i :: i in versions && i !in ids && versions[i].form == form
      invariant !found ==> latest == 0
      invariant found ==> exists i ::
                  && i in versions && i !in ids && versions[i].form == form
                  && versions[i].number == latest
      invariant forall i :: i in versions && i !in ids && versions[i].form == form ==> versions[i].number <= latest
      decreases |ids|
    {
      var id :| id in ids;
      ids := ids - {id};
      if versions[id].form == form && (!found || versions[id].number > latest) {
        found, latest := true, versions[id].number;
      }
    }
    n := latest + 1;
  }

  /** The version and the question are of one form and not linked yet. */
  predicate Linkable(d: Db, version: Id, question: Id) {
    && version in d.versions && question in d.questions
    && d.questions[question].form == d.versions[version].form
    && forall i :: i in d.links ==> d.links[i].version != version || d.links[i].question != question
  }

  /** The highest display order among a version's links, or 0 without links. */
  ghost predicate IsLatestOrder(links: map<Id, Link>, version: Id, n: int) {
    if exists i :: i in links && links[i].version == version then
      && (exists i :: i in links && links[i].version == version && links[i].order == n)
      && (forall i :: i in links && links[i].version == version ==> links[i].order <= n)
    else n == 0
  }

  /** nextFormVersionQuestionOrder: one more than the highest, 1 for a first link. */
  method NextFormVersionQuestionOrder(links: map<Id, Link>, version: Id) returns (n: int)
    ensures IsLatestOrder(links, version, n - 1)
    ensures forall i :: i in links && links[i].version == version ==> links[i].order < n
  {
    var ids := links.Keys;
    var found := false;
    var latest := 0;
    while ids != {}
      invariant ids <= links.Keys
      invariant found <==> exists i :: i in links && i !in ids && links[i].version == version
      invariant !found ==> latest == 0
      invariant found ==> exists i :: i in links && i !in ids && links[i].version == version && links[i].order == latest
      invariant forall i :: i in links && i !in ids && links[i].version == version ==> links[i].order <= latest
      decreases |ids|
    {
      var id :| id in ids;
      ids := ids - {id};
      if links[id].version == version && (!found || links[id].order > latest) {
        found, latest := true, links[id].order;
      }
    }
    n := latest + 1;
  }

  /** ON DELETE CASCADE from a score. */
  function WithoutScores(d: Db, gone: set<Id>): Db {
    d.(scores := d.scores - gone,
       optionPoints := map i | i in d.optionPoints && d.optionPoints[i].score !in gone :: d.optionPoints[i],
       rangePoints := map i | i in d.rangePoints && d.rangePoints[i].score !in gone :: d.rangePoints[i],
       tierRules := map i | i in d.tierRules && d.tierRules[i].score !in gone :: d.tierRules[i])
  }

  function WithoutVersionRow(d: Db, id: Id): Db {
    d.(versions := d.versions - {id},
       links := map i | i in d.links && d.links[i].version != id :: d.links[i],
       responses := map i | i in d.responses && d.responses[i] != id :: d.responses[i])
  }

  /** ON DELETE CASCADE from a version: its scores go, its links and its responses. */
  function WithoutVersion(d: Db, id: Id): Db {
    WithoutVersionRow(WithoutScores(d, set s | s in d.scores && d.scores[s].version == id), id)
  }

  lemma WithoutScoresIsSound(d: Db, gone: set<Id>)
    requires Sound(d)
    ensures Keeps(d, WithoutScores(d, gone))
  {
    assert Integrity(WithoutScores(d, gone));
  }

  lemma WithoutVersionRowIsSound(d: Db, id: Id)
    requires Sound(d) && forall s :: s in d.scores ==> d.scores[s].version != id
    ensures Keeps(d, WithoutVersionRow(d, id))
  {
    assert Integrity(WithoutVersionRow(d, id));
  }

  lemma WithoutVersionIsSound(d: Db, id: Id)
    requires Sound(d)
    ensures Keeps(d, WithoutVersion(d, id))
  {
    var gone := set s | s in d.scores && d.scores[s].version == id;
    WithoutScoresIsSound(d, gone);
    WithoutVersionRowIsSound(WithoutScores(d, gone), id);
  }

  // ------------------------------------------------------------- the service

  class FormManagement {
    var db: Db

    constructor ()
      ensures Sound(db) && Matching(db) && db.versions == map[] && db.scores == map[]
    {
      db := Db({}, map[], map[], map[], map[], map[], map[], map[], map[], map[], 0);
    }

    method StoreVersion(id: Id, v: Version)
      requires Sound(db) && VersionFits(db, id, v)
      modifies this
      ensures db == StoredVersion(old(db), id, v) && Keeps(old(db), db)
    {
      StoredVersionIsSound(db, id, v);
      if Matching(db) { StoredVersionMatches(db, id, v); }
      db := StoredVersion(db, id, v);
    }

    method StoreScore(id: Id, s: Score)
      requires Sound(db) && ScoreFits(db, id, s)
      modifies this
      ensures db == StoredScore(old(db), id, s) && Keeps(old(db), db)
    {
      StoredScoreIsSound(db, id, s);
      if Matching(db) { StoredScoreMatches(db, id, s); }
      db := StoredScore(db, id, s);
    }

    method CreateVersion(form: Id, requested: Option<int>, active: bool) returns (r: Result<Id, FormError>)
      requires Sound(db)
      modifies this
      ensures Keeps(old(db), db)
      ensures r.Ok? <==> form in old(db).forms && (requested.Some? ==> requested.value > 0)
      ensures r.Err? ==> db == old(db)
      ensures r.Ok? ==>
                && r.value !in old(db).versions && r.value in db.versions
                && var v := db.versions[r.value];
                && v.form == form && v.active == active
                && (if requested.Some? then v.number == requested.value
                    else IsLatestNumber(old(db).versions, form, v.number - 1))
                && db == StoredVersion(old(db), r.value, v)
    {
      if form !in db.forms {
        return Err(NotFound);
      }
      if requested.Some? && requested.value <= 0 {
        return Err(BadRequest);
      }
      var number: int;
      if requested.Some? {
        number := requested.value;
      } else {
        number := NextFormVersionNumber(db.versions, form);
      }
      var v := Version(form, number, active);
      r := Ok(db.next);
      StoreVersion(db.next, v);
    }

    method UpdateVersion(id: Id, number: Option<int>, active: Option<bool>) returns (r: Result<Version, FormError>)
      requires Sound(db)
      modifies this
      ensures Keeps(old(db), db)
      ensures r.Ok? <==>
                && id in old(db).versions && !(number.None? && active.None?)
                && (number.Some? ==> number.value > 0)
      ensures r.Err? ==> db == old(db)
      ensures r.Ok? ==>
                && var was := old(db).versions[id];
                && r.value == Version(was.form, number.GetOr(was.number), active.GetOr(was.active))
                && db == StoredVersion(old(db), id, r.value)
    {
      if id !in db.versions {
        return Err(NotFound);
      }
      if (number.None? && active.None?) || (number.Some? && number.value <= 0) {
        return Err(BadRequest);
      }
      var was := db.versions[id];
      var v := Version(was.form, number.GetOr(was.number), active.GetOr(was.active));
      StoreVersion(id, v);
      r := Ok(v);
    }

    method ActivateVersion(id: Id) returns (r: Result<Version, FormError>)
      requires Sound(db)
      modifies this
      ensures Keeps(old(db), db)
      ensures r.Ok? <==> id in old(db).versions
      ensures r.Err? ==> db == old(db)
      ensures r.Ok? ==>
                && r.value == old(db).versions[id].(active := true)
                && db == StoredVersion(old(db), id, r.value)
    {
      if id !in db.versions {
        return Err(NotFound);
      }
      var v := db.versions[id].(active := true);
      StoreVersion(id, v);
      r := Ok(v);
    }

    method RemoveVersion(id: Id) returns (r: Result<(), FormError>)
      requires Sound(db)
      modifies this
      ensures Keeps(old(db), db)
      ensures r.Ok? <==> id in old(db).versions
      ensures db == if r.Ok? then WithoutVersion(old(db), id) else old(db)
    {
      if id !in db.versions {
        return Err(NotFound);
      }
      WithoutVersionIsSound(db, id);
      db := WithoutVersion(db, id);
      r := Ok(());
    }

    method CreateScore(version: Id, name: string, active: bool) returns (r: Result<Id, FormError>)
      requires Sound(db)
      modifies this
      ensures Keeps(old(db), db)
      ensures r.Ok? <==> version in old(db).versions && name != ""
      ensures r.Err? ==> db == old(db)
      ensures r.Ok? ==>
                && r.value !in old(db).scores
                && db == StoredScore(old(db), r.value, Score(version, name, active))
    {
      if version !in db.versions {
        return Err(NotFound);
      }
      if name == "" {
        return Err(BadRequest);
      }
      var s := Score(version, name, active);
      r := Ok(db.next);
      StoreScore(db.next, s);
    }

    method UpdateScore(id: Id, name: Option<string>, active: Option<bool>) returns (r: Result<Score, FormError>)
      requires Sound(db)
      modifies this
      ensures Keeps(old(db), db)
      ensures r.Ok? <==> id in old(db).scores && !(name.None? && active.None?) && name != Some("")
      ensures r.Err? ==> db == old(db)
      ensures r.Ok? ==>
                && var was := old(db).scores[id];
                && r.value == Score(was.version, name.GetOr(was.name), active.GetOr(was.active))
                && db == StoredScore(old(db), id, r.value)
    {
      if id !in db.scores {
        return Err(NotFound);
      }
      if (name.None? && active.None?) || name == Some("") {
        return Err(BadRequest);
      }
      var was := db.scores[id];
      var s := Score(was.version, name.GetOr(was.name), active.GetOr(was.active));
      StoreScore(id, s);
      r := Ok(s);
    }

    method ActivateScore(id: Id) returns (r: Result<Score, FormError>)
      requires Sound(db)
      modifies this
      ensures Keeps(old(db), db)
      ensures r.Ok? <==> id in old(db).scores
      ensures r.Err? ==> db == old(db)
      ensures r.Ok? ==>
                && r.value == old(db).scores[id].(active := true)
                && db == StoredScore(old(db), id, r.value)
    {
      if id !in db.scores {
        return Err(NotFound);
      }
      var s := db.scores[id].(active := true);
      StoreScore(id, s);
      r := Ok(s);
    }

    method RemoveScore(id: Id) returns (r: Result<(), FormError>)
      requires Sound(db)
      modifies this
      ensures Keeps(old(db), db)
      ensures r.Ok? <==> id in old(db).scores
      ensures db == if r.Ok? then WithoutScores(old(db), {id}) else old(db)
    {
      if id !in db.scores {
        return Err(NotFound);
      }
      WithoutScoresIsSound(db, {id});
      db := WithoutScores(db, {id});
      r := Ok(());
    }

    method CreateQuestion(form: Id, q: Question) returns (r: Result<Id, FormError>)
      requires Sound(db) && q.form == form
      modifies this
      ensures Keeps(old(db), db)
      ensures r.Ok? <==> form in old(db).forms && q.key != ""
      ensures r.Err? ==> db == old(db)
      ensures r.Ok? ==>
                && r.value !in old(db).questions
                && db == old(db).(questions := old(db).questions[r.value := q], next := db.next)
    {
      if form !in db.forms {
        return Err(NotFound);
      }
      if q.key == "" {
        return Err(BadRequest);
      }
      AddQuestionIsSound(db, q);
      r := Ok(db.next);
      db := WithQuestion(db, q);
    }

    method CreateQuestionOption(c: Choice) returns (r: Result<Id, FormError>)
      requires Sound(db)
      modifies this
      ensures Keeps(old(db), db)
      ensures r.Ok? <==> c.question in old(db).questions && c.key != ""
      ensures r.Err? ==> db == old(db)
      ensures r.Ok? ==>
                && r.value !in old(db).choices
                && db == old(db).(choices := old(db).choices[r.value := c], next := db.next)
    {
      if c.question !in db.questions {
        return Err(NotFound);
      }
      if c.key == "" {
        return Err(BadRequest);
      }
      AddChoiceIsSound(db, c);
      r := Ok(db.next);
      db := WithChoice(db, c);
    }

    /** A question is linked to a version of its own form, at most once, by default behind the version's others. */
    method AddFormVersionQuestion(version: Id, question: Id, order: Option<int>, required: Option<bool>)
      returns (r: Result<Id, FormError>)
      requires Sound(db)
      modifies this
      ensures Keeps(old(db), db)
      ensures r.Ok? <==> Linkable(old(db), version, question)
      ensures r.Err? ==> db == old(db)
      ensures r.Ok? ==>
                && r.value !in old(db).links && r.value in db.links
                && var l := db.links[r.value];
                && l.version == version && l.question == question && l.required == required.GetOr(false)
                && (if order.Some? then l.order == order.value else IsLatestOrder(old(db).links, version, l.order - 1))
                && db == old(db).(links := old(db).links[r.value := l], next := db.next)
    {
      if version !in db.versions || question !in db.questions {
        return Err(NotFound);
      }
      if !Linkable(db, version, question) {
        return Err(BadRequest);
      }
      var at: int;
      if order.Some? {
        at := order.value;
      } else {
        at := NextFormVersionQuestionOrder(db.links, version);
      }
      var l := Link(version, question, at, required.GetOr(false));
      AddLinkIsSound(db, l);
      r := Ok(db.next);
      db := WithLink(db, l);
    }

    /** All option points of a score are replaced, or none when an item does not fit the score's form. */
    method ReplaceScoreOptionPoints(score: Id, items: seq<OptionPoint>) returns (r: Result<nat, FormError>)
      requires Sound(db)
      requires forall k :: 0 <= k < |items| ==> items[k].score == score
      modifies this
      ensures Keeps(old(db), db)
      ensures r.Ok? <==> score in old(db).scores && NoRepeatedPair(items) && forall k :: 0 <= k < |items| ==>
              Fits(old(db), items[k])
      ensures r.Err? ==> db == old(db)
      ensures r.Ok? ==>
                && db == old(db).(optionPoints := db.optionPoints, next := db.next)
                && PointsReplaced(old(db).optionPoints, db.optionPoints, score, items, old(db).next)
    {
      if score !in db.scores {
        return Err(NotFound);
      }
      if !NoRepeatedPair(items) {
        return Err(BadRequest);
      }
      var fit := AllFit(db, items);
      if !fit {
        return Err(BadRequest);
      }
      ReplacedPointsAreSound(db, score, items);
      if Matching(db) { ReplacedPointsMatch(db, score, items); }
      ReplacedPointsAre(db, score, items);
      db := WithPointsReplaced(db, score, items);
      r := Ok(|items|);
    }
  }

  // ------------------------------------------------------------- content

  /** The checks of every item against its question and option. */
  method AllFit(d: Db, items: seq<OptionPoint>) returns (fit: bool)
    ensures fit <==> forall k :: 0 <= k < |items| ==> Fits(d, items[k])
  {
    for k := 0 to |items|
      invariant forall j :: 0 <= j < k ==> Fits(d, items[j])
    {
      if !Fits(d, items[k]) {
        return false;
      }
    }
    fit := true;
  }

  function WithQuestion(d: Db, q: Question): Db {
    d.(questions := d.questions[d.next := q], next := d.next + 1)
  }

  function WithChoice(d: Db, c: Choice): Db {
    d.(choices := d.choices[d.next := c], next := d.next + 1)
  }

  function WithLink(d: Db, l: Link): Db {
    d.(links := d.links[d.next := l], next := d.next + 1)
  }

  lemma AddQuestionKeepsIntegrity(d: Db, q: Question)
    requires Integrity(d) && q.form in d.forms
    ensures Integrity(WithQuestion(d, q))
  {
    assert d.next !in d.questions;
  }

  lemma AddQuestionIsSound(d: Db, q: Question)
    requires Sound(d) && q.form in d.forms
    ensures Keeps(d, WithQuestion(d, q))
  {
    AddQuestionKeepsIntegrity(d, q);
    var e := WithQuestion(d, q);
    assert d.next !in d.questions;
    assert forall i :: i in d.questions ==> e.questions[i] == d.questions[i];
  }

  lemma AddChoiceKeepsIntegrity(d: Db, c: Choice)
    requires Integrity(d) && c.question in d.questions
    ensures Integrity(WithChoice(d, c))
  {
    assert d.next !in d.choices;
  }

  lemma AddChoiceIsSound(d: Db, c: Choice)
    requires Sound(d) && c.question in d.questions
    ensures Keeps(d, WithChoice(d, c))
  {
    AddChoiceKeepsIntegrity(d, c);
    var e := WithChoice(d, c);
    assert d.next !in d.choices;
    assert forall i :: i in d.choices ==> e.choices[i] == d.choices[i];
  }

  lemma AddLinkIsSound(d: Db, l: Link)
    requires Sound(d) && l.version in d.versions && l.question in d.questions
    requires d.questions[l.question].form == d.versions[l.version].form
    ensures Keeps(d, WithLink(d, l))
  {
    var e := WithLink(d, l);
    assert Integrity(e);
  }

  /** The pairs question:option do not repeat. */
  predicate NoRepeatedPair(items: seq<OptionPoint>) {
    forall i, j :: 0 <= i < j < |items| ==> items[i].question != items[j].question || items[i].choice != items[j].choice
  }

  predicate Fits(d: Db, p: OptionPoint) {
    && p.score in d.scores && d.scores[p.score].version in d.versions
    && p.question in d.questions && p.choice in d.choices
    && d.questions[p.question].form == d.versions[d.scores[p.score].version].form
    && d.choices[p.choice].question == p.question
  }

  /** The items saved one after the other under new ids. */
  function Added<R>(rows: map<Id, R>, next: Id, items: seq<R>): map<Id, R> {
    if items == [] then rows
    else Added(rows, next, items[..|items| - 1])[next + |items| - 1 := items[|items| - 1]]
  }

  function OtherPoints(points: map<Id, OptionPoint>, score: Id): map<Id, OptionPoint> {
    map i | i in points && points[i].score != score :: points[i]
  }

  function WithPointsReplaced(d: Db, score: Id, items: seq<OptionPoint>): Db {
    d.(optionPoints := Added(OtherPoints(d.optionPoints, score), d.next, items), next := d.next + |items|)
  }

  /** Other scores keep their points; this one has exactly the items. */
  ghost predicate PointsReplaced(before: map<Id, OptionPoint>, after: map<Id, OptionPoint>, score: Id,
                                 items: seq<OptionPoint>, next: Id)
  {
    && (forall i :: i in before && before[i].score != score ==> i in after && after[i] == before[i])
    && (forall i :: i in after && after[i].score != score ==> i in before && after[i] == before[i])
    && (forall i :: i in after && after[i].score == score ==> next <= i < next + |items| && after[i] == items[i - next])
    && (forall i :: next <= i < next + |items| ==> i in after && after[i] == items[i - next])
  }

  lemma {:induction false} AddedAre<R>(rows: map<Id, R>, next: Id, items: seq<R>)
    requires Below(rows.Keys, next)
    ensures forall i :: i in rows ==> i in Added(rows, next, items) && Added(rows, next, items)[i] == rows[i]
    ensures forall i :: i in Added(rows, next, items) && i !in rows ==>
            next <= i < next + |items| && Added(rows, next, items)[i] == items[i - next]
    ensures forall i :: next <= i < next + |items| ==> i in Added(rows, next, items)
  {
    if items != [] {
      AddedAre(rows, next, items[..|items| - 1]);
    }
  }

  lemma ReplacedPointsAreSound(d: Db, score: Id, items: seq<OptionPoint>)
    requires Sound(d) && forall k :: 0 <= k < |items| ==> Fits(d, items[k])
    ensures Sound(WithPointsReplaced(d, score, items))
  {
    AddedAre(OtherPoints(d.optionPoints, score), d.next, items);
  }

  lemma ReplacedPointsMatch(d: Db, score: Id, items: seq<OptionPoint>)
    requires Matching(d) && forall k :: 0 <= k < |items| ==> Fits(d, items[k])
    requires Integrity(WithPointsReplaced(d, score, items))
    ensures Matching(WithPointsReplaced(d, score, items))
  {
    AddedAre(OtherPoints(d.optionPoints, score), d.next, items);
  }

  lemma ReplacedPointsAre(d: Db, score: Id, items: seq<OptionPoint>)
    requires AllBelow(d) && forall k :: 0 <= k < |items| ==> items[k].score == score
    ensures PointsReplaced(d.optionPoints, WithPointsReplaced(d, score, items).optionPoints, score, items, d.next)
  {
    AddedAre(OtherPoints(d.optionPoints, score), d.next, items);
  }
}
