/**
  The payload that creates a form with its version, questions, options and scores: the
  checks it must pass, and the loops that save its rows. Score points find their option
  under the joined text question_key::option_key.
 */
module FormPayload {
  import opened Options
  import opened FormStore

  datatype OptionItem = OptionItem(key: string, text: Option<string>, order: Option<int>)

  datatype QuestionItem = QuestionItem(
    key: string, text: Option<string>, inputType: Option<string>, options: seq<OptionItem>,
    order: Option<int>, required: Option<bool>)

  datatype PointItem = PointItem(question: string, option: string, points: real)

  datatype RangeItem = RangeItem(question: string, min: Option<real>, max: Option<real>, points: real)

  datatype ScoreItem = ScoreItem(name: string, active: Option<bool>, points: seq<PointItem>, ranges: seq<RangeItem>)

  datatype Payload = Payload(
    name: string, number: Option<int>, active: Option<bool>, questions: seq<QuestionItem>, scores: seq<ScoreItem>)

  // ------------------------------------------------------------- option lookup

  function Joined(question: string, option: string): string {
    question + "::" + option
  }

  /** The pair of keys each joined text stands for: a later option overwrites an earlier one. */
  function AddPairs(last: map<string, (string, string)>, item: QuestionItem, n: nat): map<string, (string, string)>
    requires n <= |item.options|
  {
    if n == 0 then last
    else AddPairs(last, item, n - 1)[Joined(item.key, item.options[n - 1].key) := (item.key, item.options[n - 1].key)]
  }

  function LastPairs(items: seq<QuestionItem>, n: nat): map<string, (string, string)>
    requires n <= |items|
  {
    if n == 0 then map[] else AddPairs(LastPairs(items, n - 1), items[n - 1], |items[n - 1].options|)
  }

  /** A pair found for a text belongs to a question of the payload and has that text. */
  lemma {:induction false} AddedPairFound(last: map<string, (string, string)>, item: QuestionItem, n: nat, text: string)
    requires n <= |item.options| && text in AddPairs(last, item, n)
    ensures (text in last && AddPairs(last, item, n)[text] == last[text])
            || (AddPairs(last, item, n)[text].0 == item.key
                && Joined(item.key, AddPairs(last, item, n)[text].1) == text)
  {
    if n > 0 && text != Joined(item.key, item.options[n - 1].key) {
      AddedPairFound(last, item, n - 1, text);
    }
  }

  lemma {:induction false} PairFound(items: seq<QuestionItem>, n: nat, text: string)
    requires n <= |items| && text in LastPairs(items, n)
    ensures exists k :: 0 <= k < n && items[k].key == LastPairs(items, n)[text].0
    ensures Joined(LastPairs(items, n)[text].0, LastPairs(items, n)[text].1) == text
  {
    AddedPairFound(LastPairs(items, n - 1), items[n - 1], |items[n - 1].options|, text);
    if text in LastPairs(items, n - 1) {
      PairFound(items, n - 1, text);
    }
  }

  predicate HasColon(s: string) {
    exists i :: 0 <= i < |s| && s[i] == ':'
  }

  /** Joined texts of question keys without a colon are equal only for equal pairs. */
  lemma JoinedIsInjective(q: string, o: string, r: string, p: string)
    requires !HasColon(q) && !HasColon(r) && Joined(q, o) == Joined(r, p)
    ensures q == r && o == p
  {
    var s, t := Joined(q, o), Joined(r, p);
    assert s[|q|] == ':' && t[|r|] == ':';
    assert q == s[..|q|] && r == t[..|r|];
    assert o == s[|q| + 2..] && p == t[|r| + 2..];
  }

  /** With colons the text does not tell the pairs apart. */
  lemma JoinedIsAmbiguous()
    ensures Joined("a", "b::c") == Joined("a::b", "c")
  {
    assert Joined("a", "b::c") == "a::b::c";
  }

  // ------------------------------------------------------------- the checks

  /** The first n options have non-empty keys that do not repeat. */
  predicate OptionKeysOk(options: seq<OptionItem>, n: nat)
    requires n <= |options|
  {
    && (forall j :: 0 <= j < n ==> options[j].key != "")
    && (forall i, j :: 0 <= i < j < n ==> options[i].key != options[j].key)
  }

  ghost predicate AreKeys(keys: set<string>, options: seq<OptionItem>, n: nat)
    requires n <= |options|
  {
    forall k :: k in keys <==> exists i :: 0 <= i < n && options[i].key == k
  }

  lemma OneMoreKey(keys: set<string>, options: seq<OptionItem>, n: nat)
    requires n < |options| && AreKeys(keys, options, n) && OptionKeysOk(options, n)
    requires options[n].key != "" && options[n].key !in keys
    ensures AreKeys(keys + {options[n].key}, options, n + 1) && OptionKeysOk(options, n + 1)
    ensures forall i :: 0 <= i < n ==> options[i].key != options[n].key
  {
  }

  lemma NotAllKeysOk(keys: set<string>, options: seq<OptionItem>, n: nat)
    requires n < |options| && AreKeys(keys, options, n)
    requires options[n].key == "" || options[n].key in keys
    ensures !OptionKeysOk(options, |options|)
  {
  }

  /** The checks made before the transaction. */
  predicate ItemsOk(items: seq<QuestionItem>) {
    && items != []
    && (forall k :: 0 <= k < |items| ==> items[k].key != "" && items[k].options != [])
    && (forall i, k :: 0 <= i < k < |items| ==> items[i].key != items[k].key)
  }

  /** At most one score of the payload is active; a score is active unless it says otherwise. */
  predicate OneActiveItem(items: seq<ScoreItem>) {
    forall i, j ::
      0 <= i < |items| && 0 <= j < |items| && items[i].active.GetOr(true) && items[j].active.GetOr(true) ==> i == j
  }

  predicate PointOk(questions: set<string>, texts: set<string>, item: PointItem) {
    item.option != "" && item.question in questions && Joined(item.question, item.option) in texts
  }

  predicate RangeOk(questions: set<string>, item: RangeItem) {
    item.question in questions && !(item.min.Some? && item.max.Some? && item.min.value > item.max.value)
  }

  predicate ScoreOk(questions: set<string>, texts: set<string>, item: ScoreItem) {
    && item.name != ""
    && (forall k :: 0 <= k < |item.points| ==> PointOk(questions, texts, item.points[k]))
    && (forall k :: 0 <= k < |item.ranges| ==> RangeOk(questions, item.ranges[k]))
  }

  function KeysOf(items: seq<QuestionItem>): set<string> {
    set k | 0 <= k < |items| :: items[k].key
  }

  predicate HeaderOk(p: Payload) {
    p.name != "" && (p.number.Some? ==> p.number.value > 0) && ItemsOk(p.questions) && OneActiveItem(p.scores)
  }

  /** Every check of the operation. */
  predicate Accepted(p: Payload) {
    HeaderOk(p) && OptionsOk(p.questions)
        && ScoreItemsOk(KeysOf(p.questions), LastPairs(p.questions, |p.questions|).Keys, p.scores)
  }

  predicate OptionsOk(items: seq<QuestionItem>) {
    forall k :: 0 <= k < |items| ==> OptionKeysOk(items[k].options, |items[k].options|)
  }

  predicate ScoreItemsOk(questions: set<string>, texts: set<string>, items: seq<ScoreItem>) {
    forall k :: 0 <= k < |items| ==> ScoreOk(questions, texts, items[k])
  }

  // ------------------------------------------------------------- saving questions

  /** The tables while questions are saved, and the ids the saves returned. */
  datatype Draft = Draft(
    questions: map<Id, Question>, choices: map<Id, Choice>, links: map<Id, Link>,
    byKey: map<string, Id>, byPair: map<string, Id>, ids: map<(string, string), Id>, linkIds: map<string, Id>, next: Id)

  function ChoiceRow(question: Id, options: seq<OptionItem>, j: nat): Choice
    requires j < |options|
  {
    Choice(question, options[j].key, options[j].text, options[j].order.GetOr(j + 1))
  }

  function OptionSaved(s: Draft, question: Id, item: QuestionItem, j: nat): Draft
    requires j < |item.options|
  {
    var key := item.options[j].key;
    s.(choices := s.choices[s.next := ChoiceRow(question, item.options, j)],
       byPair := s.byPair[Joined(item.key, key) := s.next],
       ids := s.ids[(item.key, key) := s.next],
       next := s.next + 1)
  }

  /** After the first n options of the item. */
  function OptionsSaved(s: Draft, question: Id, item: QuestionItem, n: nat): Draft
    requires n <= |item.options|
  {
    if n == 0 then s else OptionSaved(OptionsSaved(s, question, item, n - 1), question, item, n - 1)
  }

  function QuestionSaved(s: Draft, form: Id, item: QuestionItem): Draft {
    s.(questions := s.questions[s.next := Question(form, item.key, item.text, item.inputType)],
       byKey := s.byKey[item.key := s.next],
       next := s.next + 1)
  }

  function LinkSaved(s: Draft, version: Id, question: Id, item: QuestionItem, k: nat): Draft {
    s.(links := s.links[s.next := Link(version, question, item.order.GetOr(k + 1), item.required.GetOr(false))],
       linkIds := s.linkIds[item.key := s.next],
       next := s.next + 1)
  }

  /** After the k-th question with its options and its link. */
  function ItemSaved(s: Draft, form: Id, version: Id, item: QuestionItem, k: nat): Draft {
    LinkSaved(OptionsSaved(QuestionSaved(s, form, item), s.next, item, |item.options|), version, s.next, item, k)
  }

  function ItemsSaved(s: Draft, form: Id, version: Id, items: seq<QuestionItem>, n: nat): Draft
    requires n <= |items|
  {
    if n == 0 then s else ItemSaved(ItemsSaved(s, form, version, items, n - 1), form, version, items[n - 1], n - 1)
  }

  function OptionCount(items: seq<QuestionItem>, n: nat): nat
    requires n <= |items|
  {
    if n == 0 then 0 else OptionCount(items, n - 1) + |items[n - 1].options|
  }

  /** One question's options; refused at an empty or repeated key. */
  method SaveOptions(s: Draft, question: Id, item: QuestionItem) returns (r: Option<Draft>, count: nat)
    ensures r.Some? <==> OptionKeysOk(item.options, |item.options|)
    ensures r.Some? ==> r.value == OptionsSaved(s, question, item, |item.options|) && count == |item.options|
  {
    var draft := s;
    var keys: set<string> := {};
    count := 0;
    for j := 0 to |item.options|
      invariant AreKeys(keys, item.options, j) && OptionKeysOk(item.options, j)
      invariant draft == OptionsSaved(s, question, item, j) && count == j
    {
      var key := item.options[j].key;
      if key == "" || key in keys {
        NotAllKeysOk(keys, item.options, j);
        return None, 0;
      }
      OneMoreKey(keys, item.options, j);
      keys := keys + {key};
      draft := OptionSaved(draft, question, item, j);
      count := count + 1;
    }
    r := Some(draft);
  }

  /** The loop over the questions of the payload. */
  method SaveItems(s: Draft, form: Id, version: Id, items: seq<QuestionItem>) returns (r: Option<Draft>, count: nat)
    ensures r.Some? <==> OptionsOk(items)
    ensures r.Some? ==> r.value == ItemsSaved(s, form, version, items, |items|) && count == OptionCount(items, |items|)
  {
    var draft := s;
    count := 0;
    for k := 0 to |items|
      invariant forall i :: 0 <= i < k ==> OptionKeysOk(items[i].options, |items[i].options|)
      invariant draft == ItemsSaved(s, form, version, items, k) && count == OptionCount(items, k)
    {
      var question := draft.next;
      var saved, options := SaveOptions(QuestionSaved(draft, form, items[k]), question, items[k]);
      if saved.None? {
        return None, 0;
      }
      count := count + options;
      draft := LinkSaved(saved.value, version, question, items[k], k);
    }
    r := Some(draft);
  }

  // ------------------------------------------------------------- saving scores

  /** The tables while scores are saved, and the ids of the scores. */
  datatype Scoring = Scoring(
    scores: map<Id, Score>, points: map<Id, OptionPoint>, ranges: map<Id, RangePoint>, ids: seq<Id>, next: Id)

  function PointRow(score: Id, item: PointItem, byKey: map<string, Id>, byPair: map<string, Id>): OptionPoint
    requires PointOk(byKey.Keys, byPair.Keys, item)
  {
    OptionPoint(score, byKey[item.question], byPair[Joined(item.question, item.option)], item.points)
  }

  function RangeRow(score: Id, item: RangeItem, byKey: map<string, Id>): RangePoint
    requires RangeOk(byKey.Keys, item)
  {
    RangePoint(score, byKey[item.question], item.min, item.max, item.points)
  }

  function PointRows(score: Id, item: ScoreItem, byKey: map<string, Id>,
                     byPair: map<string, Id>): (rows: seq<OptionPoint>)
    requires ScoreOk(byKey.Keys, byPair.Keys, item)
    ensures |rows| == |item.points|
  {
    seq(|item.points|, j requires 0 <= j < |item.points| => PointRow(score, item.points[j], byKey, byPair))
  }

  function RangeRows(score: Id, item: ScoreItem, byKey: map<string, Id>,
                     byPair: map<string, Id>): (rows: seq<RangePoint>)
    requires ScoreOk(byKey.Keys, byPair.Keys, item)
    ensures |rows| == |item.ranges|
  {
    seq(|item.ranges|, j requires 0 <= j < |item.ranges| => RangeRow(score, item.ranges[j], byKey))
  }

  function ScoreRow(version: Id, item: ScoreItem): Score {
    Score(version, item.name, item.active.GetOr(true))
  }

  function ScoreSaved(s: Scoring, version: Id, item: ScoreItem, byKey: map<string, Id>,
                      byPair: map<string, Id>): Scoring
    requires ScoreOk(byKey.Keys, byPair.Keys, item)
  {
    Scoring(s.scores[s.next := ScoreRow(version, item)],
            Added(s.points, s.next + 1, PointRows(s.next, item, byKey, byPair)),
            Added(s.ranges, s.next + 1 + |item.points|, RangeRows(s.next, item, byKey, byPair)),
            s.ids + [s.next], s.next + 1 + |item.points| + |item.ranges|)
  }

  /** After the first n scores of the payload with their points. */
  function ScoresSaved(s: Scoring, version: Id, items: seq<ScoreItem>, byKey: map<string, Id>, byPair: map<string, Id>,
                       n: nat): Scoring
    requires n <= |items| && forall i :: 0 <= i < n ==> ScoreOk(byKey.Keys, byPair.Keys, items[i])
  {
    if n == 0 then s
    else ScoreSaved(ScoresSaved(s, version, items, byKey, byPair, n - 1), version, items[n - 1], byKey, byPair)
  }

  /** The rows for a score's option points; refused when a key pair is unknown. */
  method MakePoints(score: Id, items: seq<PointItem>, byKey: map<string, Id>, byPair: map<string, Id>)
    returns (r: Option<seq<OptionPoint>>)
    ensures r.Some? <==> forall k :: 0 <= k < |items| ==> PointOk(byKey.Keys, byPair.Keys, items[k])
    ensures r.Some? ==> |r.value| == |items| && forall k :: 0 <= k < |items| ==>
            r.value[k] == PointRow(score, items[k], byKey, byPair)
  {
    var rows := [];
    for k := 0 to |items|
      invariant |rows| == k
      invariant forall i :: 0 <= i < k ==>
                  && PointOk(byKey.Keys, byPair.Keys, items[i])
                  && rows[i] == PointRow(score, items[i], byKey, byPair)
    {
      if !PointOk(byKey.Keys, byPair.Keys, items[k]) {
        return None;
      }
      rows := rows + [PointRow(score, items[k], byKey, byPair)];
    }
    r := Some(rows);
  }

  /** The rows for a score's range points; refused for an unknown question or an inverted range. */
  method MakeRanges(score: Id, items: seq<RangeItem>, byKey: map<string, Id>) returns (r: Option<seq<RangePoint>>)
    ensures r.Some? <==> forall k :: 0 <= k < |items| ==> RangeOk(byKey.Keys, items[k])
    ensures r.Some? ==> |r.value| == |items| && forall k :: 0 <= k < |items| ==>
            r.value[k] == RangeRow(score, items[k], byKey)
  {
    var rows := [];
    for k := 0 to |items|
      invariant |rows| == k
      invariant forall i :: 0 <= i < k ==> RangeOk(byKey.Keys, items[i]) && rows[i] == RangeRow(score, items[i], byKey)
    {
      if !RangeOk(byKey.Keys, items[k]) {
        return None;
      }
      rows := rows + [RangeRow(score, items[k], byKey)];
    }
    r := Some(rows);
  }

  method SaveScore(s: Scoring, version: Id, item: ScoreItem, byKey: map<string, Id>, byPair: map<string, Id>)
    returns (r: Option<Scoring>)
    ensures r.Some? <==> ScoreOk(byKey.Keys, byPair.Keys, item)
    ensures r.Some? ==> r.value == ScoreSaved(s, version, item, byKey, byPair)
  {
    if item.name == "" {
      return None;
    }
    var points := MakePoints(s.next, item.points, byKey, byPair);
    if points.None? {
      return None;
    }
    var ranges := MakeRanges(s.next, item.ranges, byKey);
    if ranges.None? {
      return None;
    }
    assert points.value == PointRows(s.next, item, byKey, byPair);
    assert ranges.value == RangeRows(s.next, item, byKey, byPair);
    r := Some(Scoring(s.scores[s.next := ScoreRow(version, item)], Added(s.points, s.next + 1, points.value),
                      Added(s.ranges, s.next + 1 + |item.points|, ranges.value),
                      s.ids + [s.next], s.next + 1 + |item.points| + |item.ranges|));
  }

  /** The loop over the scores of the payload. */
  method SaveScores(s: Scoring, version: Id, items: seq<ScoreItem>, byKey: map<string, Id>, byPair: map<string, Id>)
    returns (r: Option<Scoring>)
    ensures r.Some? <==> ScoreItemsOk(byKey.Keys, byPair.Keys, items)
    ensures r.Some? ==> r.value == ScoresSaved(s, version, items, byKey, byPair, |items|)
  {
    var scoring := s;
    for k := 0 to |items|
      invariant forall i :: 0 <= i < k ==> ScoreOk(byKey.Keys, byPair.Keys, items[i])
      invariant scoring == ScoresSaved(s, version, items, byKey, byPair, k)
    {
      var saved := SaveScore(scoring, version, items[k], byKey, byPair);
      if saved.None? {
        return None;
      }
      scoring := saved.value;
    }
    r := Some(scoring);
  }
}
