/**
  What saving the questions of a payload leaves in the tables. Every question, option and
  link of the payload is there under the id its save returned, rows that were there stay,
  and nothing else is new; the option found for a joined text is the last one saved with
  that text. The properties are shown for one question and carried over the loop by one
  principle of induction, AllItems.
 */
module FormDraft {
  import opened Options
  import opened FormStore
  import opened FormPayload

  // ------------------------------------------------------------- inserted rows

  /** The table holds what it held, and one new row for each key. */
  ghost predicate NewRows<K(!new), R>(before: map<Id, R>, after: map<Id, R>, ids: map<K, Id>) {
    && (forall i :: i in before ==> i in after && after[i] == before[i])
    && (forall k :: k in ids ==> ids[k] in after && ids[k] !in before)
    && (forall k, l :: k in ids && l in ids && ids[k] == ids[l] ==> k == l)
    && (forall x :: x in after && x !in before ==> exists k :: k in ids && ids[k] == x)
  }

  lemma OneMoreRow<K(!new), R>(before: map<Id, R>, after: map<Id, R>, ids: map<K, Id>, k: K, id: Id, row: R)
    requires NewRows(before, after, ids) && id !in after && k !in ids
    ensures NewRows(before, after[id := row], ids[k := id])
  {
    var after', ids' := after[id := row], ids[k := id];
    forall x | x in after' && x !in before ensures exists l :: l in ids' && ids'[l] == x {
      if x == id {
        assert ids'[k] == x;
      } else {
        var l :| l in ids && ids[l] == x;
        assert ids'[l] == x;
      }
    }
  }

  lemma NewRowKey<K(!new), R>(before: map<Id, R>, after: map<Id, R>, ids: map<K, Id>, x: Id) returns (k: K)
    requires NewRows(before, after, ids) && x in after && x !in before
    ensures k in ids && ids[k] == x
  {
    k :| k in ids && ids[k] == x;
  }

  // ------------------------------------------------------------- what one question's options leave

  lemma {:induction false} OptionsFrame(s: Draft, question: Id, item: QuestionItem, n: nat)
    requires n <= |item.options|
    ensures OptionsSaved(s, question, item, n)
            == s.(choices := OptionsSaved(s, question, item, n).choices,
                  byPair := OptionsSaved(s, question, item, n).byPair,
                  ids := OptionsSaved(s, question, item, n).ids, next := s.next + n)
  {
    if n > 0 { OptionsFrame(s, question, item, n - 1); }
  }

  /** The ids of the pairs already saved stay, and the only new pairs are the item's first n. */
  lemma {:induction false} OptionIds(s: Draft, question: Id, item: QuestionItem, n: nat)
    requires n <= |item.options|
    ensures forall p :: p in OptionsSaved(s, question, item, n).ids && p !in s.ids
              ==> p.0 == item.key && exists j :: 0 <= j < n && item.options[j].key == p.1
    ensures forall j :: 0 <= j < n ==> (item.key, item.options[j].key) in OptionsSaved(s, question, item, n).ids
  {
    if n > 0 { OptionIds(s, question, item, n - 1); }
  }

  lemma NextPairIsNew(s: Draft, question: Id, item: QuestionItem, n: nat)
    requires n < |item.options| && Fresh(s, item)
    ensures (item.key, item.options[n].key) !in OptionsSaved(s, question, item, n).ids
  {
    OptionIds(s, question, item, n);
  }

  /** The choice table holds what it held and the saved options, all below the next id. */
  ghost predicate ChoicesGrown(before: map<Id, Choice>, s: Draft) {
    NewRows(before, s.choices, s.ids) && Below(s.choices.Keys, s.next)
  }

  lemma OptionRowIsNew(before: map<Id, Choice>, s: Draft, question: Id, item: QuestionItem, j: nat)
    requires j < |item.options| && (item.key, item.options[j].key) !in s.ids && ChoicesGrown(before, s)
    ensures ChoicesGrown(before, OptionSaved(s, question, item, j))
  {
    OneMoreRow(before, s.choices, s.ids, (item.key, item.options[j].key), s.next, ChoiceRow(question, item.options, j));
  }

  /** No option of this question is saved yet, and its option keys do not repeat. */
  ghost predicate Fresh(s: Draft, item: QuestionItem) {
    OptionKeysOk(item.options, |item.options|) && forall p :: p in s.ids ==> p.0 != item.key
  }

  /** Saving one more option keeps the property. */
  ghost predicate KeptByOption(P: Draft -> bool, question: Id, item: QuestionItem) {
    forall t: Draft, j: nat {:trigger OptionSaved(t, question, item, j)} ::
      j < |item.options| && P(t) && (item.key, item.options[j].key) !in t.ids ==> P(OptionSaved(t, question, item, j))
  }

  lemma OneMoreOption(P: Draft -> bool, s: Draft, question: Id, item: QuestionItem, n: nat)
    requires n < |item.options| && Fresh(s, item) && KeptByOption(P, question, item)
    requires P(OptionsSaved(s, question, item, n))
    ensures P(OptionsSaved(s, question, item, n + 1))
  {
    NextPairIsNew(s, question, item, n);
  }

  /** What saving one more option keeps holds after n options. */
  lemma {:induction false} AllOptions(P: Draft -> bool, s: Draft, question: Id, item: QuestionItem, n: nat)
    requires n <= |item.options| && Fresh(s, item) && P(s)
    requires KeptByOption(P, question, item)
    ensures P(OptionsSaved(s, question, item, n))
  {
    if n > 0 {
      AllOptions(P, s, question, item, n - 1);
      OneMoreOption(P, s, question, item, n - 1);
    }
  }

  lemma OptionRowsAreNew(before: map<Id, Choice>, s: Draft, question: Id, item: QuestionItem, n: nat)
    requires n <= |item.options| && Fresh(s, item) && ChoicesGrown(before, s)
    ensures ChoicesGrown(before, OptionsSaved(s, question, item, n))
  {
    var P := (t: Draft) => ChoicesGrown(before, t);
    forall t: Draft, j: nat | j < |item.options| && P(t) && (item.key, item.options[j].key) !in t.ids
      ensures P(OptionSaved(t, question, item, j))
    {
      OptionRowIsNew(before, t, question, item, j);
    }
    AllOptions(P, s, question, item, n);
  }

  /** The entry for a joined text is the id of the pair the text stands for. */
  ghost predicate Looks(byPair: map<string, Id>, ids: map<(string, string), Id>, last: map<string, (string, string)>) {
    byPair.Keys == last.Keys && forall t :: t in byPair ==> last[t] in ids && byPair[t] == ids[last[t]]
  }

  lemma LooksMore(byPair: map<string, Id>, ids: map<(string, string), Id>, last: map<string, (string, string)>,
                  p: (string, string), id: Id)
    requires Looks(byPair, ids, last) && p !in ids
    ensures Looks(byPair[Joined(p.0, p.1) := id], ids[p := id], last[Joined(p.0, p.1) := p])
  {
  }

  lemma {:induction false} OptionLookup(s: Draft, question: Id, item: QuestionItem, last: map<string, (string, string)>,
                                        n: nat)
    requires n <= |item.options| && Fresh(s, item)
    requires Looks(s.byPair, s.ids, last)
    ensures Looks(OptionsSaved(s, question, item, n).byPair, OptionsSaved(s, question, item, n).ids,
                  AddPairs(last, item, n))
  {
    if n > 0 {
      OptionLookup(s, question, item, last, n - 1);
      NextPairIsNew(s, question, item, n - 1);
      var t := OptionsSaved(s, question, item, n - 1);
      LooksMore(t.byPair, t.ids, AddPairs(last, item, n - 1), (item.key, item.options[n - 1].key), t.next);
    }
  }

  /** Option j of the item is a row of the table, under the id of its pair. */
  ghost predicate HasOption(s: Draft, question: Id, item: QuestionItem, j: nat)
    requires j < |item.options|
  {
    var p := (item.key, item.options[j].key);
    p in s.ids && s.ids[p] in s.choices && s.choices[s.ids[p]] == ChoiceRow(question, item.options, j)
  }

  lemma {:induction false} OptionIsThere(s: Draft, question: Id, item: QuestionItem, n: nat, j: nat)
    requires j < n <= |item.options| && OptionKeysOk(item.options, |item.options|)
    ensures HasOption(OptionsSaved(s, question, item, n), question, item, j)
    ensures OptionsSaved(s, question, item, n).ids[(item.key, item.options[j].key)] == s.next + j
  {
    OptionsFrame(s, question, item, n - 1);
    if j < n - 1 {
      OptionIsThere(s, question, item, n - 1, j);
    }
  }

  /** Options of other questions are left as they are. */
  lemma {:induction false} OtherOptionStays(s: Draft, question: Id, item: QuestionItem, n: nat, p: (string, string))
    requires n <= |item.options| && p.0 != item.key && p in s.ids && s.ids[p] < s.next && s.ids[p] in s.choices
    ensures p in OptionsSaved(s, question, item, n).ids && OptionsSaved(s, question, item, n).ids[p] == s.ids[p]
    ensures s.ids[p] in OptionsSaved(s, question, item, n).choices
    ensures OptionsSaved(s, question, item, n).choices[s.ids[p]] == s.choices[s.ids[p]]
  {
    if n > 0 {
      OptionsFrame(s, question, item, n - 1);
      OtherOptionStays(s, question, item, n - 1, p);
    }
  }

  // ------------------------------------------------------------- what all questions leave

  /** What one question adds to each table. */
  lemma ItemFrame(s: Draft, form: Id, version: Id, item: QuestionItem, k: nat)
    ensures var t := ItemSaved(s, form, version, item, k);
            var o := OptionsSaved(QuestionSaved(s, form, item), s.next, item, |item.options|);
            && t.questions == s.questions[s.next := Question(form, item.key, item.text, item.inputType)]
            && t.byKey == s.byKey[item.key := s.next]
            && t.choices == o.choices && t.ids == o.ids && t.byPair == o.byPair
            && o.next == s.next + 1 + |item.options| && t.next == o.next + 1
            && t.links == s.links[o.next := Link(version, s.next, item.order.GetOr(k + 1), item.required.GetOr(false))]
            && t.linkIds == s.linkIds[item.key := o.next]
  {
    OptionsFrame(QuestionSaved(s, form, item), s.next, item, |item.options|);
  }

  /** The question table holds what it held and one new question of the form for each key. */
  ghost predicate QuestionsDrafted(before: map<Id, Question>, after: map<Id, Question>, byKey: map<string, Id>,
                                   form: Id, next: Id)
  {
    NewRows(before, after, byKey) && Below(after.Keys, next)
    && forall key :: key in byKey ==> byKey[key] in after && after[byKey[key]].form == form
  }

  /** Every new option belongs to the new question its pair names. */
  ghost predicate ChoicesDrafted(before: map<Id, Choice>, s: Draft) {
    ChoicesGrown(before, s) && forall p :: p in s.ids ==> PairFits(s, p)
  }

  ghost predicate PairFits(s: Draft, p: (string, string))
    requires p in s.ids
  {
    p.0 in s.byKey && s.ids[p] in s.choices && s.choices[s.ids[p]].question == s.byKey[p.0]
  }

  /** Every new link joins the version and a new question. */
  ghost predicate LinksDrafted(before: map<Id, Link>, after: map<Id, Link>, ids: map<string, Id>,
                               byKey: map<string, Id>, version: Id, next: Id)
  {
    NewRows(before, after, ids) && Below(after.Keys, next)
    && forall key :: key in ids ==>
      && key in byKey && ids[key] in after && after[ids[key]].version == version
      && after[ids[key]].question == byKey[key]
  }

  lemma OneMoreQuestion(before: map<Id, Question>, after: map<Id, Question>, byKey: map<string, Id>, form: Id, next: Id,
                        key: string, row: Question, to: Id)
    requires QuestionsDrafted(before, after, byKey, form, next) && key !in byKey && row.form == form && next < to
    ensures QuestionsDrafted(before, after[next := row], byKey[key := next], form, to)
  {
    OneMoreRow(before, after, byKey, key, next, row);
  }

  lemma OneMoreLink(before: map<Id, Link>, after: map<Id, Link>, ids: map<string, Id>, byKey: map<string, Id>,
                    version: Id, next: Id,
                    key: string, id: Id, row: Link, question: Id)
    requires LinksDrafted(before, after, ids, byKey, version, next) && key !in byKey
    requires row.version == version && row.question == question && next <= id
    ensures LinksDrafted(before, after[id := row], ids[key := id], byKey[key := question], version, id + 1)
  {
    OneMoreRow(before, after, ids, key, id, row);
  }

  ghost predicate QuestionRows(before: map<Id, Question>, s: Draft, form: Id) {
    QuestionsDrafted(before, s.questions, s.byKey, form, s.next)
  }

  ghost predicate LinkRows(before: map<Id, Link>, s: Draft, version: Id) {
    LinksDrafted(before, s.links, s.linkIds, s.byKey, version, s.next)
  }

  lemma ItemQuestions(before: map<Id, Question>, s: Draft, form: Id, version: Id, item: QuestionItem, k: nat)
    requires QuestionRows(before, s, form) && item.key !in s.byKey
    ensures QuestionRows(before, ItemSaved(s, form, version, item, k), form)
  {
    ItemFrame(s, form, version, item, k);
    OneMoreQuestion(before, s.questions, s.byKey, form, s.next, item.key,
                    Question(form, item.key, item.text, item.inputType), s.next + |item.options| + 2);
  }

  /** t has one more link than s: that of a new question. */
  ghost predicate LinkAdded(s: Draft, t: Draft, key: string, id: Id, row: Link) {
    && t.links == s.links[id := row] && t.linkIds == s.linkIds[key := id]
    && t.byKey == s.byKey[key := row.question] && t.next == id + 1
  }

  lemma ItemAddsLink(s: Draft, form: Id, version: Id, item: QuestionItem, k: nat)
    ensures LinkAdded(s, ItemSaved(s, form, version, item, k), item.key, s.next + 1 + |item.options|,
                      Link(version, s.next, item.order.GetOr(k + 1), item.required.GetOr(false)))
  {
    ItemFrame(s, form, version, item, k);
  }

  lemma AddedLinkFits(before: map<Id, Link>, s: Draft, t: Draft, version: Id, key: string, id: Id, row: Link)
    requires LinkRows(before, s, version) && key !in s.byKey
    requires LinkAdded(s, t, key, id, row) && row.version == version && s.next <= id
    ensures LinkRows(before, t, version)
  {
    OneMoreLink(before, s.links, s.linkIds, s.byKey, version, s.next, key, id, row, row.question);
  }

  lemma ItemLinks(before: map<Id, Link>, s: Draft, form: Id, version: Id, item: QuestionItem, k: nat)
    requires LinkRows(before, s, version) && item.key !in s.byKey
    ensures LinkRows(before, ItemSaved(s, form, version, item, k), version)
  {
    ItemAddsLink(s, form, version, item, k);
    AddedLinkFits(before, s, ItemSaved(s, form, version, item, k), version, item.key, s.next + 1 + |item.options|,
                  Link(version, s.next, item.order.GetOr(k + 1), item.required.GetOr(false)));
  }

  lemma ItemChoices(before: map<Id, Choice>, s: Draft, form: Id, version: Id, item: QuestionItem, k: nat)
    requires ChoicesDrafted(before, s) && item.key !in s.byKey && OptionKeysOk(item.options, |item.options|)
    ensures ChoicesDrafted(before, ItemSaved(s, form, version, item, k))
  {
    ItemChoicesGrow(before, s, form, version, item, k);
    forall p | p in ItemSaved(s, form, version, item, k).ids ensures PairFits(ItemSaved(s, form, version, item, k), p) {
      ItemPair(s, form, version, item, k, p);
    }
  }

  lemma ItemChoicesGrow(before: map<Id, Choice>, s: Draft, form: Id, version: Id, item: QuestionItem, k: nat)
    requires ChoicesDrafted(before, s) && item.key !in s.byKey && OptionKeysOk(item.options, |item.options|)
    ensures ChoicesGrown(before, ItemSaved(s, form, version, item, k))
  {
    ItemFrame(s, form, version, item, k);
    var q := QuestionSaved(s, form, item);
    assert forall p :: p in s.ids ==> PairFits(s, p);
    OptionRowsAreNew(before, q, s.next, item, |item.options|);
  }

  lemma ItemPair(s: Draft, form: Id, version: Id, item: QuestionItem, k: nat, p: (string, string))
    requires p in s.ids ==> PairFits(s, p)
    requires Below(s.choices.Keys, s.next) && item.key !in s.byKey && OptionKeysOk(item.options, |item.options|)
    requires p in ItemSaved(s, form, version, item, k).ids
    ensures PairFits(ItemSaved(s, form, version, item, k), p)
  {
    ItemFrame(s, form, version, item, k);
    var q := QuestionSaved(s, form, item);
    if p in s.ids {
      OtherOptionStays(q, s.next, item, |item.options|, p);
    } else {
      OptionIds(q, s.next, item, |item.options|);
      var j :| 0 <= j < |item.options| && item.options[j].key == p.1;
      OptionIsThere(q, s.next, item, |item.options|, j);
    }
  }

  /** The keys saved after n questions are the keys of these questions. */
  lemma {:induction false} KeysSaved(s: Draft, form: Id, version: Id, items: seq<QuestionItem>, n: nat, key: string)
    requires n <= |items|
    ensures key in ItemsSaved(s, form, version, items, n).byKey
            <==> key in s.byKey || exists k :: 0 <= k < n && items[k].key == key
  {
    if n > 0 {
      KeysSaved(s, form, version, items, n - 1, key);
      ItemFrame(ItemsSaved(s, form, version, items, n - 1), form, version, items[n - 1], n - 1);
    }
  }

  /** The draft starts without keys and the payload's keys do not repeat. */
  ghost predicate Start(s: Draft, items: seq<QuestionItem>) {
    && s.byKey == map[] && s.byPair == map[] && s.ids == map[] && s.linkIds == map[]
    && ItemsOk(items) && OptionsOk(items)
  }

  lemma NextKeyIsNew(s: Draft, form: Id, version: Id, items: seq<QuestionItem>, n: nat)
    requires n < |items| && Start(s, items)
    ensures items[n].key !in ItemsSaved(s, form, version, items, n).byKey
  {
    KeysSaved(s, form, version, items, n, items[n].key);
  }

  /** Saving one more question keeps the property. */
  ghost predicate Inductive(P: (Draft, nat) -> bool, form: Id, version: Id, items: seq<QuestionItem>) {
    forall t: Draft, k: nat :: k < |items| && P(t, k) && items[k].key !in t.byKey ==>
        P(ItemSaved(t, form, version, items[k], k), k + 1)
  }

  lemma OneMoreItem(P: (Draft, nat) -> bool, s: Draft, form: Id, version: Id, items: seq<QuestionItem>, n: nat)
    requires n < |items| && Start(s, items) && Inductive(P, form, version, items)
    requires P(ItemsSaved(s, form, version, items, n), n)
    ensures P(ItemsSaved(s, form, version, items, n + 1), n + 1)
  {
    NextKeyIsNew(s, form, version, items, n);
  }

  lemma {:induction false} AllItems(P: (Draft, nat) -> bool, s: Draft, form: Id, version: Id, items: seq<QuestionItem>,
                                    n: nat)
    requires n <= |items| && Start(s, items) && P(s, 0) && Inductive(P, form, version, items)
    ensures P(ItemsSaved(s, form, version, items, n), n)
  {
    if n > 0 {
      AllItems(P, s, form, version, items, n - 1);
      OneMoreItem(P, s, form, version, items, n - 1);
    }
  }

  lemma AllQuestions(before: map<Id, Question>, s: Draft, form: Id, version: Id, items: seq<QuestionItem>, n: nat)
    requires n <= |items| && Start(s, items) && QuestionRows(before, s, form)
    ensures QuestionRows(before, ItemsSaved(s, form, version, items, n), form)
  {
    var P := (t: Draft, k: nat) => QuestionRows(before, t, form);
    forall t: Draft, k: nat | k < |items| && P(t, k) && items[k].key !in t.byKey
      ensures P(ItemSaved(t, form, version, items[k], k), k + 1)
    {
      ItemQuestions(before, t, form, version, items[k], k);
    }
    AllItems(P, s, form, version, items, n);
  }

  lemma AllLinks(before: map<Id, Link>, s: Draft, form: Id, version: Id, items: seq<QuestionItem>, n: nat)
    requires n <= |items| && Start(s, items) && LinkRows(before, s, version)
    ensures LinkRows(before, ItemsSaved(s, form, version, items, n), version)
  {
    var P := (t: Draft, k: nat) => LinkRows(before, t, version);
    forall t: Draft, k: nat | k < |items| && P(t, k) && items[k].key !in t.byKey
      ensures P(ItemSaved(t, form, version, items[k], k), k + 1)
    {
      ItemLinks(before, t, form, version, items[k], k);
    }
    AllItems(P, s, form, version, items, n);
  }

  lemma AllChoices(before: map<Id, Choice>, s: Draft, form: Id, version: Id, items: seq<QuestionItem>, n: nat)
    requires n <= |items| && Start(s, items) && ChoicesDrafted(before, s)
    ensures ChoicesDrafted(before, ItemsSaved(s, form, version, items, n))
  {
    var P := (t: Draft, k: nat) => ChoicesDrafted(before, t);
    forall t: Draft, k: nat | k < |items| && P(t, k) && items[k].key !in t.byKey
      ensures P(ItemSaved(t, form, version, items[k], k), k + 1)
    {
      ItemChoices(before, t, form, version, items[k], k);
    }
    AllItems(P, s, form, version, items, n);
  }

  /** Pairs are saved for saved questions only, and found by the texts of the first k questions. */
  ghost predicate Lookup(s: Draft, items: seq<QuestionItem>, k: nat) {
    && k <= |items| && Looks(s.byPair, s.ids, LastPairs(items, k))
    && forall p :: p in s.ids ==> p.0 in s.byKey
  }

  lemma ItemLookup(s: Draft, form: Id, version: Id, items: seq<QuestionItem>, k: nat)
    requires k < |items| && Lookup(s, items, k) && items[k].key !in s.byKey
             && OptionKeysOk(items[k].options, |items[k].options|)
    ensures Lookup(ItemSaved(s, form, version, items[k], k), items, k + 1)
  {
    var q := QuestionSaved(s, form, items[k]);
    ItemFrame(s, form, version, items[k], k);
    OptionIds(q, s.next, items[k], |items[k].options|);
    OptionLookup(q, s.next, items[k], LastPairs(items, k), |items[k].options|);
  }

  lemma AllLookups(s: Draft, form: Id, version: Id, items: seq<QuestionItem>, n: nat)
    requires n <= |items| && Start(s, items)
    ensures Lookup(ItemsSaved(s, form, version, items, n), items, n)
  {
    var P := (t: Draft, k: nat) => Lookup(t, items, k);
    forall t: Draft, k: nat | k < |items| && P(t, k) && items[k].key !in t.byKey
      ensures P(ItemSaved(t, form, version, items[k], k), k + 1)
    {
      ItemLookup(t, form, version, items, k);
    }
    AllItems(P, s, form, version, items, n);
  }

  /** The k-th item of the payload is in the tables with all its attributes. */
  ghost predicate HasItem(s: Draft, form: Id, version: Id, item: QuestionItem, k: nat) {
    && item.key in s.byKey && s.byKey[item.key] in s.questions
    && s.questions[s.byKey[item.key]] == Question(form, item.key, item.text, item.inputType)
    && item.key in s.linkIds && s.linkIds[item.key] in s.links
    && s.links[s.linkIds[item.key]] == Link(version, s.byKey[item.key], item.order.GetOr(k + 1),
                                            item.required.GetOr(false))
    && forall j :: 0 <= j < |item.options| ==> HasOption(s, s.byKey[item.key], item, j)
  }

  ghost predicate Bounded(s: Draft) {
    Below(s.questions.Keys, s.next) && Below(s.choices.Keys, s.next) && Below(s.links.Keys, s.next)
  }

  lemma {:induction false} OptionsBounded(s: Draft, question: Id, item: QuestionItem, n: nat)
    requires n <= |item.options| && Bounded(s)
    ensures Bounded(OptionsSaved(s, question, item, n))
  {
    if n > 0 { OptionsBounded(s, question, item, n - 1); }
  }

  lemma ItemBounded(s: Draft, form: Id, version: Id, item: QuestionItem, k: nat)
    requires Bounded(s)
    ensures Bounded(ItemSaved(s, form, version, item, k))
  {
    var q := QuestionSaved(s, form, item);
    OptionsBounded(q, s.next, item, |item.options|);
  }

  lemma ItemIsThere(s: Draft, form: Id, version: Id, item: QuestionItem, k: nat)
    requires OptionKeysOk(item.options, |item.options|)
    ensures HasItem(ItemSaved(s, form, version, item, k), form, version, item, k)
  {
    ItemFrame(s, form, version, item, k);
    forall j | 0 <= j < |item.options| ensures HasOption(ItemSaved(s, form, version, item, k), s.next, item, j) {
      OptionIsThere(QuestionSaved(s, form, item), s.next, item, |item.options|, j);
    }
  }

  lemma ItemStays(s: Draft, form: Id, version: Id, item: QuestionItem, k: nat, other: QuestionItem, l: nat)
    requires HasItem(s, form, version, item, k) && other.key != item.key && Bounded(s)
    ensures HasItem(ItemSaved(s, form, version, other, l), form, version, item, k)
  {
    ItemFrame(s, form, version, other, l);
    forall j | 0 <= j < |item.options|
      ensures HasOption(ItemSaved(s, form, version, other, l), s.byKey[item.key], item, j)
    {
      assert HasOption(s, s.byKey[item.key], item, j);
      OtherOptionStays(QuestionSaved(s, form, other), s.next, other, |other.options|, (item.key, item.options[j].key));
    }
  }

  lemma ItemsAreThere(s: Draft, form: Id, version: Id, items: seq<QuestionItem>, i: nat)
    requires i < |items| && Start(s, items) && Bounded(s)
    ensures HasItem(ItemsSaved(s, form, version, items, |items|), form, version, items[i], i)
  {
    var P := (t: Draft, k: nat) => Bounded(t) && (i < k ==> HasItem(t, form, version, items[i], i));
    forall t: Draft, k: nat | k < |items| && P(t, k) && items[k].key !in t.byKey
      ensures P(ItemSaved(t, form, version, items[k], k), k + 1)
    {
      ItemBounded(t, form, version, items[k], k);
      if i < k {
        ItemStays(t, form, version, items[i], i, items[k], k);
      } else if i == k {
        ItemIsThere(t, form, version, items[k], k);
      }
    }
    AllItems(P, s, form, version, items, |items|);
  }
}
