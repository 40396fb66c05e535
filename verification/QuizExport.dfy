/**
  The quiz columns of an export: resolveQuizExportData and resolvePersonContacts fill
  maps chunk by chunk. Each entry depends on its own key only, so resolving a batch of
  captures is resolving them all, restricted to the batch.

  Tables are listed in the order their query asks for; rows that tie keep one place, and
  a query for some ids keeps that order.
 */
module QuizExport {
  import opened Options
  import opened Csv
  import opened Text

  datatype Response = Response(id: int, capture: Option<int>, submittedAt: Option<int>, createdAt: int)

  datatype Score = Score(response: int, total: Option<string>, tier: Option<string>)

  datatype Answer = Answer(
    response: int, questionKey: Option<string>, questionText: Option<string>,
    optionText: Option<string>, answerText: Option<string>, number: Option<string>, flag: Option<bool>)

  datatype Contact = Contact(person: int, isEmail: bool, value: string)

  /** responses, scores, answers and contacts in the order of their queries. */
  datatype Db = Db(responses: seq<Response>, scores: seq<Score>, answers: seq<Answer>, contacts: seq<Contact>)

  datatype Detail = Detail(scoreTotal: Option<string>, tier: Option<string>, answers: Option<string>)

  datatype Person = Person(email: Option<string>, phone: Option<string>)

  type AnswerMap = map<string, string>

  /** Question labels by question key, in the order the keys were met. */
  type Labels = seq<(string, string)>

  datatype Resolved = Resolved(details: map<int, Detail>, answers: map<int, AnswerMap>, labels: Labels)

  // ------------------------------------------------------------- one key at a time

  /** DISTINCT ON (capture_id): the first listed response of a capture. */
  function LatestResponse(responses: seq<Response>, capture: int): Option<int> {
    if responses == [] then None
    else if responses[0].capture == Some(capture) then Some(responses[0].id)
    else LatestResponse(responses[1..], capture)
  }

  /** DISTINCT ON (form_response_id): the first listed score of a response. */
  function FirstScore(scores: seq<Score>, response: int): Option<Score> {
    if scores == [] then None
    else if scores[0].response == response then Some(scores[0])
    else FirstScore(scores[1..], response)
  }

  function OfResponse(answers: seq<Answer>, response: int): seq<Answer> {
    if answers == [] then []
    else
      var front := OfResponse(answers[..|answers| - 1], response);
      var last := answers[|answers| - 1];
      if last.response == response then front + [last] else front
  }

  function OfPerson(contacts: seq<Contact>, person: int): seq<Contact> {
    if contacts == [] then []
    else
      var front := OfPerson(contacts[..|contacts| - 1], person);
      var last := contacts[|contacts| - 1];
      if last.person == person then front + [last] else front
  }

  /** formatQuizAnswerValue */
  function ValueOf(a: Answer): string {
    if a.optionText.Some? && Trimmed(a.optionText.value) != "" then Trimmed(a.optionText.value)
    else if a.answerText.Some? && Trimmed(a.answerText.value) != "" then Trimmed(a.answerText.value)
    else if a.number.Some? then a.number.value
    else if a.flag.Some? then (if a.flag.value then "Sim" else "Não")
    else ""
  }

  function LabelOf(a: Answer): string {
    a.questionText.GetOr(a.questionKey.GetOr("Pergunta"))
  }

  function KeyOf(a: Answer): string {
    a.questionKey.GetOr(a.questionText.GetOr("question"))
  }

  function PieceOf(a: Answer): string {
    if ValueOf(a) != "" then LabelOf(a) + ": " + ValueOf(a) else LabelOf(a)
  }

  function Pieces(answers: seq<Answer>): seq<string> {
    if answers == [] then []
    else Pieces(answers[..|answers| - 1]) + [PieceOf(answers[|answers| - 1])]
  }

  /** Later answers to the same label replace earlier ones. */
  function Labelled(answers: seq<Answer>): AnswerMap {
    if answers == [] then map[]
    else Labelled(answers[..|answers| - 1])[LabelOf(answers[|answers| - 1]) := ValueOf(answers[|answers| - 1])]
  }

  function DetailOf(db: Db, response: int): Detail {
    var score := FirstScore(db.scores, response);
    var answers := OfResponse(db.answers, response);
    Detail(if score.Some? then score.value.total else None,
           if score.Some? then score.value.tier else None,
           if answers == [] then None else Some(Join(Pieces(answers), " | ")))
  }

  /** An address is kept once it is there and not empty. */
  function Keep(known: Option<string>, value: string): Option<string> {
    if known.Some? && known.value != "" then known else Some(value)
  }

  function Noted(p: Person, c: Contact): Person {
    if c.isEmail then p.(email := Keep(p.email, c.value)) else p.(phone := Keep(p.phone, c.value))
  }

  function PersonFrom(contacts: seq<Contact>): Person {
    if contacts == [] then Person(None, None)
    else Noted(PersonFrom(contacts[..|contacts| - 1]), contacts[|contacts| - 1])
  }

  // ------------------------------------------------------------- chunks

  /** [...new Set(ids)] */
  function Unique(ids: seq<int>): (r: seq<int>)
    ensures forall x :: x in r <==> x in ids
    ensures |r| <= |ids|
    ensures forall i, j :: 0 <= i < j < |r| ==> r[i] != r[j]
  {
    if ids == [] then []
    else
      var front := Unique(ids[..|ids| - 1]);
      assert ids == ids[..|ids| - 1] + [ids[|ids| - 1]];
      if ids[|ids| - 1] in front then front else front + [ids[|ids| - 1]]
  }

  function Flatten(chunks: seq<seq<int>>): seq<int> {
    if chunks == [] then [] else Flatten(chunks[..|chunks| - 1]) + chunks[|chunks| - 1]
  }

  /** Slices of `size` values, the last with what remains. */
  function Chunks(values: seq<int>, size: nat): seq<seq<int>>
    requires size >= 1
  {
    if values == [] then []
    else if |values| <= size then [values]
    else [values[..size]] + Chunks(values[size..], size)
  }

  lemma ChunksStep(values: seq<int>, index: nat, size: nat)
    requires size >= 1 && index < |values|
    ensures var end := if index + size <= |values| then index + size else |values|;
            Chunks(values[index..], size) == [values[index..end]] + Chunks(values[end..], size)
  {
    var rest := values[index..];
    if |rest| > size {
      assert rest[..size] == values[index..index + size] && rest[size..] == values[index + size..];
    } else {
      assert values[index..|values|] == rest && values[|values|..] == [];
      assert [rest] + [] == [rest];
    }
  }

  /** All chunks but the last are full. */
  ghost predicate FullButLast(chunks: seq<seq<int>>, size: nat) {
    && (forall i :: 0 <= i < |chunks| ==> 1 <= |chunks[i]| <= size)
    && (forall i :: 0 <= i < |chunks| - 1 ==> |chunks[i]| == size)
  }

  method ChunkArray(values: seq<int>, size: nat) returns (chunks: seq<seq<int>>)
    requires size >= 1
    ensures Flatten(chunks) == values
    ensures FullButLast(chunks, size)
    ensures chunks == Chunks(values, size)
  {
    chunks := [];
    var index := 0;
    while index < |values|
      invariant 0 <= index <= |values|
      invariant Flatten(chunks) == values[..index]
      invariant FullButLast(chunks, size)
      invariant index < |values| && chunks != [] ==> |chunks[|chunks| - 1]| == size
      invariant chunks + Chunks(values[index..], size) == Chunks(values, size)
    {
      var end := if index + size <= |values| then index + size else |values|;
      assert values[..end] == values[..index] + values[index..end];
      assert (chunks + [values[index..end]])[..|chunks|] == chunks;
      ChunksStep(values, index, size);
      chunks := chunks + [values[index..end]];
      index := end;
    }
    assert values[..|values|] == values;
  }

  // ------------------------------------------------------------- one chunk of responses

  function WithResponses(answers: seq<Answer>, responses: seq<int>): seq<Answer> {
    if answers == [] then []
    else
      var front := WithResponses(answers[..|answers| - 1], responses);
      var last := answers[|answers| - 1];
      if last.response in responses then front + [last] else front
  }

  function WithPersons(contacts: seq<Contact>, persons: seq<int>): seq<Contact> {
    if contacts == [] then []
    else
      var front := WithPersons(contacts[..|contacts| - 1], persons);
      var last := contacts[|contacts| - 1];
      if last.person in persons then front + [last] else front
  }

  lemma {:induction false} ChunkOfResponse(answers: seq<Answer>, responses: seq<int>, r: int)
    ensures OfResponse(WithResponses(answers, responses), r) == if r in responses then OfResponse(answers, r) else []
  {
    if answers != [] {
      var front, last := answers[..|answers| - 1], answers[|answers| - 1];
      ChunkOfResponse(front, responses, r);
      if last.response in responses {
        assert (WithResponses(front, responses) + [last])[..|WithResponses(front, responses)|]
               == WithResponses(front, responses);
      }
    }
  }

  lemma {:induction false} ChunkOfPerson(contacts: seq<Contact>, persons: seq<int>, p: int)
    ensures OfPerson(WithPersons(contacts, persons), p) == if p in persons then OfPerson(contacts, p) else []
  {
    if contacts != [] {
      var front, last := contacts[..|contacts| - 1], contacts[|contacts| - 1];
      ChunkOfPerson(front, persons, p);
      if last.person in persons {
        assert (WithPersons(front, persons) + [last])[..|WithPersons(front, persons)|] == WithPersons(front, persons);
      }
    }
  }

  // ------------------------------------------------------------- the answer loop

  function Grouped(answers: seq<Answer>): map<int, seq<string>> {
    if answers == [] then map[]
    else
      var m, a := Grouped(answers[..|answers| - 1]), answers[|answers| - 1];
      m[a.response := (if a.response in m then m[a.response] else []) + [PieceOf(a)]]
  }

  function Spread(answers: seq<Answer>, captureOf: map<int, int>, base: map<int, AnswerMap>): map<int, AnswerMap> {
    if answers == [] then base
    else
      var m, a := Spread(answers[..|answers| - 1], captureOf, base), answers[|answers| - 1];
      if a.response !in captureOf then m
      else
        var c := captureOf[a.response];
        m[c := (if c in m then m[c] else map[])[LabelOf(a) := ValueOf(a)]]
  }

  predicate HasKey(labels: Labels, key: string) {
    exists i :: 0 <= i < |labels| && labels[i].0 == key
  }

  /** A key keeps the label it was first met with. */
  function Noticed(labels: Labels, key: string, text: string): Labels {
    if HasKey(labels, key) then labels else labels + [(key, text)]
  }

  /** The first label of each key over some answers, after what was known before. */
  function NoticeAll(answers: seq<Answer>, known: Labels): Labels {
    if answers == [] then known
    else
      var a := answers[|answers| - 1];
      Noticed(NoticeAll(answers[..|answers| - 1], known), KeyOf(a), LabelOf(a))
  }

  lemma {:induction false} NoticeAppend(a: seq<Answer>, b: seq<Answer>, known: Labels)
    ensures NoticeAll(a + b, known) == NoticeAll(b, NoticeAll(a, known))
  {
    if b == [] {
      assert a + b == a;
    } else {
      assert (a + b)[..|a + b| - 1] == a + b[..|b| - 1];
      NoticeAppend(a, b[..|b| - 1], known);
    }
  }

  function LabelsFrom(answers: seq<Answer>, captureOf: map<int, int>, base: Labels): Labels {
    if answers == [] then base
    else
      var front, a := LabelsFrom(answers[..|answers| - 1], captureOf, base), answers[|answers| - 1];
      if a.response in captureOf then Noticed(front, KeyOf(a), LabelOf(a)) else front
  }

  /** The loop over the answers of one chunk of responses. */
  method CollectAnswers(answers: seq<Answer>, captureOf: map<int, int>, base: map<int, AnswerMap>, known: Labels)
    returns (grouped: map<int, seq<string>>, byCapture: map<int, AnswerMap>, labels: Labels)
    ensures grouped == Grouped(answers)
    ensures byCapture == Spread(answers, captureOf, base)
    ensures labels == LabelsFrom(answers, captureOf, known)
  {
    grouped, byCapture, labels := map[], base, known;
    for i := 0 to |answers|
      invariant grouped == Grouped(answers[..i])
      invariant byCapture == Spread(answers[..i], captureOf, base)
      invariant labels == LabelsFrom(answers[..i], captureOf, known)
    {
      var answer := answers[i];
      assert answers[..i + 1][..i] == answers[..i];
      var pieces := if answer.response in grouped then grouped[answer.response] else [];
      grouped := grouped[answer.response := pieces + [PieceOf(answer)]];
      if answer.response in captureOf {
        var capture := captureOf[answer.response];
        labels := Noticed(labels, KeyOf(answer), LabelOf(answer));
        var labelled := if capture in byCapture then byCapture[capture] else map[];
        byCapture := byCapture[capture := labelled[LabelOf(answer) := ValueOf(answer)]];
      }
    }
    assert answers[..|answers|] == answers;
  }

  lemma {:induction false} GroupedAt(answers: seq<Answer>, r: int)
    ensures r in Grouped(answers) <==> OfResponse(answers, r) != []
    ensures r in Grouped(answers) ==> Grouped(answers)[r] == Pieces(OfResponse(answers, r))
  {
    if answers != [] {
      var front, last := answers[..|answers| - 1], answers[|answers| - 1];
      GroupedAt(front, r);
      if last.response == r {
        assert OfResponse(answers, r)[..|OfResponse(front, r)|] == OfResponse(front, r);
      }
    }
  }

  /** Only the answers of a capture's own response reach its entry. */
  lemma {:induction false} SpreadAt(answers: seq<Answer>, captureOf: map<int, int>, base: map<int, AnswerMap>, c: int,
                                    r: int)
    requires r in captureOf && captureOf[r] == c
    requires forall x :: x in captureOf && captureOf[x] == c ==> x == r
    requires c !in base
    ensures var m := Spread(answers, captureOf, base);
            && (c in m <==> OfResponse(answers, r) != [])
            && (c in m ==> m[c] == Labelled(OfResponse(answers, r)))
  {
    if answers != [] {
      var front, last := answers[..|answers| - 1], answers[|answers| - 1];
      SpreadAt(front, captureOf, base, c, r);
      if last.response == r {
        assert OfResponse(answers, r)[..|OfResponse(front, r)|] == OfResponse(front, r);
      }
    }
  }

  /** Entries of captures without an answered response in the chunk stay as they were. */
  lemma {:induction false} SpreadElsewhere(answers: seq<Answer>, captureOf: map<int, int>, base: map<int, AnswerMap>,
                                           c: int)
    requires forall x :: x in captureOf && captureOf[x] == c ==> OfResponse(answers, x) == []
    ensures var m := Spread(answers, captureOf, base);
            (c in m <==> c in base) && (c in m ==> m[c] == base[c])
  {
    if answers != [] {
      var front, last := answers[..|answers| - 1], answers[|answers| - 1];
      assert forall x :: x in captureOf && captureOf[x] == c ==> OfResponse(front, x) == [] && last.response != x;
      SpreadElsewhere(front, captureOf, base, c);
    }
  }

  // ------------------------------------------------------------- one chunk of captures

  ghost predicate Distinct(s: seq<int>) {
    forall i, j :: 0 <= i < j < |s| ==> s[i] != s[j]
  }

  /** Response ids are primary keys. */
  ghost predicate DbOk(db: Db) {
    forall i, j :: 0 <= i < j < |db.responses| ==> db.responses[i].id != db.responses[j].id
  }

  function LatestByCapture(db: Db, captures: seq<int>): map<int, int> {
    map c | c in captures && LatestResponse(db.responses, c).Some? :: LatestResponse(db.responses, c).value
  }

  function Answered(db: Db, captures: seq<int>): seq<int> {
    if captures == [] then []
    else
      var front := Answered(db, captures[..|captures| - 1]);
      var last := captures[|captures| - 1];
      if LatestResponse(db.responses, last).Some? then front + [last] else front
  }

  lemma {:induction false} AnsweredAre(db: Db, captures: seq<int>)
    requires Distinct(captures)
    ensures Distinct(Answered(db, captures))
    ensures forall c :: c in Answered(db, captures) <==> c in captures && LatestResponse(db.responses, c).Some?
  {
    if captures != [] {
      var front, last := captures[..|captures| - 1], captures[|captures| - 1];
      assert captures == front + [last];
      AnsweredAre(db, front);
      assert last !in front;
    }
  }

  /** The responses of a list of captures that have one. */
  function LatestIds(db: Db, answered: seq<int>): seq<int>
    requires forall c :: c in answered ==> LatestResponse(db.responses, c).Some?
  {
    seq(|answered|, i requires 0 <= i < |answered| => LatestResponse(db.responses, answered[i]).value)
  }

  /** The place of a capture's first listed response. */
  lemma {:induction false} LatestAt(responses: seq<Response>, c: int) returns (i: nat)
    requires LatestResponse(responses, c).Some?
    ensures i < |responses| && responses[i].id == LatestResponse(responses, c).value && responses[i].capture == Some(c)
    ensures forall j :: 0 <= j < i ==> responses[j].capture != Some(c)
  {
    if responses[0].capture == Some(c) {
      i := 0;
    } else {
      var k := LatestAt(responses[1..], c);
      i := k + 1;
      assert forall j :: 1 <= j < |responses| ==> responses[j] == responses[1..][j - 1];
    }
  }

  /** ORDER BY submitted_at DESC NULLS LAST, created_at DESC, id DESC: a is listed before b or is b. */
  predicate NotBefore(a: Response, b: Response) {
    if a.submittedAt != b.submittedAt then
      a.submittedAt.Some? && (b.submittedAt.None? || a.submittedAt.value > b.submittedAt.value)
    else if a.createdAt != b.createdAt then a.createdAt > b.createdAt
    else a.id >= b.id
  }

  /** The responses of each capture are listed in the query's order. */
  ghost predicate InQueryOrder(responses: seq<Response>) {
    forall i, j ::
      0 <= i < j < |responses| && responses[i].capture.Some? && responses[i].capture == responses[j].capture
      ==> NotBefore(responses[i], responses[j])
  }

  /** The response taken for a capture is its latest: submitted last, then created last, then of the greatest id. */
  lemma LatestIsGreatest(responses: seq<Response>, c: int) returns (i: nat)
    requires InQueryOrder(responses) && LatestResponse(responses, c).Some?
    ensures i < |responses| && responses[i].id == LatestResponse(responses, c).value && responses[i].capture == Some(c)
    ensures forall r :: r in responses && r.capture == Some(c) ==> NotBefore(responses[i], r)
  {
    i := LatestAt(responses, c);
    forall r | r in responses && r.capture == Some(c) ensures NotBefore(responses[i], r) {
      var j :| 0 <= j < |responses| && responses[j] == r;
      assert i <= j;
    }
  }

  lemma LatestIsInjective(db: Db, c: int, d: int)
    requires DbOk(db)
    requires LatestResponse(db.responses, c).Some? && LatestResponse(db.responses, c) == LatestResponse(db.responses, d)
    ensures c == d
  {
    var i := LatestAt(db.responses, c);
    var j := LatestAt(db.responses, d);
    assert i == j;
  }

  lemma LatestIdsAreDistinct(db: Db, answered: seq<int>)
    requires DbOk(db) && Distinct(answered)
    requires forall c :: c in answered ==> LatestResponse(db.responses, c).Some?
    ensures Distinct(LatestIds(db, answered))
    ensures forall c :: c in answered ==> LatestResponse(db.responses, c).value in LatestIds(db, answered)
  {
    var ids := LatestIds(db, answered);
    forall i, j | 0 <= i < j < |ids| ensures ids[i] != ids[j] {
      if ids[i] == ids[j] {
        LatestIsInjective(db, answered[i], answered[j]);
      }
    }
    forall c | c in answered ensures LatestResponse(db.responses, c).value in ids {
      var i :| 0 <= i < |answered| && answered[i] == c;
      assert ids[i] == LatestResponse(db.responses, c).value;
    }
  }

  ghost predicate Inverse(latest: map<int, int>, captureOf: map<int, int>) {
    && (forall c :: c in latest ==> latest[c] in captureOf && captureOf[latest[c]] == c)
    && (forall r :: r in captureOf ==> captureOf[r] in latest && latest[captureOf[r]] == r)
  }

  /** What a capture's entry in answersByCapture must be once the responses in done are read. */
  ghost predicate EntryOk(db: Db, latest: map<int, int>, done: seq<int>, base: map<int, AnswerMap>,
                          m: map<int, AnswerMap>, c: int)
  {
    if c in latest && latest[c] in done && OfResponse(db.answers, latest[c]) != [] then
      c in m && m[c] == Labelled(OfResponse(db.answers, latest[c]))
    else
      (c in m <==> c in base) && (c in m ==> m[c] == base[c])
  }

  lemma EntryStep(db: Db, latest: map<int, int>, captureOf: map<int, int>, done: seq<int>, chunk: seq<int>,
                  base: map<int, AnswerMap>, m: map<int, AnswerMap>, c: int)
    requires Inverse(latest, captureOf)
    requires c in latest ==> c !in base
    requires forall r :: r in chunk ==> r !in done
    requires EntryOk(db, latest, done, base, m, c)
    ensures EntryOk(db, latest, done + chunk, base, Spread(WithResponses(db.answers, chunk), captureOf, m), c)
  {
    var q := WithResponses(db.answers, chunk);
    if c in latest {
      var r := latest[c];
      ChunkOfResponse(db.answers, chunk, r);
      if r in chunk {
        SpreadAt(q, captureOf, m, c, r);
      } else {
        SpreadElsewhere(q, captureOf, m, c);
      }
    } else {
      SpreadElsewhere(q, captureOf, m, c);
    }
  }

  ghost predicate EntriesOk(db: Db, latest: map<int, int>, done: seq<int>, base: map<int, AnswerMap>,
                            m: map<int, AnswerMap>) {
    forall c :: EntryOk(db, latest, done, base, m, c)
  }

  lemma EntriesStep(db: Db, latest: map<int, int>, captureOf: map<int, int>, done: seq<int>, chunk: seq<int>,
                    base: map<int, AnswerMap>, m: map<int, AnswerMap>)
    requires Inverse(latest, captureOf)
    requires forall c :: c in latest ==> c !in base
    requires forall r :: r in chunk ==> r !in done
    requires EntriesOk(db, latest, done, base, m)
    ensures EntriesOk(db, latest, done + chunk, base, Spread(WithResponses(db.answers, chunk), captureOf, m))
  {
    forall c
      ensures EntryOk(db, latest, done + chunk, base, Spread(WithResponses(db.answers, chunk), captureOf, m), c)
    {
      EntryStep(db, latest, captureOf, done, chunk, base, m, c);
    }
  }

  lemma {:induction false} FlattenPrefix(chunks: seq<seq<int>>, i: nat)
    requires i <= |chunks|
    ensures Flatten(chunks[..i]) <= Flatten(chunks)
    decreases |chunks|
  {
    if i < |chunks| {
      assert chunks[..|chunks| - 1][..i] == chunks[..i];
      FlattenPrefix(chunks[..|chunks| - 1], i);
    } else {
      assert chunks[..i] == chunks;
    }
  }

  lemma FlattenHolds(chunks: seq<seq<int>>, i: nat, captureOf: map<int, int>)
    requires i < |chunks| && forall r :: r in Flatten(chunks) ==> r in captureOf
    ensures forall r :: r in chunks[i] ==> r in captureOf
  {
    assert chunks[..i + 1][..i] == chunks[..i];
    FlattenPrefix(chunks, i + 1);
  }

  lemma FlattenStep(chunks: seq<seq<int>>, i: nat)
    requires i < |chunks| && Distinct(Flatten(chunks))
    ensures Flatten(chunks[..i + 1]) == Flatten(chunks[..i]) + chunks[i]
    ensures forall x :: x in chunks[i] ==> x !in Flatten(chunks[..i])
    ensures Distinct(chunks[i])
  {
    assert chunks[..i + 1][..i] == chunks[..i];
    FlattenPrefix(chunks, i + 1);
    DistinctParts(Flatten(chunks[..i]), chunks[i], Flatten(chunks));
  }

  lemma DistinctParts(a: seq<int>, b: seq<int>, all: seq<int>)
    requires Distinct(all) && a + b <= all
    ensures Distinct(b)
    ensures forall x :: x in b ==> x !in a
  {
    assert forall k :: 0 <= k < |a| ==> all[k] == a[k];
    assert forall k :: 0 <= k < |b| ==> all[|a| + k] == b[k];
  }

  // ------------------------------------------------------------- labels by key

  /** Each key met has one entry, under a label some answer to it shows. */
  ghost predicate LabelsRead(seen: set<Answer>, labels: Labels) {
    && (forall i, j :: 0 <= i < j < |labels| ==> labels[i].0 != labels[j].0)
    && (forall i :: 0 <= i < |labels| ==> Shown(seen, labels[i]))
    && (forall a :: a in seen ==> HasKey(labels, KeyOf(a)))
  }

  ghost predicate Shown(seen: set<Answer>, entry: (string, string)) {
    exists a :: a in seen && KeyOf(a) == entry.0 && LabelOf(a) == entry.1
  }

  /** The answers of the responses in done. */
  function AnswersTo(db: Db, done: set<int>): set<Answer> {
    set a | a in db.answers && a.response in done
  }

  function Members(ids: seq<int>): set<int> {
    set r | r in ids
  }

  /** The latest responses of the captures asked for. */
  function LatestSet(db: Db, captures: seq<int>): set<int> {
    set c | c in captures && LatestResponse(db.responses, c).Some? :: LatestResponse(db.responses, c).value
  }

  /** The labels cover the answers of the captures' latest responses. */
  ghost predicate LabelsFor(db: Db, captures: seq<int>, labels: Labels) {
    LabelsRead(AnswersTo(db, LatestSet(db, captures)), labels)
  }

  // ------------------------------------------------------------- the order in which answers are read

  /** The query for the answers of some responses. */
  function AnswersOf(answers: seq<Answer>, responses: set<int>): seq<Answer> {
    if answers == [] then []
    else
      var front, last := AnswersOf(answers[..|answers| - 1], responses), answers[|answers| - 1];
      if last.response in responses then front + [last] else front
  }

  /** The answers read for some chunks of responses, chunk by chunk. */
  function ReadChunks(db: Db, chunks: seq<seq<int>>): seq<Answer> {
    if chunks == [] then []
    else ReadChunks(db, chunks[..|chunks| - 1]) + WithResponses(db.answers, chunks[|chunks| - 1])
  }

  /** The answers read for some chunks of captures, chunk by chunk. */
  function ReadOver(db: Db, chunks: seq<seq<int>>): seq<Answer> {
    if chunks == [] then []
    else
      ReadOver(db, chunks[..|chunks| - 1]) + AnswersOf(db.answers, LatestSet(db, chunks[|chunks| - 1]))
  }

  /** The answers in the order in which resolveQuizExportData reads them. */
  function ReadFor(db: Db, captureIds: seq<int>, size: nat): seq<Answer>
    requires size >= 1
  {
    ReadOver(db, Chunks(Unique(captureIds), size))
  }

  /** The labels resolveQuizExportData collects: of each key the one it reads first. */
  function CollectedLabels(db: Db, captureIds: seq<int>, size: nat): Labels
    requires size >= 1
  {
    NoticeAll(ReadFor(db, captureIds, size), [])
  }

  lemma {:induction false} SameAnswers(answers: seq<Answer>, responses: seq<int>)
    ensures WithResponses(answers, responses) == AnswersOf(answers, Members(responses))
  {
    if answers != [] { SameAnswers(answers[..|answers| - 1], responses); }
  }

  lemma {:induction false} AnswersOfAre(answers: seq<Answer>, responses: set<int>)
    ensures forall a :: a in AnswersOf(answers, responses) <==> a in answers && a.response in responses
  {
    if answers != [] {
      AnswersOfAre(answers[..|answers| - 1], responses);
      assert answers == answers[..|answers| - 1] + [answers[|answers| - 1]];
    }
  }

  lemma {:induction false} LabelsFromAll(answers: seq<Answer>, captureOf: map<int, int>, base: Labels)
    requires forall a :: a in answers ==> a.response in captureOf
    ensures LabelsFrom(answers, captureOf, base) == NoticeAll(answers, base)
  {
    if answers != [] { LabelsFromAll(answers[..|answers| - 1], captureOf, base); }
  }

  /** The labels after the answers to the first n chunks of responses. */
  function LabelsUpTo(db: Db, captureOf: map<int, int>, chunks: seq<seq<int>>, n: nat, base: Labels): Labels
    requires n <= |chunks|
  {
    if n == 0 then base
    else LabelsFrom(WithResponses(db.answers, chunks[n - 1]), captureOf, LabelsUpTo(db, captureOf, chunks, n - 1, base))
  }

  lemma {:induction false} LabelsUpToAre(db: Db, captureOf: map<int, int>, chunks: seq<seq<int>>, n: nat, base: Labels)
    requires n <= |chunks| && forall r :: r in Flatten(chunks) ==> r in captureOf
    ensures LabelsUpTo(db, captureOf, chunks, n, base) == NoticeAll(ReadChunks(db, chunks[..n]), base)
  {
    if n > 0 {
      LabelsUpToAre(db, captureOf, chunks, n - 1, base);
      FlattenHolds(chunks, n - 1, captureOf);
      var rows := WithResponses(db.answers, chunks[n - 1]);
      SameAnswers(db.answers, chunks[n - 1]);
      AnswersOfAre(db.answers, Members(chunks[n - 1]));
      LabelsFromAll(rows, captureOf, NoticeAll(ReadChunks(db, chunks[..n - 1]), base));
      assert chunks[..n][..n - 1] == chunks[..n - 1];
      NoticeAppend(ReadChunks(db, chunks[..n - 1]), rows, base);
    }
  }

  lemma AllLabels(db: Db, captureOf: map<int, int>, chunks: seq<seq<int>>, base: Labels)
    requires forall r :: r in Flatten(chunks) ==> r in captureOf
    ensures LabelsUpTo(db, captureOf, chunks, |chunks|, base) == NoticeAll(ReadChunks(db, chunks), base)
  {
    LabelsUpToAre(db, captureOf, chunks, |chunks|, base);
    assert chunks[..|chunks|] == chunks;
  }

  lemma {:induction false} NoAnswersOf(answers: seq<Answer>, responses: set<int>)
    requires responses == {}
    ensures AnswersOf(answers, responses) == []
  {
    if answers != [] { NoAnswersOf(answers[..|answers| - 1], responses); }
  }

  /** No more responses than fit into one chunk are read by one query. */
  lemma OneChunkRead(db: Db, responses: seq<int>, size: nat)
    requires size >= 1 && |responses| <= size
    ensures ReadChunks(db, Chunks(responses, size)) == AnswersOf(db.answers, Members(responses))
  {
    SameAnswers(db.answers, responses);
    if responses == [] {
      NoAnswersOf(db.answers, Members(responses));
    } else {
      assert [responses][..0] == [];
      assert [] + WithResponses(db.answers, responses) == WithResponses(db.answers, responses);
    }
  }

  lemma ReadOverStep(db: Db, chunks: seq<seq<int>>, i: nat)
    requires i < |chunks|
    ensures NoticeAll(ReadOver(db, chunks[..i + 1]), [])
            == NoticeAll(AnswersOf(db.answers, LatestSet(db, chunks[i])), NoticeAll(ReadOver(db, chunks[..i]), []))
  {
    assert chunks[..i + 1][..i] == chunks[..i];
    NoticeAppend(ReadOver(db, chunks[..i]), AnswersOf(db.answers, LatestSet(db, chunks[i])), []);
  }

  lemma LatestOfBoth(db: Db, a: seq<int>, b: seq<int>)
    ensures LatestSet(db, a + b) == LatestSet(db, a) + LatestSet(db, b)
  {
    forall r | r in LatestSet(db, a) + LatestSet(db, b) ensures r in LatestSet(db, a + b) {
      var c :| c in a + b && LatestResponse(db.responses, c) == Some(r);
    }
  }

  /** What is read are the answers of the captures' latest responses. */
  lemma {:induction false} ReadOverAre(db: Db, chunks: seq<seq<int>>)
    ensures forall a :: a in ReadOver(db, chunks) <==> a in AnswersTo(db, LatestSet(db, Flatten(chunks)))
  {
    if chunks != [] {
      var front, last := chunks[..|chunks| - 1], chunks[|chunks| - 1];
      ReadOverAre(db, front);
      AnswersOfAre(db.answers, LatestSet(db, last));
      LatestOfBoth(db, Flatten(front), last);
    }
  }

  lemma {:induction false} FlattenChunks(values: seq<int>, size: nat)
    requires size >= 1
    ensures forall x :: x in Flatten(Chunks(values, size)) <==> x in values
  {
    if |values| > size {
      FlattenChunks(values[size..], size);
      FlattenCons(values[..size], Chunks(values[size..], size));
      assert values == values[..size] + values[size..];
    } else if values != [] {
      assert [values][..0] == [];
    }
  }

  lemma {:induction false} FlattenCons(first: seq<int>, rest: seq<seq<int>>)
    ensures Flatten([first] + rest) == first + Flatten(rest)
  {
    if rest == [] {
      assert ([first] + rest)[..0] == [];
    } else {
      FlattenCons(first, rest[..|rest| - 1]);
      assert ([first] + rest)[..|rest|] == [first] + rest[..|rest| - 1];
    }
  }

  lemma NoticedIsRead(seen: set<Answer>, labels: Labels, a: Answer)
    requires LabelsRead(seen, labels)
    ensures LabelsRead(seen + {a}, Noticed(labels, KeyOf(a), LabelOf(a)))
  {
    var more, next := seen + {a}, Noticed(labels, KeyOf(a), LabelOf(a));
    forall i | 0 <= i < |labels| ensures Shown(more, labels[i]) {
      var b :| b in seen && KeyOf(b) == labels[i].0 && LabelOf(b) == labels[i].1;
      assert b in more;
    }
    assert a in more;
    forall b | b in more ensures HasKey(next, KeyOf(b)) {
      if b == a {
        assert HasKey(labels, KeyOf(a)) || next[|labels|].0 == KeyOf(a);
      } else {
        var i :| 0 <= i < |labels| && labels[i].0 == KeyOf(b);
        assert next[i].0 == KeyOf(b);
      }
    }
  }

  function Elements(answers: seq<Answer>): set<Answer> {
    set a | a in answers
  }

  lemma ElementsSnoc(answers: seq<Answer>)
    requires answers != []
    ensures Elements(answers) == Elements(answers[..|answers| - 1]) + {answers[|answers| - 1]}
  {
    assert answers == answers[..|answers| - 1] + [answers[|answers| - 1]];
  }

  lemma {:induction false} NoticeAllReads(answers: seq<Answer>)
    ensures LabelsRead(Elements(answers), NoticeAll(answers, []))
  {
    if answers != [] {
      var front, last := answers[..|answers| - 1], answers[|answers| - 1];
      NoticeAllReads(front);
      NoticedIsRead(Elements(front), NoticeAll(front, []), last);
      ElementsSnoc(answers);
    }
  }

  lemma ReadForAre(db: Db, captureIds: seq<int>, size: nat)
    requires size >= 1
    ensures forall a :: a in ReadFor(db, captureIds, size) <==> a in AnswersTo(db, LatestSet(db, captureIds))
  {
    var chunks := Chunks(Unique(captureIds), size);
    ReadOverAre(db, chunks);
    FlattenChunks(Unique(captureIds), size);
    assert LatestSet(db, Flatten(chunks)) == LatestSet(db, captureIds);
  }

  lemma CollectedLabelsCover(db: Db, captureIds: seq<int>, size: nat)
    requires size >= 1
    ensures LabelsFor(db, captureIds, CollectedLabels(db, captureIds, size))
  {
    var read := ReadFor(db, captureIds, size);
    NoticeAllReads(read);
    ReadForAre(db, captureIds, size);
    assert Elements(read) == AnswersTo(db, LatestSet(db, captureIds));
  }

  // ------------------------------------------------------------- resolveQuizExportData

  /** The maps read so far from the scores and answers of the responses in done. */
  ghost predicate ResponsesRead(db: Db, done: seq<int>, scores: map<int, Score>, concatenated: map<int, string>) {
    && (forall r :: r in scores <==> r in done && FirstScore(db.scores, r).Some?)
    && (forall r :: r in scores ==> Some(scores[r]) == FirstScore(db.scores, r))
    && (forall r :: r in concatenated <==> r in done && OfResponse(db.answers, r) != [])
    && (forall r :: r in concatenated ==> concatenated[r] == Join(Pieces(OfResponse(db.answers, r)), " | "))
  }

  function FirstsOf(db: Db, chunk: seq<int>): map<int, Score> {
    map r | r in chunk && FirstScore(db.scores, r).Some? :: FirstScore(db.scores, r).value
  }

  function JoinedOf(grouped: map<int, seq<string>>): map<int, string> {
    map r | r in grouped :: Join(grouped[r], " | ")
  }

  /** The loop over the chunks of one chunk's responses. */
  method ReadResponses(db: Db, latest: map<int, int>, captureOf: map<int, int>, responses: seq<int>, acc: Resolved,
                       size: nat)
    returns (scores: map<int, Score>, concatenated: map<int, string>, answers: map<int, AnswerMap>, labels: Labels)
    requires size >= 1 && Distinct(responses) && Inverse(latest, captureOf)
    requires forall c :: c in latest ==> c !in acc.answers
    requires forall r :: r in responses ==> r in captureOf
    ensures ResponsesRead(db, responses, scores, concatenated)
    ensures EntriesOk(db, latest, responses, acc.answers, answers)
    ensures labels == NoticeAll(ReadChunks(db, Chunks(responses, size)), acc.labels)
  {
    var chunks := ChunkArray(responses, size);
    scores, concatenated, answers, labels := map[], map[], acc.answers, acc.labels;
    for i := 0 to |chunks|
      invariant ResponsesRead(db, Flatten(chunks[..i]), scores, concatenated)
      invariant EntriesOk(db, latest, Flatten(chunks[..i]), acc.answers, answers)
      invariant labels == LabelsUpTo(db, captureOf, chunks, i, acc.labels)
    {
      var chunk := chunks[i];
      ghost var done := Flatten(chunks[..i]);
      FlattenStep(chunks, i);
      var grouped, byCapture, more := CollectAnswers(WithResponses(db.answers, chunk), captureOf, answers, labels);
      EntriesStep(db, latest, captureOf, done, chunk, acc.answers, answers);
      ReadStep(db, done, chunk, scores, concatenated);
      scores, concatenated := scores + FirstsOf(db, chunk), concatenated + JoinedOf(grouped);
      answers, labels := byCapture, more;
    }
    assert chunks[..|chunks|] == chunks;
    AllLabels(db, captureOf, chunks, acc.labels);
  }

  lemma ReadStep(db: Db, done: seq<int>, chunk: seq<int>, scores: map<int, Score>, concatenated: map<int, string>)
    requires ResponsesRead(db, done, scores, concatenated)
    ensures ResponsesRead(db, done + chunk, scores + FirstsOf(db, chunk),
                          concatenated + JoinedOf(Grouped(WithResponses(db.answers, chunk))))
  {
    var q := WithResponses(db.answers, chunk);
    forall r
      ensures r in Grouped(q) <==> r in chunk && OfResponse(db.answers, r) != []
      ensures r in Grouped(q) ==> Grouped(q)[r] == Pieces(OfResponse(db.answers, r))
    {
      GroupedAt(q, r);
      ChunkOfResponse(db.answers, chunk, r);
    }
  }

  /** A capture's entries: from its latest response alone, absent without one. */
  ghost predicate CaptureOk(db: Db, asked: bool, details: map<int, Detail>, answers: map<int, AnswerMap>, c: int) {
    var latest := LatestResponse(db.responses, c);
    if asked && latest.Some? then
      && c in details && details[c] == DetailOf(db, latest.value)
      && (c in answers <==> OfResponse(db.answers, latest.value) != [])
      && (c in answers ==> answers[c] == Labelled(OfResponse(db.answers, latest.value)))
    else c !in details && c !in answers
  }

  /** The specification: every entry depends on its own capture only. */
  ghost predicate ResolvedFor(db: Db, captures: seq<int>, r: Resolved) {
    forall c :: CaptureOk(db, c in captures, r.details, r.answers, c)
  }

  lemma CaptureStep(db: Db, done: seq<int>, chunk: seq<int>, acc: Resolved, latest: map<int, int>, responses: seq<int>,
                    scores: map<int, Score>, concatenated: map<int, string>, answers: map<int, AnswerMap>, c: int)
    requires CaptureOk(db, c in done, acc.details, acc.answers, c)
    requires latest == LatestByCapture(db, chunk)
    requires forall x :: x in chunk ==> x !in done
    requires c in latest ==> latest[c] in responses
    requires ResponsesRead(db, responses, scores, concatenated)
    requires EntryOk(db, latest, responses, acc.answers, answers, c)
    ensures CaptureOk(db, c in done + chunk, acc.details + DetailsOf(latest, scores, concatenated), answers, c)
  {
  }

  function DetailsOf(latest: map<int, int>, scores: map<int, Score>, concatenated: map<int, string>): map<int, Detail> {
    map c | c in latest ::
      var r := latest[c];
      Detail(if r in scores then scores[r].total else None,
             if r in scores then scores[r].tier else None,
             if r in concatenated then Some(concatenated[r]) else None)
  }

  lemma {:induction false} AnsweredLength(db: Db, captures: seq<int>)
    ensures |Answered(db, captures)| <= |captures|
  {
    if captures != [] { AnsweredLength(db, captures[..|captures| - 1]); }
  }

  lemma LatestIdsAre(db: Db, chunk: seq<int>, answered: seq<int>)
    requires forall c :: c in answered <==> c in chunk && LatestResponse(db.responses, c).Some?
    ensures Members(LatestIds(db, answered)) == LatestSet(db, chunk)
  {
    var ids := LatestIds(db, answered);
    forall c | c in chunk && LatestResponse(db.responses, c).Some?
      ensures LatestResponse(db.responses, c).value in ids
    {
      var i :| 0 <= i < |answered| && answered[i] == c;
      assert ids[i] == LatestResponse(db.responses, c).value;
    }
    forall r | r in ids ensures r in LatestSet(db, chunk) {
      var i :| 0 <= i < |ids| && ids[i] == r;
      assert answered[i] in chunk;
    }
  }

  /** One chunk of captures; their responses, at most as many, are read by one query each. */
  method ResolveChunk(db: Db, ghost done: seq<int>, chunk: seq<int>, acc: Resolved, size: nat) returns (r: Resolved)
    requires |chunk| <= size && size >= 1 && DbOk(db) && Distinct(chunk)
    requires forall x :: x in chunk ==> x !in done
    requires ResolvedFor(db, done, acc)
    ensures ResolvedFor(db, done + chunk, r)
    ensures r.labels == NoticeAll(AnswersOf(db.answers, LatestSet(db, chunk)), acc.labels)
  {
    var latest := LatestByCapture(db, chunk);
    var answered := Answered(db, chunk);
    AnsweredAre(db, chunk);
    AnsweredLength(db, chunk);
    var responses := LatestIds(db, answered);
    LatestIdsAreDistinct(db, answered);
    forall c, d | c in latest && d in latest && latest[c] == latest[d] ensures c == d {
      LatestIsInjective(db, c, d);
    }
    var captureOf := map c | c in latest :: latest[c] := c;
    forall c | c in latest ensures c !in acc.answers {
      assert CaptureOk(db, c in done, acc.details, acc.answers, c);
    }
    forall r | r in responses ensures r in captureOf {
      var i :| 0 <= i < |responses| && responses[i] == r;
      assert answered[i] in latest;
    }
    var scores, concatenated, answers, labels := ReadResponses(db, latest, captureOf, responses, acc, size);
    LatestIdsAre(db, chunk, answered);
    OneChunkRead(db, responses, size);
    forall c
      ensures CaptureOk(db, c in done + chunk, acc.details + DetailsOf(latest, scores, concatenated), answers, c)
    {
      assert CaptureOk(db, c in done, acc.details, acc.answers, c);
      CaptureStep(db, done, chunk, acc, latest, responses, scores, concatenated, answers, c);
    }
    r := Resolved(acc.details + DetailsOf(latest, scores, concatenated), answers, labels);
  }

  method ResolveQuizExportData(db: Db, captureIds: seq<int>, size: nat) returns (r: Resolved)
    requires size >= 1 && DbOk(db)
    ensures ResolvedFor(db, captureIds, r) && LabelsFor(db, captureIds, r.labels)
    ensures r.labels == CollectedLabels(db, captureIds, size)
  {
    var unique := Unique(captureIds);
    var chunks := ChunkArray(unique, size);
    r := Resolved(map[], map[], []);
    for i := 0 to |chunks|
      invariant ResolvedFor(db, Flatten(chunks[..i]), r)
      invariant r.labels == NoticeAll(ReadOver(db, chunks[..i]), [])
    {
      FlattenStep(chunks, i);
      ReadOverStep(db, chunks, i);
      r := ResolveChunk(db, Flatten(chunks[..i]), chunks[i], r, size);
    }
    assert chunks[..|chunks|] == chunks;
    assert forall c :: c in Flatten(chunks) <==> c in captureIds;
    assert forall c :: CaptureOk(db, c in Flatten(chunks), r.details, r.answers, c) ==>
           CaptureOk(db, c in captureIds, r.details, r.answers, c);
    CollectedLabelsCover(db, captureIds, size);
  }

  /** Resolving some of the captures gives what resolving all of them gives, restricted to these. */
  lemma BatchIsRestriction(db: Db, all: seq<int>, batch: seq<int>, whole: Resolved, part: Resolved)
    requires ResolvedFor(db, all, whole) && ResolvedFor(db, batch, part)
    requires forall c :: c in batch ==> c in all
    ensures part.details == map c | c in whole.details && c in batch :: whole.details[c]
    ensures part.answers == map c | c in whole.answers && c in batch :: whole.answers[c]
  {
    forall c
      ensures c in part.details <==> c in whole.details && c in batch
      ensures c in part.details ==> part.details[c] == whole.details[c]
      ensures c in part.answers <==> c in whole.answers && c in batch
      ensures c in part.answers ==> part.answers[c] == whole.answers[c]
    {
      assert CaptureOk(db, c in all, whole.details, whole.answers, c);
      assert CaptureOk(db, c in batch, part.details, part.answers, c);
    }
  }

  // ------------------------------------------------------------- resolvePersonContacts

  function Noting(contacts: seq<Contact>, base: map<int, Person>): map<int, Person> {
    if contacts == [] then base
    else
      var m, c := Noting(contacts[..|contacts| - 1], base), contacts[|contacts| - 1];
      m[c.person := Noted(if c.person in m then m[c.person] else Person(None, None), c)]
  }

  ghost predicate PersonOk(db: Db, asked: bool, m: map<int, Person>, p: int) {
    var contacts := OfPerson(db.contacts, p);
    if asked && contacts != [] then p in m && m[p] == PersonFrom(contacts) else p !in m
  }

  ghost predicate PersonsFor(db: Db, persons: seq<int>, m: map<int, Person>) {
    forall p :: PersonOk(db, p in persons, m, p)
  }

  lemma {:induction false} NotingAt(contacts: seq<Contact>, base: map<int, Person>, p: int)
    ensures var own, m := OfPerson(contacts, p), Noting(contacts, base);
            && (own == [] ==> (p in m <==> p in base) && (p in m ==> m[p] == base[p]))
            && (own != [] && p !in base ==> p in m && m[p] == PersonFrom(own))
  {
    if contacts != [] {
      var front, last := contacts[..|contacts| - 1], contacts[|contacts| - 1];
      NotingAt(front, base, p);
      if last.person == p {
        assert OfPerson(contacts, p)[..|OfPerson(front, p)|] == OfPerson(front, p);
      }
    }
  }

  method ResolvePersonContacts(db: Db, personIds: seq<int>, size: nat) returns (out: map<int, Person>)
    requires size >= 1
    ensures PersonsFor(db, personIds, out)
  {
    var unique := Unique(personIds);
    var chunks := ChunkArray(unique, size);
    out := map[];
    for i := 0 to |chunks|
      invariant PersonsFor(db, Flatten(chunks[..i]), out)
    {
      FlattenStep(chunks, i);
      ghost var done, before := Flatten(chunks[..i]), out;
      var rows := WithPersons(db.contacts, chunks[i]);
      for k := 0 to |rows|
        invariant out == Noting(rows[..k], before)
      {
        assert rows[..k + 1][..k] == rows[..k];
        var row := rows[k];
        var entry := if row.person in out then out[row.person] else Person(None, None);
        out := out[row.person := Noted(entry, row)];
      }
      assert rows[..|rows|] == rows;
      forall p ensures PersonOk(db, p in done + chunks[i], out, p) {
        assert PersonOk(db, p in done, before, p);
        ChunkOfPerson(db.contacts, chunks[i], p);
        NotingAt(rows, before, p);
      }
    }
    assert chunks[..|chunks|] == chunks;
    assert forall p :: p in Flatten(chunks) <==> p in personIds;
    assert forall p :: PersonOk(db, p in Flatten(chunks), out, p) ==> PersonOk(db, p in personIds, out, p);
  }
}
