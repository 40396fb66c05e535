/**
  The question columns of an export. The stream queries them beforehand, the in-memory
  export collects them while it reads the answers; both sort them by question key. Where a
  key has several labels the query keeps the one that comes first in label order, the
  collection the one it reads first, so the two lists may differ.
 */
module QuestionHeaders {
  import opened Options
  import opened QuizExport

  type Entry = (string, string)

  /** localeCompare as a total order: texts that compare equal are the same. */
  ghost predicate Collates(le: (string, string) -> bool) {
    && (forall a, b :: le(a, b) || le(b, a))
    && (forall a, b :: le(a, b) && le(b, a) ==> a == b)
    && (forall a, b, c :: le(a, b) && le(b, c) ==> le(a, c))
  }

  // ------------------------------------------------------------- sorting entries

  /** The text an entry is sorted by: its key or its label. */
  function SortText(e: Entry, byKey: bool): string {
    if byKey then e.0 else e.1
  }

  function Put(e: Entry, sorted: Labels, byKey: bool, le: (string, string) -> bool): Labels {
    if sorted == [] then [e]
    else if le(SortText(e, byKey), SortText(sorted[0], byKey)) then [e] + sorted
    else [sorted[0]] + Put(e, sorted[1..], byKey, le)
  }

  function SortBy(entries: Labels, byKey: bool, le: (string, string) -> bool): Labels {
    if entries == [] then [] else Put(entries[0], SortBy(entries[1..], byKey, le), byKey, le)
  }

  ghost predicate SortedBy(entries: Labels, byKey: bool, le: (string, string) -> bool) {
    forall i, j :: 0 <= i < j < |entries| ==> le(SortText(entries[i], byKey), SortText(entries[j], byKey))
  }

  ghost predicate DistinctKeys(entries: Labels) {
    forall i, j :: 0 <= i < j < |entries| ==> entries[i].0 != entries[j].0
  }

  lemma {:induction false} PutHolds(e: Entry, sorted: Labels, byKey: bool, le: (string, string) -> bool)
    ensures forall x :: x in Put(e, sorted, byKey, le) <==> x == e || x in sorted
  {
    if sorted != [] {
      PutHolds(e, sorted[1..], byKey, le);
      assert sorted == [sorted[0]] + sorted[1..];
    }
  }

  lemma SortedCons(e: Entry, rest: Labels, byKey: bool, le: (string, string) -> bool)
    requires SortedBy(rest, byKey, le)
    requires forall x :: x in rest ==> le(SortText(e, byKey), SortText(x, byKey))
    ensures SortedBy([e] + rest, byKey, le)
  {
  }

  lemma {:induction false} PutSorts(e: Entry, sorted: Labels, byKey: bool, le: (string, string) -> bool)
    requires Collates(le) && SortedBy(sorted, byKey, le)
    ensures SortedBy(Put(e, sorted, byKey, le), byKey, le)
  {
    if sorted != [] {
      var first, rest := sorted[0], sorted[1..];
      if le(SortText(e, byKey), SortText(first, byKey)) {
        forall x | x in sorted ensures le(SortText(e, byKey), SortText(x, byKey)) {
          var i :| 0 <= i < |sorted| && sorted[i] == x;
          assert i == 0 || le(SortText(first, byKey), SortText(x, byKey));
        }
        SortedCons(e, sorted, byKey, le);
      } else {
        PutSorts(e, rest, byKey, le);
        PutHolds(e, rest, byKey, le);
        forall x | x in rest ensures le(SortText(first, byKey), SortText(x, byKey)) {
          var i :| 0 <= i < |rest| && rest[i] == x;
          assert sorted[i + 1] == x;
        }
        SortedCons(first, Put(e, rest, byKey, le), byKey, le);
      }
    }
  }

  lemma DistinctCons(e: Entry, rest: Labels)
    requires DistinctKeys(rest) && forall x :: x in rest ==> x.0 != e.0
    ensures DistinctKeys([e] + rest)
  {
  }

  lemma {:induction false} PutKeepsDistinct(e: Entry, sorted: Labels, byKey: bool, le: (string, string) -> bool)
    requires DistinctKeys(sorted) && forall x :: x in sorted ==> x.0 != e.0
    ensures DistinctKeys(Put(e, sorted, byKey, le))
  {
    if sorted != [] {
      var first, rest := sorted[0], sorted[1..];
      if le(SortText(e, byKey), SortText(first, byKey)) {
        DistinctCons(e, sorted);
      } else {
        PutKeepsDistinct(e, rest, byKey, le);
        PutHolds(e, rest, byKey, le);
        assert first in sorted;
        forall x | x in rest ensures x.0 != first.0 {
          var i :| 0 <= i < |rest| && rest[i] == x;
          assert sorted[i + 1] == x;
        }
        DistinctCons(first, Put(e, rest, byKey, le));
      }
    }
  }

  lemma {:induction false} SortSorts(entries: Labels, byKey: bool, le: (string, string) -> bool)
    requires Collates(le)
    ensures SortedBy(SortBy(entries, byKey, le), byKey, le)
    ensures forall x :: x in SortBy(entries, byKey, le) <==> x in entries
  {
    if entries != [] {
      SortSorts(entries[1..], byKey, le);
      PutSorts(entries[0], SortBy(entries[1..], byKey, le), byKey, le);
      PutHolds(entries[0], SortBy(entries[1..], byKey, le), byKey, le);
      assert entries == [entries[0]] + entries[1..];
    }
  }

  lemma {:induction false} SortKeepsDistinct(entries: Labels, byKey: bool, le: (string, string) -> bool)
    requires Collates(le) && DistinctKeys(entries)
    ensures DistinctKeys(SortBy(entries, byKey, le))
  {
    if entries != [] {
      SortKeepsDistinct(entries[1..], byKey, le);
      SortSorts(entries[1..], byKey, le);
      PutKeepsDistinct(entries[0], SortBy(entries[1..], byKey, le), byKey, le);
    }
  }

  // ------------------------------------------------------------- the two header lists

  function Texts(entries: Labels): (texts: seq<string>)
    ensures |texts| == |entries| && forall i :: 0 <= i < |entries| ==> texts[i] == entries[i].1
  {
    seq(|entries|, i requires 0 <= i < |entries| => entries[i].1)
  }

  /** The header list of collected labels: sorted by key, the labels alone. */
  function HeadersOf(labels: Labels, le: (string, string) -> bool): seq<string> {
    Texts(SortBy(labels, true, le))
  }

  /** SELECT DISTINCT: the pairs of key and label among the answers to some responses. */
  function PairsOf(answers: seq<Answer>, responses: set<int>): Labels {
    if answers == [] then []
    else
      var front, a := PairsOf(answers[..|answers| - 1], responses), answers[|answers| - 1];
      if a.response in responses && (KeyOf(a), LabelOf(a)) !in front then front + [(KeyOf(a), LabelOf(a))] else front
  }

  function NoticedUpTo(rows: Labels, n: nat): Labels
    requires n <= |rows|
  {
    if n == 0 then [] else Noticed(NoticedUpTo(rows, n - 1), rows[n - 1].0, rows[n - 1].1)
  }

  /** The labels the stream collects: of each key the first in label order. */
  function QueriedLabels(db: Db, captures: seq<int>, le: (string, string) -> bool): Labels {
    var rows := SortBy(PairsOf(db.answers, LatestSet(db, captures)), false, le);
    NoticedUpTo(rows, |rows|)
  }

  method CollectExportQuestionHeaders(db: Db, captures: seq<int>, le: (string, string) -> bool)
    returns (headers: seq<string>)
    ensures headers == HeadersOf(QueriedLabels(db, captures, le), le)
  {
    var rows := SortBy(PairsOf(db.answers, LatestSet(db, captures)), false, le);
    var labels: Labels := [];
    for i := 0 to |rows|
      invariant labels == NoticedUpTo(rows, i)
    {
      if !HasKey(labels, rows[i].0) {
        labels := labels + [rows[i]];
      }
    }
    headers := Texts(SortBy(labels, true, le));
  }

  // ------------------------------------------------------------- what the stream collects

  lemma {:induction false} PairsAreShown(answers: seq<Answer>, responses: set<int>, e: Entry)
    ensures e in PairsOf(answers, responses) <==>
            exists a :: a in answers && a.response in responses && KeyOf(a) == e.0 && LabelOf(a) == e.1
  {
    if answers != [] {
      var front, last := answers[..|answers| - 1], answers[|answers| - 1];
      assert answers == front + [last];
      PairsAreShown(front, responses, e);
    }
  }

  /** Among the first n rows each key has one entry, with the label of its first row. */
  ghost predicate FirstsNoticed(rows: Labels, n: nat, labels: Labels)
    requires n <= |rows|
  {
    && DistinctKeys(labels)
    && (forall k :: 0 <= k < n ==> HasKey(labels, rows[k].0))
    && (forall i :: 0 <= i < |labels| ==> IsFirst(rows, n, labels[i]))
  }

  ghost predicate IsFirst(rows: Labels, n: nat, e: Entry)
    requires n <= |rows|
  {
    exists k :: 0 <= k < n && rows[k] == e && forall j :: 0 <= j < k ==> rows[j].0 != e.0
  }

  lemma KnownKeySkipped(rows: Labels, n: nat, labels: Labels)
    requires 1 <= n <= |rows| && FirstsNoticed(rows, n - 1, labels) && HasKey(labels, rows[n - 1].0)
    ensures FirstsNoticed(rows, n, labels)
  {
    forall i | 0 <= i < |labels| ensures IsFirst(rows, n, labels[i]) {
      assert IsFirst(rows, n - 1, labels[i]);
    }
  }

  lemma NewKeyAdded(rows: Labels, n: nat, labels: Labels)
    requires 1 <= n <= |rows| && FirstsNoticed(rows, n - 1, labels) && !HasKey(labels, rows[n - 1].0)
    ensures FirstsNoticed(rows, n, labels + [rows[n - 1]])
  {
    var more := labels + [rows[n - 1]];
    assert more[|labels|] == rows[n - 1];
    forall k | 0 <= k < n ensures HasKey(more, rows[k].0) {
      if k < n - 1 {
        var i :| 0 <= i < |labels| && labels[i].0 == rows[k].0;
        assert more[i].0 == rows[k].0;
      }
    }
    assert IsFirst(rows, n, rows[n - 1]);
    forall i | 0 <= i < |labels| ensures IsFirst(rows, n, labels[i]) {
      assert IsFirst(rows, n - 1, labels[i]);
    }
  }

  lemma {:induction false} NoticedAreFirst(rows: Labels, n: nat)
    requires n <= |rows|
    ensures FirstsNoticed(rows, n, NoticedUpTo(rows, n))
  {
    if n > 0 {
      NoticedAreFirst(rows, n - 1);
      var front := NoticedUpTo(rows, n - 1);
      if HasKey(front, rows[n - 1].0) {
        KnownKeySkipped(rows, n, front);
      } else {
        NewKeyAdded(rows, n, front);
      }
    }
  }

  /** No answer to an entry's question shows a lesser label. */
  ghost predicate LeastLabels(seen: set<Answer>, labels: Labels, le: (string, string) -> bool) {
    forall i, a :: 0 <= i < |labels| && a in seen && KeyOf(a) == labels[i].0 ==> le(labels[i].1, LabelOf(a))
  }

  lemma FirstIsLeast(rows: Labels, e: Entry, x: Entry, le: (string, string) -> bool)
    requires Collates(le) && SortedBy(rows, false, le)
    requires IsFirst(rows, |rows|, e) && x in rows && x.0 == e.0
    ensures le(e.1, x.1)
  {
    var k :| 0 <= k < |rows| && rows[k] == e && forall j :: 0 <= j < k ==> rows[j].0 != e.0;
    var j :| 0 <= j < |rows| && rows[j] == x;
    assert k <= j;
    assert k == j || le(SortText(rows[k], false), SortText(rows[j], false));
  }

  /** The queried labels cover the same answers as the collected ones, each with its least label. */
  lemma QueriedLabelsAreLeast(db: Db, captures: seq<int>, le: (string, string) -> bool)
    requires Collates(le)
    ensures LabelsFor(db, captures, QueriedLabels(db, captures, le))
    ensures LeastLabels(AnswersTo(db, LatestSet(db, captures)), QueriedLabels(db, captures, le), le)
  {
    var of := LatestSet(db, captures);
    var pairs, seen := PairsOf(db.answers, of), AnswersTo(db, of);
    var rows, labels := SortBy(pairs, false, le), QueriedLabels(db, captures, le);
    SortSorts(pairs, false, le);
    NoticedAreFirst(rows, |rows|);
    forall i | 0 <= i < |labels| ensures Shown(seen, labels[i]) {
      assert IsFirst(rows, |rows|, labels[i]);
      PairsAreShown(db.answers, of, labels[i]);
      var a :| a in db.answers && a.response in of && KeyOf(a) == labels[i].0 && LabelOf(a) == labels[i].1;
      assert a in seen;
    }
    forall a | a in seen
      ensures HasKey(labels, KeyOf(a))
      ensures forall i :: 0 <= i < |labels| && KeyOf(a) == labels[i].0 ==> le(labels[i].1, LabelOf(a))
    {
      var e := (KeyOf(a), LabelOf(a));
      PairsAreShown(db.answers, of, e);
      var k :| 0 <= k < |rows| && rows[k] == e;
      assert HasKey(labels, rows[k].0);
      forall i | 0 <= i < |labels| && KeyOf(a) == labels[i].0 ensures le(labels[i].1, LabelOf(a)) {
        FirstIsLeast(rows, labels[i], e, le);
      }
    }
  }

  // ------------------------------------------------------------- when the lists agree

  ghost predicate SameKeys(a: Labels, b: Labels) {
    forall key :: HasKey(a, key) <==> HasKey(b, key)
  }

  lemma HeadIsLeast(a: Labels, key: string, le: (string, string) -> bool)
    requires Collates(le) && SortedBy(a, true, le) && HasKey(a, key)
    ensures le(a[0].0, key)
  {
    var i :| 0 <= i < |a| && a[i].0 == key;
    assert i == 0 || le(SortText(a[0], true), SortText(a[i], true));
  }

  lemma TailKeys(a: Labels, key: string)
    requires a != [] && DistinctKeys(a)
    ensures HasKey(a[1..], key) <==> HasKey(a, key) && key != a[0].0
  {
    if HasKey(a, key) && key != a[0].0 {
      var i :| 0 <= i < |a| && a[i].0 == key;
      assert a[1..][i - 1].0 == key;
    }
    if HasKey(a[1..], key) {
      var i :| 0 <= i < |a[1..]| && a[1..][i].0 == key;
      assert a[i + 1].0 == key;
    }
  }

  /** Two lists sorted by key that hold the same keys once hold them in the same places. */
  lemma {:induction false} SortedKeysAreUnique(a: Labels, b: Labels, le: (string, string) -> bool)
    requires Collates(le) && SortedBy(a, true, le) && SortedBy(b, true, le)
    requires DistinctKeys(a) && DistinctKeys(b) && SameKeys(a, b)
    ensures |a| == |b| && forall i :: 0 <= i < |a| ==> a[i].0 == b[i].0
  {
    if a == [] {
      if b != [] { assert HasKey(b, b[0].0); }
    } else {
      assert HasKey(a, a[0].0);
      assert b != [];
      assert HasKey(b, b[0].0);
      HeadIsLeast(a, b[0].0, le);
      HeadIsLeast(b, a[0].0, le);
      forall key ensures HasKey(a[1..], key) <==> HasKey(b[1..], key) {
        TailKeys(a, key);
        TailKeys(b, key);
      }
      SortedKeysAreUnique(a[1..], b[1..], le);
      forall i | 0 <= i < |a| ensures a[i].0 == b[i].0 {
        if i > 0 { assert a[1..][i - 1].0 == b[1..][i - 1].0; }
      }
    }
  }

  lemma ReadKeys(seen: set<Answer>, labels: Labels, key: string)
    requires LabelsRead(seen, labels)
    ensures HasKey(labels, key) <==> exists a :: a in seen && KeyOf(a) == key
  {
    if HasKey(labels, key) {
      var i :| 0 <= i < |labels| && labels[i].0 == key;
      assert Shown(seen, labels[i]);
    }
  }

  lemma SortHasKeys(labels: Labels, key: string, le: (string, string) -> bool)
    requires Collates(le)
    ensures HasKey(SortBy(labels, true, le), key) <==> HasKey(labels, key)
  {
    SortSorts(labels, true, le);
    var sorted := SortBy(labels, true, le);
    if HasKey(labels, key) {
      var i :| 0 <= i < |labels| && labels[i].0 == key;
      assert labels[i] in sorted;
    }
    if HasKey(sorted, key) {
      var i :| 0 <= i < |sorted| && sorted[i].0 == key;
      assert sorted[i] in labels;
    }
  }

  /** Sorted by key, two lists read from the same answers have the same key in each place. */
  lemma KeysLineUp(seen: set<Answer>, a: Labels, b: Labels, le: (string, string) -> bool)
    requires Collates(le) && LabelsRead(seen, a) && LabelsRead(seen, b)
    ensures var s, t := SortBy(a, true, le), SortBy(b, true, le);
            |s| == |t| && forall i :: 0 <= i < |s| ==> s[i].0 == t[i].0
  {
    var s, t := SortBy(a, true, le), SortBy(b, true, le);
    SortSorts(a, true, le);
    SortSorts(b, true, le);
    SortKeepsDistinct(a, true, le);
    SortKeepsDistinct(b, true, le);
    forall key ensures HasKey(s, key) <==> HasKey(t, key) {
      SortHasKeys(a, key, le);
      SortHasKeys(b, key, le);
      ReadKeys(seen, a, key);
      ReadKeys(seen, b, key);
    }
    SortedKeysAreUnique(s, t, le);
  }

  lemma LeastLabelsAgree(seen: set<Answer>, a: Labels, b: Labels, i: nat, j: nat, le: (string, string) -> bool)
    requires Collates(le) && LabelsRead(seen, a) && LabelsRead(seen, b)
    requires LeastLabels(seen, a, le) && LeastLabels(seen, b, le)
    requires i < |a| && j < |b| && a[i].0 == b[j].0
    ensures a[i] == b[j]
  {
    assert Shown(seen, a[i]) && Shown(seen, b[j]);
    var x :| x in seen && KeyOf(x) == a[i].0 && LabelOf(x) == a[i].1;
    var y :| y in seen && KeyOf(y) == b[j].0 && LabelOf(y) == b[j].1;
    assert le(a[i].1, LabelOf(y)) && le(b[j].1, LabelOf(x));
  }

  /** Beside a list of least labels, another list heads the same columns exactly when its labels are least too. */
  lemma LeastHeadersAgree(seen: set<Answer>, collected: Labels, queried: Labels, le: (string, string) -> bool)
    requires Collates(le) && LabelsRead(seen, collected) && LabelsRead(seen, queried)
    requires LeastLabels(seen, queried, le)
    ensures HeadersOf(collected, le) == HeadersOf(queried, le) <==> LeastLabels(seen, collected, le)
  {
    var s, t := SortBy(collected, true, le), SortBy(queried, true, le);
    KeysLineUp(seen, collected, queried, le);
    SortSorts(collected, true, le);
    SortSorts(queried, true, le);
    if LeastLabels(seen, collected, le) {
      forall k | 0 <= k < |s| ensures s[k] == t[k] {
        assert s[k] in collected && t[k] in queried;
        var i :| 0 <= i < |collected| && collected[i] == s[k];
        var j :| 0 <= j < |queried| && queried[j] == t[k];
        LeastLabelsAgree(seen, collected, queried, i, j, le);
      }
      assert s == t;
    }
    if Texts(s) == Texts(t) {
      forall i, a | 0 <= i < |collected| && a in seen && KeyOf(a) == collected[i].0
        ensures le(collected[i].1, LabelOf(a))
      {
        assert collected[i] in s;
        var k :| 0 <= k < |s| && s[k] == collected[i];
        assert Texts(s)[k] == Texts(t)[k];
        assert t[k] in queried;
        var j :| 0 <= j < |queried| && queried[j] == t[k];
      }
    }
  }

  // ------------------------------------------------------------- what is read first

  /** An answer with no earlier one of its key shows a label no greater than any of that key. */
  ghost predicate FirstReadIsLeast(read: seq<Answer>, le: (string, string) -> bool) {
    forall i, j :: 0 <= i < |read| && 0 <= j < |read| && IsFirstRead(read, i) && KeyOf(read[i]) == KeyOf(read[j])
                   ==> le(LabelOf(read[i]), LabelOf(read[j]))
  }

  ghost predicate IsFirstRead(read: seq<Answer>, i: nat)
    requires i < |read|
  {
    forall j :: 0 <= j < i ==> KeyOf(read[j]) != KeyOf(read[i])
  }

  function EntryOf(a: Answer): Entry {
    (KeyOf(a), LabelOf(a))
  }

  function EntriesOf(read: seq<Answer>): (rows: Labels)
    ensures |rows| == |read| && forall i :: 0 <= i < |read| ==> rows[i] == EntryOf(read[i])
  {
    seq(|read|, i requires 0 <= i < |read| => EntryOf(read[i]))
  }

  lemma {:induction false} NoticeAllIsNoticed(read: seq<Answer>, n: nat)
    requires n <= |read|
    ensures NoticeAll(read[..n], []) == NoticedUpTo(EntriesOf(read), n)
  {
    if n > 0 {
      NoticeAllIsNoticed(read, n - 1);
      assert read[..n][..n - 1] == read[..n - 1];
    }
  }

  /** Of each key the labels keep the one read first. */
  lemma NoticeAllAreFirst(read: seq<Answer>)
    ensures FirstsNoticed(EntriesOf(read), |read|, NoticeAll(read, []))
  {
    NoticeAllIsNoticed(read, |read|);
    assert read[..|read|] == read;
    NoticedAreFirst(EntriesOf(read), |read|);
  }

  /** A key's first answer gives its label. */
  lemma FirstReadLabel(read: seq<Answer>, i: nat, labels: Labels) returns (k: nat)
    requires i < |read| && IsFirstRead(read, i) && FirstsNoticed(EntriesOf(read), |read|, labels)
    ensures k < |labels| && labels[k] == EntryOf(read[i])
  {
    var rows := EntriesOf(read);
    assert HasKey(labels, rows[i].0);
    k :| 0 <= k < |labels| && labels[k].0 == rows[i].0;
    assert IsFirst(rows, |rows|, labels[k]);
    var x :| 0 <= x < |rows| && rows[x] == labels[k] && forall j :: 0 <= j < x ==> rows[j].0 != labels[k].0;
    assert x == i;
  }

  lemma LabelFirstRead(read: seq<Answer>, k: nat, labels: Labels) returns (i: nat)
    requires k < |labels| && FirstsNoticed(EntriesOf(read), |read|, labels)
    ensures i < |read| && IsFirstRead(read, i) && labels[k] == EntryOf(read[i])
  {
    var rows := EntriesOf(read);
    assert IsFirst(rows, |rows|, labels[k]);
    i :| 0 <= i < |rows| && rows[i] == labels[k] && forall j :: 0 <= j < i ==> rows[j].0 != labels[k].0;
    forall j | 0 <= j < i ensures KeyOf(read[j]) != KeyOf(read[i]) {
      assert rows[j].0 != rows[i].0;
    }
  }

  /** The labels read first are least exactly when the first answer to each key shows its least label. */
  lemma CollectedAreLeast(seen: set<Answer>, read: seq<Answer>, le: (string, string) -> bool)
    requires forall a :: a in read <==> a in seen
    ensures LeastLabels(seen, NoticeAll(read, []), le) <==> FirstReadIsLeast(read, le)
  {
    var labels := NoticeAll(read, []);
    NoticeAllAreFirst(read);
    if LeastLabels(seen, labels, le) {
      forall i, j | 0 <= i < |read| && 0 <= j < |read| && IsFirstRead(read, i) && KeyOf(read[i]) == KeyOf(read[j])
        ensures le(LabelOf(read[i]), LabelOf(read[j]))
      {
        var k := FirstReadLabel(read, i, labels);
        assert read[j] in seen && KeyOf(read[j]) == labels[k].0;
      }
    }
    if FirstReadIsLeast(read, le) {
      forall k, a | 0 <= k < |labels| && a in seen && KeyOf(a) == labels[k].0 ensures le(labels[k].1, LabelOf(a)) {
        var i := LabelFirstRead(read, k, labels);
        assert a in read;
        var j :| 0 <= j < |read| && read[j] == a;
      }
    }
  }

  /**
    The two exports list the same question columns exactly when, in the order in which the
    answers are read, the first answer to each key shows the least of that key's labels.
   */
  lemma HeadersAgreeExactly(db: Db, captures: seq<int>, size: nat, le: (string, string) -> bool)
    requires size >= 1 && Collates(le)
    ensures HeadersOf(CollectedLabels(db, captures, size), le) == HeadersOf(QueriedLabels(db, captures, le), le)
            <==> FirstReadIsLeast(ReadFor(db, captures, size), le)
  {
    var seen := AnswersTo(db, LatestSet(db, captures));
    CollectedLabelsCover(db, captures, size);
    QueriedLabelsAreLeast(db, captures, le);
    LeastHeadersAgree(seen, CollectedLabels(db, captures, size), QueriedLabels(db, captures, le), le);
    ReadForAre(db, captures, size);
    CollectedAreLeast(seen, ReadFor(db, captures, size), le);
  }

  /** When no key is shown under two labels, the columns agree for every chunk size. */
  lemma OneLabelEach(db: Db, captures: seq<int>, size: nat, le: (string, string) -> bool)
    requires size >= 1 && Collates(le)
    requires var seen := AnswersTo(db, LatestSet(db, captures));
             forall a, b :: a in seen && b in seen && KeyOf(a) == KeyOf(b) ==> LabelOf(a) == LabelOf(b)
    ensures HeadersOf(CollectedLabels(db, captures, size), le) == HeadersOf(QueriedLabels(db, captures, le), le)
  {
    var read := ReadFor(db, captures, size);
    ReadForAre(db, captures, size);
    forall i, j | 0 <= i < |read| && 0 <= j < |read| && IsFirstRead(read, i) && KeyOf(read[i]) == KeyOf(read[j])
      ensures le(LabelOf(read[i]), LabelOf(read[j]))
    {
      assert read[i] in read && read[j] in read;
    }
    HeadersAgreeExactly(db, captures, size, le);
  }

  // ------------------------------------------------------------- a table on which they differ

  function Shows(key: string, text: string): Answer {
    Answer(1, Some(key), Some(text), None, Some("x"), None, None)
  }

  /** One capture whose response answers one question key under two labels, the greater first. */
  function TwoLabels(): Db {
    Db([Response(1, Some(7), None, 0)], [], [Shows("q", "B"), Shows("q", "A")], [])
  }

  lemma TwoLabelsRead(size: nat)
    requires size >= 1
    ensures ReadFor(TwoLabels(), [7], size) == TwoLabels().answers
  {
    var db := TwoLabels();
    assert [7][..0] == [];
    assert Unique([7]) == [7];
    assert [[7]][..0] == [];
    assert LatestSet(db, [7]) == {1} by {
      assert LatestResponse(db.responses, 7) == Some(1);
    }
    assert db.answers[..1] == [Shows("q", "B")] && db.answers[..1][..0] == [];
    assert AnswersOf(db.answers, {1}) == db.answers;
    assert [] + db.answers == db.answers;
  }

  lemma TwoLabelsSorted(le: (string, string) -> bool)
    requires Collates(le) && le("A", "B")
    ensures SortBy([("q", "B"), ("q", "A")], false, le) == [("q", "A"), ("q", "B")]
  {
    assert !le("B", "A");
    var rows: Labels := [("q", "B"), ("q", "A")];
    assert rows[1..] == [("q", "A")] && rows[1..][1..] == [];
    assert SortBy(rows[1..], false, le) == [("q", "A")];
    assert [("q", "A")][1..] == [];
    assert Put(("q", "B"), [], false, le) == [("q", "B")];
  }

  lemma TwoLabelsNoticed(rows: Labels)
    requires |rows| == 2 && rows[0].0 == rows[1].0
    ensures NoticedUpTo(rows, 2) == rows[..1]
  {
    assert NoticedUpTo(rows, 1) == [(rows[0].0, rows[0].1)];
    assert NoticedUpTo(rows, 1)[0].0 == rows[0].0;
  }

  lemma TwoLabelsQueried(le: (string, string) -> bool)
    requires Collates(le) && le("A", "B")
    ensures QueriedLabels(TwoLabels(), [7], le) == [("q", "A")]
  {
    var db := TwoLabels();
    assert LatestSet(db, [7]) == {1} by {
      assert LatestResponse(db.responses, 7) == Some(1);
    }
    assert db.answers[..1] == [Shows("q", "B")] && db.answers[..1][..0] == [];
    assert PairsOf(db.answers, {1}) == [("q", "B"), ("q", "A")];
    TwoLabelsSorted(le);
    TwoLabelsNoticed([("q", "A"), ("q", "B")]);
  }

  lemma TwoLabelsCollected(size: nat)
    requires size >= 1
    ensures CollectedLabels(TwoLabels(), [7], size) == [("q", "B")]
  {
    var read := ReadFor(TwoLabels(), [7], size);
    TwoLabelsRead(size);
    NoticeAllIsNoticed(read, 2);
    assert read[..2] == read;
    TwoLabelsNoticed(EntriesOf(read));
  }

  lemma OneHeader(e: Entry, le: (string, string) -> bool)
    ensures HeadersOf([e], le) == [e.1]
  {
    assert [e][1..] == [];
    assert SortBy([e], true, le) == [e];
  }

  /** The headers of the two exports differ on this table, whatever the chunk size. */
  lemma HeadersCanDiffer(size: nat, le: (string, string) -> bool)
    requires size >= 1 && Collates(le) && le("A", "B")
    ensures HeadersOf(CollectedLabels(TwoLabels(), [7], size), le) == ["B"]
    ensures HeadersOf(QueriedLabels(TwoLabels(), [7], le), le) == ["A"]
  {
    TwoLabelsCollected(size);
    OneHeader(("q", "B"), le);
    TwoLabelsQueried(le);
    OneHeader(("q", "A"), le);
  }
}
