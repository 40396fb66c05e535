/**
  Bulk insight jobs: all report jobs of a request are started, the started ones are polled
  until each is done or failed, their rows are saved by key, and the execution record is
  finalized. The record's counters are compared with a ledger that keeps one entry for
  each job.
 */
module BulkInsights {
  import opened Options

  /** A started report job. */
  datatype Job = Job(account: string, since: int, until: int, reportRun: string)

  /** A result row: the ids it may lack, and the columns it gives a value for. */
  datatype Row = Row(ad: string, date: string, platform: Option<string>, columns: map<string, string>)

  datatype Key = Key(account: string, ad: string, date: string, platform: string)

  type Table = map<Key, map<string, string>>

  /** What a poll finds for a job; with a fault, fetching or saving fails after that many rows. */
  datatype Check = Unreachable | Complete(rows: seq<Row>, fault: Option<nat>) | FailedOrSkipped | Waiting

  datatype Status = Running | Completed | Partial | Failed | Aborted

  /** The execution record, with its metadata. */
  datatype Execution = Execution(
    status: Status, totalJobs: nat, doneJobs: int, failedCount: nat, totalRecords: nat, pending: seq<Job>,
        processed: nat)

  // ------------------------------------------------------------- saving rows

  datatype Write = Write(key: Key, columns: map<string, string>)

  predicate HasIds(row: Row) {
    row.ad != "" && row.date != ""
  }

  function WriteOf(account: string, row: Row): Write {
    Write(Key(account, row.ad, row.date, row.platform.GetOr("total")), row.columns)
  }

  /** The rows with both ids, as writes. */
  function WritesOf(account: string, rows: seq<Row>): seq<Write> {
    if rows == [] then []
    else
      var last := rows[|rows| - 1];
      WritesOf(account, rows[..|rows| - 1]) + (if HasIds(last) then [WriteOf(account, last)] else [])
  }

  /** Insert the row, or overwrite the columns given for its key. */
  function Upsert(t: Table, w: Write): Table {
    t[w.key := (if w.key in t then t[w.key] else map[]) + w.columns]
  }

  function Upserts(t: Table, ws: seq<Write>): Table {
    if ws == [] then t else Upsert(Upserts(t, ws[..|ws| - 1]), ws[|ws| - 1])
  }

  /** The rows that are reached before a fault. */
  function Reached(rows: seq<Row>, fault: Option<nat>): seq<Row> {
    if fault.Some? && fault.value <= |rows| then rows[..fault.value] else rows
  }

  predicate Faulty(rows: seq<Row>, fault: Option<nat>) {
    fault.Some? && fault.value <= |rows|
  }

  /** What the columns written for a key amount to. */
  function Written(ws: seq<Write>, key: Key): map<string, string> {
    if ws == [] then map[]
    else
      var last := ws[|ws| - 1];
      Written(ws[..|ws| - 1], key) + (if last.key == key then last.columns else map[])
  }

  function Columns(t: Table, key: Key): map<string, string> {
    if key in t then t[key] else map[]
  }

  lemma UpsertColumns(t: Table, w: Write, key: Key)
    ensures Columns(Upsert(t, w), key) == Columns(t, key) + (if w.key == key then w.columns else map[])
    ensures key in Upsert(t, w) <==> key in t || w.key == key
  {
  }

  /** An upsert sequence leaves under each key the old columns overwritten by those written. */
  lemma {:induction false} UpsertsAre(t: Table, ws: seq<Write>, key: Key)
    ensures Columns(Upserts(t, ws), key) == Columns(t, key) + Written(ws, key)
    ensures key in Upserts(t, ws) <==> key in t || exists i :: 0 <= i < |ws| && ws[i].key == key
  {
    if ws != [] {
      var rest, last := ws[..|ws| - 1], ws[|ws| - 1];
      UpsertsAre(t, rest, key);
      UpsertColumns(Upserts(t, rest), last, key);
      MergedInTurn(Columns(t, key), Written(rest, key), if last.key == key then last.columns else map[]);
    }
  }

  lemma {:induction false} WrittenColumns(ws: seq<Write>, key: Key, column: string)
    ensures column in Written(ws, key) <==> exists i :: 0 <= i < |ws| && ws[i].key == key && column in ws[i].columns
  {
    if ws != [] {
      WrittenColumns(ws[..|ws| - 1], key, column);
    }
  }

  /** Writes that all come again later leave no trace of the first time. */
  lemma UpsertsAgain(t: Table, first: seq<Write>, second: seq<Write>)
    requires forall w :: w in first ==> w in second
    ensures Upserts(Upserts(t, first), second) == Upserts(t, second)
  {
    var twice, once := Upserts(Upserts(t, first), second), Upserts(t, second);
    forall key ensures (key in twice <==> key in once) && Columns(twice, key) == Columns(once, key) {
      UpsertsAre(t, first, key);
      UpsertsAre(Upserts(t, first), second, key);
      UpsertsAre(t, second, key);
      WrittenAgain(Columns(t, key), first, second, key);
      if key in Upserts(t, first) && key !in t {
        var i :| 0 <= i < |first| && first[i].key == key;
        assert first[i] in second;
      }
    }
    SameTables(twice, once);
  }

  lemma SameTables(a: Table, b: Table)
    requires forall key :: (key in a <==> key in b) && Columns(a, key) == Columns(b, key)
    ensures a == b
  {
    forall key | key in a ensures key in b && a[key] == b[key] {
      assert Columns(a, key) == Columns(b, key);
    }
    forall key | key in b ensures key in a {
      assert Columns(a, key) == Columns(b, key);
    }
  }

  lemma WrittenAgain(columns: map<string, string>, first: seq<Write>, second: seq<Write>, key: Key)
    requires forall w :: w in first ==> w in second
    ensures columns + Written(first, key) + Written(second, key) == columns + Written(second, key)
  {
    forall column | column in Written(first, key) ensures column in Written(second, key) {
      ColumnWrittenAgain(first, second, key, column);
    }
    MergedAgain(columns, Written(first, key), Written(second, key));
  }

  lemma ColumnWrittenAgain(first: seq<Write>, second: seq<Write>, key: Key, column: string)
    requires (forall w :: w in first ==> w in second) && column in Written(first, key)
    ensures column in Written(second, key)
  {
    WrittenColumns(first, key, column);
    WrittenColumns(second, key, column);
    var i :| 0 <= i < |first| && first[i].key == key && column in first[i].columns;
    assert first[i] in second;
  }

  lemma MergedAgain(a: map<string, string>, b: map<string, string>, c: map<string, string>)
    requires forall column :: column in b ==> column in c
    ensures a + b + c == a + c
  {
  }

  lemma MergedInTurn(a: map<string, string>, b: map<string, string>, c: map<string, string>)
    ensures (a + b) + c == a + (b + c)
  {
  }

  // ------------------------------------------------------------- what a poll does to the pending jobs

  type Answers = Job -> Check

  function JobWrites(job: Job, check: Check): seq<Write> {
    if check.Complete? then WritesOf(job.account, Reached(check.rows, check.fault)) else []
  }

  datatype State = Open | Done(records: nat) | Lost

  /** How a check leaves a job. A job that cannot be reached is asked again. */
  function Resolve(job: Job, check: Check): State {
    match check
    case Unreachable => Open
    case Waiting => Open
    case FailedOrSkipped => Lost
    case Complete(rows, fault) => if Faulty(rows, fault) then Lost else Done(|WritesOf(job.account, rows)|)
  }

  function StillOpen(jobs: seq<Job>, answers: Answers): seq<Job> {
    if jobs == [] then []
    else
      var rest, last := jobs[..|jobs| - 1], jobs[|jobs| - 1];
      if Resolve(last, answers(last)).Open? then StillOpen(rest, answers) + [last] else StillOpen(rest, answers)
  }

  function LostBy(jobs: seq<Job>, answers: Answers): nat {
    if jobs == [] then 0
    else
      var rest, last := jobs[..|jobs| - 1], jobs[|jobs| - 1];
      LostBy(rest, answers) + (if Resolve(last, answers(last)).Lost? then 1 else 0)
  }

  function RecordsOf(state: State): nat {
    if state.Done? then state.records else 0
  }

  function RecordsBy(jobs: seq<Job>, answers: Answers): nat {
    if jobs == [] then 0
    else
      var rest, last := jobs[..|jobs| - 1], jobs[|jobs| - 1];
      RecordsBy(rest, answers) + RecordsOf(Resolve(last, answers(last)))
  }

  function WritesBy(jobs: seq<Job>, answers: Answers): seq<Write> {
    if jobs == [] then []
    else
      var rest, last := jobs[..|jobs| - 1], jobs[|jobs| - 1];
      WritesBy(rest, answers) + JobWrites(last, answers(last))
  }

  /** finalizeExecution: the jobs that did not fail are counted as done. */
  function Finalized(e: Execution, records: nat, failed: nat, total: nat, aborted: bool): Execution {
    Execution(if aborted then Aborted else if failed == 0 then Completed else if records > 0 then Partial else Failed,
              total, total - failed, failed, records, [], records)
  }

  /** The record after a poll that could be saved. */
  function Polled(e: Execution, answers: Answers): Execution {
    var still := StillOpen(e.pending, answers);
    var failed, records := e.failedCount + LostBy(e.pending, answers), e.totalRecords + RecordsBy(e.pending, answers);
    if still == [] then Finalized(e, records, failed, e.totalJobs, false)
    else e.(doneJobs := e.doneJobs + |e.pending| - |still|, failedCount := failed, totalRecords := records,
            pending := still, processed := records)
  }

  lemma {:induction false} UpsertsInTurn(t: Table, a: seq<Write>, b: seq<Write>)
    ensures Upserts(Upserts(t, a), b) == Upserts(t, a + b)
  {
    if b == [] {
      assert a + b == a;
    } else {
      UpsertsInTurn(t, a, b[..|b| - 1]);
      assert (a + b)[..|a + b| - 1] == a + b[..|b| - 1];
    }
  }

  lemma OneMoreRow(t: Table, account: string, rows: seq<Row>, i: nat)
    requires i < |rows|
    ensures |WritesOf(account, rows[..i + 1])| == |WritesOf(account, rows[..i])| + (if HasIds(rows[i]) then 1 else 0)
    ensures Upserts(t, WritesOf(account, rows[..i + 1]))
            == if HasIds(rows[i]) then Upsert(Upserts(t, WritesOf(account, rows[..i])), WriteOf(account, rows[i]))
               else Upserts(t, WritesOf(account, rows[..i]))
  {
    assert rows[..i + 1][..i] == rows[..i];
    var ws := WritesOf(account, rows[..i]);
    assert (ws + [WriteOf(account, rows[i])])[..|ws|] == ws && ws + [] == ws;
  }

  class BulkService {
    var execution: Execution
    var performance: Table

    constructor ()
      ensures execution == Execution(Running, 0, 0, 0, 0, [], 0) && performance == map[]
    {
      execution, performance := Execution(Running, 0, 0, 0, 0, [], 0), map[];
    }

    /** Rows without an ad or a date are skipped; a fault leaves the rows before it saved. */
    method SaveInsights(account: string, rows: seq<Row>, fault: Option<nat>) returns (saved: Option<nat>)
      modifies this`performance
      ensures performance == Upserts(old(performance), WritesOf(account, Reached(rows, fault)))
      ensures saved == if Faulty(rows, fault) then None else Some(|WritesOf(account, rows)|)
    {
      var count := 0;
      for i := 0 to |rows|
        invariant fault.Some? ==> i <= fault.value
        invariant performance == Upserts(old(performance), WritesOf(account, rows[..i]))
        invariant count == |WritesOf(account, rows[..i])|
      {
        if fault == Some(i) {
          return None;
        }
        var row := rows[i];
        OneMoreRow(old(performance), account, rows, i);
        if HasIds(row) {
          performance := Upsert(performance, WriteOf(account, row));
          count := count + 1;
        }
      }
      assert rows[..|rows|] == rows;
      if fault == Some(|rows|) {
        return None;
      }
      saved := Some(count);
    }

    /** The loop over the checks of the pending jobs. */
    method CheckJobs(jobs: seq<Job>, answers: Answers) returns (still: seq<Job>, done: nat, failed: nat, records: nat)
      modifies this`performance
      ensures performance == Upserts(old(performance), WritesBy(jobs, answers))
      ensures still == StillOpen(jobs, answers) && done + |still| == |jobs|
      ensures failed == LostBy(jobs, answers) && records == RecordsBy(jobs, answers)
    {
      still, done, failed, records := [], 0, 0, 0;
      for i := 0 to |jobs|
        invariant performance == Upserts(old(performance), WritesBy(jobs[..i], answers))
        invariant still == StillOpen(jobs[..i], answers) && done + |still| == i
        invariant failed == LostBy(jobs[..i], answers) && records == RecordsBy(jobs[..i], answers)
      {
        var job := jobs[i];
        assert jobs[..i + 1][..i] == jobs[..i];
        UpsertsInTurn(old(performance), WritesBy(jobs[..i], answers), JobWrites(job, answers(job)));
        match answers(job) {
          case Unreachable =>
            still := still + [job];
          case Complete(rows, fault) =>
            var saved := SaveInsights(job.account, rows, fault);
            if saved.Some? {
              records := records + saved.value;
            } else {
              failed := failed + 1;
            }
            done := done + 1;
          case FailedOrSkipped =>
            failed := failed + 1;
            done := done + 1;
          case Waiting =>
            still := still + [job];
        }
      }
      assert jobs[..|jobs|] == jobs;
    }

    method FinalizeExecution(records: nat, failed: nat, total: nat, aborted: bool, saveOk: bool)
      modifies this`execution
      ensures execution == if saveOk then Finalized(old(execution), records, failed, total, aborted) else old(execution)
    {
      var status := Failed;
      if aborted {
        status := Aborted;
      } else if failed == 0 {
        status := Completed;
      } else if records > 0 {
        status := Partial;
      }
      if saveOk {
        execution := Execution(status, total, total - failed, failed, records, [], records);
      }
    }

    /** One tick of the poll; when the record cannot be saved the rows saved before stay. */
    method ProcessPendingJobs(answers: Answers, saveOk: bool)
      modifies this
      ensures performance == Upserts(old(performance), WritesBy(old(execution).pending, answers))
      ensures execution == if saveOk then Polled(old(execution), answers) else old(execution)
    {
      var e := execution;
      var still, done, failed, records := CheckJobs(e.pending, answers);
      failed, records := e.failedCount + failed, e.totalRecords + records;
      if still == [] {
        FinalizeExecution(records, failed, e.totalJobs, false, saveOk);
      } else if saveOk {
        execution := e.(doneJobs := e.doneJobs + done, failedCount := failed, totalRecords := records, pending := still,
                        processed := records);
      }
    }

    /** Only a running execution with pending jobs is processed. */
    method PollRunningBulkJobs(answers: Answers, saveOk: bool)
      modifies this
      ensures (execution, performance) == AfterPoll(old(execution), old(performance), Poll(answers, saveOk))
    {
      if execution.status == Running && execution.pending != [] {
        ProcessPendingJobs(answers, saveOk);
      }
    }
  }

  /** A tick: what each job answers, and whether the record can be saved. */
  datatype Poll = Poll(answers: Answers, saveOk: bool)

  function AfterPoll(e: Execution, t: Table, p: Poll): (Execution, Table) {
    if e.status == Running && e.pending != [] then
      (if p.saveOk then Polled(e, p.answers) else e, Upserts(t, WritesBy(e.pending, p.answers)))
    else (e, t)
  }

  // ------------------------------------------------------------- the ledger

  /** One entry for each job of the request, whether it could be started or not. */
  datatype Entry = Entry(job: Job, state: State)

  function OpenJobs(l: seq<Entry>): seq<Job> {
    if l == [] then []
    else
      var rest, last := OpenJobs(l[..|l| - 1]), l[|l| - 1];
      if last.state.Open? then rest + [last.job] else rest
  }

  function LostIn(l: seq<Entry>): nat {
    if l == [] then 0 else LostIn(l[..|l| - 1]) + (if l[|l| - 1].state.Lost? then 1 else 0)
  }

  function RecordsIn(l: seq<Entry>): nat {
    if l == [] then 0 else RecordsIn(l[..|l| - 1]) + RecordsOf(l[|l| - 1].state)
  }

  function Answered(entry: Entry, answers: Answers): Entry {
    if entry.state.Open? then Entry(entry.job, Resolve(entry.job, answers(entry.job))) else entry
  }

  /** Every open entry takes its job's answer. */
  function Advance(l: seq<Entry>, answers: Answers): seq<Entry> {
    if l == [] then [] else Advance(l[..|l| - 1], answers) + [Answered(l[|l| - 1], answers)]
  }

  lemma {:induction false} LedgerBounds(l: seq<Entry>)
    ensures LostIn(l) + |OpenJobs(l)| <= |l|
  {
    if l != [] { LedgerBounds(l[..|l| - 1]); }
  }

  /** What one more pending job adds to the counts of a poll. */
  lemma OneMorePending(jobs: seq<Job>, job: Job, answers: Answers)
    ensures StillOpen(jobs + [job], answers)
            == if Resolve(job, answers(job)).Open? then StillOpen(jobs, answers) + [job] else StillOpen(jobs, answers)
    ensures LostBy(jobs + [job], answers) == LostBy(jobs, answers) + (if Resolve(job, answers(job)).Lost? then 1 else 0)
    ensures RecordsBy(jobs + [job], answers) == RecordsBy(jobs, answers) + RecordsOf(Resolve(job, answers(job)))
  {
    assert (jobs + [job])[..|jobs|] == jobs;
  }

  /** What one more entry adds to the sums of a ledger. */
  lemma OneMoreEntry(l: seq<Entry>, entry: Entry)
    ensures OpenJobs(l + [entry]) == if entry.state.Open? then OpenJobs(l) + [entry.job] else OpenJobs(l)
    ensures LostIn(l + [entry]) == LostIn(l) + (if entry.state.Lost? then 1 else 0)
    ensures RecordsIn(l + [entry]) == RecordsIn(l) + RecordsOf(entry.state)
  {
    assert (l + [entry])[..|l|] == l;
  }

  /** The sums of an advanced ledger are the old sums and what a poll counts for the open jobs. */
  ghost predicate Counts(l: seq<Entry>, m: seq<Entry>, answers: Answers) {
    && |m| == |l| && OpenJobs(m) == StillOpen(OpenJobs(l), answers)
    && LostIn(m) == LostIn(l) + LostBy(OpenJobs(l), answers)
    && RecordsIn(m) == RecordsIn(l) + RecordsBy(OpenJobs(l), answers)
  }

  lemma OneMoreCounts(l: seq<Entry>, m: seq<Entry>, entry: Entry, answers: Answers)
    requires Counts(l, m, answers)
    ensures Counts(l + [entry], m + [Answered(entry, answers)], answers)
  {
    OneMoreEntry(l, entry);
    OneMoreEntry(m, Answered(entry, answers));
    OneMorePending(OpenJobs(l), entry.job, answers);
  }

  /** What advancing the ledger does to its sums is what a poll counts for the open jobs. */
  lemma {:induction false} AdvanceCounts(l: seq<Entry>, answers: Answers)
    ensures Counts(l, Advance(l, answers), answers)
  {
    if l != [] {
      var rest, last := l[..|l| - 1], l[|l| - 1];
      AdvanceCounts(rest, answers);
      OneMoreCounts(rest, Advance(rest, answers), last, answers);
      assert rest + [last] == l;
    }
  }

  /** The counters of a running record are the ledger's sums. */
  ghost predicate Mirrors(e: Execution, l: seq<Entry>) {
    && e.status == Running && e.totalJobs == |l| && e.pending == OpenJobs(l) && e.pending != []
    && e.doneJobs == |l| - |OpenJobs(l)| && e.failedCount == LostIn(l) && e.totalRecords == RecordsIn(l)
  }

  /** A record finalized by a poll: nothing is pending, and the status tells of failures. */
  ghost predicate Closes(e: Execution, l: seq<Entry>) {
    && e.totalJobs == |l| && e.pending == [] == OpenJobs(l)
    && e.doneJobs + e.failedCount == e.totalJobs && e.failedCount == LostIn(l)
        && e.totalRecords == e.processed == RecordsIn(l)
    && e.status == (if LostIn(l) == 0 then Completed else if RecordsIn(l) > 0 then Partial else Failed)
  }

  lemma MirrorBounds(e: Execution, l: seq<Entry>)
    requires Mirrors(e, l)
    ensures e.doneJobs + |e.pending| == e.totalJobs && e.failedCount <= e.doneJobs
  {
    LedgerBounds(l);
  }

  /** A saved poll advances the ledger; it closes the record when no job is left open. */
  lemma PollAdvances(e: Execution, l: seq<Entry>, answers: Answers)
    requires Mirrors(e, l)
    ensures if OpenJobs(Advance(l, answers)) == [] then Closes(Polled(e, answers), Advance(l, answers))
            else Mirrors(Polled(e, answers), Advance(l, answers))
  {
    AdvanceCounts(l, answers);
  }

  // ------------------------------------------------------------- starting the jobs

  /** The ledger of a request: a job that could not be started is lost at once. */
  function StartLedger(jobs: seq<Job>, started: seq<bool>): seq<Entry>
    requires |started| == |jobs|
  {
    if jobs == [] then []
    else
      var last := |jobs| - 1;
      StartLedger(jobs[..last], started[..last]) + [Entry(jobs[last], if started[last] then Open else Lost)]
  }

  lemma {:induction false} NothingRecorded(jobs: seq<Job>, started: seq<bool>)
    requires |started| == |jobs|
    ensures RecordsIn(StartLedger(jobs, started)) == 0 && |StartLedger(jobs, started)| == |jobs|
    ensures LostIn(StartLedger(jobs, started)) + |OpenJobs(StartLedger(jobs, started))| == |jobs|
  {
    if jobs != [] {
      var last := |jobs| - 1;
      NothingRecorded(jobs[..last], started[..last]);
      OneMoreEntry(StartLedger(jobs[..last], started[..last]), Entry(jobs[last], if started[last] then Open else Lost));
    }
  }

  /**
    The start phase: the started jobs become pending. Without any, or on request, the
    execution is finalized as aborted.
   */
  method StartJobs(service: BulkService, jobs: seq<Job>, started: seq<bool>, abort: bool)
    requires |started| == |jobs| && service.execution.status == Running
    modifies service`execution
    ensures OpenJobs(StartLedger(jobs, started)) != [] && !abort ==>
            Mirrors(service.execution, StartLedger(jobs, started))
    ensures OpenJobs(StartLedger(jobs, started)) == [] || abort ==>
              service.execution == Finalized(old(service.execution), 0, LostIn(StartLedger(jobs, started)), |jobs|,
                                             true)
  {
    var pending, failed := [], 0;
    for i := 0 to |jobs|
      invariant pending == OpenJobs(StartLedger(jobs[..i], started[..i]))
      invariant failed == LostIn(StartLedger(jobs[..i], started[..i]))
    {
      assert jobs[..i + 1][..i] == jobs[..i] && started[..i + 1][..i] == started[..i];
      OneMoreEntry(StartLedger(jobs[..i], started[..i]), Entry(jobs[i], if started[i] then Open else Lost));
      if started[i] {
        pending := pending + [jobs[i]];
      } else {
        failed := failed + 1;
      }
    }
    assert jobs[..|jobs|] == jobs && started[..|jobs|] == started;
    NothingRecorded(jobs, started);
    if pending == [] || abort {
      service.FinalizeExecution(0, failed, |jobs|, true, true);
    } else {
      service.execution := Execution(Running, |jobs|, failed, failed, 0, pending, 0);
    }
  }

  // ------------------------------------------------------------- whole runs

  function AfterPolls(e: Execution, t: Table, ps: seq<Poll>): (Execution, Table) {
    if ps == [] then (e, t)
    else
      var before := AfterPolls(e, t, ps[..|ps| - 1]);
      AfterPoll(before.0, before.1, ps[|ps| - 1])
  }

  /** The ledger advances with every saved poll until no job is open. */
  function LedgerAfter(l: seq<Entry>, ps: seq<Poll>): seq<Entry> {
    if ps == [] then l
    else
      var before, last := LedgerAfter(l, ps[..|ps| - 1]), ps[|ps| - 1];
      if last.saveOk && OpenJobs(before) != [] then Advance(before, last.answers) else before
  }

  /** After any number of polls the record mirrors the ledger or is closed by it. */
  lemma {:induction false} RunMirrors(e: Execution, t: Table, l: seq<Entry>, ps: seq<Poll>)
    requires Mirrors(e, l)
    ensures var f, m := AfterPolls(e, t, ps).0, LedgerAfter(l, ps);
            Mirrors(f, m) || Closes(f, m)
  {
    if ps != [] {
      var rest, last := ps[..|ps| - 1], ps[|ps| - 1];
      RunMirrors(e, t, l, rest);
      var f, m := AfterPolls(e, t, rest).0, LedgerAfter(l, rest);
      if Mirrors(f, m) && last.saveOk {
        PollAdvances(f, m, last.answers);
      }
    }
  }

  /** An entry changes only once, from open to what its job answered. */
  lemma {:induction false} EntriesChangeOnce(l: seq<Entry>, ps: seq<Poll>, i: nat)
    requires i < |l|
    ensures |LedgerAfter(l, ps)| == |l| && LedgerAfter(l, ps)[i].job == l[i].job
    ensures !l[i].state.Open? ==> LedgerAfter(l, ps)[i] == l[i]
    ensures l[i].state.Open? && !LedgerAfter(l, ps)[i].state.Open? ==>
              exists k :: 0 <= k < |ps| && LedgerAfter(l, ps)[i].state == Resolve(l[i].job, ps[k].answers(l[i].job))
  {
    if ps != [] {
      var rest, last := ps[..|ps| - 1], ps[|ps| - 1];
      EntriesChangeOnce(l, rest, i);
      var m := LedgerAfter(l, rest);
      AdvanceAt(m, last.answers, i);
      if l[i].state.Open? && !LedgerAfter(l, ps)[i].state.Open? {
        if m[i].state.Open? {
          assert LedgerAfter(l, ps)[i].state == Resolve(l[i].job, ps[|ps| - 1].answers(l[i].job));
        } else {
          var k :| 0 <= k < |rest| && m[i].state == Resolve(l[i].job, rest[k].answers(l[i].job));
          assert ps[k] == rest[k];
        }
      }
    }
  }

  lemma {:induction false} AdvanceAt(l: seq<Entry>, answers: Answers, i: nat)
    requires i < |l|
    ensures |Advance(l, answers)| == |l| && Advance(l, answers)[i] == Answered(l[i], answers)
  {
    AdvanceCounts(l, answers);
    AdvanceCounts(l[..|l| - 1], answers);
    if i < |l| - 1 { AdvanceAt(l[..|l| - 1], answers, i); }
  }

  // ------------------------------------------------------------- redoing a poll

  /** Every row a job saved the first time is among its rows the second time. */
  ghost predicate Steady(jobs: seq<Job>, first: Answers, second: Answers) {
    forall job :: job in jobs ==> forall w :: w in JobWrites(job, first(job)) ==> w in JobWrites(job, second(job))
  }

  lemma {:induction false} WritesOfJob(jobs: seq<Job>, answers: Answers, w: Write)
    ensures w in WritesBy(jobs, answers) <==> exists i :: 0 <= i < |jobs| && w in JobWrites(jobs[i], answers(jobs[i]))
  {
    if jobs != [] { WritesOfJob(jobs[..|jobs| - 1], answers, w); }
  }

  lemma SteadyWrites(jobs: seq<Job>, first: Answers, second: Answers)
    requires Steady(jobs, first, second)
    ensures forall w :: w in WritesBy(jobs, first) ==> w in WritesBy(jobs, second)
  {
    forall w | w in WritesBy(jobs, first) ensures w in WritesBy(jobs, second) {
      WritesOfJob(jobs, first, w);
      WritesOfJob(jobs, second, w);
      var i :| 0 <= i < |jobs| && w in JobWrites(jobs[i], first(jobs[i]));
      assert jobs[i] in jobs;
    }
  }

  /** Polls whose record could not be saved, all with results that are among those of a later poll. */
  ghost predicate Redoable(jobs: seq<Job>, ps: seq<Poll>, later: Answers) {
    forall i :: 0 <= i < |ps| ==> !ps[i].saveOk && Steady(jobs, ps[i].answers, later)
  }

  /** They leave the record alone, and the table such that the later poll writes it as if they had not been. */
  lemma {:induction false} UnsavedPolls(e: Execution, t: Table, ps: seq<Poll>, later: Answers)
    requires e.status == Running && e.pending != [] && Redoable(e.pending, ps, later)
    ensures AfterPolls(e, t, ps).0 == e
    ensures Upserts(AfterPolls(e, t, ps).1, WritesBy(e.pending, later)) == Upserts(t, WritesBy(e.pending, later))
  {
    if ps != [] {
      var n := |ps| - 1;
      UnsavedPolls(e, t, ps[..n], later);
      SteadyWrites(e.pending, ps[n].answers, later);
      UpsertsAgain(AfterPolls(e, t, ps[..n]).1, WritesBy(e.pending, ps[n].answers), WritesBy(e.pending, later));
    }
  }

  lemma OneMorePoll(e: Execution, t: Table, ps: seq<Poll>, p: Poll)
    ensures AfterPolls(e, t, ps + [p]) == AfterPoll(AfterPolls(e, t, ps).0, AfterPolls(e, t, ps).1, p)
  {
    assert (ps + [p])[..|ps|] == ps;
  }

  /**
    Polls whose record could not be saved can be redone: whatever their number, table and
    record after the next poll are as if they had not been.
   */
  lemma PollCanBeRedone(e: Execution, t: Table, ps: seq<Poll>, later: Answers)
    requires e.status == Running && e.pending != [] && Redoable(e.pending, ps, later)
    ensures AfterPolls(e, t, ps + [Poll(later, true)]) == AfterPolls(e, t, [Poll(later, true)])
  {
    UnsavedPolls(e, t, ps, later);
    OneMorePoll(e, t, ps, Poll(later, true));
    OneMorePoll(e, t, [], Poll(later, true));
    assert [] + [Poll(later, true)] == [Poll(later, true)];
  }
}
