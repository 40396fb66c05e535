/**
  One row of capture_export_job: what each UPDATE statement of the export protocol
  does to it, and the objects that issue them.

  Times are milliseconds on one clock. `issued` is the Date a process puts into a
  statement, `now` the instant the database executes it.
 */
module ExportJob {
  import opened Options
  import opened Keyset

  type JobId = nat
  type Token = nat

  const LEASE_MS := 300_000
  const PENDING_MS := 60_000
  const MAX_ATTEMPTS := 3

  datatype Status = Pending | Processing | Completed | Failed

  datatype Phase = Queued | Counting | Preparing | Exporting | Finalizing | Uploading | Done | Broken

  /** What writeFile reports about the file it stored. */
  datatype StoredFile = StoredFile(inBlob: bool, path: string, contentType: string, size: nat, expiresAt: int)

  /** capture-export-<job>-<token>.<format> */
  datatype FileName = FileName(job: JobId, token: Token)

  datatype FileFields = FileFields(name: FileName, stored: StoredFile)

  datatype JobRow = JobRow(
    status: Status, phase: Phase, leaseToken: Option<Token>,
    heartbeatAt: Option<int>, startedAt: Option<int>, createdAt: int, completedAt: Option<int>,
    attemptCount: nat, totalItems: Option<nat>, processedItems: nat,
    file: Option<FileFields>, error: Option<string>)

  /** The values an attempt writes while it owns the row; heartbeat_at comes on top. */
  datatype Patch =
    | Beat
    | Counted(total: nat)
    | Enter(phase: Phase)
    | Progress(processed: nat)
    | Complete(file: FileFields, at: int)

  /** What the recovery loop read about a job before it acts. */
  datatype Snapshot = Snapshot(job: JobId, status: Status, attempts: nat)

  datatype ExportError = LeaseLost | Interrupted

  function NewRow(now: int): JobRow {
    JobRow(Pending, Queued, None, None, None, now, None, 0, None, 0, None, None)
  }

  /** COALESCE(heartbeat_at, started_at, created_at). */
  function LastSign(row: JobRow): int {
    row.heartbeatAt.GetOr(row.startedAt.GetOr(row.createdAt))
  }

  predicate Stale(row: JobRow, now: int) {
    LastSign(row) < now - LEASE_MS
  }

  predicate Claimable(row: JobRow, now: int) {
    && (row.status == Pending || (row.status == Processing && Stale(row, now)))
    && row.attemptCount < MAX_ATTEMPTS
  }

  function Claimed(row: JobRow, token: Token, issued: int): JobRow {
    row.(status := Processing, phase := Counting, leaseToken := Some(token),
         heartbeatAt := Some(issued), attemptCount := row.attemptCount + 1, processedItems := 0,
         completedAt := None, startedAt := Some(issued), error := None)
  }

  predicate Owns(row: JobRow, token: Token) {
    row.leaseToken == Some(token) && row.status == Processing
  }

  function PhaseOf(patch: Patch, current: Phase): Phase {
    match patch
    case Beat => current
    case Counted(_) => Preparing
    case Enter(phase) => phase
    case Progress(_) => Exporting
    case Complete(_, _) => Done
  }

  function Patched(row: JobRow, patch: Patch, issued: int): JobRow {
    var beaten := row.(heartbeatAt := Some(issued), phase := PhaseOf(patch, row.phase));
    match patch
    case Beat => beaten
    case Counted(total) => beaten.(totalItems := Some(total))
    case Enter(_) => beaten
    case Progress(processed) => beaten.(processedItems := processed)
    case Complete(file, at) => beaten.(status := Completed, completedAt := Some(at), file := Some(file))
  }

  function FailedWith(row: JobRow, message: string, issued: int): JobRow {
    row.(status := Failed, phase := Broken, error := Some(message), completedAt := Some(issued))
  }

  const ABANDONED := "Worker interrompido repetidamente. Solicite uma nova exportacao."

  /** The WHERE clause of the recovery's own UPDATE. */
  predicate Abandoned(row: JobRow, seen: Status, now: int) {
    row.status == seen && Stale(row, now)
  }

  /** The rows the recovery loop looks at. */
  predicate NeedsRecovery(row: JobRow, now: int) {
    || (row.status == Pending && row.createdAt < now - PENDING_MS)
    || (row.status == Processing && Stale(row, now))
  }

  /** What recovery does to the table for one snapshot. */
  function RecoverOne(rows: map<JobId, JobRow>, job: Snapshot, issued: int, now: int): map<JobId, JobRow> {
    if job.attempts >= MAX_ATTEMPTS && job.job in rows && Abandoned(rows[job.job], job.status, now)
    then rows[job.job := FailedWith(rows[job.job], ABANDONED, issued)]
    else rows
  }

  function RecoverAll(rows: map<JobId, JobRow>, jobs: seq<Snapshot>, issued: int, now: int): map<JobId, JobRow> {
    if jobs == [] then rows
    else RecoverOne(RecoverAll(rows, jobs[..|jobs| - 1], issued, now), jobs[|jobs| - 1], issued, now)
  }

  /** The jobs recovery sends to the queue again. */
  function Republished(jobs: seq<Snapshot>): seq<JobId> {
    if jobs == [] then []
    else
      var rest := Republished(jobs[..|jobs| - 1]);
      if jobs[|jobs| - 1].attempts >= MAX_ATTEMPTS then rest else rest + [jobs[|jobs| - 1].job]
  }

  const RECOVERY_LIMIT := 10

  predicate Picked(jobs: seq<Snapshot>, id: JobId) {
    exists k :: 0 <= k < |jobs| && jobs[k].job == id
  }

  /** Distinct jobs that need recovery, as they stand in the table, in the order they were created. */
  ghost predicate OldestFirst(rows: map<JobId, JobRow>, now: int, jobs: seq<Snapshot>) {
    && (forall k :: 0 <= k < |jobs| ==>
          && jobs[k].job in rows && NeedsRecovery(rows[jobs[k].job], now)
          && jobs[k] == Snapshot(jobs[k].job, rows[jobs[k].job].status, rows[jobs[k].job].attemptCount))
    && (forall j, k :: 0 <= j < k < |jobs| ==>
          jobs[j].job != jobs[k].job && rows[jobs[j].job].createdAt <= rows[jobs[k].job].createdAt)
  }

  /** No row that was left is older than one that was picked. */
  ghost predicate NoneOlder(rows: map<JobId, JobRow>, jobs: seq<Snapshot>, left: set<JobId>) {
    forall k, id :: 0 <= k < |jobs| && id in left && id in rows && jobs[k].job in rows ==>
      rows[jobs[k].job].createdAt <= rows[id].createdAt
  }

  /** What the recovery query returns: the ten oldest jobs that need recovery, or all if there are fewer. */
  ghost predicate IsRecoveryBatch(rows: map<JobId, JobRow>, now: int, jobs: seq<Snapshot>) {
    var left := set id | id in rows && NeedsRecovery(rows[id], now) && !Picked(jobs, id);
    |jobs| <= RECOVERY_LIMIT && (|jobs| < RECOVERY_LIMIT ==> left == {})
    && OldestFirst(rows, now, jobs) && NoneOlder(rows, jobs, left)
  }

  lemma OneMoreRecovered(rows: map<JobId, JobRow>, now: int, jobs: seq<Snapshot>, left: set<JobId>, id: JobId)
    requires OldestFirst(rows, now, jobs) && NoneOlder(rows, jobs, left)
    requires id in left && id in rows && NeedsRecovery(rows[id], now) && !Picked(jobs, id)
    requires forall other :: other in left ==> other in rows && rows[id].createdAt <= rows[other].createdAt
    ensures var more := jobs + [Snapshot(id, rows[id].status, rows[id].attemptCount)];
            && OldestFirst(rows, now, more) && NoneOlder(rows, more, left - {id})
            && forall x :: Picked(more, x) <==> Picked(jobs, x) || x == id
  {
    var more := jobs + [Snapshot(id, rows[id].status, rows[id].attemptCount)];
    forall x ensures Picked(more, x) <==> Picked(jobs, x) || x == id {
      if Picked(jobs, x) {
        var k :| 0 <= k < |jobs| && jobs[k].job == x;
        assert more[k].job == x;
      }
      assert more[|jobs|].job == id;
    }
  }

  /** Both tables hold the same jobs and differ at most in one. */
  ghost predicate OthersKept(before: map<JobId, JobRow>, after: map<JobId, JobRow>, job: JobId) {
    before.Keys == after.Keys && forall id :: id in before && id != job ==> after[id] == before[id]
  }

  /** The table; each method is one statement, executed atomically. */
  class JobTable {
    var rows: map<JobId, JobRow>

    constructor ()
      ensures rows == map[]
    {
      rows := map[];
    }

    method Claim(job: JobId, token: Token, issued: int, now: int) returns (affected: bool)
      modifies this
      ensures affected <==> job in old(rows) && Claimable(old(rows)[job], now)
      ensures rows == if affected then old(rows)[job := Claimed(old(rows)[job], token, issued)] else old(rows)
    {
      affected := job in rows && Claimable(rows[job], now);
      if affected {
        rows := rows[job := Claimed(rows[job], token, issued)];
      }
    }

    method UpdateWhereOwned(job: JobId, token: Token, patch: Patch, issued: int) returns (affected: bool)
      modifies this
      ensures affected <==> job in old(rows) && Owns(old(rows)[job], token)
      ensures rows == if affected then old(rows)[job := Patched(old(rows)[job], patch, issued)] else old(rows)
    {
      affected := job in rows && Owns(rows[job], token);
      if affected {
        rows := rows[job := Patched(rows[job], patch, issued)];
      }
    }

    method FailWhereOwned(job: JobId, token: Token, message: string, issued: int)
      modifies this
      ensures rows == if job in old(rows) && Owns(old(rows)[job], token)
                      then old(rows)[job := FailedWith(old(rows)[job], message, issued)] else old(rows)
    {
      if job in rows && Owns(rows[job], token) {
        rows := rows[job := FailedWith(rows[job], message, issued)];
      }
    }

    /** An id of the set whose row was created first. */
    method Oldest(ids: set<JobId>) returns (id: JobId)
      requires ids != {} && ids <= rows.Keys
      ensures id in ids && forall other :: other in ids ==> rows[id].createdAt <= rows[other].createdAt
    {
      id :| id in ids;
      var left := ids - {id};
      while left != {}
        invariant left <= ids && id in ids
        invariant forall other :: other in ids && other !in left ==> rows[id].createdAt <= rows[other].createdAt
        decreases |left|
      {
        var other :| other in left;
        left := left - {other};
        if rows[other].createdAt < rows[id].createdAt {
          id := other;
        }
      }
    }

    /** The query of the recovery: at most ten of the jobs that need it, oldest first. */
    method ReadRecoverable(now: int) returns (jobs: seq<Snapshot>)
      ensures IsRecoveryBatch(rows, now, jobs)
    {
      var left := set id | id in rows && NeedsRecovery(rows[id], now);
      jobs := [];
      while |jobs| < RECOVERY_LIMIT && left != {}
        invariant |jobs| <= RECOVERY_LIMIT
        invariant forall id :: id in left ==> id in rows && NeedsRecovery(rows[id], now) && !Picked(jobs, id)
        invariant forall id :: id in rows && NeedsRecovery(rows[id], now) && id !in left ==> Picked(jobs, id)
        invariant OldestFirst(rows, now, jobs) && NoneOlder(rows, jobs, left)
        decreases |left|
      {
        var id := Oldest(left);
        var job := Snapshot(id, rows[id].status, rows[id].attemptCount);
        OneMoreRecovered(rows, now, jobs, left, id);
        jobs, left := jobs + [job], left - {id};
      }
    }

    /** The recovery loop over the jobs it read some time before. */
    method RecoverExportJobs(jobs: seq<Snapshot>, issued: int, now: int) returns (published: seq<JobId>)
      modifies this
      ensures rows == RecoverAll(old(rows), jobs, issued, now)
      ensures published == Republished(jobs)
    {
      published := [];
      for i := 0 to |jobs|
        invariant rows == RecoverAll(old(rows), jobs[..i], issued, now)
        invariant published == Republished(jobs[..i])
      {
        var job := jobs[i];
        assert jobs[..i + 1][..i] == jobs[..i];
        if job.attempts >= MAX_ATTEMPTS {
          if job.job in rows && Abandoned(rows[job.job], job.status, now) {
            rows := rows[job.job := FailedWith(rows[job.job], ABANDONED, issued)];
          }
        } else {
          published := published + [job.job];
        }
      }
      assert jobs[..|jobs|] == jobs;
    }
  }

  /** One run of processExportJob: its token and its closure variables. */
  class Attempt {
    const job: JobId
    const token: Token
    const table: JobTable
    var leaseLost: bool
    var heartbeatBusy: bool
    var currentPhase: Phase

    constructor (job: JobId, token: Token, table: JobTable)
      ensures this.job == job && this.token == token && this.table == table
      ensures !leaseLost && !heartbeatBusy && currentPhase == Counting
    {
      this.job, this.token, this.table := job, token, table;
      leaseLost, heartbeatBusy, currentPhase := false, false, Counting;
    }

    /** Once the lease is lost nothing is sent any more; losing it is noticed by the first statement without effect. */
    method UpdateOwned(patch: Patch, issued: int) returns (r: Result<(), ExportError>)
      modifies this, table
      ensures heartbeatBusy == old(heartbeatBusy)
      ensures r.Ok? <==> !old(leaseLost) && job in old(table.rows) && Owns(old(table.rows)[job], token)
      ensures r.Ok? ==> table.rows == old(table.rows)[job := Patched(old(table.rows)[job], patch, issued)]
      ensures r.Ok? ==> !leaseLost && currentPhase == PhaseOf(patch, old(currentPhase))
      ensures r.Err? ==> leaseLost && table.rows == old(table.rows) && currentPhase == old(currentPhase)
      ensures r.Err? ==> r.error == if old(leaseLost) then Interrupted else LeaseLost
    {
      if leaseLost {
        return Err(Interrupted);
      }
      var affected := table.UpdateWhereOwned(job, token, patch, issued);
      if !affected {
        leaseLost := true;
        return Err(LeaseLost);
      }
      if PhaseOf(patch, currentPhase) != currentPhase {
        currentPhase := PhaseOf(patch, currentPhase);
      }
      r := Ok(());
    }

    /** One tick of the heartbeat timer; `lost` tells that the statement itself broke. */
    method Heartbeat(issued: int, lost: bool)
      modifies this, table
      ensures heartbeatBusy == old(heartbeatBusy)
      ensures currentPhase == old(currentPhase)
      ensures var sent := !old(heartbeatBusy) && !old(leaseLost) && !lost;
              var owned := job in old(table.rows) && Owns(old(table.rows)[job], token);
              && table.rows == (if sent && owned
                                then old(table.rows)[job := Patched(old(table.rows)[job], Beat, issued)]
                                else old(table.rows))
              && leaseLost == (old(leaseLost) || (!old(heartbeatBusy) && (lost || !owned)))
    {
      if heartbeatBusy {
        return;
      }
      heartbeatBusy := true;
      if lost {
        leaseLost := true;
      } else {
        var r := UpdateOwned(Beat, issued);
        if r.Err? {
          leaseLost := true;
        }
      }
      heartbeatBusy := false;
    }

    /** One owned update that must go through: the row is ours and nobody else is at work. */
    method MustUpdate(patch: Patch, issued: int)
      requires !leaseLost && job in table.rows && Owns(table.rows[job], token)
      modifies this, table
      ensures table.rows == old(table.rows)[job := Patched(old(table.rows)[job], patch, issued)]
      ensures !leaseLost
    {
      var r := UpdateOwned(patch, issued);
      assert r.Ok?;
    }

    /** The batch loop with its progress reports. */
    method ExportBatches(captures: seq<Capture>, matches: Capture -> bool, batch: nat, issued: int)
      requires batch >= 1 && DistinctIds(captures)
      requires !leaseLost && job in table.rows && Owns(table.rows[job], token) && table.rows[job].processedItems == 0
      modifies this, table
      ensures !leaseLost && OthersKept(old(table.rows), table.rows, job)
      ensures table.rows[job] == old(table.rows[job]).(
                processedItems := |Listing(Desc, captures, matches)|,
                phase := table.rows[job].phase, heartbeatAt := table.rows[job].heartbeatAt)
    {
      ghost var n := |Listing(Desc, captures, matches)|;
      var cursor: Option<Key> := None;
      var processed := 0;
      var more := true;
      while more
        invariant processed <= n && Start(Desc, cursor, Listing(Desc, captures, matches)) == processed
        invariant !more ==> processed == n
        invariant !leaseLost && OthersKept(old(table.rows), table.rows, job)
        invariant table.rows[job] == old(table.rows[job]).(
                    processedItems := processed, phase := table.rows[job].phase,
                    heartbeatAt := table.rows[job].heartbeatAt)
        decreases n - processed, more
      {
        BatchStep(captures, matches, cursor, batch, processed);
        var rows := Query(Desc, captures, matches, cursor, batch);
        if rows == [] {
          break;
        }
        processed := processed + |rows|;
        MustUpdate(Progress(processed), issued);
        cursor := Some(rows[|rows| - 1].key);
        more := |rows| == batch;
      }
    }

    /**
      processExportJob when nothing else touches the row meanwhile; `stored` is what
      writeFile returns, None when it throws.
     */
    method ProcessExportJob(captures: seq<Capture>, matches: Capture -> bool, batch: nat, stored: Option<StoredFile>,
                            now: int)
      requires batch >= 1 && DistinctIds(captures)
      requires !leaseLost
      modifies this, table
      ensures !(job in old(table.rows) && Claimable(old(table.rows)[job], now)) ==> table.rows == old(table.rows)
      ensures job in old(table.rows) && Claimable(old(table.rows)[job], now) ==>
                && OthersKept(old(table.rows), table.rows, job)
                && var row, was, n := table.rows[job], old(table.rows)[job], |Listing(Desc, captures, matches)|;
                && row.attemptCount == was.attemptCount + 1 && row.leaseToken == Some(token)
                && row.totalItems == Some(n) && row.processedItems == n
                && (match stored
                    case Some(file) => row.status == Completed
                        && row.file == Some(FileFields(FileName(job, token), file)) && row.error == None
                    case None => row.status == Failed && row.file == was.file)
    {
      var affected := table.Claim(job, token, now, now);
      if !affected {
        return;
      }
      var total := |Listing(Desc, captures, matches)|;
      MustUpdate(Counted(total), now);
      MustUpdate(Enter(Exporting), now);
      ExportBatches(captures, matches, batch, now);
      MustUpdate(Enter(Finalizing), now);
      match stored
      case Some(file) =>
        if file.inBlob {
          MustUpdate(Enter(Uploading), now);
        }
        MustUpdate(Complete(FileFields(FileName(job, token), file), now), now);
      case None =>
        table.FailWhereOwned(job, token, "stream", now);
    }
  }

  // ----------------------------------------------------------- recovery

  /**
    Recovery fails a job only when the snapshot had used every attempt and the row is stale
    now; every other row stays.
   */
  lemma {:induction false} RecoveryOnlyFailsAbandoned(rows: map<JobId, JobRow>, jobs: seq<Snapshot>, issued: int,
                                                      now: int, id: JobId)
    requires id in rows
    ensures var after := RecoverAll(rows, jobs, issued, now);
            && id in after
            && (after[id] != rows[id] ==>
                  && after[id] == FailedWith(rows[id], ABANDONED, issued)
                  && Stale(rows[id], now)
                  && exists k :: 0 <= k < |jobs| && jobs[k].job == id && jobs[k].attempts >= MAX_ATTEMPTS)
  {
    if jobs != [] {
      var front, last := jobs[..|jobs| - 1], jobs[|jobs| - 1];
      RecoveryOnlyFailsAbandoned(rows, front, issued, now, id);
      var before := RecoverAll(rows, front, issued, now);
      if before[id] != rows[id] {
        var k :| 0 <= k < |front| && front[k].job == id && front[k].attempts >= MAX_ATTEMPTS;
        assert jobs[k] == front[k];
      }
      assert last == jobs[|jobs| - 1];
    }
  }

  /** A job is either sent to the queue again or has used every attempt, never both. */
  lemma {:induction false} RepublishedExactlyTheRest(jobs: seq<Snapshot>)
    ensures forall id :: id in Republished(jobs) <==> exists k ::
              && 0 <= k < |jobs| && jobs[k].job == id
              && jobs[k].attempts < MAX_ATTEMPTS
  {
    if jobs != [] {
      var front, last := jobs[..|jobs| - 1], jobs[|jobs| - 1];
      RepublishedExactlyTheRest(front);
      forall id
        ensures id in Republished(jobs) <==> exists k ::
                  && 0 <= k < |jobs| && jobs[k].job == id
                  && jobs[k].attempts < MAX_ATTEMPTS
      {
        if id in Republished(front) {
          var k :| 0 <= k < |front| && front[k].job == id && front[k].attempts < MAX_ATTEMPTS;
          assert jobs[k] == front[k];
        }
        if k :| 0 <= k < |jobs| && jobs[k].job == id && jobs[k].attempts < MAX_ATTEMPTS && k < |front| {
          assert front[k] == jobs[k];
        }
      }
    }
  }
}
