/**
  The export-job protocol: workers, their heartbeats and the recovery loop act on one job
  row in any order. A statement is sent, and later executed or lost, as its reply may be.
 */
module ExportProtocol {
  import opened Options
  import opened Keyset
  import opened ExportJob

  /** What stays fixed during a run: the job's id, its frozen filter and the batch size. */
  datatype Job = Job(id: JobId, matches: Capture -> bool, batch: nat)

  /** A statement the main line of a worker has sent. */
  datatype Statement =
    | ClaimRow(issued: int)
    | Update(patch: Patch, issued: int)
    | Fail(message: string, issued: int)

  /** Where the main line of processExportJob stands: the statement it will send, or has sent and awaits. */
  datatype Place =
    | Claiming
    | CountingRows
    | Opening
    | Streaming
    | Reporting(next: nat, cursor: Option<Key>, more: bool)
    | Closing
    | Storing(uploading: bool)
    | Announcing
    | Completing
    | Failing(message: string)
    | Finished

  datatype Worker = Worker(
    place: Place, sent: Option<Statement>, beat: Option<int>, timer: bool, leaseLost: bool,
    total: nat, processed: nat, cursor: Option<Key>, stored: Option<StoredFile>)

  /** The whole system; `claims` lists the tokens of the successful claims in order. */
  datatype System = System(
    now: int, captures: seq<Capture>, row: JobRow, workers: map<Token, Worker>,
    claims: seq<Token>, snapshots: set<Snapshot>)

  datatype Action =
    | Tick(to: int)
    | Insert(capture: Capture)
    | Deliver(token: Token)
    | Send(token: Token)
    | Execute(token: Token, replied: bool)
    | Lose(token: Token)
    | Fetch(token: Token)
    | Upload(token: Token)
    | Store(token: Token, file: StoredFile)
    | Throw(token: Token, message: string)
    | SendBeat(token: Token)
    | ExecuteBeat(token: Token, replied: bool)
    | LoseBeat(token: Token)
    | Read
    | Recover(snapshot: Snapshot, issued: int)

  const NEW_WORKER := Worker(Claiming, None, None, false, false, 0, 0, None, None)

  function Total(job: Job, s: System): nat {
    |Listing(Desc, s.captures, job.matches)|
  }

  /** The main line between claim and completion. */
  predicate Working(place: Place) {
    !place.Claiming? && !place.Failing? && !place.Finished?
  }

  /** Places at which the main line awaits nothing but an owned update. */
  predicate Updates(place: Place) {
    place.CountingRows? || place.Opening? || place.Reporting? || place.Closing? || place.Announcing?
        || place.Completing?
  }

  /** The values updateOwned is called with at a place. */
  function PatchAt(job: Job, token: Token, w: Worker, total: nat, now: int): Patch
    requires Updates(w.place)
    requires w.place.Completing? ==> w.stored.Some?
  {
    match w.place
    case CountingRows => Counted(total)
    case Opening => Enter(Exporting)
    case Reporting(next, _, _) => Progress(next)
    case Closing => Enter(Finalizing)
    case Announcing => Enter(Uploading)
    case Completing => Complete(FileFields(FileName(job.id, token), w.stored.value), now)
    case _ => Beat
  }

  /** Where the main line goes once its statement took effect. */
  function Next(w: Worker): Worker {
    match w.place
    case Claiming => w.(place := CountingRows, timer := true)
    case CountingRows => w.(place := Opening)
    case Opening => w.(place := Streaming)
    case Reporting(next, cursor, more) =>
      w.(place := if more then Streaming else Closing, processed := next, cursor := cursor)
    case Closing => w.(place := Storing(false))
    case Announcing => w.(place := Storing(true))
    case _ => w.(place := Finished)
  }

  const NO_LEASE := "Export lease perdido."
  const INTERRUPTED := "Export interrompido: tentativa substituida ou heartbeat indisponivel."

  /** The main line after an error: the catch block, or the end if the catch block itself broke. */
  function Broken(w: Worker, message: string): Worker {
    w.(place := if w.place.Failing? || w.place.Finished? then Finished else Failing(message))
  }

  predicate Enabled(job: Job, s: System, a: Action) {
    match a
    case Tick(to) => s.now <= to
    case Insert(c) => !job.matches(c) && forall x :: x in s.captures ==> x.key.id != c.key.id
    case Deliver(t) => t !in s.workers
    case Send(t) =>
      && t in s.workers && s.workers[t].sent.None?
      && (Updates(s.workers[t].place) || s.workers[t].place.Claiming? || s.workers[t].place.Failing?)
      && (s.workers[t].place.Completing? ==> s.workers[t].stored.Some?)
    case Execute(t, _) => t in s.workers && s.workers[t].sent.Some?
    case Lose(t) => t in s.workers && s.workers[t].sent.Some?
    case Fetch(t) => t in s.workers && s.workers[t].place.Streaming? && s.workers[t].sent.None?
    case Upload(t) => t in s.workers && s.workers[t].place == Storing(false) && s.workers[t].sent.None?
    case Store(t, _) => t in s.workers && s.workers[t].place.Storing? && s.workers[t].sent.None?
    case Throw(t, _) => t in s.workers && Working(s.workers[t].place) && s.workers[t].sent.None?
    case SendBeat(t) => t in s.workers && s.workers[t].timer && s.workers[t].beat.None?
    case ExecuteBeat(t, _) => t in s.workers && s.workers[t].beat.Some?
    case LoseBeat(t) => t in s.workers && s.workers[t].beat.Some?
    case Read => NeedsRecovery(s.row, s.now)
    case Recover(snapshot, issued) => snapshot in s.snapshots && snapshot.attempts >= MAX_ATTEMPTS && issued <= s.now
  }

  function SendStatement(job: Job, s: System, t: Token, w: Worker): Worker
    requires Updates(w.place) || w.place.Claiming? || w.place.Failing?
    requires w.place.Completing? ==> w.stored.Some?
  {
    if w.place.Claiming? then w.(sent := Some(ClaimRow(s.now)))
    else if w.place.Failing? then w.(sent := Some(Fail(w.place.message, s.now)), timer := false)
    else
      var v := w.(timer := w.timer && !w.place.Completing?);
      if w.leaseLost then Broken(v, INTERRUPTED)
      else
        var total := if w.place.CountingRows? then Total(job, s) else w.total;
        v.(sent := Some(Update(PatchAt(job, t, w, total, s.now), s.now)), total := total)
  }

  /** Whether a statement finds its row. */
  predicate Affects(s: System, t: Token, st: Statement) {
    match st
    case ClaimRow(_) => Claimable(s.row, s.now)
    case Update(_, _) => Owns(s.row, t)
    case Fail(_, _) => Owns(s.row, t)
  }

  function RowAfter(s: System, t: Token, st: Statement): JobRow {
    if !Affects(s, t, st) then s.row
    else match st
      case ClaimRow(issued) => Claimed(s.row, t, issued)
      case Update(patch, issued) => Patched(s.row, patch, issued)
      case Fail(message, issued) => FailedWith(s.row, message, issued)
  }

  /** The main line when the reply to its statement arrives. */
  function OnReply(w: Worker, affected: bool): Worker {
    if affected || w.place.Failing? then Next(w)
    else if w.place.Claiming? then w.(place := Finished)
    else Broken(w.(leaseLost := true), NO_LEASE)
  }

  function FetchBatch(job: Job, s: System, w: Worker): Worker {
    var rows := Query(Desc, s.captures, job.matches, w.cursor, job.batch);
    if rows == [] then w.(place := Closing)
    else w.(place := Reporting(w.processed + |rows|, Some(rows[|rows| - 1].key), |rows| == job.batch))
  }

  function Do(job: Job, s: System, a: Action): System
    requires Enabled(job, s, a)
  {
    match a
    case Tick(to) => s.(now := to)
    case Insert(c) => s.(captures := s.captures + [c])
    case Deliver(t) => s.(workers := s.workers[t := NEW_WORKER])
    case Send(t) => s.(workers := s.workers[t := SendStatement(job, s, t, s.workers[t])])
    case Execute(t, replied) =>
      var w := s.workers[t];
      var st := w.sent.value;
      var idle := w.(sent := None);
      s.(row := RowAfter(s, t, st),
         claims := if st.ClaimRow? && Affects(s, t, st) then s.claims + [t] else s.claims,
         workers := s.workers[t := if replied then OnReply(idle, Affects(s, t, st)) else Broken(idle, "")])
    case Lose(t) => s.(workers := s.workers[t := Broken(s.workers[t].(sent := None), "")])
    case Fetch(t) => s.(workers := s.workers[t := FetchBatch(job, s, s.workers[t])])
    case Upload(t) => s.(workers := s.workers[t := s.workers[t].(place := Announcing)])
    case Store(t, file) => s.(workers := s.workers[t := s.workers[t].(place := Completing, stored := Some(file))])
    case Throw(t, message) => s.(workers := s.workers[t := Broken(s.workers[t], message)])
    case SendBeat(t) =>
      if s.workers[t].leaseLost then s
      else s.(workers := s.workers[t := s.workers[t].(beat := Some(s.now))])
    case ExecuteBeat(t, replied) =>
      var w := s.workers[t].(beat := None);
      s.(row := if Owns(s.row, t) then Patched(s.row, Beat, s.workers[t].beat.value) else s.row,
         workers := s.workers[t := if replied && Owns(s.row, t) then w else w.(leaseLost := true)])
    case LoseBeat(t) => s.(workers := s.workers[t := s.workers[t].(beat := None, leaseLost := true)])
    case Read => s.(snapshots := s.snapshots + {Snapshot(job.id, s.row.status, s.row.attemptCount)})
    case Recover(snapshot, issued) =>
      s.(row := if Abandoned(s.row, snapshot.status, s.now) then FailedWith(s.row, ABANDONED, issued) else s.row)
  }

  ghost predicate Initial(s: System) {
    && DistinctIds(s.captures)
    && s.row == NewRow(s.row.createdAt) && s.row.createdAt <= s.now
    && s.workers == map[] && s.claims == [] && s.snapshots == {}
  }

  /** A run: the states ss joined by the actions acts. */
  ghost predicate Run(job: Job, ss: seq<System>, acts: seq<Action>) {
    && job.batch >= 1
    && |ss| == |acts| + 1
    && Initial(ss[0])
    && forall i :: 0 <= i < |acts| ==> Enabled(job, ss[i], acts[i]) && ss[i + 1] == Do(job, ss[i], acts[i])
  }

  /** The worker an action belongs to. */
  function Actor(a: Action): Option<Token> {
    match a
    case Deliver(t) => Some(t)
    case Send(t) => Some(t)
    case Execute(t, _) => Some(t)
    case Lose(t) => Some(t)
    case Fetch(t) => Some(t)
    case Upload(t) => Some(t)
    case Store(t, _) => Some(t)
    case Throw(t, _) => Some(t)
    case SendBeat(t) => Some(t)
    case ExecuteBeat(t, _) => Some(t)
    case LoseBeat(t) => Some(t)
    case _ => None
  }

  // ------------------------------------------------------------ the invariant

  /** Attempts are counted, tokens are used once, and the row names the last one. */
  ghost predicate ClaimsOk(s: System) {
    && s.row.attemptCount == |s.claims| <= MAX_ATTEMPTS
    && (s.row.status == Pending <==> s.claims == [])
    && s.row.leaseToken == (if s.claims == [] then None else Some(s.claims[|s.claims| - 1]))
    && (forall i, j :: 0 <= i < j < |s.claims| ==> s.claims[i] != s.claims[j])
    && (forall t :: t in s.claims ==> t in s.workers)
  }

  ghost predicate SnapshotsOk(s: System) {
    forall x :: x in s.snapshots ==>
      && x.attempts <= s.row.attemptCount
      && (x.status == Pending || x.status == Processing)
      && (x.status == Pending ==> x.attempts == 0)
  }

  /** A worker's own variables agree with its place; n is the number of matching captures. */
  ghost predicate WorkerOk(job: Job, l: seq<Capture>, claims: seq<Token>, t: Token, w: Worker) {
    && (w.place.Claiming? ==> t !in claims)
    && (Working(w.place) ==> t in claims)
    && (w.sent.Some? ==>
          match w.sent.value
          case ClaimRow(_) => w.place.Claiming?
          case Update(patch, issued) =>
            && Updates(w.place) && (w.place.Completing? ==> w.stored.Some?)
            && patch == PatchAt(job, t, w, w.total, issued)
            && (w.place.CountingRows? ==> w.total == |l|)
          case Fail(_, _) => w.place.Failing?)
    && (w.place.Claiming? || w.place.CountingRows? || w.place.Opening? ==> w.processed == 0 && w.cursor.None?)
    && (Working(w.place) && !w.place.CountingRows? ==> w.total == |l|)
    && (w.place.Streaming? || w.place.Reporting? ==> Start(Desc, w.cursor, l) == w.processed)
    && (w.place.Reporting? ==>
          && Start(Desc, w.place.cursor, l) == w.place.next
          && (!w.place.more ==> w.place.next == |l|))
    && (w.place.Closing? || w.place.Storing? || w.place.Announcing? || w.place.Completing? ==> w.processed == |l|)
    && (w.place.Completing? ==> w.stored.Some?)
  }

  /** What a completed row holds: everything from the attempt whose token it names. */
  predicate CompletedBy(job: Job, n: nat, row: JobRow, t: Token, w: Worker) {
    && row.leaseToken == Some(t)
    && w.stored.Some? && row.file == Some(FileFields(FileName(job.id, t), w.stored.value))
    && row.totalItems == Some(n) && w.total == n
    && row.processedItems == n && w.processed == n
    && row.phase == Done
  }

  /** The row agrees with the worker that owns it. */
  ghost predicate OwnerOk(job: Job, n: nat, row: JobRow, t: Token, w: Worker) {
    && (row.status == Processing && Working(w.place) ==>
          && row.processedItems == w.processed
          && (!w.place.CountingRows? ==> row.totalItems == Some(n)))
    && (row.status == Completed ==> CompletedBy(job, n, row, t, w) && (w.place.Finished? || w.place.Failing?))
  }

  ghost predicate Inv(job: Job, l: seq<Capture>, s: System) {
    && job.batch >= 1
    && DistinctIds(s.captures) && l == Listing(Desc, s.captures, job.matches)
    && ClaimsOk(s) && SnapshotsOk(s)
    && (forall t :: t in s.workers ==> WorkerOk(job, l, s.claims, t, s.workers[t]))
    && (s.claims != [] ==>
          var t := s.claims[|s.claims| - 1];
          OwnerOk(job, |l|, s.row, t, s.workers[t]))
  }

  // ------------------------------------------------------------ preservation

  /** A worker that changes only its own variables. */
  lemma WorkerStep(job: Job, l: seq<Capture>, s: System, t: Token, w: Worker)
    requires Inv(job, l, s) && t in s.workers
    requires WorkerOk(job, l, s.claims, t, w)
    requires OwnerOk(job, |l|, s.row, t, s.workers[t]) ==> OwnerOk(job, |l|, s.row, t, w)
    ensures Inv(job, l, s.(workers := s.workers[t := w]))
  {
  }

  lemma SentIsOk(job: Job, l: seq<Capture>, s: System, t: Token, w: Worker)
    requires WorkerOk(job, l, s.claims, t, w) && w.sent.None? && |l| == Total(job, s)
    requires Updates(w.place) || w.place.Claiming? || w.place.Failing?
    requires w.place.Completing? ==> w.stored.Some?
    ensures WorkerOk(job, l, s.claims, t, SendStatement(job, s, t, w))
  {
  }

  lemma SendKeeps(job: Job, l: seq<Capture>, s: System, t: Token)
    requires Inv(job, l, s) && Enabled(job, s, Send(t))
    ensures Inv(job, l, Do(job, s, Send(t)))
  {
    var w := s.workers[t];
    assert WorkerOk(job, l, s.claims, t, w);
    SentIsOk(job, l, s, t, w);
    WorkerStep(job, l, s, t, SendStatement(job, s, t, w));
  }

  lemma FetchKeeps(job: Job, l: seq<Capture>, s: System, t: Token)
    requires Inv(job, l, s) && Enabled(job, s, Fetch(t))
    ensures Inv(job, l, Do(job, s, Fetch(t)))
  {
    var w := s.workers[t];
    assert WorkerOk(job, l, s.claims, t, w);
    BatchStep(s.captures, job.matches, w.cursor, job.batch, w.processed);
    WorkerStep(job, l, s, t, FetchBatch(job, s, w));
  }

  lemma BreakKeeps(job: Job, l: seq<Capture>, s: System, t: Token, message: string)
    requires Inv(job, l, s) && t in s.workers
    ensures Inv(job, l, s.(workers := s.workers[t := Broken(s.workers[t].(sent := None), message)]))
  {
    var w := s.workers[t];
    assert WorkerOk(job, l, s.claims, t, w);
    WorkerStep(job, l, s, t, Broken(w.(sent := None), message));
  }

  lemma StoreKeeps(job: Job, l: seq<Capture>, s: System, t: Token, file: StoredFile)
    requires Inv(job, l, s) && Enabled(job, s, Store(t, file))
    ensures Inv(job, l, Do(job, s, Store(t, file)))
  {
    var w := s.workers[t];
    assert WorkerOk(job, l, s.claims, t, w);
    WorkerStep(job, l, s, t, w.(place := Completing, stored := Some(file)));
  }

  lemma UploadKeeps(job: Job, l: seq<Capture>, s: System, t: Token)
    requires Inv(job, l, s) && Enabled(job, s, Upload(t))
    ensures Inv(job, l, Do(job, s, Upload(t)))
  {
    var w := s.workers[t];
    assert WorkerOk(job, l, s.claims, t, w);
    WorkerStep(job, l, s, t, w.(place := Announcing));
  }

  lemma DeliverKeeps(job: Job, l: seq<Capture>, s: System, t: Token)
    requires Inv(job, l, s) && t !in s.workers
    ensures Inv(job, l, s.(workers := s.workers[t := NEW_WORKER]))
  {
    assert WorkerOk(job, l, s.claims, t, NEW_WORKER);
  }

  /** Captures that do not match the frozen filter leave the listing alone. */
  lemma {:induction false} FilterSkips(s: seq<Capture>, c: Capture, p: Capture -> bool)
    requires !p(c)
    ensures Filter(s + [c], p) == Filter(s, p)
  {
    if s != [] {
      assert (s + [c])[1..] == s[1..] + [c];
      FilterSkips(s[1..], c, p);
    } else {
      assert (s + [c])[1..] == [];
    }
  }

  lemma InsertKeepsInv(job: Job, l: seq<Capture>, s: System, c: Capture)
    requires Inv(job, l, s) && Enabled(job, s, Action.Insert(c))
    ensures Inv(job, l, Do(job, s, Action.Insert(c)))
  {
    FilterSkips(s.captures, c, job.matches);
    assert forall i :: 0 <= i < |s.captures| ==> s.captures[i] in s.captures;
    assert DistinctIds(s.captures + [c]);
  }

  /** A heartbeat changes the row's heartbeat and nothing the invariant speaks of. */
  lemma BeatKeeps(job: Job, l: seq<Capture>, s: System, t: Token, issued: int, lost: bool)
    requires Inv(job, l, s) && t in s.workers
    ensures var w := s.workers[t].(beat := None);
            Inv(job, l, s.(row := if Owns(s.row, t) then Patched(s.row, Beat, issued) else s.row,
                           workers := s.workers[t := if lost then w.(leaseLost := true) else w]))
  {
    var w := s.workers[t].(beat := None);
    var v := if lost then w.(leaseLost := true) else w;
    assert WorkerOk(job, l, s.claims, t, s.workers[t]);
    WorkerStep(job, l, s, t, v);
  }

  lemma RecoverKeeps(job: Job, l: seq<Capture>, s: System, x: Snapshot, issued: int)
    requires Inv(job, l, s) && Enabled(job, s, Recover(x, issued))
    ensures Inv(job, l, Do(job, s, Recover(x, issued)))
  {
  }

  // ---- statements of the main line

  lemma ClaimKeeps(job: Job, l: seq<Capture>, s: System, t: Token, replied: bool)
    requires Inv(job, l, s) && Enabled(job, s, Execute(t, replied))
    requires s.workers[t].sent.value.ClaimRow? && Claimable(s.row, s.now)
    ensures Inv(job, l, Do(job, s, Execute(t, replied)))
  {
    var w := s.workers[t];
    assert WorkerOk(job, l, s.claims, t, w);
    var s' := Do(job, s, Execute(t, replied));
    forall u | u in s'.workers ensures WorkerOk(job, l, s'.claims, u, s'.workers[u]) {
      if u != t { assert WorkerOk(job, l, s.claims, u, s.workers[u]); }
    }
  }

  /** A step of the row's owner that writes the row and moves its main line. */
  lemma OwnerStep(job: Job, l: seq<Capture>, s: System, t: Token, row: JobRow, w: Worker)
    requires Inv(job, l, s) && t in s.workers && Owns(s.row, t)
    requires row.attemptCount == s.row.attemptCount && row.leaseToken == s.row.leaseToken && row.status != Pending
    requires WorkerOk(job, l, s.claims, t, w) && OwnerOk(job, |l|, row, t, w)
    ensures Inv(job, l, s.(row := row, workers := s.workers[t := w]))
  {
  }

  lemma BrokenIsOk(job: Job, l: seq<Capture>, claims: seq<Token>, t: Token, w: Worker, message: string)
    requires WorkerOk(job, l, claims, t, w)
    ensures WorkerOk(job, l, claims, t, Broken(w.(sent := None), message))
  {
  }

  lemma NextIsOk(job: Job, l: seq<Capture>, claims: seq<Token>, t: Token, w: Worker)
    requires WorkerOk(job, l, claims, t, w) && w.sent.Some? && w.sent.value.Update?
    ensures WorkerOk(job, l, claims, t, Next(w.(sent := None)))
  {
  }

  /** The row as an owned update leaves it agrees with its owner, whether the reply arrives or not. */
  lemma PatchedRowIsOk(job: Job, l: seq<Capture>, claims: seq<Token>, row: JobRow, t: Token, w: Worker,
                       message: string)
    requires WorkerOk(job, l, claims, t, w) && OwnerOk(job, |l|, row, t, w)
    requires row.status == Processing && row.leaseToken == Some(t) && w.sent.Some? && w.sent.value.Update?
    ensures var after := Patched(row, w.sent.value.patch, w.sent.value.issued);
            && OwnerOk(job, |l|, after, t, Next(w.(sent := None)))
            && OwnerOk(job, |l|, after, t, Broken(w.(sent := None), message))
  {
  }

  lemma UpdateIsOwnerStep(job: Job, s: System, t: Token, replied: bool)
    requires Enabled(job, s, Execute(t, replied)) && s.workers[t].sent.value.Update? && Owns(s.row, t)
    requires Updates(s.workers[t].place)
    ensures var w := s.workers[t];
            Do(job, s, Execute(t, replied))
            == s.(row := Patched(s.row, w.sent.value.patch, w.sent.value.issued),
                  workers := s.workers[t := if replied then Next(w.(sent := None)) else Broken(w.(sent := None), "")])
  {
  }

  lemma UpdateKeeps(job: Job, l: seq<Capture>, s: System, t: Token, replied: bool)
    requires Inv(job, l, s) && Enabled(job, s, Execute(t, replied))
    requires s.workers[t].sent.value.Update? && Owns(s.row, t)
    ensures Inv(job, l, Do(job, s, Execute(t, replied)))
  {
    var w := s.workers[t];
    assert WorkerOk(job, l, s.claims, t, w);
    BrokenIsOk(job, l, s.claims, t, w, "");
    NextIsOk(job, l, s.claims, t, w);
    PatchedRowIsOk(job, l, s.claims, s.row, t, w, "");
    UpdateIsOwnerStep(job, s, t, replied);
    var idle := w.(sent := None);
    OwnerStep(job, l, s, t, Patched(s.row, w.sent.value.patch, w.sent.value.issued),
              if replied then Next(idle) else Broken(idle, ""));
  }

  lemma FailKeeps(job: Job, l: seq<Capture>, s: System, t: Token, replied: bool)
    requires Inv(job, l, s) && Enabled(job, s, Execute(t, replied))
    requires s.workers[t].sent.value.Fail? && Owns(s.row, t)
    ensures Inv(job, l, Do(job, s, Execute(t, replied)))
  {
    var w := s.workers[t];
    assert WorkerOk(job, l, s.claims, t, w);
    var s' := Do(job, s, Execute(t, replied));
    assert WorkerOk(job, l, s.claims, t, s'.workers[t]);
  }

  lemma NoEffectKeeps(job: Job, l: seq<Capture>, s: System, t: Token, replied: bool)
    requires Inv(job, l, s) && Enabled(job, s, Execute(t, replied))
    requires !Affects(s, t, s.workers[t].sent.value)
    ensures Inv(job, l, Do(job, s, Execute(t, replied)))
  {
    var w := s.workers[t];
    assert WorkerOk(job, l, s.claims, t, w);
    var idle := w.(sent := None);
    WorkerStep(job, l, s, t, if replied then OnReply(idle, false) else Broken(idle, ""));
  }

  lemma ExecuteKeeps(job: Job, l: seq<Capture>, s: System, t: Token, replied: bool)
    requires Inv(job, l, s) && Enabled(job, s, Execute(t, replied))
    ensures Inv(job, l, Do(job, s, Execute(t, replied)))
  {
    if !Affects(s, t, s.workers[t].sent.value) {
      NoEffectKeeps(job, l, s, t, replied);
    } else {
      match s.workers[t].sent.value
      case ClaimRow(_) => ClaimKeeps(job, l, s, t, replied);
      case Update(_, _) => UpdateKeeps(job, l, s, t, replied);
      case Fail(_, _) => FailKeeps(job, l, s, t, replied);
    }
  }

  lemma TimerKeeps(job: Job, l: seq<Capture>, s: System, a: Action)
    requires Inv(job, l, s) && Enabled(job, s, a) && (a.SendBeat? || a.ExecuteBeat? || a.LoseBeat?)
    ensures Inv(job, l, Do(job, s, a))
  {
    var w := s.workers[a.token];
    if a.SendBeat? {
      WorkerStep(job, l, s, a.token, w.(beat := Some(s.now)));
    } else if a.ExecuteBeat? {
      BeatKeeps(job, l, s, a.token, w.beat.value, !(a.replied && Owns(s.row, a.token)));
    } else {
      WorkerStep(job, l, s, a.token, w.(beat := None, leaseLost := true));
    }
  }

  lemma StepKeeps(job: Job, l: seq<Capture>, s: System, a: Action)
    requires Inv(job, l, s) && Enabled(job, s, a)
    ensures Inv(job, l, Do(job, s, a))
  {
    match a
    case Tick(_) =>
    case Insert(c) => InsertKeepsInv(job, l, s, c);
    case Deliver(t) => DeliverKeeps(job, l, s, t);
    case Send(t) => SendKeeps(job, l, s, t);
    case Execute(t, replied) => ExecuteKeeps(job, l, s, t, replied);
    case Lose(t) => BreakKeeps(job, l, s, t, "");
    case Fetch(t) => FetchKeeps(job, l, s, t);
    case Upload(t) => UploadKeeps(job, l, s, t);
    case Store(t, file) => StoreKeeps(job, l, s, t, file);
    case Throw(t, message) =>
      assert s.workers[t].(sent := None) == s.workers[t];
      BreakKeeps(job, l, s, t, message);
    case SendBeat(t) => TimerKeeps(job, l, s, a);
    case ExecuteBeat(t, replied) => TimerKeeps(job, l, s, a);
    case LoseBeat(t) => TimerKeeps(job, l, s, a);
    case Read =>
    case Recover(x, issued) => RecoverKeeps(job, l, s, x, issued);
  }

  // ------------------------------------------------------------ over whole runs

  ghost function Matching(job: Job, s: System): seq<Capture> {
    Listing(Desc, s.captures, job.matches)
  }

  lemma {:induction false} RunKeepsInv(job: Job, ss: seq<System>, acts: seq<Action>, i: nat)
    requires Run(job, ss, acts) && i < |ss|
    ensures Inv(job, Matching(job, ss[0]), ss[i])
  {
    if i > 0 {
      RunKeepsInv(job, ss, acts, i - 1);
      StepKeeps(job, Matching(job, ss[0]), ss[i - 1], acts[i - 1]);
    }
  }

  lemma {:induction false} ClaimsOnlyGrow(job: Job, ss: seq<System>, acts: seq<Action>, i: nat, k: nat)
    requires Run(job, ss, acts) && i <= k < |ss|
    ensures ss[i].claims <= ss[k].claims
    decreases k - i
  {
    if i < k {
      ClaimsOnlyGrow(job, ss, acts, i, k - 1);
      assert ss[k] == Do(job, ss[k - 1], acts[k - 1]);
    }
  }

  /** An attempt whose lease was replaced is no longer the last claim. */
  predicate Superseded(s: System, t: Token) {
    t in s.claims && t != s.claims[|s.claims| - 1]
  }

  lemma SupersededStepIsFenced(job: Job, l: seq<Capture>, s: System, a: Action, t: Token)
    requires Inv(job, l, s) && Enabled(job, s, a)
    requires Actor(a) == Some(t) && Superseded(s, t)
    ensures Do(job, s, a).row == s.row
  {
    assert WorkerOk(job, l, s.claims, t, s.workers[t]);
  }

  /** Once a newer attempt has claimed the job, no step of an older attempt ever changes the row again. */
  lemma NewerAttemptFencesOlder(job: Job, ss: seq<System>, acts: seq<Action>, i: nat, k: nat, t: Token)
    requires Run(job, ss, acts) && i <= k < |acts|
    requires Superseded(ss[i], t) && Actor(acts[k]) == Some(t)
    ensures ss[k + 1].row == ss[k].row
  {
    RunKeepsInv(job, ss, acts, k);
    ClaimsOnlyGrow(job, ss, acts, i, k);
    SupersededStepIsFenced(job, Matching(job, ss[0]), ss[k], acts[k], t);
  }

  /** The number of claims that took effect among the first i actions. */
  ghost function SuccessfulClaims(ss: seq<System>, acts: seq<Action>, i: nat): nat
    requires i <= |acts| && |ss| == |acts| + 1
  {
    if i == 0 then 0
    else SuccessfulClaims(ss, acts, i - 1) + if IsClaim(ss[i - 1], acts[i - 1]) then 1 else 0
  }

  ghost predicate IsClaim(s: System, a: Action) {
    && a.Execute? && a.token in s.workers
    && s.workers[a.token].sent.Some? && s.workers[a.token].sent.value.ClaimRow?
    && Claimable(s.row, s.now)
  }

  lemma {:induction false} ClaimsAreCounted(job: Job, ss: seq<System>, acts: seq<Action>, i: nat)
    requires Run(job, ss, acts) && i < |ss|
    ensures |ss[i].claims| == SuccessfulClaims(ss, acts, i)
  {
    if i > 0 {
      ClaimsAreCounted(job, ss, acts, i - 1);
      assert ss[i] == Do(job, ss[i - 1], acts[i - 1]);
    }
  }

  /** attempt_count is the number of successful claims and stays within three; pending means no claim yet. */
  lemma AttemptsAreBounded(job: Job, ss: seq<System>, acts: seq<Action>, i: nat)
    requires Run(job, ss, acts) && i < |ss|
    ensures ss[i].row.attemptCount == SuccessfulClaims(ss, acts, i) <= MAX_ATTEMPTS
    ensures ss[i].row.status == Pending <==> SuccessfulClaims(ss, acts, i) == 0
  {
    RunKeepsInv(job, ss, acts, i);
    ClaimsAreCounted(job, ss, acts, i);
  }

  predicate Terminal(row: JobRow) {
    row.status == Completed || row.status == Failed
  }

  lemma TerminalStep(job: Job, l: seq<Capture>, s: System, a: Action)
    requires Inv(job, l, s) && Enabled(job, s, a) && Terminal(s.row)
    ensures Do(job, s, a).row == s.row
  {
  }

  /** A completed or failed row is never touched again, in any field. */
  lemma {:induction false} TerminalForever(job: Job, ss: seq<System>, acts: seq<Action>, i: nat, k: nat)
    requires Run(job, ss, acts) && i <= k < |ss|
    requires Terminal(ss[i].row)
    ensures ss[k].row == ss[i].row
    decreases k - i
  {
    if i < k {
      TerminalForever(job, ss, acts, i, k - 1);
      RunKeepsInv(job, ss, acts, k - 1);
      TerminalStep(job, Matching(job, ss[0]), ss[k - 1], acts[k - 1]);
    }
  }

  /**
    Recovery acts on what it read earlier, yet whenever it changes the row all
    attempts are used and the heartbeat is stale at that very instant.
   */
  lemma RecoveryFailsOnlyExhausted(job: Job, ss: seq<System>, acts: seq<Action>, k: nat)
    requires Run(job, ss, acts) && k < |acts| && acts[k].Recover?
    requires ss[k + 1].row != ss[k].row
    ensures ss[k].row.status == Processing && ss[k].row.attemptCount == MAX_ATTEMPTS
    ensures Stale(ss[k].row, ss[k].now)
    ensures ss[k + 1].row == FailedWith(ss[k].row, ABANDONED, acts[k].issued)
  {
    RunKeepsInv(job, ss, acts, k);
  }

  /**
    A completed row comes whole from one attempt: the owner of its lease_token. Its
    file is the one that attempt stored, under a name with that token, and total and
    processed both equal the number of captures the frozen filter matches.
   */
  lemma CompletedComesFromOneAttempt(job: Job, ss: seq<System>, acts: seq<Action>, i: nat)
    requires Run(job, ss, acts) && i < |ss|
    requires ss[i].row.status == Completed
    ensures ss[i].claims != []
    ensures var t := ss[i].claims[|ss[i].claims| - 1];
            t in ss[i].workers && CompletedBy(job, |Matching(job, ss[i])|, ss[i].row, t, ss[i].workers[t])
    ensures ss[i].row.totalItems == Some(ss[i].row.processedItems)
    ensures ss[i].row.processedItems == |Matching(job, ss[i])| == |Matching(job, ss[0])|
  {
    RunKeepsInv(job, ss, acts, i);
  }

  /** Every change of the row is a claim, a step of the attempt that owns it, or the recovery. */
  lemma RowChangesAreOwned(job: Job, ss: seq<System>, acts: seq<Action>, k: nat)
    requires Run(job, ss, acts) && k < |acts|
    requires ss[k + 1].row != ss[k].row
    ensures acts[k].Recover? || IsClaim(ss[k], acts[k])
            || (ss[k].claims != [] && Actor(acts[k]) == Some(ss[k].claims[|ss[k].claims| - 1]))
  {
    RunKeepsInv(job, ss, acts, k);
  }

  /** A job is never stuck: unfinished and silent for five minutes, it can be claimed again or be failed by recovery. */
  lemma SilentJobCanMove(job: Job, ss: seq<System>, acts: seq<Action>, i: nat)
    requires Run(job, ss, acts) && i < |ss|
    requires !Terminal(ss[i].row) && (ss[i].row.status == Processing ==> Stale(ss[i].row, ss[i].now))
    ensures Claimable(ss[i].row, ss[i].now) || (
              && Enabled(job, ss[i], Read)
              && var x := Snapshot(job.id, ss[i].row.status, ss[i].row.attemptCount);
                 var read := Do(job, ss[i], Read);
                 && Enabled(job, read, Recover(x, read.now))
                 && Do(job, read, Recover(x, read.now)).row.status == Failed)
  {
    RunKeepsInv(job, ss, acts, i);
  }

  /**
    createExportJob freezes the upper bound of created_at, so without an end date of
    its own, or with one in the past, a job never matches captures created later.
   */
  function CreateJob(id: JobId, rest: Capture -> bool, endDate: Option<int>, now: int, batch: nat): (job: Job)
    ensures endDate.None? || endDate.value <= now ==> forall c: Capture :: c.key.at > 1000 * now ==> !job.matches(c)
    ensures forall c: Capture :: job.matches(c) ==> rest(c)
  {
    var end := endDate.GetOr(now);
    Job(id, (c: Capture) => c.key.at <= 1000 * end && rest(c), batch)
  }
}
