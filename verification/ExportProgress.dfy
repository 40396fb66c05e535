/**
  No export job is ever stuck: from every reachable state some further actions end it,
  and as long as it has an attempt left they can complete it.
 */
module ExportProgress {
  import opened Options
  import opened Keyset
  import opened ExportJob
  import opened ExportProtocol

  /** The state after some actions, if each is enabled when its turn comes. */
  ghost function After(job: Job, s: System, acts: seq<Action>): Option<System>
    decreases |acts|
  {
    if acts == [] then Some(s)
    else if Enabled(job, s, acts[0]) then After(job, Do(job, s, acts[0]), acts[1..])
    else None
  }

  lemma AfterStep(job: Job, s: System, a: Action, rest: seq<Action>)
    requires Enabled(job, s, a)
    ensures After(job, s, [a] + rest) == After(job, Do(job, s, a), rest)
  {
    assert ([a] + rest)[1..] == rest;
  }

  // ------------------------------------------------------------- the owner goes on

  /** Worker t owns the row, awaits nothing and has not lost its lease. */
  ghost predicate Driving(job: Job, l: seq<Capture>, s: System, t: Token) {
    && Inv(job, l, s) && t in s.workers && Owns(s.row, t)
    && Working(s.workers[t].place) && s.workers[t].sent.None? && !s.workers[t].leaseLost
  }

  /** How far a worker is from its end; n is the number of matching captures. */
  function Rank(w: Worker, n: nat): nat {
    match w.place
    case CountingRows => 2 * n + 9
    case Opening => 2 * n + 8
    case Streaming => (if w.processed < n then 2 * (n - w.processed) else 0) + 6
    case Reporting(next, _, _) => (if next < n then 2 * (n - next) else 0) + 7
    case Closing => 5
    case Announcing => 4
    case Storing(_) => 3
    case Completing => 2
    case _ => 0
  }

  lemma SendIsSent(job: Job, l: seq<Capture>, s: System, t: Token)
    requires Driving(job, l, s, t) && Updates(s.workers[t].place)
    ensures Enabled(job, s, Send(t))
    ensures var w, v := s.workers[t], Do(job, s, Send(t)).workers[t];
            && v.sent.Some? && v.sent.value.Update? && v.place == w.place && !v.leaseLost && v.processed == w.processed
            && (w.place.Completing? ==> v.sent.value.patch.Complete?)
            && (!w.place.Completing? ==> !v.sent.value.patch.Complete?)
    ensures Do(job, s, Send(t)).row == s.row && Inv(job, l, Do(job, s, Send(t)))
  {
    assert WorkerOk(job, l, s.claims, t, s.workers[t]);
    StepKeeps(job, l, s, Send(t));
  }

  /** A sent update of the owner takes effect and its reply arrives. */
  lemma UpdateArrives(job: Job, l: seq<Capture>, s: System, t: Token)
    requires Inv(job, l, s) && t in s.workers && Owns(s.row, t) && !s.workers[t].leaseLost
    requires s.workers[t].sent.Some? && s.workers[t].sent.value.Update? && Updates(s.workers[t].place)
    requires s.workers[t].place.Completing? <==> s.workers[t].sent.value.patch.Complete?
    ensures Enabled(job, s, Execute(t, true))
    ensures var s' := Do(job, s, Execute(t, true));
            && Inv(job, l, s') && s'.workers[t] == Next(s.workers[t].(sent := None))
            && s'.row == Patched(s.row, s.workers[t].sent.value.patch, s.workers[t].sent.value.issued)
  {
    StepKeeps(job, l, s, Execute(t, true));
  }

  lemma NextIsCloser(job: Job, l: seq<Capture>, claims: seq<Token>, t: Token, w: Worker)
    requires WorkerOk(job, l, claims, t, w) && Updates(w.place) && !w.place.Completing?
    ensures Working(Next(w).place) && Rank(Next(w), |l|) < Rank(w, |l|)
  {
  }

  /** The owner's update brings it on, or completes the job. */
  lemma UpdateAdvances(job: Job, l: seq<Capture>, s: System, t: Token)
    requires Inv(job, l, s) && t in s.workers && Owns(s.row, t) && !s.workers[t].leaseLost
    requires s.workers[t].sent.Some? && s.workers[t].sent.value.Update? && Updates(s.workers[t].place)
    requires s.workers[t].place.Completing? <==> s.workers[t].sent.value.patch.Complete?
    ensures Enabled(job, s, Execute(t, true))
    ensures var s' := Do(job, s, Execute(t, true));
            if s.workers[t].place.Completing? then s'.row.status == Completed
            else Driving(job, l, s', t) && Rank(s'.workers[t], |l|) < Rank(s.workers[t], |l|)
  {
    UpdateArrives(job, l, s, t);
    assert WorkerOk(job, l, s.claims, t, s.workers[t]);
    if !s.workers[t].place.Completing? {
      NextIsCloser(job, l, s.claims, t, s.workers[t]);
    }
  }

  lemma FetchAdvances(job: Job, l: seq<Capture>, s: System, t: Token)
    requires Driving(job, l, s, t) && s.workers[t].place.Streaming?
    ensures Enabled(job, s, Fetch(t))
    ensures var s' := Do(job, s, Fetch(t));
            Driving(job, l, s', t) && Rank(s'.workers[t], |l|) < Rank(s.workers[t], |l|)
  {
    var w := s.workers[t];
    assert WorkerOk(job, l, s.claims, t, w);
    BatchStep(s.captures, job.matches, w.cursor, job.batch, w.processed);
    StepKeeps(job, l, s, Fetch(t));
  }

  lemma StoreAdvances(job: Job, l: seq<Capture>, s: System, t: Token, file: StoredFile)
    requires Driving(job, l, s, t) && s.workers[t].place.Storing?
    ensures Enabled(job, s, Store(t, file))
    ensures var s' := Do(job, s, Store(t, file));
            Driving(job, l, s', t) && Rank(s'.workers[t], |l|) < Rank(s.workers[t], |l|)
  {
    StepKeeps(job, l, s, Store(t, file));
  }

  /** Left alone, the owner completes the job, whatever file it stores. */
  lemma {:induction false} OwnerCanComplete(job: Job, l: seq<Capture>, s: System, t: Token, file: StoredFile)
    returns (acts: seq<Action>)
    requires Driving(job, l, s, t)
    ensures After(job, s, acts).Some? && After(job, s, acts).value.row.status == Completed
    decreases Rank(s.workers[t], |l|)
  {
    var w := s.workers[t];
    if Updates(w.place) {
      SendIsSent(job, l, s, t);
      var s1 := Do(job, s, Send(t));
      UpdateAdvances(job, l, s1, t);
      var s2 := Do(job, s1, Execute(t, true));
      var rest := [];
      if !w.place.Completing? {
        rest := OwnerCanComplete(job, l, s2, t, file);
      }
      AfterStep(job, s1, Execute(t, true), rest);
      AfterStep(job, s, Send(t), [Execute(t, true)] + rest);
      acts := [Send(t)] + ([Execute(t, true)] + rest);
    } else if w.place.Streaming? {
      FetchAdvances(job, l, s, t);
      var rest := OwnerCanComplete(job, l, Do(job, s, Fetch(t)), t, file);
      AfterStep(job, s, Fetch(t), rest);
      acts := [Fetch(t)] + rest;
    } else {
      StoreAdvances(job, l, s, t, file);
      var rest := OwnerCanComplete(job, l, Do(job, s, Store(t, file)), t, file);
      AfterStep(job, s, Store(t, file), rest);
      acts := [Store(t, file)] + rest;
    }
  }

  // ------------------------------------------------------------- a new attempt

  lemma {:induction false} FreshToken(tokens: set<Token>) returns (t: Token)
    ensures forall x :: x in tokens ==> x < t
    decreases tokens
  {
    t := 0;
    if tokens != {} {
      var x :| x in tokens;
      var u := FreshToken(tokens - {x});
      t := if u <= x then x + 1 else u;
      assert tokens == (tokens - {x}) + {x};
    }
  }

  /** The instant from which the row counts as silent. */
  function Silent(s: System): int {
    if s.now <= LastSign(s.row) + LEASE_MS then LastSign(s.row) + LEASE_MS + 1 else s.now
  }

  /** A delivery to a new worker that claims a silent job makes it the owner. */
  lemma ClaimDrives(job: Job, l: seq<Capture>, s: System, t: Token)
    requires Inv(job, l, s) && t !in s.workers && Claimable(s.row, s.now)
    ensures Enabled(job, s, Deliver(t))
    ensures var s1 := Do(job, s, Deliver(t));
            Enabled(job, s1, Send(t)) &&
            var s2 := Do(job, s1, Send(t));
            Enabled(job, s2, Execute(t, true)) && Driving(job, l, Do(job, s2, Execute(t, true)), t)
  {
    StepKeeps(job, l, s, Deliver(t));
    var s1 := Do(job, s, Deliver(t));
    StepKeeps(job, l, s1, Send(t));
    var s2 := Do(job, s1, Send(t));
    assert s2.workers[t].sent == Some(ClaimRow(s.now));
    StepKeeps(job, l, s2, Execute(t, true));
  }

  lemma AttemptCanComplete(job: Job, l: seq<Capture>, s: System, file: StoredFile) returns (acts: seq<Action>)
    requires Inv(job, l, s) && Claimable(s.row, s.now)
    ensures After(job, s, acts).Some? && After(job, s, acts).value.row.status == Completed
  {
    var t := FreshToken(s.workers.Keys);
    ClaimDrives(job, l, s, t);
    var s1 := Do(job, s, Deliver(t));
    var s2 := Do(job, s1, Send(t));
    var s3 := Do(job, s2, Execute(t, true));
    var rest := OwnerCanComplete(job, l, s3, t, file);
    AfterStep(job, s2, Execute(t, true), rest);
    AfterStep(job, s1, Send(t), [Execute(t, true)] + rest);
    AfterStep(job, s, Deliver(t), [Send(t)] + ([Execute(t, true)] + rest));
    acts := [Deliver(t)] + ([Send(t)] + ([Execute(t, true)] + rest));
  }

  /** A silent job without attempts left is failed by one round of recovery. */
  lemma RecoveryCanFail(job: Job, l: seq<Capture>, s: System) returns (acts: seq<Action>)
    requires Inv(job, l, s) && s.row.status == Processing && Stale(s.row, s.now) && s.row.attemptCount == MAX_ATTEMPTS
    ensures After(job, s, acts).Some? && After(job, s, acts).value.row.status == Failed
  {
    var x := Snapshot(job.id, s.row.status, s.row.attemptCount);
    var read := Do(job, s, Read);
    AfterStep(job, read, Recover(x, s.now), []);
    AfterStep(job, s, Read, [Recover(x, s.now)] + []);
    acts := [Read] + ([Recover(x, s.now)] + []);
  }

  /**
    From every reachable state in which the job has not ended, some further actions end
    it: they complete it if an attempt is left, and fail it otherwise.
   */
  lemma EveryJobCanEnd(job: Job, ss: seq<System>, acts: seq<Action>, i: nat, file: StoredFile)
    returns (more: seq<Action>)
    requires Run(job, ss, acts) && i < |ss| && !Terminal(ss[i].row)
    ensures After(job, ss[i], more).Some?
    ensures After(job, ss[i], more).value.row.status
            == if ss[i].row.attemptCount < MAX_ATTEMPTS then Completed else Failed
  {
    var l, s := Matching(job, ss[0]), ss[i];
    RunKeepsInv(job, ss, acts, i);
    var wait := Action.Tick(Silent(s));
    StepKeeps(job, l, s, wait);
    var rest := [];
    if s.row.attemptCount < MAX_ATTEMPTS {
      rest := AttemptCanComplete(job, l, Do(job, s, wait), file);
    } else {
      rest := RecoveryCanFail(job, l, Do(job, s, wait));
    }
    AfterStep(job, s, wait, rest);
    more := [wait] + rest;
  }
}
