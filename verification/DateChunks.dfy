/**
  Splitting a bulk insights request into jobs: accounts are grouped by connection, the date
  range is cut into chunks, and one job is defined for each account and chunk. Days are
  numbered consecutively and both ends of a range belong to it, so a chunk of n days ends
  n - 1 days after it starts.
 */
module DateChunks {
  import opened Options

  datatype Chunk = Chunk(since: int, until: int)

  datatype Target = Target(connection: string, accounts: seq<string>)

  datatype JobDef = JobDef(connection: string, account: string, since: int, until: int)

  // ------------------------------------------------------------- chunks

  /** Consecutive chunks from the first day on, each of 1 to days days, all but the last full. */
  ghost predicate Consecutive(chunks: seq<Chunk>, since: int, days: int) {
    && (chunks != [] ==> chunks[0].since == since)
    && (forall k :: 0 <= k < |chunks| ==> chunks[k].since <= chunks[k].until < chunks[k].since + days)
    && (forall k :: 0 <= k < |chunks| - 1 ==> chunks[k].until == chunks[k].since + days - 1)
    && (forall k :: 0 <= k < |chunks| - 1 ==> chunks[k + 1].since == chunks[k].until + 1)
  }

  /** The day after the last chunk. */
  function After(chunks: seq<Chunk>, since: int): int {
    if chunks == [] then since else chunks[|chunks| - 1].until + 1
  }

  /** The chunks are consecutive and end on the last day; an inverted range has none. */
  ghost predicate Splits(chunks: seq<Chunk>, since: int, until: int, days: int) {
    Consecutive(chunks, since, days) && After(chunks, since) == if since <= until then until + 1 else since
  }

  /** The number of chunks of a range: its days divided by the chunk length, rounded up. */
  function ChunkCount(since: int, until: int, days: int): int
    requires days >= 1
  {
    if since <= until then (until - since + days) / days else 0
  }

  lemma AtLeastOnce(k: int, days: int)
    requires k >= 1 && days >= 1
    ensures k * days >= days
  {
    if k > 1 { AtLeastOnce(k - 1, days); }
  }

  lemma QuotientIs(total: int, days: int, q: int, rest: int)
    requires days >= 1 && total == q * days + rest && 0 <= rest < days
    ensures total / days == q
  {
    var more := total / days - q;
    assert more * days == rest - total % days;
    if more >= 1 { AtLeastOnce(more, days); }
    if more <= -1 { AtLeastOnce(-more, days); }
  }

  lemma OneMoreQuotient(total: int, days: int)
    requires days >= 1
    ensures (total + days) / days == total / days + 1
  {
    var q, rest := total / days, total % days;
    assert total + days == (q + 1) * days + rest;
    QuotientIs(total + days, days, q + 1, rest);
  }

  lemma OneMoreChunk(current: int, until: int, days: int)
    requires days >= 1 && current <= until
    ensures ChunkCount(current, until, days) == 1 + ChunkCount(current + days, until, days)
  {
    OneMoreQuotient(until - current, days);
    if until - current < days {
      QuotientIs(until - current, days, 0, until - current);
    }
  }

  /** How many chunks contain a day. */
  function Containing(chunks: seq<Chunk>, day: int): nat {
    if chunks == [] then 0
    else
      var last := chunks[|chunks| - 1];
      Containing(chunks[..|chunks| - 1], day) + (if last.since <= day <= last.until then 1 else 0)
  }

  /** Every day of consecutive chunks is in exactly one of them, any other day in none. */
  lemma {:induction false} ContainedOnce(chunks: seq<Chunk>, since: int, days: int, day: int)
    requires Consecutive(chunks, since, days)
    ensures since <= After(chunks, since)
    ensures Containing(chunks, day) == if since <= day < After(chunks, since) then 1 else 0
  {
    if chunks != [] {
      var rest := chunks[..|chunks| - 1];
      if rest != [] {
        assert rest[|rest| - 1] == chunks[|chunks| - 2];
        assert chunks[|rest| - 1 + 1].since == chunks[|rest| - 1].until + 1;
      }
      ContainedOnce(rest, since, days, day);
      assert After(rest, since) == chunks[|chunks| - 1].since;
    }
  }

  /** The chunks end just before current, and the last one is full too. */
  ghost predicate AllFull(chunks: seq<Chunk>, since: int, current: int, days: int) {
    && After(chunks, since) == current
    && (chunks != [] ==> chunks[|chunks| - 1].until == chunks[|chunks| - 1].since + days - 1)
  }

  lemma AppendChunk(chunks: seq<Chunk>, since: int, current: int, end: int, days: int)
    requires Consecutive(chunks, since, days) && AllFull(chunks, since, current, days)
    requires current <= end < current + days
    ensures Consecutive(chunks + [Chunk(current, end)], since, days)
    ensures After(chunks + [Chunk(current, end)], since) == end + 1 && since <= current
  {
    ContainedOnce(chunks, since, days, current);
  }

  /** Where the loop over the range stands after n rounds. */
  function Advance(since: int, days: int, n: nat): int {
    if n == 0 then since else Advance(since, days, n - 1) + days
  }

  lemma {:induction false} AdvanceBounds(since: int, days: int, n: nat)
    ensures days >= 1 ==> Advance(since, days, n) >= since + n
    ensures days < 1 ==> Advance(since, days, n) <= since
  {
    if n > 0 { AdvanceBounds(since, days, n - 1); }
  }

  /** The loop leaves a non-empty range exactly when chunks have at least one day. */
  lemma EndsExactlyWhenPositive(since: int, until: int, days: int)
    requires since <= until
    ensures (exists n: nat :: Advance(since, days, n) > until) <==> days >= 1
  {
    AdvanceBounds(since, days, until - since + 1);
    forall n: nat ensures days < 1 ==> Advance(since, days, n) <= until {
      AdvanceBounds(since, days, n);
    }
  }

  /** The loop over the range. With a chunk length below one day it would never end. */
  method ChunkDateRange(since: int, until: int, chunkDays: int) returns (chunks: seq<Chunk>)
    requires chunkDays >= 1
    ensures Splits(chunks, since, until, chunkDays)
    ensures |chunks| == ChunkCount(since, until, chunkDays)
  {
    chunks := [];
    var current := since;
    while current <= until
      invariant Consecutive(chunks, since, chunkDays)
      invariant if current <= until then AllFull(chunks, since, current, chunkDays)
                else Splits(chunks, since, until, chunkDays)
      invariant |chunks| + ChunkCount(current, until, chunkDays) == ChunkCount(since, until, chunkDays)
      decreases until - current
    {
      var chunkEnd := current + chunkDays - 1;
      if chunkEnd > until {
        chunkEnd := until;
      }
      OneMoreChunk(current, until, chunkDays);
      AppendChunk(chunks, since, current, chunkEnd, chunkDays);
      chunks := chunks + [Chunk(current, chunkEnd)];
      current := current + chunkDays;
    }
  }

  // ------------------------------------------------------------- targets

  /** An account seen through a connection. */
  type Access = (string, string)

  function Times(accounts: seq<string>, account: string): nat {
    multiset(accounts)[account]
  }

  /** How often a target lists an account for a connection. */
  function ListedBy(target: Target, p: Access): nat {
    if target.connection == p.0 then Times(target.accounts, p.1) else 0
  }

  function Listed(targets: seq<Target>, p: Access): nat {
    if targets == [] then 0 else Listed(targets[..|targets| - 1], p) + ListedBy(targets[|targets| - 1], p)
  }

  function AccountCount(targets: seq<Target>): nat {
    if targets == [] then 0 else AccountCount(targets[..|targets| - 1]) + |targets[|targets| - 1].accounts|
  }

  ghost predicate DistinctConnections(targets: seq<Target>) {
    forall i, j :: 0 <= i < j < |targets| ==> targets[i].connection != targets[j].connection
  }

  /** The place of a connection in the grouping, or its length. */
  method Find(targets: seq<Target>, connection: string) returns (at: nat)
    ensures at <= |targets|
    ensures at < |targets| ==> targets[at].connection == connection
    ensures at == |targets| ==> forall i :: 0 <= i < |targets| ==> targets[i].connection != connection
  {
    at := 0;
    while at < |targets| && targets[at].connection != connection
      invariant at <= |targets|
      invariant forall i :: 0 <= i < at ==> targets[i].connection != connection
    {
      at := at + 1;
    }
  }

  lemma {:induction false} ListedWithOneMore(targets: seq<Target>, at: nat, account: string, p: Access)
    requires at < |targets|
    ensures var more := targets[at := Target(targets[at].connection, targets[at].accounts + [account])];
            && Listed(more, p) == Listed(targets, p) + (if (targets[at].connection, account) == p then 1 else 0)
            && AccountCount(more) == AccountCount(targets) + 1
  {
    var row := Target(targets[at].connection, targets[at].accounts + [account]);
    var last := |targets| - 1;
    if at == last {
      assert targets[at := row][..last] == targets[..last];
    } else {
      ListedWithOneMore(targets[..last], at, account, p);
      assert targets[at := row][..last] == targets[..last][at := row];
    }
  }

  /** One selected account joins its connection's group, or opens one. */
  method AddTo(targets: seq<Target>, connection: string, account: string) returns (more: seq<Target>)
    requires DistinctConnections(targets)
    ensures DistinctConnections(more)
    ensures forall p :: Listed(more, p) == Listed(targets, p) + (if (connection, account) == p then 1 else 0)
    ensures AccountCount(more) == AccountCount(targets) + 1
  {
    var at := Find(targets, connection);
    if at < |targets| {
      more := targets[at := Target(connection, targets[at].accounts + [account])];
      ListedWithOneMore(targets, at, account, (connection, account));
      forall p {
        ListedWithOneMore(targets, at, account, p);
      }
    } else {
      more := targets + [Target(connection, [account])];
      assert more[..|targets|] == targets;
    }
  }

  /** The selected accounts grouped by connection, in the order the connections first appear. */
  method GroupTargets(selected: seq<Access>) returns (targets: seq<Target>)
    ensures DistinctConnections(targets)
    ensures forall p :: Listed(targets, p) == multiset(selected)[p]
    ensures AccountCount(targets) == |selected|
  {
    targets := [];
    for k := 0 to |selected|
      invariant DistinctConnections(targets)
      invariant forall p :: Listed(targets, p) == multiset(selected[..k])[p]
      invariant AccountCount(targets) == k
    {
      assert selected[..k + 1] == selected[..k] + [selected[k]];
      targets := AddTo(targets, selected[k].0, selected[k].1);
    }
    assert selected[..|selected|] == selected;
  }

  /** How often a request asks for an account: as given with its connection, else as selected. */
  function Requested(connection: string, accountIds: seq<string>, selected: seq<Access>, p: Access): nat {
    if accountIds != [] && connection != "" then ListedBy(Target(connection, accountIds), p) else multiset(selected)[p]
  }

  /**
    Accounts given with a connection are one target; otherwise the selected accounts are
    used, of which there must be one.
   */
  method ResolveTargets(connection: string, accountIds: seq<string>, selected: seq<Access>)
    returns (r: Result<seq<Target>, string>)
    ensures r.Err? <==> (accountIds == [] || connection == "") && selected == []
    ensures r.Ok? ==>
              && DistinctConnections(r.value)
              && forall p :: Listed(r.value, p) == Requested(connection, accountIds, selected, p)
  {
    if accountIds != [] && connection != "" {
      var only := Target(connection, accountIds);
      assert [only][..0] == [];
      return Ok([only]);
    }
    if selected == [] {
      return Err("no account selected");
    }
    var targets := GroupTargets(selected);
    r := Ok(targets);
  }

  // ------------------------------------------------------------- jobs

  function ChunkJobs(connection: string, account: string, chunks: seq<Chunk>): seq<JobDef> {
    if chunks == [] then []
    else
      var last := chunks[|chunks| - 1];
      ChunkJobs(connection, account, chunks[..|chunks| - 1]) + [JobDef(connection, account, last.since, last.until)]
  }

  function AccountJobs(connection: string, accounts: seq<string>, chunks: seq<Chunk>): seq<JobDef> {
    if accounts == [] then []
    else
      AccountJobs(connection, accounts[..|accounts| - 1], chunks)
      + ChunkJobs(connection, accounts[|accounts| - 1], chunks)
  }

  function TargetJobs(targets: seq<Target>, chunks: seq<Chunk>): seq<JobDef> {
    if targets == [] then []
    else
      var last := targets[|targets| - 1];
      TargetJobs(targets[..|targets| - 1], chunks) + AccountJobs(last.connection, last.accounts, chunks)
  }

  /** The three nested loops that define the jobs. */
  method DefineJobs(targets: seq<Target>, chunks: seq<Chunk>) returns (jobs: seq<JobDef>)
    ensures jobs == TargetJobs(targets, chunks)
  {
    jobs := [];
    for t := 0 to |targets|
      invariant jobs == TargetJobs(targets[..t], chunks)
    {
      ghost var before := jobs;
      var target := targets[t];
      for a := 0 to |target.accounts|
        invariant jobs == before + AccountJobs(target.connection, target.accounts[..a], chunks)
      {
        ghost var base := jobs;
        var account := target.accounts[a];
        for c := 0 to |chunks|
          invariant jobs == base + ChunkJobs(target.connection, account, chunks[..c])
        {
          jobs := jobs + [JobDef(target.connection, account, chunks[c].since, chunks[c].until)];
          assert chunks[..c + 1][..c] == chunks[..c];
        }
        assert chunks[..|chunks|] == chunks && target.accounts[..a + 1][..a] == target.accounts[..a];
      }
      assert target.accounts[..|target.accounts|] == target.accounts && targets[..t + 1][..t] == targets[..t];
    }
    assert targets[..|targets|] == targets;
  }

  predicate Covers(job: JobDef, p: Access, day: int) {
    (job.connection, job.account) == p && job.since <= day <= job.until
  }

  /** How many jobs fetch an account's day. */
  function Coverage(jobs: seq<JobDef>, p: Access, day: int): nat {
    if jobs == [] then 0
    else Coverage(jobs[..|jobs| - 1], p, day) + (if Covers(jobs[|jobs| - 1], p, day) then 1 else 0)
  }

  lemma {:induction false} CoverageOfBoth(s: seq<JobDef>, t: seq<JobDef>, p: Access, day: int)
    ensures Coverage(s + t, p, day) == Coverage(s, p, day) + Coverage(t, p, day)
  {
    if t == [] {
      assert s + t == s;
    } else {
      assert (s + t)[..|s + t| - 1] == s + t[..|t| - 1];
      CoverageOfBoth(s, t[..|t| - 1], p, day);
    }
  }

  lemma {:induction false} ChunkCoverage(connection: string, of: string, chunks: seq<Chunk>, p: Access, day: int)
    ensures Coverage(ChunkJobs(connection, of, chunks), p, day) == if (connection, of) == p then Containing(chunks, day)
            else 0
    ensures |ChunkJobs(connection, of, chunks)| == |chunks|
  {
    if chunks != [] {
      var last := chunks[|chunks| - 1];
      ChunkCoverage(connection, of, chunks[..|chunks| - 1], p, day);
      CoverageOfBoth(ChunkJobs(connection, of, chunks[..|chunks| - 1]),
                     [JobDef(connection, of, last.since, last.until)], p, day);
    }
  }

  lemma Distribute(a: int, b: int, c: int)
    ensures (a + b) * c == a * c + b * c
  {
  }

  lemma TimesOneMore(accounts: seq<string>, account: string)
    requires accounts != []
    ensures Times(accounts, account)
            == Times(accounts[..|accounts| - 1], account) + (if accounts[|accounts| - 1] == account then 1 else 0)
  {
    assert accounts == accounts[..|accounts| - 1] + [accounts[|accounts| - 1]];
  }

  lemma {:induction false} AccountCoverage(connection: string, accounts: seq<string>, chunks: seq<Chunk>, p: Access,
                                           day: int)
    ensures Coverage(AccountJobs(connection, accounts, chunks), p, day)
            == ListedBy(Target(connection, accounts), p) * Containing(chunks, day)
  {
    if accounts != [] {
      var rest, last := accounts[..|accounts| - 1], accounts[|accounts| - 1];
      AccountCoverage(connection, rest, chunks, p, day);
      ChunkCoverage(connection, last, chunks, p, day);
      CoverageOfBoth(AccountJobs(connection, rest, chunks), ChunkJobs(connection, last, chunks), p, day);
      TimesOneMore(accounts, p.1);
      Distribute(ListedBy(Target(connection, rest), p), if (connection, last) == p then 1 else 0,
                 Containing(chunks, day));
    }
  }

  lemma {:induction false} AccountJobCount(connection: string, accounts: seq<string>, chunks: seq<Chunk>)
    ensures |AccountJobs(connection, accounts, chunks)| == |accounts| * |chunks|
  {
    if accounts != [] {
      var rest, last := accounts[..|accounts| - 1], accounts[|accounts| - 1];
      AccountJobCount(connection, rest, chunks);
      ChunkCoverage(connection, last, chunks, (connection, last), 0);
      Distribute(|rest|, 1, |chunks|);
    }
  }

  lemma {:induction false} TargetCoverage(targets: seq<Target>, chunks: seq<Chunk>, p: Access, day: int)
    ensures Coverage(TargetJobs(targets, chunks), p, day) == Listed(targets, p) * Containing(chunks, day)
  {
    if targets != [] {
      var rest, last := targets[..|targets| - 1], targets[|targets| - 1];
      TargetCoverage(rest, chunks, p, day);
      AccountCoverage(last.connection, last.accounts, chunks, p, day);
      CoverageOfBoth(TargetJobs(rest, chunks), AccountJobs(last.connection, last.accounts, chunks), p, day);
      Distribute(Listed(rest, p), ListedBy(last, p), Containing(chunks, day));
    }
  }

  /** There are accounts times chunks jobs. */
  lemma {:induction false} JobCount(targets: seq<Target>, chunks: seq<Chunk>)
    ensures |TargetJobs(targets, chunks)| == AccountCount(targets) * |chunks|
  {
    if targets != [] {
      var rest, last := targets[..|targets| - 1], targets[|targets| - 1];
      JobCount(rest, chunks);
      AccountJobCount(last.connection, last.accounts, chunks);
      Distribute(AccountCount(rest), |last.accounts|, |chunks|);
    }
  }

  /**
    A day of the range is fetched for an account by as many jobs as the account is listed,
    so by exactly one when the listed accounts differ; a day outside by none.
   */
  lemma EveryAccountDayOnce(targets: seq<Target>, chunks: seq<Chunk>, since: int, until: int, days: int, p: Access,
                            day: int)
    requires Splits(chunks, since, until, days)
    ensures Coverage(TargetJobs(targets, chunks), p, day) == if since <= day <= until then Listed(targets, p) else 0
  {
    TargetCoverage(targets, chunks, p, day);
    ContainedOnce(chunks, since, days, day);
  }

  /** The planning of a bulk request: the announced total is the number of jobs. */
  method PlanJobs(targets: seq<Target>, since: int, until: int, chunkDays: int)
    returns (jobs: seq<JobDef>, totalJobs: nat)
    requires chunkDays >= 1
    ensures totalJobs == |jobs| == AccountCount(targets) * ChunkCount(since, until, chunkDays)
    ensures forall p, day :: Coverage(jobs, p, day) == if since <= day <= until then Listed(targets, p) else 0
  {
    var chunks := ChunkDateRange(since, until, chunkDays);
    var accounts := 0;
    for t := 0 to |targets|
      invariant accounts == AccountCount(targets[..t])
    {
      accounts := accounts + |targets[t].accounts|;
      assert targets[..t + 1][..t] == targets[..t];
    }
    assert targets[..|targets|] == targets;
    totalJobs := accounts * |chunks|;
    jobs := DefineJobs(targets, chunks);
    JobCount(targets, chunks);
    forall p, day ensures Coverage(jobs, p, day) == if since <= day <= until then Listed(targets, p) else 0 {
      EveryAccountDayOnce(targets, chunks, since, until, chunkDays, p, day);
    }
  }
}
