/**
  The in-memory rate limiter of the authentication endpoints: one counter per key that
  restarts when its window has passed. Times are in milliseconds on one clock.
 */
module RateLimit {

  datatype Bucket = Bucket(count: nat, resetAt: int)

  type Buckets = map<string, Bucket>

  /** One call of check: the key built from action, address and subject, and the limit for it. */
  datatype Check = Check(key: string, limit: int, ttl: int, now: int)

  const CLEANUP_SIZE := 5000

  predicate Live(buckets: Buckets, key: string, now: int) {
    key in buckets && buckets[key].resetAt > now
  }

  /** The bucket after the check has been counted. */
  function Counted(buckets: Buckets, c: Check): Bucket {
    if Live(buckets, c.key, c.now) then Bucket(buckets[c.key].count + 1, buckets[c.key].resetAt)
    else Bucket(1, c.now + c.ttl)
  }

  /** Whole seconds until the bucket restarts, rounded up, at least one. */
  function RetryAfter(resetAt: int, now: int): (seconds: nat)
    ensures seconds >= 1 && now + 1000 * seconds >= resetAt
    ensures resetAt - now > 1000 ==> now + 1000 * (seconds - 1) < resetAt
  {
    var up := (resetAt - now + 999) / 1000;
    if up < 1 then 1 else up
  }

  /** 0 admits the request; any other value is the seconds to wait. */
  function Answer(buckets: Buckets, c: Check): nat {
    if Counted(buckets, c).count <= c.limit then 0 else RetryAfter(Counted(buckets, c).resetAt, c.now)
  }

  function Unexpired(buckets: Buckets, now: int): Buckets {
    map key | key in buckets && buckets[key].resetAt > now :: buckets[key]
  }

  function Cleaned(buckets: Buckets, now: int): Buckets {
    if |buckets| < CLEANUP_SIZE then buckets else Unexpired(buckets, now)
  }

  function Next(buckets: Buckets, c: Check): Buckets {
    Cleaned(buckets[c.key := Counted(buckets, c)], c.now)
  }

  class RateLimiter {
    var buckets: Buckets

    constructor ()
      ensures buckets == map[]
    {
      buckets := map[];
    }

    method Cleanup(now: int)
      modifies this
      ensures buckets == Cleaned(old(buckets), now)
    {
      if |buckets| < CLEANUP_SIZE {
        return;
      }
      ghost var all := buckets;
      var keys := buckets.Keys;
      while keys != {}
        invariant keys <= all.Keys
        invariant forall k :: k in buckets <==> k in all && (k in keys || all[k].resetAt > now)
        invariant forall k :: k in buckets ==> buckets[k] == all[k]
        decreases |keys|
      {
        var key :| key in keys;
        keys := keys - {key};
        if buckets[key].resetAt <= now {
          buckets := buckets - {key};
        }
      }
    }

    method CheckMemory(c: Check) returns (retry: nat)
      modifies this
      ensures retry == Answer(old(buckets), c)
      ensures buckets == Next(old(buckets), c)
    {
      var bucket := if c.key in buckets && buckets[c.key].resetAt > c.now then buckets[c.key]
          else Bucket(0, c.now + c.ttl);
      bucket := Bucket(bucket.count + 1, bucket.resetAt);
      buckets := buckets[c.key := bucket];
      Cleanup(c.now);
      if bucket.count <= c.limit {
        return 0;
      }
      var seconds := (bucket.resetAt - c.now + 999) / 1000;
      retry := if seconds < 1 then 1 else seconds;
    }
  }

  // ------------------------------------------------------------- runs

  ghost predicate Ordered(cs: seq<Check>) {
    forall i, j :: 0 <= i < j < |cs| ==> cs[i].now <= cs[j].now
  }

  function Run(buckets: Buckets, cs: seq<Check>): Buckets {
    if cs == [] then buckets else Next(Run(buckets, cs[..|cs| - 1]), cs[|cs| - 1])
  }

  /** The answer to the last check of a run. */
  function LastAnswer(buckets: Buckets, cs: seq<Check>): nat
    requires cs != []
  {
    Answer(Run(buckets, cs[..|cs| - 1]), cs[|cs| - 1])
  }

  /** The checks of a key admitted at or after from and before to. */
  function Admitted(buckets: Buckets, cs: seq<Check>, key: string, from: int, to: int): nat {
    if cs == [] then 0
    else
      var last := cs[|cs| - 1];
      Admitted(buckets, cs[..|cs| - 1], key, from, to)
      + (if last.key == key && from <= last.now < to && LastAnswer(buckets, cs) == 0 then 1 else 0)
  }

  // ------------------------------------------------------------- cleanup

  /** At a time, both have the same live buckets. */
  ghost predicate SameLive(a: Buckets, b: Buckets, now: int) {
    forall k :: (Live(a, k, now) <==> Live(b, k, now)) && (Live(a, k, now) ==> a[k] == b[k])
  }

  function RunUncleaned(buckets: Buckets, cs: seq<Check>): Buckets {
    if cs == [] then buckets
    else
      var before := RunUncleaned(buckets, cs[..|cs| - 1]);
      before[cs[|cs| - 1].key := Counted(before, cs[|cs| - 1])]
  }

  lemma NextKeepsSame(a: Buckets, b: Buckets, c: Check, now: int)
    requires SameLive(a, b, now) && now <= c.now
    ensures Counted(a, c) == Counted(b, c) && Answer(a, c) == Answer(b, c)
    ensures SameLive(Next(a, c), b[c.key := Counted(b, c)], c.now)
  {
    assert Live(a, c.key, now) <==> Live(b, c.key, now);
  }

  lemma {:induction false} CleanupKeepsLive(buckets: Buckets, cs: seq<Check>, now: int)
    requires Ordered(cs) && forall i :: 0 <= i < |cs| ==> cs[i].now <= now
    ensures SameLive(Run(buckets, cs), RunUncleaned(buckets, cs), now)
  {
    if cs != [] {
      var rest, last := cs[..|cs| - 1], cs[|cs| - 1];
      CleanupKeepsLive(buckets, rest, last.now);
      NextKeepsSame(Run(buckets, rest), RunUncleaned(buckets, rest), last, last.now);
    }
  }

  /** On a clock that does not go back, cleanup changes no answer. */
  lemma CleanupIsInvisible(buckets: Buckets, cs: seq<Check>)
    requires Ordered(cs) && cs != []
    ensures LastAnswer(buckets, cs) == Answer(RunUncleaned(buckets, cs[..|cs| - 1]), cs[|cs| - 1])
  {
    var rest, last := cs[..|cs| - 1], cs[|cs| - 1];
    CleanupKeepsLive(buckets, rest, last.now);
    NextKeepsSame(Run(buckets, rest), RunUncleaned(buckets, rest), last, last.now);
  }

  // ------------------------------------------------------------- how much a window admits

  /** All checks of the key use this limit and window. */
  ghost predicate Uniform(cs: seq<Check>, key: string, limit: int, ttl: int) {
    forall i :: 0 <= i < |cs| && cs[i].key == key ==> cs[i].limit == limit && cs[i].ttl == ttl
  }

  function Min(a: int, b: int): int {
    if a < b then a else b
  }

  /**
    What a live bucket says of the admissions in a window that starts at from: one opened
    before the window has spent its first admission earlier; one opened inside outlives it.
   */
  ghost predicate Accounted(buckets: Buckets, key: string, limit: int, ttl: int, from: int, now: int, admitted: int) {
    if !Live(buckets, key, now) then admitted <= limit - 1
    else
      && buckets[key].count >= 1
      && if buckets[key].resetAt < from + ttl then admitted <= Min(buckets[key].count, limit) - 1
         else admitted <= limit - 1 + Min(buckets[key].count, limit)
  }

  lemma OtherKeyStays(buckets: Buckets, c: Check, key: string)
    requires c.key != key
    ensures Live(Next(buckets, c), key, c.now) <==> Live(buckets, key, c.now)
    ensures Live(buckets, key, c.now) ==> Next(buckets, c)[key] == buckets[key]
  {
  }

  lemma OwnKey(buckets: Buckets, c: Check)
    requires c.ttl > 0
    ensures Live(Next(buckets, c), c.key, c.now) && Next(buckets, c)[c.key] == Counted(buckets, c)
  {
  }

  lemma {:induction false} NoneAdmittedBefore(buckets: Buckets, cs: seq<Check>, key: string, from: int, to: int)
    requires forall i :: 0 <= i < |cs| ==> cs[i].now < from
    ensures Admitted(buckets, cs, key, from, to) == 0
  {
    if cs != [] { NoneAdmittedBefore(buckets, cs[..|cs| - 1], key, from, to); }
  }

  /** One more check of the key, inside the window or before it, keeps the account. */
  lemma AccountOwnCheck(buckets: Buckets, c: Check, limit: int, ttl: int, from: int, before: int, admitted: int)
    requires ttl > 0 && limit >= 1 && c.limit == limit && c.ttl == ttl && before <= c.now < from + ttl
    requires Accounted(buckets, c.key, limit, ttl, from, before, admitted) && (c.now < from ==> admitted == 0)
    ensures Accounted(Next(buckets, c), c.key, limit, ttl, from, c.now,
                      admitted + (if from <= c.now && Answer(buckets, c) == 0 then 1 else 0))
  {
    OwnKey(buckets, c);
  }

  lemma AccountOtherCheck(buckets: Buckets, c: Check, key: string, limit: int, ttl: int, from: int, before: int,
                          admitted: int)
    requires limit >= 1 && c.key != key && before <= c.now < from + ttl
    requires Accounted(buckets, key, limit, ttl, from, before, admitted)
    ensures Accounted(Next(buckets, c), key, limit, ttl, from, c.now, admitted)
  {
    OtherKeyStays(buckets, c, key);
  }

  lemma {:induction false} WindowAccount(cs: seq<Check>, key: string, limit: int, ttl: int, from: int, now: int)
    requires Ordered(cs) && Uniform(cs, key, limit, ttl) && ttl > 0 && limit >= 1
    requires now < from + ttl && if cs == [] then true else cs[|cs| - 1].now == now
    ensures Accounted(Run(map[], cs), key, limit, ttl, from, now, Admitted(map[], cs, key, from, from + ttl))
  {
    if cs != [] {
      var rest, last := cs[..|cs| - 1], cs[|cs| - 1];
      var before := if rest == [] then now else rest[|rest| - 1].now;
      WindowAccount(rest, key, limit, ttl, from, before);
      if last.key == key {
        if now < from { NoneAdmittedBefore(map[], rest, key, from, from + ttl); }
        AccountOwnCheck(Run(map[], rest), last, limit, ttl, from, before, Admitted(map[], rest, key, from, from + ttl));
      } else {
        AccountOtherCheck(Run(map[], rest), last, key, limit, ttl, from, before,
                          Admitted(map[], rest, key, from, from + ttl));
      }
    }
  }

  lemma {:induction false} NoneAdmittedWithoutLimit(buckets: Buckets, cs: seq<Check>, key: string, limit: int, ttl: int,
                                                    from: int, to: int)
    requires Uniform(cs, key, limit, ttl) && limit <= 0
    ensures Admitted(buckets, cs, key, from, to) == 0
  {
    if cs != [] { NoneAdmittedWithoutLimit(buckets, cs[..|cs| - 1], key, limit, ttl, from, to); }
  }

  /** Any interval as long as the window admits at most 2 * limit - 1 checks of a key, whatever other keys do. */
  lemma {:induction false} IntervalBound(cs: seq<Check>, key: string, limit: int, ttl: int, from: int)
    requires Ordered(cs) && Uniform(cs, key, limit, ttl) && ttl > 0
    ensures Admitted(map[], cs, key, from, from + ttl) <= if limit <= 0 then 0 else 2 * limit - 1
  {
    if limit <= 0 {
      NoneAdmittedWithoutLimit(map[], cs, key, limit, ttl, from, from + ttl);
    } else if cs != [] {
      var last := cs[|cs| - 1];
      if last.now < from + ttl {
        WindowAccount(cs, key, limit, ttl, from, last.now);
      } else {
        IntervalBound(cs[..|cs| - 1], key, limit, ttl, from);
      }
    }
  }

  lemma RunOneMore(buckets: Buckets, cs: seq<Check>, c: Check, from: int, to: int)
    ensures Run(buckets, cs + [c]) == Next(Run(buckets, cs), c)
    ensures Admitted(buckets, cs + [c], c.key, from, to)
            == Admitted(buckets, cs, c.key, from, to)
               + (if from <= c.now < to && Answer(Run(buckets, cs), c) == 0 then 1 else 0)
  {
    assert (cs + [c])[..|cs|] == cs;
  }

  function Repeated(c: Check, n: nat): seq<Check> {
    if n == 0 then [] else Repeated(c, n - 1) + [c]
  }

  lemma {:induction false} RepeatedAre(c: Check, n: nat)
    ensures |Repeated(c, n)| == n && forall i :: 0 <= i < n ==> Repeated(c, n)[i] == c
  {
    if n > 0 { RepeatedAre(c, n - 1); }
  }

  /** After a run the key has this bucket, and so many checks were admitted in [1, ttl + 1). */
  ghost predicate Stands(cs: seq<Check>, key: string, ttl: int, bucket: Bucket, admitted: nat) {
    Run(map[], cs) == map[key := bucket] && Admitted(map[], cs, key, 1, ttl + 1) == admitted
  }

  lemma StandsMore(cs: seq<Check>, c: Check, bucket: Bucket, admitted: nat)
    requires Stands(cs, c.key, c.ttl, bucket, admitted) && 1 <= c.now < c.ttl + 1
    requires bucket.resetAt > c.now && bucket.count < c.limit
    ensures Stands(cs + [c], c.key, c.ttl, Bucket(bucket.count + 1, bucket.resetAt), admitted + 1)
  {
    RunOneMore(map[], cs, c, 1, c.ttl + 1);
  }

  lemma StandsRestarted(cs: seq<Check>, c: Check, bucket: Bucket, admitted: nat)
    requires Stands(cs, c.key, c.ttl, bucket, admitted) && 1 <= c.now < c.ttl + 1
    requires bucket.resetAt <= c.now && c.limit >= 1
    ensures Stands(cs + [c], c.key, c.ttl, Bucket(1, c.now + c.ttl), admitted + 1)
  {
    RunOneMore(map[], cs, c, 1, c.ttl + 1);
  }

  lemma RepeatedFromFront(cs: seq<Check>, c: Check, n: nat)
    requires n > 0
    ensures (cs + [c]) + Repeated(c, n - 1) == cs + Repeated(c, n)
  {
    RepeatedAre(c, n);
    RepeatedAre(c, n - 1);
  }

  /** n checks at one instant, for which the live bucket has room. */
  lemma {:induction false} AdmitRepeatedly(cs: seq<Check>, c: Check, n: nat, bucket: Bucket, admitted: nat)
    requires Stands(cs, c.key, c.ttl, bucket, admitted) && 1 <= c.now < c.ttl + 1
    requires bucket.resetAt > c.now && bucket.count + n <= c.limit
    ensures Stands(cs + Repeated(c, n), c.key, c.ttl, Bucket(bucket.count + n, bucket.resetAt), admitted + n)
    decreases n
  {
    if n == 0 {
      assert cs + Repeated(c, 0) == cs;
    } else {
      StandsMore(cs, c, bucket, admitted);
      AdmitRepeatedly(cs + [c], c, n - 1, Bucket(bucket.count + 1, bucket.resetAt), admitted + 1);
      RepeatedFromFront(cs, c, n);
    }
  }

  /** One check opens a window, limit - 1 come just before it ends, limit when it has ended. */
  function Burst(key: string, limit: nat, ttl: int): seq<Check>
    requires limit >= 1
  {
    [Check(key, limit, ttl, 0)] + Repeated(Check(key, limit, ttl, ttl - 1), limit - 1)
    + [Check(key, limit, ttl, ttl)] + Repeated(Check(key, limit, ttl, ttl), limit - 1)
  }

  lemma BurstIsARun(key: string, limit: nat, ttl: int)
    requires limit >= 1 && ttl >= 2
    ensures Ordered(Burst(key, limit, ttl)) && Uniform(Burst(key, limit, ttl), key, limit, ttl)
  {
    RepeatedAre(Check(key, limit, ttl, ttl - 1), limit - 1);
    RepeatedAre(Check(key, limit, ttl, ttl), limit - 1);
  }

  lemma FirstStands(c: Check)
    requires c.now == 0 && c.ttl > 0
    ensures Stands([c], c.key, c.ttl, Bucket(1, c.ttl), 0)
  {
    RunOneMore(map[], [], c, 1, c.ttl + 1);
    assert [] + [c] == [c];
  }

  /** The bound is reached for every limit: a burst around the end of a window has 2 * limit - 1 checks admitted. */
  lemma BoundIsReached(key: string, limit: nat, ttl: int)
    requires limit >= 1 && ttl >= 2
    ensures Ordered(Burst(key, limit, ttl)) && Uniform(Burst(key, limit, ttl), key, limit, ttl)
    ensures Admitted(map[], Burst(key, limit, ttl), key, 1, ttl + 1) == 2 * limit - 1
  {
    var open, early, late := Check(key, limit, ttl, 0), Check(key, limit, ttl, ttl - 1), Check(key, limit, ttl, ttl);
    BurstIsARun(key, limit, ttl);
    FirstStands(open);
    AdmitRepeatedly([open], early, limit - 1, Bucket(1, ttl), 0);
    var first := [open] + Repeated(early, limit - 1);
    StandsRestarted(first, late, Bucket(limit, ttl), limit - 1);
    AdmitRepeatedly(first + [late], late, limit - 1, Bucket(1, ttl + ttl), limit);
  }

  // ------------------------------------------------------------- waiting as told

  /** The key's bucket is the one that restarts at reset, kept at least until then. */
  ghost predicate Restarts(buckets: Buckets, key: string, reset: int, now: int) {
    && (now < reset ==> key in buckets)
    && (key in buckets ==> buckets[key].resetAt == reset)
  }

  lemma {:induction false} BucketWaits(buckets: Buckets, cs: seq<Check>, key: string, reset: int, from: int, now: int)
    requires Restarts(buckets, key, reset, from) && Ordered(cs)
    requires forall i :: 0 <= i < |cs| ==> from <= cs[i].now <= now && (cs[i].key == key ==> cs[i].now < reset)
    requires from <= now
    ensures Restarts(Run(buckets, cs), key, reset, now)
  {
    if cs != [] {
      BucketWaits(buckets, cs[..|cs| - 1], key, reset, from, cs[|cs| - 1].now);
    }
  }

  /**
    A refused caller who comes back after the seconds it was given is admitted, when nobody
    has checked the key since the bucket's restart.
   */
  lemma RetryIsAdmitted(buckets: Buckets, c: Check, cs: seq<Check>, later: Check)
    requires Answer(buckets, c) > 0 && Ordered(cs)
    requires forall i :: 0 <= i < |cs| ==> c.now <= cs[i].now <= later.now
    requires forall i :: 0 <= i < |cs| && cs[i].key == c.key ==> cs[i].now < Counted(buckets, c).resetAt
    requires later.key == c.key && later.limit >= 1 && later.now >= c.now + 1000 * Answer(buckets, c)
    ensures Answer(Run(Next(buckets, c), cs), later) == 0
  {
    BucketWaits(Next(buckets, c), cs, c.key, Counted(buckets, c).resetAt, c.now, later.now);
  }
}
