/**
  The lockout of an email after ten failed logins. An attempt reads the clock twice: when
  it checks the lock, and when it registers its failure or success. Times are in
  milliseconds; attempts follow one another.
 */
module LoginThrottle {
  import opened Options

  const WINDOW := 900000
  const MAX_FAILURES := 10

  datatype Attempt = Attempt(count: nat, first: int, lockedUntil: Option<int>)

  type Attempts = map<string, Attempt>

  /** A login request: whether user and password are right, and the two clock readings. */
  datatype Login = Login(email: string, valid: bool, at: int, done: int)

  datatype Outcome = Locked | Failed | LoggedIn

  // ------------------------------------------------------------- one login

  predicate IsLocked(m: Attempts, email: string, now: int) {
    email in m && m[email].lockedUntil.Some? && m[email].lockedUntil.value > now
  }

  /** An expired lock is forgotten, together with its count. */
  function Checked(m: Attempts, email: string, now: int): Attempts {
    if email in m && m[email].lockedUntil.Some? && m[email].lockedUntil.value <= now then m - {email} else m
  }

  /** One more failure in the current counting window, or the first of a new one. */
  function Failure(m: Attempts, email: string, now: int): Attempt {
    var attempt := if email !in m || now - m[email].first > WINDOW then Attempt(0, now, None) else m[email];
    var count := attempt.count + 1;
    Attempt(count, attempt.first, if count >= MAX_FAILURES then Some(now + WINDOW) else attempt.lockedUntil)
  }

  function Outcomes(m: Attempts, l: Login): Outcome {
    if IsLocked(m, l.email, l.at) then Locked else if l.valid then LoggedIn else Failed
  }

  function Next(m: Attempts, l: Login): Attempts {
    match Outcomes(m, l)
    case Locked => m
    case LoggedIn => m - {l.email}
    case Failed => m[l.email := Failure(Checked(m, l.email, l.at), l.email, l.done)]
  }

  class AuthService {
    var failedAttempts: Attempts

    constructor ()
      ensures failedAttempts == map[]
    {
      failedAttempts := map[];
    }

    method AssertNotLocked(email: string, now: int) returns (locked: bool)
      modifies this
      ensures locked == IsLocked(old(failedAttempts), email, now)
      ensures failedAttempts == Checked(old(failedAttempts), email, now)
    {
      if email !in failedAttempts || failedAttempts[email].lockedUntil.None? {
        return false;
      }
      if failedAttempts[email].lockedUntil.value <= now {
        failedAttempts := failedAttempts - {email};
        return false;
      }
      locked := true;
    }

    method RegisterFailure(email: string, now: int)
      modifies this
      ensures failedAttempts == old(failedAttempts)[email := Failure(old(failedAttempts), email, now)]
    {
      var attempt := Attempt(0, now, None);
      if email in failedAttempts && now - failedAttempts[email].first <= WINDOW {
        attempt := failedAttempts[email];
      }
      attempt := attempt.(count := attempt.count + 1);
      if attempt.count >= MAX_FAILURES {
        attempt := attempt.(lockedUntil := Some(now + WINDOW));
      }
      failedAttempts := failedAttempts[email := attempt];
    }

    method TryLogin(l: Login) returns (outcome: Outcome)
      modifies this
      ensures outcome == Outcomes(old(failedAttempts), l)
      ensures failedAttempts == Next(old(failedAttempts), l)
    {
      var locked := AssertNotLocked(l.email, l.at);
      if locked {
        return Locked;
      }
      if !l.valid {
        RegisterFailure(l.email, l.done);
        return Failed;
      }
      failedAttempts := failedAttempts - {l.email};
      outcome := LoggedIn;
    }
  }

  // ------------------------------------------------------------- runs

  /** Attempts follow one another. */
  ghost predicate Sequential(ls: seq<Login>) {
    && (forall i :: 0 <= i < |ls| ==> ls[i].at <= ls[i].done)
    && (forall i, j :: 0 <= i < j < |ls| ==> ls[i].done <= ls[j].at)
  }

  function Run(m: Attempts, ls: seq<Login>): Attempts {
    if ls == [] then m else Next(Run(m, ls[..|ls| - 1]), ls[|ls| - 1])
  }

  /** The attempts of an email that end as said, registered at or after from and before to. */
  function Ending(m: Attempts, ls: seq<Login>, email: string, outcome: Outcome, from: int, to: int): nat {
    if ls == [] then 0
    else
      var rest, last := ls[..|ls| - 1], ls[|ls| - 1];
      Ending(m, rest, email, outcome, from, to)
      + (if last.email == email && from <= last.done < to && Outcomes(Run(m, rest), last) == outcome then 1 else 0)
  }

  // ------------------------------------------------------------- a lock holds

  lemma {:induction false} LockHolds(m: Attempts, ls: seq<Login>, email: string, until: int, outcome: Outcome,
                                     from: int, to: int)
    requires email in m && m[email].lockedUntil == Some(until)
    requires forall i :: 0 <= i < |ls| ==> ls[i].at < until
    requires outcome != Locked
    ensures email in Run(m, ls) && Run(m, ls)[email] == m[email]
    ensures Ending(m, ls, email, outcome, from, to) == 0
  {
    if ls != [] {
      LockHolds(m, ls[..|ls| - 1], email, until, outcome, from, to);
    }
  }

  /** A failure that makes ten keeps the email from failing, or succeeding, until fifteen minutes later. */
  lemma TenthFailureLocks(m: Attempts, l: Login, ls: seq<Login>, outcome: Outcome, from: int, to: int)
    requires Outcomes(m, l) == Failed && Failure(Checked(m, l.email, l.at), l.email, l.done).count >= MAX_FAILURES
    requires forall i :: 0 <= i < |ls| ==> ls[i].at < l.done + WINDOW
    requires outcome != Locked
    ensures Ending(Next(m, l), ls, l.email, outcome, from, to) == 0
  {
    LockHolds(Next(m, l), ls, l.email, l.done + WINDOW, outcome, from, to);
  }

  // ------------------------------------------------------------- how many failures fit in fifteen minutes

  /**
    What an email's entry says of the failures in a window that starts at from: a counting
    window opened before has spent one failure earlier; one opened inside lasts to the end;
    a lock set inside holds to the end.
   */
  ghost predicate Accounted(m: Attempts, email: string, from: int, failures: int) {
    if email !in m then failures == 0
    else
      var a := m[email];
      && (a.lockedUntil.Some? <==> a.count >= MAX_FAILURES) && 1 <= a.count <= MAX_FAILURES
      && (a.first < from ==> failures <= a.count - 1)
      && (a.first >= from ==> failures <= MAX_FAILURES - 2 + a.count)
      && (a.lockedUntil.Some? && failures > 0 ==> a.lockedUntil.value >= from + WINDOW)
  }

  /** Nothing is registered for an email by attempts before the window. */
  lemma {:induction false} NoneBefore(m: Attempts, ls: seq<Login>, email: string, outcome: Outcome, from: int, to: int)
    requires forall i :: 0 <= i < |ls| ==> ls[i].done < from
    ensures Ending(m, ls, email, outcome, from, to) == 0
  {
    if ls != [] { NoneBefore(m, ls[..|ls| - 1], email, outcome, from, to); }
  }

  lemma AccountFailure(m: Attempts, l: Login, from: int, failures: int)
    requires Accounted(m, l.email, from, failures) && Outcomes(m, l) == Failed
    requires l.at <= l.done < from + WINDOW && (l.done < from ==> failures == 0)
    ensures Accounted(Next(m, l), l.email, from, failures + (if from <= l.done then 1 else 0))
  {
  }

  lemma {:induction false} WindowAccount(ls: seq<Login>, email: string, from: int)
    requires Sequential(ls) && forall i :: 0 <= i < |ls| ==> ls[i].done < from + WINDOW
    requires Ending(map[], ls, email, LoggedIn, from, from + WINDOW) == 0
    ensures Accounted(Run(map[], ls), email, from, Ending(map[], ls, email, Failed, from, from + WINDOW))
  {
    if ls != [] {
      var rest, last := ls[..|ls| - 1], ls[|ls| - 1];
      WindowAccount(rest, email, from);
      if last.email == email {
        if last.done < from { NoneBefore(map[], rest, email, Failed, from, from + WINDOW); }
        if Outcomes(Run(map[], rest), last) == Failed {
          AccountFailure(Run(map[], rest), last, from, Ending(map[], rest, email, Failed, from, from + WINDOW));
        }
      }
    }
  }

  /** Fifteen minutes without a successful login of an email register at most 18 failures for it. */
  lemma {:induction false} AtMostEighteen(ls: seq<Login>, email: string, from: int)
    requires Sequential(ls) && Ending(map[], ls, email, LoggedIn, from, from + WINDOW) == 0
    ensures Ending(map[], ls, email, Failed, from, from + WINDOW) <= 18
  {
    if ls != [] {
      if ls[|ls| - 1].done < from + WINDOW {
        WindowAccount(ls, email, from);
      } else {
        AtMostEighteen(ls[..|ls| - 1], email, from);
      }
    }
  }

  // ------------------------------------------------------------- the bound is reached

  function Repeated(l: Login, n: nat): seq<Login> {
    if n == 0 then [] else Repeated(l, n - 1) + [l]
  }

  /** After a run the email's window stands at a count, and so many failures fall into [WINDOW, 2 * WINDOW). */
  ghost predicate Stands(ls: seq<Login>, email: string, count: nat, first: int, failures: nat) {
    Run(map[], ls) == map[email := Attempt(count, first, if count >= MAX_FAILURES then Some(first + WINDOW) else None)]
    && Ending(map[], ls, email, Failed, WINDOW, 2 * WINDOW) == failures
  }

  lemma OneMore(ls: seq<Login>, l: Login)
    ensures Run(map[], ls + [l]) == Next(Run(map[], ls), l)
    ensures Ending(map[], ls + [l], l.email, Failed, WINDOW, 2 * WINDOW)
            == Ending(map[], ls, l.email, Failed, WINDOW, 2 * WINDOW)
               + (if WINDOW <= l.done < 2 * WINDOW && Outcomes(Run(map[], ls), l) == Failed then 1 else 0)
  {
    assert (ls + [l])[..|ls|] == ls;
  }

  lemma StandsMore(ls: seq<Login>, l: Login, count: nat, first: int, failures: nat)
    requires !l.valid && l.at == l.done && WINDOW <= l.done < 2 * WINDOW && 0 <= l.done - first <= WINDOW
    requires 1 <= count < MAX_FAILURES - 1 || (count == MAX_FAILURES - 1 && l.done == first)
    requires Stands(ls, l.email, count, first, failures)
    ensures Stands(ls + [l], l.email, count + 1, first, failures + 1)
  {
    OneMore(ls, l);
  }

  lemma StandsRestarted(ls: seq<Login>, l: Login, count: nat, first: int, failures: nat)
    requires !l.valid && l.at == l.done && WINDOW <= l.done < 2 * WINDOW && l.done - first > WINDOW
             && count < MAX_FAILURES
    requires Stands(ls, l.email, count, first, failures)
    ensures Stands(ls + [l], l.email, 1, l.done, failures + 1)
  {
    OneMore(ls, l);
  }

  lemma RepeatedMore(ls: seq<Login>, l: Login, n: nat)
    requires n > 0
    ensures ls + Repeated(l, n) == (ls + Repeated(l, n - 1)) + [l]
  {
  }

  /** What one more login turns from c and f into c + 1 and f + 1, n of them turn into c + n and f + n. */
  lemma {:induction false} CountUp(S: (seq<Login>, int, int) -> bool, ls: seq<Login>, l: Login, n: nat, c: int, f: int,
                                   limit: int)
    requires S(ls, c, f) && c + n <= limit
    requires forall t: seq<Login>, x: int, y: int :: c <= x < limit && S(t, x, y) ==> S(t + [l], x + 1, y + 1)
    ensures S(ls + Repeated(l, n), c + n, f + n)
  {
    if n == 0 {
      assert ls + Repeated(l, 0) == ls;
    } else {
      CountUp(S, ls, l, n - 1, c, f, limit);
      RepeatedMore(ls, l, n);
    }
  }

  /** n failures at one instant, in a counting window that has room for them. */
  lemma FailRepeatedly(ls: seq<Login>, l: Login, n: nat, count: nat, first: int, failures: nat)
    requires !l.valid && l.at == l.done && WINDOW <= l.done < 2 * WINDOW && 0 <= l.done - first <= WINDOW
    requires 1 <= count && count + n < MAX_FAILURES && Stands(ls, l.email, count, first, failures)
    ensures Stands(ls + Repeated(l, n), l.email, count + n, first, failures + n)
  {
    var S := (t: seq<Login>, c: int, f: int) => c >= 0 && f >= 0 && Stands(t, l.email, c, first, f);
    forall t: seq<Login>, c: int, f: int | count <= c < MAX_FAILURES - 1 && S(t, c, f)
      ensures S(t + [l], c + 1, f + 1)
    {
      StandsMore(t, l, c, first, f);
    }
    CountUp(S, ls, l, n, count, failures, MAX_FAILURES - 1);
  }

  function Bad(now: int): Login {
    Login("e", false, now, now)
  }

  /** One failure, eight when its window is about to end, and ten just after it has ended. */
  function Nineteen(): seq<Login> {
    [Bad(0)] + Repeated(Bad(WINDOW), 8) + [Bad(WINDOW + 1)] + Repeated(Bad(WINDOW + 1), 8) + [Bad(WINDOW + 1)]
  }

  lemma FirstStands()
    ensures Stands([Bad(0)], "e", 1, 0, 0)
  {
    OneMore([], Bad(0));
    assert [] + [Bad(0)] == [Bad(0)];
  }

  lemma NineteenStand(n: nat)
    requires n == MAX_FAILURES - 2
    ensures var early, late := Bad(WINDOW), Bad(WINDOW + 1);
            Stands([Bad(0)] + Repeated(early, n) + [late] + Repeated(late, n) + [late], "e", n + 2, WINDOW + 1,
                   2 * n + 2)
  {
    var early, late := Bad(WINDOW), Bad(WINDOW + 1);
    FirstStands();
    var a := [Bad(0)] + Repeated(early, n);
    FailRepeatedly([Bad(0)], early, n, 1, 0, 0);
    StandsRestarted(a, late, n + 1, 0, n);
    FailRepeatedly(a + [late], late, n, 1, WINDOW + 1, n + 1);
    StandsMore(a + [late] + Repeated(late, n), late, n + 1, WINDOW + 1, 2 * n + 1);
  }

  lemma {:induction false} RepeatedAre(l: Login, n: nat)
    ensures |Repeated(l, n)| == n && forall i :: 0 <= i < n ==> Repeated(l, n)[i] == l
  {
    if n > 0 { RepeatedAre(l, n - 1); }
  }

  /** They follow one another. */
  lemma NineteenIsSequential()
    ensures Sequential(Nineteen())
  {
    RepeatedAre(Bad(WINDOW), 8);
    RepeatedAre(Bad(WINDOW + 1), 8);
  }

  /** The bound is reached: eighteen of these failures, one after the other, are registered within fifteen minutes. */
  lemma EighteenIsReached()
    ensures Sequential(Nineteen())
    ensures Ending(map[], Nineteen(), "e", Failed, WINDOW, 2 * WINDOW) == 18
  {
    NineteenIsSequential();
    NineteenStand(8);
  }
}
