/** How often a password can be guessed: the lockout counter and its rate bound over whole histories. */
module LoginLockout {
  import opened Options
  import opened TokenRows
  import opened Accounts

  /** What happens to one account, one after the other. */
  datatype Event =
    | Try(valid: bool, at: Time)
    | Reset(hash: string, verifiedAt: Option<Time>, at: Time)
    | Edit(status: Status, emailVerifiedAt: Option<Time>, at: Time)  // verification or an administrator

  datatype Entry =
    | Wrong(at: Time, locks: bool)   // the password was checked and was wrong
    | Cleared(at: Time)              // a successful login or a reset
    | Nothing(at: Time)              // refused without a wrong password, or an edit

  predicate Checked(u: User, now: Time) {
    u.passwordHash.Some? && !Locked(u, now)
  }

  function Record(u: User, e: Event, policy: Policy): Entry {
    match e
    case Try(valid, at) =>
      if Checked(u, at) && !valid then Wrong(at, policy.maxFailed <= u.failedLoginCount + 1)
      else if Attempt(u, valid, at, policy).1.LoggedIn? then Cleared(at)
      else Nothing(at)
    case Reset(_, _, at) => Cleared(at)
    case Edit(_, _, at) => Nothing(at)
  }

  function After(u: User, e: Event, policy: Policy): User {
    match e
    case Try(valid, at) => Attempt(u, valid, at, policy).0
    case Reset(hash, verifiedAt, _) => ResetRow(u, hash, verifiedAt)
    case Edit(status, verifiedAt, _) => u.(status := status, emailVerifiedAt := verifiedAt)
  }

  function Log(u: User, events: seq<Event>, policy: Policy): seq<Entry>
    decreases |events|
  {
    if events == [] then [] else [Record(u, events[0], policy)] + Log(After(u, events[0], policy), events[1..], policy)
  }

  function Final(u: User, events: seq<Event>, policy: Policy): User
    decreases |events|
  {
    if events == [] then u else Final(After(u, events[0], policy), events[1..], policy)
  }

  /** Verification and administration leave the lockout alone; a reset lifts it. */
  lemma OtherEvents(u: User, policy: Policy, status: Status, verifiedAt: Option<Time>, hash: string, at: Time)
    ensures After(u, Edit(status, verifiedAt, at), policy) == u.(status := status, emailVerifiedAt := verifiedAt)
    ensures After(u, Reset(hash, verifiedAt, at), policy) ==
            u.(passwordHash := Some(hash), emailVerifiedAt := verifiedAt, failedLoginCount := 0, lockedUntil := None)
  {}

  // ---------------------------------------------------------------- the counter

  /** Wrong attempts since the last success, reset or lock. */
  function Pending(log: seq<Entry>): nat {
    if log == [] then 0
    else
      match log[|log| - 1]
      case Wrong(_, locks) => if locks then 0 else Pending(log[..|log| - 1]) + 1
      case Cleared(_) => 0
      case Nothing(_) => Pending(log[..|log| - 1])
  }

  lemma {:induction false} LogSnoc(u: User, events: seq<Event>, e: Event, policy: Policy)
    ensures Log(u, events + [e], policy) == Log(u, events, policy) + [Record(Final(u, events, policy), e, policy)]
    ensures Final(u, events + [e], policy) == After(Final(u, events, policy), e, policy)
    decreases |events|
  {
    if events == [] {
      assert (events + [e])[1..] == [];
    } else {
      assert (events + [e])[1..] == events[1..] + [e];
      LogSnoc(After(u, events[0], policy), events[1..], e, policy);
    }
  }

  /**
    The stored counter is the number of wrong attempts since the last success, reset or lock, and stays
    below the maximum.
  */
  lemma {:induction false} CounterCountsPending(u: User, events: seq<Event>, policy: Policy)
    requires Sound(policy) && u.failedLoginCount == 0
    ensures Final(u, events, policy).failedLoginCount == Pending(Log(u, events, policy)) < policy.maxFailed
  {
    if events != [] {
      var before := events[..|events| - 1];
      var e := events[|events| - 1];
      assert events == before + [e];
      CounterCountsPending(u, before, policy);
      LogSnoc(u, before, e, policy);
      var log := Log(u, before, policy);
      var entry := Record(Final(u, before, policy), e, policy);
      assert (log + [entry])[..|log|] == log;
    }
  }

  // ---------------------------------------------------------------- the rate

  predicate InTimeOrder(events: seq<Event>, now: Time) {
    events == [] || (now <= events[0].at && InTimeOrder(events[1..], events[0].at))
  }

  predicate In(e: Entry, lo: Time, hi: Time) {
    lo <= e.at <= hi
  }

  /** Wrong-password checks in the window [lo, hi]. */
  function WrongIn(log: seq<Entry>, lo: Time, hi: Time): nat {
    if log == [] then 0 else (if log[0].Wrong? && In(log[0], lo, hi) then 1 else 0) + WrongIn(log[1..], lo, hi)
  }

  predicate NoClearingIn(log: seq<Entry>, lo: Time, hi: Time) {
    forall e <- log :: e.Cleared? ==> !In(e, lo, hi)
  }

  /** Whole lockouts that fit between `from` and `hi`, plus the one group that is always possible. */
  function Groups(from: Time, hi: Time, length: int): nat
    requires length > 0
  {
    if hi < from then 0 else (hi - from) / length + 1
  }

  lemma GroupsShrink(from: Time, later: Time, hi: Time, length: int)
    requires length > 0 && from <= later
    ensures Groups(later, hi, length) <= Groups(from, hi, length)
  {
    if later <= hi { QuotientGrows(hi - later, hi - from, length); }
  }

  lemma QuotientIs(x: int, length: int, q: int, r: int)
    requires length > 0 && x == length * q + r && 0 <= r < length
    ensures x / length == q
  {
    if x / length < q {
      Product(length, x / length + 1, q);
    } else if q < x / length {
      Product(length, q + 1, x / length);
    }
  }

  lemma QuotientStep(x: int, length: int)
    requires length > 0
    ensures (x + length) / length == x / length + 1
  {
    assert length * (x / length + 1) == length * (x / length) + length;
    QuotientIs(x + length, length, x / length + 1, x % length);
  }

  lemma QuotientGrows(x: int, y: int, length: int)
    requires length > 0 && x <= y
    ensures x / length <= y / length
  {
    if y / length < x / length { Product(length, y / length + 1, x / length); }
  }

  lemma GroupsAfterLock(from: Time, hi: Time, length: int)
    requires length > 0 && from <= hi
    ensures Groups(from + length, hi, length) + 1 == Groups(from, hi, length)
  {
    if from + length <= hi {
      QuotientStep(hi - from - length, length);
    } else {
      QuotientIs(hi - from, length, 0, hi - from);
    }
  }

  /** The earliest time at which the row lets a password be checked. */
  function Opens(u: User, now: Time): Time {
    if Locked(u, now) then u.lockedUntil.value else now
  }

  /**
    What is left of the window from `now` on: one full group per lockout, less what the counter already
    holds.
  */
  function Allowance(u: User, now: Time, hi: Time, policy: Policy): (n: nat)
    requires Sound(policy) && u.failedLoginCount < policy.maxFailed
  {
    var groups := Groups(Opens(u, now), hi, LockLength(policy));
    AtLeastOne(policy.maxFailed, groups);
    if groups == 0 then 0 else policy.maxFailed * groups - u.failedLoginCount
  }

  lemma AtLeastOne(max: nat, groups: nat)
    ensures groups > 0 ==> max <= max * groups
  {
    if groups > 0 { Product(max, 1, groups); }
  }

  lemma Product(m: int, a: int, b: int)
    requires 0 <= m && a <= b
    ensures m * a <= m * b
  {}

  lemma AllowanceShrinks(u: User, now: Time, later: Time, hi: Time, policy: Policy)
    requires Sound(policy) && u.failedLoginCount < policy.maxFailed && now <= later
    ensures Allowance(u, later, hi, policy) <= Allowance(u, now, hi, policy)
  {
    var length := LockLength(policy);
    GroupsShrink(Opens(u, now), Opens(u, later), hi, length);
    Product(policy.maxFailed, Groups(Opens(u, later), hi, length), Groups(Opens(u, now), hi, length));
  }

  lemma WrongUsesAllowance(u: User, at: Time, hi: Time, policy: Policy)
    requires Sound(policy) && u.failedLoginCount < policy.maxFailed && !Locked(u, at) && at <= hi
    ensures FailedLogin(u, at, policy).failedLoginCount < policy.maxFailed
    ensures Allowance(FailedLogin(u, at, policy), at, hi, policy) + 1 <= Allowance(u, at, hi, policy)
  {
    var length, max := LockLength(policy), policy.maxFailed;
    GroupsAfterLock(at, hi, length);
    var groups := Groups(at, hi, length);
    assert max * groups == max * (groups - 1) + max;
    if max <= u.failedLoginCount + 1 {
      assert Opens(FailedLogin(u, at, policy), at) == at + length;
    }
  }

  lemma {:induction false} NothingAfter(u: User, events: seq<Event>, now: Time, lo: Time, hi: Time, policy: Policy)
    requires InTimeOrder(events, now) && hi < now
    ensures WrongIn(Log(u, events, policy), lo, hi) == 0
    decreases |events|
  {
    if events != [] { NothingAfter(After(u, events[0], policy), events[1..], events[0].at, lo, hi, policy); }
  }

  lemma {:induction false} WrongWithinAllowance(u: User, events: seq<Event>, now: Time, lo: Time, hi: Time,
      policy: Policy)
    requires Sound(policy) && u.failedLoginCount < policy.maxFailed && InTimeOrder(events, now) && lo <= now
    requires NoClearingIn(Log(u, events, policy), lo, hi)
    ensures WrongIn(Log(u, events, policy), lo, hi) <= Allowance(u, now, hi, policy)
    decreases |events|
  {
    if events != [] {
      var e := events[0];
      var u' := After(u, e, policy);
      var rest := Log(u', events[1..], policy);
      assert Log(u, events, policy) == [Record(u, e, policy)] + rest;
      assert Record(u, e, policy) in Log(u, events, policy) && forall x <- rest :: x in Log(u, events, policy);
      if hi < e.at {
        NothingAfter(u', events[1..], e.at, lo, hi, policy);
      } else {
        AllowanceShrinks(u, now, e.at, hi, policy);
        if Record(u, e, policy).Wrong? { WrongUsesAllowance(u, e.at, hi, policy); }
        WrongWithinAllowance(u', events[1..], e.at, lo, hi, policy);
      }
    }
  }

  /**
    Over serial attempts on one account, a window of length hi - lo without a successful login or
    reset holds at most MAX * (floor((hi - lo) / lockout) + 1) wrong-password checks, whatever came before it.
  */
  lemma {:induction false} WrongPasswordRate(u: User, events: seq<Event>, now: Time, lo: Time, hi: Time, policy: Policy)
    requires Sound(policy) && u.failedLoginCount < policy.maxFailed && InTimeOrder(events, now) && lo <= hi
    requires NoClearingIn(Log(u, events, policy), lo, hi)
    ensures WrongIn(Log(u, events, policy), lo, hi) <= policy.maxFailed * ((hi - lo) / LockLength(policy) + 1)
    decreases |events|
  {
    var length, max := LockLength(policy), policy.maxFailed;
    assert 0 <= (hi - lo) / length;
    Product(max, 0, (hi - lo) / length + 1);
    if events != [] {
      var e := events[0];
      var u' := After(u, e, policy);
      var rest := Log(u', events[1..], policy);
      assert Log(u, events, policy) == [Record(u, e, policy)] + rest;
      assert forall x <- rest :: x in Log(u, events, policy);
      if e.at < lo {
        WrongPasswordRate(u', events[1..], e.at, lo, hi, policy);
      } else {
        WrongWithinAllowance(u, events, e.at, lo, hi, policy);
        AllowanceIsBounded(u, e.at, lo, hi, policy);
      }
    }
  }

  lemma AllowanceIsBounded(u: User, now: Time, lo: Time, hi: Time, policy: Policy)
    requires Sound(policy) && u.failedLoginCount < policy.maxFailed && lo <= now && lo <= hi
    ensures Allowance(u, now, hi, policy) <= policy.maxFailed * ((hi - lo) / LockLength(policy) + 1)
  {
    var length := LockLength(policy);
    GroupsShrink(lo, Opens(u, now), hi, length);
    Product(policy.maxFailed, Groups(Opens(u, now), hi, length), Groups(lo, hi, length));
  }

  // ---------------------------------------------------------------- the rate is exact

  /** n guesses at one instant, then `rest`. */
  function Burst(n: nat, at: Time, rest: seq<Event>): seq<Event> {
    if n == 0 then rest else [Try(false, at)] + Burst(n - 1, at, rest)
  }

  /** A full burst whenever the account is open, from `at` until `hi`. */
  function Bursts(at: Time, hi: Time, policy: Policy): seq<Event>
    requires Sound(policy)
    decreases hi - at
  {
    if hi < at then [] else Burst(policy.maxFailed, at, Bursts(at + LockLength(policy), hi, policy))
  }

  /** The account can be guessed at now, and `n` more wrong guesses lock it. */
  predicate Guessable(u: User, at: Time, n: nat, policy: Policy) {
    u.passwordHash.Some? && !Locked(u, at) && u.failedLoginCount + n == policy.maxFailed
  }

  lemma {:induction false} BurstCounts(u: User, n: nat, at: Time, rest: seq<Event>, lo: Time, hi: Time, policy: Policy)
    returns (u': User)
    requires Sound(policy) && 0 < n && Guessable(u, at, n, policy) && lo <= at <= hi
    ensures Guessable(u', at + LockLength(policy), policy.maxFailed, policy)
    ensures WrongIn(Log(u, Burst(n, at, rest), policy), lo, hi) == n + WrongIn(Log(u', rest, policy), lo, hi)
    ensures NoClearingIn(Log(u', rest, policy), lo, hi) ==> NoClearingIn(Log(u, Burst(n, at, rest), policy), lo, hi)
    ensures InTimeOrder(rest, at) ==> InTimeOrder(Burst(n, at, rest), at)
    decreases n
  {
    var next := After(u, Try(false, at), policy);
    var events := Burst(n, at, rest);
    assert events[0] == Try(false, at) && events[1..] == Burst(n - 1, at, rest);
    var entry := Record(u, events[0], policy);
    var log := Log(next, events[1..], policy);
    assert Log(u, events, policy) == [entry] + log && ([entry] + log)[1..] == log;
    if n == 1 {
      u' := next;
    } else {
      u' := BurstCounts(next, n - 1, at, rest, lo, hi, policy);
    }
  }

  lemma {:induction false} BurstsCount(u: User, at: Time, lo: Time, hi: Time, policy: Policy)
    requires Sound(policy) && Guessable(u, at, policy.maxFailed, policy) && lo <= at
    ensures WrongIn(Log(u, Bursts(at, hi, policy), policy), lo, hi) ==
            policy.maxFailed * Groups(at, hi, LockLength(policy))
    ensures NoClearingIn(Log(u, Bursts(at, hi, policy), policy), lo, hi)
    ensures InTimeOrder(Bursts(at, hi, policy), at)
    decreases hi - at
  {
    var length, max := LockLength(policy), policy.maxFailed;
    if at <= hi {
      var rest := Bursts(at + length, hi, policy);
      var u' := BurstCounts(u, max, at, rest, lo, hi, policy);
      BurstsCount(u', at + length, lo, hi, policy);
      GroupsAfterLock(at, hi, length);
      assert max * (Groups(at + length, hi, length) + 1) == max * Groups(at + length, hi, length) + max;
      assert InTimeOrder(rest, at) by { assert rest != [] ==> at + length <= rest[0].at; }
    }
  }

  /** For every window the bound of `WrongPasswordRate` is reached, on any open account with a password. */
  lemma RateIsReached(u: User, lo: Time, hi: Time, policy: Policy) returns (events: seq<Event>)
    requires Sound(policy) && u.passwordHash.Some? && !Locked(u, lo) && u.failedLoginCount == 0 && lo <= hi
    ensures InTimeOrder(events, lo) && NoClearingIn(Log(u, events, policy), lo, hi)
    ensures WrongIn(Log(u, events, policy), lo, hi) == policy.maxFailed * ((hi - lo) / LockLength(policy) + 1)
  {
    events := Bursts(lo, hi, policy);
    BurstsCount(u, lo, lo, hi, policy);
  }
}
