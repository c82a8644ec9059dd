/** The `users` row and what one password attempt does to it. */
module Accounts {
  import opened Options
  import opened TokenRows

  datatype Status = Active | Suspended | Deleted

  datatype User = User(
    email: string,
    emailVerifiedAt: Option<Time>,
    passwordHash: Option<string>,
    fullName: Option<string>,
    avatarUrl: Option<string>,
    status: Status,
    lastLoginAt: Option<Time>,
    failedLoginCount: nat,
    lockedUntil: Option<Time>)

  /** MAX_FAILED_LOGINS and LOCKOUT_MINUTES, both positive. */
  datatype Policy = Policy(maxFailed: nat, lockoutMinutes: nat)

  predicate Sound(policy: Policy) {
    policy.maxFailed > 0 && policy.lockoutMinutes > 0
  }

  const MINUTE: int := 60_000

  function LockLength(policy: Policy): int {
    policy.lockoutMinutes * MINUTE
  }

  datatype LoginError =
    | PasswordNotSet
    | InvalidCredentials
    | AccountLocked(minutes: int)
    | LoginSuspended
    | EmailNotVerified

  datatype LoginResult = LoggedIn(user: User) | LoginRefused(error: LoginError)

  predicate Locked(u: User, now: Time) {
    u.lockedUntil.Some? && now < u.lockedUntil.value
  }

  /** `registerFailedLogin`. */
  function FailedLogin(u: User, now: Time, policy: Policy): User {
    var next := u.failedLoginCount + 1;
    if policy.maxFailed <= next then u.(failedLoginCount := 0, lockedUntil := Some(now + LockLength(policy)))
    else u.(failedLoginCount := next, lockedUntil := None)
  }

  /** `login` once the row is found; `valid` is the verdict of the password hash. */
  function Attempt(u: User, valid: bool, now: Time, policy: Policy): (User, LoginResult) {
    if u.passwordHash.None? then (u, LoginRefused(PasswordNotSet))
    else if Locked(u, now) then (u, LoginRefused(AccountLocked((u.lockedUntil.value - now + MINUTE - 1) / MINUTE)))
    else if !valid then (FailedLogin(u, now, policy), LoginRefused(InvalidCredentials))
    else if u.status == Suspended then (u, LoginRefused(LoginSuspended))
    else if u.status == Deleted then (u, LoginRefused(InvalidCredentials))
    else if u.emailVerifiedAt.None? then (u, LoginRefused(EmailNotVerified))
    else
      var u' := u.(lastLoginAt := Some(now), failedLoginCount := 0, lockedUntil := None);
      (u', LoggedIn(u'))
  }

  /** The row a completed password reset writes. */
  function ResetRow(u: User, hash: string, verifiedAt: Option<Time>): User {
    u.(passwordHash := Some(hash), emailVerifiedAt := verifiedAt, failedLoginCount := 0, lockedUntil := None)
  }

  // ---------------------------------------------------------------- the users table

  predicate HasEmail(users: map<UserId, User>, u: UserId, email: string) {
    u in users && users[u].email == email
  }

  ghost function ByEmail(users: map<UserId, User>, email: string): (r: Option<UserId>)
    ensures r.Some? ==> HasEmail(users, r.value, email)
    ensures r.None? ==> forall u :: !HasEmail(users, u, email)
  {
    if exists u :: HasEmail(users, u, email) then
      var u :| HasEmail(users, u, email);
      Some(u)
    else None
  }

  /** SELECT ... WHERE email = ?. */
  method FindByEmail(users: map<UserId, User>, email: string) returns (found: Option<UserId>)
    requires UniqueEmails(users)
    ensures found == ByEmail(users, email)
  {
    if u :| u in users && users[u].email == email {
      assert HasEmail(users, u, email);
      return Some(u);
    }
    return None;
  }

  ghost predicate UniqueEmails(users: map<UserId, User>) {
    forall u, v, email :: HasEmail(users, u, email) && HasEmail(users, v, email) ==> u == v
  }

  lemma AddingKeepsUnique(users: map<UserId, User>, spare: UserId, row: User)
    requires UniqueEmails(users) && spare !in users && forall u :: !HasEmail(users, u, row.email)
    ensures UniqueEmails(users[spare := row])
  {
    var users' := users[spare := row];
    forall u, v, email | HasEmail(users', u, email) && HasEmail(users', v, email) ensures u == v {
      assert u != spare ==> HasEmail(users, u, email);
      assert v != spare ==> HasEmail(users, v, email);
    }
  }

  lemma EditingKeepsUnique(users: map<UserId, User>, u: UserId, row: User)
    requires UniqueEmails(users) && HasEmail(users, u, row.email)
    ensures UniqueEmails(users[u := row])
  {
    var users' := users[u := row];
    forall v, w, email | HasEmail(users', v, email) && HasEmail(users', w, email) ensures v == w {
      assert HasEmail(users, v, email) && HasEmail(users, w, email);
    }
  }
}
