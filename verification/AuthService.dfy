/** `auth-service.ts` run serially: login, emailed links and password reset on the tables they update. */
module AuthService {
  import opened Options
  import opened TokenRows
  import opened Accounts
  import opened TokenService
  import Email = EmailedTokens

  datatype AuthError = InvalidLink | WeakPassword | WrongPassword | Unauthorized | NoPasswordYet

  datatype Outcome<T> = Ok(value: T) | Err(error: AuthError)

  class AuthService {
    var users: map<UserId, User>
    var links: map<Token, Email.Link>
    const store: TokenStore
    const policy: Policy
    const ttl: Email.Ttl
    const verify: (string, string) -> bool   // argon2Verify(hash, plain)
    const digest: string -> string           // argon2Hash(plain)
    const strong: (string, string) -> bool   // validatePassword(plain, email)

    constructor (store: TokenStore, policy: Policy, ttl: Email.Ttl,
                 verify: (string, string) -> bool, digest: string -> string, strong: (string, string) -> bool)
      ensures users == map[] && links == map[] && UniqueEmails(users)
      ensures this.store == store && this.policy == policy && this.ttl == ttl
      ensures this.verify == verify && this.digest == digest && this.strong == strong
    {
      users, links := map[], map[];
      this.store, this.policy, this.ttl := store, policy, ttl;
      this.verify, this.digest, this.strong := verify, digest, strong;
    }

    method RegisterFailedLogin(user: UserId, now: Time)
      requires user in users
      modifies this`users
      ensures users == old(users)[user := FailedLogin(old(users)[user], now, policy)]
      ensures forall t :: now <= t ==>
                (Locked(users[user], t) <==>
                 policy.maxFailed <= old(users)[user].failedLoginCount + 1 && t < now + LockLength(policy))
      ensures policy.maxFailed > 0 ==> users[user].failedLoginCount < policy.maxFailed
      ensures users[user].failedLoginCount in {0, old(users)[user].failedLoginCount + 1}
      ensures old(users)[user] == users[user].(
                failedLoginCount := old(users)[user].failedLoginCount, lockedUntil := old(users)[user].lockedUntil)
    {
      var next := users[user].failedLoginCount + 1;
      var shouldLock := policy.maxFailed <= next;
      users := users[user := users[user].(
        failedLoginCount := if shouldLock then 0 else next,
        lockedUntil := if shouldLock then Some(now + LockLength(policy)) else None)];
    }

    /**
      A login succeeds exactly on the right password of an unlocked, active, verified account. The
      refusals exclude each other in this order: no account, no password, locked, wrong password,
      suspended, deleted, unverified; only a wrong password that was checked leaves a trace.
    */
    method Login(email: string, password: string, now: Time) returns (result: LoginResult)
      requires UniqueEmails(users)
      modifies this`users
      ensures result.LoggedIn? <==>
              exists u :: HasEmail(old(users), u, email) &&
                var row := old(users)[u];
                && row.passwordHash.Some? && verify(row.passwordHash.value, password)
                && !(row.lockedUntil.Some? && now < row.lockedUntil.value)
                && row.status == Active && row.emailVerifiedAt.Some?
      ensures forall u :: HasEmail(old(users), u, email) ==>
                var row := old(users)[u];
                var locked := row.lockedUntil.Some? && now < row.lockedUntil.value;
                var right := row.passwordHash.Some? && verify(row.passwordHash.value, password);
                var open := row.passwordHash.Some? && !locked;
                && (result == LoginRefused(PasswordNotSet) <==> row.passwordHash.None?)
                && (result.LoginRefused? && result.error.AccountLocked? <==> row.passwordHash.Some? && locked)
                && (result == LoginRefused(InvalidCredentials) <==> open && (!right || row.status == Deleted))
                && (result == LoginRefused(LoginSuspended) <==> open && right && row.status == Suspended)
                && (result == LoginRefused(EmailNotVerified) <==>
                    open && right && row.status == Active && row.emailVerifiedAt.None?)
                && (result.LoginRefused? && result.error.AccountLocked? ==>
                    var left := row.lockedUntil.value - now;
                    60_000 * (result.error.minutes - 1) < left <= 60_000 * result.error.minutes)
                && users.Keys == old(users).Keys && (forall v <- users :: v != u ==> users[v] == old(users)[v])
                && (result.LoggedIn? ==>
                    && result.user == users[u]
                    && users[u] == row.(lastLoginAt := Some(now), failedLoginCount := 0, lockedUntil := None))
                && (open && !right ==>
                    users[u] ==
                    if policy.maxFailed <= row.failedLoginCount + 1
                    then row.(failedLoginCount := 0, lockedUntil := Some(now + policy.lockoutMinutes * 60_000))
                    else row.(failedLoginCount := row.failedLoginCount + 1, lockedUntil := None))
                && (!result.LoggedIn? && !(open && !right) ==> users == old(users))
      ensures (forall u :: !HasEmail(old(users), u, email)) ==>
                result == LoginRefused(InvalidCredentials) && users == old(users)
      ensures match ByEmail(old(users), email)
              case None => result == LoginRefused(InvalidCredentials) && users == old(users)
              case Some(u) =>
                var row := old(users)[u];
                var valid := row.passwordHash.Some? && verify(row.passwordHash.value, password);
                && result == Attempt(row, valid, now, policy).1
                && users == old(users)[u := Attempt(row, valid, now, policy).0]
    {
      var found := FindByEmail(users, email);
      if found.None? { return LoginRefused(InvalidCredentials); }
      var u := found.value;
      var user := users[u];
      if user.passwordHash.None? { return LoginRefused(PasswordNotSet); }
      if user.lockedUntil.Some? && now < user.lockedUntil.value {
        return LoginRefused(AccountLocked((user.lockedUntil.value - now + MINUTE - 1) / MINUTE));
      }
      if !verify(user.passwordHash.value, password) {
        RegisterFailedLogin(u, now);
        return LoginRefused(InvalidCredentials);
      }
      if user.status == Suspended { return LoginRefused(LoginSuspended); }
      if user.status == Deleted { return LoginRefused(InvalidCredentials); }
      if user.emailVerifiedAt.None? { return LoginRefused(EmailNotVerified); }
      users := users[u := user.(lastLoginAt := Some(now), failedLoginCount := 0, lockedUntil := None)];
      result := LoggedIn(users[u]);
    }

    method CreateOneTimeToken(user: UserId, purpose: Email.Purpose, now: Time, token: Token) returns (raw: Token)
      requires token !in links
      modifies this`links
      ensures raw == token
      ensures links == old(links)[raw := Email.Link(user, purpose, now + Email.Lifetime(ttl, purpose), None)]
      ensures raw !in old(links) && links[raw].userId == user && links[raw].purpose == purpose
      ensures links[raw].expiresAt ==
              now + (match purpose case EmailVerify => ttl.verifyHours case PasswordReset => ttl.resetHours) * 3_600_000
      ensures forall p, at :: Email.Spendable(links, raw, p, at) <==>
                              p == purpose && at < now + Email.Lifetime(ttl, purpose)
      ensures forall other, p, at :: other != raw ==>
                (Email.Spendable(links, other, p, at) <==> Email.Spendable(old(links), other, p, at))
    {
      links := links[token := Email.Link(user, purpose, now + Email.Lifetime(ttl, purpose), None)];
      raw := token;
    }

    method PeekOneTimeToken(raw: Token, purpose: Email.Purpose, now: Time) returns (result: Outcome<UserId>)
      ensures Email.Spendable(links, raw, purpose, now) ==> result == Ok(links[raw].userId)
      ensures !Email.Spendable(links, raw, purpose, now) ==> result == Err(InvalidLink)
    {
      result := if Email.Spendable(links, raw, purpose, now) then Ok(links[raw].userId) else Err(InvalidLink);
    }

    method ConsumeOneTimeToken(raw: Token, purpose: Email.Purpose, now: Time) returns (result: Outcome<UserId>)
      modifies this`links
      ensures Email.Spendable(old(links), raw, purpose, now) ==>
                result == Ok(old(links)[raw].userId) && links == Email.Consumed(old(links), raw, now)
      ensures !Email.Spendable(old(links), raw, purpose, now) ==> result == Err(InvalidLink) && links == old(links)
      ensures !Email.Spendable(links, raw, purpose, now)
      ensures result.Ok? ==>
                && raw in old(links) && links == old(links)[raw := old(links)[raw].(usedAt := Some(now))]
                && old(links)[raw].purpose == purpose && old(links)[raw].usedAt == None
                && now < old(links)[raw].expiresAt
    {
      if !Email.Spendable(links, raw, purpose, now) { return Err(InvalidLink); }
      links := links[raw := links[raw].(usedAt := Some(now))];
      result := Ok(links[raw].userId);
    }

    method VerifyEmail(raw: Token, now: Time) returns (result: Outcome<()>)
      modifies this`users, this`links
      ensures result.Ok? <==> Email.Spendable(old(links), raw, Email.EmailVerify, now)
      ensures result.Err? ==> users == old(users) && links == old(links)
      ensures result.Ok? ==>
                && users == Email.MarkVerified(old(users), old(links)[raw].userId, now)
                && links == Email.Consumed(old(links), raw, now)
      ensures result.Ok? ==>
                var owner := old(links)[raw].userId;
                && users.Keys == old(users).Keys
                && (forall u <- users :: u != owner ==> users[u] == old(users)[u])
                && (owner in users ==>
                    var row := old(users)[owner];
                    && users[owner] == row.(emailVerifiedAt := users[owner].emailVerifiedAt)
                    && (row.emailVerifiedAt.None? ==> users[owner].emailVerifiedAt == Some(now))
                    && (row.emailVerifiedAt.Some? ==> users[owner].emailVerifiedAt == row.emailVerifiedAt))
    {
      var consumed := ConsumeOneTimeToken(raw, Email.EmailVerify, now);
      if consumed.Err? { return Err(consumed.error); }
      var user := consumed.value;
      if user in users && users[user].emailVerifiedAt.None? {
        users := users[user := users[user].(emailVerifiedAt := Some(now))];
      }
      result := Ok(());
    }

    /**
      A refused reset touches nothing and keeps the link; a completed one leaves the user signed out
      everywhere.
    */
    method ResetPassword(raw: Token, newPassword: string, now: Time) returns (result: Outcome<()>)
      modifies this`users, this`links, store`rows
      ensures result.Ok? <==>
              Email.Spendable(old(links), raw, Email.PasswordReset, now) && old(links)[raw].userId in old(users)
              && strong(newPassword, old(users)[old(links)[raw].userId].email)
      ensures result.Err? ==> users == old(users) && links == old(links) && store.rows == old(store.rows)
      ensures result.Ok? ==>
                var user := old(links)[raw].userId;
                && links == Email.Consumed(old(links), raw, now)
                && users == Email.WritePassword(
                     old(users), user, digest(newPassword), old(users)[user].emailVerifiedAt, now)
                && store.rows == Revoke(old(store.rows), ByUser(user), now)
                && (forall t :: IsLive(store.rows, t) ==> store.rows[t].userId != user)
      ensures result.Ok? ==>
                var user := old(links)[raw].userId;
                var row := old(users)[user];
                && users.Keys == old(users).Keys
                && (forall u <- users :: u != user ==> users[u] == old(users)[u])
                && users[user] == row.(
                     passwordHash := Some(digest(newPassword)), failedLoginCount := 0, lockedUntil := None,
                     emailVerifiedAt := if row.emailVerifiedAt.Some? then row.emailVerifiedAt else Some(now))
      ensures result == Err(WeakPassword) <==>
              Email.Spendable(old(links), raw, Email.PasswordReset, now) && old(links)[raw].userId in old(users)
              && !strong(newPassword, old(users)[old(links)[raw].userId].email)
      ensures result.Err? ==> result.error in {WeakPassword, InvalidLink}
    {
      var peeked := PeekOneTimeToken(raw, Email.PasswordReset, now);
      if peeked.Err? { return Err(peeked.error); }
      if peeked.value !in users { return Err(InvalidLink); }
      var user := users[peeked.value];
      if !strong(newPassword, user.email) { return Err(WeakPassword); }
      var consumed := ConsumeOneTimeToken(raw, Email.PasswordReset, now);
      if consumed.Err? { return Err(InvalidLink); }
      var verifiedAt := if user.emailVerifiedAt.Some? then user.emailVerifiedAt else Some(now);
      users := users[consumed.value := users[consumed.value].(
        passwordHash := Some(digest(newPassword)), emailVerifiedAt := verifiedAt,
        failedLoginCount := 0, lockedUntil := None)];
      var revoked := store.RevokeAllForUser(consumed.value, now);
      result := Ok(());
    }

    method ChangePassword(user: UserId, currentPassword: string, newPassword: string)
      returns (result: Outcome<()>)
      modifies this`users
      ensures result.Ok? <==>
              user in old(users) && old(users)[user].passwordHash.Some?
              && verify(old(users)[user].passwordHash.value, currentPassword)
              && strong(newPassword, old(users)[user].email)
      ensures result.Ok? ==> users == old(users)[user := old(users)[user].(passwordHash := Some(digest(newPassword)))]
      ensures result.Err? ==> users == old(users)
      ensures result == Err(Unauthorized) <==> user !in old(users)
      ensures result == Err(NoPasswordYet) <==> user in old(users) && old(users)[user].passwordHash.None?
      ensures result == Err(WrongPassword) <==>
              user in old(users) && old(users)[user].passwordHash.Some?
              && !verify(old(users)[user].passwordHash.value, currentPassword)
    {
      if user !in users { return Err(Unauthorized); }
      var row := users[user];
      if row.passwordHash.None? { return Err(NoPasswordYet); }
      if !verify(row.passwordHash.value, currentPassword) { return Err(WrongPassword); }
      if !strong(newPassword, row.email) { return Err(WeakPassword); }
      users := users[user := row.(passwordHash := Some(digest(newPassword)))];
      result := Ok(());
    }
  }
}
