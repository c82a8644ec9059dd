/**
  The handlers of `routes/auth.ts` that move refresh tokens, with what each leaves in the table and in
  the cookie.
*/
module AuthRoutes {
  import opened Options
  import opened TokenRows
  import opened Accounts
  import opened TokenService
  import opened AuthService

  /** The status and the browser's refresh cookie once the response has arrived. */
  datatype Response = Response(status: nat, cookie: Option<Token>)

  class AuthRoutes {
    const auth: AuthService
    const store: TokenStore

    ghost predicate Valid() {
      auth.store == store
    }

    constructor (auth: AuthService)
      ensures Valid() && this.auth == auth
    {
      this.auth, this.store := auth, auth.store;
    }

    /** POST /refresh. */
    method Refresh(cookie: Option<Token>, ctx: SessionContext, now: Time, gen: Generated) returns (res: Response)
      requires Valid() && gen.token !in store.rows
      modifies store`rows
      ensures cookie.None? ==> res == Response(401, None) && store.rows == old(store.rows)
      ensures cookie.Some? ==> store.rows == Rotate(old(store.rows), cookie.value, ctx, store.ttl, now, gen).0
      ensures res.status == 200 <==>
              cookie.Some? && IsLive(old(store.rows), cookie.value) && now < old(store.rows)[cookie.value].expiresAt
              && old(store.rows)[cookie.value].userId in auth.users
              && auth.users[old(store.rows)[cookie.value].userId].status == Active
      ensures res.status == 200 ==>
                res.cookie == Some(gen.token) && IsLive(store.rows, gen.token) && !IsLive(store.rows, cookie.value)
      ensures res.status != 200 ==> res == Response(401, None)
    {
      if cookie.None? { return Response(401, None); }
      var result := store.RotateRefreshToken(cookie.value, ctx, now, gen);
      if result.Refused? { return Response(401, None); }
      if result.userId !in auth.users || auth.users[result.userId].status != Active { return Response(401, None); }
      res := Response(200, Some(result.next.raw));
    }

    /** POST /logout. */
    method Logout(cookie: Option<Token>, now: Time) returns (res: Response)
      modifies store`rows
      ensures res == Response(204, None)
      ensures cookie.Some? ==> !IsLive(store.rows, cookie.value)
      ensures store.rows.Keys == old(store.rows).Keys
      ensures forall t :: cookie != Some(t) ==> (t in store.rows <==> t in old(store.rows))
      ensures forall t <- store.rows :: cookie != Some(t) ==> store.rows[t] == old(store.rows)[t]
    {
      if cookie.Some? { var ended := store.RevokeByRawToken(cookie.value, now); }
      res := Response(204, None);
    }

    /** POST /logout-all. */
    method LogoutAll(user: UserId, now: Time) returns (res: Response)
      modifies store`rows
      ensures res == Response(204, None)
      ensures store.rows == Revoke(old(store.rows), ByUser(user), now)
      ensures forall t :: IsLive(store.rows, t) <==> IsLive(old(store.rows), t) && old(store.rows)[t].userId != user
    {
      var count := store.RevokeAllForUser(user, now);
      res := Response(204, None);
    }

    /** POST /password/change: afterwards the caller's new cookie is the user's only live token. */
    method PasswordChange(
      user: UserId, current: string, next: string, cookie: Option<Token>,
      ctx: SessionContext, now: Time, gen: Generated)
      returns (res: Response)
      requires Valid() && gen.token !in store.rows
      modifies store`rows, auth`users
      ensures res.status == 204 <==>
                && user in old(auth.users) && old(auth.users)[user].passwordHash.Some?
                && auth.verify(old(auth.users)[user].passwordHash.value, current)
                && auth.strong(next, old(auth.users)[user].email)
      ensures res.status == 204 ==>
                auth.users == old(auth.users)[user := old(auth.users)[user].(passwordHash := Some(auth.digest(next)))]
      ensures res.status == 204 ==>
                res.cookie == Some(gen.token) && IsLive(store.rows, gen.token)
                && (forall t :: IsLive(store.rows, t) && store.rows[t].userId == user <==> t == gen.token)
                && (forall t :: t in old(store.rows) && old(store.rows)[t].userId != user
                                ==> t in store.rows && store.rows[t] == old(store.rows)[t])
      ensures res.status != 204 ==>
                store.rows == old(store.rows) && auth.users == old(auth.users) && res.cookie == cookie
    {
      var changed := auth.ChangePassword(user, current, next);
      if changed.Err? {
        return Response(if changed.error.WeakPassword? || changed.error.NoPasswordYet? then 400 else 401, cookie);
      }
      var count := store.RevokeAllForUser(user, now);
      var issued := store.IssueRefreshToken(user, ctx, None, now, gen);
      res := Response(204, Some(issued.raw));
    }
  }
}
