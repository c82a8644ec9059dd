/**
  `token-service.ts` run serially: each function as one call on the table, first as a function
  of the table and then as the method that performs its statements one after the other.
*/
module TokenService {
  import opened Options
  import opened TokenRows

  datatype Issued = Issued(raw: Token, expiresAt: Time, familyId: FamilyId)

  datatype TokenError = TokenReuseDetected | InvalidToken | SessionExpired

  datatype Rotation =
    | Rotated(userId: UserId, next: Issued)
    | Refused(error: TokenError)

  function Issue(rows: Table, user: UserId, ctx: SessionContext, family: FamilyId, ttl: nat, now: Time, gen: Generated)
    : (Table, Issued)
  {
    (rows[gen.token := NewRow(user, family, now + ttl, ctx, gen, now)], Issued(gen.token, now + ttl, family))
  }

  function Rotate(rows: Table, raw: Token, ctx: SessionContext, ttl: nat, now: Time, gen: Generated)
    : (Table, Rotation)
  {
    if raw !in rows then
      (rows, Refused(InvalidToken))
    else if !IsLive(rows, raw) then
      (Revoke(rows, ByFamily(rows[raw].familyId), now), Refused(TokenReuseDetected))
    else
      var claimed := Revoke(rows, ByToken(raw), now);
      if rows[raw].expiresAt <= now then
        (claimed, Refused(SessionExpired))
      else
        var (rows', next) := Issue(claimed, rows[raw].userId, ctx, rows[raw].familyId, ttl, now, gen);
        (rows', Rotated(rows[raw].userId, next))
  }

  /** `s?.slice(0, limit) ?? null`: absent stays absent, and text keeps at most its first `limit` characters. */
  predicate CutTo(given: Option<string>, stored: Option<string>, limit: nat) {
    (given.None? <==> stored.None?) &&
    (given.Some? ==> stored.value <= given.value && |stored.value| <= limit &&
                     (stored.value == given.value || |stored.value| == limit < |given.value|))
  }

  class TokenStore {
    var rows: Table
    const ttl: nat  // REFRESH_TOKEN_TTL_DAYS * 86_400_000

    constructor (ttlDays: nat)
      ensures rows == map[] && ttl == ttlDays * 86_400_000
    {
      rows := map[];
      ttl := ttlDays * 86_400_000;
    }

    method IssueRefreshToken(userId: UserId, ctx: SessionContext, familyId: Option<FamilyId>, now: Time, gen: Generated)
      returns (issued: Issued)
      requires gen.token !in rows
      modifies this`rows
      ensures var family := if familyId.Some? then familyId.value else gen.family;
              (rows, issued) == Issue(old(rows), userId, ctx, family, ttl, now, gen)
      ensures issued.raw !in old(rows) && rows.Keys == old(rows).Keys + {issued.raw}
      ensures forall t <- old(rows) :: rows[t] == old(rows)[t]
      ensures IsLive(rows, issued.raw) && rows[issued.raw].userId == userId
      ensures rows[issued.raw].familyId == issued.familyId && (familyId.Some? ==> issued.familyId == familyId.value)
      ensures rows[issued.raw].expiresAt == issued.expiresAt == now + ttl && rows[issued.raw].createdAt == now
      ensures CutTo(ctx.userAgent, rows[issued.raw].userAgent, 512) && CutTo(ctx.ip, rows[issued.raw].ip, 45)
      ensures ttl > 0 ==> Active(rows, userId, now) == Active(old(rows), userId, now)[issued.raw := rows[issued.raw]]
      ensures forall other :: other != userId ==> Active(rows, other, now) == Active(old(rows), other, now)
    {
      var expiresAt := now + ttl;
      var family := match familyId { case Some(f) => f case None => gen.family };
      rows := rows[gen.token := NewRow(userId, family, expiresAt, ctx, gen, now)];
      issued := Issued(gen.token, expiresAt, family);
    }

    method RevokeFamily(familyId: FamilyId, now: Time) returns (count: nat)
      modifies this`rows
      ensures rows == Revoke(old(rows), ByFamily(familyId), now)
      ensures count == |Hits(old(rows), ByFamily(familyId))|
      ensures rows.Keys == old(rows).Keys && count == |AllLive(old(rows))| - |AllLive(rows)|
      ensures forall t :: IsLive(rows, t) <==> IsLive(old(rows), t) && old(rows)[t].familyId != familyId
      ensures forall t <- rows :: rows[t].(revokedAt := old(rows)[t].revokedAt) == old(rows)[t]
      ensures forall t <- rows :: old(rows)[t].revokedAt.Some? ==> rows[t] == old(rows)[t]
      ensures forall t :: IsLive(old(rows), t) && !IsLive(rows, t) ==> rows[t].revokedAt == Some(now)
    {
      RevokeEnds(rows, ByFamily(familyId), now);
      count := |Hits(rows, ByFamily(familyId))|;
      rows := Revoke(rows, ByFamily(familyId), now);
    }

    method RevokeAllForUser(userId: UserId, now: Time) returns (count: nat)
      modifies this`rows
      ensures rows == Revoke(old(rows), ByUser(userId), now)
      ensures count == |Hits(old(rows), ByUser(userId))|
      ensures rows.Keys == old(rows).Keys && count == |AllLive(old(rows))| - |AllLive(rows)|
      ensures forall t :: IsLive(rows, t) <==> IsLive(old(rows), t) && old(rows)[t].userId != userId
      ensures forall t <- rows :: rows[t].(revokedAt := old(rows)[t].revokedAt) == old(rows)[t]
      ensures forall t <- rows :: old(rows)[t].revokedAt.Some? ==> rows[t] == old(rows)[t]
      ensures forall t :: IsLive(old(rows), t) && !IsLive(rows, t) ==> rows[t].revokedAt == Some(now)
    {
      RevokeEnds(rows, ByUser(userId), now);
      count := |Hits(rows, ByUser(userId))|;
      rows := Revoke(rows, ByUser(userId), now);
    }

    method RevokeByRawToken(raw: Token, now: Time) returns (ended: bool)
      modifies this`rows
      ensures rows == Revoke(old(rows), ByToken(raw), now)
      ensures ended <==> IsLive(old(rows), raw)
      ensures rows.Keys == old(rows).Keys && forall t <- rows :: t != raw ==> rows[t] == old(rows)[t]
      ensures ended ==> rows[raw] == old(rows)[raw].(revokedAt := Some(now))
      ensures !ended ==> rows == old(rows)
    {
      var hits := Hits(rows, ByToken(raw));
      rows := Revoke(rows, ByToken(raw), now);
      ended := |hits| > 0;
      assert raw in hits <==> IsLive(old(rows), raw);
      assert hits <= {raw};
    }

    method RotateRefreshToken(raw: Token, ctx: SessionContext, now: Time, gen: Generated) returns (result: Rotation)
      requires gen.token !in rows
      modifies this`rows
      ensures (rows, result) == Rotate(old(rows), raw, ctx, ttl, now, gen)
      ensures result == Refused(InvalidToken) <==> raw !in old(rows)
      ensures result == Refused(TokenReuseDetected) <==> IsSpent(old(rows), raw)
      ensures result == Refused(SessionExpired) <==> IsLive(old(rows), raw) && old(rows)[raw].expiresAt <= now
      ensures result.Rotated? <==> IsLive(old(rows), raw) && now < old(rows)[raw].expiresAt
      ensures result == Refused(InvalidToken) ==> rows == old(rows)
      ensures result == Refused(TokenReuseDetected) ==>
                rows.Keys == old(rows).Keys
      ensures result == Refused(TokenReuseDetected) ==>
                var family := old(rows)[raw].familyId;
                forall t :: IsLive(rows, t) <==> IsLive(old(rows), t) && old(rows)[t].familyId != family
      ensures result == Refused(SessionExpired) ==> rows == old(rows)[raw := old(rows)[raw].(revokedAt := Some(now))]
      ensures result.Rotated? ==>
                var next, row := result.next, old(rows)[raw];
                && result.userId == row.userId && next == Issued(gen.token, now + ttl, row.familyId)
                && next.raw in rows
                && rows == old(rows)[raw := row.(revokedAt := Some(now))][next.raw := rows[next.raw]]
                && var added := rows[next.raw];
                   && added == Row(gen.id, row.userId, row.familyId, now + ttl, None, added.userAgent, added.ip, now)
                   && CutTo(ctx.userAgent, added.userAgent, 512) && CutTo(ctx.ip, added.ip, 45)
    {
      var claimed := Hits(rows, ByToken(raw));
      var before := rows;
      rows := Revoke(rows, ByToken(raw), now);
      if raw !in claimed {
        assert rows == before;
        if raw in rows {
          var killed := RevokeFamily(rows[raw].familyId, now);
          return Refused(TokenReuseDetected);
        }
        return Refused(InvalidToken);
      }
      var token := rows[raw];
      if token.expiresAt <= now {
        return Refused(SessionExpired);
      }
      var next := IssueRefreshToken(token.userId, ctx, Some(token.familyId), now, gen);
      result := Rotated(token.userId, next);
    }

    method ListActiveSessions(userId: UserId, now: Time) returns (sessions: map<Token, Row>)
      ensures forall t :: t in sessions <==> IsLive(rows, t) && rows[t].userId == userId && now < rows[t].expiresAt
      ensures forall t :: t in sessions ==> t in rows && sessions[t] == rows[t]
    {
      sessions := Active(rows, userId, now);
    }

    method RevokeSession(userId: UserId, sessionId: RowId, now: Time) returns (ended: bool)
      modifies this`rows
      ensures rows == Revoke(old(rows), BySession(userId, sessionId), now)
      ensures ended <==> exists t :: IsLive(old(rows), t) && Selects(BySession(userId, sessionId), t, old(rows)[t])
      ensures rows.Keys == old(rows).Keys
      ensures forall t :: IsLive(rows, t) <==>
                IsLive(old(rows), t) && !(old(rows)[t].id == sessionId && old(rows)[t].userId == userId)
      ensures forall t <- rows :: rows[t] == old(rows)[t] ||
                (rows[t] == old(rows)[t].(revokedAt := Some(now)) && old(rows)[t].revokedAt == None)
    {
      var hits := Hits(rows, BySession(userId, sessionId));
      ended := |hits| > 0;
      if ended {
        var t :| t in hits;
        assert IsLive(rows, t) && Selects(BySession(userId, sessionId), t, rows[t]);
      }
      assert forall t :: IsLive(rows, t) && Selects(BySession(userId, sessionId), t, rows[t]) ==> t in hits;
      rows := Revoke(rows, BySession(userId, sessionId), now);
    }

    method PruneExpiredTokens(now: Time) returns (count: nat)
      modifies this`rows
      ensures rows == Prune(old(rows), now)
      ensures forall t :: t in rows <==> t in old(rows) && now <= old(rows)[t].expiresAt
      ensures forall t <- rows :: rows[t] == old(rows)[t]
      ensures count == |old(rows)| - |rows|
    {
      var before := rows;
      rows := Prune(rows, now);
      var gone := set t | t in before && before[t].expiresAt < now;
      count := |gone|;
      assert before.Keys == rows.Keys + gone && rows.Keys !! gone;
      assert |before.Keys| == |rows.Keys| + |gone|;
    }
  }

  // ---------------------------------------------------------------- serial runs

  datatype Op =
    | OpOpen(user: UserId, gen: Generated)
    | OpRotate(raw: Token, gen: Generated)
    | OpRevoke(sel: Selector)
    | OpList(user: UserId)
    | OpPrune

  datatype Call = Call(op: Op, now: Time)

  datatype Answer =
    | Opened(issued: Issued)
    | RotateAnswer(result: Rotation)
    | Revoked(any: bool)
    | Sessions(rows: map<Token, Row>)
    | Done

  const NO_CONTEXT := SessionContext(None, None)

  /** One serial call: the new table and what the caller sees. */
  function Apply(rows: Table, call: Call, ttl: nat): (Table, Answer) {
    match call.op
    case OpOpen(user, gen) =>
      var (rows', issued) := Issue(rows, user, NO_CONTEXT, gen.family, ttl, call.now, gen); (rows', Opened(issued))
    case OpRotate(raw, gen) =>
      var (rows', result) := Rotate(rows, raw, NO_CONTEXT, ttl, call.now, gen); (rows', RotateAnswer(result))
    case OpRevoke(sel) => (Revoke(rows, sel, call.now), Revoked(Hits(rows, sel) != {}))
    case OpList(user) => (rows, Sessions(Active(rows, user, call.now)))
    case OpPrune => (Prune(rows, call.now), Done)
  }
}
