/**
  The `refresh_tokens` table and the SQL statements that `token-service.ts` runs on it.

  A row is keyed by the token whose SHA-256 it stores: hashing is taken to be injective, so the
  unique index on `token_hash` makes the table a map from tokens to rows. Every function here
  is the effect of one SQL statement, which the database runs atomically.
*/
module TokenRows {
  import opened Options

  type Token = nat
  type FamilyId = nat
  type UserId = nat
  type RowId = nat
  type Time = int

  datatype Row = Row(
    id: RowId,
    userId: UserId,
    familyId: FamilyId,
    expiresAt: Time,
    revokedAt: Option<Time>,
    userAgent: Option<string>,
    ip: Option<string>,
    createdAt: Time)

  type Table = map<Token, Row>

  /** What `randomUUID`, `generateToken` and the id default return for one insert. */
  datatype Generated = Generated(token: Token, family: FamilyId, id: RowId)

  datatype SessionContext = SessionContext(userAgent: Option<string>, ip: Option<string>)

  /** The WHERE clauses of the four revoking updates, less the shared `revoked_at IS NULL`. */
  datatype Selector =
    | ByToken(token: Token)
    | ByFamily(family: FamilyId)
    | ByUser(user: UserId)
    | BySession(user: UserId, id: RowId)

  predicate Selects(sel: Selector, token: Token, row: Row) {
    match sel
    case ByToken(t) => token == t
    case ByFamily(f) => row.familyId == f
    case ByUser(u) => row.userId == u
    case BySession(u, id) => row.id == id && row.userId == u
  }

  predicate IsLive(rows: Table, token: Token) {
    token in rows && rows[token].revokedAt == None
  }

  predicate IsSpent(rows: Table, token: Token) {
    token in rows && rows[token].revokedAt != None
  }

  /** The rows an update returns. */
  function Hits(rows: Table, sel: Selector): set<Token> {
    set t | t in rows && IsLive(rows, t) && Selects(sel, t, rows[t])
  }

  /** UPDATE ... SET revoked_at = now() WHERE sel AND revoked_at IS NULL. */
  function Revoke(rows: Table, sel: Selector, now: Time): Table {
    map t | t in rows ::
      if rows[t].revokedAt == None && Selects(sel, t, rows[t])
      then rows[t].(revokedAt := Some(now))
      else rows[t]
  }

  function AllLive(rows: Table): set<Token> {
    set t | t in rows && IsLive(rows, t)
  }

  /** A revoking update ends exactly the live rows it selects, as many as it returns, and keeps everything else. */
  lemma RevokeEnds(rows: Table, sel: Selector, now: Time)
    ensures var rows' := Revoke(rows, sel, now);
            && rows'.Keys == rows.Keys
            && (forall t :: IsLive(rows', t) <==> IsLive(rows, t) && !Selects(sel, t, rows[t]))
            && (forall t <- rows :: rows'[t].(revokedAt := rows[t].revokedAt) == rows[t])
            && (forall t <- rows :: rows[t].revokedAt.Some? ==> rows'[t] == rows[t])
            && (forall t :: IsLive(rows, t) && !IsLive(rows', t) ==> rows'[t].revokedAt == Some(now))
            && |Hits(rows, sel)| == |AllLive(rows)| - |AllLive(rows')|
  {
    var rows' := Revoke(rows, sel, now);
    assert AllLive(rows) == AllLive(rows') + Hits(rows, sel) && AllLive(rows') !! Hits(rows, sel);
  }

  /** DELETE ... WHERE expires_at < now(). */
  function Prune(rows: Table, now: Time): Table {
    map t | t in rows && now <= rows[t].expiresAt :: rows[t]
  }

  function Truncated(s: Option<string>, limit: nat): Option<string> {
    match s
    case None => None
    case Some(text) => Some(if |text| <= limit then text else text[..limit])
  }

  function NewRow(
    user: UserId, family: FamilyId, expiresAt: Time, ctx: SessionContext, gen: Generated, now: Time): Row
  {
    Row(gen.id, user, family, expiresAt, None, Truncated(ctx.userAgent, 512), Truncated(ctx.ip, 45), now)
  }

  /** SELECT ... WHERE user_id = ? AND revoked_at IS NULL AND expires_at > now(). */
  function Active(rows: Table, user: UserId, now: Time): map<Token, Row> {
    map t | t in rows && rows[t].userId == user && rows[t].revokedAt == None && now < rows[t].expiresAt :: rows[t]
  }
}
