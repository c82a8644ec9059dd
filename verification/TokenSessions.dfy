/**
  What the table means to its users: each family has an owner and at most one current token, and
  every other token still on record is spent. Serial runs of the service behave exactly so.
*/
module TokenSessions {
  import opened Options
  import opened TokenRows
  import opened TokenService

  datatype Family = Family(owner: UserId, current: Option<Token>)
  datatype Known = Known(id: RowId, family: FamilyId, expiresAt: Time)
  datatype Ledger = Ledger(families: map<FamilyId, Family>, known: map<Token, Known>)

  predicate Current(a: Ledger, t: Token) {
    t in a.known && a.known[t].family in a.families && a.families[a.known[t].family].current == Some(t)
  }

  /** The token's family loses its current token; the others keep theirs. */
  function Closed(a: Ledger, f: FamilyId): Ledger
    requires f in a.families
  {
    a.(families := a.families[f := a.families[f].(current := None)])
  }

  function Replaced(a: Ledger, f: FamilyId, owner: UserId, gen: Generated, expiresAt: Time): Ledger {
    Ledger(a.families[f := Family(owner, Some(gen.token))], a.known[gen.token := Known(gen.id, f, expiresAt)])
  }

  predicate Chosen(a: Ledger, sel: Selector, f: FamilyId) {
    f in a.families && a.families[f].current.Some? &&
    var t := a.families[f].current.value;
    match sel
    case ByToken(token) => t == token
    case ByFamily(family) => f == family
    case ByUser(user) => a.families[f].owner == user
    case BySession(user, id) => a.families[f].owner == user && t in a.known && a.known[t].id == id
  }

  function ClosedAll(a: Ledger, sel: Selector): Ledger {
    a.(families := map f | f in a.families ::
         if Chosen(a, sel, f) then a.families[f].(current := None) else a.families[f])
  }

  function Forgotten(a: Ledger, now: Time): Ledger {
    Ledger(map f | f in a.families ::
             var c := a.families[f].current;
             if c.Some? && c.value in a.known && a.known[c.value].expiresAt < now
             then a.families[f].(current := None) else a.families[f],
           map t | t in a.known && now <= a.known[t].expiresAt :: a.known[t])
  }

  function RotateLedger(a: Ledger, raw: Token, ttl: nat, now: Time, gen: Generated): (Ledger, Rotation) {
    if raw !in a.known || a.known[raw].family !in a.families then
      (a, Refused(InvalidToken))
    else
      var f := a.known[raw].family;
      if !Current(a, raw) then (Closed(a, f), Refused(TokenReuseDetected))
      else if a.known[raw].expiresAt <= now then (Closed(a, f), Refused(SessionExpired))
      else (Replaced(a, f, a.families[f].owner, gen, now + ttl),
            Rotated(a.families[f].owner, Issued(gen.token, now + ttl, f)))
  }

  /** What the table must agree on with the ledger. */
  ghost predicate Represents(rows: Table, a: Ledger) {
    rows.Keys == a.known.Keys &&
    (forall t <- rows :: a.known[t] == Known(rows[t].id, rows[t].familyId, rows[t].expiresAt)
                         && rows[t].familyId in a.families && a.families[rows[t].familyId].owner == rows[t].userId
                         && (IsLive(rows, t) <==> a.families[rows[t].familyId].current == Some(t))) &&
    (forall f <- a.families :: a.families[f].current.Some? ==>
       a.families[f].current.value in rows && rows[a.families[f].current.value].familyId == f)
  }

  predicate Unused(a: Ledger, gen: Generated) {
    gen.token !in a.known && gen.family !in a.families
  }

  lemma SelectionAgrees(rows: Table, a: Ledger, sel: Selector, t: Token)
    requires Represents(rows, a) && IsLive(rows, t)
    ensures Chosen(a, sel, rows[t].familyId) <==> Selects(sel, t, rows[t])
  {}

  lemma RecordsAgree(rows: Table, a: Ledger, sel: Selector, now: Time, t: Token)
    requires Represents(rows, a) && t in rows
    ensures var row, a' := Revoke(rows, sel, now)[t], ClosedAll(a, sel);
            && a'.known[t] == Known(row.id, row.familyId, row.expiresAt) && row.familyId == rows[t].familyId
            && row.familyId in a'.families && a'.families[row.familyId].owner == row.userId
  {
    hide Chosen, Selects, IsLive;
  }

  lemma CurrentStaysRecorded(rows: Table, a: Ledger, sel: Selector, now: Time, f: FamilyId)
    requires Represents(rows, a) && f in ClosedAll(a, sel).families && ClosedAll(a, sel).families[f].current.Some?
    ensures var t := ClosedAll(a, sel).families[f].current.value;
            t in Revoke(rows, sel, now) && Revoke(rows, sel, now)[t].familyId == f
  {
    hide Chosen, Selects, IsLive;
    assert ClosedAll(a, sel).families[f].current == a.families[f].current;
  }

  lemma RevokeRefines(rows: Table, a: Ledger, sel: Selector, now: Time)
    requires Represents(rows, a)
    ensures Represents(Revoke(rows, sel, now), ClosedAll(a, sel))
  {
    var rows', a' := Revoke(rows, sel, now), ClosedAll(a, sel);
    assert rows'.Keys == rows.Keys && a'.known == a.known;
    hide Revoke, ClosedAll, Chosen, Selects, IsLive;
    forall t | t in rows'
      ensures a'.known[t] == Known(rows'[t].id, rows'[t].familyId, rows'[t].expiresAt)
      ensures rows'[t].familyId in a'.families && a'.families[rows'[t].familyId].owner == rows'[t].userId
      ensures IsLive(rows', t) <==> a'.families[rows'[t].familyId].current == Some(t)
    {
      RecordsAgree(rows, a, sel, now, t);
      LifeAgrees(rows, a, sel, now, t);
    }
    forall f | f in a'.families && a'.families[f].current.Some?
      ensures a'.families[f].current.value in rows' && rows'[a'.families[f].current.value].familyId == f
    {
      CurrentStaysRecorded(rows, a, sel, now, f);
    }
  }

  lemma LifeAgrees(rows: Table, a: Ledger, sel: Selector, now: Time, t: Token)
    requires Represents(rows, a) && t in rows
    ensures IsLive(Revoke(rows, sel, now), t) <==> ClosedAll(a, sel).families[rows[t].familyId].current == Some(t)
  {
    if IsLive(rows, t) { SelectionAgrees(rows, a, sel, t); }
  }

  lemma HitsAgree(rows: Table, a: Ledger, sel: Selector)
    requires Represents(rows, a)
    ensures Hits(rows, sel) != {} <==> exists f :: Chosen(a, sel, f)
  {
    forall t | t in Hits(rows, sel) ensures Chosen(a, sel, rows[t].familyId) { SelectionAgrees(rows, a, sel, t); }
    forall f | Chosen(a, sel, f) ensures a.families[f].current.value in Hits(rows, sel) {
      SelectionAgrees(rows, a, sel, a.families[f].current.value);
    }
  }

  lemma InsertRefines(rows: Table, a: Ledger, user: UserId, f: FamilyId, ttl: nat, now: Time, gen: Generated)
    requires Represents(rows, a) && gen.token !in a.known
    requires f in a.families ==> a.families[f] == Family(user, None)
    ensures Represents(Issue(rows, user, NO_CONTEXT, f, ttl, now, gen).0, Replaced(a, f, user, gen, now + ttl))
  {
    var rows' := Issue(rows, user, NO_CONTEXT, f, ttl, now, gen).0;
    var a' := Replaced(a, f, user, gen, now + ttl);
    forall t <- rows ensures IsLive(rows', t) <==> a'.families[rows[t].familyId].current == Some(t) {
      if rows[t].familyId == f { assert !IsLive(rows, t); }
    }
  }

  lemma CloseRefines(rows: Table, a: Ledger, raw: Token, sel: Selector, now: Time)
    requires Represents(rows, a) && raw in rows
    requires sel == ByFamily(rows[raw].familyId) || (sel == ByToken(raw) && IsLive(rows, raw))
    ensures Represents(Revoke(rows, sel, now), Closed(a, rows[raw].familyId))
  {
    var f := rows[raw].familyId;
    RevokeRefines(rows, a, sel, now);
    forall g <- a.families ensures ClosedAll(a, sel).families[g] == Closed(a, f).families[g] {
      if Chosen(a, sel, g) { assert g == f; }
    }
    assert ClosedAll(a, sel).families == Closed(a, f).families;
  }

  lemma SuccessRefines(rows: Table, a: Ledger, raw: Token, ttl: nat, now: Time, gen: Generated)
    requires Represents(rows, a) && Unused(a, gen) && IsLive(rows, raw)
    ensures var f := rows[raw].familyId;
            Represents(Issue(Revoke(rows, ByToken(raw), now), rows[raw].userId, NO_CONTEXT, f, ttl, now, gen).0,
                       Replaced(a, f, rows[raw].userId, gen, now + ttl))
  {
    var f := rows[raw].familyId;
    CloseRefines(rows, a, raw, ByToken(raw), now);
    InsertRefines(Revoke(rows, ByToken(raw), now), Closed(a, f), rows[raw].userId, f, ttl, now, gen);
    assert Replaced(Closed(a, f), f, rows[raw].userId, gen, now + ttl).families
        == Replaced(a, f, rows[raw].userId, gen, now + ttl).families;
  }

  lemma RotateRefines(rows: Table, a: Ledger, raw: Token, ttl: nat, now: Time, gen: Generated)
    requires Represents(rows, a) && Unused(a, gen)
    ensures Represents(Rotate(rows, raw, NO_CONTEXT, ttl, now, gen).0, RotateLedger(a, raw, ttl, now, gen).0)
    ensures Rotate(rows, raw, NO_CONTEXT, ttl, now, gen).1 == RotateLedger(a, raw, ttl, now, gen).1
  {
    if raw in rows {
      var f := rows[raw].familyId;
      assert a.known[raw].family == f && (Current(a, raw) <==> IsLive(rows, raw))
          && a.families[f].owner == rows[raw].userId;
      if !IsLive(rows, raw) {
        CloseRefines(rows, a, raw, ByFamily(f), now);
      } else if rows[raw].expiresAt <= now {
        CloseRefines(rows, a, raw, ByToken(raw), now);
      } else {
        SuccessRefines(rows, a, raw, ttl, now, gen);
      }
    }
  }

  lemma PruneRefines(rows: Table, a: Ledger, now: Time)
    requires Represents(rows, a)
    ensures Represents(Prune(rows, now), Forgotten(a, now))
  {}

  /**
    `rotateRefreshToken(raw)` succeeds exactly on the current, unexpired token of a family, and its
    successor replaces it there.
  */
  lemma RotateSucceedsExactly(rows: Table, a: Ledger, raw: Token, ttl: nat, now: Time, gen: Generated)
    requires Represents(rows, a) && Unused(a, gen)
    ensures var (rows', result) := Rotate(rows, raw, NO_CONTEXT, ttl, now, gen);
            && (result.Rotated? <==> Current(a, raw) && now < a.known[raw].expiresAt)
            && (result.Rotated? ==>
                  var f := a.known[raw].family;
                  var a' := Replaced(a, f, a.families[f].owner, gen, now + ttl);
                  Represents(rows', a') && !Current(a', raw) && Current(a', gen.token)
                  && forall t :: t != raw && Current(a, t) ==> Current(a', t))
  {
    RotateRefines(rows, a, raw, ttl, now, gen);
    if raw in rows { assert a.known[raw].family == rows[raw].familyId; }
    if Current(a, raw) {
      var a' := Replaced(a, a.known[raw].family, a.families[a.known[raw].family].owner, gen, now + ttl);
      forall t | t != raw && Current(a, t) ensures Current(a', t) {
        assert a.known[t].family != a.known[raw].family;
      }
    }
  }

  /** The sessions page shows exactly the user's families whose current token has not expired. */
  lemma ListingShowsCurrent(rows: Table, a: Ledger, user: UserId, now: Time, t: Token)
    requires Represents(rows, a)
    ensures t in Active(rows, user, now) <==>
            Current(a, t) && a.families[a.known[t].family].owner == user && now < a.known[t].expiresAt
  {
    if t in rows { assert a.known[t].family == rows[t].familyId; }
  }

  // ---------------------------------------------------------------- runs

  predicate ListingAgrees(a: Ledger, user: UserId, now: Time, listed: map<Token, Row>) {
    listed.Keys == set t | t in a.known && Current(a, t) && a.families[a.known[t].family].owner == user
        && now < a.known[t].expiresAt
  }

  function ApplyLedger(a: Ledger, call: Call, ttl: nat): Ledger {
    match call.op
    case OpOpen(user, gen) => Replaced(a, gen.family, user, gen, call.now + ttl)
    case OpRotate(raw, gen) => RotateLedger(a, raw, ttl, call.now, gen).0
    case OpRevoke(sel) => ClosedAll(a, sel)
    case OpList(_) => a
    case OpPrune => Forgotten(a, call.now)
  }

  /** The answer the ledger predicts for a call. */
  ghost predicate Predicts(a: Ledger, call: Call, ttl: nat, answer: Answer) {
    match call.op
    case OpOpen(_, gen) => answer == Opened(Issued(gen.token, call.now + ttl, gen.family))
    case OpRotate(raw, gen) => answer == RotateAnswer(RotateLedger(a, raw, ttl, call.now, gen).1)
    case OpRevoke(sel) => answer == Revoked(exists f :: Chosen(a, sel, f))
    case OpList(user) => answer.Sessions? && ListingAgrees(a, user, call.now, answer.rows)
    case OpPrune => answer == Done
  }

  predicate CallFresh(a: Ledger, call: Call) {
    match call.op
    case OpOpen(_, gen) => Unused(a, gen)
    case OpRotate(_, gen) => Unused(a, gen)
    case _ => true
  }

  lemma CallRefines(rows: Table, a: Ledger, call: Call, ttl: nat)
    requires Represents(rows, a) && CallFresh(a, call)
    ensures Represents(Apply(rows, call, ttl).0, ApplyLedger(a, call, ttl))
    ensures Predicts(a, call, ttl, Apply(rows, call, ttl).1)
  {
    match call.op
    case OpOpen(_, gen) =>
    case OpRotate(raw, gen) => RotateRefines(rows, a, raw, ttl, call.now, gen);
    case OpRevoke(sel) => RevokeRefines(rows, a, sel, call.now); HitsAgree(rows, a, sel);
    case OpList(user) =>
      forall t ensures t in Active(rows, user, call.now) <==>
                       t in a.known && Current(a, t) && a.families[a.known[t].family].owner == user
                           && call.now < a.known[t].expiresAt
      {
        ListingShowsCurrent(rows, a, user, call.now, t);
      }
    case OpPrune => PruneRefines(rows, a, call.now);
  }

  /** Every answer of a serial run is the one the ledger predicts. */
  ghost predicate RunPredicted(rows: Table, a: Ledger, calls: seq<Call>, ttl: nat)
    decreases |calls|
  {
    calls != [] ==>
      Predicts(a, calls[0], ttl, Apply(rows, calls[0], ttl).1) &&
      RunPredicted(Apply(rows, calls[0], ttl).0, ApplyLedger(a, calls[0], ttl), calls[1..], ttl)
  }

  ghost predicate RunFresh(a: Ledger, calls: seq<Call>, ttl: nat)
    decreases |calls|
  {
    calls != [] ==> CallFresh(a, calls[0]) && RunFresh(ApplyLedger(a, calls[0], ttl), calls[1..], ttl)
  }

  lemma {:induction false} ServiceRefinesLedger(rows: Table, a: Ledger, calls: seq<Call>, ttl: nat)
    requires Represents(rows, a) && RunFresh(a, calls, ttl)
    ensures RunPredicted(rows, a, calls, ttl)
    decreases |calls|
  {
    if calls != [] {
      CallRefines(rows, a, calls[0], ttl);
      ServiceRefinesLedger(Apply(rows, calls[0], ttl).0, ApplyLedger(a, calls[0], ttl), calls[1..], ttl);
    }
  }
}
