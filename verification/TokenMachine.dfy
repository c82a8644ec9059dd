/**
  `token-service.ts` under concurrency: any number of calls share the table, and each call is a
  process that performs one SQL statement (or one synchronous stretch between two of them) per
  step. Steps of different processes interleave freely and the clock moves between them.
*/
module TokenMachine {
  import opened Options
  import opened TokenRows

  type Pid = nat

  datatype Outcome =
    | Opened(token: Token)
    | Rotated(raw: Token, next: Token)
    | ReuseDetected(family: FamilyId)
    | InvalidToken
    | SessionExpired(raw: Token)
    | Completed

  datatype Proc =
    | Opening(user: UserId, expiresAt: Time)  // issueRefreshToken without a family, before its INSERT
    | Claiming(raw: Token)                  // rotateRefreshToken, before the conditional UPDATE
    | Looking(raw: Token)                   // the UPDATE returned nothing, before the SELECT
    | Killing(family: FamilyId)             // a spent row was found, before revokeFamily's UPDATE
    | Claimed(raw: Token, row: Row)         // holds the row it revoked, before the expiry test
    | Issuing(raw: Token, user: UserId, family: FamilyId, expiresAt: Time)  // before the successor's INSERT
    | Revoking(sel: Selector)               // logout, logout-all, password reset, delete session
    | Pruning
    | Finished(outcome: Outcome)

  datatype Entry = Entry(family: FamilyId, expiresAt: Time)

  /** `log` and `owners` are history: every token ever inserted, and the owner each family was opened for. */
  datatype State = State(
    rows: Table,
    procs: map<Pid, Proc>,
    now: Time,
    ttl: nat,
    log: map<Token, Entry>,
    owners: map<FamilyId, UserId>)

  datatype Event =
    | Spawn(pid: Pid, proc: Proc)
    | Run(pid: Pid, gen: Generated)
    | Tick(elapsed: nat)

  predicate IsEntry(proc: Proc) {
    proc.Opening? || proc.Claiming? || proc.Revoking? || proc.Pruning?
  }

  /** Tokens, families and row ids never repeat; everything else is up to the scheduler. */
  predicate Enabled(s: State, e: Event) {
    match e
    case Spawn(pid, proc) => pid !in s.procs && IsEntry(proc) && (proc.Opening? ==> proc.expiresAt == s.now + s.ttl)
    case Run(pid, gen) =>
      pid in s.procs && !s.procs[pid].Finished? && gen.token !in s.log && gen.family !in s.owners
    case Tick(_) => true
  }

  function Inserted(s: State, user: UserId, family: FamilyId, expiresAt: Time, gen: Generated): State {
    s.(rows := s.rows[gen.token := NewRow(user, family, expiresAt, SessionContext(None, None), gen, s.now)],
       log := s.log[gen.token := Entry(family, expiresAt)],
       owners := s.owners[family := user])
  }

  function Moved(s: State, pid: Pid, proc: Proc): State {
    s.(procs := s.procs[pid := proc])
  }

  function RunProc(s: State, pid: Pid, gen: Generated): State
    requires pid in s.procs
  {
    match s.procs[pid]
    case Opening(user, expiresAt) =>
      Moved(Inserted(s, user, gen.family, expiresAt, gen), pid, Finished(Opened(gen.token)))
    case Claiming(raw) =>
      if IsLive(s.rows, raw) then
        Moved(s.(rows := Revoke(s.rows, ByToken(raw), s.now)), pid,
            Claimed(raw, s.rows[raw].(revokedAt := Some(s.now))))
      else
        Moved(s, pid, Looking(raw))
    case Looking(raw) =>
      if raw in s.rows then Moved(s, pid, Killing(s.rows[raw].familyId)) else Moved(s, pid, Finished(InvalidToken))
    case Killing(family) =>
      Moved(s.(rows := Revoke(s.rows, ByFamily(family), s.now)), pid, Finished(ReuseDetected(family)))
    case Claimed(raw, row) =>
      if row.expiresAt <= s.now then Moved(s, pid, Finished(SessionExpired(raw)))
      else Moved(s, pid, Issuing(raw, row.userId, row.familyId, s.now + s.ttl))
    case Issuing(raw, user, family, expiresAt) =>
      Moved(Inserted(s, user, family, expiresAt, gen), pid, Finished(Rotated(raw, gen.token)))
    case Revoking(sel) =>
      Moved(s.(rows := Revoke(s.rows, sel, s.now)), pid, Finished(Completed))
    case Pruning =>
      Moved(s.(rows := Prune(s.rows, s.now)), pid, Finished(Completed))
    case Finished(_) => s
  }

  function Step(s: State, e: Event): State
    requires Enabled(s, e)
  {
    match e
    case Spawn(pid, proc) => Moved(s, pid, proc)
    case Run(pid, gen) => RunProc(s, pid, gen)
    case Tick(elapsed) => s.(now := s.now + elapsed)
  }

  ghost predicate Runs(s: State, es: seq<Event>)
    decreases |es|
  {
    es == [] || (Enabled(s, es[0]) && Runs(Step(s, es[0]), es[1..]))
  }

  ghost function Exec(s: State, es: seq<Event>): State
    requires Runs(s, es)
    decreases |es|
  {
    if es == [] then s else Exec(Step(s, es[0]), es[1..])
  }

  // ---------------------------------------------------------------- invariant

  /** A rotation holds a family from its claim until its successor is in the table (or it gives up). */
  predicate Holds(proc: Proc, family: FamilyId) {
    (proc.Claimed? && proc.row.familyId == family) || (proc.Issuing? && proc.family == family)
  }

  /** The rotation that claimed `raw`. */
  predicate Won(proc: Proc, raw: Token) {
    ((proc.Claimed? || proc.Issuing?) && proc.raw == raw) ||
    (proc.Finished? && (proc.outcome.Rotated? || proc.outcome.SessionExpired?) && proc.outcome.raw == raw)
  }

  function LiveTokens(s: State, family: FamilyId): set<Token> {
    set t | t in s.rows && IsLive(s.rows, t) && s.rows[t].familyId == family
  }

  function Holders(s: State, family: FamilyId): set<Pid> {
    set p | p in s.procs && Holds(s.procs[p], family)
  }

  ghost predicate RowsRecorded(s: State) {
    (forall t <- s.rows :: t in s.log && s.log[t] == Entry(s.rows[t].familyId, s.rows[t].expiresAt)
                           && s.rows[t].familyId in s.owners && s.rows[t].userId == s.owners[s.rows[t].familyId]) &&
    (forall t <- s.log :: s.log[t].family in s.owners && (t in s.rows || s.log[t].expiresAt < s.now))
  }

  predicate Recorded(s: State, proc: Proc) {
    match proc
    case Claimed(raw, row) =>
      raw in s.log && s.log[raw].family == row.familyId && row.familyId in s.owners
          && row.userId == s.owners[row.familyId]
    case Issuing(raw, user, family, _) =>
      raw in s.log && s.log[raw].family == family && family in s.owners && user == s.owners[family]
    case Killing(family) => family in s.owners
    case Finished(Rotated(raw, next)) =>
      raw in s.log && next in s.log && s.log[next].family == s.log[raw].family
    case Finished(SessionExpired(raw)) => raw in s.log
    case _ => true
  }

  ghost predicate ProcsRecorded(s: State) {
    forall p <- s.procs :: Recorded(s, s.procs[p])
  }

  /** No two of a family's live rows and holding rotations coexist. */
  ghost predicate Exclusive(s: State) {
    (forall t, u :: IsLive(s.rows, t) && IsLive(s.rows, u) && t != u ==> s.rows[t].familyId != s.rows[u].familyId) &&
    (forall p, t :: p in s.procs && IsLive(s.rows, t) ==> !Holds(s.procs[p], s.rows[t].familyId)) &&
    (forall p, q, f :: p in s.procs && q in s.procs && Holds(s.procs[p], f) && Holds(s.procs[q], f) ==> p == q)
  }

  ghost predicate ClaimedOnce(s: State) {
    (forall p, raw :: p in s.procs && Won(s.procs[p], raw) ==> !IsLive(s.rows, raw)) &&
    (forall p, q, raw :: p in s.procs && q in s.procs && Won(s.procs[p], raw) && Won(s.procs[q], raw) ==> p == q)
  }

  ghost predicate Inv(s: State) {
    RowsRecorded(s) && ProcsRecorded(s) && Exclusive(s) && ClaimedOnce(s)
  }

  predicate Initial(s: State) {
    s.rows == map[] && s.procs == map[] && s.log == map[] && s.owners == map[]
  }

  /** Steps that insert nothing and claim nothing: rows only lose life, or leave once expired. */
  ghost predicate Shrinks(s: State, s': State) {
    s'.log == s.log && s'.owners == s.owners && s.now <= s'.now &&
    (forall t <- s'.rows :: t in s.rows && s'.rows[t].(revokedAt := s.rows[t].revokedAt) == s.rows[t]
                            && (IsLive(s'.rows, t) ==> IsLive(s.rows, t))) &&
    (forall t <- s.rows :: t in s'.rows || s.rows[t].expiresAt < s'.now)
  }

  lemma ShrinkKeepsRecords(s: State, s': State, pid: Pid)
    requires Inv(s) && Shrinks(s, s')
    requires pid in s'.procs && s'.procs.Keys == s.procs.Keys + {pid}
    requires forall q <- s.procs :: q != pid ==> s'.procs[q] == s.procs[q]
    requires Recorded(s', s'.procs[pid])
    ensures RowsRecorded(s') && ProcsRecorded(s')
  {
    hide Exclusive, ClaimedOnce, Holds, Won;
    assert forall p <- s.procs :: p != pid ==> Recorded(s, s.procs[p]) && Recorded(s', s'.procs[p]);
  }

  lemma ShrinkKeepsInv(s: State, s': State, pid: Pid)
    requires Inv(s) && Shrinks(s, s')
    requires pid in s'.procs && s'.procs.Keys == s.procs.Keys + {pid}
    requires forall q <- s.procs :: q != pid ==> s'.procs[q] == s.procs[q]
    requires Recorded(s', s'.procs[pid])
    requires forall f :: Holds(s'.procs[pid], f) ==> pid in s.procs && Holds(s.procs[pid], f)
    requires forall raw :: Won(s'.procs[pid], raw) ==> pid in s.procs && Won(s.procs[pid], raw)
    ensures Inv(s')
  {
    ShrinkKeepsRecords(s, s', pid);
    hide Recorded, RowsRecorded, ProcsRecorded;
    assert Exclusive(s') by { hide ClaimedOnce, Won; }
    assert ClaimedOnce(s') by { hide Exclusive, Holds; }
  }

  /** What a successful claim does: the token dies and the process holds its family. */
  ghost predicate Claims(s: State, s': State, pid: Pid, raw: Token) {
    IsLive(s.rows, raw) && pid in s.procs && s.procs[pid] == Claiming(raw) &&
    s'.log == s.log && s'.owners == s.owners && s'.now == s.now && s'.rows.Keys == s.rows.Keys &&
    (forall t <- s.rows :: s'.rows[t].(revokedAt := s.rows[t].revokedAt) == s.rows[t]
                           && (IsLive(s'.rows, t) <==> IsLive(s.rows, t) && t != raw)) &&
    s'.procs == s.procs[pid := Claimed(raw, s'.rows[raw])]
  }

  lemma ClaimKeepsRecords(s: State, s': State, pid: Pid, raw: Token)
    requires Inv(s) && Claims(s, s', pid, raw)
    ensures RowsRecorded(s') && ProcsRecorded(s')
  {
    hide Exclusive, ClaimedOnce, Holds, Won;
    assert RowsRecorded(s') by { hide Recorded; }
    forall p | p in s'.procs ensures Recorded(s', s'.procs[p]) {
      if p != pid { assert Recorded(s, s.procs[p]); }
    }
  }

  lemma ClaimKeepsExclusive(s: State, s': State, pid: Pid, raw: Token)
    requires Inv(s) && Claims(s, s', pid, raw)
    ensures Exclusive(s')
  {
    hide ClaimedOnce, RowsRecorded, ProcsRecorded, Recorded, Won;
    assert forall t :: IsLive(s'.rows, t) ==> IsLive(s.rows, t) && t != raw;
  }

  lemma ClaimKeepsClaims(s: State, s': State, pid: Pid, raw: Token)
    requires Inv(s) && Claims(s, s', pid, raw)
    ensures ClaimedOnce(s')
  {
    hide Exclusive, RowsRecorded, ProcsRecorded, Recorded, Holds;
    assert forall t :: IsLive(s'.rows, t) ==> IsLive(s.rows, t) && t != raw;
  }

  lemma ClaimKeepsInv(s: State, pid: Pid, gen: Generated)
    requires Inv(s) && Enabled(s, Run(pid, gen))
    requires s.procs[pid].Claiming? && IsLive(s.rows, s.procs[pid].raw)
    ensures Inv(RunProc(s, pid, gen))
  {
    var s' := RunProc(s, pid, gen);
    var raw := s.procs[pid].raw;
    hide RowsRecorded, ProcsRecorded, Exclusive, ClaimedOnce;
    assert Claims(s, s', pid, raw);
    ClaimKeepsRecords(s, s', pid, raw);
    ClaimKeepsExclusive(s, s', pid, raw);
    ClaimKeepsClaims(s, s', pid, raw);
  }

  /** What an INSERT does to the relations the invariant speaks of. */
  lemma InsertKeepsRecords(s: State, pid: Pid, gen: Generated)
    requires Inv(s) && Enabled(s, Run(pid, gen))
    requires s.procs[pid].Opening? || s.procs[pid].Issuing?
    ensures RowsRecorded(RunProc(s, pid, gen)) && ProcsRecorded(RunProc(s, pid, gen))
  {
    var s' := RunProc(s, pid, gen);
    assert Recorded(s, s.procs[pid]);
    forall p <- s'.procs ensures Recorded(s', s'.procs[p]) {
      if p != pid { assert Recorded(s, s.procs[p]); }
    }
  }

  lemma InsertKeepsExclusive(s: State, pid: Pid, gen: Generated)
    requires Inv(s) && Enabled(s, Run(pid, gen))
    requires s.procs[pid].Opening? || s.procs[pid].Issuing?
    ensures Exclusive(RunProc(s, pid, gen))
  {
    var s' := RunProc(s, pid, gen);
    var family := s'.rows[gen.token].familyId;
    assert Recorded(s, s.procs[pid]);
    forall t, u | IsLive(s'.rows, t) && IsLive(s'.rows, u) && t != u
      ensures s'.rows[t].familyId != s'.rows[u].familyId
    {
      if t != gen.token { assert IsLive(s.rows, t) && s.rows[t].familyId != family; }
      if u != gen.token { assert IsLive(s.rows, u) && s.rows[u].familyId != family; }
    }
    forall p, t | p in s'.procs && IsLive(s'.rows, t) ensures !Holds(s'.procs[p], s'.rows[t].familyId) {
      if p != pid {
        assert Recorded(s, s.procs[p]);
        if t != gen.token { assert IsLive(s.rows, t); }
      }
    }
    forall p, q, f | p in s'.procs && q in s'.procs && Holds(s'.procs[p], f) && Holds(s'.procs[q], f) ensures p == q {
      assert p != pid && q != pid;
      assert Holds(s.procs[p], f) && Holds(s.procs[q], f);
    }
  }

  lemma InsertKeepsClaims(s: State, pid: Pid, gen: Generated)
    requires Inv(s) && Enabled(s, Run(pid, gen))
    requires s.procs[pid].Opening? || s.procs[pid].Issuing?
    ensures ClaimedOnce(RunProc(s, pid, gen))
  {
    var s' := RunProc(s, pid, gen);
    assert forall raw :: Won(s'.procs[pid], raw) ==> Won(s.procs[pid], raw);
    forall p, raw | p in s'.procs && Won(s'.procs[p], raw) ensures !IsLive(s'.rows, raw) {
      assert Recorded(s, s.procs[p]) && Won(s.procs[p], raw);
    }
    forall p, q, raw | p in s'.procs && q in s'.procs && Won(s'.procs[p], raw) && Won(s'.procs[q], raw) ensures p == q {
      assert Won(s.procs[p], raw) && Won(s.procs[q], raw);
    }
  }

  lemma InsertKeepsInv(s: State, pid: Pid, gen: Generated)
    requires Inv(s) && Enabled(s, Run(pid, gen))
    requires s.procs[pid].Opening? || s.procs[pid].Issuing?
    ensures Inv(RunProc(s, pid, gen))
  {
    InsertKeepsRecords(s, pid, gen);
    InsertKeepsExclusive(s, pid, gen);
    InsertKeepsClaims(s, pid, gen);
  }

  lemma RevokeKeepsInv(s: State, pid: Pid, sel: Selector, outcome: Outcome)
    requires Inv(s) && pid in s.procs
    requires outcome == Completed || outcome.ReuseDetected?
    ensures Inv(Moved(s.(rows := Revoke(s.rows, sel, s.now)), pid, Finished(outcome)))
  {
    ShrinkKeepsInv(s, Moved(s.(rows := Revoke(s.rows, sel, s.now)), pid, Finished(outcome)), pid);
  }

  lemma StepKeepsInv(s: State, e: Event)
    requires Inv(s) && Enabled(s, e)
    ensures Inv(Step(s, e))
  {
    match e
    case Tick(_) => assert ProcsRecorded(Step(s, e)) by { assert forall p <- s.procs :: Recorded(s, s.procs[p]); }
    case Spawn(pid, proc) => ShrinkKeepsInv(s, Step(s, e), pid);
    case Run(pid, gen) => RunProcKeepsInv(s, pid, gen);
  }

  lemma RunProcKeepsInv(s: State, pid: Pid, gen: Generated)
    requires Inv(s) && Enabled(s, Run(pid, gen))
    ensures Inv(RunProc(s, pid, gen))
  {
    assert Recorded(s, s.procs[pid]);
    var proc := s.procs[pid];
    if proc.Opening? || proc.Issuing? {
      InsertKeepsInv(s, pid, gen);
    } else if proc.Revoking? {
      RevokeKeepsInv(s, pid, proc.sel, Completed);
    } else if proc.Killing? {
      RevokeKeepsInv(s, pid, ByFamily(proc.family), ReuseDetected(proc.family));
    } else if proc.Claiming? && IsLive(s.rows, proc.raw) {
      ClaimKeepsInv(s, pid, gen);
    } else {
      ShrinkKeepsInv(s, RunProc(s, pid, gen), pid);
    }
  }
}
