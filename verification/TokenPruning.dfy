/** Deleting expired rows cannot be noticed by callers who name no expired row. */
module TokenPruning {
  import opened Options
  import opened TokenRows
  import opened TokenService
  import Machine = TokenMachine

  /** The two tables differ only in rows that expired before `now`. */
  ghost predicate Agree(pruned: Table, full: Table, now: Time) {
    (forall t <- pruned :: t in full && full[t] == pruned[t]) &&
    (forall t <- full :: t in pruned || full[t].expiresAt < now)
  }

  /** Whatever row the call names has not expired; names that match no row are allowed. */
  ghost predicate NamesUnexpired(full: Table, call: Call) {
    match call.op
    case OpOpen(_, gen) => gen.token !in full
    case OpRotate(raw, gen) => gen.token !in full && (raw in full ==> call.now <= full[raw].expiresAt)
    case OpRevoke(ByToken(raw)) => raw in full ==> call.now <= full[raw].expiresAt
    case OpRevoke(BySession(_, id)) => forall t <- full :: full[t].id == id ==> call.now <= full[t].expiresAt
    case _ => true
  }

  /** Revocations by user or family only report how many rows they hit, and only to the log. */
  function Seen(call: Call, answer: Answer): Answer {
    if call.op.OpRevoke? && (call.op.sel.ByUser? || call.op.sel.ByFamily?) then Done else answer
  }

  function Answers(rows: Table, calls: seq<Call>, ttl: nat): seq<Answer>
    decreases |calls|
  {
    if calls == [] then []
    else
      var (rows', answer) := Apply(rows, calls[0], ttl);
      (if calls[0].op.OpPrune? then [] else [Seen(calls[0], answer)]) + Answers(rows', calls[1..], ttl)
  }

  function Unpruned(calls: seq<Call>): seq<Call>
    decreases |calls|
  {
    if calls == [] then [] else (if calls[0].op.OpPrune? then [] else [calls[0]]) + Unpruned(calls[1..])
  }

  /** Calls come in time order, and each names unexpired rows of the table that is never pruned. */
  ghost predicate Polite(full: Table, calls: seq<Call>, ttl: nat, now: Time)
    decreases |calls|
  {
    calls != [] ==>
      now <= calls[0].now && NamesUnexpired(full, calls[0]) &&
      Polite(if calls[0].op.OpPrune? then full else Apply(full, calls[0], ttl).0, calls[1..], ttl, calls[0].now)
  }

  lemma RevokeAgrees(pruned: Table, full: Table, sel: Selector, now: Time)
    requires Agree(pruned, full, now)
    ensures Agree(Revoke(pruned, sel, now), Revoke(full, sel, now), now)
  {}

  lemma RotateAgrees(pruned: Table, full: Table, raw: Token, ttl: nat, now: Time, gen: Generated)
    requires Agree(pruned, full, now) && gen.token !in full
    requires raw in full ==> now <= full[raw].expiresAt
    ensures Agree(Rotate(pruned, raw, NO_CONTEXT, ttl, now, gen).0, Rotate(full, raw, NO_CONTEXT, ttl, now, gen).0, now)
    ensures Rotate(pruned, raw, NO_CONTEXT, ttl, now, gen).1 == Rotate(full, raw, NO_CONTEXT, ttl, now, gen).1
  {
    if raw in full {
      assert raw in pruned;
      RevokeAgrees(pruned, full, ByFamily(full[raw].familyId), now);
      RevokeAgrees(pruned, full, ByToken(raw), now);
    }
  }

  lemma CallAgrees(pruned: Table, full: Table, call: Call, ttl: nat)
    requires Agree(pruned, full, call.now) && NamesUnexpired(full, call) && !call.op.OpPrune?
    ensures Agree(Apply(pruned, call, ttl).0, Apply(full, call, ttl).0, call.now)
    ensures Seen(call, Apply(pruned, call, ttl).1) == Seen(call, Apply(full, call, ttl).1)
  {
    match call.op
    case OpOpen(_, _) =>
    case OpRotate(raw, gen) => RotateAgrees(pruned, full, raw, ttl, call.now, gen);
    case OpRevoke(sel) =>
      RevokeAgrees(pruned, full, sel, call.now);
      if sel.ByToken? || sel.BySession? { assert Hits(pruned, sel) == Hits(full, sel); }
    case OpList(user) => assert Active(pruned, user, call.now) == Active(full, user, call.now);
  }

  /** A run that prunes at arbitrary points answers every call as the same run that never prunes. */
  lemma {:induction false} PruningIsInvisible(pruned: Table, full: Table, calls: seq<Call>, ttl: nat, now: Time)
    requires Agree(pruned, full, now) && Polite(full, calls, ttl, now)
    ensures Answers(pruned, calls, ttl) == Answers(full, Unpruned(calls), ttl)
    decreases |calls|
  {
    if calls != [] {
      var call := calls[0];
      var rest := Unpruned(calls[1..]);
      assert Agree(pruned, full, call.now);
      if call.op.OpPrune? {
        PruningIsInvisible(Prune(pruned, call.now), full, calls[1..], ttl, call.now);
        assert Unpruned(calls) == rest;
      } else {
        CallAgrees(pruned, full, call, ttl);
        PruningIsInvisible(Apply(pruned, call, ttl).0, Apply(full, call, ttl).0, calls[1..], ttl, call.now);
        assert Unpruned(calls) == [call] + rest && ([call] + rest)[0] == call && ([call] + rest)[1..] == rest;
      }
    }
  }

  /**
    Why the side condition is there: a replay of an expired spent token ends a session that is still
    good, unless its row was pruned first; then the session goes on.
  */
  lemma PruningHidesAnExpiredReplay(
    rows: Table, spent: Token, live: Token, ttl: nat, now: Time, g1: Generated, g2: Generated)
    requires IsSpent(rows, spent) && rows[spent].expiresAt < now
    requires IsLive(rows, live) && now < rows[live].expiresAt && rows[live].familyId == rows[spent].familyId
    ensures var replay := Call(OpRotate(spent, g1), now);
            var refresh := Call(OpRotate(live, g2), now);
            var next := Issued(g2.token, now + ttl, rows[live].familyId);
            && Answers(rows, [Call(OpPrune, now), replay, refresh], ttl)
               == [RotateAnswer(Refused(InvalidToken)), RotateAnswer(Rotated(rows[live].userId, next))]
            && Answers(rows, [replay, refresh], ttl)
               == [RotateAnswer(Refused(TokenReuseDetected)), RotateAnswer(Refused(TokenReuseDetected))]
  {
    var replay := Call(OpRotate(spent, g1), now);
    var refresh := Call(OpRotate(live, g2), now);
    var pruned := Prune(rows, now);
    var killed := Revoke(rows, ByFamily(rows[spent].familyId), now);
    assert spent !in pruned && IsLive(pruned, live) && pruned[live] == rows[live];
    assert live in killed && !IsLive(killed, live);
    TwoAnswers(pruned, replay, refresh, ttl);
    TwoAnswers(rows, replay, refresh, ttl);
    assert [Call(OpPrune, now), replay, refresh][1..] == [replay, refresh];
    assert Answers(rows, [Call(OpPrune, now), replay, refresh], ttl) == Answers(pruned, [replay, refresh], ttl);
  }

  lemma TwoAnswers(rows: Table, first: Call, second: Call, ttl: nat)
    requires first.op.OpRotate? && second.op.OpRotate?
    ensures var (rows', answer) := Apply(rows, first, ttl);
            Answers(rows, [first, second], ttl) == [answer, Apply(rows', second, ttl).1]
  {
    var rows' := Apply(rows, first, ttl).0;
    assert [first, second][1..] == [second] && [second][1..] == [];
    assert Answers(rows', [second], ttl) == [Apply(rows', second, ttl).1];
  }

  // ---------------------------------------------------------------- under concurrency

  /** The same process, or a pruning that has run in one history and never runs in the other. */
  predicate SameProc(pruned: Machine.Proc, full: Machine.Proc) {
    pruned == full || (pruned == Machine.Finished(Machine.Completed) && full == Machine.Pruning)
  }

  ghost predicate Alike(a: Machine.State, b: Machine.State) {
    a.now == b.now && a.ttl == b.ttl && a.log == b.log && a.owners == b.owners &&
    Agree(a.rows, b.rows, a.now) && a.procs.Keys == b.procs.Keys &&
    forall p <- a.procs :: SameProc(a.procs[p], b.procs[p])
  }

  /** The step executes the DELETE of a pruning call. */
  predicate Prunes(s: Machine.State, e: Machine.Event) {
    e.Run? && e.pid in s.procs && s.procs[e.pid].Pruning?
  }

  /** A rotation that tries to claim its token, or looks for why it could not, finds no expired row. */
  ghost predicate NamesUnexpiredRow(full: Machine.State, e: Machine.Event) {
    e.Run? && e.pid in full.procs ==>
      match full.procs[e.pid]
      case Claiming(raw) => raw in full.rows ==> full.now <= full.rows[raw].expiresAt
      case Looking(raw) => raw in full.rows ==> full.now <= full.rows[raw].expiresAt
      case _ => true
  }

  /** The same events less every execution of a DELETE. */
  ghost function NeverPruned(a: Machine.State, es: seq<Machine.Event>): seq<Machine.Event>
    requires Machine.Runs(a, es)
    decreases |es|
  {
    if es == [] then []
    else (if Prunes(a, es[0]) then [] else [es[0]]) + NeverPruned(Machine.Step(a, es[0]), es[1..])
  }

  /** Each claim and each look of the history that never prunes names an unexpired row, or none. */
  ghost predicate PoliteRun(b: Machine.State, es: seq<Machine.Event>)
    decreases |es|
  {
    es != [] && Machine.Enabled(b, es[0]) ==>
      NamesUnexpiredRow(b, es[0]) && PoliteRun(Machine.Step(b, es[0]), es[1..])
  }

  ghost predicate NeverDeletes(b: Machine.State, es: seq<Machine.Event>)
    requires Machine.Runs(b, es)
    decreases |es|
  {
    es == [] || (!Prunes(b, es[0]) && NeverDeletes(Machine.Step(b, es[0]), es[1..]))
  }

  lemma AgreeLater(pruned: Table, full: Table, now: Time, later: Time)
    requires Agree(pruned, full, now) && now <= later
    ensures Agree(pruned, full, later)
  {}

  lemma PruneAlike(a: Machine.State, b: Machine.State, e: Machine.Event)
    requires Alike(a, b) && Machine.Enabled(a, e) && Prunes(a, e)
    ensures Alike(Machine.Step(a, e), b)
  {}

  lemma StillEnabled(a: Machine.State, b: Machine.State, e: Machine.Event)
    requires Alike(a, b) && Machine.Enabled(a, e)
    ensures Machine.Enabled(b, e)
    ensures e.Run? && !Prunes(a, e) ==> b.procs[e.pid] == a.procs[e.pid]
  {
    if e.Run? { assert SameProc(a.procs[e.pid], b.procs[e.pid]); }
  }

  lemma RotationAlike(a: Machine.State, b: Machine.State, pid: Machine.Pid, gen: Generated)
    requires Alike(a, b) && Machine.Enabled(a, Machine.Run(pid, gen)) && b.procs[pid] == a.procs[pid]
    requires NamesUnexpiredRow(b, Machine.Run(pid, gen)) && (a.procs[pid].Claiming? || a.procs[pid].Looking?)
    ensures var a', b' := Machine.RunProc(a, pid, gen), Machine.RunProc(b, pid, gen);
            && a'.procs[pid] == b'.procs[pid] && Agree(a'.rows, b'.rows, a.now)
            && a'.log == b'.log && a'.owners == b'.owners
  {
    var raw := a.procs[pid].raw;
    assert raw in a.rows <==> raw in b.rows;
    RevokeAgrees(a.rows, b.rows, ByToken(raw), a.now);
    hide Revoke;
  }

  lemma RunAlike(a: Machine.State, b: Machine.State, pid: Machine.Pid, gen: Generated)
    requires Alike(a, b) && Machine.Enabled(a, Machine.Run(pid, gen))
    requires b.procs[pid] == a.procs[pid] && !a.procs[pid].Pruning?
    requires NamesUnexpiredRow(b, Machine.Run(pid, gen))
    ensures var a', b' := Machine.RunProc(a, pid, gen), Machine.RunProc(b, pid, gen);
            && a'.procs[pid] == b'.procs[pid] && Agree(a'.rows, b'.rows, a.now)
            && a'.log == b'.log && a'.owners == b'.owners
  {
    hide Revoke;
    var proc := a.procs[pid];
    match proc
    case Claiming(raw) => RotationAlike(a, b, pid, gen);
    case Looking(_) => RotationAlike(a, b, pid, gen);
    case Killing(family) => RevokeAgrees(a.rows, b.rows, ByFamily(family), a.now);
    case Revoking(sel) => RevokeAgrees(a.rows, b.rows, sel, a.now);
    case _ =>
  }

  lemma OnlyItsProc(s: Machine.State, pid: Machine.Pid, gen: Generated)
    requires pid in s.procs
    ensures var s' := Machine.RunProc(s, pid, gen);
            s'.procs == s.procs[pid := s'.procs[pid]] && s'.now == s.now && s'.ttl == s.ttl
  {
    assert s.procs == s.procs[pid := s.procs[pid]];
  }

  lemma StepAlike(a: Machine.State, b: Machine.State, e: Machine.Event)
    requires Alike(a, b) && Machine.Enabled(a, e) && Machine.Enabled(b, e) && !Prunes(a, e) && NamesUnexpiredRow(b, e)
    ensures Alike(Machine.Step(a, e), Machine.Step(b, e))
  {
    match e
    case Spawn(_, _) =>
    case Tick(elapsed) => AgreeLater(a.rows, b.rows, a.now, a.now + elapsed);
    case Run(pid, gen) =>
      StillEnabled(a, b, e);
      RunAlike(a, b, pid, gen);
      OnlyItsProc(a, pid, gen);
      OnlyItsProc(b, pid, gen);
      hide Machine.RunProc, Agree, NamesUnexpiredRow;
  }

  /** What callers can see: where every call but a pruning stands, and every list of active sessions. */
  ghost predicate Indistinguishable(a: Machine.State, b: Machine.State) {
    a.procs.Keys == b.procs.Keys && (forall p <- a.procs :: SameProc(a.procs[p], b.procs[p])) &&
    forall user :: Active(a.rows, user, a.now) == Active(b.rows, user, b.now)
  }

  lemma AlikeShowsNothing(a: Machine.State, b: Machine.State)
    requires Alike(a, b)
    ensures Indistinguishable(a, b)
  {
    forall user ensures Active(a.rows, user, a.now) == Active(b.rows, user, b.now) {
      assert forall t <- b.rows :: a.now < b.rows[t].expiresAt ==> t in a.rows;
    }
  }

  lemma {:induction false} HistoriesStayAlike(a: Machine.State, b: Machine.State, es: seq<Machine.Event>)
    requires Alike(a, b) && Machine.Runs(a, es) && PoliteRun(b, NeverPruned(a, es))
    ensures Machine.Runs(b, NeverPruned(a, es)) && NeverDeletes(b, NeverPruned(a, es))
    ensures Alike(Machine.Exec(a, es), Machine.Exec(b, NeverPruned(a, es)))
    decreases |es|
  {
    hide Alike, Prunes, NamesUnexpiredRow, Machine.Step, Machine.Enabled;
    if es != [] {
      var e := es[0];
      var a' := Machine.Step(a, e);
      var rest := NeverPruned(a', es[1..]);
      if Prunes(a, e) {
        assert NeverPruned(a, es) == rest;
        PruneAlike(a, b, e);
        HistoriesStayAlike(a', b, es[1..]);
      } else {
        assert NeverPruned(a, es) == [e] + rest && ([e] + rest)[1..] == rest;
        StillEnabled(a, b, e);
        StepAlike(a, b, e);
        NoDeleteEither(a, b, e);
        HistoriesStayAlike(a', Machine.Step(b, e), es[1..]);
      }
    }
  }

  lemma NoDeleteEither(a: Machine.State, b: Machine.State, e: Machine.Event)
    requires Alike(a, b) && Machine.Enabled(a, e) && !Prunes(a, e)
    ensures !Prunes(b, e)
  {
    StillEnabled(a, b, e);
  }

  /**
    In any interleaving, with DELETEs falling between the statements of other calls, every call stands
    where it stands in the same history without a single DELETE, and every list of sessions is the same.
  */
  lemma PruningIsInvisibleInEveryInterleaving(s: Machine.State, es: seq<Machine.Event>)
    requires Machine.Runs(s, es) && PoliteRun(s, NeverPruned(s, es))
    ensures Machine.Runs(s, NeverPruned(s, es)) && NeverDeletes(s, NeverPruned(s, es))
    ensures Indistinguishable(Machine.Exec(s, es), Machine.Exec(s, NeverPruned(s, es)))
  {
    HistoriesStayAlike(s, s, es);
    AlikeShowsNothing(Machine.Exec(s, es), Machine.Exec(s, NeverPruned(s, es)));
  }
}
