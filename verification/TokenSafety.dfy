/** What holds over whole interleaved runs of the refresh-token service. */
module TokenSafety {
  import opened Options
  import opened TokenRows
  import opened TokenMachine
  import opened FiniteSets
  import Service = TokenService

  lemma {:induction false} RunKeepsInv(s: State, es: seq<Event>)
    requires Inv(s) && Runs(s, es)
    ensures Inv(Exec(s, es))
    decreases |es|
  {
    if es != [] {
      StepKeepsInv(s, es[0]);
      RunKeepsInv(Step(s, es[0]), es[1..]);
    }
  }

  /**
    In every reachable state a family has at most one live row or claimed-but-unissued rotation, counted
    together, and one owner.
  */
  lemma OneSlotPerFamily(s: State, es: seq<Event>, family: FamilyId)
    requires Initial(s) && Runs(s, es)
    ensures var r := Exec(s, es); |LiveTokens(r, family)| + |Holders(r, family)| <= 1
    ensures var r := Exec(s, es);
            forall t, u :: t in r.rows && u in r.rows && r.rows[t].familyId == r.rows[u].familyId
                           ==> r.rows[t].userId == r.rows[u].userId
  {
    RunKeepsInv(s, es);
    var r := Exec(s, es);
    SubsingletonSize(LiveTokens(r, family));
    SubsingletonSize(Holders(r, family));
    if t, p :| t in LiveTokens(r, family) && p in Holders(r, family) {
      assert false;
    }
  }

  /** Of all the rotations that ever present `raw`, at most one gets a successor. */
  lemma OneSuccessorPerToken(s: State, es: seq<Event>, p: Pid, q: Pid, raw: Token)
    requires Initial(s) && Runs(s, es)
    requires var r := Exec(s, es); p in r.procs && q in r.procs && Won(r.procs[p], raw) && Won(r.procs[q], raw)
    ensures p == q
  {
    RunKeepsInv(s, es);
  }

  // ---------------------------------------------------------------- family death

  ghost predicate Dead(s: State, family: FamilyId) {
    family in s.owners &&
    (forall t :: IsLive(s.rows, t) ==> s.rows[t].familyId != family) &&
    (forall p <- s.procs :: !Holds(s.procs[p], family))
  }

  ghost predicate NoLiveRow(s: State, family: FamilyId) {
    forall t :: IsLive(s.rows, t) ==> s.rows[t].familyId != family
  }

  predicate Succeeded(s: State, p: Pid, family: FamilyId) {
    p in s.procs && s.procs[p].Finished? && s.procs[p].outcome.Rotated? &&
    s.procs[p].outcome.raw in s.log && s.log[s.procs[p].outcome.raw].family == family
  }

  lemma DeadGainsNoRow(s: State, e: Event, family: FamilyId, t: Token)
    requires Dead(s, family) && Enabled(s, e) && IsLive(Step(s, e).rows, t)
    ensures Step(s, e).rows[t].familyId != family
  {
    if e.Run? { assert !Holds(s.procs[e.pid], family); }
  }

  lemma DeadGainsNoHolder(s: State, e: Event, family: FamilyId, p: Pid)
    requires Dead(s, family) && Enabled(s, e) && p in Step(s, e).procs
    ensures !Holds(Step(s, e).procs[p], family)
  {
    if p in s.procs { assert !Holds(s.procs[p], family); }
    if e.Run? && e.pid != p { OthersStay(s, e, p); }
    hide Revoke, Prune;
  }

  lemma DeathStays(s: State, e: Event, family: FamilyId)
    requires Dead(s, family) && Enabled(s, e)
    ensures Dead(Step(s, e), family)
  {
    forall t | IsLive(Step(s, e).rows, t) ensures Step(s, e).rows[t].familyId != family {
      DeadGainsNoRow(s, e, family, t);
    }
    forall p | p in Step(s, e).procs ensures !Holds(Step(s, e).procs[p], family) { DeadGainsNoHolder(s, e, family, p); }
    OwnersGrow(s, e, family);
    hide Step, IsLive, Holds;
  }

  lemma OwnersGrow(s: State, e: Event, family: FamilyId)
    requires Enabled(s, e) && family in s.owners
    ensures family in Step(s, e).owners
  {}

  lemma DeadRotatesNothing(s: State, e: Event, family: FamilyId, p: Pid)
    requires Inv(s) && Dead(s, family) && Enabled(s, e) && Succeeded(Step(s, e), p, family)
    ensures Succeeded(s, p, family)
  {
    if p in s.procs { assert Recorded(s, s.procs[p]); }
    if e.Run? && e.pid != p && p in s.procs { OthersStay(s, e, p); }
    hide Inv, Revoke, Prune;
  }

  lemma DeathStep(s: State, e: Event, family: FamilyId)
    requires Inv(s) && Dead(s, family) && Enabled(s, e)
    ensures Dead(Step(s, e), family)
    ensures forall p :: Succeeded(Step(s, e), p, family) ==> Succeeded(s, p, family)
  {
    hide Inv, Dead, Step, Succeeded;
    DeathStays(s, e, family);
    forall p | Succeeded(Step(s, e), p, family) ensures Succeeded(s, p, family) { DeadRotatesNothing(s, e, family, p); }
  }

  /**
    Once a family has no live row and no claimed rotation, no step of any process revives it or rotates
    one of its tokens.
  */
  lemma {:induction false} DeathIsPermanent(s: State, es: seq<Event>, family: FamilyId)
    requires Inv(s) && Dead(s, family) && Runs(s, es)
    ensures Dead(Exec(s, es), family)
    ensures forall p :: Succeeded(Exec(s, es), p, family) ==> Succeeded(s, p, family)
    decreases |es|
  {
    if es != [] {
      DeathStep(s, es[0], family);
      StepKeepsInv(s, es[0]);
      DeathIsPermanent(Step(s, es[0]), es[1..], family);
    }
  }

  /**
    A call that presents a spent token never gets a successor: it ends in reuse detection, or finds the
    row pruned.
  */
  predicate Replaying(s: State, pid: Pid, raw: Token) {
    pid in s.procs && raw in s.log && !IsLive(s.rows, raw) &&
    match s.procs[pid]
    case Claiming(t) => t == raw
    case Looking(t) => t == raw
    case Killing(f) => f == s.log[raw].family
    case Finished(ReuseDetected(f)) => f == s.log[raw].family
    case Finished(InvalidToken) => raw !in s.rows
    case _ => false
  }

  lemma {:induction false} SpentTokenNeverRotates(s: State, es: seq<Event>, pid: Pid, raw: Token)
    requires Inv(s) && Replaying(s, pid, raw) && Runs(s, es)
    ensures Replaying(Exec(s, es), pid, raw)
    decreases |es|
  {
    if es != [] {
      ReplayStep(s, es[0], pid, raw);
      StepKeepsInv(s, es[0]);
      SpentTokenNeverRotates(Step(s, es[0]), es[1..], pid, raw);
    }
  }

  /** A token that was issued and is not live never becomes live, nor does its row come back. */
  lemma SpentStays(s: State, e: Event, raw: Token)
    requires raw in s.log && !IsLive(s.rows, raw) && Enabled(s, e)
    ensures var s' := Step(s, e);
            raw in s'.log && s'.log[raw] == s.log[raw] && !IsLive(s'.rows, raw) && (raw in s'.rows ==> raw in s.rows)
  {}

  lemma ReplayStep(s: State, e: Event, pid: Pid, raw: Token)
    requires Inv(s) && Replaying(s, pid, raw) && Enabled(s, e)
    ensures Replaying(Step(s, e), pid, raw)
  {
    SpentStays(s, e, raw);
    if e.Run? && e.pid == pid {
      assert raw in s.rows ==> s.rows[raw].familyId == s.log[raw].family;
      hide Inv, Revoke, Prune, Inserted;
    } else {
      hide Inv, RunProc, IsLive;
      if e.Run? { OthersStay(s, e, pid); }
    }
  }

  lemma OthersStay(s: State, e: Event, pid: Pid)
    requires Enabled(s, e) && e.Run? && e.pid != pid && pid in s.procs
    ensures pid in Step(s, e).procs && Step(s, e).procs[pid] == s.procs[pid]
  {}

  /**
    Reuse detection with no rotation of the family mid-flight: the family is refused for the rest of the
    run, the others keep their rows.
  */
  lemma ReplayKillsFamily(s: State, pid: Pid, gen: Generated, es: seq<Event>)
    requires Inv(s) && Enabled(s, Run(pid, gen)) && s.procs[pid].Killing?
    requires Holders(s, s.procs[pid].family) == {}
    requires Runs(Step(s, Run(pid, gen)), es)
    ensures var family := s.procs[pid].family;
            var killed := Step(s, Run(pid, gen));
            var r := Exec(killed, es);
            && Dead(r, family)
            && (forall t <- r.log :: r.log[t].family == family ==> !IsLive(r.rows, t))
            && (forall p :: Succeeded(r, p, family) ==> Succeeded(s, p, family))
            && (forall t <- s.rows :: s.rows[t].familyId != family ==> t in killed.rows && killed.rows[t] == s.rows[t])
  {
    var family := s.procs[pid].family;
    var killed := Step(s, Run(pid, gen));
    assert Recorded(s, s.procs[pid]);
    assert forall p <- s.procs :: Holds(s.procs[p], family) ==> p in Holders(s, family);
    assert forall t :: IsLive(killed.rows, t) ==> IsLive(s.rows, t) && s.rows[t].familyId != family;
    assert Dead(killed, family);
    assert forall p :: Succeeded(killed, p, family) ==> Succeeded(s, p, family);
    StepKeepsInv(s, Run(pid, gen));
    hide Step;
    DeathIsPermanent(killed, es, family);
    RunKeepsInv(killed, es);
    DeadRefusesAll(Exec(killed, es), family);
  }

  lemma DeadRefusesAll(s: State, family: FamilyId)
    requires Inv(s) && Dead(s, family)
    ensures forall t <- s.log :: s.log[t].family == family ==> !IsLive(s.rows, t)
  {
    assert RowsRecorded(s);
  }

  // ---------------------------------------------------------------- the exact side condition

  /** A holder that can only run into its expiry test. */
  predicate Doomed(s: State, proc: Proc, family: FamilyId) {
    Holds(proc, family) ==> proc.Claimed? && proc.row.expiresAt <= s.now
  }

  ghost predicate Dying(s: State, family: FamilyId) {
    family in s.owners && NoLiveRow(s, family) && forall p <- s.procs :: Doomed(s, s.procs[p], family)
  }

  lemma DoomStays(s: State, e: Event, family: FamilyId, p: Pid)
    requires Dying(s, family) && Enabled(s, e) && p in Step(s, e).procs
    ensures Doomed(Step(s, e), Step(s, e).procs[p], family)
  {
    if p in s.procs { assert Doomed(s, s.procs[p], family); }
    if e.Run? && e.pid != p { OthersStay(s, e, p); }
  }

  lemma DyingStep(s: State, e: Event, family: FamilyId)
    requires Dying(s, family) && Enabled(s, e)
    ensures Dying(Step(s, e), family)
  {
    forall p | p in Step(s, e).procs ensures Doomed(Step(s, e), Step(s, e).procs[p], family) {
      DoomStays(s, e, family, p);
    }
    if e.Run? { assert Doomed(s, s.procs[e.pid], family); }
  }

  lemma {:induction false} DyingForever(s: State, es: seq<Event>, family: FamilyId)
    requires Dying(s, family) && Runs(s, es)
    ensures NoLiveRow(Exec(s, es), family)
    decreases |es|
  {
    if es != [] {
      DyingStep(s, es[0], family);
      DyingForever(Step(s, es[0]), es[1..], family);
    }
  }

  lemma SomeGenerated(s: State) returns (gen: Generated)
    ensures gen.token !in s.log && gen.family !in s.owners
  {
    var t := SomeUnused(s.log.Keys);
    var f := SomeUnused(s.owners.Keys);
    gen := Generated(t, f, 0);
  }

  lemma HolderCanIssue(s: State, q: Pid, family: FamilyId) returns (es: seq<Event>)
    requires q in s.procs && Holds(s.procs[q], family) && !Doomed(s, s.procs[q], family)
    ensures Runs(s, es) && !NoLiveRow(Exec(s, es), family)
  {
    var gen := SomeGenerated(s);
    if s.procs[q].Issuing? {
      es := [Run(q, gen)];
      assert Exec(s, es) == Exec(Step(s, es[0]), es[1..]) == Step(s, es[0]);
      assert IsLive(Exec(s, es).rows, gen.token);
    } else {
      var mid := Step(s, Run(q, gen));
      var gen2 := SomeGenerated(mid);
      es := [Run(q, gen), Run(q, gen2)];
      assert es[1..] == [Run(q, gen2)] && es[1..][1..] == [];
      assert Runs(mid, es[1..]);
      assert Exec(s, es) == Exec(mid, es[1..]) == Exec(Step(mid, Run(q, gen2)), es[1..][1..]);
      assert IsLive(Exec(s, es).rows, gen2.token);
    }
  }

  /**
    When revokeFamily has run, the family stays dead in every continuation if and only if no
    rotation that has already claimed one of its tokens can still pass its expiry test.
  */
  lemma FamilyDeathExact(s: State, pid: Pid, gen: Generated)
    requires Inv(s) && Enabled(s, Run(pid, gen)) && s.procs[pid].Killing?
    ensures var family := s.procs[pid].family;
            var killed := Step(s, Run(pid, gen));
            (forall es | Runs(killed, es) :: NoLiveRow(Exec(killed, es), family))
            <==> (forall q <- Holders(s, family) :: s.procs[q].Claimed? && s.procs[q].row.expiresAt <= s.now)
  {
    var family := s.procs[pid].family;
    var killed := Step(s, Run(pid, gen));
    assert Recorded(s, s.procs[pid]);
    assert NoLiveRow(killed, family);
    assert killed.now == s.now && forall p <- s.procs :: p != pid ==> killed.procs[p] == s.procs[p];
    if forall q <- Holders(s, family) :: s.procs[q].Claimed? && s.procs[q].row.expiresAt <= s.now {
      assert Dying(killed, family) by {
        forall p <- killed.procs ensures Doomed(killed, killed.procs[p], family) {
          if p != pid && Holds(s.procs[p], family) { assert p in Holders(s, family); }
        }
      }
      forall es | Runs(killed, es) ensures NoLiveRow(Exec(killed, es), family) { DyingForever(killed, es, family); }
    } else {
      var q :| q in Holders(s, family) && !(s.procs[q].Claimed? && s.procs[q].row.expiresAt <= s.now);
      var es := HolderCanIssue(killed, q, family);
      assert Runs(killed, es) && !NoLiveRow(Exec(killed, es), family);
    }
  }

  // ---------------------------------------------------------------- a user's sessions

  ghost predicate NoSession(s: State, user: UserId) {
    (forall t :: IsLive(s.rows, t) ==> s.rows[t].userId != user) &&
    (forall p <- s.procs :: (s.procs[p].Claimed? ==> s.procs[p].row.userId != user) &&
                            (s.procs[p].Issuing? ==> s.procs[p].user != user))
  }

  /** The step at which a sign-in of `user` inserts its first token. */
  predicate Opens(s: State, e: Event, user: UserId) {
    e.Run? && e.pid in s.procs && s.procs[e.pid].Opening? && s.procs[e.pid].user == user
  }

  ghost predicate NeverOpens(s: State, es: seq<Event>, user: UserId)
    requires Runs(s, es)
    decreases |es|
  {
    es == [] || (!Opens(s, es[0], user) && NeverOpens(Step(s, es[0]), es[1..], user))
  }

  lemma NoSessionStep(s: State, e: Event, user: UserId)
    requires NoSession(s, user) && Enabled(s, e) && !Opens(s, e, user)
    ensures NoSession(Step(s, e), user)
  {}

  lemma {:induction false} NoSessionUntilSignIn(s: State, es: seq<Event>, user: UserId)
    requires NoSession(s, user) && Runs(s, es) && NeverOpens(s, es, user)
    ensures NoSession(Exec(s, es), user)
    decreases |es|
  {
    if es != [] {
      NoSessionStep(s, es[0], user);
      NoSessionUntilSignIn(Step(s, es[0]), es[1..], user);
    }
  }

  // ---------------------------------------------------------------- uninterrupted calls

  /** The three steps of one call, uninterrupted. */
  function ThreeSteps(pid: Pid, gen: Generated): seq<Event> {
    [Run(pid, gen), Run(pid, gen), Run(pid, gen)]
  }

  lemma UnrollThree(s: State, pid: Pid, gen: Generated)
    requires Enabled(s, Run(pid, gen))
    requires Enabled(RunProc(s, pid, gen), Run(pid, gen))
    requires Enabled(RunProc(RunProc(s, pid, gen), pid, gen), Run(pid, gen))
    ensures Runs(s, ThreeSteps(pid, gen))
    ensures Exec(s, ThreeSteps(pid, gen)) == RunProc(RunProc(RunProc(s, pid, gen), pid, gen), pid, gen)
  {
    var s1 := RunProc(s, pid, gen);
    var s2 := RunProc(s1, pid, gen);
    var s3 := RunProc(s2, pid, gen);
    assert ThreeSteps(pid, gen)[1..] == [Run(pid, gen), Run(pid, gen)];
    assert [Run(pid, gen), Run(pid, gen)][1..] == [Run(pid, gen)];
    assert [Run(pid, gen)][1..] == [];
    assert Runs(s3, []) && Exec(s3, []) == s3;
    assert Runs(s2, [Run(pid, gen)]) && Exec(s2, [Run(pid, gen)]) == s3;
    assert Runs(s1, [Run(pid, gen), Run(pid, gen)]) && Exec(s1, [Run(pid, gen), Run(pid, gen)]) == s3;
  }

  /** The state a lone rotation of a live, unexpired token leaves behind. */
  function AfterRotation(s: State, p: Pid, raw: Token, gen: Generated): State
    requires raw in s.rows
  {
    var claimed := s.(rows := Revoke(s.rows, ByToken(raw), s.now));
    Moved(Inserted(claimed, s.rows[raw].userId, s.rows[raw].familyId, s.now + s.ttl, gen), p,
        Finished(Rotated(raw, gen.token)))
  }

  lemma ClaimMoves(s: State, p: Pid, raw: Token, gen: Generated)
    requires p in s.procs && s.procs[p] == Claiming(raw) && IsLive(s.rows, raw)
    ensures var claimed := s.rows[raw].(revokedAt := Some(s.now));
            RunProc(s, p, gen) == Moved(s.(rows := Revoke(s.rows, ByToken(raw), s.now)), p, Claimed(raw, claimed))
  {}

  /** The winner's last two steps, in whatever state it finds the table. */
  lemma WinnerInserts(s: State, p: Pid, raw: Token, row: Row, gen: Generated)
    requires p in s.procs && s.procs[p].Claimed? && s.procs[p].raw == raw
    requires s.procs[p].row == row.(revokedAt := s.procs[p].row.revokedAt) && s.now < row.expiresAt
    ensures var s' := Moved(s, p, Issuing(raw, row.userId, row.familyId, s.now + s.ttl));
            && RunProc(s, p, gen) == s'
            && RunProc(s', p, gen) ==
               Moved(Inserted(s', row.userId, row.familyId, s.now + s.ttl, gen), p, Finished(Rotated(raw, gen.token)))
  {}

  lemma LiveTokenRotates(s: State, p: Pid, raw: Token, gen: Generated)
    requires Enabled(s, Run(p, gen)) && s.procs[p] == Claiming(raw)
    requires IsLive(s.rows, raw) && s.now < s.rows[raw].expiresAt
    ensures Runs(s, ThreeSteps(p, gen)) && Exec(s, ThreeSteps(p, gen)) == AfterRotation(s, p, raw, gen)
  {
    var row := s.rows[raw];
    var s1 := Moved(s.(rows := Revoke(s.rows, ByToken(raw), s.now)), p, Claimed(raw, row.(revokedAt := Some(s.now))));
    ClaimMoves(s, p, raw, gen);
    WinnerInserts(s1, p, raw, row, gen);
    assert s.procs[p := s1.procs[p]][p := Issuing(raw, row.userId, row.familyId, s.now + s.ttl)]
           [p := Finished(Rotated(raw, gen.token))] == s.procs[p := Finished(Rotated(raw, gen.token))];
    hide RunProc;
    UnrollThree(s, p, gen);
  }

  /** A spent token, however it was spent, is met with reuse detection. */
  lemma SpentTokenTripsReuse(s: State, q: Pid, raw: Token, gen: Generated)
    requires Inv(s) && Enabled(s, Run(q, gen)) && s.procs[q] == Claiming(raw) && IsSpent(s.rows, raw)
    ensures Runs(s, ThreeSteps(q, gen))
    ensures var r := Exec(s, ThreeSteps(q, gen));
            && r.procs == s.procs[q := Finished(ReuseDetected(s.rows[raw].familyId))]
            && NoLiveRow(r, s.rows[raw].familyId)
  {
    var s1 := RunProc(s, q, gen);
    assert s1.procs[q] == Looking(raw);
    var s2 := RunProc(s1, q, gen);
    assert s2.procs[q] == Killing(s.rows[raw].familyId);
    UnrollThree(s, q, gen);
    assert Exec(s, ThreeSteps(q, gen)).procs == s.procs[q := Finished(ReuseDetected(s.rows[raw].familyId))];
  }

  /**
    A second refresh with the same cookie, made when the first has run to its end, ends the session
    of both. `TokenOverlap` has every other interleaving.
  */
  lemma SuccessiveRefreshesLogOut(s: State, p: Pid, q: Pid, raw: Token, g1: Generated, g2: Generated)
    requires Inv(s) && p != q && Enabled(s, Run(p, g1)) && Enabled(s, Run(q, g2)) && g1.token != g2.token
    requires s.procs[p] == s.procs[q] == Claiming(raw)
    requires IsLive(s.rows, raw) && s.now < s.rows[raw].expiresAt
    ensures Runs(s, ThreeSteps(p, g1))
    ensures var first := Exec(s, ThreeSteps(p, g1));
            && first.procs == s.procs[p := Finished(Rotated(raw, g1.token))]
            && Runs(first, ThreeSteps(q, g2))
            && var r := Exec(first, ThreeSteps(q, g2));
               && r.procs == first.procs[q := Finished(ReuseDetected(s.rows[raw].familyId))]
               && NoLiveRow(r, s.rows[raw].familyId)
  {
    LiveTokenRotates(s, p, raw, g1);
    RunKeepsInv(s, ThreeSteps(p, g1));
    var first := AfterRotation(s, p, raw, g1);
    assert first.owners == s.owners[s.rows[raw].familyId := s.rows[raw].userId] == s.owners;
    assert IsSpent(first.rows, raw) && first.rows[raw].familyId == s.rows[raw].familyId;
    SpentTokenTripsReuse(first, q, raw, g2);
  }

  /** Any call can start at any time, and a started call can go on until it ends. */
  lemma CallsGoOn(s: State, pid: Pid, user: UserId, raw: Token, sel: Selector, gen: Generated)
    ensures pid !in s.procs ==>
              forall proc <- {Opening(user, s.now + s.ttl), Claiming(raw), Revoking(sel), Pruning} ::
                Enabled(s, Spawn(pid, proc))
    ensures pid in s.procs && !s.procs[pid].Finished? && gen.token !in s.log && gen.family !in s.owners ==>
              Enabled(s, Run(pid, gen))
  {}

  /** The calls of one statement: what each leaves in the table, and that nothing else but its process moves. */
  lemma OneStatementCalls(s: State, p: Pid, gen: Generated)
    requires p in s.procs && gen.token !in s.rows
    requires var proc := s.procs[p]; proc.Opening? || proc.Killing? || proc.Revoking? || proc.Pruning?
    ensures var proc, r := s.procs[p], RunProc(s, p, gen);
            && r.now == s.now && r.ttl == s.ttl && r.procs == s.procs[p := r.procs[p]]
            && match proc
               case Opening(user, expiresAt) =>
                 && r.rows == s.rows[gen.token := Row(gen.id, user, gen.family, expiresAt, None, None, None, s.now)]
                 && r.procs[p] == Finished(Opened(gen.token))
               case Pruning =>
                 && (forall t :: t in r.rows <==> t in s.rows && s.now <= s.rows[t].expiresAt)
                 && (forall t <- r.rows :: r.rows[t] == s.rows[t]) && r.procs[p] == Finished(Completed)
               case Killing(family) =>
                 && r.rows.Keys == s.rows.Keys && r.procs[p] == Finished(ReuseDetected(family))
                 && (forall t :: IsLive(r.rows, t) <==> IsLive(s.rows, t) && s.rows[t].familyId != family)
               case Revoking(sel) =>
                 && r.rows.Keys == s.rows.Keys && r.procs[p] == Finished(Completed)
                 && (forall t :: IsLive(r.rows, t) ==> IsLive(s.rows, t))
                 && (forall t :: IsLive(s.rows, t) ==>
                       (IsLive(r.rows, t) <==>
                        (match sel
                         case ByToken(token) => t != token
                         case ByFamily(family) => s.rows[t].familyId != family
                         case ByUser(user) => s.rows[t].userId != user
                         case BySession(user, id) => s.rows[t].userId != user || s.rows[t].id != id)))
  {
    var r := RunProc(s, p, gen);
    assert r.procs == s.procs[p := r.procs[p]];
    if s.procs[p].Killing? { RevokeEnds(s.rows, ByFamily(s.procs[p].family), s.now); }
    if s.procs[p].Revoking? { RevokeEnds(s.rows, s.procs[p].sel, s.now); }
  }

  // ---------------------------------------------------------------- the serial function

  predicate Reports(outcome: Outcome, result: Service.Rotation) {
    match result
    case Rotated(_, next) => outcome.Rotated? && outcome.next == next.raw
    case Refused(TokenReuseDetected) => outcome.ReuseDetected?
    case Refused(InvalidToken) => outcome == InvalidToken
    case Refused(SessionExpired) => outcome.SessionExpired?
  }

  /** A rotation whose steps nobody interrupts does to the table what the serial function says. */
  lemma UninterruptedRotationIsRotate(s: State, p: Pid, raw: Token, gen: Generated)
    requires p in s.procs && s.procs[p] == Claiming(raw)
    ensures var r := RunProc(RunProc(RunProc(s, p, gen), p, gen), p, gen);
            var (rows, result) := Service.Rotate(s.rows, raw, Service.NO_CONTEXT, s.ttl, s.now, gen);
            r.rows == rows && r.procs[p].Finished? && Reports(r.procs[p].outcome, result)
  {
    var s1 := RunProc(s, p, gen);
    var s2 := RunProc(s1, p, gen);
    if IsLive(s.rows, raw) {
      var claimed := s.rows[raw].(revokedAt := Some(s.now));
      assert s1 == Moved(s.(rows := Revoke(s.rows, ByToken(raw), s.now)), p, Claimed(raw, claimed));
      assert s.now < s.rows[raw].expiresAt ==>
          s2 == Moved(s1, p, Issuing(raw, claimed.userId, claimed.familyId, s.now + s.ttl));
    } else if raw in s.rows {
      assert s2.procs[p] == Killing(s.rows[raw].familyId);
    }
  }
}
