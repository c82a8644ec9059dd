/**
  Signing a user out everywhere, as logout-all, password change and password reset do: exactly when
  it holds, and the run in which it does not.
*/
module UserSignOut {
  import opened Options
  import opened TokenRows
  import opened TokenMachine
  import opened TokenSafety

  ghost predicate NoLiveRowOf(s: State, user: UserId) {
    forall t :: IsLive(s.rows, t) ==> s.rows[t].userId != user
  }

  /** Not a rotation of the user, or one that can only run into its expiry test. */
  predicate UserDoomed(proc: Proc, user: UserId, now: Time) {
    (proc.Claimed? && proc.row.userId == user ==> proc.row.expiresAt <= now) &&
    (proc.Issuing? ==> proc.user != user)
  }

  ghost predicate AllDoomed(s: State, user: UserId) {
    forall p <- s.procs :: UserDoomed(s.procs[p], user, s.now)
  }

  ghost predicate NoRotation(s: State, user: UserId) {
    forall p <- s.procs :: (s.procs[p].Claimed? ==> s.procs[p].row.userId != user) &&
                           (s.procs[p].Issuing? ==> s.procs[p].user != user)
  }

  /** The user has no live row in any continuation before a sign-in inserts one. */
  ghost predicate StaysOut(s: State, user: UserId) {
    forall es | Runs(s, es) && NeverOpens(s, es, user) :: NoLiveRowOf(Exec(s, es), user)
  }

  lemma DoomedStep(s: State, e: Event, user: UserId)
    requires NoLiveRowOf(s, user) && AllDoomed(s, user) && Enabled(s, e)
    ensures AllDoomed(Step(s, e), user)
  {
    hide Revoke, Prune;
    if e.Run? { assert UserDoomed(s.procs[e.pid], user, s.now); }
    forall p | p in Step(s, e).procs ensures UserDoomed(Step(s, e).procs[p], user, Step(s, e).now) {
      if p in s.procs { assert UserDoomed(s.procs[p], user, s.now); }
    }
  }

  lemma OutStep(s: State, e: Event, user: UserId)
    requires NoLiveRowOf(s, user) && AllDoomed(s, user) && Enabled(s, e) && !Opens(s, e, user)
    ensures NoLiveRowOf(Step(s, e), user)
  {
    if e.Run? { assert UserDoomed(s.procs[e.pid], user, s.now); }
    hide AllDoomed;
  }

  lemma {:induction false} DoomedStaysOut(s: State, es: seq<Event>, user: UserId)
    requires NoLiveRowOf(s, user) && AllDoomed(s, user) && Runs(s, es) && NeverOpens(s, es, user)
    ensures NoLiveRowOf(Exec(s, es), user)
    decreases |es|
  {
    if es != [] {
      OutStep(s, es[0], user);
      DoomedStep(s, es[0], user);
      hide Step, NoLiveRowOf, AllDoomed;
      DoomedStaysOut(Step(s, es[0]), es[1..], user);
    }
  }

  // ---------------------------------------------------------------- sign-ins that are already under way

  /** A sign-in of the user arrives; it inserts its token at a later step. */
  predicate Arrives(e: Event, user: UserId) {
    e.Spawn? && e.proc.Opening? && e.proc.user == user
  }

  predicate NoArrival(es: seq<Event>, user: UserId) {
    forall e <- es :: !Arrives(e, user)
  }

  ghost predicate NonePending(s: State, user: UserId) {
    forall p <- s.procs :: s.procs[p].Opening? ==> s.procs[p].user != user
  }

  /** The user has no live row in any continuation in which no further sign-in arrives. */
  ghost predicate StaysOutUnlessAsked(s: State, user: UserId) {
    forall es | Runs(s, es) && NoArrival(es, user) :: NoLiveRowOf(Exec(s, es), user)
  }

  lemma PendingStep(s: State, e: Event, user: UserId)
    requires NonePending(s, user) && Enabled(s, e) && !Arrives(e, user)
    ensures !Opens(s, e, user) && NonePending(Step(s, e), user)
  {
    hide Revoke, Prune, IsLive;
  }

  lemma {:induction false} NoArrivalNeverOpens(s: State, es: seq<Event>, user: UserId)
    requires NonePending(s, user) && Runs(s, es) && NoArrival(es, user)
    ensures NeverOpens(s, es, user)
    decreases |es|
  {
    if es != [] {
      assert es[0] in es && forall e <- es[1..] :: e in es;
      PendingStep(s, es[0], user);
      NoArrivalNeverOpens(Step(s, es[0]), es[1..], user);
    }
  }

  // ---------------------------------------------------------------- the exact conditions

  lemma OneRun(s: State, e: Event)
    requires Enabled(s, e)
    ensures Runs(s, [e]) && Exec(s, [e]) == Step(s, e)
  {
    assert [e][1..] == [];
    assert Exec(Step(s, e), []) == Step(s, e);
  }

  /** A rotation of the user that passes its expiry test inserts its successor, whatever happened to the user's rows. */
  lemma RotationInserts(s: State, q: Pid, user: UserId) returns (es: seq<Event>)
    requires q in s.procs && !UserDoomed(s.procs[q], user, s.now)
    ensures Runs(s, es) && NeverOpens(s, es, user) && NoArrival(es, user) && !NoLiveRowOf(Exec(s, es), user)
    decreases if q in s.procs && s.procs[q].Issuing? then 0 else 1
  {
    var gen := SomeGenerated(s);
    if s.procs[q].Issuing? {
      es := [Run(q, gen)];
      OneRun(s, Run(q, gen));
      assert es[1..] == [];
      assert IsLive(Exec(s, es).rows, gen.token);
    } else {
      var mid := Step(s, Run(q, gen));
      assert mid.procs[q].Issuing? && mid.procs[q].user == user;
      var rest := RotationInserts(mid, q, user);
      es := [Run(q, gen)] + rest;
      assert es[0] == Run(q, gen) && es[1..] == rest;
      hide Step, NoLiveRowOf, UserDoomed;
      assert Runs(s, es) && Exec(s, es) == Exec(mid, rest);
    }
  }

  lemma StaysOutExactly(s: State, user: UserId)
    requires NoLiveRowOf(s, user)
    ensures StaysOut(s, user) <==> AllDoomed(s, user)
    ensures StaysOutUnlessAsked(s, user) <==> AllDoomed(s, user) && NonePending(s, user)
  {
    hide NoLiveRowOf, UserDoomed;
    if AllDoomed(s, user) {
      forall es | Runs(s, es) && NeverOpens(s, es, user) ensures NoLiveRowOf(Exec(s, es), user) {
        DoomedStaysOut(s, es, user);
      }
    } else {
      var q :| q in s.procs && !UserDoomed(s.procs[q], user, s.now);
      var es := RotationInserts(s, q, user);
      assert !StaysOut(s, user) && !StaysOutUnlessAsked(s, user);
    }
    if AllDoomed(s, user) && NonePending(s, user) {
      forall es | Runs(s, es) && NoArrival(es, user) ensures NoLiveRowOf(Exec(s, es), user) {
        NoArrivalNeverOpens(s, es, user);
      }
    }
    if !NonePending(s, user) { PendingInserts(s, user); }
  }

  lemma PendingInserts(s: State, user: UserId)
    requires !NonePending(s, user)
    ensures !StaysOutUnlessAsked(s, user)
  {
    var q :| q in s.procs && s.procs[q].Opening? && s.procs[q].user == user;
    var gen := SomeGenerated(s);
    var e := Run(q, gen);
    OneRun(s, e);
    assert IsLive(Step(s, e).rows, gen.token) && Step(s, e).rows[gen.token].userId == user;
    assert NoArrival([e], user) && !NoLiveRowOf(Exec(s, [e]), user);
  }

  /**
    Revoking all of a user's tokens: at that moment none is live. None is again before the next sign-in
    inserts its token if and only if no rotation of the user is mid-flight except towards a failing
    expiry test; and none is again before the next sign-in even arrives if and only if, besides, no
    sign-in of the user was already under way.
  */
  lemma RevokeAllEndsEverySession(s: State, pid: Pid, gen: Generated, user: UserId)
    requires Enabled(s, Run(pid, gen)) && s.procs[pid] == Revoking(ByUser(user))
    ensures var done := Step(s, Run(pid, gen));
            && NoLiveRowOf(done, user)
            && (StaysOut(done, user) <==> AllDoomed(s, user))
            && (StaysOutUnlessAsked(done, user) <==> AllDoomed(s, user) && NonePending(s, user))
            && (NoRotation(s, user) ==>
                  forall es | Runs(done, es) && NeverOpens(done, es, user) :: NoSession(Exec(done, es), user))
  {
    var done := Step(s, Run(pid, gen));
    StaysOutExactly(done, user);
    assert done.procs == s.procs[pid := Finished(Completed)] && done.now == s.now;
    SameProcs(s, done, pid, user);
    if NoRotation(s, user) {
      assert NoSession(done, user);
      forall es | Runs(done, es) && NeverOpens(done, es, user) ensures NoSession(Exec(done, es), user) {
        NoSessionUntilSignIn(done, es, user);
      }
    }
  }

  lemma SameProcs(s: State, done: State, pid: Pid, user: UserId)
    requires pid in s.procs && s.procs[pid].Revoking?
    requires done.procs == s.procs[pid := Finished(Completed)] && done.now == s.now
    ensures AllDoomed(done, user) <==> AllDoomed(s, user)
    ensures NonePending(done, user) <==> NonePending(s, user)
  {
    forall p | p in s.procs ensures UserDoomed(done.procs[p], user, s.now) <==> UserDoomed(s.procs[p], user, s.now) {}
  }

  /** The failing run: a rotation past its expiry test outlives the revocation of all its user's tokens. */
  lemma SignOutCanLeaveASession(s: State, pid: Pid, q: Pid, gen: Generated, user: UserId)
    requires Enabled(s, Run(pid, gen)) && s.procs[pid] == Revoking(ByUser(user))
    requires q in s.procs && s.procs[q].Issuing? && s.procs[q].user == user
    ensures var done := Step(s, Run(pid, gen));
            && Enabled(done, Run(q, gen)) && !Opens(done, Run(q, gen), user)
            && var r := Step(done, Run(q, gen));
               IsLive(r.rows, gen.token) && r.rows[gen.token].userId == user
               && r.procs[pid] == Finished(Completed) && r.procs[q].Finished?
  {}
}
