/**
  Refreshes that overlap: what becomes of several calls that present one token, whatever the
  interleaving, and which order of `revokeFamily` and the winner's INSERT ends the session.
*/
module TokenOverlap {
  import opened Options
  import opened TokenRows
  import opened TokenMachine
  import opened TokenSafety

  predicate Presents(s: State, pid: Pid, raw: Token) {
    pid in s.procs && s.procs[pid] == Claiming(raw) && raw in s.log
  }

  /** A call that presented `raw`: it has not tried to claim it yet, has claimed it, or came too late. */
  ghost predicate OnToken(s: State, pid: Pid, raw: Token) {
    Presents(s, pid, raw) || (pid in s.procs && Won(s.procs[pid], raw)) || Replaying(s, pid, raw)
  }

  lemma OnTokenStep(s: State, e: Event, pid: Pid, raw: Token)
    requires Inv(s) && OnToken(s, pid, raw) && Enabled(s, e)
    ensures OnToken(Step(s, e), pid, raw)
  {
    if Replaying(s, pid, raw) {
      ReplayStep(s, e, pid, raw);
    } else {
      hide Inv, Revoke, Prune;
      if e.Run? && e.pid != pid { OthersStay(s, e, pid); }
    }
  }

  lemma {:induction false} OnTokenRun(s: State, es: seq<Event>, pid: Pid, raw: Token)
    requires Inv(s) && OnToken(s, pid, raw) && Runs(s, es)
    ensures Inv(Exec(s, es)) && OnToken(Exec(s, es), pid, raw)
    decreases |es|
  {
    hide Inv, OnToken;
    if es != [] {
      OnTokenStep(s, es[0], pid, raw);
      StepKeepsInv(s, es[0]);
      OnTokenRun(Step(s, es[0]), es[1..], pid, raw);
    }
  }

  /** The call ended in reuse detection of the token's family, or found the token's row pruned. */
  predicate TurnedAway(s: State, pid: Pid, raw: Token) {
    pid in s.procs && s.procs[pid].Finished? && raw in s.log &&
    (s.procs[pid].outcome == ReuseDetected(s.log[raw].family) ||
     (s.procs[pid].outcome == InvalidToken && raw !in s.rows))
  }

  /**
    Of two calls that present one token at most one claims it, whatever the interleaving, and a call
    that does not is turned away.
  */
  lemma OverlappingRefreshes(s: State, es: seq<Event>, p: Pid, q: Pid, raw: Token)
    requires Inv(s) && p != q && Presents(s, p, raw) && Presents(s, q, raw) && Runs(s, es)
    requires var r := Exec(s, es); p in r.procs && q in r.procs && r.procs[p].Finished? && r.procs[q].Finished?
    ensures var r := Exec(s, es);
            && (Won(r.procs[p], raw) || TurnedAway(r, p, raw))
            && (Won(r.procs[q], raw) || TurnedAway(r, q, raw))
            && !(Won(r.procs[p], raw) && Won(r.procs[q], raw))
            && (TurnedAway(r, p, raw) || TurnedAway(r, q, raw))
  {
    OnTokenRun(s, es, p, raw);
    OnTokenRun(s, es, q, raw);
  }

  // ---------------------------------------------------------------- revokeFamily against the INSERT

  lemma {:induction false} FinishedStays(s: State, es: seq<Event>, pid: Pid)
    requires pid in s.procs && s.procs[pid].Finished? && Runs(s, es)
    ensures pid in Exec(s, es).procs && Exec(s, es).procs[pid] == s.procs[pid]
    decreases |es|
  {
    if es != [] {
      if es[0].Run? { OthersStay(s, es[0], pid); }
      FinishedStays(Step(s, es[0]), es[1..], pid);
    }
  }

  lemma {:induction false} SpentForever(s: State, es: seq<Event>, t: Token)
    requires t in s.log && !IsLive(s.rows, t) && Runs(s, es)
    ensures !IsLive(Exec(s, es).rows, t)
    decreases |es|
  {
    if es != [] {
      SpentStays(s, es[0], t);
      SpentForever(Step(s, es[0]), es[1..], t);
    }
  }

  /** `revokeFamily`, with no condition: every token issued in the family before it is refused from then on. */
  lemma KillEndsTheIssued(s: State, pid: Pid, gen: Generated, es: seq<Event>, t: Token)
    requires Inv(s) && Enabled(s, Run(pid, gen)) && s.procs[pid].Killing?
    requires t in s.log && s.log[t].family == s.procs[pid].family
    requires Runs(Step(s, Run(pid, gen)), es)
    ensures !IsLive(Exec(Step(s, Run(pid, gen)), es).rows, t)
  {
    assert t in s.rows ==> s.log[t].family == s.rows[t].familyId;
    SpentForever(Step(s, Run(pid, gen)), es, t);
  }

  ghost predicate SometimeLive(s: State, es: seq<Event>, t: Token)
    requires Runs(s, es)
    decreases |es|
  {
    IsLive(s.rows, t) || (es != [] && SometimeLive(Step(s, es[0]), es[1..], t))
  }

  lemma LogGrows(s: State, e: Event, t: Token)
    requires Enabled(s, e) && t in s.log
    ensures t in Step(s, e).log
  {}

  /** A rotation that holds its family and later succeeds inserts a token nobody has seen, live at that moment. */
  lemma {:induction false} HolderInserts(s: State, es: seq<Event>, pid: Pid, raw: Token)
    requires pid in s.procs && Won(s.procs[pid], raw) && !s.procs[pid].Finished? && Runs(s, es)
    requires var r := Exec(s, es); pid in r.procs && r.procs[pid].Finished? && r.procs[pid].outcome.Rotated?
    ensures Exec(s, es).procs[pid].outcome.next !in s.log
    ensures SometimeLive(s, es, Exec(s, es).procs[pid].outcome.next)
    decreases |es|
  {
    var e := es[0];
    var s' := Step(s, e);
    var next := Exec(s, es).procs[pid].outcome.next;
    if e.Run? && e.pid == pid {
      if s'.procs[pid].Finished? { FinishedStays(s', es[1..], pid); } else { HolderInserts(s', es[1..], pid, raw); }
    } else {
      if e.Run? { OthersStay(s, e, pid); }
      HolderInserts(s', es[1..], pid, raw);
    }
    if next in s.log { LogGrows(s, e, next); }
    if s'.procs[pid].Finished? { assert IsLive(s'.rows, next) && SometimeLive(s', es[1..], next); }
  }

  /**
    A winner `p` and a replaying `q`, at the moment `q` runs revokeFamily. If the winner's INSERT
    came first, its successor is dead for good, and the family with it unless another call holds it.
    If it comes later, the winner is the only holder, and its successor outlives the revocation.
  */
  lemma OrderOfKillAndInsert(
    s: State, before: seq<Event>, gen: Generated, after: seq<Event>, p: Pid, q: Pid, raw: Token)
    requires Inv(s) && p != q && Presents(s, p, raw) && Presents(s, q, raw) && Runs(s, before)
    requires var mid := Exec(s, before);
             Enabled(mid, Run(q, gen)) && mid.procs[q].Killing? && Runs(Step(mid, Run(q, gen)), after)
    requires var r := Exec(Step(Exec(s, before), Run(q, gen)), after);
             p in r.procs && r.procs[p].Finished? && r.procs[p].outcome.Rotated?
    ensures var mid := Exec(s, before);
            var killed := Step(mid, Run(q, gen));
            var r := Exec(killed, after);
            var next := r.procs[p].outcome.next;
            && raw in mid.log && mid.procs[q].family == mid.log[raw].family && p in mid.procs
            && var family := mid.log[raw].family;
               && (mid.procs[p].Finished? ==> !IsLive(r.rows, next))
               && (mid.procs[p].Finished? && Holders(mid, family) == {} ==> Dead(r, family))
               && (!mid.procs[p].Finished? ==>
                     Holders(mid, family) == {p} && next !in killed.log && SometimeLive(killed, after, next))
  {
    var mid := Exec(s, before);
    OnTokenRun(s, before, p, raw);
    OnTokenRun(s, before, q, raw);
    var killed := Step(mid, Run(q, gen));
    StepKeepsInv(mid, Run(q, gen));
    assert Replaying(mid, q, raw) && p in mid.procs;
    OthersStay(mid, Run(q, gen), p);
    if mid.procs[p].Finished? {
      InsertedFirst(mid, gen, after, p, q, raw);
    } else {
      InsertedLater(mid, gen, after, p, q, raw);
    }
  }

  lemma InsertedFirst(mid: State, gen: Generated, after: seq<Event>, p: Pid, q: Pid, raw: Token)
    requires Inv(mid) && Enabled(mid, Run(q, gen)) && mid.procs[q].Killing? && Replaying(mid, q, raw)
    requires p != q && p in mid.procs && mid.procs[p].Finished? && OnToken(mid, p, raw)
    requires var killed := Step(mid, Run(q, gen));
             && p in killed.procs && killed.procs[p] == mid.procs[p] && Runs(killed, after)
             && p in Exec(killed, after).procs && Exec(killed, after).procs[p].Finished?
             && Exec(killed, after).procs[p].outcome.Rotated?
    ensures var r := Exec(Step(mid, Run(q, gen)), after);
            && !IsLive(r.rows, r.procs[p].outcome.next)
            && (Holders(mid, mid.log[raw].family) == {} ==> Dead(r, mid.log[raw].family))
  {
    var killed := Step(mid, Run(q, gen));
    FinishedStays(killed, after, p);
    assert Recorded(mid, mid.procs[p]) && Won(mid.procs[p], raw);
    KillEndsTheIssued(mid, q, gen, after, mid.procs[p].outcome.next);
    if Holders(mid, mid.log[raw].family) == {} { ReplayKillsFamily(mid, q, gen, after); }
  }

  lemma InsertedLater(mid: State, gen: Generated, after: seq<Event>, p: Pid, q: Pid, raw: Token)
    requires Inv(mid) && Enabled(mid, Run(q, gen)) && mid.procs[q].Killing? && Replaying(mid, q, raw)
    requires p != q && p in mid.procs && !mid.procs[p].Finished? && OnToken(mid, p, raw)
    requires var killed := Step(mid, Run(q, gen));
             && Inv(killed) && p in killed.procs && killed.procs[p] == mid.procs[p] && Runs(killed, after)
             && p in Exec(killed, after).procs && Exec(killed, after).procs[p].Finished?
             && Exec(killed, after).procs[p].outcome.Rotated?
    ensures var killed := Step(mid, Run(q, gen));
            var next := Exec(killed, after).procs[p].outcome.next;
            Holders(mid, mid.log[raw].family) == {p} && next !in killed.log && SometimeLive(killed, after, next)
  {
    var killed := Step(mid, Run(q, gen));
    SpentStays(mid, Run(q, gen), raw);
    if Replaying(mid, p, raw) || Presents(mid, p, raw) {
      assert Replaying(killed, p, raw) by {
        if Replaying(mid, p, raw) { ReplayStep(mid, Run(q, gen), p, raw); }
      }
      SpentTokenNeverRotates(killed, after, p, raw);
      assert false;
    } else {
      assert Won(mid.procs[p], raw) && Recorded(mid, mid.procs[p]);
      assert Holds(mid.procs[p], mid.log[raw].family);
      assert Holders(mid, mid.log[raw].family) == {p};
      HolderInserts(killed, after, p, raw);
    }
  }

  // ---------------------------------------------------------------- both orders happen

  lemma {:induction false} RunsOn(s: State, es: seq<Event>, more: seq<Event>)
    requires Runs(s, es) && Runs(Exec(s, es), more)
    ensures Runs(s, es + more) && Exec(s, es + more) == Exec(Exec(s, es), more)
    decreases |es|
  {
    hide Step, Enabled;
    if es == [] {
      assert es + more == more;
    } else {
      assert (es + more)[0] == es[0] && (es + more)[1..] == es[1..] + more;
      RunsOn(Step(s, es[0]), es[1..], more);
    }
  }

  function TwoSteps(pid: Pid, gen: Generated): seq<Event> {
    [Run(pid, gen), Run(pid, gen)]
  }

  /** p claims; q looks, finds the spent row and revokes the family; p tests the expiry and inserts. */
  function KillInBetween(p: Pid, q: Pid, gen: Generated): seq<Event> {
    [Run(p, gen)] + (ThreeSteps(q, gen) + TwoSteps(p, gen))
  }

  /** What the late call's three steps leave. */
  function Killed(s: State, q: Pid, family: FamilyId): State {
    Moved(s.(rows := Revoke(s.rows, ByFamily(family), s.now)), q, Finished(ReuseDetected(family)))
  }

  lemma LatecomerKills(s: State, q: Pid, raw: Token, gen: Generated)
    requires Enabled(s, Run(q, gen)) && s.procs[q] == Claiming(raw) && IsSpent(s.rows, raw)
    ensures Runs(s, ThreeSteps(q, gen)) && Exec(s, ThreeSteps(q, gen)) == Killed(s, q, s.rows[raw].familyId)
  {
    var family := s.rows[raw].familyId;
    var s1, s2 := Moved(s, q, Looking(raw)), Moved(s, q, Killing(family));
    assert RunProc(s, q, gen) == s1;
    assert s1.procs[q := Killing(family)] == s2.procs;
    assert RunProc(s1, q, gen) == s2;
    assert s2.procs[q := Finished(ReuseDetected(family))] == s.procs[q := Finished(ReuseDetected(family))];
    assert RunProc(s2, q, gen) == Killed(s, q, family);
    hide RunProc, Revoke;
    UnrollThree(s, q, gen);
  }

  /** What the winner's last two steps leave. */
  function Inserting(s: State, p: Pid, raw: Token, row: Row, gen: Generated): State {
    Moved(Inserted(s, row.userId, row.familyId, s.now + s.ttl, gen), p, Finished(Rotated(raw, gen.token)))
  }

  lemma WinnerGoesOn(s: State, p: Pid, raw: Token, row: Row, gen: Generated)
    requires Enabled(s, Run(p, gen)) && s.procs[p].Claimed? && s.procs[p].raw == raw
    requires s.procs[p].row == row.(revokedAt := s.procs[p].row.revokedAt) && s.now < row.expiresAt
    ensures Runs(s, TwoSteps(p, gen)) && Exec(s, TwoSteps(p, gen)) == Inserting(s, p, raw, row, gen)
  {
    var s1 := Moved(s, p, Issuing(raw, row.userId, row.familyId, s.now + s.ttl));
    WinnerInserts(s, p, raw, row, gen);
    assert s1.procs[p := Finished(Rotated(raw, gen.token))] == s.procs[p := Finished(Rotated(raw, gen.token))];
    assert RunProc(s1, p, gen) == Inserting(s, p, raw, row, gen);
    hide RunProc;
    assert TwoSteps(p, gen)[1..] == [Run(p, gen)] && [Run(p, gen)][1..] == [];
    var r := Inserting(s, p, raw, row, gen);
    assert Runs(r, []) && Exec(r, []) == r;
    assert Runs(s1, [Run(p, gen)]) && Exec(s1, [Run(p, gen)]) == r;
  }

  /** In that order the session survives its own reuse detection. */
  lemma OverlapCanKeepTheSession(s: State, p: Pid, q: Pid, raw: Token, gen: Generated)
    requires p != q && Presents(s, p, raw) && Presents(s, q, raw) && Enabled(s, Run(p, gen))
    requires IsLive(s.rows, raw) && s.now < s.rows[raw].expiresAt
    ensures Runs(s, KillInBetween(p, q, gen))
    ensures var r := Exec(s, KillInBetween(p, q, gen));
            var family := s.rows[raw].familyId;
            && r.procs == s.procs[p := Finished(Rotated(raw, gen.token))][q := Finished(ReuseDetected(family))]
            && IsLive(r.rows, gen.token) && r.rows[gen.token].familyId == family
  {
    var row := s.rows[raw];
    var s1 := Moved(s.(rows := Revoke(s.rows, ByToken(raw), s.now)), p, Claimed(raw, row.(revokedAt := Some(s.now))));
    ClaimMoves(s, p, raw, gen);
    LatecomerKills(s1, q, raw, gen);
    var s4 := Killed(s1, q, row.familyId);
    WinnerGoesOn(s4, p, raw, row, gen);
    var r := Inserting(s4, p, raw, row, gen);
    assert r.procs == s.procs[p := Finished(Rotated(raw, gen.token))][q := Finished(ReuseDetected(row.familyId))];
    assert IsLive(r.rows, gen.token) && r.rows[gen.token].familyId == row.familyId;
    assert Step(s, Run(p, gen)) == s1;
    hide RunProc, Step, Enabled, Revoke, Inserting, Killed, ThreeSteps, TwoSteps;
    RunsOn(s1, ThreeSteps(q, gen), TwoSteps(p, gen));
    assert KillInBetween(p, q, gen)[0] == Run(p, gen);
    assert KillInBetween(p, q, gen)[1..] == ThreeSteps(q, gen) + TwoSteps(p, gen);
  }
}
