/**
  What the composed browser gets done: each action's effect on the cookie, and the run in which one
  refresh serves every call that failed.
*/
module BrowserProgress {
  import opened Options
  import opened TokenRows
  import opened TokenMachine
  import opened ApiClient
  import opened BrowserSafety
  import TokenSafety

  // ---------------------------------------------------------------- what each action leaves in the browser

  /**
    A delivered refresh response: the successor as cookie and a session exactly after a rotation of an
    active account's token; any other end of the handler clears the cookie, and a request that
    carried no token leaves it.
  */
  lemma DeliveryLeaves(w: World, p: PromiseId, active: bool)
    requires Allowed(w, DeliverRefresh(p, active))
    ensures var r, b' := w.browser.refreshes[p], Next(w, DeliverRefresh(p, active)).browser;
            && (forall next: Token, raw: Token ::
                  r.Requesting? && w.server.procs[r.pid] == Finished(Rotated(raw, next)) && active ==>
                  b'.cookie == Some(next) && b'.refreshes[p] == Answered(Session))
            && (r.Requesting? && !(w.server.procs[r.pid].outcome.Rotated? && active) ==>
                  b'.cookie == None && b'.refreshes[p] == Answered(Rejected))
            && (r == Bare ==> b'.cookie == w.browser.cookie && b'.refreshes[p] == Answered(Rejected))
            && b' == w.browser.(cookie := b'.cookie, refreshes := w.browser.refreshes[p := b'.refreshes[p]])
            && Next(w, DeliverRefresh(p, active)).server == w.server
  {}

  /** A request that fails on its way changes neither cookie nor access token, and counts as no session. */
  lemma FailureLeaves(w: World, p: PromiseId)
    requires Allowed(w, FailRefresh(p))
    ensures Next(w, FailRefresh(p)) ==
            World(w.server, w.browser.(refreshes := w.browser.refreshes[p := Answered(NoResponse)]))
  {}

  /** A cookie that the browser drops is gone, and the server does not hear of it. */
  lemma DropLeaves(w: World)
    ensures Allowed(w, DropCookie) && Next(w, DropCookie) == World(w.server, w.browser.(cookie := None))
  {}

  /** Signing in leaves a new live token of the user as the cookie; the other rows are as before. */
  lemma SignInLeaves(w: World, user: UserId, pid: Pid, gen: Generated)
    requires Allowed(w, SignIn(user, pid, gen))
    ensures var r := Next(w, SignIn(user, pid, gen));
            && r.browser == w.browser.(cookie := Some(gen.token)) && gen.token !in w.server.log
            && IsLive(r.server.rows, gen.token) && r.server.rows[gen.token].userId == user
            && r.server.rows[gen.token].expiresAt == w.server.now + w.server.ttl
            && forall t <- w.server.rows :: t != gen.token ==>
                 t in r.server.rows && r.server.rows[t] == w.server.rows[t]
  {}

  /** Signing out ends the cookie's token, no other, and forgets the cookie. */
  lemma SignOutLeaves(w: World, pid: Pid, gen: Generated)
    requires Allowed(w, SignOut(pid, gen))
    ensures var r := Next(w, SignOut(pid, gen));
            && r.browser == w.browser.(cookie := None)
            && forall t: Token :: IsLive(r.server.rows, t) <==> IsLive(w.server.rows, t) && w.browser.cookie != Some(t)
  {}

  /** Signing out everywhere ends all of the user's tokens, no other user's, and forgets the cookie. */
  lemma SignOutEverywhereLeaves(w: World, user: UserId, pid: Pid, gen: Generated)
    requires Allowed(w, SignOutEverywhere(user, pid, gen))
    ensures var r := Next(w, SignOutEverywhere(user, pid, gen));
            && r.browser == w.browser.(cookie := None)
            && forall t :: IsLive(r.server.rows, t) <==> IsLive(w.server.rows, t) && w.server.rows[t].userId != user
  {}

  /** Changing the password leaves the new cookie as the user's only live token. */
  lemma ChangePasswordLeaves(w: World, user: UserId, pid: Pid, next: Pid, gen: Generated)
    requires WorldInv(w) && Allowed(w, ChangePassword(user, pid, next, gen))
    ensures var r := Next(w, ChangePassword(user, pid, next, gen));
            && r.browser == w.browser.(cookie := Some(gen.token))
            && IsLive(r.server.rows, gen.token) && r.server.rows[gen.token].userId == user
            && forall t :: t != gen.token ==>
                 (IsLive(r.server.rows, t) <==> IsLive(w.server.rows, t) && w.server.rows[t].userId != user)
  {
    assert gen.token !in w.server.rows by { assert RowsRecorded(w.server); }
  }

  // ---------------------------------------------------------------- runs

  /** The run from `w` along the actions ends in `w'`. */
  ghost predicate Leads(w: World, actions: seq<Action>, w': World) {
    Allows(w, actions) && After(w, actions) == w'
  }

  lemma {:induction false} LeadsOn(w: World, actions: seq<Action>, mid: World, more: seq<Action>, w': World)
    requires Leads(w, actions, mid) && Leads(mid, more, w')
    ensures Leads(w, actions + more, w')
    decreases |actions|
  {
    hide Next, Allowed;
    if actions == [] {
      assert actions + more == more;
    } else {
      assert (actions + more)[0] == actions[0] && (actions + more)[1..] == actions[1..] + more;
      LeadsOn(Next(w, actions[0]), actions[1..], mid, more, w');
    }
  }

  lemma OneLeads(w: World, a: Action)
    requires Allowed(w, a)
    ensures Leads(w, [a], Next(w, a))
  {
    hide Next, Allowed;
    assert [a][1..] == [];
    assert After(Next(w, a), []) == Next(w, a);
  }

  /** The calls of `cs` move to one state. */
  function AllAt(calls: map<CallId, CallState>, cs: seq<CallId>, at: CallState): map<CallId, CallState> {
    map c | c in calls :: if c in cs then at else calls[c]
  }

  function AllSent(sends: map<CallId, nat>, cs: seq<CallId>, n: nat): map<CallId, nat> {
    map c | c in sends :: if c in cs then n else sends[c]
  }

  lemma OneMore(calls: map<CallId, CallState>, sends: map<CallId, nat>, cs: seq<CallId>, at: CallState, n: nat)
    requires cs != [] && cs[0] in calls && cs[0] in sends
    ensures AllAt(calls[cs[0] := at], cs[1..], at) == AllAt(calls, cs, at)
    ensures AllSent(sends[cs[0] := n], cs[1..], n) == AllSent(sends, cs, n)
  {
    assert cs == [cs[0]] + cs[1..];
  }

  predicate Distinct(cs: seq<CallId>) {
    forall i, j | 0 <= i < j < |cs| :: cs[i] != cs[j]
  }

  // ---------------------------------------------------------------- the calls join

  /** Calls that fail while a refresh is in flight: all wait for it, nothing else happens. */
  lemma {:induction false} LaterCallsJoin(w: World, cs: seq<CallId>, p: PromiseId, spare: PromiseId, pid: Pid)
    returns (actions: seq<Action>)
    requires w.browser.refreshInFlight == Some(p) && CanRefresh(w, spare, pid) && Distinct(cs)
    requires forall c <- cs :: c in w.browser.calls && w.browser.calls[c] == Fetching(false, false)
    ensures Leads(w, actions, World(w.server, w.browser.(calls := AllAt(w.browser.calls, cs, Awaiting(p)))))
    decreases |cs|
  {
    if cs == [] {
      actions := [];
      assert AllAt(w.browser.calls, cs, Awaiting(p)) == w.browser.calls;
    } else {
      var a := Response(cs[0], true, spare, pid, true);
      var w1 := World(w.server, w.browser.(calls := w.browser.calls[cs[0] := Awaiting(p)]));
      assert cs[0] in cs && Allowed(w, a) && Next(w, a) == w1;
      OneLeads(w, a);
      assert forall c <- cs[1..] :: c in cs && c != cs[0];
      var rest := LaterCallsJoin(w1, cs[1..], p, spare, pid);
      assert AllAt(w1.browser.calls, cs[1..], Awaiting(p)) == AllAt(w.browser.calls, cs, Awaiting(p)) by {
        assert cs == [cs[0]] + cs[1..];
      }
      LeadsOn(w, [a], w1, rest, World(w.server, w.browser.(calls := AllAt(w.browser.calls, cs, Awaiting(p)))));
      actions := [a] + rest;
    }
  }

  /** The first call that fails sends the cookie. */
  lemma FirstCallSends(w: World, c: CallId, p: PromiseId, pid: Pid, raw: Token)
    requires Idle(w.browser) && CanRefresh(w, p, pid) && w.browser.cookie == Some(raw)
    requires c in w.browser.calls && w.browser.calls[c] == Fetching(false, false)
    ensures var b := w.browser;
            Leads(w, [Response(c, true, p, pid, true)],
                  World(Moved(w.server, pid, Claiming(raw)),
                        b.(refreshInFlight := Some(p), refreshes := b.refreshes[p := Requesting(pid, raw)],
                           calls := b.calls[c := Awaiting(p)])))
  {
    OneLeads(w, Response(c, true, p, pid, true));
  }

  // ---------------------------------------------------------------- the refresh is served

  lemma Served(w: World, p: PromiseId, pid: Pid, raw: Token, gen: Generated) returns (actions: seq<Action>)
    requires p in w.browser.refreshes && w.browser.refreshes[p] == Requesting(pid, raw)
    requires Enabled(w.server, Run(pid, gen)) && w.server.procs[pid] == Claiming(raw)
    requires IsLive(w.server.rows, raw) && w.server.now < w.server.rows[raw].expiresAt
    ensures Leads(w, actions, World(TokenSafety.AfterRotation(w.server, pid, raw, gen), w.browser))
  {
    var s, b := w.server, w.browser;
    var row := s.rows[raw];
    var a := Serve(p, gen);
    var s1 := Moved(s.(rows := Revoke(s.rows, ByToken(raw), s.now)), pid, Claimed(raw, row.(revokedAt := Some(s.now))));
    TokenSafety.ClaimMoves(s, pid, raw, gen);
    TokenSafety.WinnerInserts(s1, pid, raw, row, gen);
    var s2 := Moved(s1, pid, Issuing(raw, row.userId, row.familyId, s.now + s.ttl));
    var s3 := TokenSafety.AfterRotation(s, pid, raw, gen);
    assert s.procs[pid := s1.procs[pid]][pid := s2.procs[pid]][pid := s3.procs[pid]] == s3.procs;
    assert RunProc(s2, pid, gen) == s3;
    hide RunProc, Revoke;
    assert Next(w, a) == World(s1, b) && Next(World(s1, b), a) == World(s2, b) && Next(World(s2, b), a) == World(s3, b);
    OneLeads(w, a);
    OneLeads(World(s1, b), a);
    OneLeads(World(s2, b), a);
    LeadsOn(World(s1, b), [a], World(s2, b), [a], World(s3, b));
    LeadsOn(w, [a], World(s1, b), [a] + [a], World(s3, b));
    actions := [a] + ([a] + [a]);
  }

  /** Delivery, settling and the clearing microtask. */
  lemma Settles(w: World, p: PromiseId, pid: Pid, raw: Token, next: Token) returns (actions: seq<Action>)
    requires p in w.browser.refreshes && w.browser.refreshes[p] == Requesting(pid, raw)
    requires pid in w.server.procs && w.server.procs[pid] == Finished(Rotated(raw, next))
    ensures var b := w.browser;
            Leads(w, actions, World(w.server, b.(cookie := Some(next), hasAccessToken := true, refreshInFlight := None,
                                                 refreshes := b.refreshes[p := Cleared(true)])))
  {
    var s, b := w.server, w.browser;
    var w1 := World(s, b.(cookie := Some(next), refreshes := b.refreshes[p := Answered(Session)]));
    var w2 := World(s, w1.browser.(hasAccessToken := true, refreshes := b.refreshes[p := Settled(true)]));
    var w3 := World(s, w2.browser.(refreshInFlight := None, refreshes := b.refreshes[p := Cleared(true)]));
    assert Next(w, DeliverRefresh(p, true)) == w1;
    assert w1.browser.refreshes[p := Settled(true)] == w2.browser.refreshes;
    assert Next(w1, SettleRefresh(p)) == w2;
    assert w2.browser.refreshes[p := Cleared(true)] == w3.browser.refreshes;
    assert Next(w2, ClearRefresh(p)) == w3;
    OneLeads(w, DeliverRefresh(p, true));
    OneLeads(w1, SettleRefresh(p));
    OneLeads(w2, ClearRefresh(p));
    LeadsOn(w1, [SettleRefresh(p)], w2, [ClearRefresh(p)], w3);
    LeadsOn(w, [DeliverRefresh(p, true)], w1, [SettleRefresh(p)] + [ClearRefresh(p)], w3);
    actions := [DeliverRefresh(p, true)] + ([SettleRefresh(p)] + [ClearRefresh(p)]);
  }

  // ---------------------------------------------------------------- the calls retry

  lemma OneRetries(w: World, c: CallId, p: PromiseId)
    requires p in w.browser.refreshes && w.browser.refreshes[p] == Cleared(true)
    requires c in w.browser.calls && w.browser.calls[c] == Awaiting(p)
    requires c in w.browser.sends && w.browser.sends[c] == 1
    ensures var b := w.browser;
            Leads(w, [ResumeCall(c)],
                  World(w.server, b.(calls := b.calls[c := Fetching(false, true)], sends := b.sends[c := 2])))
  {
    OneLeads(w, ResumeCall(c));
  }

  lemma {:induction false} CallsRetry(w: World, cs: seq<CallId>, p: PromiseId) returns (actions: seq<Action>)
    requires p in w.browser.refreshes && w.browser.refreshes[p] == Cleared(true) && Distinct(cs)
    requires forall c <- cs :: c in w.browser.calls && w.browser.calls[c] == Awaiting(p)
                               && c in w.browser.sends && w.browser.sends[c] == 1
    ensures Leads(w, actions, World(w.server, w.browser.(calls := AllAt(w.browser.calls, cs, Fetching(false, true)),
                                                         sends := AllSent(w.browser.sends, cs, 2))))
    decreases |cs|
  {
    var b := w.browser;
    var w' := World(w.server, b.(calls := AllAt(b.calls, cs, Fetching(false, true)), sends := AllSent(b.sends, cs, 2)));
    if cs == [] {
      actions := [];
      assert w'.browser.calls == b.calls && w'.browser.sends == b.sends;
      assert Leads(w, [], w);
    } else {
      var a := ResumeCall(cs[0]);
      assert cs[0] in cs;
      var w1 := World(w.server, b.(calls := b.calls[cs[0] := Fetching(false, true)], sends := b.sends[cs[0] := 2]));
      OneRetries(w, cs[0], p);
      hide Next, Allowed, Leads;
      assert forall c <- cs[1..] :: c in cs && c != cs[0];
      OneMore(b.calls, b.sends, cs, Fetching(false, true), 2);
      hide AllAt, AllSent;
      var rest := CallsRetry(w1, cs[1..], p);
      LeadsOn(w, [a], w1, rest, w');
      actions := [a] + rest;
    }
  }

  /**
    A refresh whose statements nobody interrupts is answered as the serial handler answers it: the
    successor and a session exactly for a live, unexpired token of an active account.
  */
  lemma UninterruptedRefreshAnswers(w: World, p: PromiseId, pid: Pid, raw: Token, gen: Generated, active: bool)
    requires p in w.browser.refreshes && w.browser.refreshes[p] == Requesting(pid, raw)
    requires pid in w.server.procs && w.server.procs[pid] == Claiming(raw)
    ensures var s := RunProc(RunProc(RunProc(w.server, pid, gen), pid, gen), pid, gen);
            var served := World(s, w.browser);
            && Allowed(served, DeliverRefresh(p, active))
            && var b' := Next(served, DeliverRefresh(p, active)).browser;
               if IsLive(w.server.rows, raw) && w.server.now < w.server.rows[raw].expiresAt && active
               then b'.cookie == Some(gen.token) && b'.refreshes[p] == Answered(Session)
               else b'.cookie == None && b'.refreshes[p] == Answered(Rejected)
  {
    var s := RunProc(RunProc(RunProc(w.server, pid, gen), pid, gen), pid, gen);
    TokenSafety.UninterruptedRotationIsRotate(w.server, pid, raw, gen);
    OnlyClaimsRotate(w.server, pid, raw, gen);
    hide RunProc;
    DeliveryLeaves(World(s, w.browser), p, active);
  }

  lemma OnlyClaimsRotate(s: State, pid: Pid, raw: Token, gen: Generated)
    requires pid in s.procs && s.procs[pid] == Claiming(raw)
    ensures var r := RunProc(RunProc(RunProc(s, pid, gen), pid, gen), pid, gen);
            && r.procs[pid].Finished?
            && (if IsLive(s.rows, raw) && s.now < s.rows[raw].expiresAt
                then r.procs[pid] == Finished(Rotated(raw, gen.token)) else !r.procs[pid].outcome.Rotated?)
  {
    var s1 := RunProc(s, pid, gen);
    var s2 := RunProc(s1, pid, gen);
    if !IsLive(s.rows, raw) && raw in s.rows { assert s2.procs[pid] == Killing(s.rows[raw].familyId); }
  }

  // ---------------------------------------------------------------- one refresh for all

  /** Every call of `cs` waits for the refresh `p`, which carries the cookie. */
  function Joined(w: World, cs: seq<CallId>, p: PromiseId, pid: Pid, raw: Token): World {
    World(Moved(w.server, pid, Claiming(raw)),
          w.browser.(refreshInFlight := Some(p), refreshes := w.browser.refreshes[p := Requesting(pid, raw)],
                     calls := AllAt(w.browser.calls, cs, Awaiting(p))))
  }

  lemma CallsJoin(w: World, cs: seq<CallId>, p: PromiseId, pid: Pid, spare: PromiseId, unused: Pid, raw: Token)
    returns (actions: seq<Action>)
    requires Idle(w.browser) && w.browser.cookie == Some(raw) && cs != [] && Distinct(cs)
    requires forall c <- cs :: c in w.browser.calls && w.browser.calls[c] == Fetching(false, false)
    requires CanRefresh(w, p, pid) && CanRefresh(w, spare, unused) && p != spare && pid != unused
    ensures Leads(w, actions, Joined(w, cs, p, pid, raw))
  {
    var b := w.browser;
    assert cs == [cs[0]] + cs[1..];
    assert cs[0] in cs && forall c <- cs[1..] :: c in cs && c != cs[0];
    var first := Response(cs[0], true, p, pid, true);
    FirstCallSends(w, cs[0], p, pid, raw);
    var w1 := World(Moved(w.server, pid, Claiming(raw)),
                    b.(refreshInFlight := Some(p), refreshes := b.refreshes[p := Requesting(pid, raw)],
                       calls := b.calls[cs[0] := Awaiting(p)]));
    var rest := LaterCallsJoin(w1, cs[1..], p, spare, unused);
    assert AllAt(w1.browser.calls, cs[1..], Awaiting(p)) == AllAt(b.calls, cs, Awaiting(p));
    hide Leads;
    LeadsOn(w, [first], w1, rest, Joined(w, cs, p, pid, raw));
    actions := [first] + rest;
  }

  /** The refresh is over and has left its session. */
  function Refreshed(w: World, p: PromiseId, pid: Pid, raw: Token, gen: Generated): World
    requires raw in w.server.rows
  {
    World(TokenSafety.AfterRotation(w.server, pid, raw, gen),
          w.browser.(cookie := Some(gen.token), hasAccessToken := true, refreshInFlight := None,
                     refreshes := w.browser.refreshes[p := Cleared(true)]))
  }

  lemma RefreshRuns(w: World, p: PromiseId, pid: Pid, raw: Token, gen: Generated) returns (actions: seq<Action>)
    requires p in w.browser.refreshes && w.browser.refreshes[p] == Requesting(pid, raw)
    requires Enabled(w.server, Run(pid, gen)) && w.server.procs[pid] == Claiming(raw)
    requires IsLive(w.server.rows, raw) && w.server.now < w.server.rows[raw].expiresAt
    ensures Leads(w, actions, Refreshed(w, p, pid, raw, gen))
  {
    var serves := Served(w, p, pid, raw, gen);
    var w1 := World(TokenSafety.AfterRotation(w.server, pid, raw, gen), w.browser);
    var settles := Settles(w1, p, pid, raw, gen.token);
    hide Leads;
    LeadsOn(w, serves, w1, settles, Refreshed(w, p, pid, raw, gen));
    actions := serves + settles;
  }

  /** Every call of `cs` has been sent again. */
  function Retried(w: World, cs: seq<CallId>): World {
    World(w.server, w.browser.(calls := AllAt(w.browser.calls, cs, Fetching(false, true)),
                               sends := AllSent(w.browser.sends, cs, 2)))
  }

  lemma JoinedCanRun(w: World, cs: seq<CallId>, p: PromiseId, pid: Pid, raw: Token, gen: Generated)
    requires pid !in w.server.procs && gen.token !in w.server.log && gen.family !in w.server.owners
    ensures Enabled(Joined(w, cs, p, pid, raw).server, Run(pid, gen))
  {}

  /**
    Any number of calls fail with 401 in a browser whose cookie is live and unexpired. They share one
    refresh. It ends with the token that its rotation inserted as the cookie and as the family's only live
    one, with an access token, and with every one of the calls sent for the second time.
  */
  lemma OneRefreshServesAll(
    w: World, cs: seq<CallId>, p: PromiseId, pid: Pid, spare: PromiseId, unused: Pid, raw: Token, gen: Generated)
    returns (actions: seq<Action>)
    requires WorldInv(w) && Idle(w.browser) && w.browser.cookie == Some(raw)
    requires raw in w.server.rows && w.server.now < w.server.rows[raw].expiresAt
    requires cs != [] && Distinct(cs)
    requires forall c <- cs :: c in w.browser.calls && w.browser.calls[c] == Fetching(false, false)
    requires CanRefresh(w, p, pid) && CanRefresh(w, spare, unused) && p != spare && pid != unused
    requires gen.token !in w.server.log && gen.family !in w.server.owners
    ensures Allows(w, actions)
    ensures var r := After(w, actions);
            && pid in r.server.procs && r.server.procs[pid] == Finished(Rotated(raw, gen.token))
            && r.browser.cookie == Some(gen.token) && Idle(r.browser) && r.browser.hasAccessToken
            && LiveTokens(r.server, w.server.rows[raw].familyId) == {gen.token}
            && (forall c <- cs :: c in r.browser.calls && r.browser.calls[c] == Fetching(false, true)
                                  && c in r.browser.sends && r.browser.sends[c] == 2)
            && (forall c <- w.browser.calls :: c !in cs ==>
                  c in r.browser.calls && r.browser.calls[c] == w.browser.calls[c])
  {
    IdleCookieIsLive(w, raw);
    FirstSends(w, cs);
    var joins := CallsJoin(w, cs, p, pid, spare, unused, raw);
    var w1 := Joined(w, cs, p, pid, raw);
    JoinedCanRun(w, cs, p, pid, raw, gen);
    var refresh := RefreshRuns(w1, p, pid, raw, gen);
    var w2 := Refreshed(w1, p, pid, raw, gen);
    var retries := CallsRetry(w2, cs, p);
    var w3 := Retried(w2, cs);
    AfterRotationEnds(w1.server, pid, raw, gen);
    hide Leads, WorldInv, TokenSafety.AfterRotation, CanRefresh, Enabled;
    LeadsOn(w1, refresh, w2, retries, w3);
    LeadsOn(w, joins, w1, refresh + retries, w3);
    actions := joins + (refresh + retries);
    EndsLive(w, actions, w3, gen.token, w.server.rows[raw].familyId);
  }

  lemma AfterRotationEnds(s: State, pid: Pid, raw: Token, gen: Generated)
    requires raw in s.rows
    ensures var r := TokenSafety.AfterRotation(s, pid, raw, gen);
            && pid in r.procs && r.procs[pid] == Finished(Rotated(raw, gen.token))
            && gen.token in r.rows && r.rows[gen.token].familyId == s.rows[raw].familyId
  {}

  lemma FirstSends(w: World, cs: seq<CallId>)
    requires WorldInv(w)
    requires forall c <- cs :: c in w.browser.calls && w.browser.calls[c] == Fetching(false, false)
    ensures forall c <- cs :: c in w.browser.sends && w.browser.sends[c] == 1
  {
    assert SendsBounded(w.browser);
  }

  lemma IdleCookieIsLive(w: World, t: Token)
    requires WorldInv(w) && Idle(w.browser) && w.browser.cookie == Some(t) && t in w.server.rows
    ensures IsLive(w.server.rows, t) && LiveTokens(w.server, w.server.rows[t].familyId) == {t}
  {
    assert forall p <- w.browser.refreshes :: w.browser.refreshes[p].Cleared?;
    assert Unspent(w.server, t) && Exclusive(w.server);
  }

  lemma EndsLive(w: World, actions: seq<Action>, r: World, t: Token, family: FamilyId)
    requires WorldInv(w) && Leads(w, actions, r)
    requires Idle(r.browser) && r.browser.cookie == Some(t) && t in r.server.rows && r.server.rows[t].familyId == family
    ensures Allows(w, actions) && After(w, actions) == r && LiveTokens(r.server, family) == {t}
  {
    AfterKeepsInv(w, actions);
    IdleCookieIsLive(r, t);
  }
}
