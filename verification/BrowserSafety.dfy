/**
  One browser context composed with the token service and everything else that uses it: the
  single-flight refresh never presents a spent token, however many calls fail at once.
*/
module BrowserSafety {
  import opened Options
  import opened TokenRows
  import opened TokenMachine
  import TokenOverlap
  import TokenSafety
  import opened ApiClient

  datatype World = World(server: State, browser: Browser)

  datatype Action =
    | Elsewhere(event: Event)                       // any step of any other process, or of the clock
    | StartCall(call: CallId, skipAuth: bool)
    | RestoreCall(call: CallId, promise: PromiseId, pid: Pid, admitted: bool)
    | Response(call: CallId, unauthorized: bool, promise: PromiseId, pid: Pid, admitted: bool)
    | Serve(promise: PromiseId, gen: Generated)     // the refresh handler's rotation takes its next step
    | DeliverRefresh(promise: PromiseId, active: bool)
    | FailRefresh(promise: PromiseId)               // a request that never reached the handler fails
    | SettleRefresh(promise: PromiseId)
    | ClearRefresh(promise: PromiseId)
    | ResumeCall(call: CallId)
    | DropCookie                                    // the browser forgets an expired cookie
    | SignIn(user: UserId, pid: Pid, gen: Generated)
    | SignOut(pid: Pid, gen: Generated)
    | SignOutEverywhere(user: UserId, pid: Pid, gen: Generated)
    | ChangePassword(user: UserId, pid: Pid, next: Pid, gen: Generated)

  predicate Idle(b: Browser) {
    b.refreshInFlight == None
  }

  /** The families whose tokens the browser holds or is presenting. */
  predicate InPlay(w: World, family: FamilyId) {
    (w.browser.cookie.Some? && w.browser.cookie.value in w.server.log
     && w.server.log[w.browser.cookie.value].family == family) ||
    exists p <- w.browser.refreshes ::
      w.browser.refreshes[p].Requesting? && w.browser.refreshes[p].raw in w.server.log
      && w.server.log[w.browser.refreshes[p].raw].family == family
  }

  /** Nobody else ends the session: the step revokes no live row of a family in play. */
  ghost predicate Spares(w: World, server': State) {
    forall t :: IsLive(w.server.rows, t) && InPlay(w, w.server.rows[t].familyId) && t in server'.rows
                ==> IsLive(server'.rows, t)
  }

  predicate Serves(b: Browser, pid: Pid) {
    exists p <- b.refreshes :: b.refreshes[p].Requesting? && b.refreshes[p].pid == pid
  }

  predicate CanRefresh(w: World, promise: PromiseId, pid: Pid) {
    promise !in w.browser.refreshes && pid !in w.server.procs
  }

  predicate Fresh(s: State, pid: Pid, gen: Generated) {
    pid !in s.procs && gen.token !in s.log && gen.family !in s.owners
  }

  /** A sign-in that has drawn its expiry and not yet inserted its token. */
  function Arriving(s: State, user: UserId, pid: Pid): State {
    Moved(s, pid, Opening(user, s.now + s.ttl))
  }

  function SignedIn(s: State, user: UserId, pid: Pid, gen: Generated): State {
    RunProc(Arriving(s, user, pid), pid, gen)
  }

  function SignedOut(s: State, sel: Selector, pid: Pid, gen: Generated): State {
    RunProc(Moved(s, pid, Revoking(sel)), pid, gen)
  }

  ghost predicate Allowed(w: World, a: Action) {
    var b := w.browser;
    match a
    case Elsewhere(e) =>
      Enabled(w.server, e) && Spares(w, Step(w.server, e)) && (e.Run? ==> !Serves(b, e.pid))
    case StartCall(call, _) => call !in b.calls
    case RestoreCall(call, p, pid, _) => call !in b.calls && CanRefresh(w, p, pid)
    case Response(call, _, p, pid, _) => call in b.calls && b.calls[call].Fetching? && CanRefresh(w, p, pid)
    case Serve(p, gen) =>
      p in b.refreshes && b.refreshes[p].Requesting? && Enabled(w.server, Run(b.refreshes[p].pid, gen))
    case DeliverRefresh(p, _) =>
      p in b.refreshes && (b.refreshes[p].Bare? ||
        (b.refreshes[p].Requesting? && b.refreshes[p].pid in w.server.procs
            && w.server.procs[b.refreshes[p].pid].Finished?))
    case FailRefresh(p) => p in b.refreshes && b.refreshes[p].Bare?
    case SettleRefresh(p) => p in b.refreshes && b.refreshes[p].Answered?
    case ClearRefresh(p) => p in b.refreshes && b.refreshes[p].Settled?
    case ResumeCall(call) =>
      call in b.calls && call in b.sends && (b.calls[call].Awaiting? || b.calls[call].Restoring?)
      && b.calls[call].promise in b.refreshes && Resolved(b.refreshes[b.calls[call].promise])
    case DropCookie => true
    case SignIn(_, pid, gen) => Idle(b) && Fresh(w.server, pid, gen)
    case SignOut(pid, gen) => Idle(b) && Fresh(w.server, pid, gen)
    case SignOutEverywhere(_, pid, gen) => Idle(b) && Fresh(w.server, pid, gen)
    case ChangePassword(_, pid, next, gen) =>
      Idle(b) && Fresh(w.server, pid, gen) && Fresh(w.server, next, gen) && pid != next
  }

  /** The server learns of a refresh request when the browser sends one. */
  function Sent(s: State, b: Browser, pid: Pid, admitted: bool): State {
    if b.refreshInFlight == None && NewRefresh(b, pid, admitted).Requesting?
    then Moved(s, pid, Claiming(b.cookie.value)) else s
  }

  /** What the refresh handler's response does to the cookie, and whether it is a 200. */
  function RefreshResponse(w: World, r: Refresh, active: bool): (Option<Token>, Answer)
    requires r.Requesting? ==> r.pid in w.server.procs
  {
    if !r.Requesting? then (w.browser.cookie, Rejected)
    else
      match w.server.procs[r.pid]
      case Finished(Rotated(_, next)) => if active then (Some(next), Session) else (None, Rejected)
      case _ => (None, Rejected)
  }

  function Next(w: World, a: Action): World
    requires Allowed(w, a)
  {
    var s, b := w.server, w.browser;
    match a
    case Elsewhere(e) => World(Step(s, e), b)
    case StartCall(call, skipAuth) => World(s, Start(b, call, skipAuth))
    case RestoreCall(call, p, pid, admitted) => World(Sent(s, b, pid, admitted), Restore(b, call, p, pid, admitted))
    case Response(call, unauthorized, p, pid, admitted) =>
      var joins := unauthorized && !b.calls[call].skipAuth && !b.calls[call].isRetry;
      World(if joins then Sent(s, b, pid, admitted) else s, Respond(b, call, unauthorized, p, pid, admitted))
    case Serve(p, gen) => World(RunProc(s, b.refreshes[p].pid, gen), b)
    case DeliverRefresh(p, active) =>
      var (cookie, answer) := RefreshResponse(w, b.refreshes[p], active);
      World(s, Deliver(b, p, cookie, answer))
    case FailRefresh(p) => World(s, Deliver(b, p, b.cookie, NoResponse))
    case SettleRefresh(p) => World(s, Settle(b, p))
    case ClearRefresh(p) => World(s, Clear(b, p))
    case ResumeCall(call) => World(s, Resume(b, call))
    case DropCookie => World(s, b.(cookie := None))
    case SignIn(user, pid, gen) =>
      World(SignedIn(s, user, pid, gen), b.(cookie := Some(gen.token)))
    case SignOut(pid, gen) =>
      World(match b.cookie
            case Some(raw) => SignedOut(s, ByToken(raw), pid, gen)
            case None => s,
            b.(cookie := None))
    case SignOutEverywhere(user, pid, gen) => World(SignedOut(s, ByUser(user), pid, gen), b.(cookie := None))
    case ChangePassword(user, pid, next, gen) =>
      World(SignedIn(SignedOut(s, ByUser(user), pid, gen), user, next, gen), b.(cookie := Some(gen.token)))
  }

  // ---------------------------------------------------------------- invariant

  /** The token was issued, nobody has used it, and nobody is rotating its family. */
  ghost predicate Unspent(s: State, t: Token) {
    t in s.log && (t in s.rows ==> IsLive(s.rows, t)) && forall p <- s.procs :: !Holds(s.procs[p], s.log[t].family)
  }

  /** Where the handler's rotation of `raw` may be: never at reuse detection. */
  ghost predicate OnTrack(s: State, pid: Pid, raw: Token) {
    pid in s.procs && raw in s.log &&
    match s.procs[pid]
    case Claiming(t) => t == raw && Unspent(s, raw)
    case Looking(t) => t == raw && raw !in s.rows
    case Claimed(t, _) => t == raw
    case Issuing(t, _, _, _) => t == raw
    case Finished(Rotated(t, next)) => t == raw && Unspent(s, next) && s.log[next].family == s.log[raw].family
    case Finished(SessionExpired(t)) => t == raw
    case Finished(InvalidToken) => true
    case _ => false
  }

  ghost predicate CookieGood(w: World) {
    (forall p <- w.browser.refreshes :: w.browser.refreshes[p].Requesting? ==>
       OnTrack(w.server, w.browser.refreshes[p].pid, w.browser.refreshes[p].raw)
       && (w.browser.cookie == None || w.browser.cookie == Some(w.browser.refreshes[p].raw))) &&
    ((forall p <- w.browser.refreshes :: !w.browser.refreshes[p].Requesting?) && w.browser.cookie.Some?
     ==> Unspent(w.server, w.browser.cookie.value))
  }

  ghost predicate WorldInv(w: World) {
    Inv(w.server) && SingleFlight(w.browser) && SendsBounded(w.browser) && CookieGood(w)
  }

  lemma UnspentElsewhere(s: State, e: Event, t: Token)
    requires Inv(s) && Enabled(s, e) && Unspent(s, t)
    requires forall u :: IsLive(s.rows, u) && s.rows[u].familyId == s.log[t].family && u in Step(s, e).rows
                         ==> IsLive(Step(s, e).rows, u)
    ensures Unspent(Step(s, e), t)
  {
    if e.Run? && s.procs[e.pid].Claiming? && IsLive(s.rows, s.procs[e.pid].raw) {
      assert s.procs[e.pid].raw in Step(s, e).rows;
    }
  }

  /** Another process's step leaves this one and everything on record as it was, and brings no row back. */
  lemma TrackedStays(s: State, e: Event, pid: Pid, raw: Token)
    requires Enabled(s, e) && pid in s.procs && raw in s.log && (e.Run? ==> e.pid != pid)
    ensures var s' := Step(s, e);
            && pid in s'.procs && s'.procs[pid] == s.procs[pid]
            && (forall t <- s.log :: t in s'.log && s'.log[t] == s.log[t])
            && (raw in s'.rows ==> raw in s.rows)
  {}

  lemma ElsewhereKeepsTrack(s: State, e: Event, pid: Pid, raw: Token)
    requires Inv(s) && Enabled(s, e) && OnTrack(s, pid, raw) && (e.Run? ==> e.pid != pid)
    requires forall u :: IsLive(s.rows, u) && s.rows[u].familyId == s.log[raw].family && u in Step(s, e).rows
                         ==> IsLive(Step(s, e).rows, u)
    ensures OnTrack(Step(s, e), pid, raw)
  {
    TrackedStays(s, e, pid, raw);
    hide Inv, Unspent, Step, Enabled, RunProc;
    match s.procs[pid]
    case Claiming(_) => UnspentElsewhere(s, e, raw);
    case Finished(Rotated(_, next)) =>
      assert next in s.log by { assert Unspent(s, next); }
      UnspentElsewhere(s, e, next);
    case _ =>
  }

  lemma ServeKeepsTrack(s: State, pid: Pid, raw: Token, gen: Generated)
    requires Inv(s) && OnTrack(s, pid, raw) && Enabled(s, Run(pid, gen))
    ensures OnTrack(RunProc(s, pid, gen), pid, raw)
  {
    assert Recorded(s, s.procs[pid]);
    if s.procs[pid].Issuing? {
      var s' := RunProc(s, pid, gen);
      var family := s.procs[pid].family;
      assert Holds(s.procs[pid], family);
      assert forall p <- s.procs :: p != pid ==> !Holds(s.procs[p], family) && s'.procs[p] == s.procs[p];
    }
  }

  lemma SignedInKeepsInv(s: State, user: UserId, pid: Pid, gen: Generated)
    requires Inv(s) && Fresh(s, pid, gen)
    ensures Inv(SignedIn(s, user, pid, gen)) && Unspent(SignedIn(s, user, pid, gen), gen.token)
  {
    NewTokenIsUnspent(s, user, pid, gen);
    SignInIsTwoSteps(s, user, pid, gen);
    hide Inv, Unspent, RunProc, Step, Enabled, SignedIn, Arriving, Fresh;
    StepKeepsInv(s, Spawn(pid, Opening(user, s.now + s.ttl)));
    StepKeepsInv(Arriving(s, user, pid), Run(pid, gen));
  }

  lemma SignInIsTwoSteps(s: State, user: UserId, pid: Pid, gen: Generated)
    requires Fresh(s, pid, gen)
    ensures var arrive := Spawn(pid, Opening(user, s.now + s.ttl));
            && Enabled(s, arrive) && Step(s, arrive) == Arriving(s, user, pid)
            && Enabled(Arriving(s, user, pid), Run(pid, gen))
            && Step(Arriving(s, user, pid), Run(pid, gen)) == SignedIn(s, user, pid, gen)
  {
    hide RunProc;
  }

  lemma NewTokenIsUnspent(s: State, user: UserId, pid: Pid, gen: Generated)
    requires Inv(s) && Fresh(s, pid, gen)
    ensures Unspent(SignedIn(s, user, pid, gen), gen.token)
  {
    var s' := SignedIn(s, user, pid, gen);
    assert s'.procs == s.procs[pid := Finished(Opened(gen.token))];
    forall p | p in s'.procs ensures !Holds(s'.procs[p], gen.family) {
      if p != pid { assert Recorded(s, s.procs[p]); }
    }
  }

  lemma SignedOutKeepsInv(s: State, sel: Selector, pid: Pid, gen: Generated)
    requires Inv(s) && Fresh(s, pid, gen)
    ensures Inv(SignedOut(s, sel, pid, gen))
    ensures forall next :: next != pid && Fresh(s, next, gen) ==> Fresh(SignedOut(s, sel, pid, gen), next, gen)
  {
    StepKeepsInv(s, Spawn(pid, Revoking(sel)));
    StepKeepsInv(Moved(s, pid, Revoking(sel)), Run(pid, gen));
    hide Inv;
  }

  lemma NextKeepsServer(w: World, a: Action)
    requires WorldInv(w) && Allowed(w, a)
    ensures Inv(Next(w, a).server)
  {
    var s, b := w.server, w.browser;
    hide Inv, CookieGood, SingleFlight, SendsBounded, Spares;
    match a
    case Elsewhere(e) => StepKeepsInv(s, e);
    case RestoreCall(_, p, pid, admitted) =>
      if Sent(s, b, pid, admitted) != s { StepKeepsInv(s, Spawn(pid, Claiming(b.cookie.value))); }
    case Response(_, _, p, pid, admitted) =>
      if Sent(s, b, pid, admitted) != s { StepKeepsInv(s, Spawn(pid, Claiming(b.cookie.value))); }
    case Serve(p, gen) => StepKeepsInv(s, Run(b.refreshes[p].pid, gen));
    case SignIn(user, pid, gen) =>
      SignedInKeepsInv(s, user, pid, gen);
    case SignOut(pid, gen) =>
      if b.cookie.Some? { SignedOutKeepsInv(s, ByToken(b.cookie.value), pid, gen); }
    case SignOutEverywhere(user, pid, gen) => SignedOutKeepsInv(s, ByUser(user), pid, gen);
    case ChangePassword(user, pid, next, gen) =>
      SignedOutKeepsInv(s, ByUser(user), pid, gen);
      SignedInKeepsInv(SignedOut(s, ByUser(user), pid, gen), user, next, gen);
    case _ =>
  }

  lemma NextKeepsSingleFlight(w: World, a: Action)
    requires WorldInv(w) && Allowed(w, a)
    ensures SingleFlight(Next(w, a).browser)
  {
    hide Inv, CookieGood, SendsBounded, Enabled, Spares, Step, SignedIn, SignedOut, RunProc, Sent, Moved;
  }

  lemma NextKeepsSends(w: World, a: Action)
    requires WorldInv(w) && Allowed(w, a)
    ensures SendsBounded(Next(w, a).browser)
  {
    hide Inv, CookieGood, SingleFlight, Enabled, Spares, Step, SignedIn, SignedOut, RunProc, Sent, Moved;
  }

  lemma ElsewhereKeepsCookie(w: World, e: Event)
    requires WorldInv(w) && Allowed(w, Elsewhere(e))
    ensures CookieGood(Next(w, Elsewhere(e)))
  {
    var s, b := w.server, w.browser;
    forall p | p in b.refreshes && b.refreshes[p].Requesting?
      ensures OnTrack(Step(s, e), b.refreshes[p].pid, b.refreshes[p].raw)
    {
      assert InPlay(w, s.log[b.refreshes[p].raw].family);
      assert e.Run? ==> e.pid != b.refreshes[p].pid;
      ElsewhereKeepsTrack(s, e, b.refreshes[p].pid, b.refreshes[p].raw);
    }
    if b.cookie.Some? && forall p <- b.refreshes :: !b.refreshes[p].Requesting? {
      assert InPlay(w, s.log[b.cookie.value].family);
      UnspentElsewhere(s, e, b.cookie.value);
    }
  }

  /** A refresh that starts finds every earlier one cleared, so it presents an unspent cookie. */
  lemma JoinKeepsCookie(w: World, spare: PromiseId, pid: Pid, admitted: bool)
    requires WorldInv(w) && CanRefresh(w, spare, pid)
    ensures CookieGood(World(Sent(w.server, w.browser, pid, admitted), RefreshOnce(w.browser, spare, pid, admitted).0))
  {
    var s, b := w.server, w.browser;
    var s', b' := Sent(s, b, pid, admitted), RefreshOnce(b, spare, pid, admitted).0;
    if b.refreshInFlight == None {
      assert forall p <- b.refreshes :: b.refreshes[p].Cleared?;
      if b.cookie.Some? {
        assert Unspent(s, b.cookie.value);
        assert Unspent(s', b.cookie.value);
      }
    }
  }

  lemma CallKeepsCookie(w: World, a: Action)
    requires WorldInv(w) && Allowed(w, a) && (a.RestoreCall? || a.Response?)
    ensures CookieGood(Next(w, a))
  {
    hide Inv, SingleFlight, SendsBounded, OnTrack, Unspent;
    JoinKeepsCookie(w, a.promise, a.pid, a.admitted);
  }

  /** What only the page's own script sees leaves cookie and server alone. */
  lemma ScriptKeepsCookie(w: World, a: Action)
    requires WorldInv(w) && Allowed(w, a)
    requires a.StartCall? || a.SettleRefresh? || a.ClearRefresh? || a.ResumeCall? || a.DropCookie?
    ensures CookieGood(Next(w, a))
  {
    hide Inv, SendsBounded, OnTrack, Unspent;
  }

  lemma ServeKeepsCookie(w: World, p: PromiseId, gen: Generated)
    requires WorldInv(w) && Allowed(w, Serve(p, gen))
    ensures CookieGood(Next(w, Serve(p, gen)))
  {
    var r := w.browser.refreshes[p];
    ServeKeepsTrack(w.server, r.pid, r.raw, gen);
    forall q | q in w.browser.refreshes && w.browser.refreshes[q].Requesting? ensures q == p {
      assert w.browser.refreshInFlight == Some(p) && w.browser.refreshInFlight == Some(q);
    }
  }

  lemma DeliverKeepsCookie(w: World, a: Action)
    requires WorldInv(w) && Allowed(w, a) && (a.DeliverRefresh? || a.FailRefresh?)
    ensures CookieGood(Next(w, a))
  {
    var b, p := w.browser, a.promise;
    forall q | q in b.refreshes && q != p ensures b.refreshes[q].Cleared? {
      assert b.refreshInFlight == Some(p);
    }
    assert forall q <- Next(w, a).browser.refreshes :: q != p ==> b.refreshes[q].Cleared?;
  }

  lemma IdleCookieIsGood(b: Browser, s: State, cookie: Option<Token>)
    requires Idle(b) && SingleFlight(b) && (cookie.Some? ==> Unspent(s, cookie.value))
    ensures CookieGood(World(s, b.(cookie := cookie)))
  {
    hide Unspent, OnTrack;
    assert forall p <- b.refreshes :: b.refreshes[p].Cleared?;
  }

  lemma SessionKeepsCookie(w: World, a: Action)
    requires WorldInv(w) && Allowed(w, a)
    requires a.SignIn? || a.SignOut? || a.SignOutEverywhere? || a.ChangePassword?
    ensures CookieGood(Next(w, a))
  {
    hide Inv, SendsBounded, SingleFlight, CookieGood, Unspent, SignedIn, SignedOut;
    var s := w.server;
    if a.SignIn? {
      SignedInKeepsInv(s, a.user, a.pid, a.gen);
      IdleCookieIsGood(w.browser, SignedIn(s, a.user, a.pid, a.gen), Some(a.gen.token));
    } else if a.ChangePassword? {
      var out := SignedOut(s, ByUser(a.user), a.pid, a.gen);
      SignedOutKeepsInv(s, ByUser(a.user), a.pid, a.gen);
      SignedInKeepsInv(out, a.user, a.next, a.gen);
      IdleCookieIsGood(w.browser, SignedIn(out, a.user, a.next, a.gen), Some(a.gen.token));
    } else {
      IdleCookieIsGood(w.browser, Next(w, a).server, None);
    }
  }

  lemma NextKeepsInv(w: World, a: Action)
    requires WorldInv(w) && Allowed(w, a)
    ensures WorldInv(Next(w, a))
  {
    NextKeepsServer(w, a);
    NextKeepsSingleFlight(w, a);
    NextKeepsSends(w, a);
    hide Inv, SingleFlight, SendsBounded, CookieGood, Allowed, Next;
    match a
    case Elsewhere(e) => ElsewhereKeepsCookie(w, e);
    case RestoreCall(_, _, _, _) => CallKeepsCookie(w, a);
    case Response(_, _, _, _, _) => CallKeepsCookie(w, a);
    case Serve(p, gen) => ServeKeepsCookie(w, p, gen);
    case DeliverRefresh(_, _) => DeliverKeepsCookie(w, a);
    case FailRefresh(_) => DeliverKeepsCookie(w, a);
    case SignIn(_, _, _) => SessionKeepsCookie(w, a);
    case SignOut(_, _) => SessionKeepsCookie(w, a);
    case SignOutEverywhere(_, _, _) => SessionKeepsCookie(w, a);
    case ChangePassword(_, _, _, _) => SessionKeepsCookie(w, a);
    case _ => ScriptKeepsCookie(w, a);
  }

  // ---------------------------------------------------------------- runs

  ghost predicate Allows(w: World, actions: seq<Action>)
    decreases |actions|
  {
    actions == [] || (Allowed(w, actions[0]) && Allows(Next(w, actions[0]), actions[1..]))
  }

  ghost function After(w: World, actions: seq<Action>): World
    requires Allows(w, actions)
    decreases |actions|
  {
    if actions == [] then w else After(Next(w, actions[0]), actions[1..])
  }

  lemma {:induction false} AfterKeepsInv(w: World, actions: seq<Action>)
    requires WorldInv(w) && Allows(w, actions)
    ensures WorldInv(After(w, actions))
    decreases |actions|
  {
    if actions != [] {
      NextKeepsInv(w, actions[0]);
      AfterKeepsInv(Next(w, actions[0]), actions[1..]);
    }
  }

  predicate Starting(w: World) {
    Initial(w.server) && w.browser == Browser(None, false, None, map[], map[], map[])
  }

  /**
    No refresh this browser ever sends reaches reuse detection, and at most one is being served at a
    time.
  */
  lemma NeverTripsReuse(w: World, actions: seq<Action>, p: PromiseId, q: PromiseId)
    requires Starting(w) && Allows(w, actions)
    requires p in After(w, actions).browser.refreshes && After(w, actions).browser.refreshes[p].Requesting?
    ensures var s := After(w, actions).server;
            var pid := After(w, actions).browser.refreshes[p].pid;
            pid in s.procs && !s.procs[pid].Killing? && !(s.procs[pid].Finished? && s.procs[pid].outcome.ReuseDetected?)
    ensures q in After(w, actions).browser.refreshes && After(w, actions).browser.refreshes[q].Requesting? ==> q == p
  {
    AfterKeepsInv(w, actions);
    assert OnTrack(After(w, actions).server, After(w, actions).browser.refreshes[p].pid,
        After(w, actions).browser.refreshes[p].raw);
    var b := After(w, actions).browser;
    assert b.refreshInFlight == Some(p);
  }

  /**
    Whenever no refresh is in flight the cookie is its family's only live token, unless its row expired
    and was pruned.
  */
  lemma IdleCookieIsTheLiveToken(w: World, actions: seq<Action>)
    requires Starting(w) && Allows(w, actions)
    requires Idle(After(w, actions).browser) && After(w, actions).browser.cookie.Some?
    ensures var s := After(w, actions).server;
            var t := After(w, actions).browser.cookie.value;
            && t in s.log
            && Holders(s, s.log[t].family) == {}
            && (if t in s.rows then LiveTokens(s, s.log[t].family) == {t} else s.log[t].expiresAt < s.now)
  {
    AfterKeepsInv(w, actions);
    var s := After(w, actions).server;
    var t := After(w, actions).browser.cookie.value;
    assert forall p <- After(w, actions).browser.refreshes :: After(w, actions).browser.refreshes[p].Cleared?;
    assert Unspent(s, t);
  }

  lemma EachCallSendsAtMostTwice(w: World, actions: seq<Action>, call: CallId)
    requires Starting(w) && Allows(w, actions) && call in After(w, actions).browser.calls
    ensures call in After(w, actions).browser.sends && After(w, actions).browser.sends[call] <= 2
  {
    AfterKeepsInv(w, actions);
  }

  /**
    Why delivery is assumed: once a rotation's response is lost, the next refresh sends the old
    cookie and, whatever else happens meanwhile, can only end in reuse detection or find its row pruned.
  */
  lemma LostResponseTripsReuse(w: World, p: PromiseId, next: Pid, es: seq<Event>)
    requires WorldInv(w) && p in w.browser.refreshes && w.browser.refreshes[p].Requesting?
    requires var proc := w.server.procs[w.browser.refreshes[p].pid]; proc.Finished? && proc.outcome.Rotated?
    requires next !in w.server.procs && Runs(Moved(w.server, next, Claiming(w.browser.refreshes[p].raw)), es)
    ensures var raw := w.browser.refreshes[p].raw;
            var r := Exec(Moved(w.server, next, Claiming(raw)), es);
            && TokenSafety.Replaying(r, next, raw)
            && (r.procs[next].Finished? ==> TokenOverlap.TurnedAway(r, next, raw))
  {
    var raw := w.browser.refreshes[p].raw;
    assert Won(w.server.procs[w.browser.refreshes[p].pid], raw);
    StepKeepsInv(w.server, Spawn(next, Claiming(raw)));
    TokenSafety.SpentTokenNeverRotates(Moved(w.server, next, Claiming(raw)), es, next, raw);
  }

  /** With the old row still there and nothing in between, it ends in reuse detection and the session is gone. */
  lemma LostResponseEndsTheSession(w: World, p: PromiseId, next: Pid, gen: Generated)
    requires WorldInv(w) && p in w.browser.refreshes && w.browser.refreshes[p].Requesting?
    requires var s := w.server; var r := w.browser.refreshes[p];
             s.procs[r.pid].Finished? && s.procs[r.pid].outcome.Rotated? && r.raw in s.rows
    requires next !in w.server.procs
    requires Enabled(Moved(w.server, next, Claiming(w.browser.refreshes[p].raw)), Run(next, gen))
    ensures var raw := w.browser.refreshes[p].raw;
            var s := Moved(w.server, next, Claiming(raw));
            && Runs(s, TokenSafety.ThreeSteps(next, gen))
            && var r := Exec(s, TokenSafety.ThreeSteps(next, gen));
               && r.procs == s.procs[next := Finished(ReuseDetected(s.rows[raw].familyId))]
               && TokenSafety.NoLiveRow(r, s.rows[raw].familyId)
  {
    var raw := w.browser.refreshes[p].raw;
    assert Won(w.server.procs[w.browser.refreshes[p].pid], raw);
    StepKeepsInv(w.server, Spawn(next, Claiming(raw)));
    TokenSafety.SpentTokenTripsReuse(Moved(w.server, next, Claiming(raw)), next, raw, gen);
  }
}
