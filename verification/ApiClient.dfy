/**
  `frontend/src/lib/api.ts`: the module variables of one browser context, and the synchronous
  stretches of `refreshOnce`, `restoreSession` and `request` between two awaits.
*/
module ApiClient {
  import opened Options
  import opened TokenRows
  import opened TokenMachine

  type PromiseId = nat
  type CallId = nat

  /** How a refresh request came back; `NoResponse` is the network failure that `refreshOnce` catches. */
  datatype Answer = Session | Rejected | NoResponse

  /** The life of one refresh promise. */
  datatype Refresh =
    | Requesting(pid: Pid, raw: Token)  // /auth/refresh was sent with this cookie; the server works on it as `pid`
    | Bare                              // sent without a cookie, turned away by the rate limiter, or lost on its way
    | Answered(answer: Answer)          // the response, cookie header included, is in the browser
    | Settled(ok: bool)                 // the promise has its value, the clearing microtask is queued
    | Cleared(ok: bool)

  /** The life of one `request` or `restoreSession` call. */
  datatype CallState =
    | Fetching(skipAuth: bool, isRetry: bool)
    | Awaiting(promise: PromiseId)
    | Restoring(promise: PromiseId)
    | Over

  datatype Browser = Browser(
    cookie: Option<Token>,
    hasAccessToken: bool,
    refreshInFlight: Option<PromiseId>,
    refreshes: map<PromiseId, Refresh>,
    calls: map<CallId, CallState>,
    sends: map<CallId, nat>)

  /**
    The refresh request a new promise stands for: it carries the cookie unless there is none or the
    limiter refuses it.
  */
  function NewRefresh(b: Browser, pid: Pid, admitted: bool): Refresh {
    if admitted && b.cookie.Some? then Requesting(pid, b.cookie.value) else Bare
  }

  /** `refreshOnce` up to its first await: the shared promise, created if there is none. */
  function RefreshOnce(b: Browser, spare: PromiseId, pid: Pid, admitted: bool): (Browser, PromiseId) {
    match b.refreshInFlight
    case Some(p) => (b, p)
    case None =>
      (b.(refreshInFlight := Some(spare), refreshes := b.refreshes[spare := NewRefresh(b, pid, admitted)]), spare)
  }

  function Start(b: Browser, call: CallId, skipAuth: bool): Browser {
    b.(calls := b.calls[call := Fetching(skipAuth, false)], sends := b.sends[call := 1])
  }

  function Restore(b: Browser, call: CallId, spare: PromiseId, pid: Pid, admitted: bool): Browser {
    var (b', p) := RefreshOnce(b, spare, pid, admitted);
    b'.(calls := b'.calls[call := Restoring(p)], sends := b'.sends[call := 0])
  }

  /** The response to `call`'s fetch: a first 401 joins the shared refresh, anything else ends the call. */
  function Respond(b: Browser, call: CallId, unauthorized: bool, spare: PromiseId, pid: Pid, admitted: bool): Browser
    requires call in b.calls && b.calls[call].Fetching?
  {
    if unauthorized && !b.calls[call].skipAuth && !b.calls[call].isRetry then
      var (b', p) := RefreshOnce(b, spare, pid, admitted);
      b'.(calls := b'.calls[call := Awaiting(p)])
    else
      b.(calls := b.calls[call := Over])
  }

  predicate Resolved(r: Refresh) {
    r.Settled? || r.Cleared?
  }

  /** The continuation after `await refreshOnce()`: one retry on a session, the end otherwise. */
  function Resume(b: Browser, call: CallId): Browser
    requires call in b.calls && call in b.sends
    requires b.calls[call].Awaiting? || b.calls[call].Restoring?
    requires b.calls[call].promise in b.refreshes && Resolved(b.refreshes[b.calls[call].promise])
  {
    if b.calls[call].Awaiting? && b.refreshes[b.calls[call].promise].ok then
      b.(calls := b.calls[call := Fetching(false, true)], sends := b.sends[call := b.sends[call] + 1])
    else
      b.(calls := b.calls[call := Over])
  }

  /** The refresh promise takes the value of its response. */
  function Settle(b: Browser, p: PromiseId): Browser
    requires p in b.refreshes && b.refreshes[p].Answered?
  {
    var answer := b.refreshes[p].answer;
    b.(hasAccessToken := if answer == NoResponse then b.hasAccessToken else answer == Session,
       refreshes := b.refreshes[p := Settled(answer == Session)])
  }

  /** The microtask queued by `finally`. */
  function Clear(b: Browser, p: PromiseId): Browser
    requires p in b.refreshes && b.refreshes[p].Settled?
  {
    b.(refreshInFlight := None, refreshes := b.refreshes[p := Cleared(b.refreshes[p].ok)])
  }

  /** The response arrives: the browser applies its Set-Cookie, if any, before any script sees it. */
  function Deliver(b: Browser, p: PromiseId, cookie: Option<Token>, answer: Answer): Browser {
    b.(cookie := cookie, refreshes := b.refreshes[p := Answered(answer)])
  }

  /** At most one refresh is not cleared yet, and it is the one in the slot. */
  predicate SingleFlight(b: Browser) {
    (b.refreshInFlight.Some? ==>
       b.refreshInFlight.value in b.refreshes && !b.refreshes[b.refreshInFlight.value].Cleared?) &&
    (forall p <- b.refreshes :: !b.refreshes[p].Cleared? ==> b.refreshInFlight == Some(p))
  }

  /** A call has sent its path once before its refresh and at most twice in all. */
  predicate SendsBounded(b: Browser) {
    forall c <- b.calls :: c in b.sends && b.sends[c] <= 2 &&
      (b.calls[c].Fetching? && !b.calls[c].isRetry ==> b.sends[c] == 1) &&
      (b.calls[c].Awaiting? ==> b.sends[c] == 1)
  }

  /** The module's variables as assigned by the running client. */
  class Client {
    var cookie: Option<Token>
    var hasAccessToken: bool
    var refreshInFlight: Option<PromiseId>
    var refreshes: map<PromiseId, Refresh>
    var calls: map<CallId, CallState>
    var sends: map<CallId, nat>

    function View(): Browser
      reads this
    {
      Browser(cookie, hasAccessToken, refreshInFlight, refreshes, calls, sends)
    }

    ghost predicate Valid()
      reads this
    {
      SingleFlight(View()) && SendsBounded(View())
    }

    constructor ()
      ensures Valid() && View() == Browser(None, false, None, map[], map[], map[])
    {
      cookie, hasAccessToken, refreshInFlight := None, false, None;
      refreshes, calls, sends := map[], map[], map[];
    }

    /** Whoever asks while a refresh is in flight gets that one; otherwise a new one carries the cookie. */
    method StartRefresh(spare: PromiseId, pid: Pid, admitted: bool) returns (promise: PromiseId)
      requires Valid() && spare !in refreshes
      modifies this`refreshInFlight, this`refreshes
      ensures Valid() && (View(), promise) == RefreshOnce(old(View()), spare, pid, admitted)
      ensures refreshInFlight == Some(promise)
      ensures old(refreshInFlight).Some? ==> Some(promise) == old(refreshInFlight) && refreshes == old(refreshes)
      ensures promise !in old(refreshes) ==>
                refreshes[promise] == if admitted && cookie.Some? then Requesting(pid, cookie.value) else Bare
      ensures forall p <- refreshes :: p == promise || refreshes[p].Cleared?
    {
      if refreshInFlight.None? {
        refreshes := refreshes[spare := if admitted && cookie.Some? then Requesting(pid, cookie.value) else Bare];
        refreshInFlight := Some(spare);
      }
      promise := refreshInFlight.value;
    }

    /** The slot stays taken, so calls that fail before the microtask still share this refresh. */
    method SettleRefresh(promise: PromiseId)
      requires Valid() && promise in refreshes && refreshes[promise].Answered?
      modifies this`hasAccessToken, this`refreshes
      ensures Valid() && View() == Settle(old(View()), promise)
      ensures refreshInFlight == Some(promise) && Resolved(refreshes[promise])
      ensures refreshes[promise].ok ==> hasAccessToken
      ensures hasAccessToken && !refreshes[promise].ok ==>
                old(hasAccessToken) && old(refreshes)[promise] == Answered(NoResponse)
      ensures old(hasAccessToken) && !hasAccessToken ==> old(refreshes)[promise] == Answered(Rejected)
    {
      match refreshes[promise].answer
      case Session =>
        hasAccessToken := true;
        refreshes := refreshes[promise := Settled(true)];
      case Rejected =>
        hasAccessToken := false;
        refreshes := refreshes[promise := Settled(false)];
      case NoResponse =>
        refreshes := refreshes[promise := Settled(false)];
    }

    /** No refresh is left in progress, and waiting calls still see the value. */
    method ClearRefresh(promise: PromiseId)
      requires Valid() && promise in refreshes && refreshes[promise].Settled?
      modifies this`refreshInFlight, this`refreshes
      ensures Valid() && View() == Clear(old(View()), promise)
      ensures refreshInFlight == None && forall p <- refreshes :: refreshes[p].Cleared?
      ensures forall p <- refreshes :: p in old(refreshes) && Resolved(old(refreshes)[p])
                                       && refreshes[p].ok == old(refreshes)[p].ok
    {
      refreshes := refreshes[promise := Cleared(refreshes[promise].ok)];
      refreshInFlight := None;
    }

    method RestoreSession(call: CallId, spare: PromiseId, pid: Pid, admitted: bool)
      requires Valid() && call !in calls && spare !in refreshes
      modifies this
      ensures Valid() && View() == Restore(old(View()), call, spare, pid, admitted)
      ensures calls[call].Restoring? && refreshInFlight == Some(calls[call].promise) && sends[call] == 0
      ensures old(refreshInFlight).Some? ==> refreshInFlight == old(refreshInFlight) && refreshes == old(refreshes)
      ensures forall other <- old(calls) :: calls[other] == old(calls)[other] && sends[other] == old(sends)[other]
    {
      var promise := StartRefresh(spare, pid, admitted);
      calls := calls[call := Restoring(promise)];
      sends := sends[call := 0];
    }

    method Request(call: CallId, skipAuth: bool)
      requires Valid() && call !in calls
      modifies this`calls, this`sends
      ensures Valid() && View() == Start(old(View()), call, skipAuth)
      ensures calls[call] == Fetching(skipAuth, false) && sends[call] == 1
      ensures forall other <- old(calls) :: calls[other] == old(calls)[other] && sends[other] == old(sends)[other]
    {
      calls := calls[call := Fetching(skipAuth, false)];
      sends := sends[call := 1];
    }

    /** Any number of calls that fail while a refresh is in flight wait for that one and start no other. */
    method OnResponse(call: CallId, unauthorized: bool, spare: PromiseId, pid: Pid, admitted: bool)
      requires Valid() && call in calls && calls[call].Fetching? && spare !in refreshes
      modifies this`calls, this`refreshInFlight, this`refreshes
      ensures Valid() && View() == Respond(old(View()), call, unauthorized, spare, pid, admitted)
      ensures calls[call].Awaiting? <==> unauthorized && old(calls)[call] == Fetching(false, false)
      ensures calls[call].Awaiting? ==> sends[call] == 1 && refreshInFlight == Some(calls[call].promise)
      ensures calls[call].Awaiting? && old(refreshInFlight).Some? ==>
                refreshInFlight == old(refreshInFlight) && refreshes == old(refreshes)
      ensures !calls[call].Awaiting? ==>
                calls[call] == Over && refreshInFlight == old(refreshInFlight) && refreshes == old(refreshes)
      ensures forall p <- refreshes :: Some(p) == refreshInFlight || refreshes[p].Cleared?
    {
      if unauthorized && !calls[call].skipAuth && !calls[call].isRetry {
        var promise := StartRefresh(spare, pid, admitted);
        calls := calls[call := Awaiting(promise)];
      } else {
        calls := calls[call := Over];
      }
    }

    /** A retry happens once and only on a session; its answer is final. */
    method OnRefreshed(call: CallId)
      requires Valid() && call in calls && (calls[call].Awaiting? || calls[call].Restoring?)
      requires calls[call].promise in refreshes && Resolved(refreshes[calls[call].promise])
      modifies this`calls, this`sends
      ensures Valid() && View() == Resume(old(View()), call)
      ensures calls[call] == Over || (calls[call] == Fetching(false, true) && sends[call] == 2)
      ensures calls[call] != Over <==> old(calls)[call].Awaiting? && refreshes[old(calls)[call].promise].ok
      ensures calls[call] == Over ==> sends == old(sends)
    {
      var session := refreshes[calls[call].promise].ok;
      if calls[call].Awaiting? && session {
        sends := sends[call := sends[call] + 1];
        calls := calls[call := Fetching(false, true)];
      } else {
        calls := calls[call := Over];
      }
    }
  }
}
