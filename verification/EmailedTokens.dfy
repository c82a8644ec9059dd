/**
  Emailed one-time tokens under concurrency: `createOneTimeToken`, `verifyEmail` and
  `resetPassword` as processes that perform one SQL statement per step, beside the running
  refresh-token service whose clock they share.
*/
module EmailedTokens {
  import opened Options
  import opened TokenRows
  import opened Accounts
  import Service = TokenMachine
  import TokenSafety
  import UserSignOut

  datatype Purpose = EmailVerify | PasswordReset

  datatype Link = Link(userId: UserId, purpose: Purpose, expiresAt: Time, usedAt: Option<Time>)

  /** EMAIL_VERIFY_TTL_HOURS and PASSWORD_RESET_TTL_HOURS. */
  datatype Ttl = Ttl(verifyHours: nat, resetHours: nat)

  datatype Result =
    | Sent(raw: Token)
    | Verified(raw: Token)
    | PasswordChanged(raw: Token)
    | InvalidLink
    | WeakPassword

  datatype Proc =
    | Sending(user: UserId, purpose: Purpose, expiresAt: Time)           // before the link's INSERT
    | Verifying(raw: Token)                                              // before the consuming UPDATE
    | Marking(raw: Token, user: UserId)                                  // before the users UPDATE
    | Peeking(raw: Token, hash: string)                                  // before the SELECT of the link
    | Finding(raw: Token, hash: string, user: UserId)                    // before the SELECT of the user
    | Judging(raw: Token, hash: string, verifiedAt: Option<Time>)        // waiting for the password policy
    | Consuming(raw: Token, hash: string, verifiedAt: Option<Time>)      // before the consuming UPDATE
    | Writing(raw: Token, user: UserId, hash: string, verifiedAt: Option<Time>)  // before the users UPDATE
    | Ending(raw: Token, user: UserId)                                   // before revokeAllForUser
    | Finished(result: Result)

  datatype State = State(
    links: map<Token, Link>,
    users: map<UserId, User>,
    procs: map<nat, Proc>,
    service: Service.State,
    ttl: Ttl)

  datatype Event =
    | Spawn(pid: nat, proc: Proc)
    | Run(pid: nat, token: Token, strong: bool)
    | Elsewhere(event: Service.Event)

  function Now(s: State): Time {
    s.service.now
  }

  /** The condition of `peekOneTimeToken` and `consumeOneTimeToken`. */
  predicate Spendable(links: map<Token, Link>, raw: Token, purpose: Purpose, now: Time) {
    raw in links && links[raw].purpose == purpose && links[raw].usedAt == None && now < links[raw].expiresAt
  }

  function Consumed(links: map<Token, Link>, raw: Token, now: Time): map<Token, Link>
    requires raw in links
  {
    links[raw := links[raw].(usedAt := Some(now))]
  }

  function Lifetime(ttl: Ttl, purpose: Purpose): nat {
    (if purpose == EmailVerify then ttl.verifyHours else ttl.resetHours) * 3_600_000
  }

  predicate Enabled(s: State, e: Event) {
    match e
    case Spawn(pid, proc) =>
      pid !in s.procs && (proc.Sending? || proc.Verifying? || proc.Peeking?) &&
      (proc.Sending? ==> proc.expiresAt == Now(s) + Lifetime(s.ttl, proc.purpose))
    case Run(pid, token, _) => pid in s.procs && !s.procs[pid].Finished? && token !in s.links
    case Elsewhere(event) => Service.Enabled(s.service, event)
  }

  function Moved(s: State, pid: nat, proc: Proc): State {
    s.(procs := s.procs[pid := proc])
  }

  function MarkVerified(users: map<UserId, User>, user: UserId, now: Time): map<UserId, User> {
    if user in users && users[user].emailVerifiedAt == None then
      users[user := users[user].(emailVerifiedAt := Some(now))]
    else users
  }

  function WritePassword(users: map<UserId, User>, user: UserId, hash: string, verifiedAt: Option<Time>, now: Time)
    : map<UserId, User>
  {
    if user in users then users[user := ResetRow(users[user], hash, if verifiedAt.Some? then verifiedAt else Some(now))]
    else users
  }

  function RunProc(s: State, pid: nat, token: Token, strong: bool): (r: State)
    requires pid in s.procs
    ensures r.procs.Keys == s.procs.Keys
  {
    match s.procs[pid]
    case Sending(user, purpose, expiresAt) =>
      Moved(s.(links := s.links[token := Link(user, purpose, expiresAt, None)]), pid,
          Finished(Sent(token)))
    case Verifying(raw) =>
      if Spendable(s.links, raw, EmailVerify, Now(s)) then
        Moved(s.(links := Consumed(s.links, raw, Now(s))), pid, Marking(raw, s.links[raw].userId))
      else Moved(s, pid, Finished(InvalidLink))
    case Marking(raw, user) =>
      Moved(s.(users := MarkVerified(s.users, user, Now(s))), pid, Finished(Verified(raw)))
    case Peeking(raw, hash) =>
      if Spendable(s.links, raw, PasswordReset, Now(s)) then Moved(s, pid, Finding(raw, hash, s.links[raw].userId))
      else Moved(s, pid, Finished(InvalidLink))
    case Finding(raw, hash, user) =>
      if user in s.users then Moved(s, pid, Judging(raw, hash, s.users[user].emailVerifiedAt))
      else Moved(s, pid, Finished(InvalidLink))
    case Judging(raw, hash, verifiedAt) =>
      if strong then Moved(s, pid, Consuming(raw, hash, verifiedAt)) else Moved(s, pid, Finished(WeakPassword))
    case Consuming(raw, hash, verifiedAt) =>
      if Spendable(s.links, raw, PasswordReset, Now(s)) then
        Moved(s.(links := Consumed(s.links, raw, Now(s))), pid, Writing(raw, s.links[raw].userId, hash, verifiedAt))
      else Moved(s, pid, Finished(InvalidLink))
    case Writing(raw, user, hash, verifiedAt) =>
      Moved(s.(users := WritePassword(s.users, user, hash, verifiedAt, Now(s))), pid, Ending(raw, user))
    case Ending(raw, user) =>
      Moved(s.(service := s.service.(rows := Revoke(s.service.rows, ByUser(user), Now(s)))), pid,
          Finished(PasswordChanged(raw)))
    case Finished(_) => s
  }

  function Step(s: State, e: Event): State
    requires Enabled(s, e)
  {
    match e
    case Spawn(pid, proc) => Moved(s, pid, proc)
    case Run(pid, token, strong) => RunProc(s, pid, token, strong)
    case Elsewhere(event) => s.(service := Service.Step(s.service, event))
  }

  ghost predicate Runs(s: State, es: seq<Event>)
    decreases |es|
  {
    es == [] || (Enabled(s, es[0]) && Runs(Step(s, es[0]), es[1..]))
  }

  ghost function Exec(s: State, es: seq<Event>): State
    requires Runs(s, es)
    decreases |es|
  {
    if es == [] then s else Exec(Step(s, es[0]), es[1..])
  }

  // ---------------------------------------------------------------- single use

  /** The process that redeemed `raw` for `purpose`. */
  predicate Redeemed(proc: Proc, raw: Token, purpose: Purpose) {
    match proc
    case Marking(t, _) => t == raw && purpose == EmailVerify
    case Writing(t, _, _, _) => t == raw && purpose == PasswordReset
    case Ending(t, _) => t == raw && purpose == PasswordReset
    case Finished(Verified(t)) => t == raw && purpose == EmailVerify
    case Finished(PasswordChanged(t)) => t == raw && purpose == PasswordReset
    case _ => false
  }

  predicate ForOwner(s: State, proc: Proc) {
    match proc
    case Marking(t, user) => t in s.links && s.links[t].userId == user
    case Writing(t, user, _, _) => t in s.links && s.links[t].userId == user
    case Ending(t, user) => t in s.links && s.links[t].userId == user
    case _ => true
  }

  predicate HasRedeemer(s: State, t: Token) {
    t in s.links && exists p <- s.procs :: Redeemed(s.procs[p], t, s.links[t].purpose)
  }

  ghost predicate OwnersMatch(s: State) {
    forall p <- s.procs :: ForOwner(s, s.procs[p])
  }

  ghost predicate RedeemedIsUsed(s: State) {
    forall p, t, u :: p in s.procs && Redeemed(s.procs[p], t, u)
                      ==> t in s.links && s.links[t].purpose == u && s.links[t].usedAt.Some?
  }

  ghost predicate RedeemedOnce(s: State) {
    forall p, q, t, u, v ::
      p in s.procs && q in s.procs && Redeemed(s.procs[p], t, u) && Redeemed(s.procs[q], t, v) ==> p == q
  }

  ghost predicate UsedIsRedeemed(s: State) {
    forall t <- s.links :: s.links[t].usedAt.Some? ==>
        s.links[t].usedAt.value < s.links[t].expiresAt && HasRedeemer(s, t)
  }

  ghost predicate Inv(s: State) {
    OwnersMatch(s) && RedeemedIsUsed(s) && RedeemedOnce(s) && UsedIsRedeemed(s)
  }

  predicate Initial(s: State) {
    s.links == map[] && s.procs == map[]
  }

  /**
    How a step may touch links and redeemers: links are only added or, unused, consumed by the process
    that steps.
  */
  ghost predicate Orderly(s: State, s': State, pid: nat) {
    pid in s'.procs && s'.procs.Keys == s.procs.Keys + {pid} &&
    (forall q <- s.procs :: q != pid ==> s'.procs[q] == s.procs[q]) &&
    ForOwner(s', s'.procs[pid]) &&
    (forall t <- s.links :: t in s'.links && (s'.links[t] == s.links[t] ||
       (s.links[t].usedAt == None && s'.links[t] == s.links[t].(usedAt := s'.links[t].usedAt)
        && s'.links[t].usedAt.Some? && s'.links[t].usedAt.value < s.links[t].expiresAt
        && Redeemed(s'.procs[pid], t, s.links[t].purpose)))) &&
    (forall t <- s'.links :: t in s.links || s'.links[t].usedAt == None) &&
    (forall t, u :: Redeemed(s'.procs[pid], t, u) ==>
       (pid in s.procs && Redeemed(s.procs[pid], t, u)) ||
       (t in s.links && s.links[t].usedAt == None && s.links[t].purpose == u && s'.links[t].usedAt.Some?)) &&
    (forall t, u :: pid in s.procs && Redeemed(s.procs[pid], t, u) ==> Redeemed(s'.procs[pid], t, u))
  }

  lemma OrderlyKeepsInv(s: State, s': State, pid: nat)
    requires Inv(s) && Orderly(s, s', pid)
    ensures Inv(s')
  {
    assert OwnersMatch(s') by { assert forall q <- s.procs :: ForOwner(s, s.procs[q]); }
    forall t | t in s'.links && s'.links[t].usedAt.Some?
      ensures s'.links[t].usedAt.value < s'.links[t].expiresAt && HasRedeemer(s', t)
    {
      if s'.links[t] == s.links[t] {
        assert HasRedeemer(s, t);
        var p :| p in s.procs && Redeemed(s.procs[p], t, s.links[t].purpose);
        assert p in s'.procs && Redeemed(s'.procs[p], t, s'.links[t].purpose);
      } else {
        assert Redeemed(s'.procs[pid], t, s'.links[t].purpose);
      }
    }
  }

  lemma RedeemIsOrderly(s: State, pid: nat, token: Token, strong: bool)
    requires Inv(s) && Enabled(s, Run(pid, token, strong))
    requires (s.procs[pid].Verifying? && Spendable(s.links, s.procs[pid].raw, EmailVerify, Now(s)))
          || (s.procs[pid].Consuming? && Spendable(s.links, s.procs[pid].raw, PasswordReset, Now(s)))
    ensures Orderly(s, RunProc(s, pid, token, strong), pid)
  {}

  lemma SendIsOrderly(s: State, pid: nat, token: Token, strong: bool)
    requires Inv(s) && Enabled(s, Run(pid, token, strong)) && s.procs[pid].Sending?
    ensures Orderly(s, RunProc(s, pid, token, strong), pid)
  {}

  lemma SameLinksIsOrderly(s: State, s': State, pid: nat, proc: Proc)
    requires Inv(s) && pid in s.procs && s'.links == s.links && s'.procs == s.procs[pid := proc]
    requires ForOwner(s, proc) && forall t, u :: Redeemed(proc, t, u) <==> Redeemed(s.procs[pid], t, u)
    ensures Orderly(s, s', pid)
  {}

  lemma RunIsOrderly(s: State, pid: nat, token: Token, strong: bool)
    requires Inv(s) && Enabled(s, Run(pid, token, strong))
    ensures Orderly(s, RunProc(s, pid, token, strong), pid)
  {
    var proc := s.procs[pid];
    hide Orderly;
    if proc.Sending? {
      SendIsOrderly(s, pid, token, strong);
    } else if (proc.Verifying? && Spendable(s.links, proc.raw, EmailVerify, Now(s)))
           || (proc.Consuming? && Spendable(s.links, proc.raw, PasswordReset, Now(s))) {
      RedeemIsOrderly(s, pid, token, strong);
    } else {
      assert ForOwner(s, proc);
      SameLinksIsOrderly(s, RunProc(s, pid, token, strong), pid, RunProc(s, pid, token, strong).procs[pid]);
    }
  }

  lemma StepKeepsInv(s: State, e: Event)
    requires Inv(s) && Enabled(s, e)
    ensures Inv(Step(s, e))
  {
    match e
    case Spawn(pid, proc) => OrderlyKeepsInv(s, Step(s, e), pid);
    case Run(pid, token, strong) =>
      RunIsOrderly(s, pid, token, strong);
      OrderlyKeepsInv(s, Step(s, e), pid);
    case Elsewhere(_) =>
      assert forall q <- s.procs :: ForOwner(s, s.procs[q]) && ForOwner(Step(s, e), s.procs[q]);
      assert forall t <- s.links :: HasRedeemer(s, t) ==> HasRedeemer(Step(s, e), t);
  }

  lemma {:induction false} RunKeepsInv(s: State, es: seq<Event>)
    requires Inv(s) && Runs(s, es)
    ensures Inv(Exec(s, es))
    decreases |es|
  {
    if es != [] {
      StepKeepsInv(s, es[0]);
      RunKeepsInv(Step(s, es[0]), es[1..]);
    }
  }

  /** Each link is redeemed at most once, by a process of its own purpose, before it expires. */
  lemma RedeemedAtMostOnce(s: State, es: seq<Event>, p: nat, q: nat, raw: Token, u: Purpose, v: Purpose)
    requires Initial(s) && Runs(s, es)
    requires p in Exec(s, es).procs && Redeemed(Exec(s, es).procs[p], raw, u)
    ensures var r := Exec(s, es);
            raw in r.links && r.links[raw].purpose == u && r.links[raw].usedAt.Some?
                && r.links[raw].usedAt.value < r.links[raw].expiresAt
    ensures q in Exec(s, es).procs && Redeemed(Exec(s, es).procs[q], raw, v) ==> q == p
  {
    RunKeepsInv(s, es);
  }

  /** An unexpired link nobody has redeemed can still be spent, whatever was refused on it before. */
  lemma RefusalKeepsLink(s: State, es: seq<Event>, raw: Token)
    requires Initial(s) && Runs(s, es)
    requires var r := Exec(s, es); raw in r.links && Now(r) < r.links[raw].expiresAt
    ensures var r := Exec(s, es);
            Spendable(r.links, raw, r.links[raw].purpose, Now(r))
            <==> forall p <- r.procs :: !Redeemed(r.procs[p], raw, r.links[raw].purpose)
  {
    RunKeepsInv(s, es);
  }

  // ---------------------------------------------------------------- what the writes write

  /** The owner's row is the only one that may change. */
  ghost predicate OnlyRow(users: map<UserId, User>, users': map<UserId, User>, owner: UserId) {
    users'.Keys == users.Keys && forall u <- users :: u != owner ==> users'[u] == users[u]
  }

  /** `verifyEmail`'s second statement stamps an unverified owner and leaves a verified one as it was. */
  lemma MarkingStampsTheUnverified(s: State, pid: nat, token: Token, strong: bool)
    requires pid in s.procs && s.procs[pid].Marking?
    ensures var proc, r := s.procs[pid], RunProc(s, pid, token, strong);
            && r.procs == s.procs[pid := Finished(Verified(proc.raw))]
            && r.links == s.links && r.service == s.service && OnlyRow(s.users, r.users, proc.user)
            && (proc.user in s.users ==>
                var row := s.users[proc.user];
                r.users[proc.user] ==
                row.(emailVerifiedAt := if row.emailVerifiedAt.Some? then row.emailVerifiedAt else Some(Now(s))))
  {}

  /** `resetPassword`'s update sets hash, verification and lockout of its user, and nothing else. */
  lemma WritingSetsThePassword(s: State, pid: nat, token: Token, strong: bool)
    requires pid in s.procs && s.procs[pid].Writing?
    ensures var proc, r := s.procs[pid], RunProc(s, pid, token, strong);
            && r.procs == s.procs[pid := Ending(proc.raw, proc.user)]
            && r.links == s.links && r.service == s.service && OnlyRow(s.users, r.users, proc.user)
            && (proc.user in s.users ==>
                r.users[proc.user] == s.users[proc.user].(
                  passwordHash := Some(proc.hash), failedLoginCount := 0, lockedUntil := None,
                  emailVerifiedAt := if proc.verifiedAt.Some? then proc.verifiedAt else Some(Now(s))))
  {}

  /** A new link is its user's, unused, and expires its purpose's hours after the call began. */
  lemma SendingAddsALink(
    s: State, pid: nat, user: UserId, purpose: Purpose, expiresAt: Time, token: Token, strong: bool)
    requires var e := Spawn(pid, Sending(user, purpose, expiresAt));
             Enabled(s, e) && Enabled(Step(s, e), Run(pid, token, strong))
    ensures var r := Step(Step(s, Spawn(pid, Sending(user, purpose, expiresAt))), Run(pid, token, strong));
            && token !in s.links && r.users == s.users && r.service == s.service
            && r.links == s.links[token := Link(user, purpose, expiresAt, None)]
            && expiresAt == Now(s) + (match purpose case EmailVerify => s.ttl.verifyHours
                                                    case PasswordReset => s.ttl.resetHours) * 3_600_000
  {}

  predicate CanSpend(s: State, raw: Token, purpose: Purpose) {
    && raw in s.links && s.links[raw].purpose == purpose
    && s.links[raw].usedAt.None? && s.links[raw].expiresAt > s.service.now
  }

  /**
    Where each call goes on: a link is spent only for its purpose, unused and unexpired, by the statement
    that stamps it; a reset goes on only for an account that exists and a password the policy accepts.
  */
  lemma StepsGoOn(s: State, pid: nat, token: Token, strong: bool)
    requires pid in s.procs && !s.procs[pid].Finished?
    ensures var proc, r := s.procs[pid], RunProc(s, pid, token, strong);
            match proc
            case Verifying(raw) =>
              if CanSpend(s, raw, EmailVerify)
              then r.procs[pid] == Marking(raw, s.links[raw].userId)
                   && r.links == s.links[raw := s.links[raw].(usedAt := Some(s.service.now))]
              else r.procs[pid] == Finished(InvalidLink) && r.links == s.links
            case Peeking(raw, hash) =>
              r.links == s.links &&
              r.procs[pid] == if CanSpend(s, raw, PasswordReset) then Finding(raw, hash, s.links[raw].userId)
                              else Finished(InvalidLink)
            case Finding(raw, hash, user) =>
              r.links == s.links &&
              r.procs[pid] == if user in s.users then Judging(raw, hash, s.users[user].emailVerifiedAt)
                              else Finished(InvalidLink)
            case Judging(raw, hash, verifiedAt) =>
              r.links == s.links &&
              r.procs[pid] == if strong then Consuming(raw, hash, verifiedAt) else Finished(WeakPassword)
            case Consuming(raw, hash, verifiedAt) =>
              if CanSpend(s, raw, PasswordReset)
              then r.procs[pid] == Writing(raw, s.links[raw].userId, hash, verifiedAt)
                   && r.links == s.links[raw := s.links[raw].(usedAt := Some(s.service.now))]
              else r.procs[pid] == Finished(InvalidLink) && r.links == s.links
            case _ => true
    ensures var proc, r := s.procs[pid], RunProc(s, pid, token, strong);
            && (!proc.Marking? && !proc.Writing? ==> r.users == s.users)
            && (!proc.Ending? ==> r.service == s.service)
  {}

  /** The owner of the link, if there is such an account, has a verified address. */
  predicate Confirmed(s: State, raw: Token) {
    raw in s.links && (s.links[raw].userId in s.users ==> s.users[s.links[raw].userId].emailVerifiedAt.Some?)
  }

  predicate Confirms(s: State, proc: Proc) {
    match proc
    case Ending(raw, _) => Confirmed(s, raw)
    case Finished(Verified(raw)) => Confirmed(s, raw)
    case Finished(PasswordChanged(raw)) => Confirmed(s, raw)
    case _ => true
  }

  ghost predicate AllConfirm(s: State) {
    forall p <- s.procs :: Confirms(s, s.procs[p])
  }

  /** Links keep their owner, and a verified address stays verified. */
  ghost predicate Settles(s: State, s': State) {
    (forall t <- s.links :: t in s'.links && s'.links[t].userId == s.links[t].userId) &&
    s'.users.Keys == s.users.Keys &&
    forall u <- s.users :: s.users[u].emailVerifiedAt.Some? ==> s'.users[u].emailVerifiedAt.Some?
  }

  lemma StepSettles(s: State, e: Event)
    requires Enabled(s, e)
    ensures Settles(s, Step(s, e))
  {
    hide Spendable;
    if e.Run? && s.procs[e.pid].Marking? {
      MarkingStampsTheUnverified(s, e.pid, e.token, e.strong);
    } else if e.Run? && s.procs[e.pid].Writing? {
      WritingSetsThePassword(s, e.pid, e.token, e.strong);
    }
  }

  lemma ConfirmedStays(s: State, s': State, proc: Proc)
    requires Settles(s, s') && Confirms(s, proc)
    ensures Confirms(s', proc)
  {}

  lemma StepConfirms(s: State, e: Event)
    requires Inv(s) && AllConfirm(s) && Enabled(s, e)
    ensures AllConfirm(Step(s, e))
  {
    var s' := Step(s, e);
    StepSettles(s, e);
    if e.Run? { RunConfirms(s, e.pid, e.token, e.strong); }
    hide Inv, Settles, RunProc, Confirms;
    forall p | p in s'.procs ensures Confirms(s', s'.procs[p]) {
      if p in s.procs && (e.Run? ==> e.pid != p) {
        OthersStay(s, e, p);
        ConfirmedStays(s, s', s.procs[p]);
      } else if e.Spawn? {
        assert s'.procs[p] == e.proc;
        EntriesConfirm(s', e.proc);
      }
    }
  }

  lemma EntriesConfirm(s: State, proc: Proc)
    requires proc.Sending? || proc.Verifying? || proc.Peeking?
    ensures Confirms(s, proc)
  {}

  lemma OthersStay(s: State, e: Event, p: nat)
    requires Enabled(s, e) && p in s.procs && (e.Run? ==> e.pid != p)
    ensures p in Step(s, e).procs && Step(s, e).procs[p] == s.procs[p]
  {
    hide Spendable, MarkVerified, WritePassword;
  }

  lemma RunConfirms(s: State, pid: nat, token: Token, strong: bool)
    requires Inv(s) && AllConfirm(s) && Enabled(s, Run(pid, token, strong))
    ensures var r := RunProc(s, pid, token, strong); pid in r.procs && Confirms(r, r.procs[pid])
  {
    assert ForOwner(s, s.procs[pid]) && Confirms(s, s.procs[pid]);
    hide Inv, AllConfirm, Spendable;
    if s.procs[pid].Marking? {
      MarkingStampsTheUnverified(s, pid, token, strong);
    } else if s.procs[pid].Writing? {
      WritingSetsThePassword(s, pid, token, strong);
    }
  }

  lemma {:induction false} RunConfirmsAll(s: State, es: seq<Event>)
    requires Inv(s) && AllConfirm(s) && Runs(s, es)
    ensures AllConfirm(Exec(s, es))
    decreases |es|
  {
    hide Inv, AllConfirm, Step, Enabled;
    if es != [] {
      StepConfirms(s, es[0]);
      StepKeepsInv(s, es[0]);
      RunConfirmsAll(Step(s, es[0]), es[1..]);
    }
  }

  /**
    In every interleaving: once a verification or a reset has ended well, the link's owner is verified,
    and stays so.
  */
  lemma RedeemedOwnerIsVerified(s: State, es: seq<Event>, p: nat, raw: Token)
    requires Initial(s) && Runs(s, es) && p in Exec(s, es).procs
    requires Exec(s, es).procs[p] in {Finished(Verified(raw)), Finished(PasswordChanged(raw))}
    ensures var r := Exec(s, es);
            raw in r.links &&
            (r.links[raw].userId in r.users ==> r.users[r.links[raw].userId].emailVerifiedAt.Some?)
  {
    RunConfirmsAll(s, es);
    assert Confirms(Exec(s, es), Exec(s, es).procs[p]);
  }

  /** The two statements of a verification, uninterrupted. */
  lemma VerifyRunsThrough(s: State, p: nat, raw: Token, token: Token)
    requires p in s.procs && s.procs[p] == Verifying(raw) && Spendable(s.links, raw, EmailVerify, Now(s))
    ensures var r := RunProc(RunProc(s, p, token, false), p, token, false);
            var owner := s.links[raw].userId;
            && r.procs == s.procs[p := Finished(Verified(raw))] && r.service == s.service
            && r.links == s.links[raw := s.links[raw].(usedAt := Some(Now(s)))]
            && OnlyRow(s.users, r.users, owner)
            && (owner in s.users ==>
                var row := s.users[owner];
                r.users[owner] ==
                row.(emailVerifiedAt := if row.emailVerifiedAt.Some? then row.emailVerifiedAt else Some(Now(s))))
  {
    var s1 := RunProc(s, p, token, false);
    assert s1 == Moved(s.(links := Consumed(s.links, raw, Now(s))), p, Marking(raw, s.links[raw].userId));
    MarkingStampsTheUnverified(s1, p, token, false);
    assert s1.procs[p := Finished(Verified(raw))] == s.procs[p := Finished(Verified(raw))];
  }

  // ---------------------------------------------------------------- what a reset does

  function Again(s: State, pid: nat, token: Token, strong: bool, times: nat): State
    requires pid in s.procs
    ensures Again(s, pid, token, strong, times).procs.Keys == s.procs.Keys
    decreases times
  {
    if times == 0 then s
    else
      var s' := RunProc(s, pid, token, strong);
      Again(s', pid, token, strong, times - 1)
  }

  /**
    A reset whose password the policy refuses changes nothing; the next one with a strong password goes
    through.
  */
  lemma WeakThenStrong(s: State, p: nat, q: nat, raw: Token, weak: string, hash: string, token: Token)
    requires p in s.procs && q in s.procs && p != q
    requires s.procs[p] == Peeking(raw, weak) && s.procs[q] == Peeking(raw, hash)
    requires Spendable(s.links, raw, PasswordReset, Now(s)) && s.links[raw].userId in s.users
    ensures var user := s.links[raw].userId;
            var refused := Again(s, p, token, false, 3);
            var done := Again(refused, q, token, true, 6);
            && refused == Moved(s, p, Finished(WeakPassword))
            && done.procs == s.procs[p := Finished(WeakPassword)][q := Finished(PasswordChanged(raw))]
            && done.users.Keys == s.users.Keys
            && done.users[user].passwordHash == Some(hash) && done.users[user].emailVerifiedAt.Some?
            && done.users[user].failedLoginCount == 0 && done.users[user].lockedUntil == None
            && (forall t :: IsLive(done.service.rows, t) ==> done.service.rows[t].userId != user)
  {
    hide Again, RunProc;
    var user := s.links[raw].userId;
    var refused := Moved(s, p, Finished(WeakPassword));
    WeakChangesNothing(s, p, raw, weak, token);
    ResetRunsThrough(refused, q, raw, hash, token);
    var done := Again(refused, q, token, true, 6);
    assert done.users == WritePassword(s.users, user, hash, s.users[user].emailVerifiedAt, Now(s));
    assert done.service.rows == Revoke(s.service.rows, ByUser(user), Now(s));
  }

  lemma WeakChangesNothing(s: State, p: nat, raw: Token, weak: string, token: Token)
    requires p in s.procs && s.procs[p] == Peeking(raw, weak)
    requires Spendable(s.links, raw, PasswordReset, Now(s)) && s.links[raw].userId in s.users
    ensures Again(s, p, token, false, 3) == Moved(s, p, Finished(WeakPassword))
  {
    var user := s.links[raw].userId;
    var a1 := RunProc(s, p, token, false);
    var a2 := RunProc(a1, p, token, false);
    var a3 := RunProc(a2, p, token, false);
    assert a1.procs == s.procs[p := Finding(raw, weak, user)];
    assert a2.procs == s.procs[p := Judging(raw, weak, s.users[user].emailVerifiedAt)];
    assert a3.procs == s.procs[p := Finished(WeakPassword)];
    assert Again(s, p, token, false, 3) == Again(a1, p, token, false, 2)
        == Again(a2, p, token, false, 1) == Again(a3, p, token, false, 0) == a3;
  }

  lemma ResetRunsThrough(s: State, q: nat, raw: Token, hash: string, token: Token)
    requires q in s.procs && s.procs[q] == Peeking(raw, hash)
    requires Spendable(s.links, raw, PasswordReset, Now(s)) && s.links[raw].userId in s.users
    ensures var user := s.links[raw].userId;
            var verified := s.users[user].emailVerifiedAt;
            Again(s, q, token, true, 6) ==
            s.(links := Consumed(s.links, raw, Now(s)),
               users := WritePassword(s.users, user, hash, verified, Now(s)),
               service := s.service.(rows := Revoke(s.service.rows, ByUser(user), Now(s))),
               procs := s.procs[q := Finished(PasswordChanged(raw))])
  {
    var user := s.links[raw].userId;
    var verified := s.users[user].emailVerifiedAt;
    ResetJudged(s, q, raw, hash, token);
    var judged := Moved(s, q, Consuming(raw, hash, verified));
    ResetSpends(judged, q, raw, hash, verified, token);
    AgainSum(s, q, token, true, 3, 3);
    assert judged.procs[q := Finished(PasswordChanged(raw))] == s.procs[q := Finished(PasswordChanged(raw))];
    hide Again, Consumed, WritePassword, Revoke;
  }

  lemma {:induction false} AgainSum(s: State, pid: nat, token: Token, strong: bool, m: nat, n: nat)
    requires pid in s.procs
    ensures Again(s, pid, token, strong, m + n) == Again(Again(s, pid, token, strong, m), pid, token, strong, n)
    decreases m
  {
    hide RunProc;
    if m > 0 { AgainSum(RunProc(s, pid, token, strong), pid, token, strong, m - 1, n); }
  }

  lemma AgainThree(s: State, pid: nat, token: Token, strong: bool)
    requires pid in s.procs
    ensures Again(s, pid, token, strong, 3) ==
            RunProc(RunProc(RunProc(s, pid, token, strong), pid, token, strong), pid, token, strong)
  {
    hide RunProc;
    var a1 := RunProc(s, pid, token, strong);
    var a2 := RunProc(a1, pid, token, strong);
    assert Again(s, pid, token, strong, 3) == Again(a1, pid, token, strong, 2) == Again(a2, pid, token, strong, 1);
  }

  /** The first three steps find the link and the account good and touch nothing. */
  lemma ResetJudged(s: State, q: nat, raw: Token, hash: string, token: Token)
    requires q in s.procs && s.procs[q] == Peeking(raw, hash)
    requires Spendable(s.links, raw, PasswordReset, Now(s)) && s.links[raw].userId in s.users
    ensures Again(s, q, token, true, 3) ==
            Moved(s, q, Consuming(raw, hash, s.users[s.links[raw].userId].emailVerifiedAt))
  {
    var user := s.links[raw].userId;
    var verified := s.users[user].emailVerifiedAt;
    AgainThree(s, q, token, true);
    hide Again;
    var b1, b2 := Moved(s, q, Finding(raw, hash, user)), Moved(s, q, Judging(raw, hash, verified));
    assert RunProc(s, q, token, true) == b1;
    assert b1.procs[q := Judging(raw, hash, verified)] == b2.procs;
    assert RunProc(b1, q, token, true) == b2;
    assert b2.procs[q := Consuming(raw, hash, verified)] == s.procs[q := Consuming(raw, hash, verified)];
  }

  /** The last three spend the link, write the password and revoke the user's tokens. */
  lemma ResetSpends(s: State, q: nat, raw: Token, hash: string, verified: Option<Time>, token: Token)
    requires q in s.procs && s.procs[q] == Consuming(raw, hash, verified)
    requires Spendable(s.links, raw, PasswordReset, Now(s))
    ensures var user := s.links[raw].userId;
            Again(s, q, token, true, 3) ==
            s.(links := Consumed(s.links, raw, Now(s)),
               users := WritePassword(s.users, user, hash, verified, Now(s)),
               service := s.service.(rows := Revoke(s.service.rows, ByUser(user), Now(s))),
               procs := s.procs[q := Finished(PasswordChanged(raw))])
  {
    var user := s.links[raw].userId;
    AgainThree(s, q, token, true);
    hide Again, Consumed, WritePassword, Revoke;
    var b1 := Moved(s.(links := Consumed(s.links, raw, Now(s))), q, Writing(raw, user, hash, verified));
    assert RunProc(s, q, token, true) == b1;
    var b2 := Moved(b1.(users := WritePassword(s.users, user, hash, verified, Now(s))), q, Ending(raw, user));
    assert RunProc(b1, q, token, true) == b2;
    assert b2.procs[q := Finished(PasswordChanged(raw))] == s.procs[q := Finished(PasswordChanged(raw))];
  }

  /**
    After any run in which `p` was refused by the policy and nobody else redeemed the link, the next
    reset with a strong password goes through on it.
  */
  lemma RefusedThenStrong(s: State, es: seq<Event>, p: nat, q: nat, raw: Token, hash: string, token: Token)
    requires Initial(s) && Runs(s, es)
    requires var r := Exec(s, es);
             && p in r.procs && r.procs[p] == Finished(WeakPassword)
             && q in r.procs && r.procs[q] == Peeking(raw, hash)
             && raw in r.links && r.links[raw].purpose == PasswordReset && Now(r) < r.links[raw].expiresAt
             && r.links[raw].userId in r.users
             && forall o <- r.procs :: o != p ==> !Redeemed(r.procs[o], raw, PasswordReset)
    ensures var r := Exec(s, es);
            var user := r.links[raw].userId;
            var done := Again(r, q, token, true, 6);
            && done.procs == r.procs[q := Finished(PasswordChanged(raw))]
            && done.links == Consumed(r.links, raw, Now(r))
            && done.users == WritePassword(r.users, user, hash, r.users[user].emailVerifiedAt, Now(r))
            && (forall t :: IsLive(done.service.rows, t) ==> done.service.rows[t].userId != user)
  {
    RefusalKeepsLink(s, es, raw);
    hide Again, RunProc, Exec, Runs, Revoke, Consumed, WritePassword;
    ResetSignsOut(Exec(s, es), q, raw, hash, token);
  }

  lemma ResetSignsOut(s: State, q: nat, raw: Token, hash: string, token: Token)
    requires q in s.procs && s.procs[q] == Peeking(raw, hash)
    requires Spendable(s.links, raw, PasswordReset, Now(s)) && s.links[raw].userId in s.users
    ensures var user := s.links[raw].userId;
            var done := Again(s, q, token, true, 6);
            && done.procs == s.procs[q := Finished(PasswordChanged(raw))]
            && done.links == Consumed(s.links, raw, Now(s))
            && done.users == WritePassword(s.users, user, hash, s.users[user].emailVerifiedAt, Now(s))
            && (forall t :: IsLive(done.service.rows, t) ==> done.service.rows[t].userId != user)
  {
    hide Again, RunProc;
    ResetRunsThrough(s, q, raw, hash, token);
    assert Again(s, q, token, true, 6).service.rows == Revoke(s.service.rows, ByUser(s.links[raw].userId), Now(s));
  }

  /** No step of the run is a sign-in of `user`. */
  ghost predicate NeverSignsIn(s: State, es: seq<Event>, user: UserId)
    requires Runs(s, es)
    decreases |es|
  {
    es == [] ||
    (!(es[0].Elsewhere? && TokenSafety.Opens(s.service, es[0].event, user))
        && NeverSignsIn(Step(s, es[0]), es[1..], user))
  }

  lemma {:induction false} StaysSignedOut(s: State, es: seq<Event>, user: UserId)
    requires TokenSafety.NoSession(s.service, user) && Runs(s, es) && NeverSignsIn(s, es, user)
    ensures TokenSafety.NoSession(Exec(s, es).service, user)
    decreases |es|
  {
    if es != [] {
      if es[0].Elsewhere? { TokenSafety.NoSessionStep(s.service, es[0].event, user); }
      StaysSignedOut(Step(s, es[0]), es[1..], user);
    }
  }

  // ---------------------------------------------------------------- the sign-out of a completed reset

  /** The user has no live row in any continuation before a sign-in inserts one. */
  ghost predicate StaysOut(s: State, user: UserId) {
    forall es | Runs(s, es) && NeverSignsIn(s, es, user) :: UserSignOut.NoLiveRowOf(Exec(s, es).service, user)
  }

  predicate NoArrival(es: seq<Event>, user: UserId) {
    forall e <- es :: !(e.Elsewhere? && UserSignOut.Arrives(e.event, user))
  }

  /** The user has no live row in any continuation in which no further sign-in arrives. */
  ghost predicate StaysOutUnlessAsked(s: State, user: UserId) {
    forall es | Runs(s, es) && NoArrival(es, user) :: UserSignOut.NoLiveRowOf(Exec(s, es).service, user)
  }

  lemma OutStep(s: State, e: Event, user: UserId)
    requires UserSignOut.NoLiveRowOf(s.service, user) && UserSignOut.AllDoomed(s.service, user)
    requires Enabled(s, e) && !(e.Elsewhere? && TokenSafety.Opens(s.service, e.event, user))
    ensures UserSignOut.NoLiveRowOf(Step(s, e).service, user) && UserSignOut.AllDoomed(Step(s, e).service, user)
  {
    if e.Elsewhere? {
      UserSignOut.OutStep(s.service, e.event, user);
      UserSignOut.DoomedStep(s.service, e.event, user);
    } else {
      ServiceUntouched(s, e);
    }
  }

  /** Steps of this service leave the other's processes and clock alone and make no row live. */
  lemma ServiceUntouched(s: State, e: Event)
    requires Enabled(s, e) && !e.Elsewhere?
    ensures var t, t' := s.service, Step(s, e).service;
            && t'.procs == t.procs && t'.now == t.now
            && forall u :: IsLive(t'.rows, u) ==> IsLive(t.rows, u) && t'.rows[u].userId == t.rows[u].userId
  {
    hide Spendable, Consumed, MarkVerified, WritePassword;
    if e.Run? && s.procs[e.pid].Ending? {
      assert Step(s, e).service == s.service.(rows := Revoke(s.service.rows, ByUser(s.procs[e.pid].user), Now(s)));
    } else {
      assert Step(s, e).service == s.service;
    }
  }

  lemma {:induction false} DoomedStaysOut(s: State, es: seq<Event>, user: UserId)
    requires UserSignOut.NoLiveRowOf(s.service, user) && UserSignOut.AllDoomed(s.service, user)
    requires Runs(s, es) && NeverSignsIn(s, es, user)
    ensures UserSignOut.NoLiveRowOf(Exec(s, es).service, user)
    decreases |es|
  {
    hide UserSignOut.NoLiveRowOf, UserSignOut.AllDoomed, Step;
    if es != [] {
      OutStep(s, es[0], user);
      DoomedStaysOut(Step(s, es[0]), es[1..], user);
    }
  }

  lemma {:induction false} NoArrivalNeverSignsIn(s: State, es: seq<Event>, user: UserId)
    requires UserSignOut.NonePending(s.service, user) && Runs(s, es) && NoArrival(es, user)
    ensures NeverSignsIn(s, es, user)
    decreases |es|
  {
    if es != [] {
      var e := es[0];
      assert e in es && forall x <- es[1..] :: x in es;
      if e.Elsewhere? {
        UserSignOut.PendingStep(s.service, e.event, user);
      } else {
        ServiceUntouched(s, e);
      }
      assert UserSignOut.NonePending(Step(s, e).service, user);
      NoArrivalNeverSignsIn(Step(s, e), es[1..], user);
    }
  }

  function Lifted(es: seq<Service.Event>): seq<Event> {
    if es == [] then [] else [Elsewhere(es[0])] + Lifted(es[1..])
  }

  lemma {:induction false} LiftedRuns(s: State, es: seq<Service.Event>, user: UserId)
    requires Service.Runs(s.service, es)
    ensures Runs(s, Lifted(es)) && Exec(s, Lifted(es)).service == Service.Exec(s.service, es)
    ensures TokenSafety.NeverOpens(s.service, es, user) ==> NeverSignsIn(s, Lifted(es), user)
    ensures UserSignOut.NoArrival(es, user) ==> NoArrival(Lifted(es), user)
    decreases |es|
  {
    if es != [] {
      assert Lifted(es)[0] == Elsewhere(es[0]) && Lifted(es)[1..] == Lifted(es[1..]);
      assert es[0] in es && forall x <- es[1..] :: x in es;
      LiftedRuns(Step(s, Elsewhere(es[0])), es[1..], user);
    }
  }

  lemma StaysOutExactly(s: State, user: UserId)
    requires UserSignOut.NoLiveRowOf(s.service, user)
    ensures StaysOut(s, user) <==> UserSignOut.AllDoomed(s.service, user)
    ensures StaysOutUnlessAsked(s, user) <==>
            UserSignOut.AllDoomed(s.service, user) && UserSignOut.NonePending(s.service, user)
  {
    UserSignOut.StaysOutExactly(s.service, user);
    hide UserSignOut.NoLiveRowOf, UserSignOut.AllDoomed, UserSignOut.NonePending;
    if UserSignOut.AllDoomed(s.service, user) {
      forall es | Runs(s, es) && NeverSignsIn(s, es, user) ensures UserSignOut.NoLiveRowOf(Exec(s, es).service, user) {
        DoomedStaysOut(s, es, user);
      }
      if UserSignOut.NonePending(s.service, user) {
        forall es | Runs(s, es) && NoArrival(es, user) ensures UserSignOut.NoLiveRowOf(Exec(s, es).service, user) {
          NoArrivalNeverSignsIn(s, es, user);
        }
      }
    }
    LiftedBreaks(s, user);
  }

  /** What ends the sign-out in the token service ends it here. */
  lemma LiftedBreaks(s: State, user: UserId)
    ensures StaysOut(s, user) ==> UserSignOut.StaysOut(s.service, user)
    ensures StaysOutUnlessAsked(s, user) ==> UserSignOut.StaysOutUnlessAsked(s.service, user)
  {
    hide UserSignOut.NoLiveRowOf;
    forall es | Service.Runs(s.service, es) && TokenSafety.NeverOpens(s.service, es, user) && StaysOut(s, user)
      ensures UserSignOut.NoLiveRowOf(Service.Exec(s.service, es), user)
    {
      LiftedRuns(s, es, user);
    }
    forall es | Service.Runs(s.service, es) && UserSignOut.NoArrival(es, user) && StaysOutUnlessAsked(s, user)
      ensures UserSignOut.NoLiveRowOf(Service.Exec(s.service, es), user)
    {
      LiftedRuns(s, es, user);
    }
  }

  /**
    A completed reset: at that moment no token of the user is live. None is again before the next
    sign-in inserts its token if and only if no rotation of the user is mid-flight except towards a
    failing expiry test; and none is again before the next sign-in even arrives if and only if,
    besides, no sign-in of the user was already under way.
  */
  lemma ResetEndsEverySession(s: State, pid: nat, token: Token, strong: bool)
    requires Enabled(s, Run(pid, token, strong)) && s.procs[pid].Ending?
    ensures var user := s.procs[pid].user;
            var done := Step(s, Run(pid, token, strong));
            && done.procs[pid] == Finished(PasswordChanged(s.procs[pid].raw))
            && UserSignOut.NoLiveRowOf(done.service, user)
            && (StaysOut(done, user) <==> UserSignOut.AllDoomed(s.service, user))
            && (StaysOutUnlessAsked(done, user) <==>
                UserSignOut.AllDoomed(s.service, user) && UserSignOut.NonePending(s.service, user))
            && (UserSignOut.NoRotation(s.service, user) ==>
                  forall es | Runs(done, es) && NeverSignsIn(done, es, user) ::
                    TokenSafety.NoSession(Exec(done, es).service, user))
  {
    var user := s.procs[pid].user;
    var done := Step(s, Run(pid, token, strong));
    assert done.service.procs == s.service.procs && done.service.now == s.service.now;
    StaysOutExactly(done, user);
    if UserSignOut.NoRotation(s.service, user) {
      assert TokenSafety.NoSession(done.service, user);
      forall es | Runs(done, es) && NeverSignsIn(done, es, user)
        ensures TokenSafety.NoSession(Exec(done, es).service, user)
      {
        StaysSignedOut(done, es, user);
      }
    }
  }

  /** The failing run: a rotation past its expiry test outlives the reset of its user's password. */
  lemma ResetCanLeaveASession(
    s: State, pid: nat, token: Token, strong: bool, q: Service.Pid, gen: Generated)
    requires Enabled(s, Run(pid, token, strong)) && s.procs[pid].Ending?
    requires q in s.service.procs && s.service.procs[q].Issuing? && s.service.procs[q].user == s.procs[pid].user
    requires Service.Enabled(s.service, Service.Run(q, gen))
    ensures var user := s.procs[pid].user;
            var done := Step(s, Run(pid, token, strong));
            var late := Elsewhere(Service.Run(q, gen));
            && done.procs[pid] == Finished(PasswordChanged(s.procs[pid].raw))
            && Enabled(done, late) && !TokenSafety.Opens(done.service, late.event, user)
            && var r := Step(done, late);
               IsLive(r.service.rows, gen.token) && r.service.rows[gen.token].userId == user
  {}
}
