/**
  `resolveOAuthUser` under concurrency: each call is a process that performs one SQL statement per
  step, beside registrations and edits. What stays of "one identity, one user", and exactly when.
*/
module OAuthRaces {
  import opened Options
  import opened TokenRows
  import opened Accounts
  import opened OAuthAccounts

  type Pid = nat

  /** `linked` is history: the key's link leads to the user this call goes on with. */
  datatype Proc =
    | Looking(key: Key, profile: Profile)                                 // before the SELECT of the link
    | Fetching(key: Key, profile: Profile, user: UserId)                  // before the SELECT of the linked user
    | Searching(key: Key, profile: Profile)                               // before the SELECT by email
    | Linking(key: Key, profile: Profile, user: UserId, row: User)        // before INSERT ... ON CONFLICT DO NOTHING
    | Patching(key: Key, profile: Profile, user: UserId, row: User, linked: bool)  // before the users UPDATE
    | Creating(key: Key, profile: Profile)                                // before the INSERT of the user
    | Attaching(key: Key, profile: Profile, user: UserId)                 // before the INSERT of its link
    | Finished(key: Key, profile: Profile, result: Resolution, linked: bool)

  datatype State = State(users: map<UserId, User>, links: map<Key, UserId>, procs: map<Pid, Proc>, now: Time)

  datatype Event =
    | Spawn(pid: Pid, key: Key, profile: Profile)
    | Run(pid: Pid, spare: UserId)
    | Register(spare: UserId, row: User)
    | Edit(user: UserId, row: User)
    | Tick(elapsed: nat)

  ghost predicate Enabled(s: State, e: Event) {
    match e
    case Spawn(pid, key, profile) => pid !in s.procs && key.accountId == profile.accountId
    case Run(pid, spare) => pid in s.procs && !s.procs[pid].Finished? && spare !in s.users
    case Register(spare, row) => spare !in s.users && forall u :: !HasEmail(s.users, u, row.email)
    case Edit(u, row) => u in s.users && row.email == s.users[u].email
    case Tick(_) => true
  }

  function Moved(s: State, pid: Pid, proc: Proc): State {
    s.(procs := s.procs[pid := proc])
  }

  /** The email test between the lookups. */
  function Unlinked(key: Key, profile: Profile): Proc {
    if IsBlank(profile.email) then Finished(key, profile, NotResolved(NoEmail), false) else Searching(key, profile)
  }

  /** The UPDATE sets the columns that were empty in the row read earlier. */
  function Patched(u: User, seen: User, p: Profile, now: Time): User {
    u.(emailVerifiedAt := if seen.emailVerifiedAt.None? then Some(now) else u.emailVerifiedAt,
       fullName := if IsBlank(seen.fullName) && !IsBlank(p.fullName) then p.fullName else u.fullName,
       avatarUrl := if IsBlank(seen.avatarUrl) && !IsBlank(p.avatarUrl) then p.avatarUrl else u.avatarUrl)
  }

  /** What the search by email leads to. */
  ghost function Found(s: State, key: Key, profile: Profile): Proc
    requires profile.email.Some?
  {
    match ByEmail(s.users, profile.email.value)
    case None => Creating(key, profile)
    case Some(u) =>
      if ActiveError(s.users[u]).Some? then Finished(key, profile, NotResolved(ActiveError(s.users[u]).value), false)
      else if !profile.emailVerified then Finished(key, profile, NotResolved(LinkRequired), false)
      else Linking(key, profile, u, s.users[u])
  }

  ghost function RunProc(s: State, pid: Pid, spare: UserId): State
    requires pid in s.procs
  {
    match s.procs[pid]
    case Looking(key, profile) =>
      Moved(s, pid, if key in s.links then Fetching(key, profile, s.links[key]) else Unlinked(key, profile))
    case Fetching(key, profile, user) =>
      if user !in s.users then Moved(s, pid, Unlinked(key, profile))
      else
        (match ActiveError(s.users[user])
         case Some(error) => Moved(s, pid, Finished(key, profile, NotResolved(error), false))
         case None => Moved(s, pid, Finished(key, profile, Resolved(user, false), true)))
    case Searching(key, profile) =>
      if profile.email.None? then s else Moved(s, pid, Found(s, key, profile))
    case Linking(key, profile, user, row) =>
      if key in s.links then Moved(s, pid, Patching(key, profile, user, row, s.links[key] == user))
      else Moved(s.(links := s.links[key := user]), pid, Patching(key, profile, user, row, true))
    case Patching(key, profile, user, row, linked) =>
      var users := if user in s.users then s.users[user := Patched(s.users[user], row, profile, s.now)] else s.users;
      Moved(s.(users := users), pid, Finished(key, profile, Resolved(user, false), linked))
    case Creating(key, profile) =>
      if profile.email.None? then s
      else if exists u :: HasEmail(s.users, u, profile.email.value) then
        Moved(s, pid, Finished(key, profile, NotResolved(EmailConflict), false))
      else
        var users := s.users[spare := NewUser(profile.email.value, profile, s.now)];
        Moved(s.(users := users), pid, Attaching(key, profile, spare))
    case Attaching(key, profile, user) =>
      if key in s.links then Moved(s, pid, Finished(key, profile, NotResolved(LinkConflict), false))
      else Moved(s.(links := s.links[key := user]), pid, Finished(key, profile, Resolved(user, true), true))
    case Finished(_, _, _, _) => s
  }

  ghost function Step(s: State, e: Event): State
    requires Enabled(s, e)
  {
    match e
    case Spawn(pid, key, profile) => Moved(s, pid, Looking(key, profile))
    case Run(pid, spare) => RunProc(s, pid, spare)
    case Register(spare, row) => s.(users := s.users[spare := row])
    case Edit(u, row) => s.(users := s.users[u := row])
    case Tick(elapsed) => s.(now := s.now + elapsed)
  }

  ghost predicate Runs(s: State, es: seq<Event>)
    decreases |es|
  {
    es == [] || (Enabled(s, es[0]) && Runs(Step(s, es[0]), es[1..]))
  }

  ghost function Exec(s: State, es: seq<Event>): State
    requires Runs(s, es)
    decreases |es|
  {
    if es == [] then s else Exec(Step(s, es[0]), es[1..])
  }

  // ---------------------------------------------------------------- invariant

  predicate LeadsTo(s: State, key: Key, user: UserId) {
    key in s.links && s.links[key] == user
  }

  predicate OwnsEmail(s: State, user: UserId, profile: Profile) {
    profile.email.Some? && HasEmail(s.users, user, profile.email.value)
  }

  predicate ProcOk(s: State, proc: Proc) {
    match proc
    case Looking(_, _) => true
    case Fetching(key, _, user) => LeadsTo(s, key, user)
    case Searching(_, profile) => profile.email.Some?
    case Linking(_, profile, user, _) => OwnsEmail(s, user, profile) && profile.emailVerified
    case Patching(key, profile, user, _, linked) =>
      OwnsEmail(s, user, profile) && profile.emailVerified && key in s.links && (linked <==> LeadsTo(s, key, user))
    case Creating(_, profile) => profile.email.Some?
    case Attaching(_, profile, user) => OwnsEmail(s, user, profile)
    case Finished(key, _, Resolved(user, _), linked) =>
      user in s.users && key in s.links && (linked <==> LeadsTo(s, key, user))
    case Finished(_, _, NotResolved(_), _) => true
  }

  ghost predicate Inv(s: State) {
    UniqueEmails(s.users) &&
    (forall k <- s.links :: s.links[k] in s.users) &&
    (forall p <- s.procs :: ProcOk(s, s.procs[p]))
  }

  /** Links and emails only ever gain entries. */
  ghost predicate Grows(s: State, s': State) {
    (forall k <- s.links :: k in s'.links && s'.links[k] == s.links[k]) &&
    forall u <- s.users :: u in s'.users && s'.users[u].email == s.users[u].email
  }

  lemma StepGrows(s: State, e: Event)
    requires Enabled(s, e)
    ensures Grows(s, Step(s, e))
  {
    hide Found, Unlinked, ActiveError;
  }

  lemma StaysOk(s: State, s': State, proc: Proc)
    requires ProcOk(s, proc) && Grows(s, s')
    ensures ProcOk(s', proc)
  {}

  lemma StepKeepsEmails(s: State, e: Event)
    requires Inv(s) && Enabled(s, e)
    ensures UniqueEmails(Step(s, e).users) && forall k <- Step(s, e).links :: Step(s, e).links[k] in Step(s, e).users
  {
    hide UniqueEmails, Found, Unlinked, ActiveError;
    match e
    case Register(spare, row) => AddingKeepsUnique(s.users, spare, row);
    case Edit(u, row) => EditingKeepsUnique(s.users, u, row);
    case Run(pid, spare) =>
      var proc := s.procs[pid];
      assert ProcOk(s, proc);
      if proc.Patching? {
        EditingKeepsUnique(s.users, proc.user, Patched(s.users[proc.user], proc.row, proc.profile, s.now));
      } else if proc.Creating? && forall u :: !HasEmail(s.users, u, proc.profile.email.value) {
        AddingKeepsUnique(s.users, spare, NewUser(proc.profile.email.value, proc.profile, s.now));
      }
    case _ =>
  }

  lemma RunIsOk(s: State, pid: Pid, spare: UserId)
    requires Inv(s) && Enabled(s, Run(pid, spare))
    ensures var s' := RunProc(s, pid, spare); pid in s'.procs && ProcOk(s', s'.procs[pid])
  {
    assert ProcOk(s, s.procs[pid]);
    hide UniqueEmails;
  }

  lemma OthersStay(s: State, e: Event, p: Pid)
    requires Enabled(s, e) && p in s.procs && (e.Run? ==> e.pid != p)
    ensures p in Step(s, e).procs && Step(s, e).procs[p] == s.procs[p]
  {
    hide Found, Unlinked, ActiveError;
  }

  lemma StepKeepsInv(s: State, e: Event)
    requires Inv(s) && Enabled(s, e)
    ensures Inv(Step(s, e)) && Grows(s, Step(s, e))
  {
    var s' := Step(s, e);
    StepGrows(s, e);
    StepKeepsEmails(s, e);
    if e.Run? { RunIsOk(s, e.pid, e.spare); }
    hide UniqueEmails, Grows, RunProc;
    forall p | p in s'.procs ensures ProcOk(s', s'.procs[p]) {
      if p in s.procs && (e.Run? ==> e.pid != p) {
        OthersStay(s, e, p);
        StaysOk(s, s', s.procs[p]);
      }
    }
  }

  /** In every interleaving emails and links stay unique and neither is ever redirected. */
  lemma {:induction false} RunKeepsInv(s: State, es: seq<Event>)
    requires Inv(s) && Runs(s, es)
    ensures Inv(Exec(s, es)) && Grows(s, Exec(s, es))
    decreases |es|
  {
    hide Inv, Step, Enabled;
    if es != [] {
      StepKeepsInv(s, es[0]);
      RunKeepsInv(Step(s, es[0]), es[1..]);
    }
  }

  // ---------------------------------------------------------------- one identity, one user

  predicate Answered(s: State, p: Pid, key: Key) {
    p in s.procs && s.procs[p].Finished? && s.procs[p].key == key && s.procs[p].result.Resolved?
  }

  /**
    A successful call answers with the user its identity is linked to if and only if its INSERT of the
    link did not run into another user's link; two calls with one identity that pass that test agree,
    and a call that passes it differs from one that does not.
  */
  lemma AnswerIsTheLinkedUser(s: State, es: seq<Event>, p: Pid, q: Pid, key: Key)
    requires Inv(s) && Runs(s, es) && Answered(Exec(s, es), p, key) && Answered(Exec(s, es), q, key)
    ensures var r := Exec(s, es);
            && key in r.links && (r.procs[p].result.user == r.links[key] <==> r.procs[p].linked)
            && (r.procs[p].linked && r.procs[q].linked ==> r.procs[p].result.user == r.procs[q].result.user)
            && (r.procs[p].linked && !r.procs[q].linked ==> r.procs[p].result.user != r.procs[q].result.user)
  {
    RunKeepsInv(s, es);
    var r := Exec(s, es);
    assert ProcOk(r, r.procs[p]) && ProcOk(r, r.procs[q]);
  }

  /** Where the flag is decided: at the INSERT that may do nothing. */
  lemma FlagIsTheConflict(s: State, pid: Pid, spare: UserId)
    requires Inv(s) && Enabled(s, Run(pid, spare)) && s.procs[pid].Linking?
    ensures var proc, s' := s.procs[pid], Step(s, Run(pid, spare));
            && s'.procs[pid].Patching? && s'.procs[pid].user == proc.user
            && (s'.procs[pid].linked <==> !(proc.key in s.links && s.links[proc.key] != proc.user))
            && LeadsTo(s', proc.key, if proc.key in s.links then s.links[proc.key] else proc.user)
  {}

  /** A call goes on with an existing account, by link or by email, only when it reads it as active. */
  lemma OnlyActiveGoOn(s: State, pid: Pid, spare: UserId)
    requires Inv(s) && Enabled(s, Run(pid, spare))
    ensures var proc := s.procs[pid];
            var proc' := Step(s, Run(pid, spare)).procs[pid];
            && (proc.Fetching? ==>
                && proc'.Finished?
                && proc'.result == match s.users[proc.user].status
                                   case Active => Resolved(proc.user, false)
                                   case Suspended => NotResolved(UserSuspended)
                                   case Deleted => NotResolved(UserUnavailable))
            && (proc.Searching? && proc'.Linking? ==>
                && HasEmail(s.users, proc'.user, proc.profile.email.value) && proc.profile.emailVerified
                && s.users[proc'.user].status == Active && proc'.row == s.users[proc'.user])
            && (proc.Searching? && proc'.Finished? ==>
                exists u :: HasEmail(s.users, u, proc.profile.email.value) &&
                  proc'.result == match s.users[u].status
                                  case Active => NotResolved(LinkRequired)
                                  case Suspended => NotResolved(UserSuspended)
                                  case Deleted => NotResolved(UserUnavailable))
            && (proc.Searching? && proc'.Creating? ==> forall u :: !HasEmail(s.users, u, proc.profile.email.value))
  {
    assert ProcOk(s, s.procs[pid]);
    hide UniqueEmails;
  }

  /**
    A new account whose email was taken since the search is refused, and so is one whose identity was
    linked since; the tables stay as they are, in the second case with the account already in them.
  */
  lemma ConflictsRefuse(s: State, pid: Pid, spare: UserId)
    requires Inv(s) && Enabled(s, Run(pid, spare)) && (s.procs[pid].Creating? || s.procs[pid].Attaching?)
    ensures var proc, r := s.procs[pid], Step(s, Run(pid, spare));
            var taken := exists u :: HasEmail(s.users, u, proc.profile.email.value);
            && (proc.Creating? && taken ==>
                  r == Moved(s, pid, Finished(proc.key, proc.profile, NotResolved(EmailConflict), false)))
            && (proc.Creating? && !taken ==>
                  r.procs[pid] == Attaching(proc.key, proc.profile, spare) && r.links == s.links)
            && (proc.Attaching? && proc.key in s.links ==>
                  r == Moved(s, pid, Finished(proc.key, proc.profile, NotResolved(LinkConflict), false)))
            && (proc.Attaching? && proc.key !in s.links ==>
                  r.users == s.users && r.links == s.links[proc.key := proc.user]
                  && r.procs[pid] == Finished(proc.key, proc.profile, Resolved(proc.user, true), true))
  {
    assert ProcOk(s, s.procs[pid]);
    hide UniqueEmails;
  }

  // ---------------------------------------------------------------- identities that keep their email

  /** Every call with this identity carries this email. */
  predicate Carries(es: seq<Event>, key: Key, email: string) {
    forall e <- es :: e.Spawn? && e.key == key ==> e.profile.email == Some(email)
  }

  predicate ForEmail(s: State, proc: Proc, key: Key, email: string) {
    proc.key == key ==>
      proc.profile.email == Some(email) &&
      (proc.Finished? && proc.result.Resolved? ==> HasEmail(s.users, proc.result.user, email))
  }

  /** The identity belongs to the email: its calls carry it, its link and its answers lead to its owner. */
  ghost predicate OneEmail(s: State, key: Key, email: string) {
    (key in s.links ==> HasEmail(s.users, s.links[key], email)) &&
    forall p <- s.procs :: ForEmail(s, s.procs[p], key, email)
  }

  lemma OneEmailStep(s: State, e: Event, key: Key, email: string)
    requires Inv(s) && OneEmail(s, key, email) && Enabled(s, e) && Carries([e], key, email)
    ensures OneEmail(Step(s, e), key, email)
  {
    var s' := Step(s, e);
    assert e in [e];
    StepGrows(s, e);
    if e.Run? {
      assert ProcOk(s, s.procs[e.pid]) && ForEmail(s, s.procs[e.pid], key, email);
      RunForEmail(s, e.pid, e.spare, key, email);
    }
    hide UniqueEmails, Grows, RunProc;
    forall p | p in s'.procs ensures ForEmail(s', s'.procs[p], key, email) {
      if p in s.procs && (e.Run? ==> e.pid != p) {
        OthersStay(s, e, p);
        assert ForEmail(s, s.procs[p], key, email);
        ForEmailStays(s, s', s.procs[p], key, email);
      }
    }
    if key in s.links { LinkStays(s, s', key, email); }
  }

  lemma LinkStays(s: State, s': State, key: Key, email: string)
    requires Grows(s, s') && key in s.links && HasEmail(s.users, s.links[key], email)
    ensures key in s'.links && HasEmail(s'.users, s'.links[key], email)
  {}

  lemma ForEmailStays(s: State, s': State, proc: Proc, key: Key, email: string)
    requires Grows(s, s') && ForEmail(s, proc, key, email)
    ensures ForEmail(s', proc, key, email)
  {}

  lemma RunForEmail(s: State, pid: Pid, spare: UserId, key: Key, email: string)
    requires Inv(s) && OneEmail(s, key, email) && Enabled(s, Run(pid, spare))
    ensures var s' := RunProc(s, pid, spare);
            && pid in s'.procs && ForEmail(s', s'.procs[pid], key, email)
            && (key in s'.links && key !in s.links ==> HasEmail(s'.users, s'.links[key], email))
  {
    assert ProcOk(s, s.procs[pid]) && ForEmail(s, s.procs[pid], key, email);
    hide UniqueEmails, ByEmail;
  }

  /**
    Under any interleaving an identity whose calls all carry one email resolves to one user. It is a
    change of the email at the provider, met by another call mid-flight, that can split it.
  */
  lemma {:induction false} SameEmailSameUser(s: State, es: seq<Event>, key: Key, email: string, p: Pid, q: Pid)
    requires Inv(s) && OneEmail(s, key, email) && Runs(s, es) && Carries(es, key, email)
    requires Answered(Exec(s, es), p, key) && Answered(Exec(s, es), q, key)
    ensures Exec(s, es).procs[p].result.user == Exec(s, es).procs[q].result.user
    decreases |es|
  {
    hide OneEmail;
    if es == [] {
      OneOwner(s, key, email, p, q);
    } else {
      hide Inv, Step, Enabled;
      assert es[0] in es && forall e <- es[1..] :: e in es;
      OneEmailStep(s, es[0], key, email);
      StepKeepsInv(s, es[0]);
      SameEmailSameUser(Step(s, es[0]), es[1..], key, email, p, q);
    }
  }

  lemma OneOwner(s: State, key: Key, email: string, p: Pid, q: Pid)
    requires Inv(s) && OneEmail(s, key, email) && Answered(s, p, key) && Answered(s, q, key)
    ensures s.procs[p].result.user == s.procs[q].result.user
  {
    assert ForEmail(s, s.procs[p], key, email) && ForEmail(s, s.procs[q], key, email);
  }

  // ---------------------------------------------------------------- the split

  /** Some run from `s` ends in `s'`. */
  ghost predicate Leads(s: State, es: seq<Event>, s': State) {
    Runs(s, es) && Exec(s, es) == s'
  }

  lemma Prepend(s: State, e: Event, mid: State, es: seq<Event>, s': State)
    requires Enabled(s, e) && Step(s, e) == mid && Leads(mid, es, s')
    ensures Leads(s, [e] + es, s')
  {
    assert ([e] + es)[1..] == es;
  }

  lemma {:induction false} LeadsOn(s: State, es: seq<Event>, mid: State, more: seq<Event>, s': State)
    requires Leads(s, es, mid) && Leads(mid, more, s')
    ensures Leads(s, es + more, s')
    decreases |es|
  {
    hide Step, Enabled;
    if es == [] {
      assert es + more == more;
    } else {
      assert (es + more)[0] == es[0] && (es + more)[1..] == es[1..] + more;
      LeadsOn(Step(s, es[0]), es[1..], mid, more, s');
    }
  }

  /** The call is about to sign in an active account by its provider-verified email. */
  ghost predicate ByVerifiedEmail(s: State, p: Pid, key: Key, user: UserId) {
    p in s.procs && s.procs[p].Looking? && s.procs[p].key == key && s.procs[p].profile.emailVerified &&
    OwnsEmail(s, user, s.procs[p].profile) && !IsBlank(s.procs[p].profile.email) && s.users[user].status == Active
  }

  lemma FindsTheAccount(s: State, p: Pid, key: Key, user: UserId, spare: UserId)
    requires Inv(s) && ByVerifiedEmail(s, p, key, user) && key !in s.links && spare !in s.users
    ensures var s' := Moved(s, p, Linking(key, s.procs[p].profile, user, s.users[user]));
            Leads(s, [Run(p, spare)] + ([Run(p, spare)] + []), s')
  {
    var profile := s.procs[p].profile;
    var s1 := Moved(s, p, Searching(key, profile));
    assert Step(s, Run(p, spare)) == s1;
    assert ByEmail(s.users, profile.email.value) == Some(user);
    var s2 := Moved(s, p, Linking(key, profile, user, s.users[user]));
    assert RunProc(s1, p, spare) == Moved(s1, p, Linking(key, profile, user, s.users[user]));
    assert s1.procs[p := s2.procs[p]] == s2.procs;
    hide Inv, RunProc, ByEmail;
    assert Leads(s2, [], s2);
    Prepend(s1, Run(p, spare), s2, [], s2);
    Prepend(s, Run(p, spare), s1, [Run(p, spare)] + [], s2);
  }

  /**
    The failing run: two sign-ins with one new identity and the different provider-verified emails of
    two active accounts. Both find their account before either links it; the later to insert answers
    with its own account although the identity is linked to the other.
  */
  lemma OneIdentityTwoUsers(s: State, p: Pid, q: Pid, key: Key, u: UserId, v: UserId, spare: UserId)
    returns (es: seq<Event>)
    requires Inv(s) && p != q && u != v && spare !in s.users && key !in s.links
    requires ByVerifiedEmail(s, p, key, u) && ByVerifiedEmail(s, q, key, v)
    ensures Runs(s, es)
    ensures var r := Exec(s, es);
            && Answered(r, p, key) && Answered(r, q, key)
            && LeadsTo(r, key, v) && r.procs[q].result.user == v && r.procs[p].result.user == u
  {
    FindsTheAccount(s, p, key, u, spare);
    var s1 := Moved(s, p, Linking(key, s.procs[p].profile, u, s.users[u]));
    LinkingIsOk(s, p, key, u);
    FindsTheAccount(s1, q, key, v, spare);
    var s2 := Moved(s1, q, Linking(key, s.procs[q].profile, v, s.users[v]));
    LinkingIsOk(s1, q, key, v);
    var rest := TwoUsersForOneIdentity(s2, p, q, u, v, spare);
    var first, second := [Run(p, spare)] + ([Run(p, spare)] + []), [Run(q, spare)] + ([Run(q, spare)] + []);
    hide Inv, ByVerifiedEmail, Answered, LeadsTo;
    LeadsOn(s1, second, s2, rest, Exec(s2, rest));
    LeadsOn(s, first, s1, second + rest, Exec(s2, rest));
    es := first + (second + rest);
  }

  lemma LinkingIsOk(s: State, p: Pid, key: Key, user: UserId)
    requires Inv(s) && ByVerifiedEmail(s, p, key, user)
    ensures Inv(Moved(s, p, Linking(key, s.procs[p].profile, user, s.users[user])))
  {
    var s' := Moved(s, p, Linking(key, s.procs[p].profile, user, s.users[user]));
    hide UniqueEmails;
    forall o | o in s'.procs ensures ProcOk(s', s'.procs[o]) {
      if o != p {
        assert ProcOk(s, s.procs[o]);
        StaysOk(s, s', s.procs[o]);
      }
    }
  }

  /** Its last steps, from where both have found their account. */
  lemma TwoUsersForOneIdentity(s: State, p: Pid, q: Pid, u: UserId, v: UserId, spare: UserId) returns (es: seq<Event>)
    requires Inv(s) && p != q && p in s.procs && q in s.procs && u != v && spare !in s.users
    requires s.procs[p].Linking? && s.procs[q].Linking?
    requires s.procs[p].key == s.procs[q].key && s.procs[p].key !in s.links
    requires s.procs[p].user == u && s.procs[q].user == v
    ensures Runs(s, es)
    ensures var r, key := Exec(s, es), s.procs[p].key;
            && Answered(r, p, key) && Answered(r, q, key)
            && LeadsTo(r, key, v) && r.procs[q].result.user == v && r.procs[p].result.user == u
  {
    var a, b := s.procs[p], s.procs[q];
    var key := a.key;
    assert ProcOk(s, a) && ProcOk(s, b);
    var s1 := Step(s, Run(q, spare));
    assert s1 == Moved(s.(links := s.links[key := v]), q, Patching(key, b.profile, v, b.row, true));
    var s2 := Step(s1, Run(q, spare));
    assert s2.procs == s.procs[q := Finished(key, b.profile, Resolved(v, false), true)] && s2.links == s1.links;
    assert spare !in s2.users;
    var s3 := Step(s2, Run(p, spare));
    assert s3 == Moved(s2, p, Patching(key, a.profile, u, a.row, false));
    var s4 := Step(s3, Run(p, spare));
    assert s4.procs == s2.procs[p := Finished(key, a.profile, Resolved(u, false), false)] && s4.links == s1.links;
    hide Step, RunProc, Inv;
    assert Leads(s4, [], s4);
    Prepend(s3, Run(p, spare), s4, [], s4);
    Prepend(s2, Run(p, spare), s3, [Run(p, spare)] + [], s4);
    Prepend(s1, Run(q, spare), s2, [Run(p, spare)] + ([Run(p, spare)] + []), s4);
    es := [Run(q, spare)] + ([Run(q, spare)] + ([Run(p, spare)] + ([Run(p, spare)] + [])));
    Prepend(s, Run(q, spare), s1, [Run(q, spare)] + ([Run(p, spare)] + ([Run(p, spare)] + [])), s4);
  }

  // ---------------------------------------------------------------- the serial function

  /** A call whose statements nobody interrupts does what the serial function says. */
  lemma UninterruptedIsResolve(s: State, p: Pid, spare: UserId)
    requires Inv(s) && p in s.procs && s.procs[p].Looking? && spare !in s.users
    requires s.procs[p].key.accountId == s.procs[p].profile.accountId
    ensures var key, profile := s.procs[p].key, s.procs[p].profile;
            var r := RunProc(RunProc(RunProc(RunProc(s, p, spare), p, spare), p, spare), p, spare);
            var (d, result) := Resolve(Directory(s.users, s.links), key.provider, profile, spare, s.now);
            r.users == d.users && r.links == d.links && r.procs[p].Finished? && r.procs[p].result == result
  {
    var key, profile := s.procs[p].key, s.procs[p].profile;
    assert key == Key(key.provider, profile.accountId);
    hide UniqueEmails;
    var s1 := RunProc(s, p, spare);
    var s2 := RunProc(s1, p, spare);
    if key in s.links {
      assert s2.procs[p].Finished?;
    } else if !IsBlank(profile.email) {
      assert s1 == Moved(s, p, Searching(key, profile));
      match ByEmail(s.users, profile.email.value)
      case Some(u) => assert Patched(s.users[u], s.users[u], profile, s.now) == Backfilled(s.users[u], profile, s.now);
      case None => assert s2 == Moved(s1, p, Creating(key, profile));
    }
  }
}
