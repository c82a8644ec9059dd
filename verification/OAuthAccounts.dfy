/** `resolveOAuthUser`: mapping a provider profile onto a local user, and what that keeps over whole runs. */
module OAuthAccounts {
  import opened Options
  import opened TokenRows
  import opened Accounts

  datatype Provider = Google | GitHub

  /** Identity at the provider: never the email. */
  datatype Key = Key(provider: Provider, accountId: string)

  datatype Profile = Profile(
    accountId: string, email: Option<string>, emailVerified: bool, fullName: Option<string>, avatarUrl: Option<string>)

  datatype OAuthError = NoEmail | UserSuspended | UserUnavailable | LinkRequired | LinkConflict | EmailConflict

  datatype Resolution = Resolved(user: UserId, created: bool) | NotResolved(error: OAuthError)

  datatype Directory = Directory(users: map<UserId, User>, links: map<Key, UserId>)

  /** `assertActive`. */
  function ActiveError(u: User): Option<OAuthError> {
    match u.status
    case Active => None
    case Suspended => Some(UserSuspended)
    case Deleted => Some(UserUnavailable)
  }

  predicate IsBlank(s: Option<string>) {
    s.None? || s.value == ""
  }

  /** Not null and not empty. */
  predicate HasText(s: Option<string>) {
    s.Some? && |s.value| > 0
  }

  function Backfilled(u: User, p: Profile, now: Time): User {
    u.(emailVerifiedAt := if u.emailVerifiedAt.None? then Some(now) else u.emailVerifiedAt,
       fullName := if IsBlank(u.fullName) && !IsBlank(p.fullName) then p.fullName else u.fullName,
       avatarUrl := if IsBlank(u.avatarUrl) && !IsBlank(p.avatarUrl) then p.avatarUrl else u.avatarUrl)
  }

  function NewUser(email: string, p: Profile, now: Time): User {
    User(email, if p.emailVerified then Some(now) else None, None, p.fullName, p.avatarUrl, Active, None, 0, None)
  }

  ghost function Resolve(d: Directory, provider: Provider, p: Profile, spare: UserId, now: Time)
    : (Directory, Resolution)
  {
    var key := Key(provider, p.accountId);
    if key in d.links && d.links[key] in d.users then
      (d, match ActiveError(d.users[d.links[key]])
          case Some(error) => NotResolved(error)
          case None => Resolved(d.links[key], false))
    else if IsBlank(p.email) then
      (d, NotResolved(NoEmail))
    else
      match ByEmail(d.users, p.email.value)
      case Some(u) =>
        if ActiveError(d.users[u]).Some? then (d, NotResolved(ActiveError(d.users[u]).value))
        else if !p.emailVerified then (d, NotResolved(LinkRequired))
        else
          (Directory(d.users[u := Backfilled(d.users[u], p, now)],
                     if key in d.links then d.links else d.links[key := u]),
           Resolved(u, false))
      case None =>
        var users := d.users[spare := NewUser(p.email.value, p, now)];
        if key in d.links then (Directory(users, d.links), NotResolved(LinkConflict))
        else (Directory(users, d.links[key := spare]), Resolved(spare, true))
  }

  /** One user per email, and every link leads to a user. */
  ghost predicate Consistent(d: Directory) {
    UniqueEmails(d.users) && forall k <- d.links :: d.links[k] in d.users
  }

  class OAuthService {
    var users: map<UserId, User>
    var links: map<Key, UserId>

    ghost function View(): Directory
      reads this
    {
      Directory(users, links)
    }

    constructor ()
      ensures View() == Directory(map[], map[]) && Consistent(View())
    {
      users, links := map[], map[];
    }

    method ResolveOAuthUser(provider: Provider, profile: Profile, spare: UserId, now: Time) returns (result: Resolution)
      requires Consistent(View()) && spare !in users
      modifies this
      ensures (View(), result) == Resolve(old(View()), provider, profile, spare, now)
      ensures Consistent(View())
      ensures result.NotResolved? ==> View() == old(View())
      ensures result.Resolved? ==>
                result.user in users && links == old(links)[Key(provider, profile.accountId) := result.user]
      ensures result.Resolved? && !result.created ==> old(users)[result.user].status == Active
      ensures var key := Key(provider, profile.accountId);
              key in old(links) ==>
                var u := old(links)[key];
                var row := old(users)[u];
                && users == old(users) && links == old(links)
                && result == match row.status
                             case Active => Resolved(u, false)
                             case Suspended => NotResolved(UserSuspended)
                             case Deleted => NotResolved(UserUnavailable)
      ensures var key := Key(provider, profile.accountId);
              key !in old(links) ==>
                (result == NotResolved(NoEmail) <==> profile.email.None? || profile.email.value == "")
      ensures var key := Key(provider, profile.accountId);
              key !in old(links) && profile.email.Some? && profile.email.value != "" ==>
                forall u :: HasEmail(old(users), u, profile.email.value) ==>
                  var row := old(users)[u];
                  && result == (match row.status
                                case Suspended => NotResolved(UserSuspended)
                                case Deleted => NotResolved(UserUnavailable)
                                case Active =>
                                  if profile.emailVerified then Resolved(u, false) else NotResolved(LinkRequired))
                  && (result.Resolved? ==>
                      && links == old(links)[key := u]
                      && users == old(users)[u := row.(
                           emailVerifiedAt := if row.emailVerifiedAt.Some? then row.emailVerifiedAt else Some(now),
                           fullName := if HasText(row.fullName) || !HasText(profile.fullName) then row.fullName
                                       else profile.fullName,
                           avatarUrl := if HasText(row.avatarUrl) || !HasText(profile.avatarUrl) then row.avatarUrl
                                        else profile.avatarUrl)])
      ensures var key := Key(provider, profile.accountId);
              key !in old(links) && profile.email.Some? && profile.email.value != ""
              && (forall u :: !HasEmail(old(users), u, profile.email.value)) ==>
                && result == Resolved(spare, true) && links == old(links)[key := spare]
                && users == old(users)[spare := User(
                     profile.email.value, if profile.emailVerified then Some(now) else None, None,
                     profile.fullName, profile.avatarUrl, Active, None, 0, None)]
    {
      var key := Key(provider, profile.accountId);
      if key in links {
        var existing := links[key];
        if existing in users {
          var error := ActiveError(users[existing]);
          if error.Some? { return NotResolved(error.value); }
          return Resolved(existing, false);
        }
      }
      if IsBlank(profile.email) { return NotResolved(NoEmail); }
      var byEmail := FindByEmail(users, profile.email.value);
      if byEmail.Some? {
        var u := byEmail.value;
        var user := users[u];
        var error := ActiveError(user);
        if error.Some? { return NotResolved(error.value); }
        if !profile.emailVerified { return NotResolved(LinkRequired); }
        if key !in links { links := links[key := u]; }
        if user.emailVerifiedAt.None? { user := user.(emailVerifiedAt := Some(now)); }
        if IsBlank(user.fullName) && !IsBlank(profile.fullName) { user := user.(fullName := profile.fullName); }
        if IsBlank(user.avatarUrl) && !IsBlank(profile.avatarUrl) { user := user.(avatarUrl := profile.avatarUrl); }
        EditingKeepsUnique(users, u, user);
        users := users[u := user];
        return Resolved(u, false);
      }
      AddingKeepsUnique(users, spare, NewUser(profile.email.value, profile, now));
      users := users[spare := NewUser(profile.email.value, profile, now)];
      links := links[key := spare];
      return Resolved(spare, true);
    }
  }

  // ---------------------------------------------------------------- runs

  /** Sign-ins, and what else happens to the users table: registration and edits that keep the email. */
  datatype Op =
    | SignIn(provider: Provider, profile: Profile, spare: UserId, now: Time)
    | Register(spare: UserId, row: User)
    | Edit(user: UserId, row: User)

  ghost predicate Enabled(d: Directory, op: Op) {
    match op
    case SignIn(_, _, spare, _) => spare !in d.users
    case Register(spare, row) => spare !in d.users && forall u :: !HasEmail(d.users, u, row.email)
    case Edit(u, row) => u in d.users && row.email == d.users[u].email
  }

  ghost function Step(d: Directory, op: Op): Directory {
    match op
    case SignIn(provider, profile, spare, now) => Resolve(d, provider, profile, spare, now).0
    case Register(spare, row) => d.(users := d.users[spare := row])
    case Edit(u, row) => d.(users := d.users[u := row])
  }

  ghost predicate Runs(d: Directory, ops: seq<Op>)
    decreases |ops|
  {
    ops == [] || (Enabled(d, ops[0]) && Runs(Step(d, ops[0]), ops[1..]))
  }

  ghost function Exec(d: Directory, ops: seq<Op>): Directory
    decreases |ops|
  {
    if ops == [] then d else Exec(Step(d, ops[0]), ops[1..])
  }

  lemma StepKeeps(d: Directory, op: Op)
    requires Consistent(d) && Enabled(d, op)
    ensures Consistent(Step(d, op))
    ensures forall k <- d.links :: k in Step(d, op).links && Step(d, op).links[k] == d.links[k]
    ensures forall u <- d.users :: u in Step(d, op).users && Step(d, op).users[u].email == d.users[u].email
  {
    match op
    case Register(spare, row) => AddingKeepsUnique(d.users, spare, row);
    case Edit(u, row) => EditingKeepsUnique(d.users, u, row);
    case SignIn(provider, p, spare, now) =>
      if !IsBlank(p.email) {
        match ByEmail(d.users, p.email.value)
        case Some(u) => EditingKeepsUnique(d.users, u, Backfilled(d.users[u], p, now));
        case None => AddingKeepsUnique(d.users, spare, NewUser(p.email.value, p, now));
      }
  }

  lemma {:induction false} RunKeeps(d: Directory, ops: seq<Op>)
    requires Consistent(d) && Runs(d, ops)
    ensures Consistent(Exec(d, ops))
    ensures forall k <- d.links :: k in Exec(d, ops).links && Exec(d, ops).links[k] == d.links[k]
    ensures forall u <- d.users :: u in Exec(d, ops).users && Exec(d, ops).users[u].email == d.users[u].email
    decreases |ops|
  {
    if ops != [] {
      StepKeeps(d, ops[0]);
      RunKeeps(Step(d, ops[0]), ops[1..]);
    }
  }

  /**
    Once (provider, account id) has resolved to a user, every later successful sign-in with that
    identity returns the same user, whatever email or verified flag it carries.
  */
  lemma IdentityIsStable(d: Directory, first: Op, ops: seq<Op>, later: Op)
    requires Consistent(d) && first.SignIn? && Enabled(d, first) && Runs(Step(d, first), ops)
    requires later.SignIn? && later.provider == first.provider && later.profile.accountId == first.profile.accountId
    requires Enabled(Exec(Step(d, first), ops), later)
    ensures var r1 := Resolve(d, first.provider, first.profile, first.spare, first.now).1;
            var r2 := Resolve(Exec(Step(d, first), ops), later.provider, later.profile, later.spare, later.now).1;
            r1.Resolved? && r2.Resolved? ==> r2.user == r1.user && !r2.created
  {
    StepKeeps(d, first);
    RunKeeps(Step(d, first), ops);
  }

  /** A refused sign-in changes nothing. */
  lemma RefusalChangesNothing(d: Directory, op: Op)
    requires Consistent(d) && op.SignIn? && Enabled(d, op)
    requires Resolve(d, op.provider, op.profile, op.spare, op.now).1.NotResolved?
    ensures Step(d, op) == d
  {}

  /**
    The sign-in linked `key` to `user`: to a user it created, or to the owner of its provider-verified
    email.
  */
  ghost predicate Earns(d: Directory, op: Op, key: Key, user: UserId) {
    op.SignIn? && Key(op.provider, op.profile.accountId) == key &&
    var r := Resolve(d, op.provider, op.profile, op.spare, op.now).1;
    r.Resolved? && r.user == user &&
    (user !in d.users || (op.profile.emailVerified && op.profile.email.Some?
        && HasEmail(d.users, user, op.profile.email.value)))
  }

  ghost predicate EarnedIn(d: Directory, ops: seq<Op>, key: Key, user: UserId)
    decreases |ops|
  {
    ops != [] && (Earns(d, ops[0], key, user) || EarnedIn(Step(d, ops[0]), ops[1..], key, user))
  }

  lemma NewLinkIsEarned(d: Directory, op: Op, key: Key)
    requires Consistent(d) && Enabled(d, op) && key in Step(d, op).links && key !in d.links
    ensures Earns(d, op, key, Step(d, op).links[key])
  {}

  /** Every link that a run adds was earned by one of its sign-ins. */
  lemma {:induction false} LinksAreEarned(d: Directory, ops: seq<Op>, key: Key)
    requires Consistent(d) && Runs(d, ops) && key in Exec(d, ops).links && key !in d.links
    ensures EarnedIn(d, ops, key, Exec(d, ops).links[key])
    decreases |ops|
  {
    hide Step, Earns;
    var next := Step(d, ops[0]);
    StepKeeps(d, ops[0]);
    RunKeeps(next, ops[1..]);
    if key in next.links { NewLinkIsEarned(d, ops[0], key); } else { LinksAreEarned(next, ops[1..], key); }
  }
}
