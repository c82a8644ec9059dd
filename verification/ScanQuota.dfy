/**
  The free plan's sliding 24-hour quota under concurrency: `requestScan` counts, resolves the
  address, upserts the website and inserts the scan in separate steps.
*/
module ScanQuota {
  import opened Options
  import opened TokenRows

  type SiteId = nat
  type Pid = nat

  const DAY: int := 86_400_000

  datatype Plan = Free | Pro | Team | Enterprise

  datatype Scan = Scan(requestedBy: UserId, site: SiteId, queuedAt: Time)

  /** `dailyScanLimit`. */
  function DailyScanLimit(plan: Plan, freePerDay: nat): Option<nat> {
    if plan == Free then Some(freePerDay) else None
  }

  predicate Within(scan: Scan, user: UserId, from: Time, to: Option<Time>) {
    scan.requestedBy == user && from <= scan.queuedAt && (to.Some? ==> scan.queuedAt <= to.value)
  }

  /** SELECT count() ... WHERE requested_by = user AND queued_at >= from, optionally up to a bound. */
  function Count(scans: seq<Scan>, user: UserId, from: Time, to: Option<Time>): nat {
    if scans == [] then 0
    else Count(scans[..|scans| - 1], user, from, to) + if Within(scans[|scans| - 1], user, from, to) then 1 else 0
  }

  datatype Proc =
    | Counting(user: UserId, plan: Plan, since: Time)  // the clock was read, before the SELECT
    | Resolving(user: UserId)                          // admitted, waiting for DNS
    | Storing(user: UserId, host: string)              // before the website upsert
    | Inserting(user: UserId, site: SiteId)            // before the scan's INSERT
    | Finished(accepted: bool)

  datatype State = State(
    scans: seq<Scan>, sites: map<string, SiteId>, procs: map<Pid, Proc>, now: Time, freePerDay: nat)

  datatype Event =
    | Spawn(pid: Pid, user: UserId, plan: Plan)
    | Run(pid: Pid, host: Option<string>, site: SiteId)
    | Tick(elapsed: nat)

  predicate Enabled(s: State, e: Event) {
    match e
    case Spawn(pid, _, _) => pid !in s.procs
    case Run(pid, _, site) => pid in s.procs && !s.procs[pid].Finished? && site !in s.sites.Values
    case Tick(_) => true
  }

  /** INSERT ... ON CONFLICT DO NOTHING, then SELECT: the host's row, created on first sight. */
  function Upsert(sites: map<string, SiteId>, host: string, site: SiteId): (map<string, SiteId>, SiteId) {
    if host in sites then (sites, sites[host]) else (sites[host := site], site)
  }

  function Moved(s: State, pid: Pid, proc: Proc): State {
    s.(procs := s.procs[pid := proc])
  }

  function RunProc(s: State, pid: Pid, host: Option<string>, site: SiteId): State
    requires pid in s.procs
  {
    match s.procs[pid]
    case Counting(user, plan, since) =>
      (match DailyScanLimit(plan, s.freePerDay)
       case None => Moved(s, pid, Resolving(user))
       case Some(limit) =>
         if limit <= Count(s.scans, user, since, None) then Moved(s, pid, Finished(false))
         else Moved(s, pid, Resolving(user)))
    case Resolving(user) =>
      if host.Some? then Moved(s, pid, Storing(user, host.value)) else Moved(s, pid, Finished(false))
    case Storing(user, name) =>
      var (sites, id) := Upsert(s.sites, name, site);
      Moved(s.(sites := sites), pid, Inserting(user, id))
    case Inserting(user, id) =>
      Moved(s.(scans := s.scans + [Scan(user, id, s.now)]), pid, Finished(true))
    case Finished(_) => s
  }

  function Step(s: State, e: Event): State
    requires Enabled(s, e)
  {
    match e
    case Spawn(pid, user, plan) => Moved(s, pid, Counting(user, plan, s.now - DAY))
    case Run(pid, host, site) => RunProc(s, pid, host, site)
    case Tick(elapsed) => s.(now := s.now + elapsed)
  }

  // ---------------------------------------------------------------- what counting and one request mean

  /** The positions of the user's scans in the window. */
  function Positions(scans: seq<Scan>, user: UserId, from: Time, to: Option<Time>): set<nat> {
    set i: nat | i < |scans| && scans[i].requestedBy == user && from <= scans[i].queuedAt
                 && (to.None? || scans[i].queuedAt <= to.value)
  }

  lemma {:induction false} CountIsNumber(scans: seq<Scan>, user: UserId, from: Time, to: Option<Time>)
    ensures Count(scans, user, from, to) == |Positions(scans, user, from, to)|
  {
    if scans == [] {
      assert Positions(scans, user, from, to) == {};
    } else {
      var n := |scans| - 1;
      CountIsNumber(scans[..n], user, from, to);
      var before, all := Positions(scans[..n], user, from, to), Positions(scans, user, from, to);
      if Within(scans[n], user, from, to) { assert all == before + {n}; } else { assert all == before; }
    }
  }

  /** Only the free plan is counted, and it is refused exactly at its limit. */
  lemma QuotaCheck(s: State, pid: Pid, host: Option<string>, site: SiteId)
    requires pid in s.procs && s.procs[pid].Counting?
    ensures var proc, r := s.procs[pid], RunProc(s, pid, host, site);
            var used := |Positions(s.scans, proc.user, proc.since, None)|;
            var refused := proc.plan == Free && s.freePerDay <= used;
            r == Moved(s, pid, if refused then Finished(false) else Resolving(proc.user))
  {
    CountIsNumber(s.scans, s.procs[pid].user, s.procs[pid].since, None);
  }

  /**
    A request whose steps nobody interrupts: refused at the limit or without an address, and then nothing
    changes; otherwise the host keeps or gets its site and one scan of that site by the user is added.
  */
  lemma UninterruptedRequest(s: State, pid: Pid, user: UserId, plan: Plan, host: Option<string>, site: SiteId)
    requires pid in s.procs && s.procs[pid] == Counting(user, plan, s.now - 86_400_000)
    ensures var s2 := RunProc(RunProc(s, pid, host, site), pid, host, site);
            var r := RunProc(RunProc(s2, pid, host, site), pid, host, site);
            var used := |Positions(s.scans, user, s.now - 86_400_000, None)|;
            var accepted := host.Some? && (plan == Free ==> used < s.freePerDay);
            && r.procs == s.procs[pid := Finished(accepted)]
            && (!accepted ==> r.scans == s.scans && r.sites == s.sites)
            && (accepted ==>
                && r.sites == (if host.value in s.sites then s.sites else s.sites[host.value := site])
                && r.scans == s.scans + [Scan(user, r.sites[host.value], s.now)])
  {
    QuotaCheck(s, pid, host, site);
    var s1 := RunProc(s, pid, host, site);
    var s2 := RunProc(s1, pid, host, site);
    if s1.procs[pid].Resolving? && host.Some? {
      assert s2.procs == s.procs[pid := Storing(user, host.value)];
      var s3 := RunProc(s2, pid, host, site);
      assert s3.procs == s.procs[pid := Inserting(user, s3.sites[host.value])];
    } else {
      assert s2.procs == s.procs[pid := Finished(false)];
    }
  }

  /** A request reads the clock and the plan when it arrives. */
  lemma ArrivalReadsTheClock(s: State, pid: Pid, user: UserId, plan: Plan)
    requires Enabled(s, Spawn(pid, user, plan))
    ensures Step(s, Spawn(pid, user, plan)) ==
            s.(procs := s.procs[pid := Counting(user, plan, s.now - 86_400_000)])
  {}

  // ---------------------------------------------------------------- the quota invariant

  predicate IsAdmitted(proc: Proc, user: UserId) {
    (proc.Resolving? || proc.Storing? || proc.Inserting?) && proc.user == user
  }

  /** Requests of the user between the quota check and the insert. */
  function Admitted(s: State, user: UserId): set<Pid> {
    set p | p in s.procs && IsAdmitted(s.procs[p], user)
  }

  /** The user is on the free plan, and no clock reading lies in the future. */
  ghost predicate FreeUser(s: State, user: UserId) {
    (forall p <- s.procs :: s.procs[p].Counting? ==> s.procs[p].since <= s.now - DAY
                                                     && (s.procs[p].user == user ==> s.procs[p].plan == Free)) &&
    (forall i | 0 <= i < |s.scans| :: s.scans[i].queuedAt <= s.now)
  }

  /** What a window may still come to: the scans in it, plus the admitted requests while it is open. */
  function Committed(s: State, user: UserId, from: Time): nat {
    Count(s.scans, user, from, Some(from + DAY)) + if s.now <= from + DAY then |Admitted(s, user)| else 0
  }

  ghost predicate WindowsHold(s: State, user: UserId, k: nat) {
    forall from: Time :: Committed(s, user, from) <= s.freePerDay + k - 1
  }

  lemma {:induction false} CountSplits(scans: seq<Scan>, user: UserId, from: Time, to: Option<Time>, earlier: Time)
    requires earlier <= from
    ensures Count(scans, user, from, to) <= Count(scans, user, earlier, None)
  {
    if scans != [] { CountSplits(scans[..|scans| - 1], user, from, to, earlier); }
  }

  lemma CountSnoc(scans: seq<Scan>, scan: Scan, user: UserId, from: Time, to: Option<Time>)
    ensures Count(scans + [scan], user, from, to) ==
            Count(scans, user, from, to) + if Within(scan, user, from, to) then 1 else 0
  {
    assert (scans + [scan])[..|scans|] == scans;
  }

  lemma AdmittedMoves(s: State, user: UserId, pid: Pid, proc: Proc)
    ensures var before := pid in s.procs && IsAdmitted(s.procs[pid], user);
            var after := IsAdmitted(proc, user);
            |Admitted(Moved(s, pid, proc), user)| ==
            |Admitted(s, user)| + (if after then 1 else 0) - (if before then 1 else 0)
  {
    var a, b := Admitted(s, user), Admitted(Moved(s, pid, proc), user);
    if IsAdmitted(proc, user) { assert b == a + {pid}; } else { assert b == a - {pid}; }
  }

  lemma StepKeepsFree(s: State, e: Event, user: UserId)
    requires FreeUser(s, user) && Enabled(s, e) && (e.Spawn? && e.user == user ==> e.plan == Free)
    ensures FreeUser(Step(s, e), user)
  {}

  /** Admission: a window that is still open holds fewer than `limit` scans. */
  lemma AdmitKeepsWindows(s: State, pid: Pid, host: Option<string>, site: SiteId, user: UserId, k: nat)
    requires FreeUser(s, user) && WindowsHold(s, user, k) && Enabled(s, Run(pid, host, site)) && s.procs[pid].Counting?
    requires |Admitted(RunProc(s, pid, host, site), user)| <= k
    ensures WindowsHold(RunProc(s, pid, host, site), user, k)
  {
    var s' := RunProc(s, pid, host, site);
    var proc := s.procs[pid];
    forall from: Time ensures Committed(s', user, from) <= s'.freePerDay + k - 1 {
      assert Committed(s, user, from) <= s.freePerDay + k - 1;
      AdmittedMoves(s, user, pid, s'.procs[pid]);
      if s'.procs[pid].Resolving? && proc.user == user && s.now <= from + DAY {
        CountSplits(s.scans, user, from, Some(from + DAY), proc.since);
      }
    }
  }

  lemma InsertKeepsWindows(s: State, pid: Pid, host: Option<string>, site: SiteId, user: UserId, k: nat)
    requires FreeUser(s, user) && WindowsHold(s, user, k) && Enabled(s, Run(pid, host, site)) && s.procs[pid].Inserting?
    ensures WindowsHold(RunProc(s, pid, host, site), user, k)
  {
    var s' := RunProc(s, pid, host, site);
    forall from: Time ensures Committed(s', user, from) <= s'.freePerDay + k - 1 {
      assert Committed(s, user, from) <= s.freePerDay + k - 1;
      CountSnoc(s.scans, Scan(s.procs[pid].user, s.procs[pid].site, s.now), user, from, Some(from + DAY));
      AdmittedMoves(s, user, pid, s'.procs[pid]);
      assert Admitted(s', user) == Admitted(Moved(s, pid, s'.procs[pid]), user);
    }
  }

  lemma StepKeepsWindows(s: State, e: Event, user: UserId, k: nat)
    requires FreeUser(s, user) && WindowsHold(s, user, k) && Enabled(s, e)
    requires |Admitted(Step(s, e), user)| <= k
    ensures WindowsHold(Step(s, e), user, k)
  {
    var s' := Step(s, e);
    if e.Run? && s.procs[e.pid].Counting? {
      AdmitKeepsWindows(s, e.pid, e.host, e.site, user, k);
    } else if e.Run? && s.procs[e.pid].Inserting? {
      InsertKeepsWindows(s, e.pid, e.host, e.site, user, k);
    } else {
      assert |Admitted(s', user)| <= |Admitted(s, user)| by {
        if e.Tick? {
          assert Admitted(s', user) == Admitted(s, user);
        } else {
          AdmittedMoves(s, user, e.pid, s'.procs[e.pid]);
          assert Admitted(s', user) == Admitted(Moved(s, e.pid, s'.procs[e.pid]), user);
        }
      }
      forall from: Time ensures Committed(s', user, from) <= s'.freePerDay + k - 1 {
        assert Committed(s, user, from) <= s.freePerDay + k - 1;
      }
    }
  }

  // ---------------------------------------------------------------- runs

  ghost predicate Runs(s: State, es: seq<Event>)
    decreases |es|
  {
    es == [] || (Enabled(s, es[0]) && Runs(Step(s, es[0]), es[1..]))
  }

  ghost function Exec(s: State, es: seq<Event>): State
    requires Runs(s, es)
    decreases |es|
  {
    if es == [] then s else Exec(Step(s, es[0]), es[1..])
  }

  /**
    Every request of the user is on the free plan, and never more than k of them are past the check but
    not inserted.
  */
  ghost predicate AtMostInFlight(s: State, es: seq<Event>, user: UserId, k: nat)
    requires Runs(s, es)
    decreases |es|
  {
    |Admitted(s, user)| <= k &&
    (es != [] ==>
       (es[0].Spawn? && es[0].user == user ==> es[0].plan == Free) &&
       AtMostInFlight(Step(s, es[0]), es[1..], user, k))
  }

  lemma {:induction false} RunKeepsWindows(s: State, es: seq<Event>, user: UserId, k: nat)
    requires FreeUser(s, user) && WindowsHold(s, user, k) && Runs(s, es) && AtMostInFlight(s, es, user, k)
    ensures WindowsHold(Exec(s, es), user, k) && Exec(s, es).freePerDay == s.freePerDay
    decreases |es|
  {
    if es != [] {
      StepKeepsFree(s, es[0], user);
      StepKeepsWindows(s, es[0], user, k);
      RunKeepsWindows(Step(s, es[0]), es[1..], user, k);
    }
  }

  /**
    With at most k requests between check and insert at any moment, every 24-hour window of the
    history holds at most limit + k - 1 scans of a free user; serial requests keep to the limit.
  */
  lemma QuotaUnderConcurrency(s: State, es: seq<Event>, user: UserId, k: nat, from: Time)
    requires s.scans == [] && s.procs == map[] && s.freePerDay > 0 && k > 0
    requires Runs(s, es) && AtMostInFlight(s, es, user, k)
    ensures Count(Exec(s, es).scans, user, from, Some(from + DAY)) <= s.freePerDay + k - 1
  {
    RunKeepsWindows(s, es, user, k);
    assert Committed(Exec(s, es), user, from) <= s.freePerDay + k - 1;
  }
}
