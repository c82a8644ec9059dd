/**
  The bound limit + k - 1 on a 24-hour window cannot be improved: for every limit and k some run reaches
  it.
*/
module QuotaIsExact {
  import opened Options
  import opened ScanQuota
  import opened TokenRows
  import opened FiniteSets

  /** Everything happened just now, for this user, and the admitted requests all wait for DNS. */
  ghost predicate Now(s: State, user: UserId) {
    (forall i | 0 <= i < |s.scans| :: s.scans[i].requestedBy == user && s.scans[i].queuedAt == s.now) &&
    (forall p <- s.procs :: s.procs[p] == Resolving(user) || s.procs[p].Finished?)
  }

  /** The run from `s` along `es` respects k and ends in `s'`. */
  ghost predicate Leads(s: State, es: seq<Event>, user: UserId, k: nat, s': State) {
    Runs(s, es) && AtMostInFlight(s, es, user, k) && Exec(s, es) == s'
  }

  lemma {:induction false} LeadsOn(s: State, es: seq<Event>, mid: State, more: seq<Event>, user: UserId, k: nat,
      s': State)
    requires Leads(s, es, user, k, mid) && Leads(mid, more, user, k, s')
    ensures Leads(s, es + more, user, k, s')
    decreases |es|
  {
    if es == [] {
      assert es + more == more;
    } else {
      assert (es + more)[0] == es[0] && (es + more)[1..] == es[1..] + more;
      LeadsOn(Step(s, es[0]), es[1..], mid, more, user, k, s');
    }
  }

  lemma {:induction false} CountAll(scans: seq<Scan>, user: UserId, from: Time, to: Option<Time>)
    requires forall i | 0 <= i < |scans| :: Within(scans[i], user, from, to)
    ensures Count(scans, user, from, to) == |scans|
  {
    if scans != [] { CountAll(scans[..|scans| - 1], user, from, to); }
  }

  /** One more request passes the check. */
  lemma Admit(s: State, user: UserId, k: nat) returns (es: seq<Event>, s': State)
    requires Now(s, user) && |s.scans| < s.freePerDay && |Admitted(s, user)| < k
    ensures Leads(s, es, user, k, s') && Now(s', user)
    ensures s'.scans == s.scans && s'.freePerDay == s.freePerDay && s'.now == s.now
    ensures |Admitted(s', user)| == |Admitted(s, user)| + 1
  {
    var pid := SomeUnused(s.procs.Keys);
    var site := SomeUnused(s.sites.Values);
    es := [Spawn(pid, user, Free), Run(pid, None, site)];
    var counting := Counting(user, Free, s.now - DAY);
    var s1 := Moved(s, pid, counting);
    CountAll(s.scans, user, s.now - DAY, None);
    s' := Moved(s1, pid, Resolving(user));
    assert Step(s1, es[1]) == s';
    AdmittedMoves(s, user, pid, counting);
    AdmittedMoves(s1, user, pid, Resolving(user));
    assert es[1..] == [es[1]] && es[1..][1..] == [];
    assert Leads(s', [], user, k, s');
    assert Leads(s1, [es[1]], user, k, s') by { assert [es[1]][1..] == []; }
  }

  /** An admitted request goes through to its insert. */
  lemma Insert(s: State, user: UserId, k: nat) returns (es: seq<Event>, s': State)
    requires Now(s, user) && 0 < |Admitted(s, user)| <= k
    ensures Leads(s, es, user, k, s') && Now(s', user)
    ensures |s'.scans| == |s.scans| + 1 && s'.freePerDay == s.freePerDay && s'.now == s.now
    ensures |Admitted(s', user)| == |Admitted(s, user)| - 1
  {
    var pid :| pid in Admitted(s, user);
    var site := SomeUnused(s.sites.Values);
    var s1 := Moved(s, pid, Storing(user, "h"));
    var s2 := RunProc(s1, pid, None, site);
    var site2 := SomeUnused(s2.sites.Values);
    s' := RunProc(s2, pid, None, site2);
    es := [Run(pid, Some("h"), site), Run(pid, None, site), Run(pid, None, site2)];
    AdmittedMoves(s, user, pid, Storing(user, "h"));
    AdmittedMoves(s1, user, pid, s2.procs[pid]);
    assert Admitted(s2, user) == Admitted(Moved(s1, pid, s2.procs[pid]), user);
    AdmittedMoves(s2, user, pid, Finished(true));
    assert Admitted(s', user) == Admitted(Moved(s2, pid, Finished(true)), user);
    assert Leads(s', [], user, k, s');
    assert Leads(s2, [es[2]], user, k, s') by { assert [es[2]][1..] == []; }
    assert Leads(s1, [es[1], es[2]], user, k, s') by { assert [es[1], es[2]][1..] == [es[2]]; }
    assert es[1..] == [es[1], es[2]];
  }

  lemma {:induction false} AdmitMany(s: State, user: UserId, k: nat, n: nat) returns (es: seq<Event>, s': State)
    requires Now(s, user) && |s.scans| < s.freePerDay && |Admitted(s, user)| + n <= k
    ensures Leads(s, es, user, k, s') && Now(s', user)
    ensures s'.scans == s.scans && s'.freePerDay == s.freePerDay && s'.now == s.now
    ensures |Admitted(s', user)| == |Admitted(s, user)| + n
    decreases n
  {
    if n == 0 {
      es, s' := [], s;
    } else {
      var first, mid := Admit(s, user, k);
      var rest;
      rest, s' := AdmitMany(mid, user, k, n - 1);
      es := first + rest;
      LeadsOn(s, first, mid, rest, user, k, s');
    }
  }

  lemma {:induction false} InsertMany(s: State, user: UserId, k: nat) returns (es: seq<Event>, s': State)
    requires Now(s, user) && |Admitted(s, user)| <= k
    ensures Leads(s, es, user, k, s') && Now(s', user)
    ensures |s'.scans| == |s.scans| + |Admitted(s, user)| && s'.freePerDay == s.freePerDay && s'.now == s.now
    ensures |Admitted(s', user)| == 0
    decreases |Admitted(s, user)|
  {
    if |Admitted(s, user)| == 0 {
      es, s' := [], s;
    } else {
      var first, mid := Insert(s, user, k);
      var rest;
      rest, s' := InsertMany(mid, user, k);
      es := first + rest;
      LeadsOn(s, first, mid, rest, user, k, s');
    }
  }

  /** Requests one at a time, up to one short of the limit. */
  lemma {:induction false} Serial(s: State, user: UserId, k: nat, n: nat) returns (es: seq<Event>, s': State)
    requires Now(s, user) && Admitted(s, user) == {} && 0 < k && |s.scans| + n < s.freePerDay
    ensures Leads(s, es, user, k, s') && Now(s', user)
    ensures |s'.scans| == |s.scans| + n && s'.freePerDay == s.freePerDay && s'.now == s.now && Admitted(s', user) == {}
    decreases n
  {
    if n == 0 {
      es, s' := [], s;
    } else {
      var a, m1 := Admit(s, user, k);
      var b, m2 := Insert(m1, user, k);
      LeadsOn(s, a, m1, b, user, k, m2);
      var rest;
      rest, s' := Serial(m2, user, k, n - 1);
      es := (a + b) + rest;
      LeadsOn(s, a + b, m2, rest, user, k, s');
    }
  }

  /**
    From empty tables, some run with at most k requests in flight puts limit + k - 1 scans into one
    window.
  */
  lemma BoundIsReached(s: State, user: UserId, k: nat) returns (es: seq<Event>)
    requires s.scans == [] && s.procs == map[] && s.freePerDay > 0 && k > 0
    ensures Runs(s, es) && AtMostInFlight(s, es, user, k)
    ensures Count(Exec(s, es).scans, user, s.now, Some(s.now + DAY)) == s.freePerDay + k - 1
  {
    assert Admitted(s, user) == {};
    var a, m1 := Serial(s, user, k, s.freePerDay - 1);
    var b, m2 := AdmitMany(m1, user, k, k);
    var c, m3 := InsertMany(m2, user, k);
    LeadsOn(s, a, m1, b, user, k, m2);
    LeadsOn(s, a + b, m2, c, user, k, m3);
    es := (a + b) + c;
    CountAll(m3.scans, user, s.now, Some(s.now + DAY));
  }
}
