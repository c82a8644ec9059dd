/** `scan-service.ts` run serially: one request on the scans and websites tables. */
module ScanService {
  import opened Options
  import opened ScanQuota
  import opened TokenRows

  datatype RequestError = RateLimited(limit: nat, used: nat) | Unresolvable

  datatype RequestResult = Queued(scan: Scan) | NotQueued(error: RequestError)

  class ScanService {
    var scans: seq<Scan>
    var sites: map<string, SiteId>
    const freePerDay: nat

    constructor (freePerDay: nat)
      ensures scans == [] && sites == map[] && this.freePerDay == freePerDay
    {
      scans, sites := [], map[];
      this.freePerDay := freePerDay;
    }

    method ScansToday(user: UserId, now: Time) returns (n: nat)
      ensures n == Count(scans, user, now - DAY, None)
      ensures n == |set i: nat | i < |scans| && scans[i].requestedBy == user && now - 86_400_000 <= scans[i].queuedAt|
    {
      var since := now - DAY;
      n := 0;
      for i := 0 to |scans|
        invariant n == Count(scans[..i], user, since, None)
      {
        assert scans[..i + 1] == scans[..i] + [scans[i]];
        CountSnoc(scans[..i], scans[i], user, since, None);
        if scans[i].requestedBy == user && since <= scans[i].queuedAt { n := n + 1; }
      }
      assert scans[..|scans|] == scans;
      CountIsNumber(scans, user, since, None);
      assert Positions(scans, user, since, None)
          == set i: nat | i < |scans| && scans[i].requestedBy == user && now - 86_400_000 <= scans[i].queuedAt;
    }

    method AssertScanQuota(user: UserId, plan: Plan, now: Time) returns (error: Option<RequestError>)
      ensures error.None? <==> plan == Free ==> Count(scans, user, now - DAY, None) < freePerDay
      ensures error.Some? ==> error.value == RateLimited(freePerDay, Count(scans, user, now - DAY, None))
    {
      var limit := DailyScanLimit(plan, freePerDay);
      if limit.None? { return None; }
      var used := ScansToday(user, now);
      if limit.value <= used { return Some(RateLimited(limit.value, used)); }
      return None;
    }

    /** A host keeps the row it got on first sight. */
    method UpsertWebsite(host: string, spare: SiteId) returns (site: SiteId)
      modifies this`sites
      ensures host in sites && sites[host] == site
      ensures sites == if host in old(sites) then old(sites) else old(sites)[host := spare]
    {
      if host !in sites { sites := sites[host := spare]; }
      site := sites[host];
    }

    method RequestScan(target: Option<string>, user: UserId, plan: Plan, now: Time, spare: SiteId)
      returns (result: RequestResult)
      modifies this`scans, this`sites
      ensures result.Queued? <==>
              target.Some? && (plan == Free ==> Count(old(scans), user, now - DAY, None) < freePerDay)
      ensures result.Queued? ==>
                && scans == old(scans) + [result.scan]
                && target.value in sites && result.scan == Scan(user, sites[target.value], now)
                && sites == if target.value in old(sites) then old(sites) else old(sites)[target.value := spare]
      ensures result.NotQueued? ==> scans == old(scans) && sites == old(sites)
      ensures result.NotQueued? ==>
                var used := Count(old(scans), user, now - DAY, None);
                result.error ==
                if plan == Free && freePerDay <= used then RateLimited(freePerDay, used) else Unresolvable
    {
      var refused := AssertScanQuota(user, plan, now);
      if refused.Some? { return NotQueued(refused.value); }
      if target.None? { return NotQueued(Unresolvable); }
      var site := UpsertWebsite(target.value, spare);
      var scan := Scan(user, site, now);
      scans := scans + [scan];
      result := Queued(scan);
    }
  }
}
