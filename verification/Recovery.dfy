/** Taking back claims, and the administrator's operations on whole groups of rows. */
module Recovery {
  import opened Wrappers
  import opened Urls
  import opened Tables
  import opened Frontier

  const RETRY_DELAY_SECS := 30

  /** A taken-back job: dead when its attempts are used up, queued again otherwise. */
  function ReturnedJob(j: Job, now: Time): Job {
    j.(status := if Exhausted(j) then DeadLetter else Queued,
       claimedBy := None, claimedAt := None, lease := None,
       nextRetryAt := if Exhausted(j) then None else Some(now + RETRY_DELAY_SECS))
  }

  /** Takes back the claims of `ids` and gives their slots back to their origins, which also wait a while. */
  function ReturnClaims(db: Db, ids: set<nat>, now: Time): Db {
    db.(jobs := map id | id in db.jobs :: if id in ids then ReturnedJob(db.jobs[id], now) else db.jobs[id],
        origins := map row | row in db.origins ::
          var o, count := db.origins[row], |OnRow(db, ids, row)|;
          if count > 0
          then o.(inFlight := Max(o.inFlight - count, 0), nextAllowedAt := Max(o.nextAllowedAt, now + RETRY_DELAY_SECS))
          else o)
  }

  predicate ClaimedBefore(j: Job, cutoff: Time) {
    j.claimedAt.Some? && j.claimedAt.value < cutoff
  }

  function StaleClaims(db: Db, cutoff: Time): set<nat> {
    set id | id in db.jobs && db.jobs[id].status.Claimed? && ClaimedBefore(db.jobs[id], cutoff)
  }

  function StaleIngests(db: Db, cutoff: Time): set<nat> {
    set id | id in db.jobs && db.jobs[id].status.Ingesting? && ClaimedBefore(db.jobs[id], cutoff)
  }

  function RequeueStaleJobs(db: Db, now: Time, timeout: nat): Db {
    ReturnClaims(db, StaleClaims(db, now - timeout), now)
  }

  /** The unfinished items of the leases that `ids` are held under are failed. */
  function FailedItems(items: map<(nat, nat), Item>, jobs: map<nat, Job>, ids: set<nat>): map<(nat, nat), Item>
    requires ids <= jobs.Keys
  {
    map key | key in items ::
      if key.1 in ids && jobs[key.1].lease == Some(key.0)
          && (items[key].status.Pending? || items[key].status.Processing?)
      then items[key].(status := ItemFailed) else items[key]
  }

  /** Also fails the unfinished items of the recovered claims. */
  function RecoverStaleIngestingJobs(db: Db, now: Time, timeout: nat): Db {
    var stale := StaleIngests(db, now - timeout);
    ReturnClaims(db, stale, now).(items := FailedItems(db.items, db.jobs, stale))
  }

  function ClaimsOf(db: Db, owner: string, crawler: string): set<nat> {
    set id | id in db.jobs && db.jobs[id].owner == owner && db.jobs[id].claimedBy == Some(crawler)
        && db.jobs[id].status.Claimed?
  }

  /** Deleting an offline crawler takes back its claimed jobs; those already ingesting go on. */
  function ReleaseClaimedJobs(db: Db, owner: string, crawler: string, now: Time): Db {
    ReturnClaims(db, ClaimsOf(db, owner, crawler), now)
  }

  /** The administrator revives failed and dead jobs. Attempts are not reset. */
  function RetryFailedJobs(db: Db, owner: string): Db {
    db.(jobs := map id | id in db.jobs ::
          var j := db.jobs[id];
          if j.owner == owner && (j.status.Failed? || j.status.DeadLetter?)
          then j.(status := Queued, claimedBy := None, claimedAt := None, lease := None, nextRetryAt := None,
                  finalUrl := None, adminRetries := j.adminRetries + 1)
          else j)
  }

  function DeleteJobs(db: Db, ids: set<nat>): Db {
    db.(jobs := map id | id in db.jobs && id !in ids :: db.jobs[id])
  }

  lemma DeletedCount(db: Db, ids: set<nat>)
    requires ids <= db.jobs.Keys
    ensures |DeleteJobs(db, ids).jobs| == |db.jobs| - |ids|
  {
    assert DeleteJobs(db, ids).jobs.Keys == db.jobs.Keys - ids;
    assert |DeleteJobs(db, ids).jobs.Keys| == |DeleteJobs(db, ids).jobs|;
  }

  function CleanupCompletedJobs(db: Db, owner: string): Db {
    DeleteJobs(db, set id | id in db.jobs && db.jobs[id].owner == owner && db.jobs[id].status.Succeeded?)
  }

  function CleanupFailedJobs(db: Db, owner: string): Db {
    DeleteJobs(db, set id | id in db.jobs && db.jobs[id].owner == owner && Terminal(db.jobs[id])
        && !db.jobs[id].status.Succeeded?)
  }

  function UnfinishedOf(db: Db, owner: string): set<nat> {
    set id | id in db.jobs && db.jobs[id].owner == owner && !Terminal(db.jobs[id])
  }

  /** The second statement of a stop. */
  function ResetOrigins(db: Db, owner: string, now: Time): Db {
    db.(origins := map row | row in db.origins :: if row.0 == owner then Origin(now, 0, 0) else db.origins[row])
  }

  /** The first statement of a stop removes all of an owner's unfinished jobs. The slots of the active ones stay
      counted until the second statement. */
  function DeleteUnfinished(db: Db, owner: string): Db {
    DeleteJobs(db, UnfinishedOf(db, owner)).(origins := map row | row in db.origins ::
      if row.0 == owner then db.origins[row].(leaked := db.origins[row].leaked + |ActiveOn(db, row)|)
      else db.origins[row])
  }

  /** The host a row is filed under: its final URL if it has one, else its own. */
  predicate JobOnDomain(j: Job, domain: string) {
    UrlMatchesDomains(if j.finalUrl.Some? then j.finalUrl.value else Some(j.url), [domain])
  }

  function InactiveOn(db: Db, domain: string): set<nat> {
    set id | id in db.jobs && JobOnDomain(db.jobs[id], domain) && !Active(db.jobs[id])
  }

  function DropUnusedOrigins(db: Db, domain: string): Db {
    db.(origins := map row | row in db.origins &&
          !(HostMatchesScope(row.1.host, domain, SameDomain) && forall id <- db.jobs :: OriginRow(db.jobs[id]) != row)
        :: db.origins[row])
  }

  /** A blacklisted domain loses its inactive jobs, and then the origins that no job uses. */
  function DeleteDomainJobs(db: Db, domain: string): Db {
    DeleteJobs(db, InactiveOn(db, domain))
  }

  // ---- what a maintenance pass achieves ---------------------------------

  /** Active jobs always know who claimed them, when, and under which lease; queued jobs know none of the three. */
  predicate ClaimColumns(j: Job) {
    && (Active(j) ==> j.claimedBy.Some? && j.claimedAt.Some? && j.lease.Some?)
    && (j.status.Queued? ==> j.claimedBy.None? && j.claimedAt.None? && j.lease.None?)
  }

  /** After both recovery passes at one time no active claim is older than the timeout. The older ones, and only
      those, were taken back: dead exactly when their attempts were used up, queued again otherwise. */
  lemma MaintenanceClearsStaleness(db: Db, now: Time, timeout: nat)
    requires forall id <- db.jobs :: ClaimColumns(db.jobs[id])
    ensures var after := RecoverStaleIngestingJobs(RequeueStaleJobs(db, now, timeout), now, timeout);
      && after.jobs.Keys == db.jobs.Keys
      && (forall id <- after.jobs ::
          Active(after.jobs[id]) ==> after.jobs[id].claimedAt.Some? && after.jobs[id].claimedAt.value >= now - timeout)
      && (forall id <- db.jobs ::
            if Active(db.jobs[id]) && db.jobs[id].claimedAt.Some? && db.jobs[id].claimedAt.value + timeout < now
            then after.jobs[id].status ==
                   (if Max(db.jobs[id].maxAttempts, 1) <= Max(db.jobs[id].attempts, 1) then DeadLetter else Queued)
                 && after.jobs[id].lease.None? && after.jobs[id].attempts == db.jobs[id].attempts
            else after.jobs[id] == db.jobs[id])
  {
    var mid := RequeueStaleJobs(db, now, timeout);
    forall id | id in db.jobs
      ensures id in StaleIngests(mid, now - timeout) <==> id in StaleIngests(db, now - timeout)
    {
    }
  }
}
