/** What becomes of a job when a result is applied to it, said of the result and the columns of the row alone. */
module Verdicts {
  import opened Wrappers
  import opened Urls
  import opened Tables
  import opened Enqueue
  import opened Outcome
  import opened Projection
  import opened Protocol
  import opened JobInvariants

  // ---- the kinds of results ---------------------------------------------

  /** The page, or where it redirected to, is on a blacklisted domain. */
  predicate Listed(r: CrawlResult, blacklist: seq<string>) {
    OnDomains(Some(r.url), blacklist) || (r.finalUrl.Some? && OnDomains(r.finalUrl.value, blacklist))
  }

  predicate Plain(r: CrawlResult) {
    200 <= r.statusCode < 300 && r.errorKind.None?
  }

  predicate Gone(r: CrawlResult) {
    r.statusCode in {404, 410}
  }

  predicate Refused(r: CrawlResult) {
    && (r.statusCode in {401, 403} || r.errorKind in {Some(RobotsKind), Some(BlockedKind), Some(RobotsBlockedKind)})
    && r.statusCode !in {304, 404, 410}
  }

  /** Nothing to index, but no failure. */
  predicate SkippedPage(r: CrawlResult) {
    || r.statusCode == 304
    || (Plain(r) && r.llmShouldIndex == Some(false))
    || (200 <= r.statusCode < 300
        && r.errorKind in {Some(BlacklistedDomain), Some(SiteProfileFiltered), Some(PageNoindex)})
  }

  predicate Indexed(r: CrawlResult) {
    Plain(r) && r.llmShouldIndex != Some(false) && r.indexable
  }

  predicate AsksForRenderer(r: CrawlResult) {
    r.errorKind == Some(RequiresJsRender) && r.statusCode !in {304, 401, 403, 404, 410}
  }

  /** None of these. */
  predicate Failure(r: CrawlResult) {
    !Plain(r) && !Gone(r) && !Refused(r) && !SkippedPage(r) && !AsksForRenderer(r)
  }

  predicate WorthRetrying(r: CrawlResult) {
    if r.retryable.Some? then r.retryable.value else r.statusCode in {408, 425, 429} || r.statusCode >= 500
  }

  predicate TriesLeft(j: Job) {
    j.attempts < j.maxAttempts && 1 < j.maxAttempts
  }

  /** The wait before the next try, by the tries so far. */
  function RetryWait(attempts: nat): int {
    if attempts <= 1 then 30 else if attempts == 2 then 120 else 300
  }

  /** Row k is what row j becomes by the result: its status, when and how it may be tried again, and where its page was
      found. Nothing else of the row changes, except that a queued one is held by nobody. */
  predicate Judged(j: Job, r: CrawlResult, blacklist: seq<string>, clock: Time, k: Job) {
    var listed, failure := Listed(r, blacklist), Failure(r);
    && (k.status.Succeeded? <==> listed || SkippedPage(r) || Indexed(r))
    && (k.status.Blocked? <==> !listed && Refused(r))
    && (k.status.Failed? <==> !listed && (Gone(r) || (Plain(r) && !SkippedPage(r) && !Indexed(r))
                                          || (failure && !WorthRetrying(r))))
    && (k.status.DeadLetter? <==> !listed && failure && WorthRetrying(r) && !TriesLeft(j))
    && (k.status.Queued? <==> !listed && (AsksForRenderer(r) || (failure && WorthRetrying(r) && TriesLeft(j))))
    && k.nextRetryAt == (if k.status.Queued? && failure then Some(clock + RetryWait(j.attempts)) else None)
    && k.requiresJs == (j.requiresJs || (k.status.Queued? && AsksForRenderer(r)))
    && k.finalUrl == Some(if r.finalUrl.Some? then r.finalUrl.value else Some(r.url))
    && k.attempts == j.attempts && SameRow(j, k)
    && (if k.status.Queued? then Unclaimed(k)
        else k.claimedBy == j.claimedBy && k.claimedAt == j.claimedAt && k.lease == j.lease)
  }

  lemma BlacklistedIff(r: CrawlResult, blacklist: seq<string>)
    ensures PageBlacklisted(r, blacklist) <==> Listed(r, blacklist)
  {
    MatchesDomainsIff(Some(r.url), blacklist);
    MatchesDomainsIff(FinalizedUrl(r), blacklist);
  }

  lemma WriteIsJudged(j: Job, r: CrawlResult, blacklist: seq<string>, clock: Time)
    ensures Judged(j, r, blacklist, clock, WriteOutcome(j, r, OutcomeOf(j, r, clock, blacklist)))
  {
    BlacklistedIff(r, blacklist);
    OutcomeTable(r, j, clock);
  }

  /** An apply, whole or cut short, judges its job by the staged result, and leaves every other row as it was. */
  lemma ApplyJudges(db: Db, e: Event, id: nat)
    requires IdsBelow(db) && (e.ApplyItem? || e.ApplyStops?) && CanApply(db, e.key) && id in db.jobs
    ensures id in After(db, e).jobs
    ensures if id == e.key.1
            then Judged(db.jobs[id], db.items[e.key].result, e.blacklist, e.clock, After(db, e).jobs[id])
            else After(db, e).jobs[id] == db.jobs[id]
  {
    ApplyTouchesOne(db, e, id);
    WriteIsJudged(db.jobs[e.key.1], db.items[e.key].result, e.blacklist, e.clock);
  }

  // ---- the wait of an origin --------------------------------------------

  /** A wait of w seconds is long enough: a second, the crawl delay, Retry-After, and what the failure calls for. */
  predicate WaitsEnough(r: CrawlResult, w: int) {
    var server := 500 <= r.statusCode <= 599;
    && w >= 1
    && (r.crawlDelay.Some? ==> w >= r.crawlDelay.value)
    && (r.retryAfter.Some? ==> w >= r.retryAfter.value)
    && (r.statusCode == 429 ==> w >= 30)
    && (server ==> w >= 60)
    && (r.statusCode != 429 && !server && r.errorKind == Some(NetworkError) ==> w >= 45)
    && (r.statusCode != 429 && !server && r.errorKind == Some(RobotsKind) ==> w >= 300)
  }

  /** The wait is the shortest that is long enough. */
  lemma WaitIsLeast(r: CrawlResult, w: int)
    ensures WaitsEnough(r, w) <==> OriginWait(r) <= w
  {
  }

  /** The origins whose wait an apply sets: the requested one, and the redirect's if every write succeeds. */
  predicate Told(db: Db, e: Event, row: (string, OriginKey))
    requires (e.ApplyItem? || e.ApplyStops?) && CanApply(db, e.key)
  {
    var j, r := db.jobs[e.key.1], db.items[e.key].result;
    var found := if r.finalUrl.Some? then r.finalUrl.value else Some(r.url);
    && row.0 == j.owner
    && ((row.1 == j.origin && !(e.ApplyStops? && e.fault.AfterChildren?))
        || (e.ApplyItem? && found.Some? && OriginOf(found.value) == Some(row.1)))
  }

  /** An origin that is open at time t. */
  predicate OpenAt(db: Db, row: (string, OriginKey), t: Time) {
    row in db.origins && db.origins[row].nextAllowedAt <= t
  }

  lemma UpdateOpensIff(db: Db, other: (string, OriginKey), ready: Time, row: (string, OriginKey), t: Time)
    requires row in db.origins
    ensures OpenAt(UpdateRequested(db, other, ready), row, t) <==> OpenAt(db, row, t) && (row == other ==> ready <= t)
    ensures OpenAt(UpdateFinal(db, other, ready), row, t) <==> OpenAt(db, row, t) && (row == other ==> ready <= t)
    ensures row in UpdateRequested(db, other, ready).origins && row in UpdateFinal(db, other, ready).origins
  {
  }

  lemma FinalRowIff(j: Job, r: CrawlResult, row: (string, OriginKey))
    ensures row == OriginRow(j) || FinalRow(j, r) == Some(row) <==>
      var found := if r.finalUrl.Some? then r.finalUrl.value else Some(r.url);
      row.0 == j.owner && (row.1 == j.origin || (found.Some? && OriginOf(found.value) == Some(row.1)))
  {
  }

  lemma UpdatesOpenIff(db: Db, j: Job, r: CrawlResult, now: Time, row: (string, OriginKey), t: Time)
    requires row in db.origins
    ensures OpenAt(UpdateOrigins(db, j, r, now), row, t) <==>
      OpenAt(db, row, t) && (row == OriginRow(j) || FinalRow(j, r) == Some(row) ==> OriginReadyAt(now, r) <= t)
  {
    var ready := OriginReadyAt(now, r);
    UpdateOpensIff(db, OriginRow(j), ready, row, t);
    if FinalRow(j, r).Some? {
      UpdateOpensIff(UpdateRequested(db, OriginRow(j), ready), FinalRow(j, r).value, ready, row, t);
    }
  }

  /** After an apply an origin is open at time t exactly if it was before and, when it is told, the wait is over. */
  lemma ApplyOpensIff(db: Db, e: Event, row: (string, OriginKey), t: Time)
    requires IdsBelow(db) && (e.ApplyItem? || e.ApplyStops?) && CanApply(db, e.key) && row in db.origins
    ensures OpenAt(After(db, e), row, t) <==>
      OpenAt(db, row, t) && (Told(db, e, row) ==> WaitsEnough(db.items[e.key].result, t - e.now))
  {
    var j, r := db.jobs[e.key.1], db.items[e.key].result;
    SpreadKeepsOrigin(db, e, row);
    WaitIsLeast(r, t - e.now);
    FinalRowIff(j, r, row);
    if e.ApplyItem? {
      assert After(db, e) == UpdateOrigins(Spread(db, e), j, r, e.now);
      UpdatesOpenIff(Spread(db, e), j, r, e.now, row, t);
    } else if e.fault.BetweenOrigins? {
      UpdateOpensIff(Spread(db, e), OriginRow(j), OriginReadyAt(e.now, r), row, t);
      assert After(db, e) == UpdateRequested(Spread(db, e), OriginRow(j), OriginReadyAt(e.now, r));
    } else {
      assert After(db, e) == Leak(Spread(db, e), OriginRow(j));
    }
  }

  lemma SpreadKeepsOrigin(db: Db, e: Event, row: (string, OriginKey))
    requires IdsBelow(db) && (e.ApplyItem? || e.ApplyStops?) && CanApply(db, e.key) && row in db.origins
    ensures row in Spread(db, e).origins && Spread(db, e).origins[row] == db.origins[row]
  {
    var j := db.jobs[e.key.1];
    var written, req := WriteStatus(db, e.key, e.clock, e.blacklist), ChildRequest(j);
    EnqueueFromEffect(written, req, AppliedLinks(db, e), |BudgetJobs(written, req.owner, req.budget)|, e.blacklist,
        e.stamps);
  }
}
