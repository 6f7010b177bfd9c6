/** How a reported result is judged: the fate of the job and the wait it imposes on its origin. */
module Outcome {
  import opened Wrappers
  import opened Urls
  import opened Tables

  datatype JobOutcome =
    | SucceededPage
    | FilteredPage
    | Retryable(at: Time)
    | RequiresJs
    | BlockedPage
    | FailedPage
    | RetriesExhausted
    | Gone

  function InferFailureKind(status: nat): ErrorKind {
    if status == 599 then NetworkError
    else if status == 401 || status == 403 then BlockedKind
    else OtherKind
  }

  predicate IsRetryableStatus(status: nat) {
    status == 408 || status == 425 || status == 429 || status == 599 || status >= 500
  }

  predicate IsBlockedResult(status: nat, kind: ErrorKind) {
    status == 401 || status == 403 || kind.RobotsKind? || kind.BlockedKind? || kind.RobotsBlockedKind?
  }

  predicate IsSuccessStatus(status: nat) {
    200 <= status < 300
  }

  predicate IsFiltered(r: CrawlResult) {
    IsSuccessStatus(r.statusCode) &&
    match r.errorKind
    case Some(k) => k.BlacklistedDomain? || k.SiteProfileFiltered? || k.PageNoindex?
    case None => r.llmShouldIndex == Some(false)
  }

  function BackoffSeconds(attempt: int): int {
    if attempt <= 1 then 30 else if attempt == 2 then 120 else 300
  }

  /** `clock` is the time read when the retry is scheduled. */
  function Classify(r: CrawlResult, j: Job, clock: Time): JobOutcome {
    var kind := if r.errorKind.Some? then r.errorKind.value else InferFailureKind(r.statusCode);
    var retryable := if r.retryable.Some? then r.retryable.value else IsRetryableStatus(r.statusCode);
    var attempt := Max(j.attempts, 1);
    if r.statusCode == 304 then FilteredPage
    else if IsFiltered(r) then FilteredPage
    else if IsSuccessStatus(r.statusCode) && r.errorKind.None? then
      if r.indexable then SucceededPage else FailedPage
    else if r.statusCode == 404 || r.statusCode == 410 then Gone
    else if IsBlockedResult(r.statusCode, kind) then BlockedPage
    else if r.errorKind == Some(RequiresJsRender) then RequiresJs
    else if retryable then
      if attempt < EffectiveAttempts(j) then Retryable(clock + BackoffSeconds(attempt)) else RetriesExhausted
    else FailedPage
  }

  /** A retry is granted exactly to a retryable failure with attempts left, a dead letter exactly to one without. */
  lemma RetryOnlyWithAttemptsLeft(r: CrawlResult, j: Job, clock: Time)
    ensures Classify(r, j, clock).Retryable? ==> Max(j.attempts, 1) < EffectiveAttempts(j)
    ensures Classify(r, j, clock).RetriesExhausted? ==> Exhausted(j)
    ensures Classify(r, j, clock).RequiresJs? ==> r.errorKind == Some(RequiresJsRender)
  {
  }

  /** The whole decision table: which results lead to which outcome, for every status and kind of error. */
  lemma OutcomeTable(r: CrawlResult, j: Job, clock: Time)
    ensures var o, s, kind := Classify(r, j, clock), r.statusCode, r.errorKind;
      var plain := 200 <= s < 300 && kind.None?;
      var blocked := s in {401, 403} || kind in {Some(RobotsKind), Some(BlockedKind), Some(RobotsBlockedKind)};
      var skipped := 200 <= s < 300 && kind in {Some(BlacklistedDomain), Some(SiteProfileFiltered), Some(PageNoindex)};
      var retry := r.retryable == Some(true) || (r.retryable.None? && (s in {408, 425, 429} || s >= 500));
      var open := !plain && !skipped && s !in {304, 404, 410} && !blocked && kind != Some(RequiresJsRender);
      && (o.FilteredPage? <==> s == 304 || skipped || (plain && r.llmShouldIndex == Some(false)))
      && (o.SucceededPage? <==> plain && r.llmShouldIndex != Some(false) && r.indexable)
      && (o.Gone? <==> s in {404, 410})
      && (o.BlockedPage? <==> blocked && s !in {304, 404, 410})
      && (o.RequiresJs? <==> kind == Some(RequiresJsRender) && s !in {304, 401, 403, 404, 410})
      && (o.Retryable? <==> open && retry && Max(j.attempts, 1) < EffectiveAttempts(j))
      && (o.RetriesExhausted? <==> open && retry && Exhausted(j))
      && (o.FailedPage? <==> (plain && r.llmShouldIndex != Some(false) && !r.indexable) || (open && !retry))
      && (o.Retryable? ==> o.at - clock in {30, 120, 300} && (j.attempts <= 1 <==> o.at == clock + 30)
                           && (j.attempts == 2 <==> o.at == clock + 120))
  {
  }

  function OriginWait(r: CrawlResult): int {
    var delay := Max(if r.crawlDelay.Some? then r.crawlDelay.value else 1, 1);
    var retryAfter := if r.retryAfter.Some? then r.retryAfter.value else 0;
    var extra :=
      if r.statusCode == 429 then Max(retryAfter, 30)
      else if 500 <= r.statusCode <= 599 then Max(retryAfter, 60)
      else if r.errorKind == Some(NetworkError) then 45
      else if r.errorKind == Some(RobotsKind) then 300
      else 0;
    Max(Max(delay, retryAfter), extra)
  }

  function OriginReadyAt(now: Time, r: CrawlResult): Time {
    now + OriginWait(r)
  }

  /** The wait covers the crawl delay and Retry-After and has a floor per kind of failure. It is the largest of
      those numbers and nothing more, and a robots block reported with status 599 gets the 5xx floor, never 300. */
  lemma WaitFloors(r: CrawlResult)
    ensures OriginWait(r) >= 1
    ensures r.crawlDelay.Some? ==> OriginWait(r) >= r.crawlDelay.value
    ensures r.retryAfter.Some? ==> OriginWait(r) >= r.retryAfter.value
    ensures r.statusCode == 429 ==> OriginWait(r) >= 30
    ensures 500 <= r.statusCode <= 599 ==> OriginWait(r) >= 60
    ensures r.errorKind == Some(RobotsKind) && r.statusCode == 599 && r.crawlDelay.None? && r.retryAfter.None?
            ==> OriginWait(r) == 60
    ensures OriginWait(r) in {1, 30, 45, 60, 300}
         || r.crawlDelay == Some(OriginWait(r)) || r.retryAfter == Some(OriginWait(r))
  {
  }

  function FinalizedUrl(r: CrawlResult): Link {
    match r.finalUrl
    case Some(l) => l
    case None => Some(r.url)
  }

  /** The row after the status write of an applied result. */
  function WriteOutcome(j: Job, r: CrawlResult, o: JobOutcome): Job {
    var done := j.(nextRetryAt := None, finalUrl := Some(FinalizedUrl(r)));
    var released := done.(status := Queued, claimedBy := None, claimedAt := None, lease := None);
    match o
    case SucceededPage => done.(status := Succeeded)
    case FilteredPage => done.(status := Succeeded)
    case Retryable(at) => released.(nextRetryAt := Some(at))
    case RequiresJs => released.(requiresJs := true, jsRequeues := j.jsRequeues + 1)
    case BlockedPage => done.(status := Blocked)
    case FailedPage => done.(status := Failed)
    case RetriesExhausted => done.(status := DeadLetter)
    case Gone => done.(status := Failed)
  }
}
