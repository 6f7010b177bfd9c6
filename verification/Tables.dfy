/** The tables that the schedulers, task APIs, projectors and crawlers share, as one value.

    A few columns are history only and decide nothing: `jsRequeues`, `adminRetries` and `claimJs` of a job, `leaked` of
    an origin, and the table `owed`. */
module Tables {
  import opened Wrappers
  import opened Urls

  /** Seconds on one clock. */
  type Time = int

  datatype Status = Queued | Claimed | Ingesting | Succeeded | Failed | Blocked | DeadLetter

  datatype Job = Job(
    owner: string,
    url: Url,
    origin: OriginKey,
    depth: int,
    maxDepth: int,
    maxAttempts: int,
    budget: nat,
    maxPages: int,
    scope: Scope,
    anchor: Option<string>,
    concurrency: int,
    maxDiscovered: int,
    priority: int,
    discoveredAt: Time,
    attempts: nat,
    nextRetryAt: Option<Time>,
    requiresJs: bool,
    finalUrl: Option<Link>,
    status: Status,
    claimedBy: Option<string>,
    claimedAt: Option<Time>,
    lease: Option<nat>,
    claimJs: bool,       // history: whether the crawler of the last claim renders JavaScript
    jsRequeues: nat,     // history: times a report asked for a JavaScript renderer
    adminRetries: nat)   // history: times an administrator revived the job

  /** `leaked` counts the slots whose job is settled or gone without giving them back (history only). */
  datatype Origin = Origin(nextAllowedAt: Time, inFlight: int, leaked: nat)

  datatype ErrorKind =
    | BlacklistedDomain | SiteProfileFiltered | PageNoindex | RequiresJsRender | NetworkError
    | RobotsKind | BlockedKind | RobotsBlockedKind | OtherKind

  /** What a crawler reports for one job. `indexable` says whether a document can be built from the page. */
  datatype CrawlResult = CrawlResult(
    jobId: nat,
    url: Url,
    statusCode: nat,
    finalUrl: Option<Link>,
    discovered: seq<Link>,
    indexable: bool,
    llmShouldIndex: Option<bool>,
    retryable: Option<bool>,
    errorKind: Option<ErrorKind>,
    crawlDelay: Option<nat>,
    retryAfter: Option<nat>)

  datatype ItemStatus = Pending | Processing | Completed | ItemFailed

  datatype Item = Item(owner: string, crawler: string, status: ItemStatus, startedAt: Option<Time>, result: CrawlResult)

  /** A page budget, opened by one seeding. Its id is its position. */
  datatype Budget = Budget(owner: string, pages: int)

  /** Row ids and lease ids are drawn from counters, so a fresh id was never used before. `owed` holds the origins whose
      job a projection failure has failed without having given its slot back yet (history only). */
  datatype Db = Db(
    jobs: map<nat, Job>,
    origins: map<(string, OriginKey), Origin>,
    items: map<(nat, nat), Item>,
    budgets: seq<Budget>,
    nextJob: nat,
    nextLease: nat,
    owed: multiset<(string, OriginKey)>)

  const EMPTY_DB := Db(map[], map[], map[], [], 0, 0, multiset{})

  predicate Active(j: Job) {
    j.status.Claimed? || j.status.Ingesting?
  }

  predicate Terminal(j: Job) {
    j.status.Succeeded? || j.status.Failed? || j.status.Blocked? || j.status.DeadLetter?
  }

  /** The origin row a job counts against. */
  function OriginRow(j: Job): (string, OriginKey) {
    (j.owner, j.origin)
  }

  function EffectiveLimit(j: Job): int {
    Max(j.concurrency, 1)
  }

  function EffectiveAttempts(j: Job): int {
    Max(j.maxAttempts, 1)
  }

  /** The recovery passes give up on a job whose attempts are used up. */
  predicate Exhausted(j: Job) {
    EffectiveAttempts(j) <= Max(j.attempts, 1)
  }

  /** The jobs counted as active on an origin: status claimed or ingesting. */
  function ActiveOn(db: Db, row: (string, OriginKey)): set<nat> {
    set id | id in db.jobs && Active(db.jobs[id]) && OriginRow(db.jobs[id]) == row
  }

  /** The claim is still being worked on under its lease. */
  predicate IsActivePair(db: Db, key: (nat, nat)) {
    key.1 in db.jobs && Active(db.jobs[key.1]) && db.jobs[key.1].lease == Some(key.0)
  }

  function BudgetJobs(db: Db, owner: string, budget: nat): set<nat> {
    set id | id in db.jobs && db.jobs[id].owner == owner && db.jobs[id].budget == budget
  }
}
