/** The crawl protocol as a transition system: every operation of the shared tables is one event, and a run is any
    interleaving of events. Each event moves every job along one small automaton. */
module Protocol {
  import opened Wrappers
  import opened Urls
  import opened Tables
  import opened Frontier
  import opened Enqueue
  import opened Seeding
  import opened Ingest
  import opened Outcome
  import opened Projection
  import opened Recovery

  datatype Event =
    | Seed(owner: string, links: seq<Link>, maxDepth: nat, maxPages: nat, concurrency: nat, scope: Scope,
           maxDiscovered: nat, revisit: bool, blacklist: seq<string>, stamps: nat -> Time)
    | SubmitDomain(owner: string, domain: string, entries: seq<Option<Link>>, maxDepth: nat, maxPages: nat,
        concurrency: nat,
                   revisit: bool, blacklist: seq<string>, stamps: nat -> Time)
    | Recrawl(source: nat, page: Link, host: string, blacklist: seq<string>, stamps: nat -> Time)
    | Claim(owner: string, crawler: string, js: bool, now: Time, limit: nat,
            rank: map<nat, nat>, locked: set<nat>, picked: set<nat>)
    | Report(owner: string, crawler: string, lease: nat, results: seq<CrawlResult>)
    | StageOne(owner: string, crawler: string, lease: nat, result: CrawlResult)          // one turn of a report's loop
    | AcceptStaged(owner: string, crawler: string, lease: nat, ids: set<nat>)            // a report's last statement
    | TakeItems(limit: nat, taken: set<(nat, nat)>, now: Time)
    | ApplyItem(key: (nat, nat), now: Time, clock: Time, stamps: nat -> Time, blacklist: seq<string>)
    | ApplyStops(key: (nat, nat), now: Time, clock: Time, stamps: nat -> Time, blacklist: seq<string>, fault: Fault)
    | FailJob(key: (nat, nat))                        // an apply failed: the job,
    | GiveBack(row: (string, OriginKey))              // then its slot,
    | CompleteItem(key: (nat, nat))
    | FailItem(key: (nat, nat))                       // then the item
    | RequeueStale(now: Time, timeout: nat)
    | RecoverIngesting(now: Time, timeout: nat)
    | ReplayItems(now: Time, timeout: nat)            // the two statements of the item recovery
    | AbandonItems(now: Time, timeout: nat)
    | DeleteCrawler(owner: string, crawler: string, now: Time)
    | RetryFailed(owner: string)
    | CleanupCompleted(owner: string)
    | CleanupFailed(owner: string)
    | StopJobs(owner: string)                         // the two statements of a stop
    | StopOrigins(owner: string, now: Time)
    | BlacklistJobs(domain: string)                   // the two statements of a blacklisting
    | BlacklistOrigins(domain: string)

  /** When an event can happen. Only choices the database makes and a task's own program order are restricted. */
  ghost predicate Enabled(db: Db, e: Event) {
    match e
    case Claim(owner, _, js, now, limit, rank, locked, picked) =>
      var eligible := EligibleJobs(db, owner, now, js);
      IsRowNumber(db, eligible, rank) && IsPick(db, eligible, rank, locked, limit, picked)
    case AcceptStaged(_, _, lease, ids) => forall id <- ids :: (lease, id) in db.items
    case StageOne(_, _, lease, _) => lease < db.nextLease   // the check before it saw the lease, maybe a while ago
    case TakeItems(limit, taken, _) =>
      |taken| <= Max(limit, 1) && forall key <- taken :: key in db.items && db.items[key].status.Pending?
    case ApplyItem(key, _, _, _, _) => CanApply(db, key)
    case ApplyStops(key, _, _, _, _, _) => CanApply(db, key)
    case FailJob(key) => key in db.items               // the projector has taken it before
    case GiveBack(row) => row in db.owed               // its job has been failed before
    case _ => true
  }

  function After(db: Db, e: Event): Db {
    match e
    case Seed(owner, links, maxDepth, maxPages, concurrency, scope, maxDiscovered, revisit, blacklist, stamps) =>
      SeedFrontier(db, owner, links, maxDepth, maxPages, concurrency, scope, maxDiscovered, revisit, blacklist, stamps)
    case SubmitDomain(owner, domain, entries, maxDepth, maxPages, concurrency, revisit, blacklist, stamps) =>
      SubmitDomainUrls(db, owner, domain, entries, maxDepth, maxPages, concurrency, revisit, blacklist, stamps)
    case Recrawl(source, page, host, blacklist, stamps) => AdaptiveRecrawl(db, source, page, host, blacklist, stamps)
    case Claim(owner, crawler, js, now, _, _, _, picked) => ClaimPicked(db, owner, crawler, js, now, picked)
    case Report(owner, crawler, lease, results) => StageReport(db, owner, crawler, lease, results).db
    case StageOne(owner, crawler, lease, result) => StageItem(db, owner, crawler, lease, result)
    case AcceptStaged(owner, crawler, lease, ids) => AcceptReport(db, owner, crawler, lease, ids)
    case TakeItems(_, taken, now) => ClaimItems(db, taken, now)
    case ApplyItem(key, now, clock, stamps, blacklist) =>
      if CanApply(db, key) then Apply(db, key, now, clock, stamps, blacklist) else db
    case ApplyStops(key, now, clock, stamps, blacklist, fault) =>
      if CanApply(db, key) then ApplyUntil(db, key, now, clock, stamps, blacklist, fault) else db
    case FailJob(key) => FailIngestingJob(db, key)
    case GiveBack(row) => ReturnSlot(db, row)
    case CompleteItem(key) => SetItemStatus(db, key, Completed)
    case FailItem(key) => SetItemStatus(db, key, ItemFailed)
    case RequeueStale(now, timeout) => RequeueStaleJobs(db, now, timeout)
    case RecoverIngesting(now, timeout) => RecoverStaleIngestingJobs(db, now, timeout)
    case ReplayItems(now, timeout) => ReplayStaleItems(db, now - Max(timeout, 1))
    case AbandonItems(now, timeout) => AbandonStaleItems(db, now - Max(timeout, 1))
    case DeleteCrawler(owner, crawler, now) => ReleaseClaimedJobs(db, owner, crawler, now)
    case RetryFailed(owner) => RetryFailedJobs(db, owner)
    case CleanupCompleted(owner) => CleanupCompletedJobs(db, owner)
    case CleanupFailed(owner) => CleanupFailedJobs(db, owner)
    case StopJobs(owner) => DeleteUnfinished(db, owner)
    case StopOrigins(owner, now) => ResetOrigins(db, owner, now)
    case BlacklistJobs(domain) => DeleteDomainJobs(db, domain)
    case BlacklistOrigins(domain) => DropUnusedOrigins(db, domain)
  }

  ghost predicate Next(db: Db, e: Event, after: Db) {
    Enabled(db, e) && after == After(db, e)
  }

  ghost predicate StepAt(states: seq<Db>, events: seq<Event>, i: nat)
    requires |states| == |events| + 1 && i < |events|
  {
    Next(states[i], events[i], states[i + 1])
  }

  /** A run from empty tables: states[i + 1] follows states[i] by events[i]. */
  ghost predicate IsRun(states: seq<Db>, events: seq<Event>) {
    && |states| == |events| + 1
    && states[0] == EMPTY_DB
    && forall i :: 0 <= i < |events| ==> StepAt(states, events, i)
  }

  // ---- the job automaton ------------------------------------------------

  /** The columns that no event ever changes. */
  predicate SameRow(j: Job, k: Job) {
    && j.owner == k.owner && j.url == k.url && j.origin == k.origin
    && j.depth == k.depth && j.maxDepth == k.maxDepth && j.maxAttempts == k.maxAttempts
    && j.budget == k.budget && j.maxPages == k.maxPages && j.scope == k.scope && j.anchor == k.anchor
    && j.concurrency == k.concurrency && j.maxDiscovered == k.maxDiscovered
    && j.priority == k.priority && j.discoveredAt == k.discoveredAt
  }

  predicate Unclaimed(j: Job) {
    j.claimedBy.None? && j.claimedAt.None? && j.lease.None?
  }

  predicate SameCounts(j: Job, k: Job) {
    j.attempts == k.attempts && j.jsRequeues == k.jsRequeues && j.adminRetries == k.adminRetries
  }

  predicate ClaimMove(j: Job, k: Job, lease: nat) {
    && j.status.Queued? && k.status.Claimed?
    && k.lease == Some(lease) && k.claimedBy.Some? && k.claimedAt.Some?
    && k.attempts == j.attempts + 1 && k.jsRequeues == j.jsRequeues && k.adminRetries == j.adminRetries
    && k.requiresJs == j.requiresJs && (k.requiresJs ==> k.claimJs)
  }

  predicate AcceptMove(j: Job, k: Job) {
    Active(j) && k == j.(status := Ingesting)
  }

  predicate RequeueMove(j: Job, k: Job) {
    Active(j) && k.status.Queued? && Unclaimed(k) && SameCounts(j, k) && k.requiresJs == j.requiresJs && !Exhausted(j)
  }

  predicate JsRequeueMove(j: Job, k: Job) {
    && j.status.Ingesting? && k.status.Queued? && Unclaimed(k)
    && k.attempts == j.attempts && k.jsRequeues == j.jsRequeues + 1 && k.adminRetries == j.adminRetries && k.requiresJs
  }

  predicate FinishMove(j: Job, k: Job) {
    Active(j) && Terminal(k) && SameCounts(j, k) && k.requiresJs == j.requiresJs && (k.lease == j.lease || Unclaimed(k))
  }

  predicate RetryMove(j: Job, k: Job) {
    && (j.status.Failed? || j.status.DeadLetter?) && k.status.Queued? && Unclaimed(k)
    && k.attempts == j.attempts && k.jsRequeues == j.jsRequeues && k.adminRetries == j.adminRetries + 1
    && k.requiresJs == j.requiresJs
  }

  predicate JobMove(j: Job, k: Job, lease: nat) {
    SameRow(j, k) &&
    (k == j || ClaimMove(j, k, lease) || AcceptMove(j, k) || RequeueMove(j, k) || JsRequeueMove(j, k)
     || FinishMove(j, k) || RetryMove(j, k))
  }

  /** A row as it first appears. */
  predicate NewRow(j: Job) {
    j.status.Queued? && Unclaimed(j) && j.attempts == 0 && j.maxAttempts == 3
    && j.jsRequeues == 0 && j.adminRetries == 0 && !j.requiresJs
  }

  /** Which event may use which special move. */
  predicate MoveAllowed(e: Event, j: Job, k: Job, lease: nat) {
    && (ClaimMove(j, k, lease) ==> e.Claim?)
    && (RetryMove(j, k) ==> e.RetryFailed?)
    && (JsRequeueMove(j, k) ==> e.ApplyItem? || e.ApplyStops?)
  }

  predicate IsSeeding(e: Event) {
    e.Seed? || e.SubmitDomain?
  }

  /** The part of a step that all job-level properties rest on. */
  ghost predicate Evolves(db: Db, e: Event, after: Db) {
    && db.nextJob <= after.nextJob
    && after.nextLease == db.nextLease + (if e.Claim? then 1 else 0)
    && db.budgets <= after.budgets
    && (!IsSeeding(e) ==> after.budgets == db.budgets)
    && (forall id <- after.jobs :: id in db.jobs ==>
          JobMove(db.jobs[id], after.jobs[id], db.nextLease)
          && MoveAllowed(e, db.jobs[id], after.jobs[id], db.nextLease))
    && (forall id <- after.jobs :: id !in db.jobs ==> db.nextJob <= id < after.nextJob && NewRow(after.jobs[id]))
  }

  /** Every event moves every surviving job along the automaton, adds only fresh queued rows, and uses each special
      move only where it belongs. */
  lemma StepEvolves(db: Db, e: Event)
    requires Enabled(db, e) && IdsBelow(db)
    ensures Evolves(db, e, After(db, e)) && IdsBelow(After(db, e))
  {
    if IsSeeding(e) {
      SeedEvolves(db, e);
    } else if e.Recrawl? {
      RecrawlEvolves(db, e);
    } else if e.Claim? {
      ClaimEvolves(db, e);
    } else if e.Report? || e.AcceptStaged? {
      AcceptEvolves(db, e);
    } else if e.ApplyItem? || e.ApplyStops? {
      ApplyEvolves(db, e);
    } else if e.FailJob? {
      FailEvolves(db, e);
    } else if TakesBack(e) {
      ReturnEvolves(db, e);
    } else if e.RetryFailed? {
      RetryEvolves(db, e);
    } else {
      RemovalEvolves(db, e);
    }
  }

  lemma RecrawlEvolves(db: Db, e: Event)
    requires e.Recrawl? && IdsBelow(db)
    ensures Evolves(db, e, After(db, e)) && IdsBelow(After(db, e)) && After(db, e) == db
  {
    AdaptiveRecrawlDoesNothing(db, e.source, e.page, e.host, e.blacklist, e.stamps);
  }

  /** The events left over only touch items or origins, or delete job rows. */
  lemma RemovalEvolves(db: Db, e: Event)
    requires IdsBelow(db)
    requires WritesItems(e) || WritesOrigins(e) || DeletesJobs(e)
    ensures Evolves(db, e, After(db, e)) && IdsBelow(After(db, e))
  {
    if WritesItems(e) {
      assert After(db, e) == db.(items := After(db, e).items);
    } else if WritesOrigins(e) {
      assert After(db, e) == db.(origins := After(db, e).origins, owed := After(db, e).owed);
    } else {
      DeletionShape(db, e);
    }
    FewerRowsEvolve(db, e, After(db, e));
  }

  predicate WritesItems(e: Event) {
    e.StageOne? || e.TakeItems? || e.CompleteItem? || e.FailItem? || e.ReplayItems? || e.AbandonItems?
  }

  predicate WritesOrigins(e: Event) {
    e.GiveBack? || e.StopOrigins? || e.BlacklistOrigins?
  }

  predicate DeletesJobs(e: Event) {
    e.CleanupCompleted? || e.CleanupFailed? || e.StopJobs? || e.BlacklistJobs?
  }

  lemma DeletionShape(db: Db, e: Event)
    requires DeletesJobs(e)
    ensures After(db, e) == db.(jobs := After(db, e).jobs, origins := After(db, e).origins)
    ensures After(db, e).jobs.Keys <= db.jobs.Keys
    ensures forall id <- After(db, e).jobs :: After(db, e).jobs[id] == db.jobs[id]
  {
  }

  lemma JobsUntouched(db: Db, e: Event)
    requires WritesItems(e) || WritesOrigins(e)
    ensures After(db, e).jobs == db.jobs
  {
    if WritesOrigins(e) {
      assert After(db, e) == db.(origins := After(db, e).origins, owed := After(db, e).owed);
    } else {
      assert After(db, e) == db.(items := After(db, e).items);
    }
  }

  lemma ItemsUntouched(db: Db, e: Event)
    requires e.Claim? || e.FailJob? || e.RetryFailed? || WritesOrigins(e) || DeletesJobs(e)
    ensures After(db, e).items == db.items
  {
    if DeletesJobs(e) {
      DeletionShape(db, e);
    }
  }

  lemma OriginsUntouched(db: Db, e: Event)
    requires WritesItems(e) || e.RetryFailed? || e.CleanupCompleted? || e.CleanupFailed? || e.BlacklistJobs?
    ensures After(db, e).origins == db.origins && After(db, e).owed == db.owed
  {
  }

  lemma FewerRowsEvolve(db: Db, e: Event, after: Db)
    requires IdsBelow(db) && !e.Claim?
    requires after == db.(jobs := after.jobs, origins := after.origins, items := after.items, owed := after.owed)
    requires after.jobs.Keys <= db.jobs.Keys && forall id <- after.jobs :: after.jobs[id] == db.jobs[id]
    ensures Evolves(db, e, after) && IdsBelow(after)
  {
  }

  lemma SeedEvolves(db: Db, e: Event)
    requires IsSeeding(e) && IdsBelow(db)
    ensures Evolves(db, e, After(db, e)) && IdsBelow(After(db, e))
  {
    if After(db, e) != db {
      var (open, req, links) := SeedParts(db, e);
      SeedIsEnqueued(db, e);
      OpeningEvolves(db, e, open);
      EvolvesThenEnqueued(db, e, open, After(db, e), req);
    }
  }

  lemma SeedIsEnqueued(db: Db, e: Event)
    requires IsSeeding(e) && IdsBelow(db) && After(db, e) != db
    ensures var (open, req, links) := SeedParts(db, e);
      Enqueued(open, After(db, e), req) && IdsBelow(After(db, e)) && open == db.(budgets := open.budgets)
      && db.budgets <= open.budgets
  {
    var (open, req, links) := SeedParts(db, e);
    SeedingIsEnqueue(db, e);
    EnqueueFromEffect(open, req, links, |BudgetJobs(open, req.owner, req.budget)|, e.blacklist, e.stamps);
  }

  lemma OpeningEvolves(db: Db, e: Event, open: Db)
    requires IsSeeding(e) && IdsBelow(db) && open == db.(budgets := open.budgets) && db.budgets <= open.budgets
    ensures Evolves(db, e, open)
  {
  }

  /** What a seeding runs: the table with its new budget, its request and its links. */
  function SeedParts(db: Db, e: Event): (Db, EnqueueRequest, seq<Link>)
    requires IsSeeding(e)
  {
    match e
    case Seed(owner, links, maxDepth, maxPages, concurrency, scope, maxDiscovered, revisit, _, _) =>
      (OpenBudget(db, owner, maxPages),
       SeedRequest(db, owner, maxDepth, maxPages, concurrency, scope, maxDiscovered, revisit), links)
    case SubmitDomain(owner, domain, entries, maxDepth, maxPages, concurrency, revisit, _, _) =>
      (OpenBudget(db, owner, maxPages),
       DomainRequest(db, owner, domain, maxDepth, maxPages, concurrency, revisit), NormalizedLinks(Written(entries)))
  }

  /** A seeding that is not refused is one enqueue against a budget nobody used before. */
  lemma SeedingIsEnqueue(db: Db, e: Event)
    requires IsSeeding(e)
    ensures var (open, req, links) := SeedParts(db, e);
      After(db, e) == db || After(db, e) == EnqueueAll(open, req, links, e.blacklist, e.stamps)
  {
  }

  lemma EvolvesThenEnqueued(db: Db, e: Event, mid: Db, after: Db, req: EnqueueRequest)
    requires Evolves(db, e, mid) && Enqueued(mid, after, req) && IdsBelow(db) && IdsBelow(mid)
    ensures Evolves(db, e, after)
  {
    assert forall id <- after.jobs :: id in db.jobs ==> id in mid.jobs;
    forall id | id in after.jobs && id !in db.jobs
      ensures db.nextJob <= id < after.nextJob && NewRow(after.jobs[id])
    {
      if id !in mid.jobs {
        assert IsNewRow(after.jobs[id], req);
      }
    }
  }

  lemma ClaimEvolves(db: Db, e: Event)
    requires e.Claim? && Enabled(db, e) && IdsBelow(db)
    ensures Evolves(db, e, After(db, e)) && IdsBelow(After(db, e))
  {
    forall id | id in db.jobs
      ensures JobMove(db.jobs[id], After(db, e).jobs[id], db.nextLease)
           && MoveAllowed(e, db.jobs[id], After(db, e).jobs[id], db.nextLease)
    {
      if id in e.picked {
        assert Eligible(db, e.owner, e.now, e.js, db.jobs[id]);
        assert ClaimMove(db.jobs[id], After(db, e).jobs[id], db.nextLease);
      }
    }
  }

  lemma AcceptEvolves(db: Db, e: Event)
    requires IdsBelow(db) && (e.Report? || e.AcceptStaged?)
    ensures Evolves(db, e, After(db, e)) && IdsBelow(After(db, e))
  {
    if e.Report? {
      StageLoopEffect(db, e.owner, e.crawler, e.lease, e.results);
    }
    AcceptedRowsEvolve(db, e, After(db, e));
  }

  lemma AcceptedRowsEvolve(db: Db, e: Event, after: Db)
    requires IdsBelow(db) && (e.Report? || e.AcceptStaged?)
    requires after == db.(jobs := after.jobs, items := after.items) && after.jobs.Keys == db.jobs.Keys
    requires forall id <- db.jobs :: after.jobs[id] == db.jobs[id] || AcceptMove(db.jobs[id], after.jobs[id])
    ensures Evolves(db, e, after) && IdsBelow(after)
  {
  }

  /** The three events that take claims back. */
  predicate TakesBack(e: Event) {
    e.RequeueStale? || e.RecoverIngesting? || e.DeleteCrawler?
  }

  function TakenBack(db: Db, e: Event): set<nat>
    requires TakesBack(e)
  {
    match e
    case RequeueStale(now, timeout) => StaleClaims(db, now - timeout)
    case RecoverIngesting(now, timeout) => StaleIngests(db, now - timeout)
    case DeleteCrawler(owner, crawler, _) => ClaimsOf(db, owner, crawler)
  }

  lemma TakingBackIsReturn(db: Db, e: Event)
    requires TakesBack(e)
    ensures After(db, e) == ReturnClaims(db, TakenBack(db, e), e.now).(items := After(db, e).items)
    ensures !e.RecoverIngesting? ==> After(db, e).items == db.items
  {
    if e.RecoverIngesting? {
      IngestRecoveryIsReturn(db, e.now, e.timeout);
    }
  }

  lemma IngestRecoveryIsReturn(db: Db, now: Time, timeout: nat)
    ensures RecoverStaleIngestingJobs(db, now, timeout)
         == ReturnClaims(db, StaleIngests(db, now - timeout),
             now).(items := RecoverStaleIngestingJobs(db, now, timeout).items)
  {
  }

  lemma TakenBackActive(db: Db, e: Event)
    requires TakesBack(e)
    ensures TakenBack(db, e) <= db.jobs.Keys
    ensures forall id <- TakenBack(db, e) :: Active(db.jobs[id])
  {
  }

  lemma ReturnEvolves(db: Db, e: Event)
    requires IdsBelow(db) && TakesBack(e)
    ensures Evolves(db, e, After(db, e)) && IdsBelow(After(db, e))
  {
    TakingBackIsReturn(db, e);
    TakenBackActive(db, e);
    forall id | id in db.jobs
      ensures JobMove(db.jobs[id], After(db, e).jobs[id], db.nextLease)
           && MoveAllowed(e, db.jobs[id], After(db, e).jobs[id], db.nextLease)
    {
      ReturnedMoves(db.jobs[id], e.now, e, db.nextLease);
    }
  }

  lemma ReturnedMoves(j: Job, now: Time, e: Event, lease: nat)
    requires TakesBack(e)
    ensures Active(j) ==> JobMove(j, ReturnedJob(j, now), lease) && MoveAllowed(e, j, ReturnedJob(j, now), lease)
    ensures JobMove(j, j, lease) && MoveAllowed(e, j, j, lease)
  {
    if Active(j) {
      assert if Exhausted(j) then FinishMove(j, ReturnedJob(j, now)) else RequeueMove(j, ReturnedJob(j, now));
    }
  }

  lemma RetryEvolves(db: Db, e: Event)
    requires e.RetryFailed? && IdsBelow(db)
    ensures Evolves(db, e, After(db, e)) && IdsBelow(After(db, e))
  {
    forall id | id in db.jobs
      ensures JobMove(db.jobs[id], After(db, e).jobs[id], db.nextLease)
           && MoveAllowed(e, db.jobs[id], After(db, e).jobs[id], db.nextLease)
    {
      assert After(db, e).jobs[id] == db.jobs[id] || RetryMove(db.jobs[id], After(db, e).jobs[id]);
    }
  }

  lemma FailEvolves(db: Db, e: Event)
    requires e.FailJob? && IdsBelow(db)
    ensures Evolves(db, e, After(db, e)) && IdsBelow(After(db, e))
  {
    if Projectable(db, e.key) {
      assert FinishMove(db.jobs[e.key.1], After(db, e).jobs[e.key.1]);
    }
  }

  /** The staging loop writes nothing but items. */
  lemma {:induction false} StageLoopEffect(db: Db, owner: string, crawler: string, lease: nat,
      results: seq<CrawlResult>)
    ensures var after := StageLoop(db, owner, crawler, lease, results).db;
      after == db.(items := after.items) && db.items.Keys <= after.items.Keys
    decreases |results|
  {
    if results != [] && ReportAllowed(db, owner, crawler, lease, results[0]) {
      StageLoopEffect(StageItem(db, owner, crawler, lease, results[0]), owner, crawler, lease, results[1..]);
    }
  }

  /** The links whose jobs an apply, whole or cut short, gets to. */
  function AppliedLinks(db: Db, e: Event): seq<Link>
    requires (e.ApplyItem? || e.ApplyStops?) && CanApply(db, e.key)
  {
    var links := ScopedLinks(db.jobs[e.key.1], db.items[e.key].result, e.blacklist);
    if e.ApplyStops? && e.fault.AfterChildren? then links[..Min(e.fault.count, |links|)] else links
  }

  /** The tables after the status write and the children, before the origins. */
  function Spread(db: Db, e: Event): Db
    requires (e.ApplyItem? || e.ApplyStops?) && CanApply(db, e.key)
  {
    var j, r := db.jobs[e.key.1], db.items[e.key].result;
    AddChildren(WriteStatus(db, e.key, e.clock, e.blacklist), j, OutcomeOf(j, r, e.clock, e.blacklist),
                AppliedLinks(db, e), e.blacklist, e.stamps)
  }

  lemma OnlyOrigins(db: Db, j: Job, r: CrawlResult, now: Time, row: (string, OriginKey))
    ensures UpdateOrigins(db, j, r, now) == db.(origins := UpdateOrigins(db, j, r, now).origins)
    ensures Leak(db, row) == db.(origins := Leak(db, row).origins)
  {
  }

  /** After the children an apply touches only origins. */
  lemma ApplyAfterSpread(db: Db, e: Event)
    requires (e.ApplyItem? || e.ApplyStops?) && CanApply(db, e.key)
    ensures After(db, e) == Spread(db, e).(origins := After(db, e).origins)
  {
    var j, r := db.jobs[e.key.1], db.items[e.key].result;
    OnlyOrigins(Spread(db, e), j, r, e.now, OriginRow(j));
    if e.ApplyItem? {
      assert After(db, e) == UpdateOrigins(Spread(db, e), j, r, e.now);
    }
  }

  lemma ApplyEvolves(db: Db, e: Event)
    requires (e.ApplyItem? || e.ApplyStops?) && CanApply(db, e.key) && IdsBelow(db)
    ensures Evolves(db, e, After(db, e)) && IdsBelow(After(db, e))
  {
    ApplyAfterSpread(db, e);
    SpreadEvolves(db, e);
  }

  lemma SpreadEvolves(db: Db, e: Event)
    requires (e.ApplyItem? || e.ApplyStops?) && CanApply(db, e.key) && IdsBelow(db)
    ensures Evolves(db, e, Spread(db, e)) && IdsBelow(Spread(db, e))
  {
    var j, r := db.jobs[e.key.1], db.items[e.key].result;
    var o := OutcomeOf(j, r, e.clock, e.blacklist);
    var written := WriteStatus(db, e.key, e.clock, e.blacklist);
    WriteMoves(j, r, o, db.nextLease, e);
    assert Evolves(db, e, written);
    if SpawnsChildren(j, o) {
      var req := ChildRequest(j);
      EnqueueFromEffect(written, req, AppliedLinks(db, e), |BudgetJobs(written, req.owner, req.budget)|, e.blacklist,
          e.stamps);
      EvolvesThenEnqueued(db, e, written, Spread(db, e), req);
    }
  }

  lemma WriteMoves(j: Job, r: CrawlResult, o: JobOutcome, lease: nat, e: Event)
    requires j.status.Ingesting? && (e.ApplyItem? || e.ApplyStops?) && o == OutcomeOf(j, r, e.clock, e.blacklist)
    ensures JobMove(j, WriteOutcome(j, r, o), lease) && MoveAllowed(e, j, WriteOutcome(j, r, o), lease)
    ensures !Active(WriteOutcome(j, r, o))
  {
    var k := WriteOutcome(j, r, o);
    RetryOnlyWithAttemptsLeft(r, j, e.clock);
    assert FinishMove(j, k) || RequeueMove(j, k) || JsRequeueMove(j, k);
  }
}
