/** Adding URLs to the frontier under a page budget. */
module Enqueue {
  import opened Wrappers
  import opened Urls
  import opened Tables
  import Counting

  datatype EnqueueRequest = EnqueueRequest(
    owner: string,
    budget: nat,
    depth: int,
    maxDepth: int,
    maxPages: int,
    concurrency: int,
    scope: Scope,
    host: Option<string>,
    maxDiscovered: int,
    allowRevisit: bool)

  function Priority(depth: int): int {
    if depth == 0 then 80 else 50 + (10 - Min(depth, 10)) * 3
  }

  function NewJob(req: EnqueueRequest, url: Url, origin: OriginKey, now: Time): Job {
    Job(owner := req.owner, url := url, origin := origin, depth := req.depth, maxDepth := req.maxDepth,
        maxAttempts := 3, budget := req.budget, maxPages := Max(req.maxPages, 1), scope := req.scope,
        anchor := if req.host.Some? then req.host else ExtractHost(url),
        concurrency := Max(req.concurrency, 1), maxDiscovered := Max(req.maxDiscovered, 1),
        priority := Priority(req.depth), discoveredAt := now, attempts := 0, nextRetryAt := None,
        requiresJs := false, finalUrl := None, status := Queued, claimedBy := None, claimedAt := None,
        lease := None, claimJs := false, jsRequeues := 0, adminRetries := 0)
  }

  /** What a link becomes when it is not skipped: its normalised URL and origin. */
  function Admitted(link: Link, blacklist: seq<string>): Option<(Url, OriginKey)> {
    if link.None? then None
    else
      match NormalizeUrl(link.value)
      case None => None
      case Some(n) =>
        match OriginOf(n)
        case None => None
        case Some(o) => if UrlMatchesDomains(Some(n), blacklist) then None else Some((n, o))
  }

  /** A revisit first removes the owner's finished row for the URL. */
  function ClearFinished(db: Db, owner: string, url: Url): Db {
    db.(jobs := map id | id in db.jobs && !(db.jobs[id].owner == owner && db.jobs[id].url == url
        && Terminal(db.jobs[id]))
          :: db.jobs[id])
  }

  predicate HasUrl(db: Db, owner: string, url: Url) {
    exists id :: id in db.jobs && db.jobs[id].owner == owner && db.jobs[id].url == url
  }

  /** Inserts the job row, and its origin row when missing. */
  function InsertJob(db: Db, j: Job, now: Time): Db {
    db.(jobs := db.jobs[db.nextJob := j],
        nextJob := db.nextJob + 1,
        origins := if OriginRow(j) in db.origins then db.origins
                   else db.origins[OriginRow(j) := Origin(now, 0, 0)])
  }

  /** The table before the insert is tried: after the revisit delete, if one is asked for. */
  function Prepared(db: Db, req: EnqueueRequest, url: Url): Db {
    if req.allowRevisit then ClearFinished(db, req.owner, url) else db
  }

  predicate Accepts(db: Db, req: EnqueueRequest, link: Link, blacklist: seq<string>) {
    Admitted(link, blacklist).Some? &&
    var n := Admitted(link, blacklist).value.0;
    !HasUrl(Prepared(db, req, n), req.owner, n)
  }

  /** One turn of the loop: the rows after it. `stamps` gives the time at which each row is inserted, by its id. */
  function EnqueueOne(db: Db, req: EnqueueRequest, link: Link, blacklist: seq<string>, stamps: nat -> Time): Db {
    match Admitted(link, blacklist)
    case None => db
    case Some(pair) =>
      var (n, o) := pair;
      var cleared := Prepared(db, req, n);
      if HasUrl(cleared, req.owner, n) then cleared
          else InsertJob(cleared, NewJob(req, n, o, stamps(db.nextJob)), stamps(db.nextJob))
  }

  /** The loop from a point where `used` pages of the budget are counted. */
  function EnqueueFrom(db: Db, req: EnqueueRequest, links: seq<Link>, used: int, blacklist: seq<string>,
      stamps: nat -> Time): Db
    decreases |links|
  {
    if links == [] || used >= Max(req.maxPages, 1) then db
    else EnqueueFrom(EnqueueOne(db, req, links[0], blacklist, stamps), req, links[1..],
                     used + (if Accepts(db, req, links[0], blacklist) then 1 else 0), blacklist, stamps)
  }

  /** Enqueueing counts the rows the budget already has and then goes through the links. */
  function EnqueueAll(db: Db, req: EnqueueRequest, links: seq<Link>, blacklist: seq<string>, stamps: nat -> Time): Db {
    EnqueueFrom(db, req, links, |BudgetJobs(db, req.owner, req.budget)|, blacklist, stamps)
  }

  // ---- what enqueueing does ---------------------------------------------

  /** How a table may differ after enqueueing: finished rows may go, fresh queued rows of the request may come,
      origins only gain rows, and nothing else moves. */
  ghost predicate Enqueued(db: Db, after: Db, req: EnqueueRequest) {
    && after.items == db.items && after.budgets == db.budgets && after.nextLease == db.nextLease
        && after.owed == db.owed
    && db.nextJob <= after.nextJob
    && (forall id <- after.jobs :: id in db.jobs ==> after.jobs[id] == db.jobs[id])
    && (forall id <- after.jobs :: id !in db.jobs ==>
          db.nextJob <= id < after.nextJob && IsNewRow(after.jobs[id], req))
    && (forall id <- db.jobs :: id !in after.jobs ==> req.allowRevisit && Terminal(db.jobs[id]))
    && (forall row <- db.origins :: row in after.origins && after.origins[row] == db.origins[row])
    && (forall row <- after.origins :: row !in db.origins ==>
          after.origins[row].inFlight == 0 && after.origins[row].leaked == 0)
  }

  /** A row as `enqueue_urls` inserts it. */
  predicate IsNewRow(j: Job, req: EnqueueRequest) {
    && j.status.Queued? && j.attempts == 0 && !j.requiresJs && j.maxAttempts == 3
    && j.claimedBy.None? && j.claimedAt.None? && j.lease.None?
    && j.jsRequeues == 0 && j.adminRetries == 0
    && j.owner == req.owner && j.budget == req.budget && j.maxPages == Max(req.maxPages, 1)
    && j.depth == req.depth && j.maxDepth == req.maxDepth && j.scope == req.scope
    && ExtractHost(j.url).Some?
    && j.anchor == (if req.host.Some? then req.host else ExtractHost(j.url))
    && OriginOf(j.url) == Some(j.origin)
  }

  ghost predicate IdsBelow(db: Db) {
    forall id <- db.jobs :: id < db.nextJob
  }

  lemma EnqueueOneEffect(db: Db, req: EnqueueRequest, link: Link, blacklist: seq<string>, stamps: nat -> Time)
    requires IdsBelow(db)
    ensures var after := EnqueueOne(db, req, link, blacklist, stamps);
            Enqueued(db, after, req) && IdsBelow(after)
  {
    if Admitted(link, blacklist).Some? {
      NormalizeKeepsOrigin(link.value);
    }
  }

  lemma {:induction false} EnqueueFromEffect(db: Db, req: EnqueueRequest, links: seq<Link>, used: int,
      blacklist: seq<string>, stamps: nat -> Time)
    requires IdsBelow(db)
    ensures var after := EnqueueFrom(db, req, links, used, blacklist, stamps);
            Enqueued(db, after, req) && IdsBelow(after)
    decreases |links|
  {
    if links == [] || used >= Max(req.maxPages, 1) {
    } else {
      var mid := EnqueueOne(db, req, links[0], blacklist, stamps);
      EnqueueOneEffect(db, req, links[0], blacklist, stamps);
      var used' := used + (if Accepts(db, req, links[0], blacklist) then 1 else 0);
      EnqueueFromEffect(mid, req, links[1..], used', blacklist, stamps);
      EnqueuedTransitive(db, mid, EnqueueFrom(mid, req, links[1..], used', blacklist, stamps), req);
    }
  }

  lemma EnqueuedTransitive(a: Db, b: Db, c: Db, req: EnqueueRequest)
    requires Enqueued(a, b, req) && Enqueued(b, c, req) && IdsBelow(a)
    ensures Enqueued(a, c, req)
  {
    forall id | id in a.jobs && id !in c.jobs
      ensures req.allowRevisit && Terminal(a.jobs[id])
    {
    }
    forall id | id in c.jobs && id in a.jobs
      ensures c.jobs[id] == a.jobs[id]
    {
      assert id in b.jobs;
    }
  }

  // ---- counting rows ----------------------------------------------------

  /** Row ids are handed out one by one, each to a row that is inserted and still there at the end. */
  lemma {:induction false} EnqueueFromContiguous(db: Db, req: EnqueueRequest, links: seq<Link>, used: int,
      blacklist: seq<string>, stamps: nat -> Time, id: nat)
    requires IdsBelow(db)
    requires db.nextJob <= id < EnqueueFrom(db, req, links, used, blacklist, stamps).nextJob
    ensures id in EnqueueFrom(db, req, links, used, blacklist, stamps).jobs
    decreases |links|
  {
    if links == [] || used >= Max(req.maxPages, 1) {
    } else {
      var mid := EnqueueOne(db, req, links[0], blacklist, stamps);
      var used' := used + (if Accepts(db, req, links[0], blacklist) then 1 else 0);
      EnqueueOneEffect(db, req, links[0], blacklist, stamps);
      if id < mid.nextJob {
        assert id == db.nextJob && id in mid.jobs && mid.jobs[id].status.Queued?;
        EnqueueFromEffect(mid, req, links[1..], used', blacklist, stamps);
      } else {
        EnqueueFromContiguous(mid, req, links[1..], used', blacklist, stamps, id);
      }
    }
  }

  // ---- the page budget --------------------------------------------------

  /** Enqueueing never takes a budget past its page limit. */
  lemma {:induction false} EnqueueFromWithinBudget(db: Db, req: EnqueueRequest, links: seq<Link>, used: int,
      blacklist: seq<string>, stamps: nat -> Time)
    requires IdsBelow(db)
    requires |BudgetJobs(db, req.owner, req.budget)| <= used <= Max(req.maxPages, 1)
    ensures |BudgetJobs(EnqueueFrom(db, req, links, used, blacklist, stamps), req.owner, req.budget)|
        <= Max(req.maxPages, 1)
    decreases |links|
  {
    if links == [] || used >= Max(req.maxPages, 1) {
    } else {
      var mid := EnqueueOne(db, req, links[0], blacklist, stamps);
      EnqueueOneEffect(db, req, links[0], blacklist, stamps);
      EnqueueOneCount(db, req, links[0], blacklist, stamps);
      var used' := used + (if Accepts(db, req, links[0], blacklist) then 1 else 0);
      EnqueueFromWithinBudget(mid, req, links[1..], used', blacklist, stamps);
    }
  }

  /** It inserts no more rows than the budget had room for. */
  lemma {:induction false} EnqueueFromInserts(db: Db, req: EnqueueRequest, links: seq<Link>, used: int,
      blacklist: seq<string>, stamps: nat -> Time)
    ensures db.nextJob <= EnqueueFrom(db, req, links, used, blacklist, stamps).nextJob
    ensures EnqueueFrom(db, req, links, used, blacklist, stamps).nextJob
        <= db.nextJob + Max(0, Max(req.maxPages, 1) - used)
    decreases |links|
  {
    if links == [] || used >= Max(req.maxPages, 1) {
    } else {
      EnqueueFromInserts(EnqueueOne(db, req, links[0], blacklist, stamps), req, links[1..],
                         used + (if Accepts(db, req, links[0], blacklist) then 1 else 0), blacklist, stamps);
    }
  }

  lemma EnqueueOneCount(db: Db, req: EnqueueRequest, link: Link, blacklist: seq<string>, stamps: nat -> Time)
    requires IdsBelow(db)
    ensures |BudgetJobs(EnqueueOne(db, req, link, blacklist, stamps), req.owner, req.budget)|
         <= |BudgetJobs(db, req.owner, req.budget)| + (if Accepts(db, req, link, blacklist) then 1 else 0)
  {
    var before := BudgetJobs(db, req.owner, req.budget);
    var after := BudgetJobs(EnqueueOne(db, req, link, blacklist, stamps), req.owner, req.budget);
    if Accepts(db, req, link, blacklist) {
      assert after <= before + {db.nextJob};
      Counting.SubsetCard(after, before + {db.nextJob});
    } else {
      assert after <= before;
      Counting.SubsetCard(after, before);
    }
  }

  /** A request against a budget that already has `max(maxPages, 1)` rows changes nothing. */
  lemma FullBudgetAddsNothing(db: Db, req: EnqueueRequest, links: seq<Link>, blacklist: seq<string>,
      stamps: nat -> Time)
    requires |BudgetJobs(db, req.owner, req.budget)| >= Max(req.maxPages, 1)
    ensures EnqueueAll(db, req, links, blacklist, stamps) == db
  {
  }

  // ---- unique URLs ------------------------------------------------------

  /** An owner has at most one row per URL. */
  ghost predicate UniqueUrls(db: Db) {
    forall a <- db.jobs, b <- db.jobs ::
      db.jobs[a].owner == db.jobs[b].owner && db.jobs[a].url == db.jobs[b].url ==> a == b
  }

  lemma EnqueueOneKeepsUniqueUrls(db: Db, req: EnqueueRequest, link: Link, blacklist: seq<string>, stamps: nat -> Time)
    requires IdsBelow(db) && UniqueUrls(db)
    ensures UniqueUrls(EnqueueOne(db, req, link, blacklist, stamps))
  {
  }

  lemma {:induction false} EnqueueKeepsUniqueUrls(db: Db, req: EnqueueRequest, links: seq<Link>, used: int,
      blacklist: seq<string>, stamps: nat -> Time)
    requires IdsBelow(db) && UniqueUrls(db)
    ensures UniqueUrls(EnqueueFrom(db, req, links, used, blacklist, stamps))
    decreases |links|
  {
    if links == [] || used >= Max(req.maxPages, 1) {
    } else {
      EnqueueOneEffect(db, req, links[0], blacklist, stamps);
      EnqueueOneKeepsUniqueUrls(db, req, links[0], blacklist, stamps);
      EnqueueKeepsUniqueUrls(EnqueueOne(db, req, links[0], blacklist, stamps), req, links[1..],
                             used + (if Accepts(db, req, links[0], blacklist) then 1 else 0), blacklist, stamps);
    }
  }

  // ---- scope ------------------------------------------------------------

  /** A row's URL lies inside its own scope, seen from its own anchor host. */
  predicate InScope(j: Job) {
    j.anchor.Some? && ExtractHost(j.url).Some? &&
    HostMatchesScope(ExtractHost(j.url).value, j.anchor.value, j.scope)
  }

  lemma EnqueueOneInScope(db: Db, req: EnqueueRequest, link: Link, blacklist: seq<string>, stamps: nat -> Time)
    requires IdsBelow(db)
    requires req.host.Some? ==> LinkAllowed(link, req.scope, req.host)
    requires forall id <- db.jobs :: InScope(db.jobs[id])
    ensures forall id <- EnqueueOne(db, req, link, blacklist, stamps).jobs ::
        InScope(EnqueueOne(db, req, link, blacklist, stamps).jobs[id])
  {
    if Admitted(link, blacklist).Some? {
      NormalizeKeepsOrigin(link.value);
    }
  }

  /** If every link offered is inside the request's scope, every row that results is too. */
  lemma {:induction false} EnqueueInScope(db: Db, req: EnqueueRequest, links: seq<Link>, used: int,
      blacklist: seq<string>, stamps: nat -> Time)
    requires IdsBelow(db)
    requires req.host.Some? ==> forall l <- links :: LinkAllowed(l, req.scope, req.host)
    requires forall id <- db.jobs :: InScope(db.jobs[id])
    ensures forall id <- EnqueueFrom(db, req, links, used, blacklist, stamps).jobs ::
              InScope(EnqueueFrom(db, req, links, used, blacklist, stamps).jobs[id])
    decreases |links|
  {
    if links == [] || used >= Max(req.maxPages, 1) {
    } else {
      var mid := EnqueueOne(db, req, links[0], blacklist, stamps);
      EnqueueOneEffect(db, req, links[0], blacklist, stamps);
      EnqueueOneInScope(db, req, links[0], blacklist, stamps);
      EnqueueInScope(mid, req, links[1..], used + (if Accepts(db, req, links[0], blacklist) then 1 else 0), blacklist,
          stamps);
    }
  }
}
