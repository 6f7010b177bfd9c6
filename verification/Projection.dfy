/** Applying a staged result to its job, the frontier and the origins. */
module Projection {
  import opened Wrappers
  import opened Urls
  import opened Tables
  import opened Outcome
  import opened Enqueue
  import opened Ingest

  /** The job is still ingesting under the item's lease and reporter, and the result is for its URL. */
  predicate CanApply(db: Db, key: (nat, nat)) {
    && Projectable(db, key)
    && db.jobs[key.1].url == db.items[key].result.url
  }

  /** The row the projector finds for an item, whoever holds the lease now. */
  predicate Projectable(db: Db, key: (nat, nat)) {
    && key in db.items && key.1 in db.jobs
    && var j, item := db.jobs[key.1], db.items[key];
       j.owner == item.owner && j.claimedBy == Some(item.crawler) && j.lease == Some(key.0) && j.status.Ingesting?
  }

  predicate PageBlacklisted(r: CrawlResult, blacklist: seq<string>) {
    UrlMatchesDomains(Some(r.url), blacklist) || UrlMatchesDomains(FinalizedUrl(r), blacklist)
  }

  function OutcomeOf(j: Job, r: CrawlResult, clock: Time, blacklist: seq<string>): JobOutcome {
    if PageBlacklisted(r, blacklist) then FilteredPage else Classify(r, j, clock)
  }

  function WithoutBlacklisted(links: seq<Link>, blacklist: seq<string>): (kept: seq<Link>)
    ensures forall l :: l in kept <==> l in links && !UrlMatchesDomains(l, blacklist)
  {
    if links == [] then []
    else (if UrlMatchesDomains(links[0], blacklist) then [] else [links[0]]) + WithoutBlacklisted(links[1..], blacklist)
  }

  /** The links of a page that may become jobs. */
  function ScopedLinks(j: Job, r: CrawlResult, blacklist: seq<string>): seq<Link> {
    if PageBlacklisted(r, blacklist) then []
    else WithoutBlacklisted(FilteredLinks(r.discovered, j.scope, j.anchor, Max(j.maxDiscovered, 1)), blacklist)
  }

  function ChildRequest(j: Job): EnqueueRequest {
    EnqueueRequest(owner := j.owner, budget := j.budget, depth := j.depth + 1, maxDepth := j.maxDepth,
                   maxPages := j.maxPages, concurrency := j.concurrency, scope := j.scope, host := j.anchor,
                   maxDiscovered := j.maxDiscovered, allowRevisit := false)
  }

  function WriteStatus(db: Db, key: (nat, nat), clock: Time, blacklist: seq<string>): Db
    requires CanApply(db, key)
  {
    var j, r := db.jobs[key.1], db.items[key].result;
    db.(jobs := db.jobs[key.1 := WriteOutcome(j, r, OutcomeOf(j, r, clock, blacklist))])
  }

  /** Pages that were kept or filtered pass their links on, unless they are as deep as allowed. */
  predicate SpawnsChildren(j: Job, o: JobOutcome) {
    (o.SucceededPage? || o.FilteredPage?) && j.depth < j.maxDepth
  }

  function AddChildren(db: Db, j: Job, o: JobOutcome, links: seq<Link>, blacklist: seq<string>,
      stamps: nat -> Time): Db {
    if SpawnsChildren(j, o) then EnqueueAll(db, ChildRequest(j), links, blacklist, stamps) else db
  }

  /** The requested origin learns its wait and gives back one slot. */
  function UpdateRequested(db: Db, row: (string, OriginKey), ready: Time): Db {
    if row in db.origins then
      var o := db.origins[row];
      db.(origins := db.origins[row := o.(nextAllowedAt := Max(o.nextAllowedAt, ready),
          inFlight := Max(o.inFlight - 1, 0))])
    else db.(origins := db.origins[row := Origin(ready, 0, 0)])
  }

  /** A redirect's final origin learns the wait too, without giving back a slot. */
  function UpdateFinal(db: Db, row: (string, OriginKey), ready: Time): Db {
    if row in db.origins then
      var o := db.origins[row];
      db.(origins := db.origins[row := o.(nextAllowedAt := Max(o.nextAllowedAt, ready))])
    else db.(origins := db.origins[row := Origin(ready, 0, 0)])
  }

  function FinalRow(j: Job, r: CrawlResult): Option<(string, OriginKey)> {
    var link := FinalizedUrl(r);
    if link.None? then None
    else match OriginOf(link.value)
      case None => None
      case Some(o) => if o == j.origin then None else Some((j.owner, o))
  }

  function UpdateOrigins(db: Db, j: Job, r: CrawlResult, now: Time): Db {
    var ready := OriginReadyAt(now, r);
    var first := UpdateRequested(db, OriginRow(j), ready);
    match FinalRow(j, r)
    case None => first
    case Some(row) => UpdateFinal(first, row, ready)
  }

  /** Applying a staged result, when every write succeeds. */
  function Apply(db: Db, key: (nat, nat), now: Time, clock: Time, stamps: nat -> Time, blacklist: seq<string>): Db
    requires CanApply(db, key)
  {
    var j, r := db.jobs[key.1], db.items[key].result;
    var written := WriteStatus(db, key, clock, blacklist);
    var spread := AddChildren(written, j, OutcomeOf(j, r, clock, blacklist), ScopedLinks(j, r, blacklist), blacklist,
        stamps);
    UpdateOrigins(spread, j, r, now)
  }

  /** Where an apply can stop, since its writes are not one transaction. */
  datatype Fault =
    | AfterChildren(count: nat)   // after the status write and the first `count` links
    | BetweenOrigins              // after the requested origin, before the redirect's

  function Leak(db: Db, row: (string, OriginKey)): Db {
    if row in db.origins then db.(origins := db.origins[row := db.origins[row].(leaked := db.origins[row].leaked + 1)])
        else db
  }

  /** An apply that stopped part way. The first kind never gives its slot back. */
  function ApplyUntil(db: Db, key: (nat, nat), now: Time, clock: Time, stamps: nat -> Time, blacklist: seq<string>,
      fault: Fault): Db
    requires CanApply(db, key)
  {
    var j, r := db.jobs[key.1], db.items[key].result;
    var o := OutcomeOf(j, r, clock, blacklist);
    var links := ScopedLinks(j, r, blacklist);
    var written := WriteStatus(db, key, clock, blacklist);
    match fault
    case AfterChildren(count) =>
      Leak(AddChildren(written, j, o, links[..Min(count, |links|)], blacklist, stamps), OriginRow(j))
    case BetweenOrigins =>
      UpdateRequested(AddChildren(written, j, o, links, blacklist, stamps), OriginRow(j), OriginReadyAt(now, r))
  }

  /** The first statement of a projection failure fails the job, if it is still ingesting for the item. Its origin is
      then owed a slot until the second statement runs. */
  function FailIngestingJob(db: Db, key: (nat, nat)): Db {
    if !Projectable(db, key) then db
    else
      var j := db.jobs[key.1];
      db.(jobs := db.jobs[key.1 := j.(status := Failed, claimedBy := None, claimedAt := None, lease := None,
          nextRetryAt := None)],
          owed := db.owed + multiset{OriginRow(j)})
  }

  /** The second statement gives the slot back. */
  function ReturnSlot(db: Db, row: (string, OriginKey)): Db {
    db.(owed := db.owed - multiset{row},
        origins := if row in db.origins
                   then db.origins[row := db.origins[row].(inFlight := Max(db.origins[row].inFlight - 1, 0))]
                   else db.origins)
  }

  /** Both statements. */
  function JobAndSlotFailed(db: Db, key: (nat, nat)): Db {
    var failed := FailIngestingJob(db, key);
    if Projectable(db, key) then ReturnSlot(failed, OriginRow(db.jobs[key.1])) else failed
  }

  /** The projector's handling of an item whose apply returned an error: both statements, then the item. */
  function FailProjection(db: Db, key: (nat, nat)): Db {
    SetItemStatus(JobAndSlotFailed(db, key), key, ItemFailed)
  }
}
