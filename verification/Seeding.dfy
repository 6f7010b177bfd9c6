/** The entry points that put URLs on the frontier from outside. Each opens its own page budget, except the
    adaptive recrawl, which reuses the budget of the job that found the page. */
module Seeding {
  import opened Wrappers
  import opened Urls
  import opened Tables
  import opened Enqueue

  function Clamp(x: int, low: int, high: int): int {
    Max(low, Min(x, high))
  }

  function OpenBudget(db: Db, owner: string, maxPages: nat): Db {
    db.(budgets := db.budgets + [Budget(owner, Clamp(maxPages, 1, 10_000))])
  }

  function SeedRequest(db: Db, owner: string, maxDepth: nat, maxPages: nat, concurrency: nat, scope: Scope,
                       maxDiscovered: nat, revisit: bool): EnqueueRequest {
    EnqueueRequest(owner := owner, budget := |db.budgets|, depth := 0, maxDepth := Min(maxDepth, 10),
                   maxPages := Clamp(maxPages, 1, 10_000), concurrency := Max(concurrency, 1), scope := scope,
                   host := None, maxDiscovered := Clamp(maxDiscovered, 1, 200), allowRevisit := revisit)
  }

  /** Seeding by hand. A due rule is the same with its one seed URL and revisits allowed, since rules are stored
      with the same bounds. Without URLs the request is refused. */
  function SeedFrontier(db: Db, owner: string, links: seq<Link>, maxDepth: nat, maxPages: nat, concurrency: nat,
                        scope: Scope, maxDiscovered: nat, revisit: bool, blacklist: seq<string>,
                        stamps: nat -> Time): Db {
    if links == [] then db
    else EnqueueAll(OpenBudget(db, owner, maxPages),
                    SeedRequest(db, owner, maxDepth, maxPages, concurrency, scope, maxDiscovered, revisit),
                    links, blacklist, stamps)
  }

  /** A developer's own URLs must all lie on the developer's domain, or none is taken. */
  predicate DomainUrlOk(domain: string, l: Link) {
    l.Some? && NormalizeUrl(l.value).Some? && ExtractHost(NormalizeUrl(l.value).value).Some? &&
    HostMatchesScope(ExtractHost(NormalizeUrl(l.value).value).value, domain, SameDomain)
  }

  /** A web address whose host is the domain, or ends in a dot and the domain. */
  predicate LiesOn(domain: string, l: Link) {
    l.Some? && l.value.scheme in {"http", "https"} && l.value.host.Some? && OnDomain(l.value.host.value, domain)
  }

  lemma DomainUrlOkIff(domain: string, l: Link)
    ensures DomainUrlOk(domain, l) <==> LiesOn(domain, l)
  {
    if l.Some? && l.value.host.Some? {
      LoweredHost(l.value.host.value, domain);
      HostMatchesIff(Lower(l.value.host.value), domain, SameDomain);
    }
  }

  /** The entries of a list that are not blank. */
  function Written(entries: seq<Option<Link>>): (links: seq<Link>)
    ensures forall l :: l in links <==> Some(l) in entries
  {
    if entries == [] then []
    else (if entries[0].Some? then [entries[0].value] else []) + Written(entries[1..])
  }

  /** Blank entries (None) are skipped. */
  function SubmitDomainUrls(db: Db, owner: string, domain: string, entries: seq<Option<Link>>, maxDepth: nat,
      maxPages: nat,
                            concurrency: nat, revisit: bool, blacklist: seq<string>, stamps: nat -> Time): Db {
    var links := Written(entries);
    if links == [] || exists l <- links :: !DomainUrlOk(domain, l) then db
    else EnqueueAll(OpenBudget(db, owner, maxPages),
        DomainRequest(db, owner, domain, maxDepth, maxPages, concurrency, revisit),
                    NormalizedLinks(links), blacklist, stamps)
  }

  function DomainRequest(db: Db, owner: string, domain: string, maxDepth: nat, maxPages: nat, concurrency: nat,
                         revisit: bool): EnqueueRequest {
    SeedRequest(db, owner, maxDepth, maxPages, concurrency, SameDomain, 50, revisit).(host := Some(domain))
  }

  function NormalizedLinks(links: seq<Link>): seq<Link> {
    seq(|links|, i requires 0 <= i < |links| => if links[i].Some? then NormalizeUrl(links[i].value) else None)
  }

  /** Revisiting a page whose document is old, on the budget of its source job but with room for one page. */
  function RecrawlRequest(source: Job, host: string): EnqueueRequest {
    EnqueueRequest(owner := source.owner, budget := source.budget, depth := 0, maxDepth := 10, maxPages := 1,
                   concurrency := 1, scope := source.scope, host := Some(host), maxDiscovered := 0,
                   allowRevisit := true)
  }

  function AdaptiveRecrawl(db: Db, source: nat, page: Link, host: string, blacklist: seq<string>,
      stamps: nat -> Time): Db {
    if source !in db.jobs then db
    else EnqueueAll(db, RecrawlRequest(db.jobs[source], host), [page], blacklist, stamps)
  }

  /** The source job itself fills the one page of room, so the adaptive recrawl never changes anything. */
  lemma AdaptiveRecrawlDoesNothing(db: Db, source: nat, page: Link, host: string, blacklist: seq<string>,
      stamps: nat -> Time)
    ensures AdaptiveRecrawl(db, source, page, host, blacklist, stamps) == db
  {
    if source in db.jobs {
      var req := RecrawlRequest(db.jobs[source], host);
      assert source in BudgetJobs(db, req.owner, req.budget);
      FullBudgetAddsNothing(db, req, [page], blacklist, stamps);
    }
  }

  /** Links that pass the domain check are inside the request's scope. */
  lemma DomainLinksInScope(domain: string, links: seq<Link>)
    requires forall l <- links :: DomainUrlOk(domain, l)
    ensures forall l <- NormalizedLinks(links) :: LinkAllowed(l, SameDomain, Some(domain))
  {
    forall l | l in NormalizedLinks(links)
      ensures LinkAllowed(l, SameDomain, Some(domain))
    {
      var i :| 0 <= i < |links| && NormalizedLinks(links)[i] == l;
      assert DomainUrlOk(domain, links[i]);
    }
  }
}
