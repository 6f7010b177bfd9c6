/** Where rows come from: every row descends from one seeding, through as many applied pages as it is deep. */
module Lineage {
  import opened Wrappers
  import opened Urls
  import opened Tables
  import opened Enqueue
  import opened Seeding
  import opened Outcome
  import opened Projection
  import opened Protocol
  import opened JobInvariants
  import opened Frontier
  import opened Capacity
  import opened Budgets
  import opened Discovery
  import opened Verdicts

  predicate Applies(e: Event) {
    e.ApplyItem? || e.ApplyStops?
  }

  // ---- one step ---------------------------------------------------------

  /** The links a seeding was given. */
  function Given(e: Event): seq<Link>
    requires IsSeeding(e)
  {
    if e.Seed? then e.links else Written(e.entries)
  }

  /** A row's columns that come from its seeding. */
  predicate Configured(j: Job, e: Event, budget: nat)
    requires IsSeeding(e)
  {
    && j.owner == e.owner && j.budget == budget && j.maxDepth == Min(e.maxDepth, 10)
    && j.maxPages == Max(1, Min(e.maxPages, 10_000)) && j.concurrency == Max(e.concurrency, 1)
    && (e.Seed? ==> j.scope == e.scope && j.maxDiscovered == Max(1, Min(e.maxDiscovered, 200)))
    && (e.SubmitDomain? ==> j.scope == SameDomain && j.maxDiscovered == 50 && j.anchor == Some(e.domain))
  }

  /** A row that a seeding adds. */
  predicate SeedRow(db: Db, e: Event, id: nat, j: Job)
    requires IsSeeding(e)
  {
    && Configured(j, e, |db.budgets|) && j.depth == 0 && j.priority == 80 && j.discoveredAt == e.stamps(id)
    && FromLinks(j, Given(e), e.blacklist)
  }

  /** A row that an apply adds to those of its own job: one deeper, for one of the links that may become rows. */
  ghost predicate ChildRow(db: Db, e: Event, id: nat, j: Job)
    requires Applies(e) && CanApply(db, e.key)
  {
    ChildOf(db.jobs[e.key.1], db.items[e.key].result.discovered, e.blacklist, e.stamps(id), j)
  }

  ghost predicate ChildOf(parent: Job, links: seq<Link>, blacklist: seq<string>, now: Time, j: Job) {
    && j.owner == parent.owner && j.budget == parent.budget
    && j.depth == parent.depth + 1 && j.maxDepth == parent.maxDepth && j.scope == parent.scope
    && j.maxPages == Max(parent.maxPages, 1) && j.concurrency == Max(parent.concurrency, 1)
    && j.maxDiscovered == Max(parent.maxDiscovered, 1) && (parent.anchor.Some? ==> j.anchor == parent.anchor)
    && j.discoveredAt == now && (0 <= j.depth <= 10 ==> j.priority == 80 - 3 * j.depth)
    && exists i: nat :: ChildLink(parent, links, blacklist, i) && StandsFor(j, links[i])
  }

  /** A link in reach, among the first that the job allows, that may become a row. */
  predicate ChildLink(parent: Job, links: seq<Link>, blacklist: seq<string>, i: nat) {
    InReachAt(links, parent.scope, parent.anchor, Max(parent.maxDiscovered, 1), i) && Crawlable(links[i], blacklist)
  }

  /** An apply adds rows at most if the page went well, is on no blacklisted domain, and is not as deep as allowed. */
  predicate MaySpread(db: Db, e: Event)
    requires Applies(e) && CanApply(db, e.key)
  {
    var j, r := db.jobs[e.key.1], db.items[e.key].result;
    j.depth < j.maxDepth && !Listed(r, e.blacklist) && (SkippedPage(r) || Indexed(r))
  }

  lemma SeedAdds(db: Db, e: Event, id: nat)
    requires IdsBelow(db) && IsSeeding(e) && id in After(db, e).jobs && id !in db.jobs
    ensures SeedRow(db, e, id, After(db, e).jobs[id])
  {
    SeedingIsEnqueue(db, e);
    var (open, req, links) := SeedParts(db, e);
    AddedRows(open, req, links, |BudgetJobs(open, req.owner, req.budget)|, e.blacklist, e.stamps, id);
    var j := After(db, e).jobs[id];
    if e.SubmitDomain? {
      NormalizedStands(j, Written(e.entries), e.blacklist);
    }
  }

  lemma NormalizedStands(j: Job, links: seq<Link>, blacklist: seq<string>)
    requires FromLinks(j, NormalizedLinks(links), blacklist)
    ensures FromLinks(j, links, blacklist)
  {
    var l :| l in NormalizedLinks(links) && Crawlable(l, blacklist) && StandsFor(j, l);
    var i :| 0 <= i < |links| && NormalizedLinks(links)[i] == l;
    NormalizeKeepsOrigin(links[i].value);
    assert links[i] in links && Crawlable(links[i], blacklist) && StandsFor(j, links[i]);
  }

  lemma ApplyAdds(db: Db, e: Event, id: nat)
    requires IdsBelow(db) && Applies(e) && CanApply(db, e.key) && id in After(db, e).jobs && id !in db.jobs
    ensures MaySpread(db, e) && ChildRow(db, e, id, After(db, e).jobs[id])
  {
    ApplyAddsAsked(db, e, id);
    var j, r, row := db.jobs[e.key.1], db.items[e.key].result, After(db, e).jobs[id];
    SpawnsIff(j, r, e.clock, e.blacklist);
    AskedIsChild(j, r, e.blacklist, AppliedLinks(db, e), e.stamps(id), row);
  }

  lemma ApplyAddsAsked(db: Db, e: Event, id: nat)
    requires IdsBelow(db) && Applies(e) && CanApply(db, e.key) && id in After(db, e).jobs && id !in db.jobs
    ensures var j, r, row := db.jobs[e.key.1], db.items[e.key].result, After(db, e).jobs[id];
      && SpawnsChildren(j, OutcomeOf(j, r, e.clock, e.blacklist))
      && AsAsked(row, ChildRequest(j), e.stamps(id)) && FromLinks(row, AppliedLinks(db, e), e.blacklist)
  {
    ApplyAfterSpread(db, e);
    var written, req := WriteStatus(db, e.key, e.clock, e.blacklist), ChildRequest(db.jobs[e.key.1]);
    AddedRows(written, req, AppliedLinks(db, e), |BudgetJobs(written, req.owner, req.budget)|, e.blacklist, e.stamps,
        id);
  }

  lemma AskedIsChild(j: Job, r: CrawlResult, blacklist: seq<string>, links: seq<Link>, now: Time, row: Job)
    requires AsAsked(row, ChildRequest(j), now) && FromLinks(row, links, blacklist)
    requires forall l <- links :: l in ScopedLinks(j, r, blacklist)
    ensures ChildOf(j, r.discovered, blacklist, now, row) && !Listed(r, blacklist)
  {
    var l :| l in links && Crawlable(l, blacklist) && StandsFor(row, l);
    ScopedLinkOnPage(j, r, blacklist, l);
    var i: nat :| InReachAt(r.discovered, j.scope, j.anchor, Max(j.maxDiscovered, 1), i) && r.discovered[i] == l;
    assert ChildLink(j, r.discovered, blacklist, i) && StandsFor(row, r.discovered[i]);
  }

  lemma SpawnsIff(j: Job, r: CrawlResult, clock: Time, blacklist: seq<string>)
    ensures SpawnsChildren(j, OutcomeOf(j, r, clock, blacklist))
       <==> j.depth < j.maxDepth && (Listed(r, blacklist) || SkippedPage(r) || Indexed(r))
  {
    BlacklistedIff(r, blacklist);
    OutcomeTable(r, j, clock);
  }

  lemma ScopedLinkOnPage(j: Job, r: CrawlResult, blacklist: seq<string>, l: Link)
    requires l in ScopedLinks(j, r, blacklist)
    ensures !Listed(r, blacklist)
    ensures exists i: nat ::
      InReachAt(r.discovered, j.scope, j.anchor, Max(j.maxDiscovered, 1), i) && r.discovered[i] == l
  {
    BlacklistedIff(r, blacklist);
    FilteredLinksIff(r.discovered, j.scope, j.anchor, Max(j.maxDiscovered, 1), l);
  }

  /** Rows are added by seedings and by applies alone, each as its event says. */
  lemma StepAdds(db: Db, e: Event, id: nat)
    requires IdsBelow(db) && Enabled(db, e) && id in After(db, e).jobs && id !in db.jobs
    ensures IsSeeding(e) || Applies(e)
    ensures IsSeeding(e) ==> SeedRow(db, e, id, After(db, e).jobs[id])
    ensures Applies(e) ==> MaySpread(db, e) && ChildRow(db, e, id, After(db, e).jobs[id])
  {
    if IsSeeding(e) {
      SeedAdds(db, e, id);
    } else if Applies(e) {
      ApplyAdds(db, e, id);
    } else {
      OnlyEnqueueAddsRows(db, e);
    }
  }

  // ---- whole runs -------------------------------------------------------

  /** Event b adds the row. */
  ghost predicate AddedAt(states: seq<Db>, events: seq<Event>, b: nat, id: nat)
    requires |states| == |events| + 1
  {
    b < |events| && id !in states[b].jobs && id in states[b + 1].jobs
  }

  /** The row was added by a seeding, and n applied pages on from it. */
  ghost predicate FoundAfter(states: seq<Db>, events: seq<Event>, id: nat, n: nat)
    requires |states| == |events| + 1
    decreases n, 1
  {
    exists b: nat :: AddedAt(states, events, b, id) && FoundThrough(states, events, b, n)
  }

  ghost predicate FoundThrough(states: seq<Db>, events: seq<Event>, b: nat, n: nat)
    requires |states| == |events| + 1 && b < |events|
    decreases n, 0
  {
    if n == 0 then IsSeeding(events[b])
    else Applies(events[b]) && FoundAfter(states, events, events[b].key.1, n - 1)
  }

  lemma AddedBy(states: seq<Db>, events: seq<Event>, b: nat, id: nat)
    requires IsRun(states, events) && AddedAt(states, events, b, id)
    ensures IsSeeding(events[b]) || Applies(events[b])
    ensures IsSeeding(events[b]) ==> SeedRow(states[b], events[b], id, states[b + 1].jobs[id])
    ensures Applies(events[b]) ==> Enabled(states[b], events[b]) && MaySpread(states[b], events[b])
                                   && ChildRow(states[b], events[b], id, states[b + 1].jobs[id])
  {
    RunKeepsJobsOk(states, events, b);
    assert StepAt(states, events, b);
    StepAdds(states[b], events[b], id);
  }

  lemma RowKept(states: seq<Db>, events: seq<Event>, i: nat, id: nat)
    requires IsRun(states, events) && i < |events| && id in states[i].jobs && id in states[i + 1].jobs
    ensures SameRow(states[i].jobs[id], states[i + 1].jobs[id])
  {
    RunKeepsJobsOk(states, events, i);
    assert StepAt(states, events, i);
    StepEvolves(states[i], events[i]);
  }

  lemma {:induction false} RowFound(states: seq<Db>, events: seq<Event>, i: nat, id: nat)
    requires IsRun(states, events) && i < |states| && id in states[i].jobs
    ensures states[i].jobs[id].depth >= 0 && FoundAfter(states, events, id, states[i].jobs[id].depth)
    decreases i
  {
    assert i > 0;
    var b := i - 1;
    if id in states[b].jobs {
      RowFound(states, events, b, id);
      RowKept(states, events, b, id);
    } else {
      assert AddedAt(states, events, b, id);
      AddedBy(states, events, b, id);
      if Applies(events[b]) {
        RowFound(states, events, b, events[b].key.1);
      }
      assert FoundThrough(states, events, b, states[i].jobs[id].depth);
    }
  }

  lemma {:induction false} IdsGrow(states: seq<Db>, events: seq<Event>, i: nat, k: nat)
    requires IsRun(states, events) && i <= k < |states|
    ensures states[i].nextJob <= states[k].nextJob
    decreases k
  {
    if i < k {
      IdsGrow(states, events, i, k - 1);
      IdsGrowOnce(states, events, k - 1);
    }
  }

  lemma IdsGrowOnce(states: seq<Db>, events: seq<Event>, k: nat)
    requires IsRun(states, events) && k < |events|
    ensures states[k].nextJob <= states[k + 1].nextJob
  {
    RunKeepsJobsOk(states, events, k);
    assert StepAt(states, events, k);
    StepEvolves(states[k], events[k]);
  }

  lemma AddedBetween(states: seq<Db>, events: seq<Event>, b: nat, id: nat)
    requires IsRun(states, events) && AddedAt(states, events, b, id)
    ensures states[b].nextJob <= id < states[b + 1].nextJob
  {
    RunKeepsJobsOk(states, events, b);
    assert StepAt(states, events, b);
    StepEvolves(states[b], events[b]);
  }

  /** A row is added only once. */
  lemma AddedOnce(states: seq<Db>, events: seq<Event>, b: nat, c: nat, id: nat)
    requires IsRun(states, events) && AddedAt(states, events, b, id) && AddedAt(states, events, c, id)
    ensures b == c
  {
    AddedBetween(states, events, b, id);
    AddedBetween(states, events, c, id);
    if b < c {
      IdsGrow(states, events, b + 1, c);
    } else if c < b {
      IdsGrow(states, events, c + 1, b);
    }
  }

  lemma {:induction false} FoundOnce(states: seq<Db>, events: seq<Event>, id: nat, n: nat, m: nat)
    requires IsRun(states, events) && FoundAfter(states, events, id, n) && FoundAfter(states, events, id, m)
    ensures n == m
    decreases n
  {
    var b: nat :| AddedAt(states, events, b, id) && FoundThrough(states, events, b, n);
    var c: nat :| AddedAt(states, events, c, id) && FoundThrough(states, events, c, m);
    AddedOnce(states, events, b, c, id);
    if n > 0 && m > 0 {
      FoundOnce(states, events, events[b].key.1, n - 1, m - 1);
    }
  }

  /** A row's depth is the number of applied pages between its seeding and itself, and so no chain of discoveries is
      longer than its seeding allowed. */
  lemma DepthIsDistance(states: seq<Db>, events: seq<Event>, i: nat, id: nat, n: nat)
    requires IsRun(states, events) && i < |states| && id in states[i].jobs
    ensures states[i].jobs[id].depth == n <==> FoundAfter(states, events, id, n)
    ensures FoundAfter(states, events, id, n) ==> n <= states[i].jobs[id].maxDepth <= 10
  {
    RowFound(states, events, i, id);
    if FoundAfter(states, events, id, n) {
      FoundOnce(states, events, id, n, states[i].jobs[id].depth);
    }
    RunKeepsPlaces(states, events, i);
    assert PlaceOk(states[i].jobs[id]);
  }

  /** The deeper a row, the less urgent it is. */
  lemma {:induction false} RunKeepsUrgency(states: seq<Db>, events: seq<Event>, i: nat, id: nat)
    requires IsRun(states, events) && i < |states| && id in states[i].jobs
    ensures 0 <= states[i].jobs[id].depth <= 10 && states[i].jobs[id].priority == 80 - 3 * states[i].jobs[id].depth
    decreases i
  {
    assert i > 0;
    RunKeepsPlaces(states, events, i);
    assert PlaceOk(states[i].jobs[id]);
    if id in states[i - 1].jobs {
      RunKeepsUrgency(states, events, i - 1, id);
      RowKept(states, events, i - 1, id);
    } else {
      assert AddedAt(states, events, i - 1, id);
      AddedBy(states, events, i - 1, id);
    }
  }

  /** The row has the columns that seeding b asked for, and the budget it opened. */
  ghost predicate Heir(states: seq<Db>, events: seq<Event>, b: nat, j: Job)
    requires |states| == |events| + 1
  {
    b < |events| && IsSeeding(events[b]) && Configured(j, events[b], |states[b].budgets|)
  }

  /** Every row, however it was found, has the owner, budget, limits, scope and concurrency that one earlier seeding
      asked for. */
  lemma {:induction false} RunKeepsHeritage(states: seq<Db>, events: seq<Event>, i: nat, id: nat)
    requires IsRun(states, events) && i < |states| && id in states[i].jobs
    ensures exists b: nat :: b < i && Heir(states, events, b, states[i].jobs[id])
    decreases i
  {
    assert i > 0;
    var last := i - 1;
    if id in states[last].jobs {
      RunKeepsHeritage(states, events, last, id);
      RowKept(states, events, last, id);
      var b: nat :| b < last && Heir(states, events, b, states[last].jobs[id]);
      assert Heir(states, events, b, states[i].jobs[id]);
    } else {
      assert AddedAt(states, events, last, id);
      AddedBy(states, events, last, id);
      if IsSeeding(events[last]) {
        assert Heir(states, events, last, states[i].jobs[id]);
      } else {
        var parent := events[last].key.1;
        RunKeepsHeritage(states, events, last, parent);
        var b: nat :| b < last && Heir(states, events, b, states[last].jobs[parent]);
        assert Heir(states, events, b, states[i].jobs[id]);
      }
    }
  }

  /** If no seeding of an owner asked for more than c jobs at a time, no origin of the owner ever has more than c jobs
      claimed or ingesting. */
  lemma ConcurrencyRespected(states: seq<Db>, events: seq<Event>, i: nat, row: (string, OriginKey), c: int)
    requires IsRun(states, events) && i < |states| && c >= 1
    requires forall b :: 0 <= b < i && IsSeeding(events[b]) && events[b].owner == row.0 ==> events[b].concurrency <= c
    ensures var jobs := states[i].jobs;
      |set id | id in jobs && jobs[id].status in {Claimed, Ingesting} && (jobs[id].owner, jobs[id].origin) == row| <= c
  {
    var db := states[i];
    RunKeepsCap(states, events, i);
    forall id | id in ActiveOn(db, row)
      ensures db.jobs[id].concurrency <= c
    {
      RunKeepsHeritage(states, events, i, id);
      var b: nat :| b < i && Heir(states, events, b, db.jobs[id]);
    }
    CapBoundsActive(db, row, c);
    assert ActiveOn(db, row) == set id | id in db.jobs && db.jobs[id].status in {Claimed, Ingesting}
                                         && (db.jobs[id].owner, db.jobs[id].origin) == row;
  }

  // ---- nothing is left out ----------------------------------------------

  /** The owner has a row for the link, and after a revisit one still to be crawled. */
  ghost predicate HasRowFor(db: Db, owner: string, l: Link, revisited: bool) {
    exists id ::
      id in db.jobs && db.jobs[id].owner == owner && l.Some? && NormalizeUrl(l.value) == Some(db.jobs[id].url)
      && (revisited ==> db.jobs[id].status in {Queued, Claimed, Ingesting})
  }

  /** A seeding is accepted if there are URLs, and, for a developer's own domain, if all of them lie on it. */
  predicate Accepted(e: Event)
    requires IsSeeding(e)
  {
    Given(e) != [] && (e.SubmitDomain? ==> forall l <- Given(e) :: LiesOn(e.domain, l))
  }

  /** An accepted seeding leaves out no URL that may become a row, unless its rows fill the budget it opened; one that
      is refused changes nothing. */
  lemma SeedTakesAll(db: Db, e: Event, l: Link)
    requires BudgetsOk(db) && IdsBelow(db) && IsSeeding(e)
    ensures !Accepted(e) ==> After(db, e) == db
    ensures Accepted(e) && l in Given(e) && Crawlable(l, e.blacklist) ==>
      || HasRowFor(After(db, e), e.owner, l, e.revisit)
      || After(db, e).nextJob - db.nextJob >= Max(1, Min(e.maxPages, 10_000))
  {
    var (open, req, links) := SeedParts(db, e);
    AcceptedIff(e);
    if Accepted(e) && l in Given(e) && Crawlable(l, e.blacklist) {
      assert BudgetJobs(open, req.owner, req.budget) == {} by {
        assert forall id <- db.jobs :: OnBudget(db, db.jobs[id]);
      }
      assert After(db, e) == EnqueueFrom(open, req, links, 0, e.blacklist, e.stamps);
      var offered := if e.Seed? then l else NormalizeUrl(l.value);
      OfferedLink(e, l);
      NonePassedOver(open, req, links, 0, e.blacklist, e.stamps, offered);
      if Present(After(db, e), req, offered) {
        var id :| id in After(db, e).jobs && RowPresent(After(db, e).jobs[id], req, offered);
        assert HasRowFor(After(db, e), e.owner, l, e.revisit);
      }
    }
  }

  lemma AcceptedIff(e: Event)
    requires IsSeeding(e)
    ensures Accepted(e) <==> Given(e) != [] && (e.SubmitDomain? ==> forall l <- Given(e) :: DomainUrlOk(e.domain, l))
  {
    if e.SubmitDomain? {
      forall l | l in Given(e)
        ensures DomainUrlOk(e.domain, l) <==> LiesOn(e.domain, l)
      {
        DomainUrlOkIff(e.domain, l);
      }
    }
  }

  /** A domain's URLs are enqueued in normal form. */
  lemma OfferedLink(e: Event, l: Link)
    requires IsSeeding(e) && l in Given(e) && Crawlable(l, e.blacklist)
    ensures var offered := if e.Seed? then l else NormalizeUrl(l.value);
      && offered in (if e.Seed? then e.links else NormalizedLinks(Given(e)))
      && Crawlable(offered, e.blacklist) && NormalizeUrl(offered.value) == NormalizeUrl(l.value)
  {
    if e.SubmitDomain? {
      var i :| 0 <= i < |Given(e)| && Given(e)[i] == l;
      assert NormalizedLinks(Given(e))[i] == NormalizeUrl(l.value);
      NormalizeKeepsOrigin(l.value);
    }
  }

  /** An apply that may spread leaves out no link that may become a row, unless the rows of the budget reach its page
      limit. */
  lemma ApplySpreadsAll(db: Db, e: Event, i: nat)
    requires IdsBelow(db) && e.ApplyItem? && CanApply(db, e.key) && MaySpread(db, e)
    requires ChildLink(db.jobs[e.key.1], db.items[e.key].result.discovered, e.blacklist, i)
    ensures var j, links := db.jobs[e.key.1], db.items[e.key].result.discovered;
      || HasRowFor(After(db, e), j.owner, links[i], false)
      || |BudgetJobs(db, j.owner, j.budget)| + After(db, e).nextJob - db.nextJob >= Max(j.maxPages, 1)
  {
    var j, r := db.jobs[e.key.1], db.items[e.key].result;
    var l := r.discovered[i];
    ApplyAfterSpread(db, e);
    SpawnsIff(j, r, e.clock, e.blacklist);
    ReachedLink(j, r, e.blacklist, i);
    var written, req := WriteStatus(db, e.key, e.clock, e.blacklist), ChildRequest(j);
    WriteKeepsRows(db, e);
    assert BudgetJobs(written, j.owner, j.budget) == BudgetJobs(db, j.owner, j.budget);
    NonePassedOver(written, req, ScopedLinks(j, r, e.blacklist), |BudgetJobs(written, req.owner, req.budget)|,
        e.blacklist, e.stamps, l);
    if Present(Spread(db, e), req, l) {
      var id :| id in Spread(db, e).jobs && RowPresent(Spread(db, e).jobs[id], req, l);
      assert id in After(db, e).jobs;
    }
  }

  /** Such a link is among those the projector offers. */
  lemma ReachedLink(j: Job, r: CrawlResult, blacklist: seq<string>, i: nat)
    requires ChildLink(j, r.discovered, blacklist, i) && !Listed(r, blacklist)
    ensures r.discovered[i] in ScopedLinks(j, r, blacklist)
  {
    BlacklistedIff(r, blacklist);
    MatchesDomainsIff(r.discovered[i], blacklist);
    FilteredLinksIff(r.discovered, j.scope, j.anchor, Max(j.maxDiscovered, 1), r.discovered[i]);
  }
}
