/** What enqueueing keeps over whole runs: page budgets, unique URLs, depth and discovery scope. */
module Budgets {
  import opened Wrappers
  import opened Urls
  import opened Tables
  import opened Counting
  import opened Frontier
  import opened Enqueue
  import opened Seeding
  import opened Ingest
  import opened Projection
  import opened Protocol
  import opened JobInvariants

  function PagesOf(db: Db, budget: nat): set<nat> {
    set id | id in db.jobs && db.jobs[id].budget == budget
  }

  predicate OnBudget(db: Db, j: Job) {
    j.budget < |db.budgets| && j.owner == db.budgets[j.budget].owner && j.maxPages == db.budgets[j.budget].pages
  }

  /** All jobs of a budget carry its owner and page limit, and number at most that many. */
  ghost predicate BudgetsOk(db: Db) {
    && (forall id <- db.jobs :: OnBudget(db, db.jobs[id]))
    && (forall b: nat :: b < |db.budgets| ==> db.budgets[b].pages >= 1 && |PagesOf(db, b)| <= db.budgets[b].pages)
  }

  lemma OwnerCountIsPageCount(db: Db, b: nat)
    requires BudgetsOk(db) && b < |db.budgets|
    ensures BudgetJobs(db, db.budgets[b].owner, b) == PagesOf(db, b)
  {
    forall id | id in PagesOf(db, b)
      ensures id in BudgetJobs(db, db.budgets[b].owner, b)
    {
      assert OnBudget(db, db.jobs[id]);
    }
  }

  /** A table whose rows are some of another's, with the same budget columns, keeps its budgets. */
  lemma FewerRowsKeepBudgets(db: Db, after: Db)
    requires BudgetsOk(db) && after.budgets == db.budgets && after.jobs.Keys <= db.jobs.Keys
    requires forall id <- after.jobs :: SameRow(db.jobs[id], after.jobs[id])
    ensures BudgetsOk(after)
  {
    forall id | id in after.jobs
      ensures OnBudget(after, after.jobs[id])
    {
      assert OnBudget(db, db.jobs[id]);
    }
    forall b: nat | b < |after.budgets|
      ensures |PagesOf(after, b)| <= after.budgets[b].pages
    {
      assert PagesOf(after, b) <= PagesOf(db, b);
      SubsetCard(PagesOf(after, b), PagesOf(db, b));
    }
  }

  /** Enqueueing on a budget with the budget's own limit keeps all budgets. */
  lemma EnqueueKeepsBudgets(db: Db, req: EnqueueRequest, links: seq<Link>, blacklist: seq<string>, stamps: nat -> Time)
    requires BudgetsOk(db) && IdsBelow(db) && req.budget < |db.budgets|
    requires req.owner == db.budgets[req.budget].owner && Max(req.maxPages, 1) == db.budgets[req.budget].pages
    ensures BudgetsOk(EnqueueAll(db, req, links, blacklist, stamps))
  {
    var used := |BudgetJobs(db, req.owner, req.budget)|;
    var after := EnqueueFrom(db, req, links, used, blacklist, stamps);
    OwnerCountIsPageCount(db, req.budget);
    EnqueueFromEffect(db, req, links, used, blacklist, stamps);
    EnqueueFromWithinBudget(db, req, links, used, blacklist, stamps);
    assert forall id <- after.jobs :: OnBudget(after, after.jobs[id]) by {
      forall id | id in after.jobs
        ensures OnBudget(after, after.jobs[id])
      {
        if id in db.jobs {
          assert OnBudget(db, db.jobs[id]);
        } else {
          assert IsNewRow(after.jobs[id], req);
        }
      }
    }
    forall b: nat | b < |after.budgets|
      ensures |PagesOf(after, b)| <= after.budgets[b].pages
    {
      if b == req.budget {
        RequestRows(after, req);
      } else {
        OtherBudgetRows(db, after, req, b);
      }
    }
  }

  lemma RequestRows(after: Db, req: EnqueueRequest)
    requires req.budget < |after.budgets| && req.owner == after.budgets[req.budget].owner
    requires forall id <- after.jobs :: OnBudget(after, after.jobs[id])
    ensures PagesOf(after, req.budget) == BudgetJobs(after, req.owner, req.budget)
  {
  }

  lemma OtherBudgetRows(db: Db, after: Db, req: EnqueueRequest, b: nat)
    requires Enqueued(db, after, req) && b != req.budget
    ensures |PagesOf(after, b)| <= |PagesOf(db, b)|
  {
    forall id | id in PagesOf(after, b)
      ensures id in PagesOf(db, b)
    {
      assert id in db.jobs || IsNewRow(after.jobs[id], req);
    }
    SubsetCard(PagesOf(after, b), PagesOf(db, b));
  }

  lemma SeedKeepsBudgets(db: Db, e: Event)
    requires BudgetsOk(db) && IdsBelow(db) && IsSeeding(e)
    ensures BudgetsOk(After(db, e))
  {
    SeedingIsEnqueue(db, e);
    if After(db, e) != db {
      var (open, req, links) := SeedParts(db, e);
      OpeningKeepsBudgets(db, e.owner, e.maxPages);
      EnqueueKeepsBudgets(open, req, links, e.blacklist, e.stamps);
    }
  }

  lemma OpeningKeepsBudgets(db: Db, owner: string, maxPages: nat)
    requires BudgetsOk(db)
    ensures BudgetsOk(OpenBudget(db, owner, maxPages))
  {
    var open := OpenBudget(db, owner, maxPages);
    forall id | id in open.jobs
      ensures OnBudget(open, open.jobs[id])
    {
      assert OnBudget(db, db.jobs[id]);
    }
    forall b: nat | b < |open.budgets|
      ensures open.budgets[b].pages >= 1 && |PagesOf(open, b)| <= open.budgets[b].pages
    {
      assert PagesOf(open, b) == PagesOf(db, b);
      if b == |db.budgets| {
        assert forall id <- db.jobs :: OnBudget(db, db.jobs[id]);
        assert PagesOf(db, b) == {};
      }
    }
  }

  lemma WriteKeepsRows(db: Db, e: Event)
    requires (e.ApplyItem? || e.ApplyStops?) && CanApply(db, e.key)
    ensures var written := WriteStatus(db, e.key, e.clock, e.blacklist);
      && written == db.(jobs := written.jobs) && written.jobs.Keys == db.jobs.Keys
      && forall id <- db.jobs :: SameRow(db.jobs[id], written.jobs[id])
  {
    var j, r := db.jobs[e.key.1], db.items[e.key].result;
    WriteMoves(j, r, OutcomeOf(j, r, e.clock, e.blacklist), db.nextLease, e);
  }

  lemma WriteKeepsBudgets(db: Db, e: Event)
    requires BudgetsOk(db) && (e.ApplyItem? || e.ApplyStops?) && CanApply(db, e.key)
    ensures BudgetsOk(WriteStatus(db, e.key, e.clock, e.blacklist))
  {
    WriteKeepsRows(db, e);
    FewerRowsKeepBudgets(db, WriteStatus(db, e.key, e.clock, e.blacklist));
  }

  lemma ApplyKeepsBudgets(db: Db, e: Event)
    requires BudgetsOk(db) && IdsBelow(db) && (e.ApplyItem? || e.ApplyStops?) && CanApply(db, e.key)
    ensures BudgetsOk(After(db, e))
  {
    var j := db.jobs[e.key.1];
    var written := WriteStatus(db, e.key, e.clock, e.blacklist);
    WriteKeepsBudgets(db, e);
    assert OnBudget(db, j);
    EnqueueKeepsBudgets(written, ChildRequest(j), AppliedLinks(db, e), e.blacklist, e.stamps);
    ApplyAfterSpread(db, e);
    FewerRowsKeepBudgets(Spread(db, e), After(db, e));
  }

  lemma StepKeepsBudgets(db: Db, e: Event)
    requires BudgetsOk(db) && IdsBelow(db) && Enabled(db, e)
    ensures BudgetsOk(After(db, e))
  {
    if IsSeeding(e) {
      SeedKeepsBudgets(db, e);
    } else if e.ApplyItem? || e.ApplyStops? {
      ApplyKeepsBudgets(db, e);
    } else {
      StepEvolves(db, e);
      OnlyEnqueueAddsRows(db, e);
      FewerRowsKeepBudgets(db, After(db, e));
    }
  }

  /** Only seeding and applying add job rows. */
  lemma OnlyEnqueueAddsRows(db: Db, e: Event)
    requires IdsBelow(db) && Enabled(db, e) && !IsSeeding(e) && !e.ApplyItem? && !e.ApplyStops?
    ensures After(db, e).nextJob == db.nextJob && After(db, e).jobs.Keys <= db.jobs.Keys
  {
    if e.Recrawl? {
      RecrawlEvolves(db, e);
    } else if e.Report? {
      StageLoopEffect(db, e.owner, e.crawler, e.lease, e.results);
    } else if TakesBack(e) {
      TakingBackIsReturn(db, e);
    }
  }

  /** In every reachable state all jobs of a budget carry its page limit and number at most that many: through
      seedings, revisits, children of children, partial applies and adaptive recrawls. */
  lemma {:induction false} RunKeepsBudgets(states: seq<Db>, events: seq<Event>, i: nat)
    requires IsRun(states, events) && i < |states|
    ensures BudgetsOk(states[i])
  {
    if i > 0 {
      RunKeepsBudgets(states, events, i - 1);
      RunKeepsJobsOk(states, events, i - 1);
      assert StepAt(states, events, i - 1);
      StepKeepsBudgets(states[i - 1], events[i - 1]);
    }
  }

  // ---- depth, scope and unique URLs -------------------------------------

  /** A job is no deeper than its seeding allowed, at most ten, and its URL is in its own scope. */
  predicate PlaceOk(j: Job) {
    0 <= j.depth <= j.maxDepth <= 10 && InScope(j)
  }

  ghost predicate PlacesOk(db: Db) {
    forall id <- db.jobs :: PlaceOk(db.jobs[id])
  }

  lemma EnqueueKeepsPlaces(db: Db, req: EnqueueRequest, links: seq<Link>, blacklist: seq<string>, stamps: nat -> Time)
    requires PlacesOk(db) && IdsBelow(db) && 0 <= req.depth <= req.maxDepth <= 10
    requires req.host.Some? ==> forall l <- links :: LinkAllowed(l, req.scope, req.host)
    ensures PlacesOk(EnqueueAll(db, req, links, blacklist, stamps))
  {
    var used := |BudgetJobs(db, req.owner, req.budget)|;
    EnqueueFromEffect(db, req, links, used, blacklist, stamps);
    EnqueueInScope(db, req, links, used, blacklist, stamps);
    var after := EnqueueFrom(db, req, links, used, blacklist, stamps);
    forall id | id in after.jobs
      ensures PlaceOk(after.jobs[id])
    {
      if id !in db.jobs {
        assert IsNewRow(after.jobs[id], req);
      }
    }
  }

  lemma SeedKeepsPlaces(db: Db, e: Event)
    requires PlacesOk(db) && IdsBelow(db) && IsSeeding(e)
    ensures PlacesOk(After(db, e))
  {
    SeedingIsEnqueue(db, e);
    if After(db, e) != db {
      var (open, req, links) := SeedParts(db, e);
      if e.SubmitDomain? {
        DomainLinksInScope(e.domain, Written(e.entries));
      }
      EnqueueKeepsPlaces(open, req, links, e.blacklist, e.stamps);
    }
  }

  /** The links a page passes on are allowed under the job's own scope and anchor. */
  lemma ScopedLinksAllowed(j: Job, r: CrawlResult, blacklist: seq<string>)
    ensures forall l <- ScopedLinks(j, r, blacklist) :: LinkAllowed(l, j.scope, j.anchor)
  {
    AllowedLinksSound(r.discovered, j.scope, j.anchor);
  }

  lemma ApplyKeepsPlaces(db: Db, e: Event)
    requires PlacesOk(db) && IdsBelow(db) && (e.ApplyItem? || e.ApplyStops?) && CanApply(db, e.key)
    ensures PlacesOk(After(db, e))
  {
    SpreadKeepsPlaces(db, e);
    ApplyAfterSpread(db, e);
    SameRowsKeepPlaces(Spread(db, e), After(db, e));
  }

  lemma SpreadKeepsPlaces(db: Db, e: Event)
    requires PlacesOk(db) && IdsBelow(db) && (e.ApplyItem? || e.ApplyStops?) && CanApply(db, e.key)
    ensures PlacesOk(Spread(db, e))
  {
    var j, r := db.jobs[e.key.1], db.items[e.key].result;
    var written := WriteStatus(db, e.key, e.clock, e.blacklist);
    assert PlaceOk(j);
    WriteKeepsRows(db, e);
    SameRowsKeepPlaces(db, written);
    if SpawnsChildren(j, OutcomeOf(j, r, e.clock, e.blacklist)) {
      ScopedLinksAllowed(j, r, e.blacklist);
      EnqueueKeepsPlaces(written, ChildRequest(j), AppliedLinks(db, e), e.blacklist, e.stamps);
    }
  }

  lemma StepKeepsPlaces(db: Db, e: Event)
    requires PlacesOk(db) && IdsBelow(db) && Enabled(db, e)
    ensures PlacesOk(After(db, e))
  {
    if IsSeeding(e) {
      SeedKeepsPlaces(db, e);
    } else if e.ApplyItem? || e.ApplyStops? {
      ApplyKeepsPlaces(db, e);
    } else {
      StepEvolves(db, e);
      OnlyEnqueueAddsRows(db, e);
      SameRowsKeepPlaces(db, After(db, e));
    }
  }

  lemma SameRowsKeepPlaces(db: Db, after: Db)
    requires PlacesOk(db) && after.jobs.Keys <= db.jobs.Keys
    requires forall id <- after.jobs :: SameRow(db.jobs[id], after.jobs[id])
    ensures PlacesOk(after)
  {
  }

  /** Along arbitrarily long discovery chains no job is deeper than its seeding allowed (at most ten) and every job's
      URL lies in its own discovery scope around its own anchor host. */
  lemma {:induction false} RunKeepsPlaces(states: seq<Db>, events: seq<Event>, i: nat)
    requires IsRun(states, events) && i < |states|
    ensures PlacesOk(states[i])
  {
    if i > 0 {
      RunKeepsPlaces(states, events, i - 1);
      RunKeepsJobsOk(states, events, i - 1);
      assert StepAt(states, events, i - 1);
      StepKeepsPlaces(states[i - 1], events[i - 1]);
    }
  }

  lemma SameRowsKeepUrls(db: Db, after: Db)
    requires UniqueUrls(db) && after.jobs.Keys <= db.jobs.Keys
    requires forall id <- after.jobs :: SameRow(db.jobs[id], after.jobs[id])
    ensures UniqueUrls(after)
  {
  }

  lemma ApplyKeepsUrls(db: Db, e: Event)
    requires UniqueUrls(db) && IdsBelow(db) && (e.ApplyItem? || e.ApplyStops?) && CanApply(db, e.key)
    ensures UniqueUrls(After(db, e))
  {
    var j := db.jobs[e.key.1];
    var written := WriteStatus(db, e.key, e.clock, e.blacklist);
    WriteKeepsRows(db, e);
    SameRowsKeepUrls(db, written);
    EnqueueKeepsUniqueUrls(written, ChildRequest(j), AppliedLinks(db, e),
                           |BudgetJobs(written, ChildRequest(j).owner, ChildRequest(j).budget)|, e.blacklist, e.stamps);
    ApplyAfterSpread(db, e);
    SameRowsKeepUrls(Spread(db, e), After(db, e));
  }

  lemma StepKeepsUrls(db: Db, e: Event)
    requires UniqueUrls(db) && IdsBelow(db) && Enabled(db, e)
    ensures UniqueUrls(After(db, e))
  {
    if IsSeeding(e) {
      SeedingIsEnqueue(db, e);
      var (open, req, links) := SeedParts(db, e);
      EnqueueKeepsUniqueUrls(open, req, links, |BudgetJobs(open, req.owner, req.budget)|, e.blacklist, e.stamps);
    } else if e.ApplyItem? || e.ApplyStops? {
      ApplyKeepsUrls(db, e);
    } else {
      StepEvolves(db, e);
      OnlyEnqueueAddsRows(db, e);
      SameRowsKeepUrls(db, After(db, e));
    }
  }

  /** An owner never has two rows for one URL. */
  lemma {:induction false} RunKeepsUniqueUrls(states: seq<Db>, events: seq<Event>, i: nat)
    requires IsRun(states, events) && i < |states|
    ensures UniqueUrls(states[i])
  {
    if i > 0 {
      RunKeepsUniqueUrls(states, events, i - 1);
      RunKeepsJobsOk(states, events, i - 1);
      assert StepAt(states, events, i - 1);
      StepKeepsUrls(states[i - 1], events[i - 1]);
    }
  }
}
