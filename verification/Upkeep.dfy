/** What recoveries, reports and the administrator's operations do to each row, said of its columns alone, and what that
    means for the rest of a run. */
module Upkeep {
  import opened Wrappers
  import opened Urls
  import opened Tables
  import opened Frontier
  import opened Enqueue
  import opened Ingest
  import opened Projection
  import opened Recovery
  import opened Protocol
  import opened JobInvariants
  import opened Fencing
  import opened Verdicts
  import opened Lineage
  import opened Dispatch

  // ---- taking claims back -----------------------------------------------

  /** The jobs an event takes back: claims, or ingesting jobs, from before the timeout, or a deleted crawler's
      claims. */
  predicate ToTakeBack(j: Job, e: Event)
    requires TakesBack(e)
  {
    match e
    case RequeueStale(now, timeout) =>
      j.status.Claimed? && j.claimedAt.Some? && j.claimedAt.value + timeout < now
    case RecoverIngesting(now, timeout) =>
      j.status.Ingesting? && j.claimedAt.Some? && j.claimedAt.value + timeout < now
    case DeleteCrawler(owner, crawler, _) =>
      j.owner == owner && j.status.Claimed? && j.claimedBy == Some(crawler)
  }

  /** A job taken back waits half a minute for another try, or is dead if it has none left. */
  predicate IsTakenBack(j: Job, k: Job, now: Time) {
    && SameRow(j, k) && SameCounts(j, k) && Unclaimed(k) && k.requiresJs == j.requiresJs && k.finalUrl == j.finalUrl
    && k.status == (if TriesLeft(j) then Queued else DeadLetter)
    && k.nextRetryAt == (if TriesLeft(j) then Some(now + 30) else None)
  }

  ghost predicate TookBack(db: Db, after: Db, e: Event)
    requires TakesBack(e)
  {
    && after.jobs.Keys == db.jobs.Keys
    && forall id <- db.jobs ::
         if ToTakeBack(db.jobs[id], e) then IsTakenBack(db.jobs[id], after.jobs[id], e.now)
         else after.jobs[id] == db.jobs[id]
  }

  /** Exactly these jobs are taken back; all other rows stay as they are. */
  lemma TakesBackExactly(db: Db, e: Event)
    requires TakesBack(e) && JobsOk(db)
    ensures TookBack(db, After(db, e), e)
  {
    TakingBackIsReturn(db, e);
    forall id | id in db.jobs
      ensures id in TakenBack(db, e) <==> ToTakeBack(db.jobs[id], e)
      ensures ToTakeBack(db.jobs[id], e) ==> IsTakenBack(db.jobs[id], ReturnedJob(db.jobs[id], e.now), e.now)
    {
      TriesLeftIff(db.jobs[id]);
      assert JobOk(db.jobs[id], db.nextLease);
    }
  }

  lemma TriesLeftIff(j: Job)
    ensures TriesLeft(j) <==> !Exhausted(j)
  {
  }

  /** The recovery of ingesting jobs fails the items not yet settled that they were ingesting; other items stay. */
  ghost predicate FailedWith(db: Db, items: map<(nat, nat), Item>, e: Event)
    requires e.RecoverIngesting?
  {
    && items.Keys == db.items.Keys
    && forall key <- items :: items[key] ==
         if key.1 in db.jobs && ToTakeBack(db.jobs[key.1], e) && db.jobs[key.1].lease == Some(key.0)
            && db.items[key].status in {Pending, Processing}
         then db.items[key].(status := ItemFailed) else db.items[key]
  }

  lemma RecoveryFailsItems(db: Db, e: Event)
    requires e.RecoverIngesting?
    ensures FailedWith(db, After(db, e).items, e)
  {
  }

  /** A claim of an earlier time that is still active when its kind of recovery runs, with more than the timeout gone,
      does not outlive it. */
  lemma LateClaimsEnd(states: seq<Db>, events: seq<Event>, c: nat, i: nat, id: nat)
    requires IsRun(states, events) && c < i < |events| && events[c].Claim? && id in events[c].picked
    requires events[i].RequeueStale? || events[i].RecoverIngesting?
    requires events[c].now + events[i].timeout < events[i].now
    requires IsActivePair(states[i], (states[c].nextLease, id))
    requires states[i].jobs[id].status == if events[i].RequeueStale? then Claimed else Ingesting
    ensures id in states[i + 1].jobs && IsTakenBack(states[i].jobs[id], states[i + 1].jobs[id], events[i].now)
  {
    RunKeepsHolders(states, events, i, id);
    var k: nat :| k < i && HandedOut(states, events, k, id, states[i].jobs[id]);
    LeaseOfOneClaim(states, events, c, k);
    RunKeepsJobsOk(states, events, i);
    assert StepAt(states, events, i);
    TakesBackExactly(states[i], events[i]);
  }

  lemma LeaseOfOneClaim(states: seq<Db>, events: seq<Event>, c: nat, k: nat)
    requires IsRun(states, events) && c < |events| && k < |events| && events[c].Claim? && events[k].Claim?
    requires states[c].nextLease == states[k].nextLease
    ensures c == k
  {
    if c < k {
      LeaseNotReissued(states, events, c, k);
    } else if k < c {
      LeaseNotReissued(states, events, k, c);
    }
  }

  // ---- stopping, cleaning up, reviving ----------------------------------

  predicate Unfinished(j: Job) {
    j.status in {Queued, Claimed, Ingesting}
  }

  /** A stop leaves the owner's finished jobs and all jobs of others, as they are, and nothing else. */
  ghost predicate OnlyFinishedLeft(jobs: map<nat, Job>, after: map<nat, Job>, owner: string) {
    && (forall id <- jobs :: id in after <==> !(jobs[id].owner == owner && Unfinished(jobs[id])))
    && (forall id <- after :: id in jobs && after[id] == jobs[id])
  }

  function UnfinishedJobs(jobs: map<nat, Job>, owner: string): set<nat> {
    set id | id in jobs && jobs[id].owner == owner && Unfinished(jobs[id])
  }

  lemma StopLeavesFinished(db: Db, owner: string)
    ensures OnlyFinishedLeft(db.jobs, DeleteUnfinished(db, owner).jobs, owner)
    ensures |db.jobs| - |DeleteUnfinished(db, owner).jobs| == |UnfinishedJobs(db.jobs, owner)|
  {
    var gone := UnfinishedJobs(db.jobs, owner);
    assert UnfinishedOf(db, owner) == gone;
    var after := DeleteJobs(db, gone).jobs;
    assert DeleteUnfinished(db, owner).jobs == after;
    DeletedCount(db, gone);
  }

  /** The two cleanups remove exactly the owner's succeeded jobs, and exactly the other finished ones. */
  lemma CleanupLeavesOthers(db: Db, owner: string, id: nat)
    requires id in db.jobs
    ensures var done, failed := After(db, CleanupCompleted(owner)).jobs, After(db, CleanupFailed(owner)).jobs;
      && (id in done <==> !(db.jobs[id].owner == owner && db.jobs[id].status.Succeeded?))
      && (id in failed <==> !(db.jobs[id].owner == owner && db.jobs[id].status in {Failed, Blocked, DeadLetter}))
      && (id in done ==> done[id] == db.jobs[id]) && (id in failed ==> failed[id] == db.jobs[id])
  {
  }

  predicate ToRevive(j: Job, owner: string) {
    j.owner == owner && j.status in {Failed, DeadLetter}
  }

  /** A revived job is queued and due at once, with the tries it had. */
  predicate IsRevived(j: Job, k: Job) {
    && SameRow(j, k) && k.status.Queued? && Unclaimed(k) && k.nextRetryAt.None? && k.finalUrl.None?
    && k.attempts == j.attempts && k.requiresJs == j.requiresJs
  }

  /** Reviving touches exactly the owner's failed and dead jobs. */
  ghost predicate OnlyRevived(jobs: map<nat, Job>, after: map<nat, Job>, owner: string) {
    && after.Keys == jobs.Keys
    && forall id <- jobs ::
         if ToRevive(jobs[id], owner) then IsRevived(jobs[id], after[id]) else after[id] == jobs[id]
  }

  lemma RetryRevives(db: Db, owner: string)
    ensures OnlyRevived(db.jobs, RetryFailedJobs(db, owner).jobs, owner)
  {
  }

  /** A seeding of the owner, or a revival. */
  predicate GivesWork(e: Event, owner: string) {
    (IsSeeding(e) || e.RetryFailed?) && e.owner == owner
  }

  /** All jobs of the owner are finished. */
  ghost predicate AllFinished(db: Db, owner: string) {
    forall id <- db.jobs :: db.jobs[id].owner == owner ==> !Unfinished(db.jobs[id])
  }

  /** Only a seeding of the owner or a revival gives an owner whose jobs are all finished work again. */
  lemma FinishedStays(db: Db, e: Event, owner: string)
    requires JobsOk(db) && Enabled(db, e) && AllFinished(db, owner) && !GivesWork(e, owner)
    ensures AllFinished(After(db, e), owner)
  {
    StepEvolves(db, e);
    forall id | id in After(db, e).jobs && After(db, e).jobs[id].owner == owner
      ensures !Unfinished(After(db, e).jobs[id])
    {
      FinishedRow(db, e, After(db, e), owner, id);
    }
  }

  lemma FinishedRow(db: Db, e: Event, after: Db, owner: string, id: nat)
    requires JobsOk(db) && Next(db, e, after) && Evolves(db, e, after) && AllFinished(db, owner)
    requires !GivesWork(e, owner) && id in after.jobs && after.jobs[id].owner == owner
    ensures !Unfinished(after.jobs[id])
  {
    if e.RetryFailed? {
      RetryRevives(db, e.owner);
    } else if id in db.jobs {
      FinishedMove(db, e, after, id);
    } else {
      StepAdds(db, e, id);
    }
  }

  lemma FinishedMove(db: Db, e: Event, after: Db, id: nat)
    requires Evolves(db, e, after) && id in db.jobs && id in after.jobs && !Unfinished(db.jobs[id])
    ensures Unfinished(after.jobs[id]) ==> e.RetryFailed?
  {
    assert MoveAllowed(e, db.jobs[id], after.jobs[id], db.nextLease);
  }

  /** After a stop no job of the owner is handed out until the owner seeds again or revives jobs. */
  lemma {:induction false} StopFinishes(states: seq<Db>, events: seq<Event>, i: nat, k: nat, owner: string)
    requires IsRun(states, events) && i < k < |states| && events[i] == StopJobs(owner)
    requires forall m :: i < m < k ==> !GivesWork(events[m], owner)
    ensures AllFinished(states[k], owner)
    decreases k
  {
    assert StepAt(states, events, k - 1);
    if i < k - 1 {
      StopFinishes(states, events, i, k - 1, owner);
      RunKeepsJobsOk(states, events, k - 1);
      FinishedStays(states[k - 1], events[k - 1], owner);
    } else {
      StopLeavesFinished(states[i], owner);
    }
  }

  /** After a stop no job of the owner is handed out until the owner seeds again or revives jobs. */
  lemma StopSilences(states: seq<Db>, events: seq<Event>, i: nat, k: nat, owner: string)
    requires IsRun(states, events) && i < k < |events| && events[i] == StopJobs(owner)
    requires forall m :: i < m < k ==> !GivesWork(events[m], owner)
    ensures events[k].Claim? && events[k].owner == owner ==> events[k].picked == {}
  {
    StopFinishes(states, events, i, k, owner);
    assert StepAt(states, events, k);
    if events[k].Claim? && events[k].owner == owner {
      NoneToHandOut(states[k], events[k]);
    }
  }

  lemma NoneToHandOut(db: Db, e: Event)
    requires e.Claim? && Enabled(db, e) && AllFinished(db, e.owner)
    ensures e.picked == {}
  {
    ClaimTakesWaiting(db, e);
    assert forall id :: !Waiting(db, e.owner, e.js, e.now, id);
  }

  // ---- reports ----------------------------------------------------------

  predicate Holds(db: Db, owner: string, crawler: string, lease: nat, id: nat) {
    && id in db.jobs && db.jobs[id].owner == owner
    && db.jobs[id].claimedBy == Some(crawler) && db.jobs[id].lease == Some(lease)
  }

  /** A result may be reported for a job that its sender holds, if it is for the job's URL, or for a pair that was
      staged before. */
  predicate Reportable(db: Db, owner: string, crawler: string, lease: nat, r: CrawlResult) {
    if Holds(db, owner, crawler, lease, r.jobId) then db.jobs[r.jobId].url == r.url else (lease, r.jobId) in db.items
  }

  /** A report is accepted exactly if each of its results may be reported. */
  lemma {:induction false} ReportAcceptedIff(db: Db, owner: string, crawler: string, lease: nat,
      results: seq<CrawlResult>)
    ensures StageLoop(db, owner, crawler, lease, results).ok <==>
            forall r <- results :: Reportable(db, owner, crawler, lease, r)
    decreases |results|
  {
    if results != [] {
      var r := results[0];
      assert ReportAllowed(db, owner, crawler, lease, r) <==> Reportable(db, owner, crawler, lease, r);
      if Reportable(db, owner, crawler, lease, r) {
        var mid := StageItem(db, owner, crawler, lease, r);
        ReportAcceptedIff(mid, owner, crawler, lease, results[1..]);
        assert forall x :: Reportable(mid, owner, crawler, lease, x) <==> Reportable(db, owner, crawler, lease, x);
        assert forall x :: x in results <==> x == r || x in results[1..];
      } else {
        assert r in results;
      }
    }
  }

  /** An accepted report makes exactly the jobs it is about, and that its sender still works on, ingesting; a refused
      one changes no job. */
  lemma ReportMovesJobs(db: Db, e: Event, id: nat)
    requires e.Report? && id in db.jobs
    ensures id in After(db, e).jobs && After(db, e).jobs[id] ==
      if (forall r <- e.results :: Reportable(db, e.owner, e.crawler, e.lease, r))
         && (exists r <- e.results :: r.jobId == id)
         && Holds(db, e.owner, e.crawler, e.lease, id) && db.jobs[id].status in {Claimed, Ingesting}
      then db.jobs[id].(status := Ingesting) else db.jobs[id]
  {
    ReportAcceptedIff(db, e.owner, e.crawler, e.lease, e.results);
    StageLoopEffect(db, e.owner, e.crawler, e.lease, e.results);
    assert id in ReportedIds(e.results) <==> exists r <- e.results :: r.jobId == id;
  }

  /** Staging keeps the status of items that were there, and new ones are pending. */
  lemma {:induction false} StagingKeepsStatus(db: Db, owner: string, crawler: string, lease: nat,
      results: seq<CrawlResult>, key: (nat, nat))
    requires key in StageLoop(db, owner, crawler, lease, results).db.items
    ensures var item := StageLoop(db, owner, crawler, lease, results).db.items[key];
      if key in db.items then item.status == db.items[key].status && item.startedAt == db.items[key].startedAt
      else item.status.Pending? && item.startedAt.None?
    decreases |results|
  {
    if results != [] && ReportAllowed(db, owner, crawler, lease, results[0]) {
      StagingKeepsStatus(StageItem(db, owner, crawler, lease, results[0]), owner, crawler, lease, results[1..], key);
    }
  }

  // ---- items that are stuck ---------------------------------------------

  /** An item whose projector took it longer than the timeout ago, with its job still there. */
  predicate Stuck(db: Db, key: (nat, nat), now: Time, timeout: nat) {
    && key in db.items && db.items[key].status.Processing?
    && db.items[key].startedAt.Some? && db.items[key].startedAt.value + Max(timeout, 1) < now
    && key.1 in db.jobs && db.jobs[key.1].owner == db.items[key].owner
  }

  /** Stuck items wait for a projector again while their job is ingesting, and are failed otherwise; others stay. */
  ghost predicate Unstuck(db: Db, items: map<(nat, nat), Item>, now: Time, timeout: nat) {
    && items.Keys == db.items.Keys
    && forall key <- items :: items[key] ==
         if !Stuck(db, key, now, timeout) then db.items[key]
         else if db.jobs[key.1].status.Ingesting? then db.items[key].(status := Pending, startedAt := None)
         else db.items[key].(status := ItemFailed)
  }

  lemma RecoveryUnsticks(db: Db, now: Time, timeout: nat)
    ensures var after := After(After(db, ReplayItems(now, timeout)), AbandonItems(now, timeout));
      Unstuck(db, after.items, now, timeout) && after == db.(items := after.items)
  {
    var mid := After(db, ReplayItems(now, timeout));
    var after := After(mid, AbandonItems(now, timeout));
    forall key | key in db.items
      ensures Stuck(db, key, now, timeout) <==> StaleItem(db, key, now - Max(timeout, 1))
      ensures StaleItem(mid, key, now - Max(timeout, 1)) <==>
              StaleItem(db, key, now - Max(timeout, 1)) && !db.jobs[key.1].status.Ingesting?
    {
    }
  }

  lemma ProcessingStep(db: Db, e: Event, key: (nat, nat))
    requires JobsOk(db) && Enabled(db, e) && key in After(db, e).items && After(db, e).items[key].status.Processing?
    ensures if e.TakeItems? && key in e.taken then After(db, e).items[key].startedAt == Some(e.now)
            else key in db.items && db.items[key].status.Processing?
                 && After(db, e).items[key].startedAt == db.items[key].startedAt
  {
    if IsSeeding(e) {
      SeedingKeepsItems(db, e);
    } else if e.Recrawl? {
      RecrawlEvolves(db, e);
    } else if e.ApplyItem? || e.ApplyStops? {
      ApplyKeepsItems(db, e);
    } else if e.Report? {
      StagingKeepsStatus(db, e.owner, e.crawler, e.lease, e.results, key);
    } else {
      ProcessingEvent(db, e, key);
    }
  }

  lemma ProcessingEvent(db: Db, e: Event, key: (nat, nat))
    requires !IsSeeding(e) && !e.Recrawl? && !e.ApplyItem? && !e.ApplyStops? && !e.Report?
    requires key in After(db, e).items && After(db, e).items[key].status.Processing?
    ensures if e.TakeItems? && key in e.taken then After(db, e).items[key].startedAt == Some(e.now)
            else key in db.items && db.items[key].status.Processing?
                 && After(db, e).items[key].startedAt == db.items[key].startedAt
  {
    if e.RequeueStale? || e.DeleteCrawler? {
      TakingBackIsReturn(db, e);
    }
  }

  ghost predicate TakenAt(events: seq<Event>, c: nat, key: (nat, nat), t: Time) {
    c < |events| && events[c].TakeItems? && key in events[c].taken && events[c].now == t
  }

  /** An item in a projector's hands was taken by an earlier drain, at the time that it says. */
  lemma {:induction false} RunKeepsTakers(states: seq<Db>, events: seq<Event>, i: nat, key: (nat, nat))
    requires IsRun(states, events) && i < |states| && key in states[i].items && states[i].items[key].status.Processing?
    ensures states[i].items[key].startedAt.Some?
    ensures exists c: nat :: c < i && TakenAt(events, c, key, states[i].items[key].startedAt.value)
    decreases i
  {
    assert i > 0;
    RunKeepsJobsOk(states, events, i - 1);
    assert StepAt(states, events, i - 1);
    ProcessingStep(states[i - 1], events[i - 1], key);
    if events[i - 1].TakeItems? && key in events[i - 1].taken {
      assert TakenAt(events, i - 1, key, states[i].items[key].startedAt.value);
    } else {
      RunKeepsTakers(states, events, i - 1, key);
    }
  }

  /** So no item stays stuck: if all drains that took it did so longer than the timeout ago, the item recovery ends its
      processing, as long as its job is there. */
  lemma StuckItemsEnd(states: seq<Db>, events: seq<Event>, i: nat, key: (nat, nat), now: Time, timeout: nat)
    requires IsRun(states, events) && i + 2 < |states|
    requires events[i] == ReplayItems(now, timeout) && events[i + 1] == AbandonItems(now, timeout)
    requires key in states[i].items && key.1 in states[i].jobs
    requires states[i].jobs[key.1].owner == states[i].items[key].owner
    requires forall c: nat, t :: c < i && TakenAt(events, c, key, t) ==> t + Max(timeout, 1) < now
    ensures key in states[i + 2].items && !states[i + 2].items[key].status.Processing?
  {
    assert StepAt(states, events, i);
    assert StepAt(states, events, i + 1);
    RecoveryUnsticks(states[i], now, timeout);
    if states[i].items[key].status.Processing? {
      RunKeepsTakers(states, events, i, key);
    }
  }

  // ---- a failed projection ----------------------------------------------

  /** The job is ingesting for the item. */
  predicate IngestsFor(db: Db, key: (nat, nat)) {
    && key in db.items && Holds(db, db.items[key].owner, db.items[key].crawler, key.0, key.1)
    && db.jobs[key.1].status.Ingesting?
  }

  /** A result can be applied exactly while the job is ingesting for its item and has the URL it is for. */
  lemma CanApplyIff(db: Db, key: (nat, nat))
    ensures CanApply(db, key) <==> IngestsFor(db, key) && db.jobs[key.1].url == db.items[key].result.url
  {
  }

  /** A projection failure ends the job as failed and held by nobody, if it was ingesting for the item, and touches no
      other row. */
  ghost predicate FailedFor(db: Db, jobs: map<nat, Job>, key: (nat, nat)) {
    && jobs.Keys == db.jobs.Keys
    && forall id <- jobs :: jobs[id] ==
         if id == key.1 && IngestsFor(db, key)
         then db.jobs[id].(status := Failed, claimedBy := None, claimedAt := None, lease := None, nextRetryAt := None)
         else db.jobs[id]
  }

  lemma FailureFails(db: Db, key: (nat, nat))
    ensures FailedFor(db, FailIngestingJob(db, key).jobs, key)
  {
  }

  // ---- blacklisted domains ----------------------------------------------

  /** The URL a row is filed under: where its page was found, if that is known, or else its own. */
  function FiledUnder(j: Job): Link {
    if j.finalUrl.Some? then j.finalUrl.value else Some(j.url)
  }

  lemma JobOnDomainIff(j: Job, domain: string)
    ensures JobOnDomain(j, domain) <==> OnDomains(FiledUnder(j), [domain])
  {
    MatchesDomainsIff(FiledUnder(j), [domain]);
  }
}
