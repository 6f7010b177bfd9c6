/** The store that owns the tables. Its methods change the tables statement by statement, as the services do; each is
    proved equal to the event it stands for, and keeps every whole-table invariant. */
module Store {
  import opened Wrappers
  import opened Urls
  import opened Tables
  import opened Frontier
  import opened Enqueue
  import opened Seeding
  import opened Ingest
  import opened Outcome
  import opened Projection
  import opened Recovery
  import opened Protocol
  import opened JobInvariants
  import opened Fencing
  import opened Capacity
  import opened Budgets
  import opened Safety
  import opened Discovery
  import opened Verdicts
  import opened Lineage
  import opened Dispatch
  import opened Upkeep

  datatype ApplyError = Unreadable | NoLongerIngesting | WrongUrl | WriteFailed

  /** The rows an update touched, counted per origin. */
  function CountOn(touched: map<nat, Job>, row: (string, OriginKey)): nat {
    |set id | id in touched && OriginRow(touched[id]) == row|
  }

  lemma TouchedCount(db: Db, ids: set<nat>, touched: map<nat, Job>)
    requires touched.Keys == ids && ids <= db.jobs.Keys
    requires forall id <- ids :: OriginRow(touched[id]) == OriginRow(db.jobs[id])
    ensures forall row :: CountOn(touched, row) == |OnRow(db, ids, row)|
  {
    forall row
      ensures CountOn(touched, row) == |OnRow(db, ids, row)|
    {
      assert (set id | id in touched && OriginRow(touched[id]) == row) == OnRow(db, ids, row);
    }
  }

  /** The two parts of the claim statement make the claim. */
  lemma ClaimStatement(db: Db, after: Db, owner: string, crawler: string, js: bool, now: Time, picked: set<nat>,
      claimed: map<nat, Job>)
    requires after == db.(jobs := after.jobs, origins := after.origins, nextLease := db.nextLease + 1)
    requires after.jobs == map id | id in db.jobs ::
               if id in picked then ClaimedJob(db.jobs[id], db.nextLease, crawler, js, now) else db.jobs[id]
    requires after.origins == map row | row in db.origins ::
               if row.0 == owner
               then db.origins[row].(inFlight := db.origins[row].inFlight + CountOn(claimed, row)) else db.origins[row]
    requires picked <= db.jobs.Keys && claimed == map id | id in picked :: after.jobs[id]
    ensures after == ClaimPicked(db, owner, crawler, js, now, picked)
  {
    TouchedCount(db, picked, claimed);
    forall row | row in db.origins
      ensures after.origins[row] == ClaimPicked(db, owner, crawler, js, now, picked).origins[row]
    {
      assert CountOn(claimed, row) == |OnRow(db, picked, row)|;
    }
    assert after.origins == ClaimPicked(db, owner, crawler, js, now, picked).origins;
  }

  /** The event that an apply stands for. */
  function ApplyEvent(key: (nat, nat), now: Time, clock: Time, stamps: nat -> Time, blacklist: seq<string>,
      fault: Option<Fault>): Event {
    match fault
    case None => ApplyItem(key, now, clock, stamps, blacklist)
    case Some(f) => ApplyStops(key, now, clock, stamps, blacklist, f)
  }

  function ApplyErrorOf(db: Db, key: (nat, nat), readable: bool, fault: Option<Fault>): Option<ApplyError>
    requires key in db.items
  {
    if !IngestsFor(db, key) then Some(NoLongerIngesting)
    else if db.jobs[key.1].url != db.items[key].result.url then Some(WrongUrl)
    else if !readable then Some(Unreadable)
    else if fault.Some? then Some(WriteFailed)
    else None
  }

  /** The item's job was judged by the result. */
  ghost predicate JudgedAt(db: Db, after: Db, key: (nat, nat), blacklist: seq<string>, clock: Time)
    requires key in db.items && key.1 in db.jobs
  {
    key.1 in after.jobs && Judged(db.jobs[key.1], db.items[key].result, blacklist, clock, after.jobs[key.1])
  }

  /** An apply ends its claim, judges its job, and leaves the items alone. */
  lemma ApplyEffects(history: seq<Event>, db: Db, e: Event)
    requires Reaches(history, db) && Applies(e) && Enabled(db, e)
    ensures After(db, e).items == db.items && !IsActivePair(After(db, e), e.key)
    ensures JudgedAt(db, After(db, e), e.key, e.blacklist, e.clock)
  {
    ReachedIsSafe(history, db);
    ApplySettles(db, e);
    ApplyKeepsItems(db, e);
    ApplyJudges(db, e, e.key.1);
  }

  /** The two parts of the statement that takes claims back. */
  lemma ReturnStatement(db: Db, after: Db, ids: set<nat>, now: Time, touched: map<nat, Job>)
    requires after == db.(jobs := after.jobs, origins := after.origins) && ids <= db.jobs.Keys
    requires after.jobs == map id | id in db.jobs :: if id !in ids then db.jobs[id] else ReturnedJob(db.jobs[id], now)
    requires touched == map id | id in ids :: db.jobs[id]
    requires after.origins == map row | row in db.origins ::
      if CountOn(touched, row) == 0 then db.origins[row]
      else db.origins[row].(inFlight := Max(db.origins[row].inFlight - CountOn(touched, row), 0),
                            nextAllowedAt := Max(db.origins[row].nextAllowedAt, now + 30))
    ensures after == ReturnClaims(db, ids, now)
  {
    TouchedCount(db, ids, touched);
    assert after.jobs == ReturnClaims(db, ids, now).jobs;
    assert after.origins == ReturnClaims(db, ids, now).origins;
  }

  lemma HistoryTakesBack(history: seq<Event>, db: Db, e: Event)
    requires Reaches(history, db) && TakesBack(e)
    ensures TookBack(db, After(db, e), e)
  {
    ReachedIsSafe(history, db);
    TakesBackExactly(db, e);
  }

  /** The jobs a crawler has claimed, with or without a try left. */
  function CrawlerJobs(jobs: map<nat, Job>, owner: string, crawler: string, triesLeft: bool): set<nat> {
    set id | id in jobs && jobs[id].owner == owner && jobs[id].status.Claimed? && jobs[id].claimedBy == Some(crawler)
      && TriesLeft(jobs[id]) == triesLeft
  }

  lemma CrawlerJobsSplit(db: Db, owner: string, crawler: string)
    ensures CrawlerJobs(db.jobs, owner, crawler, true)
         == set id | id in ClaimsOf(db, owner, crawler) && !Exhausted(db.jobs[id])
    ensures CrawlerJobs(db.jobs, owner, crawler, false)
         == set id | id in ClaimsOf(db, owner, crawler) && Exhausted(db.jobs[id])
  {
  }

  lemma HistoryColumns(history: seq<Event>, db: Db)
    requires Reaches(history, db)
    ensures forall id <- db.jobs :: ClaimColumns(db.jobs[id])
  {
    ReachedIsSafe(history, db);
    forall id | id in db.jobs
      ensures ClaimColumns(db.jobs[id])
    {
      assert JobOk(db.jobs[id], db.nextLease);
    }
  }

  /** Every job taken back is queued again, or dead if its attempts are used up. */
  lemma ReturnedSplit(db: Db, ids: set<nat>, now: Time)
    requires ids <= db.jobs.Keys
    ensures var after := ReturnClaims(db, ids, now);
      && (set id | id in ids && id in after.jobs && after.jobs[id].status.Queued?)
          == (set id | id in ids && !Exhausted(db.jobs[id]))
      && (set id | id in ids && id in after.jobs && after.jobs[id].status.DeadLetter?)
          == (set id | id in ids && Exhausted(db.jobs[id]))
  {
  }

  /** A row after both recoveries: an active one is not stale; a stale one is dead if its attempts were used up, else
      queued; any other is as it was. */
  predicate Recovered(j: Job, k: Job, cutoff: Time) {
    && (Active(k) ==> k.claimedAt.Some? && k.claimedAt.value >= cutoff)
    && (if Active(j) && j.claimedAt.Some? && j.claimedAt.value < cutoff
        then k.status == (if TriesLeft(j) then Queued else DeadLetter) && k.lease.None? && k.attempts == j.attempts
        else k == j)
  }

  lemma RecoveredRows(db: Db, after: Db, now: Time, timeout: nat)
    requires forall id <- db.jobs :: ClaimColumns(db.jobs[id])
    requires after == Recovery.RecoverStaleIngestingJobs(Recovery.RequeueStaleJobs(db, now, timeout), now, timeout)
    ensures after.jobs.Keys == db.jobs.Keys
    ensures forall id <- db.jobs :: Recovered(db.jobs[id], after.jobs[id], now - timeout)
  {
    MaintenanceClearsStaleness(db, now, timeout);
  }

  /** How a projection task ended. */
  datatype TaskEnd =
    | TaskDone
    | TaskFailed
    | TaskPanicked
    | TaskBroken     // a follow-up failed, which ends the drain
    | TaskAborted    // running when that happened

  function StatusAfter(end: TaskEnd, before: ItemStatus): ItemStatus {
    match end
    case TaskDone => Completed
    case TaskFailed => ItemFailed
    case _ => before
  }

  function Ended(ends: map<(nat, nat), TaskEnd>, end: TaskEnd): set<(nat, nat)> {
    set key | key in ends && ends[key] == end
  }

  lemma EndedOneMore(ends: map<(nat, nat), TaskEnd>, key: (nat, nat), end: TaskEnd)
    requires key !in ends
    ensures ends[key := end].Keys == ends.Keys + {key}
    ensures |Ended(ends[key := end], TaskDone)| == |Ended(ends, TaskDone)| + (if end.TaskDone? then 1 else 0)
  {
    assert Ended(ends[key := end], TaskDone) == Ended(ends, TaskDone) + (if end.TaskDone? then {key} else {});
  }

  /** Every task was settled or panicked. */
  ghost predicate AllSettled(ends: map<(nat, nat), TaskEnd>) {
    forall key <- ends :: ends[key].TaskDone? || ends[key].TaskFailed? || ends[key].TaskPanicked?
  }

  lemma SettledOneMore(ends: map<(nat, nat), TaskEnd>, key: (nat, nat), end: TaskEnd)
    requires AllSettled(ends) && (end.TaskDone? || end.TaskFailed? || end.TaskPanicked? || end.TaskBroken?)
    ensures !end.TaskBroken? ==> AllSettled(ends[key := end])
  {
  }

  /** A drain that comes to its end has settled every item and counts the completed ones. */
  ghost predicate DrainEnds(taken: set<(nat, nat)>, ends: map<(nat, nat), TaskEnd>, processed: Option<nat>) {
    && ends.Keys <= taken
    && (processed.Some? ==> ends.Keys == taken && AllSettled(ends) && processed.value == |Ended(ends, TaskDone)|)
  }

  lemma DrainDone(taken: set<(nat, nat)>, pending: set<(nat, nat)>, ends: map<(nat, nat), TaskEnd>, count: nat)
    requires Divided(taken, pending, {}, ends.Keys) && pending == {} && AllSettled(ends)
        && count == |Ended(ends, TaskDone)|
    ensures DrainEnds(taken, ends, Some(count))
  {
  }

  lemma NothingTaken()
    ensures DrainEnds({}, map[], Some(0))
  {
    assert Ended(map[], TaskDone) == {};
  }

  /** Taken items have the status of their task's end, or are processing; other items keep theirs. */
  ghost predicate StatusesAfter(items: map<(nat, nat), Item>, before: map<(nat, nat), Item>, taken: set<(nat, nat)>,
                                ends: map<(nat, nat), TaskEnd>) {
    && items.Keys == before.Keys && taken <= items.Keys
    && forall key <- items :: items[key].status ==
         if key in taken then (if key in ends then StatusAfter(ends[key], Processing) else Processing)
         else before[key].status
  }

  /** The end of one task changes the status of its own item only. */
  ghost predicate SettledItem(items: map<(nat, nat), Item>, after: map<(nat, nat), Item>, key: (nat, nat),
      end: TaskEnd) {
    && key in items && after.Keys == items.Keys
    && forall k <- after :: after[k].status == if k == key then StatusAfter(end, items[key].status) else items[k].status
  }

  lemma StatusesOneMore(items: map<(nat, nat), Item>, after: map<(nat, nat), Item>, before: map<(nat, nat), Item>,
                        taken: set<(nat, nat)>, ends: map<(nat, nat), TaskEnd>, key: (nat, nat), end: TaskEnd)
    requires StatusesAfter(items, before, taken, ends) && key in taken && key !in ends
    requires SettledItem(items, after, key, end)
    ensures StatusesAfter(after, before, taken, ends[key := end])
  {
  }

  /** Every taken item is waiting, being worked on, or has ended, and only one of them. */
  predicate Divided(taken: set<(nat, nat)>, pending: set<(nat, nat)>, running: set<(nat, nat)>,
      ended: set<(nat, nat)>) {
    taken == pending + running + ended && pending !! running && pending !! ended && running !! ended
  }

  lemma SpawnOne(taken: set<(nat, nat)>, pending: set<(nat, nat)>, running: set<(nat, nat)>, ended: set<(nat, nat)>,
      key: (nat, nat))
    requires Divided(taken, pending, running, ended) && key in pending
    ensures Divided(taken, pending - {key}, running + {key}, ended)
    ensures |pending - {key}| == |pending| - 1 && |running + {key}| == |running| + 1
  {
  }

  lemma EndOne(taken: set<(nat, nat)>, pending: set<(nat, nat)>, running: set<(nat, nat)>,
               ends: map<(nat, nat), TaskEnd>, key: (nat, nat), end: TaskEnd, after: map<(nat, nat), TaskEnd>)
    requires Divided(taken, pending, running, ends.Keys) && key in running && after == ends[key := end]
    ensures Divided(taken, pending, running - {key}, after.Keys)
    ensures key in taken && key !in ends && |running - {key}| == |running| - 1
    ensures |Ended(after, TaskDone)| == |Ended(ends, TaskDone)| + (if end.TaskDone? then 1 else 0)
  {
    EndedOneMore(ends, key, end);
  }

  lemma ClaimRecovery(db: Db, after: Db, now: Time, timeout: nat, stale: set<nat>)
    requires stale == StaleClaims(db, now - timeout) && after == ReturnClaims(db, stale, now)
    ensures after == Recovery.RequeueStaleJobs(db, now, timeout)
  {
  }

  lemma IngestRecovery(db: Db, after: Db, now: Time, timeout: nat, stale: set<nat>)
    requires stale == StaleIngests(db, now - timeout)
    requires after == ReturnClaims(db, stale, now).(items := FailedItems(db.items, db.jobs, stale))
    ensures after == Recovery.RecoverStaleIngestingJobs(db, now, timeout)
  {
  }

  /** Exactly the inactive jobs on one of the domains are gone, and exactly the origins that were on a domain when its
      turn came and had no job left. No job that is left lost its origin. */
  ghost predicate Cleaned(before: Db, after: Db, domains: seq<string>) {
    && after.jobs.Keys <= before.jobs.Keys
    && (forall id <- after.jobs :: after.jobs[id] == before.jobs[id])
    && (forall id <- before.jobs :: id in after.jobs <==> Spared(before.jobs[id], domains))
    && after.origins.Keys <= before.origins.Keys
    && (forall row <- after.origins :: after.origins[row] == before.origins[row])
    && (forall row <- before.origins :: row in after.origins <==> OriginSpared(before, row, domains))
    && (forall id <- after.jobs ::
          OriginRow(after.jobs[id]) in before.origins ==> OriginRow(after.jobs[id]) in after.origins)
  }

  /** Whenever it was the turn of a domain that the origin is on, some job of the origin was left. */
  ghost predicate OriginSpared(before: Db, row: (string, OriginKey), domains: seq<string>) {
    forall i :: 0 <= i < |domains| && OnDomain(row.1.host, domains[i]) ==>
      UsedAfter(before, row, domains[..i + 1])
  }

  ghost predicate UsedAfter(before: Db, row: (string, OriginKey), domains: seq<string>) {
    exists id :: id in before.jobs && OriginRow(before.jobs[id]) == row && Spared(before.jobs[id], domains)
  }

  /** A job stays if it is being worked on, or the URL it is filed under is on none of the domains. */
  predicate Spared(j: Job, domains: seq<string>) {
    j.status in {Claimed, Ingesting} || !OnDomains(FiledUnder(j), domains)
  }

  lemma DomainCleaned(db: Db, domain: string)
    ensures Cleaned(db, DropUnusedOrigins(DeleteDomainJobs(db, domain), domain), [domain])
  {
    var after := DropUnusedOrigins(DeleteDomainJobs(db, domain), domain);
    forall row | row in db.origins
      ensures row in after.origins <==> OriginSpared(db, row, [domain])
    {
      OneDomain(db, row, domain);
      DomainOrigin(db, domain, row);
    }
    forall id | id in db.jobs
      ensures id in after.jobs <==> Spared(db.jobs[id], [domain])
    {
      JobOnDomainIff(db.jobs[id], domain);
    }
  }

  lemma DomainOrigin(db: Db, domain: string, row: (string, OriginKey))
    requires row in db.origins
    ensures row in DropUnusedOrigins(DeleteDomainJobs(db, domain), domain).origins
       <==> (OnDomain(row.1.host, domain) ==> UsedAfter(db, row, [domain]))
  {
    var rest := DeleteDomainJobs(db, domain);
    HostMatchesIff(row.1.host, domain, SameDomain);
    forall id | id in db.jobs
      ensures id in rest.jobs <==> Spared(db.jobs[id], [domain])
    {
      JobOnDomainIff(db.jobs[id], domain);
    }
  }

  lemma OneDomain(db: Db, row: (string, OriginKey), domain: string)
    ensures OriginSpared(db, row, [domain])
        <==> (OnDomain(row.1.host, domain) ==> UsedAfter(db, row, [domain]))
  {
    var domains := [domain];
    assert domains[0] == domain && domains[..0 + 1] == domains;
    assert forall i :: 0 <= i < |domains| ==> i == 0 && domains[i] == domain;
  }

  lemma SparedOneMore(j: Job, domains: seq<string>, i: nat)
    requires i < |domains|
    ensures Spared(j, domains[..i + 1]) <==> Spared(j, domains[..i]) && Spared(j, [domains[i]])
  {
    assert domains[..i + 1] == domains[..i] + [domains[i]];
  }

  lemma UsedOneMore(before: Db, mid: Db, domains: seq<string>, i: nat, row: (string, OriginKey))
    requires i < |domains| && mid.jobs.Keys <= before.jobs.Keys
    requires forall id <- mid.jobs :: mid.jobs[id] == before.jobs[id]
    requires forall id <- before.jobs :: id in mid.jobs <==> Spared(before.jobs[id], domains[..i])
    ensures UsedAfter(before, row, domains[..i + 1]) <==> UsedAfter(mid, row, [domains[i]])
  {
    forall id | id in before.jobs
      ensures Spared(before.jobs[id], domains[..i + 1]) <==> id in mid.jobs && Spared(before.jobs[id], [domains[i]])
    {
      SparedOneMore(before.jobs[id], domains, i);
    }
  }

  lemma OriginSparedOneMore(before: Db, mid: Db, domains: seq<string>, i: nat, row: (string, OriginKey))
    requires i < |domains| && mid.jobs.Keys <= before.jobs.Keys
    requires forall id <- mid.jobs :: mid.jobs[id] == before.jobs[id]
    requires forall id <- before.jobs :: id in mid.jobs <==> Spared(before.jobs[id], domains[..i])
    ensures OriginSpared(before, row, domains[..i + 1])
       <==> OriginSpared(before, row, domains[..i]) && OriginSpared(mid, row, [domains[i]])
  {
    var more := domains[..i + 1];
    UsedOneMore(before, mid, domains, i, row);
    assert more[..i + 1] == more;
    assert forall k :: 0 <= k < i ==> more[..k + 1] == domains[..i][..k + 1] && more[k] == domains[..i][k];
    OneDomain(mid, row, domains[i]);
  }

  lemma CleanedOneMore(before: Db, mid: Db, after: Db, domains: seq<string>, i: nat)
    requires i < |domains| && Cleaned(before, mid, domains[..i]) && Cleaned(mid, after, [domains[i]])
    ensures Cleaned(before, after, domains[..i + 1])
  {
    forall id | id in before.jobs
      ensures id in after.jobs <==> Spared(before.jobs[id], domains[..i + 1])
    {
      SparedOneMore(before.jobs[id], domains, i);
    }
    forall row | row in before.origins
      ensures row in after.origins <==> OriginSpared(before, row, domains[..i + 1])
    {
      OriginSparedOneMore(before, mid, domains, i, row);
    }
  }

  /** A rule whose interval has passed. */
  datatype DueRule = DueRule(owner: string, seed: Link, maxDepth: nat, maxPages: nat, concurrency: nat, scope: Scope,
      maxDiscovered: nat)

  /** Seeding adds queued rows and removes at most finished ones. */
  ghost predicate SeededOnly(db: Db, after: Db) {
    && db.nextJob <= after.nextJob
    && (forall id <- after.jobs :: if id in db.jobs then after.jobs[id] == db.jobs[id]
        else after.jobs[id].status.Queued? && id >= db.nextJob)
    && (forall id <- db.jobs :: id in after.jobs || Terminal(db.jobs[id]))
  }

  lemma SeedSeedsOnly(db: Db, e: Event)
    requires IdsBelow(db) && IsSeeding(e)
    ensures SeededOnly(db, After(db, e))
  {
    SeedingIsEnqueue(db, e);
    var (open, req, links) := SeedParts(db, e);
    EnqueueFromEffect(open, req, links, |BudgetJobs(open, req.owner, req.budget)|, e.blacklist, e.stamps);
    if After(db, e) != db {
      EnqueuedSeedsOnly(open, After(db, e), req);
    }
  }

  lemma EnqueuedSeedsOnly(db: Db, after: Db, req: EnqueueRequest)
    requires Enqueued(db, after, req)
    ensures SeededOnly(db, after)
  {
    forall id | id in after.jobs && id !in db.jobs
      ensures after.jobs[id].status.Queued? && id >= db.nextJob
    {
      assert IsNewRow(after.jobs[id], req);
    }
  }

  lemma SeededOnlyTransitive(a: Db, b: Db, c: Db)
    requires IdsBelow(a) && SeededOnly(a, b) && SeededOnly(b, c)
    ensures SeededOnly(a, c)
  {
  }

  lemma MaintainedRows(db: Db, seeded: Db, recovered: Db, cleaned: Db, domains: seq<string>, cutoff: Time)
    requires SeededOnly(db, seeded) && Cleaned(recovered, cleaned, domains) && recovered.jobs.Keys == seeded.jobs.Keys
    requires forall id <- seeded.jobs :: Recovered(seeded.jobs[id], recovered.jobs[id], cutoff)
    ensures forall id <- cleaned.jobs ::
        Active(cleaned.jobs[id]) ==> cleaned.jobs[id].claimedAt.Some? && cleaned.jobs[id].claimedAt.value >= cutoff
    ensures forall id <- cleaned.jobs ::
      if id in db.jobs then Recovered(db.jobs[id], cleaned.jobs[id], cutoff)
          else cleaned.jobs[id].status.Queued? && id >= db.nextJob
    ensures forall id <- db.jobs :: Active(db.jobs[id]) && !ClaimedBefore(db.jobs[id], cutoff) ==> id in cleaned.jobs
  {
    forall id | id in db.jobs && Active(db.jobs[id]) && !ClaimedBefore(db.jobs[id], cutoff)
      ensures id in cleaned.jobs
    {
      assert id in seeded.jobs && Recovered(seeded.jobs[id], recovered.jobs[id], cutoff);
      assert Spared(recovered.jobs[id], domains);
    }
  }

  /** Some entries were read; the rest were not. */
  predicate Parsed(domain: string, entries: seq<Option<Link>>, done: seq<Link>, rest: seq<Option<Link>>,
      urls: seq<Link>) {
    && Written(entries) == done + Written(rest)
    && (forall l <- done :: DomainUrlOk(domain, l)) && urls == NormalizedLinks(done)
  }

  lemma EntrySkipped(domain: string, entries: seq<Option<Link>>, done: seq<Link>, rest: seq<Option<Link>>,
      urls: seq<Link>)
    requires Parsed(domain, entries, done, rest, urls) && rest != [] && rest[0].None?
    ensures Parsed(domain, entries, done, rest[1..], urls)
  {
    assert Written(rest) == [] + Written(rest[1..]) == Written(rest[1..]);
  }

  lemma EntryTaken(domain: string, entries: seq<Option<Link>>, done: seq<Link>, rest: seq<Option<Link>>,
      urls: seq<Link>)
    requires Parsed(domain, entries, done, rest, urls) && rest != [] && rest[0].Some?
        && DomainUrlOk(domain, rest[0].value)
    ensures Parsed(domain, entries, done + [rest[0].value], rest[1..], urls + [NormalizeUrl(rest[0].value.value)])
  {
    assert done + ([rest[0].value] + Written(rest[1..])) == done + [rest[0].value] + Written(rest[1..]);
  }

  lemma EntryRefused(domain: string, entries: seq<Option<Link>>, done: seq<Link>, rest: seq<Option<Link>>,
      urls: seq<Link>)
    requires Parsed(domain, entries, done, rest, urls) && rest != [] && rest[0].Some?
        && !DomainUrlOk(domain, rest[0].value)
    ensures !(Written(entries) != [] && forall l <- Written(entries) :: DomainUrlOk(domain, l))
  {
    assert rest[0].value in Written(entries);
  }

  lemma EntriesOkIff(domain: string, links: seq<Link>)
    ensures (forall l <- links :: DomainUrlOk(domain, l)) <==> (forall l <- links :: LiesOn(domain, l))
  {
    forall l | l in links
      ensures DomainUrlOk(domain, l) <==> LiesOn(domain, l)
    {
      DomainUrlOkIff(domain, l);
    }
  }

  class CrawlerStore {
    var jobs: map<nat, Job>
    var origins: map<(string, OriginKey), Origin>
    var items: map<(nat, nat), Item>
    var budgets: seq<Budget>
    var nextJob: nat
    var nextLease: nat

    /** The slots that projection failures still owe. */
    ghost var owed: multiset<(string, OriginKey)>

    /** The events so far. */
    ghost var history: seq<Event>

    /** The tables as one value. */
    ghost function Tables(): Db
      reads this
    {
      Db(jobs, origins, items, budgets, nextJob, nextLease, owed)
    }

    /** The tables are what the history of events, each possible when it happened, made of empty tables. */
    ghost predicate Valid()
      reads this
    {
      Reaches(history, Tables())
    }

    constructor ()
      ensures Valid() && history == [] && Tables() == EMPTY_DB
    {
      jobs, origins, items, budgets, nextJob, nextLease, owed, history :=
        map[], map[], map[], [], 0, 0, multiset{}, [];
      EmptyReached();
    }

    /** Adds an event that the rest of the method carries out. */
    ghost method Record(e: Event)
      requires Valid() && Enabled(Tables(), e)
      modifies this`history
      ensures history == old(history) + [e] && Reaches(history, After(Tables(), e))
    {
      ReachesOneMore(history, Tables(), e);
      history := history + [e];
    }

    // ---- the frontier ---------------------------------------------------

    /** The claim statement: the picked rows get a fresh lease, and their origins count them. */
    method UpdateClaimed(owner: string, crawler: string, js: bool, now: Time, picked: set<nat>)
      returns (lease: nat, claimed: map<nat, Job>)
      requires picked <= jobs.Keys
      modifies this`jobs, this`origins, this`nextLease
      ensures Tables() == ClaimPicked(old(Tables()), owner, crawler, js, now, picked)
      ensures lease == old(nextLease) && claimed.Keys == picked
      ensures forall id <- picked :: id in jobs && claimed[id] == jobs[id]
    {
      ghost var before := Tables();
      lease, claimed := LeasePicked(crawler, js, now, picked);
      CountClaimed(owner, claimed);
      ClaimStatement(before, Tables(), owner, crawler, js, now, picked, claimed);
    }

    /** Its first part leases the rows. */
    method LeasePicked(crawler: string, js: bool, now: Time, picked: set<nat>)
        returns (lease: nat, claimed: map<nat, Job>)
      requires picked <= jobs.Keys
      modifies this`jobs, this`nextLease
      ensures lease == old(nextLease) && nextLease == lease + 1
      ensures jobs == map id | id in old(jobs) ::
                if id in picked then ClaimedJob(old(jobs)[id], lease, crawler, js, now) else old(jobs)[id]
      ensures claimed == map id | id in picked :: jobs[id]
    {
      lease := nextLease;
      nextLease := nextLease + 1;
      var jobRows := jobs;
      jobs := map id | id in jobRows ::
        if id in picked
        then jobRows[id].(status := Claimed, claimedBy := Some(crawler), claimedAt := Some(now), lease := Some(lease),
                          attempts := jobRows[id].attempts + 1, claimJs := js)
        else jobRows[id];
      claimed := map id | id in picked :: jobs[id];
    }

    /** Its second part counts them on their origins. */
    method CountClaimed(owner: string, claimed: map<nat, Job>)
      modifies this`origins
      ensures origins == map row | row in old(origins) ::
                if row.0 == owner
                then old(origins)[row].(inFlight := old(origins)[row].inFlight + CountOn(claimed, row))
                    else old(origins)[row]
    {
      var originRows := origins;
      origins := map row | row in originRows ::
        if row.0 == owner then originRows[row].(inFlight := originRows[row].inFlight + CountOn(claimed, row))
            else originRows[row];
    }

    /** `rank`, `locked` and `picked` are the database's choices: how it broke ties, which rows other claims hold
        locked, and which candidates it took. */
    method ClaimJobs(owner: string, crawler: string, maxJobs: nat, js: bool, now: Time,
                     rank: map<nat, nat>, locked: set<nat>, picked: set<nat>)
      returns (lease: nat, claimed: map<nat, Job>)
      requires Valid() && Enabled(Tables(), Claim(owner, crawler, js, now, maxJobs, rank, locked, picked))
      modifies this
      ensures Valid() && history == old(history) + [Claim(owner, crawler, js, now, maxJobs, rank, locked, picked)]
      ensures Tables() == After(old(Tables()), Claim(owner, crawler, js, now, maxJobs, rank, locked, picked))
      ensures lease == old(nextLease) && claimed.Keys == picked && |picked| <= Max(maxJobs, 1)
      ensures forall id <- picked :: Waiting(old(Tables()), owner, js, now, id) && id !in locked
      ensures forall id <- picked :: id in jobs && claimed[id] == jobs[id] && IsActivePair(Tables(), (lease, id))
    {
      ghost var e := Claim(owner, crawler, js, now, maxJobs, rank, locked, picked);
      ClaimTakesWaiting(Tables(), e);
      Record(e);
      assert picked <= EligibleJobs(Tables(), owner, now, js);
      lease, claimed := UpdateClaimed(owner, crawler, js, now, picked);
    }

    // ---- enqueueing -----------------------------------------------------

    /** One turn of the enqueue loop. */
    method EnqueueUrl(req: EnqueueRequest, link: Link, blacklist: seq<string>, stamps: nat -> Time)
        returns (inserted: bool)
      modifies this`jobs, this`origins, this`nextJob
      ensures Tables() == EnqueueOne(old(Tables()), req, link, blacklist, stamps)
      ensures inserted == Accepts(old(Tables()), req, link, blacklist)
    {
      if link.None? {
        return false;
      }
      var normalized := NormalizeUrl(link.value);
      if normalized.None? {
        return false;
      }
      var url := normalized.value;
      var origin := OriginOf(url);
      if origin.None? {
        return false;
      }
      if UrlMatchesDomains(normalized, blacklist) {
        return false;
      }
      var host, stamp := if req.host.Some? then req.host else ExtractHost(url), stamps(nextJob);
      if req.allowRevisit {
        ClearFinishedRows(req.owner, url);
      }
      if exists id :: id in jobs && jobs[id].owner == req.owner && jobs[id].url == url {
        return false;
      }
      InsertRow(Job(owner := req.owner, url := url, origin := origin.value, depth := req.depth,
          maxDepth := req.maxDepth,
                    maxAttempts := 3, budget := req.budget, maxPages := Max(req.maxPages, 1), scope := req.scope,
                    anchor := host, concurrency := Max(req.concurrency, 1), maxDiscovered := Max(req.maxDiscovered, 1),
                    priority := if req.depth == 0 then 80 else 50 + (10 - Min(req.depth, 10)) * 3,
                    discoveredAt := stamp, attempts := 0, nextRetryAt := None, requiresJs := false, finalUrl := None,
                    status := Queued, claimedBy := None, claimedAt := None, lease := None, claimJs := false,
                    jsRequeues := 0, adminRetries := 0), stamp);
      inserted := true;
    }

    method ClearFinishedRows(owner: string, url: Url)
      modifies this`jobs
      ensures Tables() == ClearFinished(old(Tables()), owner, url)
    {
      var jobRows := jobs;
      jobs := map id | id in jobRows && !(jobRows[id].owner == owner && jobRows[id].url == url
          && Terminal(jobRows[id])) :: jobRows[id];
    }

    /** Inserts a job row, and its origin row when missing. */
    method InsertRow(row: Job, stamp: Time)
      modifies this`jobs, this`origins, this`nextJob
      ensures Tables() == InsertJob(old(Tables()), row, stamp)
    {
      jobs := jobs[nextJob := row];
      nextJob := nextJob + 1;
      if (row.owner, row.origin) !in origins {
        origins := origins[(row.owner, row.origin) := Origin(stamp, 0, 0)];
      }
    }

    method CountBudget(owner: string, budget: nat) returns (used: nat)
      ensures used == |BudgetJobs(Tables(), owner, budget)|
    {
      var rows := set id | id in jobs && jobs[id].owner == owner && jobs[id].budget == budget;
      assert rows == BudgetJobs(Tables(), owner, budget);
      used := |rows|;
    }

    /** Goes through the links until the budget is full. `accepted` counts the rows inserted. */
    method EnqueueUrls(req: EnqueueRequest, links: seq<Link>, blacklist: seq<string>, stamps: nat -> Time)
        returns (accepted: nat)
      modifies this`jobs, this`origins, this`nextJob
      ensures Tables() == EnqueueAll(old(Tables()), req, links, blacklist, stamps)
      ensures accepted == nextJob - old(nextJob) && accepted <= Max(req.maxPages, 1)
    {
      accepted := 0;
      var budgetUsed: int := CountBudget(req.owner, req.budget);
      var maxPages := Max(req.maxPages, 1);
      EnqueueFromInserts(Tables(), req, links, budgetUsed, blacklist, stamps);
      var rest := links;
      while rest != []
        invariant EnqueueFrom(Tables(), req, rest, budgetUsed, blacklist, stamps)
               == EnqueueAll(old(Tables()), req, links, blacklist, stamps)
        invariant accepted == nextJob - old(nextJob)
        decreases |rest|
      {
        if budgetUsed >= maxPages {
          break;
        }
        var inserted := EnqueueUrl(req, rest[0], blacklist, stamps);
        if inserted {
          accepted := accepted + 1;
          budgetUsed := budgetUsed + 1;
        }
        rest := rest[1..];
      }
    }

    /** None when the request is refused. */
    method SeedFrontier(owner: string, links: seq<Link>, maxDepth: nat, maxPages: nat, concurrency: nat, scope: Scope,
                        maxDiscovered: nat, revisit: bool, blacklist: seq<string>, stamps: nat -> Time)
      returns (accepted: Option<nat>)
      requires Valid()
      modifies this
      ensures Valid() && history == old(history)
          + [Seed(owner, links, maxDepth, maxPages, concurrency, scope, maxDiscovered, revisit, blacklist, stamps)]
      ensures Tables() == After(old(Tables()), Seed(owner, links, maxDepth, maxPages, concurrency, scope,
          maxDiscovered, revisit, blacklist, stamps))
      ensures accepted == if links == [] then None else Some(nextJob - old(nextJob))
      ensures accepted.Some? ==> accepted.value <= Clamp(maxPages, 1, 10_000)
    {
      Record(Seed(owner, links, maxDepth, maxPages, concurrency, scope, maxDiscovered, revisit, blacklist, stamps));
      if links == [] {
        return None;
      }
      var pages := Clamp(maxPages, 1, 10_000);
      var budget := |budgets|;
      budgets := budgets + [Budget(owner, pages)];
      ghost var start := Tables();
      var count := EnqueueUrls(EnqueueRequest(owner := owner, budget := budget, depth := 0,
          maxDepth := Min(maxDepth, 10),
        maxPages := pages, concurrency := Max(concurrency, 1), scope := scope, host := None,
        maxDiscovered := Clamp(maxDiscovered, 1, 200), allowRevisit := revisit), links, blacklist, stamps);
      accepted := Some(count);
    }

    /** The normalised URL of an entry that lies on the domain. */
    method ParseLink(domain: string, link: Link) returns (parsed: Option<Link>)
      ensures parsed == if DomainUrlOk(domain, link) then Some(NormalizeUrl(link.value)) else None
    {
      var normalized := if link.Some? then NormalizeUrl(link.value) else None;
      if normalized.None? {
        return None;
      }
      var host := ExtractHost(normalized.value);
      if host.None? || !HostMatchesScope(host.value, domain, SameDomain) {
        return None;
      }
      parsed := Some(normalized);
    }

    /** The normalised URLs of a list whose entries, except blank ones, all lie on the domain. */
    method ParseEntries(domain: string, entries: seq<Option<Link>>) returns (parsed: Option<seq<Link>>)
      ensures parsed.Some? <==> Written(entries) != [] && forall l <- Written(entries) :: LiesOn(domain, l)
      ensures parsed.Some? ==> parsed.value == NormalizedLinks(Written(entries))
    {
      if entries == [] {
        return None;
      }
      EntriesOkIff(domain, Written(entries));
      var urls: seq<Link>, rest := [], entries;
      ghost var done: seq<Link> := [];
      while rest != []
        invariant Parsed(domain, entries, done, rest, urls)
        decreases |rest|
      {
        var entry := rest[0];
        if entry.Some? {
          var normalized := ParseLink(domain, entry.value);
          if normalized.None? {
            EntryRefused(domain, entries, done, rest, urls);
            return None;
          }
          EntryTaken(domain, entries, done, rest, urls);
          urls, done := urls + [normalized.value], done + [entry.value];
        } else {
          EntrySkipped(domain, entries, done, rest, urls);
        }
        rest := rest[1..];
      }
      assert done == Written(entries);
      if urls == [] {
        return None;
      }
      parsed := Some(urls);
    }

    /** All of a developer's URLs are checked before any is taken; blank entries are skipped. None when the request is
        refused. */
    method SubmitDomainUrls(owner: string, domain: string, entries: seq<Option<Link>>, maxDepth: nat, maxPages: nat,
        concurrency: nat,
                            revisit: bool, blacklist: seq<string>, stamps: nat -> Time)
      returns (accepted: Option<nat>)
      requires Valid()
      modifies this
      ensures Valid() && history == old(history)
          + [SubmitDomain(owner, domain, entries, maxDepth, maxPages, concurrency, revisit, blacklist, stamps)]
      ensures Tables() == After(old(Tables()), SubmitDomain(owner, domain, entries, maxDepth, maxPages, concurrency,
          revisit, blacklist, stamps))
      ensures accepted.Some? <==> Written(entries) != [] && forall l <- Written(entries) :: LiesOn(domain, l)
      ensures accepted.Some? ==> accepted.value == nextJob - old(nextJob) <= Clamp(maxPages, 1, 10_000)
    {
      Record(SubmitDomain(owner, domain, entries, maxDepth, maxPages, concurrency, revisit, blacklist, stamps));
      EntriesOkIff(domain, Written(entries));
      var urls := ParseEntries(domain, entries);
      if urls.None? {
        return None;
      }
      var pages := Clamp(maxPages, 1, 10_000);
      var budget := |budgets|;
      budgets := budgets + [Budget(owner, pages)];
      var count := EnqueueUrls(EnqueueRequest(owner := owner, budget := budget, depth := 0,
          maxDepth := Min(maxDepth, 10),
        maxPages := pages, concurrency := Max(concurrency, 1), scope := SameDomain, host := Some(domain),
        maxDiscovered := 50, allowRevisit := revisit), urls.value, blacklist, stamps);
      accepted := Some(count);
    }

    /** Tries to revisit old pages, each with the job that found it. The tables stay exactly as they are. */
    method ScheduleAdaptiveRecrawl(pages: seq<(nat, Link, string)>, blacklist: seq<string>, stamps: nat -> Time)
      modifies this`jobs, this`origins, this`nextJob
      ensures Tables() == old(Tables())
    {
      var i := 0;
      while i < |pages|
        invariant 0 <= i <= |pages| && Tables() == old(Tables())
      {
        var (source, page, host) := pages[i];
        if source in jobs {
          AdaptiveRecrawlDoesNothing(Tables(), source, page, host, blacklist, stamps);
          var j := jobs[source];
          var _ := EnqueueUrls(EnqueueRequest(owner := j.owner, budget := j.budget, depth := 0, maxDepth := 10,
              maxPages := 1,
            concurrency := 1, scope := j.scope, host := Some(host), maxDiscovered := 0, allowRevisit := true), [page],
            blacklist, stamps);
        }
        i := i + 1;
      }
    }

    // ---- reports --------------------------------------------------------

    /** The URL of a job held by the reporting crawler under the lease. */
    method ReportJobUrl(owner: string, crawler: string, lease: nat, id: nat) returns (url: Option<Url>)
      ensures url == ReportedUrl(Tables(), owner, crawler, lease, id)
    {
      if id in jobs {
        var j := jobs[id];
        if j.owner == owner && j.claimedBy == Some(crawler) && j.lease == Some(lease) {
          return Some(j.url);
        }
      }
      return None;
    }

    /** Stages results one by one, until one is refused. */
    method StageResults(owner: string, crawler: string, lease: nat, results: seq<CrawlResult>)
      returns (ok: bool, stagedIds: set<nat>)
      modifies this`items
      ensures Staged(Tables(), ok) == StageLoop(old(Tables()), owner, crawler, lease, results)
      ensures ok ==> stagedIds == ReportedIds(results)
    {
      stagedIds := {};
      var i := 0;
      assert results[0..] == results;
      while i < |results|
        invariant 0 <= i <= |results|
        invariant StageLoop(Tables(), owner, crawler, lease, results[i..])
               == StageLoop(old(Tables()), owner, crawler, lease, results)
        invariant stagedIds == ReportedIds(results[..i])
      {
        var r := results[i];
        assert results[i..][0] == r && results[i..][1..] == results[i + 1..];
        var expected := ReportJobUrl(owner, crawler, lease, r.jobId);
        if expected.Some? {
          if expected.value != r.url {
            return false, stagedIds;
          }
        } else if (lease, r.jobId) !in items {
          return false, stagedIds;
        }
        if (lease, r.jobId) in items {
          items := items[(lease, r.jobId) := items[(lease, r.jobId)].(owner := owner, crawler := crawler, result := r)];
        } else {
          items := items[(lease, r.jobId) := Item(owner, crawler, Pending, None, r)];
        }
        stagedIds := stagedIds + {r.jobId};
        assert results[..i + 1] == results[..i] + [r];
        i := i + 1;
      }
      assert results[..i] == results && results[i..] == [];
      ok := true;
    }

    method StageReport(owner: string, crawler: string, lease: nat, results: seq<CrawlResult>) returns (ok: bool)
      requires Valid()
      modifies this
      ensures Valid() && history == old(history) + [Report(owner, crawler, lease, results)]
      ensures Tables() == After(old(Tables()), Report(owner, crawler, lease, results))
      ensures ok <==> forall r <- results :: Reportable(old(Tables()), owner, crawler, lease, r)
    {
      Record(Report(owner, crawler, lease, results));
      ReportAcceptedIff(Tables(), owner, crawler, lease, results);
      var stagedIds: set<nat>;
      ok, stagedIds := StageResults(owner, crawler, lease, results);
      if ok {
        MarkIngesting(owner, crawler, lease, stagedIds);
      }
    }

    method MarkIngesting(owner: string, crawler: string, lease: nat, ids: set<nat>)
      modifies this`jobs
      ensures Tables() == AcceptReport(old(Tables()), owner, crawler, lease, ids)
    {
      if ids == {} {
        assert jobs == AcceptReport(Tables(), owner, crawler, lease, {}).jobs;
        return;
      }
      var jobRows := jobs;
      jobs := map id | id in jobRows ::
        if id in ids && jobRows[id].owner == owner && jobRows[id].claimedBy == Some(crawler)
            && jobRows[id].lease == Some(lease)
           && (jobRows[id].status.Claimed? || jobRows[id].status.Ingesting?)
        then jobRows[id].(status := Ingesting) else jobRows[id];
    }

    // ---- the projector --------------------------------------------------

    method ClaimPendingItems(limit: nat, taken: set<(nat, nat)>, now: Time)
      requires Valid() && Enabled(Tables(), TakeItems(limit, taken, now))
      modifies this
      ensures Valid() && history == old(history) + [TakeItems(limit, taken, now)]
      ensures Tables() == After(old(Tables()), TakeItems(limit, taken, now))
      ensures StatusesAfter(items, old(items), taken, map[])
    {
      Record(TakeItems(limit, taken, now));
      var itemRows := items;
      items := map key | key in itemRows ::
        if key in taken then itemRows[key].(status := Processing, startedAt := Some(now)) else itemRows[key];
    }

    method MarkItemCompleted(key: (nat, nat))
      requires Valid()
      modifies this
      ensures Valid() && history == old(history) + [CompleteItem(key)]
      ensures Tables() == After(old(Tables()), CompleteItem(key))
    {
      Record(CompleteItem(key));
      if key in items {
        items := items[key := items[key].(status := Completed)];
      }
    }

    method MarkItemFailed(key: (nat, nat))
      modifies this`items
      ensures Tables() == SetItemStatus(old(Tables()), key, ItemFailed)
    {
      if key in items {
        items := items[key := items[key].(status := ItemFailed)];
      }
    }

    /** The status write of an applied result. */
    method WriteJob(id: nat, r: CrawlResult, outcome: JobOutcome)
      requires id in jobs
      modifies this`jobs
      ensures jobs == old(jobs)[id := WriteOutcome(old(jobs)[id], r, outcome)]
    {
      var finalized := if r.finalUrl.Some? then r.finalUrl.value else Some(r.url);
      var j := jobs[id];
      match outcome {
        case SucceededPage | FilteredPage =>
          jobs := jobs[id := j.(status := Succeeded, nextRetryAt := None, finalUrl := Some(finalized))];
        case Retryable(at) =>
          jobs := jobs[id := j.(status := Queued, claimedBy := None, claimedAt := None, lease := None,
                                nextRetryAt := Some(at), finalUrl := Some(finalized))];
        case RequiresJs =>
          jobs := jobs[id := j.(status := Queued, claimedBy := None, claimedAt := None, lease := None,
              nextRetryAt := None,
                                finalUrl := Some(finalized), requiresJs := true, jsRequeues := j.jsRequeues + 1)];
        case BlockedPage =>
          jobs := jobs[id := j.(status := Blocked, nextRetryAt := None, finalUrl := Some(finalized))];
        case FailedPage | Gone =>
          jobs := jobs[id := j.(status := Failed, nextRetryAt := None, finalUrl := Some(finalized))];
        case RetriesExhausted =>
          jobs := jobs[id := j.(status := DeadLetter, nextRetryAt := None, finalUrl := Some(finalized))];
      }
    }

    method UpdateRequestedOrigin(row: (string, OriginKey), ready: Time)
      modifies this`origins
      ensures Tables() == UpdateRequested(old(Tables()), row, ready)
    {
      if row in origins {
        var o := origins[row];
        origins := origins[row := o.(nextAllowedAt := Max(o.nextAllowedAt, ready), inFlight := Max(o.inFlight - 1, 0))];
      } else {
        origins := origins[row := Origin(ready, 0, 0)];
      }
    }

    method UpdateFinalOrigin(row: (string, OriginKey), ready: Time)
      modifies this`origins
      ensures Tables() == UpdateFinal(old(Tables()), row, ready)
    {
      if row in origins {
        origins := origins[row := origins[row].(nextAllowedAt := Max(origins[row].nextAllowedAt, ready))];
      } else {
        origins := origins[row := Origin(ready, 0, 0)];
      }
    }

    /** The links of a page that may become jobs, as the projector filters them. */
    method FilterLinks(j: Job, r: CrawlResult, blacklist: seq<string>, pageBlacklisted: bool) returns (links: seq<Link>)
      requires pageBlacklisted == PageBlacklisted(r, blacklist)
      ensures links == ScopedLinks(j, r, blacklist)
    {
      links := FilterDiscoveredUrls(r.discovered, j.scope, j.anchor, Max(j.maxDiscovered, 1));
      links := WithoutBlacklisted(links, blacklist);
      if pageBlacklisted {
        links := [];
      }
    }

    /** The status write and the children: everything an apply does before the origins. */
    method WriteAndSpread(key: (nat, nat), now: Time, clock: Time, stamps: nat -> Time, blacklist: seq<string>,
        fault: Option<Fault>)
      requires CanApply(Tables(), key)
      modifies this`jobs, this`origins, this`nextJob
      ensures Tables() == Spread(old(Tables()), ApplyEvent(key, now, clock, stamps, blacklist, fault))
    {
      var j, r := jobs[key.1], items[key].result;
      var pageBlacklisted := UrlMatchesDomains(Some(r.url), blacklist) || UrlMatchesDomains(FinalizedUrl(r), blacklist);
      var links := FilterLinks(j, r, blacklist, pageBlacklisted);
      var outcome := if pageBlacklisted then FilteredPage else Classify(r, j, clock);
      WriteJob(key.1, r, outcome);
      assert Tables() == WriteStatus(old(Tables()), key, clock, blacklist);
      if fault.Some? && fault.value.AfterChildren? {
        links := links[..Min(fault.value.count, |links|)];
      }
      SpreadLinks(j, outcome, links, blacklist, stamps);
    }

    /** A page that was kept or filtered passes its links on, unless it is as deep as allowed. */
    method SpreadLinks(j: Job, outcome: JobOutcome, links: seq<Link>, blacklist: seq<string>, stamps: nat -> Time)
      modifies this`jobs, this`origins, this`nextJob
      ensures Tables() == AddChildren(old(Tables()), j, outcome, links, blacklist, stamps)
    {
      if (outcome.SucceededPage? || outcome.FilteredPage?) && j.depth < j.maxDepth {
        var _ := EnqueueUrls(EnqueueRequest(owner := j.owner, budget := j.budget, depth := j.depth + 1,
          maxDepth := j.maxDepth, maxPages := j.maxPages, concurrency := j.concurrency, scope := j.scope,
          host := j.anchor, maxDiscovered := j.maxDiscovered, allowRevisit := false), links, blacklist, stamps);
      }
    }

    /** All writes of an apply, up to where one fails. */
    method ApplyWrites(key: (nat, nat), now: Time, clock: Time, stamps: nat -> Time, blacklist: seq<string>,
        fault: Option<Fault>)
      returns (error: Option<ApplyError>)
      requires CanApply(Tables(), key)
      modifies this`jobs, this`origins, this`nextJob
      ensures error == if fault.Some? then Some(WriteFailed) else None
      ensures Tables() == After(old(Tables()), ApplyEvent(key, now, clock, stamps, blacklist, fault))
    {
      var j, r := jobs[key.1], items[key].result;
      WriteAndSpread(key, now, clock, stamps, blacklist, fault);
      if fault.Some? && fault.value.AfterChildren? {
        NoteLeak((j.owner, j.origin));
        return Some(WriteFailed);
      }
      var ready := OriginReadyAt(now, r);
      UpdateRequestedOrigin((j.owner, j.origin), ready);
      if fault.Some? {
        return Some(WriteFailed);
      }
      var finalized := FinalizedUrl(r);
      var finalOrigin := if finalized.Some? then OriginOf(finalized.value) else None;
      if finalOrigin.Some? && finalOrigin.value != j.origin {
        UpdateFinalOrigin((j.owner, finalOrigin.value), ready);
      }
      error := None;
    }

    /** Applies a staged result. `blacklist` is None if it cannot be read, and then nothing has been written yet;
        `fault` says where, if anywhere, a later write fails. */
    method ApplyStagedResult(key: (nat, nat), now: Time, clock: Time, stamps: nat -> Time,
        blacklist: Option<seq<string>>,
                             fault: Option<Fault>)
      returns (error: Option<ApplyError>)
      requires Valid() && key in items
      modifies this
      ensures Valid() && items == old(items)
      ensures error == ApplyErrorOf(old(Tables()), key, blacklist.Some?, fault)
      ensures if blacklist.Some? && error in {None, Some(WriteFailed)}
              then history == old(history) + [ApplyEvent(key, now, clock, stamps, blacklist.value, fault)]
                   && Tables() == After(old(Tables()), ApplyEvent(key, now, clock, stamps, blacklist.value, fault))
                   && !IsActivePair(Tables(), key)
                   && JudgedAt(old(Tables()), Tables(), key, blacklist.value, clock)
              else history == old(history) && Tables() == old(Tables())
    {
      var item := items[key];
      var id := key.1;
      if id !in jobs || jobs[id].owner != item.owner || jobs[id].claimedBy != Some(item.crawler)
         || jobs[id].lease != Some(key.0) || !jobs[id].status.Ingesting? {
        return Some(NoLongerIngesting);
      }
      var j, r := jobs[id], item.result;
      if j.url != r.url {
        return Some(WrongUrl);
      }
      if blacklist.None? {
        return Some(Unreadable);
      }
      ghost var e := ApplyEvent(key, now, clock, stamps, blacklist.value, fault);
      ApplyEffects(history, Tables(), e);
      Record(e);
      error := ApplyWrites(key, now, clock, stamps, blacklist.value, fault);
    }

    /** Keeps the history column that counts lost slots. */
    method NoteLeak(row: (string, OriginKey))
      modifies this`origins
      ensures Tables() == Leak(old(Tables()), row)
    {
      if row in origins {
        origins := origins[row := origins[row].(leaked := origins[row].leaked + 1)];
      }
    }

    /** Fails the item's job, if it is still ingesting for it. Returns the origin that is owed a slot. */
    method FailIngesting(key: (nat, nat)) returns (row: Option<(string, OriginKey)>)
      requires Valid() && key in items
      modifies this`jobs, this`owed, this`history
      ensures Valid() && history == old(history) + [Event.FailJob(key)]
      ensures Tables() == FailIngestingJob(old(Tables()), key)
      ensures row == if Projectable(old(Tables()), key) then Some(OriginRow(old(jobs)[key.1])) else None
    {
      Record(Event.FailJob(key));
      var item, id := items[key], key.1;
      if id !in jobs || jobs[id].owner != item.owner || jobs[id].claimedBy != Some(item.crawler)
         || jobs[id].lease != Some(key.0) || !jobs[id].status.Ingesting? {
        return None;
      }
      row := Some((item.owner, jobs[id].origin));
      jobs := jobs[id := jobs[id].(status := Failed, claimedBy := None, claimedAt := None, lease := None,
          nextRetryAt := None)];
      owed := owed + multiset{row.value};
    }

    method GiveSlotBack(row: (string, OriginKey))
      requires Valid() && row in owed
      modifies this`origins, this`owed, this`history
      ensures Valid() && history == old(history) + [GiveBack(row)]
      ensures Tables() == ReturnSlot(old(Tables()), row)
    {
      Record(GiveBack(row));
      owed := owed - multiset{row};
      if row in origins {
        origins := origins[row := origins[row].(inFlight := Max(origins[row].inFlight - 1, 0))];
      }
    }

    /** The follow-ups of a failed apply: the job, its slot, the item. `fails` names the statement, if any, at which the
        database fails; those after it are not carried out. */
    method FailItem(key: (nat, nat), fails: Option<nat>) returns (ok: bool)
      requires Valid() && key in items
      modifies this
      ensures Valid() && old(history) <= history && items.Keys == old(items).Keys
      ensures fails.None? ==> ok
      ensures ok ==> Tables() == FailProjection(old(Tables()), key) && FailedFor(old(Tables()), jobs, key)
      ensures SettledItem(old(items), items, key, if ok then TaskFailed else TaskBroken)
    {
      var reached := FailJobAndSlot(key, fails);
      if !reached || fails == Some(2) {
        return false;
      }
      FailureFails(old(Tables()), key);
      SettleAsFailed(key);
      ok := true;
    }

    /** The first two of these statements. */
    method FailJobAndSlot(key: (nat, nat), fails: Option<nat>) returns (reached: bool)
      requires Valid() && key in items
      modifies this`jobs, this`origins, this`owed, this`history
      ensures Valid() && old(history) <= history
      ensures fails != Some(0) && fails != Some(1) ==> reached
      ensures reached ==> Tables() == JobAndSlotFailed(old(Tables()), key)
    {
      if fails == Some(0) {
        return false;
      }
      var row := FailIngesting(key);
      if row.Some? {
        if fails == Some(1) {
          return false;
        }
        GiveSlotBack(row.value);
      }
      reached := true;
    }

    method SettleAsFailed(key: (nat, nat))
      requires Valid() && key in items
      modifies this`items, this`history
      ensures Valid() && history == old(history) + [Event.FailItem(key)]
      ensures Tables() == SetItemStatus(old(Tables()), key, ItemFailed)
    {
      Record(Event.FailItem(key));
      MarkItemFailed(key);
    }

    /** One projection task and its follow-ups. Times, faults and panics are left open, and so is whether the reported
        result and the blacklist can be read and whether the follow-ups succeed. */
    method RunTask(key: (nat, nat)) returns (end: TaskEnd)
      requires Valid() && key in items
      modifies this
      ensures Valid() && old(history) <= history
      ensures SettledItem(old(items), items, key, end) && !end.TaskAborted?
    {
      var error: Option<ApplyError> := Some(Unreadable);
      var loaded: bool, panic: bool := *, *;
      if loaded {
        error := TryApply(key);
      }
      if panic {
        end := TaskPanicked;
      } else if error.None? {
        var saved: bool := *;
        if saved {
          MarkItemCompleted(key);
        }
        end := if saved then TaskDone else TaskBroken;
      } else {
        var fails: Option<nat> := *;
        var ok := FailItem(key, fails);
        end := if ok then TaskFailed else TaskBroken;
      }
    }

    /** An apply at any time, with any fault. */
    method TryApply(key: (nat, nat)) returns (error: Option<ApplyError>)
      requires Valid() && key in items
      modifies this
      ensures Valid() && old(history) <= history && items == old(items)
      ensures error.None? ==> !IsActivePair(Tables(), key)
    {
      var now: Time, clock: Time, stamps: nat -> Time := *, *, *;
      var blacklist: Option<seq<string>>, fault: Option<Fault> := *, *;
      error := ApplyStagedResult(key, now, clock, stamps, blacklist, fault);
    }

    /** Starts tasks for waiting items, while fewer than `concurrency` are running. */
    method SpawnTasks(pending: set<(nat, nat)>, running: set<(nat, nat)>, concurrency: nat,
                      ghost taken: set<(nat, nat)>, ghost ended: set<(nat, nat)>)
      returns (pending': set<(nat, nat)>, running': set<(nat, nat)>)
      requires |running| <= concurrency && Divided(taken, pending, running, ended)
      ensures Divided(taken, pending', running', ended) && |running'| <= concurrency
      ensures |pending'| + |running'| == |pending| + |running|
      ensures |running'| == concurrency || pending' == {}
    {
      pending', running' := pending, running;
      while |running'| < concurrency && pending' != {}
        invariant Divided(taken, pending', running', ended) && |running'| <= concurrency
        invariant |pending'| + |running'| == |pending| + |running|
      {
        var key :| key in pending';
        SpawnOne(taken, pending', running', ended, key);
        pending', running' := pending' - {key}, running' + {key};
      }
    }

    /** One drain: takes pending items, applies at most `limit` of them at a time, and settles each as its task ends.
        The order in which tasks start and end is left open. Every item taken ends completed, failed or, if its task
        panicked, still processing, each exactly once. If a follow-up fails the drain ends there: running tasks are
        aborted wherever they are, waiting ones never start, and all their items stay processing. */
    method Drain(limit: nat, taken: set<(nat, nat)>, started: Time)
      returns (processed: Option<nat>, ghost ends: map<(nat, nat), TaskEnd>)
      requires Valid() && Enabled(Tables(), TakeItems(limit, taken, started))
      modifies this
      ensures Valid() && old(history) <= history
      ensures DrainEnds(taken, ends, processed)
      ensures StatusesAfter(items, old(items), taken, ends)
    {
      ClaimPendingItems(limit, taken, started);
      if taken == {} {
        NothingTaken();
        return Some(0), map[];
      }
      processed, ends := RunTasks(taken, Max(limit, 1), old(items));
    }

    /** Runs the tasks of all taken items, at most `concurrency` at a time. */
    method RunTasks(taken: set<(nat, nat)>, concurrency: nat, ghost before: map<(nat, nat), Item>)
      returns (processed: Option<nat>, ghost ends: map<(nat, nat), TaskEnd>)
      requires Valid() && concurrency >= 1 && StatusesAfter(items, before, taken, map[])
      modifies this
      ensures Valid() && old(history) <= history
      ensures DrainEnds(taken, ends, processed)
      ensures StatusesAfter(items, before, taken, ends)
    {
      var count: nat;
      count, ends := 0, map[];
      var pending, running, broken := taken, {}, false;
      while true
        invariant Valid() && old(history) <= history
        invariant |running| <= concurrency && Divided(taken, pending, running, ends.Keys)
        invariant count == |Ended(ends, TaskDone)| && AllSettled(ends)
        invariant StatusesAfter(items, before, taken, ends)
        decreases |pending| + |running|
      {
        pending, running := SpawnTasks(pending, running, concurrency, taken, ends.Keys);
        if running == {} {
          DrainDone(taken, pending, ends, count);
          return Some(count), ends;
        }
        running, count, broken, ends := JoinNext(pending, running, count, taken, ends, before);
        if broken {
          return None, ends;
        }
      }
    }

    /** Waits for one running task to end and settles its item. If a follow-up of it fails, the others are aborted. */
    method JoinNext(ghost pending: set<(nat, nat)>, running: set<(nat, nat)>, count: nat, ghost taken: set<(nat, nat)>,
                    ghost ends: map<(nat, nat), TaskEnd>, ghost before: map<(nat, nat), Item>)
      returns (running': set<(nat, nat)>, count': nat, broken: bool, ghost ends': map<(nat, nat), TaskEnd>)
      requires Valid() && running != {} && Divided(taken, pending, running, ends.Keys)
      requires count == |Ended(ends, TaskDone)| && AllSettled(ends) && StatusesAfter(items, before, taken, ends)
      modifies this
      ensures Valid() && old(history) <= history
      ensures ends'.Keys <= taken && StatusesAfter(items, before, taken, ends')
      ensures !broken ==> |running'| == |running| - 1 && Divided(taken, pending, running', ends'.Keys)
      ensures !broken ==> count' == |Ended(ends', TaskDone)| && AllSettled(ends')
    {
      var key :| key in running;
      assert key in taken && key !in ends;
      var end := RunTask(key);
      ends' := ends[key := end];
      StatusesOneMore(old(items), items, before, taken, ends, key, end);
      EndOne(taken, pending, running, ends, key, end, ends');
      SettledOneMore(ends, key, end);
      running' := running - {key};
      count' := if end.TaskDone? then count + 1 else count;
      broken := end.TaskBroken?;
      if broken {
        ends' := AbortAll(pending, running', taken, ends', before);
      }
    }

    /** Aborts the tasks that are still running. Each may have got anywhere in its apply. */
    method AbortAll(ghost pending: set<(nat, nat)>, running: set<(nat, nat)>, ghost taken: set<(nat, nat)>,
                    ghost ends: map<(nat, nat), TaskEnd>, ghost before: map<(nat, nat), Item>)
      returns (ghost ends': map<(nat, nat), TaskEnd>)
      requires Valid() && Divided(taken, pending, running, ends.Keys) && StatusesAfter(items, before, taken, ends)
      modifies this
      ensures Valid() && old(history) <= history
      ensures ends'.Keys <= taken && StatusesAfter(items, before, taken, ends')
    {
      ends' := ends;
      var rest := running;
      while rest != {}
        invariant Valid() && old(history) <= history
        invariant Divided(taken, pending, rest, ends'.Keys) && StatusesAfter(items, before, taken, ends')
      {
        var key :| key in rest;
        ghost var was := items;
        var started: bool := *;
        if started {
          var _ := TryApply(key);
        }
        StatusesOneMore(was, items, before, taken, ends', key, TaskAborted);
        EndOne(taken, pending, rest, ends', key, TaskAborted, ends'[key := TaskAborted]);
        rest := rest - {key};
        ends' := ends'[key := TaskAborted];
      }
    }

    // ---- recovery and administration ------------------------------------

    /** The statement that takes claims back and gives their slots back. */
    method TakeBack(ids: set<nat>, now: Time)
      requires ids <= jobs.Keys
      modifies this`jobs, this`origins
      ensures Tables() == ReturnClaims(old(Tables()), ids, now)
    {
      ghost var before := Tables();
      var touched := map id | id in ids :: jobs[id];
      var jobRows := jobs;
      jobs := map id | id in jobRows ::
        if id !in ids then jobRows[id]
        else if Max(jobRows[id].maxAttempts, 1) <= Max(jobRows[id].attempts, 1)
        then jobRows[id].(status := DeadLetter, claimedBy := None, claimedAt := None, lease := None,
            nextRetryAt := None)
        else jobRows[id].(status := Queued, claimedBy := None, claimedAt := None, lease := None,
            nextRetryAt := Some(now + 30));
      var originRows := origins;
      origins := map row | row in originRows ::
        if CountOn(touched, row) == 0 then originRows[row]
        else originRows[row].(inFlight := Max(originRows[row].inFlight - CountOn(touched, row), 0),
                           nextAllowedAt := Max(originRows[row].nextAllowedAt, now + 30));
      ReturnStatement(before, Tables(), ids, now, touched);
    }

    method RequeueStaleJobs(now: Time, timeout: nat)
      requires Valid()
      modifies this
      ensures Valid() && history == old(history) + [RequeueStale(now, timeout)]
      ensures Tables() == After(old(Tables()), RequeueStale(now, timeout))
      ensures TookBack(old(Tables()), Tables(), RequeueStale(now, timeout))
    {
      HistoryTakesBack(history, Tables(), RequeueStale(now, timeout));
      Record(RequeueStale(now, timeout));
      RequeueStatement(now, timeout);
    }

    method RequeueStatement(now: Time, timeout: nat)
      modifies this`jobs, this`origins
      ensures Tables() == Recovery.RequeueStaleJobs(old(Tables()), now, timeout)
    {
      var stale := FindStaleClaims(now - timeout);
      TakeBack(stale, now);
      ClaimRecovery(old(Tables()), Tables(), now, timeout, stale);
    }

    method FindStaleClaims(cutoff: Time) returns (stale: set<nat>)
      ensures stale == StaleClaims(Tables(), cutoff) && stale <= jobs.Keys
    {
      stale := set id | id in jobs && jobs[id].status.Claimed? && ClaimedBefore(jobs[id], cutoff);
    }

    method RecoverStaleIngestingJobs(now: Time, timeout: nat)
      requires Valid()
      modifies this
      ensures Valid() && history == old(history) + [RecoverIngesting(now, timeout)]
      ensures Tables() == After(old(Tables()), RecoverIngesting(now, timeout))
      ensures TookBack(old(Tables()), Tables(), RecoverIngesting(now, timeout))
      ensures FailedWith(old(Tables()), items, RecoverIngesting(now, timeout))
    {
      HistoryTakesBack(history, Tables(), RecoverIngesting(now, timeout));
      RecoveryFailsItems(Tables(), RecoverIngesting(now, timeout));
      Record(RecoverIngesting(now, timeout));
      RecoverIngestingStatement(now, timeout);
    }

    /** Takes back stale ingesting jobs and fails the unfinished items of the leases they had. */
    method RecoverIngestingStatement(now: Time, timeout: nat)
      modifies this`jobs, this`origins, this`items
      ensures Tables() == Recovery.RecoverStaleIngestingJobs(old(Tables()), now, timeout)
    {
      var stale := FindStaleIngests(now - timeout);
      var held := jobs;
      TakeBack(stale, now);
      FailItemsOf(held, stale);
      IngestRecovery(old(Tables()), Tables(), now, timeout, stale);
    }

    method FindStaleIngests(cutoff: Time) returns (stale: set<nat>)
      ensures stale == StaleIngests(Tables(), cutoff)
    {
      stale := set id | id in jobs && jobs[id].status.Ingesting? && ClaimedBefore(jobs[id], cutoff);
    }

    method FailItemsOf(held: map<nat, Job>, ids: set<nat>)
      requires ids <= held.Keys
      modifies this`items
      ensures items == FailedItems(old(items), held, ids)
    {
      var itemRows := items;
      items := map key | key in itemRows ::
        if key.1 in ids && held[key.1].lease == Some(key.0)
            && (itemRows[key].status.Pending? || itemRows[key].status.Processing?)
        then itemRows[key].(status := ItemFailed) else itemRows[key];
    }

    /** First the replayable items, then those whose job has left ingesting. */
    method RecoverStaleItems(now: Time, timeout: nat)
      requires Valid()
      modifies this
      ensures Valid() && history == old(history) + [ReplayItems(now, timeout), AbandonItems(now, timeout)]
      ensures Tables() == AbandonStaleItems(ReplayStaleItems(old(Tables()), now - Max(timeout, 1)),
          now - Max(timeout, 1))
      ensures Unstuck(old(Tables()), items, now, timeout)
    {
      RecoveryUnsticks(Tables(), now, timeout);
      Replay(now, timeout);
      Abandon(now, timeout);
    }

    method Replay(now: Time, timeout: nat)
      requires Valid()
      modifies this`items, this`history
      ensures Valid() && history == old(history) + [ReplayItems(now, timeout)]
      ensures Tables() == ReplayStaleItems(old(Tables()), now - Max(timeout, 1))
    {
      Record(ReplayItems(now, timeout));
      ReplayStatement(now - Max(timeout, 1));
    }

    method Abandon(now: Time, timeout: nat)
      requires Valid()
      modifies this`items, this`history
      ensures Valid() && history == old(history) + [AbandonItems(now, timeout)]
      ensures Tables() == AbandonStaleItems(old(Tables()), now - Max(timeout, 1))
    {
      Record(AbandonItems(now, timeout));
      AbandonStatement(now - Max(timeout, 1));
    }

    method ReplayStatement(cutoff: Time)
      modifies this`items
      ensures Tables() == ReplayStaleItems(old(Tables()), cutoff)
    {
      var jobRows, itemRows := jobs, items;
      items := map key | key in itemRows ::
        if itemRows[key].status.Processing? && itemRows[key].startedAt.Some? && itemRows[key].startedAt.value < cutoff
           && key.1 in jobRows && jobRows[key.1].owner == itemRows[key].owner && jobRows[key.1].status.Ingesting?
        then itemRows[key].(status := Pending, startedAt := None) else itemRows[key];
    }

    method AbandonStatement(cutoff: Time)
      modifies this`items
      ensures Tables() == AbandonStaleItems(old(Tables()), cutoff)
    {
      var jobRows, itemRows := jobs, items;
      items := map key | key in itemRows ::
        if itemRows[key].status.Processing? && itemRows[key].startedAt.Some? && itemRows[key].startedAt.value < cutoff
           && key.1 in jobRows && jobRows[key.1].owner == itemRows[key].owner && !jobRows[key.1].status.Ingesting?
        then itemRows[key].(status := ItemFailed) else itemRows[key];
    }

    method ReleaseClaimedJobs(owner: string, crawler: string, now: Time) returns (requeued: nat, deadLettered: nat)
      requires Valid()
      modifies this
      ensures Valid() && history == old(history) + [DeleteCrawler(owner, crawler, now)]
      ensures Tables() == After(old(Tables()), DeleteCrawler(owner, crawler, now))
      ensures TookBack(old(Tables()), Tables(), DeleteCrawler(owner, crawler, now))
      ensures requeued == |CrawlerJobs(old(jobs), owner, crawler, true)|
      ensures deadLettered == |CrawlerJobs(old(jobs), owner, crawler, false)|
    {
      HistoryTakesBack(history, Tables(), DeleteCrawler(owner, crawler, now));
      CrawlerJobsSplit(Tables(), owner, crawler);
      Record(DeleteCrawler(owner, crawler, now));
      var released := set id | id in jobs && jobs[id].owner == owner && jobs[id].claimedBy == Some(crawler)
          && jobs[id].status.Claimed?;
      assert released == ClaimsOf(Tables(), owner, crawler);
      TakeBack(released, now);
      requeued := |set id | id in released && id in jobs && jobs[id].status.Queued?|;
      deadLettered := |set id | id in released && id in jobs && jobs[id].status.DeadLetter?|;
      ReturnedSplit(old(Tables()), released, now);
    }

    method RetryFailedJobs(owner: string) returns (count: nat)
      requires Valid()
      modifies this
      ensures Valid() && history == old(history) + [RetryFailed(owner)]
      ensures Tables() == After(old(Tables()), RetryFailed(owner))
      ensures OnlyRevived(old(jobs), jobs, owner)
      ensures count == |set id | id in old(jobs) && ToRevive(old(jobs)[id], owner)|
    {
      Record(RetryFailed(owner));
      RetryRevives(Tables(), owner);
      count := ReviveJobs(owner);
    }

    method ReviveJobs(owner: string) returns (count: nat)
      modifies this`jobs
      ensures Tables() == Recovery.RetryFailedJobs(old(Tables()), owner)
      ensures count == |set id | id in old(jobs) && ToRevive(old(jobs)[id], owner)|
    {
      var jobRows := jobs;
      var revived := set id | id in jobRows && jobRows[id].owner == owner
          && (jobRows[id].status.Failed? || jobRows[id].status.DeadLetter?);
      assert revived == set id | id in jobs && ToRevive(jobs[id], owner);
      count := |revived|;
      jobs := map id | id in jobRows ::
        if id !in revived then jobRows[id]
        else jobRows[id].(status := Queued, claimedBy := None, claimedAt := None, lease := None, nextRetryAt := None,
                          finalUrl := None, adminRetries := jobRows[id].adminRetries + 1);
    }

    /** Removes unfinished jobs, then resets the owner's origins: two statements, between which others may run. */
    method StopAllJobs(owner: string, now: Time) returns (removed: nat)
      requires Valid()
      modifies this
      ensures Valid() && history == old(history) + [StopJobs(owner), StopOrigins(owner, now)]
      ensures Tables() == ResetOrigins(DeleteUnfinished(old(Tables()), owner), owner, now)
      ensures OnlyFinishedLeft(old(jobs), jobs, owner) && removed == |UnfinishedJobs(old(jobs), owner)|
      ensures origins == map row | row in old(origins) ::
                if row.0 == owner then Origin(now, 0, 0) else old(origins)[row]
    {
      StopLeavesFinished(Tables(), owner);
      removed := StopJobsOf(owner);
      StopOriginsOf(owner, now);
    }

    method StopJobsOf(owner: string) returns (removed: nat)
      requires Valid()
      modifies this`jobs, this`origins, this`history
      ensures Valid() && history == old(history) + [StopJobs(owner)]
      ensures Tables() == DeleteUnfinished(old(Tables()), owner)
      ensures removed == |old(jobs)| - |jobs|
    {
      Record(StopJobs(owner));
      removed := DeleteUnfinishedRows(owner);
    }

    method StopOriginsOf(owner: string, now: Time)
      requires Valid()
      modifies this`origins, this`history
      ensures Valid() && history == old(history) + [StopOrigins(owner, now)]
      ensures Tables() == ResetOrigins(old(Tables()), owner, now)
    {
      Record(StopOrigins(owner, now));
      ResetOriginsOf(owner, now);
    }

    method DeleteUnfinishedRows(owner: string) returns (removed: nat)
      modifies this`jobs, this`origins
      ensures Tables() == DeleteUnfinished(old(Tables()), owner)
      ensures removed == |old(jobs)| - |jobs|
    {
      var gone := set id | id in jobs && jobs[id].owner == owner && (jobs[id].status.Queued? || Active(jobs[id]));
      assert gone == UnfinishedOf(Tables(), owner);
      NoteDeleted(owner);
      removed := DeleteRows(gone);
    }

    /** Keeps the history column that counts lost slots. */
    method NoteDeleted(owner: string)
      modifies this`origins
      ensures Tables() == old(Tables()).(origins := DeleteUnfinished(old(Tables()), owner).origins)
    {
      var jobRows, originRows := jobs, origins;
      ghost var db := Tables();
      forall row
        ensures (set id | id in jobRows && Active(jobRows[id]) && OriginRow(jobRows[id]) == row) == ActiveOn(db, row)
      {
      }
      origins := map row | row in originRows ::
        if row.0 == owner
        then originRows[row].(leaked := originRows[row].leaked + |set id | id in jobRows && Active(jobRows[id])
            && OriginRow(jobRows[id]) == row|)
        else originRows[row];
    }

    method DeleteRows(gone: set<nat>) returns (count: nat)
      requires gone <= jobs.Keys
      modifies this`jobs
      ensures Tables() == DeleteJobs(old(Tables()), gone)
      ensures count == |old(jobs)| - |jobs| == |gone|
    {
      count := |gone|;
      DeletedCount(Tables(), gone);
      var jobRows := jobs;
      jobs := map id | id in jobRows && id !in gone :: jobRows[id];
    }

    method ResetOriginsOf(owner: string, now: Time)
      modifies this`origins
      ensures Tables() == ResetOrigins(old(Tables()), owner, now)
    {
      var originRows := origins;
      origins := map row | row in originRows :: if row.0 == owner then Origin(now, 0, 0) else originRows[row];
    }

    /** For each blacklisted domain removes its inactive jobs and then its unused origins. */
    method CleanupBlacklistedDomains(domains: seq<string>) returns (deletedJobs: nat)
      requires Valid()
      modifies this
      ensures Valid() && Cleaned(old(Tables()), Tables(), domains)
      ensures deletedJobs == |old(jobs)| - |jobs|
    {
      deletedJobs := 0;
      for i := 0 to |domains|
        invariant Valid() && Cleaned(old(Tables()), Tables(), domains[..i])
        invariant deletedJobs == |old(jobs)| - |jobs|
      {
        ghost var before := Tables();
        var count := CleanupDomainOnce(domains[i]);
        deletedJobs := deletedJobs + count;
        CleanedOneMore(old(Tables()), before, Tables(), domains, i);
      }
      assert domains[..|domains|] == domains;
    }

    method CleanupDomainOnce(domain: string) returns (deleted: nat)
      requires Valid()
      modifies this
      ensures Valid() && history == old(history) + [BlacklistJobs(domain), BlacklistOrigins(domain)]
      ensures Tables() == DropUnusedOrigins(DeleteDomainJobs(old(Tables()), domain), domain)
      ensures Cleaned(old(Tables()), Tables(), [domain])
      ensures deleted == |old(jobs)| - |jobs|
    {
      deleted := DeleteInactiveOn(domain);
      DropOriginsOf(domain);
      DomainCleaned(old(Tables()), domain);
    }

    method DeleteInactiveOn(domain: string) returns (deleted: nat)
      requires Valid()
      modifies this`jobs, this`history
      ensures Valid() && history == old(history) + [BlacklistJobs(domain)]
      ensures Tables() == DeleteDomainJobs(old(Tables()), domain)
      ensures deleted == |old(jobs)| - |jobs|
    {
      Record(BlacklistJobs(domain));
      deleted := DeleteDomainRows(domain);
    }

    method DropOriginsOf(domain: string)
      requires Valid()
      modifies this`origins, this`history
      ensures Valid() && history == old(history) + [BlacklistOrigins(domain)]
      ensures Tables() == DropUnusedOrigins(old(Tables()), domain)
    {
      Record(BlacklistOrigins(domain));
      DeleteUnusedOrigins(domain);
    }

    method DeleteDomainRows(domain: string) returns (deleted: nat)
      modifies this`jobs
      ensures Tables() == DeleteDomainJobs(old(Tables()), domain)
      ensures deleted == |old(jobs)| - |jobs|
    {
      var gone := set id | id in jobs && JobOnDomain(jobs[id], domain) && !jobs[id].status.Claimed?
          && !jobs[id].status.Ingesting?;
      assert gone == InactiveOn(Tables(), domain);
      deleted := DeleteRows(gone);
    }

    method DeleteUnusedOrigins(domain: string)
      modifies this`origins
      ensures Tables() == DropUnusedOrigins(old(Tables()), domain)
    {
      var jobRows, originRows := jobs, origins;
      origins := map row | row in originRows &&
          !(HostMatchesScope(row.1.host, domain, SameDomain) && forall id <- jobRows :: OriginRow(jobRows[id]) != row)
        :: originRows[row];
    }

    /** Seeds every rule that is due, with a budget of its own and revisits allowed. */
    method ApplyDueRules(rules: seq<DueRule>, blacklist: seq<string>, stamps: nat -> Time)
      requires Valid()
      modifies this
      ensures Valid() && SeededOnly(old(Tables()), Tables())
    {
      ReachedIsSafe(history, Tables());
      for i := 0 to |rules|
        invariant Valid() && SeededOnly(old(Tables()), Tables())
      {
        var rule := rules[i];
        ghost var e := Seed(rule.owner, [rule.seed], rule.maxDepth, rule.maxPages, rule.concurrency, rule.scope,
                            rule.maxDiscovered, true, blacklist, stamps);
        ReachedIsSafe(history, Tables());
        SeedSeedsOnly(Tables(), e);
        SeededOnlyTransitive(old(Tables()), Tables(), After(Tables(), e));
        var _ := SeedFrontier(rule.owner, [rule.seed], rule.maxDepth, rule.maxPages, rule.concurrency, rule.scope,
                              rule.maxDiscovered, true, blacklist, stamps);
      }
    }

    /** Both recoveries of claims at one time. */
    method RecoverClaims(now: Time, timeout: nat)
      requires Valid()
      modifies this
      ensures Valid() && jobs.Keys == old(jobs).Keys
      ensures forall id <- jobs :: Recovered(old(jobs)[id], jobs[id], now - timeout)
    {
      HistoryColumns(history, Tables());
      RequeueStaleJobs(now, timeout);
      RecoverStaleIngestingJobs(now, timeout);
      RecoveredRows(old(Tables()), Tables(), now, timeout);
    }

    /** A maintenance pass: due rules, both recoveries at one time, the blacklist, and the adaptive recrawl. No claim
        older than the timeout is left. */
    method RunMaintenance(now: Time, timeout: nat, rules: seq<DueRule>, domains: seq<string>,
                          pages: seq<(nat, Link, string)>, stamps: nat -> Time)
      requires Valid()
      modifies this
      ensures Valid()
      ensures forall id <- jobs ::
          Active(jobs[id]) ==> jobs[id].claimedAt.Some? && jobs[id].claimedAt.value >= now - timeout
      ensures forall id <- jobs ::
        if id in old(jobs) then Recovered(old(jobs)[id], jobs[id], now - timeout)
            else jobs[id].status.Queued? && id >= old(nextJob)
      ensures forall id <- old(jobs) ::
          Active(old(jobs)[id]) && !ClaimedBefore(old(jobs)[id], now - timeout) ==> id in jobs
    {
      ApplyDueRules(rules, domains, stamps);
      ghost var seeded := Tables();
      RecoverClaims(now, timeout);
      ghost var recovered := Tables();
      var _ := CleanupBlacklistedDomains(domains);
      MaintainedRows(old(Tables()), seeded, recovered, Tables(), domains, now - timeout);
      ScheduleAdaptiveRecrawl(pages, domains, stamps);
    }
  }
}
