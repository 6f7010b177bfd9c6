/** Which jobs a claim hands out, when, and to whom: said of the columns of the rows alone, over single claims and whole
    runs. */
module Dispatch {
  import opened Wrappers
  import opened Urls
  import opened Tables
  import opened Counting
  import opened Frontier
  import opened Outcome
  import opened Projection
  import opened Protocol
  import opened JobInvariants
  import opened Verdicts
  import opened Lineage

  // ---- one claim --------------------------------------------------------

  /** A job that a crawler may be given: queued, past its own wait and its origin's, and not in need of a renderer that
      the crawler lacks. */
  predicate Waiting(db: Db, owner: string, js: bool, now: Time, id: nat) {
    && id in db.jobs && db.jobs[id].owner == owner && db.jobs[id].status.Queued?
    && (db.jobs[id].nextRetryAt.Some? ==> db.jobs[id].nextRetryAt.value <= now)
    && OpenAt(db, (owner, db.jobs[id].origin), now)
    && (db.jobs[id].requiresJs ==> js)
  }

  lemma WaitingIff(db: Db, owner: string, js: bool, now: Time, id: nat)
    ensures Waiting(db, owner, js, now, id) <==> id in EligibleJobs(db, owner, now, js)
  {
  }

  /** A claim hands out only jobs that are waiting, at most its limit, and none that another claim holds locked. */
  lemma ClaimTakesWaiting(db: Db, e: Event)
    requires e.Claim? && Enabled(db, e)
    ensures forall id <- e.picked :: Waiting(db, e.owner, e.js, e.now, id) && id !in e.locked
    ensures |e.picked| <= Max(e.limit, 1)
  {
    forall id | id in e.picked
      ensures Waiting(db, e.owner, e.js, e.now, id)
    {
      WaitingIff(db, e.owner, e.js, e.now, id);
    }
  }

  /** Job a is more urgent than job b, or as urgent and older. */
  predicate Before(a: Job, b: Job) {
    a.priority > b.priority || (a.priority == b.priority && a.discoveredAt < b.discoveredAt)
  }

  /** The other waiting jobs of the job's origin that do not come after it. */
  function NotAfter(db: Db, owner: string, js: bool, now: Time, id: nat): set<nat>
    requires id in db.jobs
  {
    set k | k in db.jobs && Waiting(db, owner, js, now, k) && k != id
            && db.jobs[k].origin == db.jobs[id].origin && !Before(db.jobs[id], db.jobs[k])
  }

  /** With the jobs of its origin that are being worked on, and all that may be handed out before it, there is room for
      the job. */
  predicate HasRoom(db: Db, owner: string, js: bool, now: Time, id: nat)
    requires id in db.jobs
  {
    |ActiveOn(db, (owner, db.jobs[id].origin))| + |NotAfter(db, owner, js, now, id)| < Max(db.jobs[id].concurrency, 1)
  }

  lemma RoomMakesCandidate(db: Db, e: Event, id: nat)
    requires e.Claim? && Enabled(db, e) && Waiting(db, e.owner, e.js, e.now, id)
        && HasRoom(db, e.owner, e.js, e.now, id)
    ensures id in Candidates(db, e.rank)
  {
    WaitingIff(db, e.owner, e.js, e.now, id);
    var others := NotAfter(db, e.owner, e.js, e.now, id);
    forall k | k in RankedBefore(db, e.rank, id)
      ensures k in others
    {
      WaitingIff(db, e.owner, e.js, e.now, k);
      var sooner := Sooner(db.jobs[id], db.jobs[k]);
    }
    SubsetCard(RankedBefore(db, e.rank, id), others);
  }

  /** A claim that stays below its limit hands out every waiting job that is not locked and has room. */
  lemma ClaimLeavesNone(db: Db, e: Event, id: nat)
    requires e.Claim? && Enabled(db, e) && |e.picked| < Max(e.limit, 1)
    requires Waiting(db, e.owner, e.js, e.now, id) && id !in e.locked && HasRoom(db, e.owner, e.js, e.now, id)
    ensures id in e.picked
  {
    RoomMakesCandidate(db, e, id);
  }

  /** Of two waiting jobs with one origin and one limit, a claim that hands out p but not q, which it could have,
      prefers it: q is not more urgent, nor as urgent and older. */
  lemma ClaimKeepsOrder(db: Db, e: Event, p: nat, q: nat)
    requires e.Claim? && Enabled(db, e) && p in e.picked && q !in e.picked && q !in e.locked
    requires Waiting(db, e.owner, e.js, e.now, q)
    requires p in db.jobs && db.jobs[p].origin == db.jobs[q].origin
    requires Max(db.jobs[p].concurrency, 1) == Max(db.jobs[q].concurrency, 1)
    ensures !Before(db.jobs[q], db.jobs[p])
  {
    WaitingIff(db, e.owner, e.js, e.now, p);
    WaitingIff(db, e.owner, e.js, e.now, q);
    assert Before(db.jobs[q], db.jobs[p]) <==> Sooner(db.jobs[q], db.jobs[p]);
    assert e.rank[q] < e.rank[p] ==> q in Candidates(db, e.rank);
    assert q in Candidates(db, e.rank) ==> !TakenBefore(db, db.jobs[q], db.jobs[p]);
  }

  /** Between origins, those that have been open for longer come first, among jobs there is room for. */
  lemma ClaimKeepsOriginOrder(db: Db, e: Event, p: nat, q: nat)
    requires e.Claim? && Enabled(db, e) && p in e.picked && q !in e.picked && q !in e.locked
    requires Waiting(db, e.owner, e.js, e.now, q) && HasRoom(db, e.owner, e.js, e.now, q)
    ensures p in db.jobs && (e.owner, db.jobs[p].origin) in db.origins
    ensures db.origins[(e.owner, db.jobs[p].origin)].nextAllowedAt
         <= db.origins[(e.owner, db.jobs[q].origin)].nextAllowedAt
  {
    ClaimTakesWaiting(db, e);
    assert Waiting(db, e.owner, e.js, e.now, p);
    RoomMakesCandidate(db, e, q);
    assert !TakenBefore(db, db.jobs[q], db.jobs[p]);
  }

  /** In a run, of two such jobs of one origin and one limit, the one handed out is not the deeper. */
  lemma ShallowFirst(states: seq<Db>, events: seq<Event>, i: nat, p: nat, q: nat)
    requires IsRun(states, events) && i < |events| && events[i].Claim?
    requires p in events[i].picked && q !in events[i].picked && q !in events[i].locked
    requires Waiting(states[i], events[i].owner, events[i].js, events[i].now, q)
    requires p in states[i].jobs && states[i].jobs[p].origin == states[i].jobs[q].origin
    requires Max(states[i].jobs[p].concurrency, 1) == Max(states[i].jobs[q].concurrency, 1)
    ensures states[i].jobs[p].depth <= states[i].jobs[q].depth
  {
    assert StepAt(states, events, i);
    ClaimKeepsOrder(states[i], events[i], p, q);
    RunKeepsUrgency(states, events, i, p);
    RunKeepsUrgency(states, events, i, q);
  }

  // ---- waiting for a retry ----------------------------------------------

  /** A queued row stays exactly as it is until a claim hands it out or it is removed. */
  lemma QueuedStays(db: Db, e: Event, id: nat)
    requires JobsOk(db) && Enabled(db, e) && id in db.jobs && id in After(db, e).jobs && db.jobs[id].status.Queued?
    requires e.Claim? ==> id !in e.picked
    ensures After(db, e).jobs[id] == db.jobs[id]
  {
    StepEvolves(db, e);
    if !e.Claim? {
      QueuedMove(db, e, After(db, e), id);
    }
  }

  lemma QueuedMove(db: Db, e: Event, after: Db, id: nat)
    requires Evolves(db, e, after) && !e.Claim? && id in db.jobs && id in after.jobs && db.jobs[id].status.Queued?
    ensures after.jobs[id] == db.jobs[id]
  {
    assert MoveAllowed(e, db.jobs[id], after.jobs[id], db.nextLease);
  }

  /** No claim from event i up to event k hands the job out. */
  ghost predicate NotClaimed(events: seq<Event>, i: nat, k: nat, id: nat)
    requires i <= k <= |events|
  {
    forall m :: i <= m < k && events[m].Claim? ==> id !in events[m].picked
  }

  lemma {:induction false} QueuedUntilClaimed(states: seq<Db>, events: seq<Event>, i: nat, k: nat, id: nat)
    requires IsRun(states, events) && i <= k < |states| && NotClaimed(events, i, k, id)
    requires id in states[i].jobs && states[i].jobs[id].status.Queued? && id in states[k].jobs
    ensures states[k].jobs[id] == states[i].jobs[id]
    decreases k
  {
    if i < k {
      RunKeepsJobsOk(states, events, k - 1);
      assert StepAt(states, events, k - 1);
      RowWasThere(states, events, i, k - 1, id);
      QueuedUntilClaimed(states, events, i, k - 1, id);
      QueuedStays(states[k - 1], events[k - 1], id);
    }
  }

  /** Removed rows do not come back. */
  lemma RowWasThere(states: seq<Db>, events: seq<Event>, i: nat, k: nat, id: nat)
    requires IsRun(states, events) && i <= k < |events| && id in states[i].jobs && id in states[k + 1].jobs
    ensures id in states[k].jobs
  {
    if id !in states[k].jobs {
      assert AddedAt(states, events, k, id);
      AddedBetween(states, events, k, id);
      IdsGrow(states, events, i, k);
      RunKeepsJobsOk(states, events, i);
    }
  }

  /** A job that is queued with a retry time is not handed out before that time. */
  lemma RetryTimeHolds(states: seq<Db>, events: seq<Event>, i: nat, k: nat, id: nat)
    requires IsRun(states, events) && i <= k < |events| && NotClaimed(events, i, k, id)
    requires id in states[i].jobs && states[i].jobs[id].status.Queued? && states[i].jobs[id].nextRetryAt.Some?
    requires events[k].Claim? && id in events[k].picked
    ensures events[k].now >= states[i].jobs[id].nextRetryAt.value
  {
    assert StepAt(states, events, k);
    ClaimTakesWaiting(states[k], events[k]);
    assert Waiting(states[k], events[k].owner, events[k].js, events[k].now, id);
    QueuedUntilClaimed(states, events, i, k, id);
  }

  /** After a failed try that is to be repeated, the job is next handed out 30 seconds later, or 120 after its second
      try, or 300 after any further one. */
  lemma RetriesWait(states: seq<Db>, events: seq<Event>, i: nat, k: nat, id: nat)
    requires IsRun(states, events) && i < k < |events| && NotClaimed(events, i + 1, k, id)
    requires id in states[i].jobs && id in states[i + 1].jobs && states[i + 1].jobs[id].status.Queued?
    requires Applies(events[i]) && events[i].key in states[i].items && events[i].key.1 == id
    requires Failure(states[i].items[events[i].key].result)
    requires events[k].Claim? && id in events[k].picked
    ensures events[k].now >= events[i].clock + RetryWait(states[i].jobs[id].attempts)
  {
    RetryTimeSetAt(states, events, i);
    RetryTimeHolds(states, events, i + 1, k, id);
  }

  /** A failure that leaves its job queued sets the job's retry time. */
  predicate RetrySet(db: Db, e: Event, after: Db)
    requires Applies(e)
  {
    e.key in db.items && Failure(db.items[e.key].result)
    && e.key.1 in db.jobs && e.key.1 in after.jobs && after.jobs[e.key.1].status.Queued? ==>
      after.jobs[e.key.1].nextRetryAt == Some(e.clock + RetryWait(db.jobs[e.key.1].attempts))
  }

  lemma RetryTimeSetAt(states: seq<Db>, events: seq<Event>, i: nat)
    requires IsRun(states, events) && i < |events| && Applies(events[i])
    ensures RetrySet(states[i], events[i], states[i + 1])
  {
    RunKeepsJobsOk(states, events, i);
    assert StepAt(states, events, i);
    RetryTimeSet(states[i], events[i], states[i + 1]);
  }

  lemma RetryTimeSet(db: Db, e: Event, after: Db)
    requires JobsOk(db) && Applies(e) && Next(db, e, after)
    ensures RetrySet(db, e, after)
  {
    ApplyJudges(db, e, e.key.1);
  }

  /** After its claim was taken back, a job is next handed out 30 seconds later. */
  lemma TakenBackWaits(states: seq<Db>, events: seq<Event>, i: nat, k: nat, id: nat)
    requires IsRun(states, events) && i < k < |events| && NotClaimed(events, i + 1, k, id)
    requires id in states[i].jobs && id in states[i + 1].jobs && states[i + 1].jobs[id].status.Queued?
    requires TakesBack(events[i]) && states[i].jobs[id].status in {Claimed, Ingesting}
    requires events[k].Claim? && id in events[k].picked
    ensures events[k].now >= events[i].now + 30
  {
    assert StepAt(states, events, i);
    TakingBackIsReturn(states[i], events[i]);
    RetryTimeHolds(states, events, i + 1, k, id);
  }

  // ---- who holds a job --------------------------------------------------

  /** Event k handed the job to the crawler that holds it, when and under the lease that the row says. */
  ghost predicate HandedOut(states: seq<Db>, events: seq<Event>, k: nat, id: nat, j: Job)
    requires |states| == |events| + 1
  {
    k < |events| && events[k].Claim? && id in events[k].picked && HeldFor(j, events[k], states[k].nextLease)
  }

  lemma HolderStep(db: Db, e: Event, id: nat)
    requires JobsOk(db) && Enabled(db, e) && id in After(db, e).jobs && Active(After(db, e).jobs[id])
    ensures id in db.jobs
    ensures if e.Claim? && id in e.picked then HeldFor(After(db, e).jobs[id], e, db.nextLease)
            else Active(db.jobs[id]) && SameHolder(db.jobs[id], After(db, e).jobs[id])
  {
    if e.Claim? {
      ClaimTakesWaiting(db, e);
    } else {
      StepEvolves(db, e);
      HolderMove(db, e, After(db, e), id);
    }
  }

  predicate HeldFor(j: Job, e: Event, lease: nat)
    requires e.Claim?
  {
    && j.owner == e.owner && j.claimedBy == Some(e.crawler) && j.claimedAt == Some(e.now) && j.lease == Some(lease)
    && j.claimJs == e.js
  }

  predicate SameHolder(j: Job, k: Job) {
    && k.owner == j.owner && k.claimedBy == j.claimedBy && k.claimedAt == j.claimedAt && k.lease == j.lease
    && k.claimJs == j.claimJs
  }

  lemma HolderMove(db: Db, e: Event, after: Db, id: nat)
    requires Evolves(db, e, after) && !e.Claim? && id in after.jobs && Active(after.jobs[id])
    ensures id in db.jobs && Active(db.jobs[id]) && SameHolder(db.jobs[id], after.jobs[id])
  {
    assert id in db.jobs;
    assert MoveAllowed(e, db.jobs[id], after.jobs[id], db.nextLease);
  }

  /** Whoever holds a job was handed it by an earlier claim, at the time and under the lease that its row says. */
  lemma {:induction false} RunKeepsHolders(states: seq<Db>, events: seq<Event>, i: nat, id: nat)
    requires IsRun(states, events) && i < |states| && id in states[i].jobs && Active(states[i].jobs[id])
    ensures exists k: nat :: k < i && HandedOut(states, events, k, id, states[i].jobs[id])
    decreases i
  {
    assert i > 0;
    RunKeepsJobsOk(states, events, i - 1);
    assert StepAt(states, events, i - 1);
    HolderStep(states[i - 1], events[i - 1], id);
    if events[i - 1].Claim? && id in events[i - 1].picked {
      assert HandedOut(states, events, i - 1, id, states[i].jobs[id]);
    } else {
      RunKeepsHolders(states, events, i - 1, id);
      var k: nat :| k < i - 1 && HandedOut(states, events, k, id, states[i - 1].jobs[id]);
      assert HandedOut(states, events, k, id, states[i].jobs[id]);
    }
  }
}
