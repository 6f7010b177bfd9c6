/** Leases fence off old work: a claim is settled at most once, and after that nothing done in its name
    changes the job again. */
module Fencing {
  import opened Tables
  import opened Frontier
  import opened Projection
  import opened Protocol
  import opened JobInvariants

  /** A step ends a claim: the pair was active before it and is not afterwards. */
  predicate Settles(db: Db, after: Db, key: (nat, nat)) {
    IsActivePair(db, key) && !IsActivePair(after, key)
  }

  predicate SettledAt(states: seq<Db>, m: nat, key: (nat, nat)) {
    m + 1 < |states| && Settles(states[m], states[m + 1], key)
  }

  /** An event starts a claim. */
  predicate Starts(db: Db, e: Event, key: (nat, nat)) {
    e.Claim? && key.0 == db.nextLease && key.1 in e.picked
  }

  /** Only its own claim makes a pair active. */
  lemma StepFence(db: Db, e: Event, key: (nat, nat))
    requires JobsOk(db) && Enabled(db, e)
    ensures IsActivePair(After(db, e), key) <== Starts(db, e, key)
    ensures IsActivePair(After(db, e), key) ==> IsActivePair(db, key) || Starts(db, e, key)
    ensures IsActivePair(db, key) ==> !Starts(db, e, key)
  {
    StepEvolves(db, e);
    MoveFence(db, e, After(db, e), key);
    if e.Claim? {
      ClaimFence(db, e, key);
    }
  }

  lemma MoveFence(db: Db, e: Event, after: Db, key: (nat, nat))
    requires JobsOk(db) && Evolves(db, e, after)
    ensures IsActivePair(after, key) && !IsActivePair(db, key) ==> e.Claim?
    ensures IsActivePair(db, key) ==> key.0 < db.nextLease
  {
    if IsActivePair(after, key) && key.1 in db.jobs {
      assert MoveAllowed(e, db.jobs[key.1], after.jobs[key.1], db.nextLease);
    }
  }

  lemma ClaimFence(db: Db, e: Event, key: (nat, nat))
    requires e.Claim? && Enabled(db, e)
    ensures IsActivePair(After(db, e), key) <== Starts(db, e, key)
    ensures IsActivePair(After(db, e), key) ==> IsActivePair(db, key) || Starts(db, e, key)
  {
    assert e.picked <= EligibleJobs(db, e.owner, e.now, e.js);
  }

  /** Applying an item, completely or in part, ends its claim. */
  lemma ApplySettles(db: Db, e: Event)
    requires JobsOk(db) && (e.ApplyItem? || e.ApplyStops?) && Enabled(db, e)
    ensures Settles(db, After(db, e), e.key)
  {
    ApplyTouchesOne(db, e, e.key.1);
    var j, r := db.jobs[e.key.1], db.items[e.key].result;
    WriteMoves(j, r, OutcomeOf(j, r, e.clock, e.blacklist), db.nextLease, e);
  }

  /** A pair with an issued lease that is not active stays so. */
  lemma {:induction false} InactiveStays(states: seq<Db>, events: seq<Event>, i: nat, k: nat, key: (nat, nat))
    requires IsRun(states, events) && i <= k < |states|
    requires key.0 < states[i].nextLease && !IsActivePair(states[i], key)
    ensures key.0 < states[k].nextLease && !IsActivePair(states[k], key)
    decreases k
  {
    if i < k {
      InactiveStays(states, events, i, k - 1, key);
      assert StepAt(states, events, k - 1);
      RunKeepsJobsOk(states, events, k - 1);
      StepFence(states[k - 1], events[k - 1], key);
      StepEvolves(states[k - 1], events[k - 1]);
    }
  }

  /** Over any run each (lease, job) pair is settled at most once, so it is applied at most once. */
  lemma SettledAtMostOnce(states: seq<Db>, events: seq<Event>, i: nat, k: nat, key: (nat, nat))
    requires IsRun(states, events) && i < k < |events|
    requires SettledAt(states, i, key)
    ensures !SettledAt(states, k, key)
    ensures (events[k].ApplyItem? || events[k].ApplyStops?) ==> events[k].key != key
  {
    assert StepAt(states, events, i);
    assert StepAt(states, events, k);
    RunKeepsJobsOk(states, events, i);
    RunKeepsJobsOk(states, events, k);
    StepEvolves(states[i], events[i]);
    InactiveStays(states, events, i + 1, k, key);
  }

  /** Conservation of claims: a claim made by event `c` is, in any later state, either still active or ended by
      exactly one event since. */
  lemma ClaimsConserved(states: seq<Db>, events: seq<Event>, c: nat, i: nat, key: (nat, nat))
    requires IsRun(states, events) && c < i < |states|
    requires Starts(states[c], events[c], key)
    ensures IsActivePair(states[i], key) <==> forall m :: c < m < i ==> !SettledAt(states, m, key)
    ensures forall m, n :: c < m < i && c < n < i && SettledAt(states, m, key) && SettledAt(states, n, key) ==> m == n
  {
    ActiveUntilSettled(states, events, c, i, key);
    forall m, n | c < m < i && c < n < i && SettledAt(states, m, key) && SettledAt(states, n, key)
      ensures m == n
    {
      SettledOnlyOnce(states, events, m, n, key);
    }
  }

  lemma {:induction false} ActiveUntilSettled(states: seq<Db>, events: seq<Event>, c: nat, i: nat, key: (nat, nat))
    requires IsRun(states, events) && c < i < |states|
    requires Starts(states[c], events[c], key)
    ensures IsActivePair(states[i], key) <==> forall m :: c < m < i ==> !SettledAt(states, m, key)
    decreases i
  {
    PairStep(states, events, c, i - 1, key);
    if i > c + 1 {
      ActiveUntilSettled(states, events, c, i - 1, key);
      if IsActivePair(states[i], key) {
        assert !SettledAt(states, i - 1, key);
      } else if IsActivePair(states[i - 1], key) {
        assert SettledAt(states, i - 1, key);
      }
    }
  }

  /** After its claim no event but the claim itself makes a pair active. */
  lemma PairStep(states: seq<Db>, events: seq<Event>, c: nat, k: nat, key: (nat, nat))
    requires IsRun(states, events) && c <= k < |events| && Starts(states[c], events[c], key)
    ensures k == c ==> IsActivePair(states[k + 1], key)
    ensures k > c ==> (IsActivePair(states[k + 1], key) ==> IsActivePair(states[k], key))
  {
    RunKeepsJobsOk(states, events, k);
    assert StepAt(states, events, k);
    StepFence(states[k], events[k], key);
    if k > c {
      LeaseNotReissued(states, events, c, k);
    }
  }

  lemma SettledOnlyOnce(states: seq<Db>, events: seq<Event>, m: nat, n: nat, key: (nat, nat))
    requires IsRun(states, events) && m < |events| && n < |events|
    requires SettledAt(states, m, key) && SettledAt(states, n, key)
    ensures m == n
  {
    if m < n {
      SettledAtMostOnce(states, events, m, n, key);
    } else if n < m {
      SettledAtMostOnce(states, events, n, m, key);
    }
  }

  lemma {:induction false} LeaseNotReissued(states: seq<Db>, events: seq<Event>, c: nat, i: nat)
    requires IsRun(states, events) && c < i < |states| && events[c].Claim?
    ensures states[c].nextLease < states[i].nextLease
    decreases i
  {
    RunKeepsJobsOk(states, events, i - 1);
    assert StepAt(states, events, i - 1);
    StepEvolves(states[i - 1], events[i - 1]);
    if i > c + 1 {
      LeaseNotReissued(states, events, c, i - 1);
    }
  }

  /** Events that act in the name of one (lease, job) pair. */
  predicate ActsFor(e: Event, key: (nat, nat)) {
    || (e.Report? && e.lease == key.0)
    || (e.StageOne? && e.lease == key.0)
    || (e.AcceptStaged? && e.lease == key.0)
    || ((e.ApplyItem? || e.ApplyStops? || e.FailJob? || e.CompleteItem? || e.FailItem?) && e.key == key)
  }

  /** Once a claim has ended, late reports and items of its lease change neither the job, which others may have
      claimed again, nor (item handling) any origin. */
  lemma LateWorkChangesNothing(states: seq<Db>, events: seq<Event>, i: nat, k: nat, key: (nat, nat))
    requires IsRun(states, events) && i < k < |events|
    requires SettledAt(states, i, key) && ActsFor(events[k], key)
    ensures !(events[k].ApplyItem? || events[k].ApplyStops?)
    ensures key.1 in states[k].jobs <==> key.1 in states[k + 1].jobs
    ensures key.1 in states[k].jobs ==> states[k + 1].jobs[key.1] == states[k].jobs[key.1]
    ensures states[k + 1].origins == states[k].origins
  {
    SettledAtMostOnce(states, events, i, k, key);
    EndedStays(states, events, i, k, key);
    assert StepAt(states, events, k);
    LateWork(states[k], events[k], states[k + 1], key);
  }

  lemma EndedStays(states: seq<Db>, events: seq<Event>, i: nat, k: nat, key: (nat, nat))
    requires IsRun(states, events) && i < k < |states| && SettledAt(states, i, key)
    ensures !IsActivePair(states[k], key)
  {
    RunKeepsJobsOk(states, events, i);
    assert StepAt(states, events, i);
    StepEvolves(states[i], events[i]);
    InactiveStays(states, events, i + 1, k, key);
  }

  lemma LateWork(db: Db, e: Event, after: Db, key: (nat, nat))
    requires Next(db, e, after) && ActsFor(e, key) && !IsActivePair(db, key) && !e.ApplyItem? && !e.ApplyStops?
    ensures key.1 in db.jobs <==> key.1 in after.jobs
    ensures key.1 in db.jobs ==> after.jobs[key.1] == db.jobs[key.1]
    ensures after.origins == db.origins
  {
    if e.Report? {
      StageLoopEffect(db, e.owner, e.crawler, e.lease, e.results);
    }
  }
}
