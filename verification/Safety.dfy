/** All the whole-table invariants together, and the histories that lead to a state of the tables. */
module Safety {
  import opened Tables
  import opened Frontier
  import opened Enqueue
  import opened Protocol
  import opened JobInvariants
  import opened Fencing
  import opened Capacity
  import opened Orphans
  import opened Budgets

  ghost predicate Safe(db: Db) {
    && JobsOk(db) && LayeredCap(db) && ItemsExist(db)
    && BudgetsOk(db) && PlacesOk(db) && UniqueUrls(db)
  }

  /** In every reachable state all the invariants hold together. */
  lemma RunKeepsSafe(states: seq<Db>, events: seq<Event>, i: nat)
    requires IsRun(states, events) && i < |states|
    ensures Safe(states[i])
  {
    RunKeepsJobsOk(states, events, i);
    RunKeepsCap(states, events, i);
    RunKeepsItemsExist(states, events, i);
    RunKeepsBudgets(states, events, i);
    RunKeepsPlaces(states, events, i);
    RunKeepsUniqueUrls(states, events, i);
  }

  /** The events lead from empty tables to these tables. */
  ghost predicate Reaches(history: seq<Event>, db: Db) {
    exists states :: IsRun(states, history) && states[|history|] == db
  }

  lemma EmptyReached()
    ensures Reaches([], EMPTY_DB)
  {
    assert IsRun([EMPTY_DB], []);
  }

  /** One more event that can happen leads one step further. */
  lemma ReachesOneMore(history: seq<Event>, db: Db, e: Event)
    requires Reaches(history, db) && Enabled(db, e)
    ensures Reaches(history + [e], After(db, e))
  {
    var states :| IsRun(states, history) && states[|history|] == db;
    RunOneMore(states, history, e);
  }

  lemma RunOneMore(states: seq<Db>, history: seq<Event>, e: Event)
    requires IsRun(states, history) && Enabled(states[|history|], e)
    ensures IsRun(states + [After(states[|history|], e)], history + [e])
  {
    var more, events := states + [After(states[|history|], e)], history + [e];
    forall i: nat | i < |events|
      ensures StepAt(more, events, i)
    {
      if i < |history| {
        assert StepAt(states, history, i);
      }
    }
  }

  /** So every table value that a history reaches has all the invariants. */
  lemma ReachedIsSafe(history: seq<Event>, db: Db)
    requires Reaches(history, db)
    ensures Safe(db)
  {
    var states :| IsRun(states, history) && states[|history|] == db;
    RunKeepsSafe(states, history, |history|);
  }

  /** No (lease, job) pair is applied twice in a history. */
  lemma HistoryAppliesOnce(history: seq<Event>, db: Db, i: nat, k: nat)
    requires Reaches(history, db) && i < k < |history|
    requires history[i].ApplyItem? || history[i].ApplyStops?
    requires history[k].ApplyItem? || history[k].ApplyStops?
    ensures history[i].key != history[k].key
  {
    var states :| IsRun(states, history) && states[|history|] == db;
    if history[i].key == history[k].key {
      AppliedIsSettled(states, history, i);
      SettledAtMostOnce(states, history, i, k, history[i].key);
    }
  }

  lemma AppliedIsSettled(states: seq<Db>, events: seq<Event>, i: nat)
    requires IsRun(states, events) && i < |events| && (events[i].ApplyItem? || events[i].ApplyStops?)
    ensures SettledAt(states, i, events[i].key)
  {
    RunKeepsJobsOk(states, events, i);
    assert StepAt(states, events, i);
    ApplySettles(states[i], events[i]);
  }
}
