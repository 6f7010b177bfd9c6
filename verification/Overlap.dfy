/** Claims that overlap in time and rank the jobs each on its own: when the cap survives, and how it breaks. */
module Overlap {
  import opened Tables
  import opened Frontier
  import opened Counting

  /** No two eligible jobs of an origin agree in priority and age. */
  predicate Untied(db: Db, eligible: set<nat>)
    requires eligible <= db.jobs.Keys
  {
    forall a <- eligible, b <- eligible :: a != b && db.jobs[a].origin == db.jobs[b].origin
      ==> Sooner(db.jobs[a], db.jobs[b]) || Sooner(db.jobs[b], db.jobs[a])
  }

  lemma {:induction false} PickedByAll(calls: seq<ClaimCall>, candidates: set<nat>)
    requires forall c <- calls :: c.picked <= candidates
    ensures AllPicked(calls) <= candidates
    decreases |calls|
  {
    if calls != [] {
      PickedByAll(calls[1..], candidates);
    }
  }

  /** Claims on one snapshot with one eligible set keep the cap, each with its own ranking, if there are no ties:
      the `skip locked` disjointness is not even needed. */
  lemma UntiedClaimsKeepCap(db: Db, owner: string, eligible: set<nat>, calls: seq<ClaimCall>, ranks: seq<map<nat, nat>>)
    requires LayeredCap(db) && eligible <= db.jobs.Keys && Untied(db, eligible)
    requires forall id <- eligible :: db.jobs[id].owner == owner && !Active(db.jobs[id])
    requires |calls| == |ranks|
    requires forall i ::
        0 <= i < |calls| ==> IsRowNumber(db, eligible, ranks[i]) && calls[i].picked <= Candidates(db, ranks[i])
    ensures LayeredCap(ClaimAll(db, owner, calls))
  {
    if calls != [] {
      var rank := ranks[0];
      forall c <- calls
        ensures c.picked <= Candidates(db, rank)
      {
        var i :| 0 <= i < |calls| && calls[i] == c;
        RowNumberUnique(db, eligible, ranks[i], rank);
      }
      PickedByAll(calls, Candidates(db, rank));
      OverlappingClaimsKeepCap(db, owner, eligible, rank, calls);
    }
  }

  /** Two queued jobs of one origin with nothing active on it, each of which wants to be alone. */
  predicate Rivals(db: Db, owner: string, a: nat, b: nat) {
    && a != b && a in db.jobs && b in db.jobs
    && db.jobs[a].owner == owner && db.jobs[b].owner == owner && db.jobs[a].origin == db.jobs[b].origin
    && db.jobs[a].status.Queued? && db.jobs[b].status.Queued?
    && EffectiveLimit(db.jobs[a]) == 1 && EffectiveLimit(db.jobs[b]) == 1
    && ActiveOn(db, (owner, db.jobs[a].origin)) == {}
  }

  /** Both taken, the cap is broken. */
  lemma BothClaimedBreaksCap(db: Db, owner: string, a: nat, b: nat, calls: seq<ClaimCall>)
    requires Rivals(db, owner, a, b) && AllPicked(calls) == {a, b}
    ensures !LayeredCap(ClaimAll(db, owner, calls))
  {
    var row := (owner, db.jobs[a].origin);
    NarrowAfterClaims(db, owner, calls, row, 1);
    var narrow := Narrow(ClaimAll(db, owner, calls), row, 1);
    assert {a, b} <= narrow;
    assert |{a, b}| == 2;
    assert |narrow| == |narrow - {a, b}| + |{a, b}|;
  }

  /** Two claims may rank two rivals, the only eligible jobs, each in its own favour. */
  ghost predicate BothCanWin(db: Db, a: nat, b: nat)
    requires a in db.jobs && b in db.jobs
  {
    exists r1: map<nat, nat>, r2: map<nat, nat> ::
      IsRowNumber(db, {a, b}, r1) && IsRowNumber(db, {a, b}, r2) && a in Candidates(db, r1) && b in Candidates(db, r2)
  }

  lemma PairRank(db: Db, first: nat, second: nat)
    requires first != second && first in db.jobs && second in db.jobs && db.jobs[first].origin == db.jobs[second].origin
    requires !Sooner(db.jobs[second], db.jobs[first])
    ensures IsRowNumber(db, {first, second}, map[first := 1, second := 2])
  {
    var rank: map<nat, nat> := map[first := 1, second := 2];
    assert RankedBefore(db, rank, first) == {};
    assert RankedBefore(db, rank, second) == {first};
  }

  /** A rival that is sooner is ranked first by every claim. */
  lemma SoonerRivalWins(db: Db, a: nat, b: nat, rank: map<nat, nat>)
    requires a != b && a in db.jobs && b in db.jobs && db.jobs[a].origin == db.jobs[b].origin
    requires Sooner(db.jobs[a], db.jobs[b]) && IsRowNumber(db, {a, b}, rank)
    ensures rank[a] == 1 && rank[b] == 2
  {
    assert RankedBefore(db, rank, a) == {};
    assert RankedBefore(db, rank, b) == {a};
  }

  /** Two overlapping claims can break the cap on two rivals exactly when the rivals tie. */
  lemma RivalsBreakCapIffTied(db: Db, owner: string, a: nat, b: nat)
    requires Rivals(db, owner, a, b)
    ensures BothCanWin(db, a, b) <==> !Sooner(db.jobs[a], db.jobs[b]) && !Sooner(db.jobs[b], db.jobs[a])
  {
    if Sooner(db.jobs[a], db.jobs[b]) {
      forall r | IsRowNumber(db, {a, b}, r)
        ensures b !in Candidates(db, r)
      {
        SoonerRivalWins(db, a, b, r);
      }
    } else if Sooner(db.jobs[b], db.jobs[a]) {
      assert {a, b} == {b, a};
      forall r | IsRowNumber(db, {a, b}, r)
        ensures a !in Candidates(db, r)
      {
        SoonerRivalWins(db, b, a, r);
      }
    } else {
      var r1: map<nat, nat>, r2: map<nat, nat> := map[a := 1, b := 2], map[b := 1, a := 2];
      PairRank(db, a, b);
      PairRank(db, b, a);
      assert {a, b} == {b, a};
      assert a in Candidates(db, r1) && b in Candidates(db, r2);
    }
  }

  /** Claims with different JavaScript flags rank different sets, and break the cap without any tie: a crawler with a
      renderer takes the rival that needs one, and one without, which does not see that rival, takes the other. */
  lemma MixedFlagsBreakCap(db: Db, owner: string, now: Time, a: nat, b: nat, crawler1: string, crawler2: string)
    requires Rivals(db, owner, a, b) && Sooner(db.jobs[a], db.jobs[b])
    requires EligibleJobs(db, owner, now, true) == {a, b} && EligibleJobs(db, owner, now, false) == {b}
    ensures IsRowNumber(db, {a, b}, map[a := 1, b := 2]) && a in Candidates(db, map[a := 1, b := 2])
    ensures IsRowNumber(db, {b}, map[b := 1]) && b in Candidates(db, map[b := 1])
    ensures !LayeredCap(ClaimAll(db, owner,
        [ClaimCall(crawler1, true, now, {a}), ClaimCall(crawler2, false, now, {b})]))
  {
    PairRank(db, a, b);
    AloneRank(db, b);
    AllPickedPair(ClaimCall(crawler1, true, now, {a}), ClaimCall(crawler2, false, now, {b}));
    BothClaimedBreaksCap(db, owner, a, b, [ClaimCall(crawler1, true, now, {a}), ClaimCall(crawler2, false, now, {b})]);
  }

  lemma AloneRank(db: Db, b: nat)
    requires b in db.jobs && EffectiveLimit(db.jobs[b]) == 1 && ActiveOn(db, OriginRow(db.jobs[b])) == {}
    ensures IsRowNumber(db, {b}, map[b := 1]) && b in Candidates(db, map[b := 1])
  {
    assert RankedBefore(db, map[b := 1], b) == {};
  }

  lemma AllPickedPair(first: ClaimCall, second: ClaimCall)
    ensures AllPicked([first, second]) == first.picked + second.picked
  {
    assert [first, second][1..] == [second];
    assert AllPicked([second][1..]) == {};
    assert AllPicked([second]) == second.picked;
  }

  // ---- the exact condition ----------------------------------------------

  /** One of several claims on one snapshot: its own ranking, the rows it finds locked, and its limit. */
  datatype OverlapClaim = OverlapClaim(call: ClaimCall, rank: map<nat, nat>, locked: set<nat>, limit: nat)

  /** Claims in the order in which they lock rows. Each ranks the eligible jobs on its own and skips what those before
      it have taken, and whatever else is locked. */
  ghost predicate Overlapping(db: Db, eligible: set<nat>, claims: seq<OverlapClaim>, taken: set<nat>)
    requires eligible <= db.jobs.Keys && forall id <- eligible :: OriginRow(db.jobs[id]) in db.origins
    decreases |claims|
  {
    claims == [] ||
    (var c := claims[0];
     && IsRowNumber(db, eligible, c.rank) && taken <= c.locked
     && IsPick(db, eligible, c.rank, c.locked, c.limit, c.call.picked)
     && Overlapping(db, eligible, claims[1..], taken + c.call.picked))
  }

  function Calls(claims: seq<OverlapClaim>): seq<ClaimCall> {
    if claims == [] then [] else [claims[0].call] + Calls(claims[1..])
  }

  /** The eligible jobs of its origin that every ranking puts before a job. */
  function SoonerThan(db: Db, eligible: set<nat>, a: nat): set<nat>
    requires eligible <= db.jobs.Keys && a in eligible
  {
    set k | k in eligible && db.jobs[k].origin == db.jobs[a].origin && Sooner(db.jobs[k], db.jobs[a])
  }

  /** The best rank a job can get. */
  function BestRank(db: Db, eligible: set<nat>, a: nat): nat
    requires eligible <= db.jobs.Keys && a in eligible
  {
    1 + |SoonerThan(db, eligible, a)|
  }

  /** The jobs that are candidates of some ranking. */
  function MayTake(db: Db, eligible: set<nat>): set<nat>
    requires eligible <= db.jobs.Keys
  {
    set a | a in eligible && |ActiveOn(db, OriginRow(db.jobs[a]))| + BestRank(db, eligible, a)
        <= EffectiveLimit(db.jobs[a])
  }

  /** The active jobs and all that may be taken fit under the cap together. */
  ghost predicate Roomy(db: Db, eligible: set<nat>)
    requires eligible <= db.jobs.Keys
  {
    forall row, c: int :: c >= 1 ==> |Narrow(db, row, c) + NarrowTaken(db, MayTake(db, eligible), row, c)| <= c
  }

  lemma CandidatesMayBeTaken(db: Db, eligible: set<nat>, rank: map<nat, nat>)
    requires IsRowNumber(db, eligible, rank)
    ensures Candidates(db, rank) <= MayTake(db, eligible)
  {
    forall a | a in Candidates(db, rank)
      ensures a in MayTake(db, eligible)
    {
      assert SoonerThan(db, eligible, a) <= RankedBefore(db, rank, a);
      SubsetCard(SoonerThan(db, eligible, a), RankedBefore(db, rank, a));
    }
  }

  lemma {:induction false} OverlapTakes(db: Db, eligible: set<nat>, claims: seq<OverlapClaim>, taken: set<nat>)
    requires eligible <= db.jobs.Keys && forall id <- eligible :: OriginRow(db.jobs[id]) in db.origins
    requires Overlapping(db, eligible, claims, taken)
    ensures AllPicked(Calls(claims)) <= MayTake(db, eligible)
    decreases |claims|
  {
    if claims != [] {
      CandidatesMayBeTaken(db, eligible, claims[0].rank);
      OverlapTakes(db, eligible, claims[1..], taken + claims[0].call.picked);
      assert Calls(claims)[1..] == Calls(claims[1..]);
    }
  }

  /** If everything that may be taken fits, so does what overlapping claims take. */
  lemma RoomyKeepsCap(db: Db, owner: string, eligible: set<nat>, claims: seq<OverlapClaim>)
    requires eligible <= db.jobs.Keys && forall id <- eligible :: OriginRow(db.jobs[id]) in db.origins
    requires Overlapping(db, eligible, claims, {}) && Roomy(db, eligible)
    ensures LayeredCap(ClaimAll(db, owner, Calls(claims)))
  {
    OverlapTakes(db, eligible, claims, {});
    forall row, c: int | c >= 1
      ensures |Narrow(ClaimAll(db, owner, Calls(claims)), row, c)| <= c
    {
      NarrowAfterClaims(db, owner, Calls(claims), row, c);
      var all := Narrow(db, row, c) + NarrowTaken(db, MayTake(db, eligible), row, c);
      SubsetCard(Narrow(ClaimAll(db, owner, Calls(claims)), row, c), all);
    }
  }

  // ---- a ranking in favour of one job -----------------------------------

  /** The order that breaks ties in favour of a, and otherwise by id. */
  predicate Precedes(db: Db, a: nat, x: nat, y: nat)
    requires x in db.jobs && y in db.jobs
  {
    || Sooner(db.jobs[x], db.jobs[y])
    || (!Sooner(db.jobs[y], db.jobs[x]) && ((x == a && y != a) || (x != a && y != a && x < y)))
  }

  function Preceding(db: Db, eligible: set<nat>, a: nat, x: nat): set<nat>
    requires eligible <= db.jobs.Keys && x in eligible
  {
    set y | y in eligible && db.jobs[y].origin == db.jobs[x].origin && Precedes(db, a, y, x)
  }

  function Favouring(db: Db, eligible: set<nat>, a: nat): map<nat, nat>
    requires eligible <= db.jobs.Keys
  {
    map x | x in eligible :: 1 + |Preceding(db, eligible, a, x)|
  }

  lemma PrecedingGrows(db: Db, eligible: set<nat>, a: nat, x: nat, y: nat)
    requires eligible <= db.jobs.Keys && x in eligible && y in eligible && x != y
        && db.jobs[x].origin == db.jobs[y].origin
    requires Precedes(db, a, x, y)
    ensures |Preceding(db, eligible, a, x)| < |Preceding(db, eligible, a, y)|
  {
    var before := Preceding(db, eligible, a, x);
    assert x !in before && before + {x} <= Preceding(db, eligible, a, y);
    SubsetCard(before + {x}, Preceding(db, eligible, a, y));
  }

  lemma FavouringOrders(db: Db, eligible: set<nat>, a: nat, x: nat, y: nat)
    requires eligible <= db.jobs.Keys && x in eligible && y in eligible && x != y
        && db.jobs[x].origin == db.jobs[y].origin
    ensures Favouring(db, eligible, a)[x] != Favouring(db, eligible, a)[y]
    ensures Favouring(db, eligible, a)[x] < Favouring(db, eligible, a)[y] <==> Precedes(db, a, x, y)
  {
    if Precedes(db, a, x, y) {
      PrecedingGrows(db, eligible, a, x, y);
    } else {
      PrecedingGrows(db, eligible, a, y, x);
    }
  }

  lemma RankedIsPreceding(db: Db, eligible: set<nat>, a: nat, x: nat)
    requires eligible <= db.jobs.Keys && x in eligible
    ensures RankedBefore(db, Favouring(db, eligible, a), x) == Preceding(db, eligible, a, x)
  {
    forall y | y in eligible && db.jobs[y].origin == db.jobs[x].origin
      ensures Favouring(db, eligible, a)[y] < Favouring(db, eligible, a)[x] <==> Precedes(db, a, y, x)
    {
      if y != x {
        FavouringOrders(db, eligible, a, y, x);
      }
    }
  }

  /** It is a row number, and gives a its best rank. */
  lemma FavouringIsRowNumber(db: Db, eligible: set<nat>, a: nat)
    requires eligible <= db.jobs.Keys && a in eligible
    ensures IsRowNumber(db, eligible, Favouring(db, eligible, a))
    ensures Favouring(db, eligible, a)[a] == BestRank(db, eligible, a)
  {
    FavouringIsRanking(db, eligible, a, Favouring(db, eligible, a));
    assert Preceding(db, eligible, a, a) == SoonerThan(db, eligible, a);
  }

  lemma FavouringIsRanking(db: Db, eligible: set<nat>, a: nat, rank: map<nat, nat>)
    requires eligible <= db.jobs.Keys && rank == Favouring(db, eligible, a)
    ensures IsRowNumber(db, eligible, rank)
  {
    forall x <- rank, y <- rank | x != y && db.jobs[x].origin == db.jobs[y].origin
      ensures rank[x] != rank[y]
    {
      FavouringOrders(db, eligible, a, x, y);
    }
    forall x <- rank, y <- rank | db.jobs[x].origin == db.jobs[y].origin && Sooner(db.jobs[x], db.jobs[y])
      ensures rank[x] < rank[y]
    {
      FavouringOrders(db, eligible, a, x, y);
    }
    forall x <- rank
      ensures rank[x] == 1 + |RankedBefore(db, rank, x)|
    {
      RankedIsPreceding(db, eligible, a, x);
    }
  }

  ghost function AnyOf<T>(s: set<T>): (x: T)
    requires s != {}
    ensures x in s
  {
    var x :| x in s;
    x
  }

  /** Claims that each rank in favour of another job, with a limit as large as the eligible set. */
  ghost function Greedy(db: Db, eligible: set<nat>, todo: set<nat>, taken: set<nat>): seq<OverlapClaim>
    requires eligible <= db.jobs.Keys && todo <= eligible
    decreases todo
  {
    if todo == {} then []
    else
      var a := AnyOf(todo);
      var rank := Favouring(db, eligible, a);
      var picked := Candidates(db, rank) - taken;
      [OverlapClaim(ClaimCall("", false, 0, picked), rank, taken, |eligible|)]
          + Greedy(db, eligible, todo - {a}, taken + picked)
  }

  lemma FreePick(db: Db, eligible: set<nat>, rank: map<nat, nat>, taken: set<nat>)
    requires eligible <= db.jobs.Keys && forall id <- eligible :: OriginRow(db.jobs[id]) in db.origins
    requires IsRowNumber(db, eligible, rank)
    ensures IsPick(db, eligible, rank, taken, |eligible|, Candidates(db, rank) - taken)
  {
    SubsetCard(Candidates(db, rank) - taken, eligible);
  }

  lemma GreedyUnfolds(db: Db, eligible: set<nat>, todo: set<nat>, taken: set<nat>)
    requires eligible <= db.jobs.Keys && todo <= eligible && todo != {}
    ensures var a := AnyOf(todo);
      var rank := Favouring(db, eligible, a);
      var picked := Candidates(db, rank) - taken;
      var rest := Greedy(db, eligible, todo - {a}, taken + picked);
      Greedy(db, eligible, todo, taken) == [OverlapClaim(ClaimCall("", false, 0, picked), rank, taken, |eligible|)]
          + rest
  {
  }

  lemma {:induction false} GreedyOverlaps(db: Db, eligible: set<nat>, todo: set<nat>, taken: set<nat>)
    requires eligible <= db.jobs.Keys && forall id <- eligible :: OriginRow(db.jobs[id]) in db.origins
    requires todo <= MayTake(db, eligible)
    ensures Overlapping(db, eligible, Greedy(db, eligible, todo, taken), taken)
    decreases todo
  {
    if todo != {} {
      var a := AnyOf(todo);
      var picked := Candidates(db, Favouring(db, eligible, a)) - taken;
      GreedyUnfolds(db, eligible, todo, taken);
      GreedyFirst(db, eligible, a, taken);
      GreedyOverlaps(db, eligible, todo - {a}, taken + picked);
      assert Greedy(db, eligible, todo, taken)[1..] == Greedy(db, eligible, todo - {a}, taken + picked);
    }
  }

  lemma {:induction false} GreedyTakes(db: Db, eligible: set<nat>, todo: set<nat>, taken: set<nat>, x: nat)
    requires eligible <= db.jobs.Keys && forall id <- eligible :: OriginRow(db.jobs[id]) in db.origins
    requires todo <= MayTake(db, eligible) && x in todo
    ensures x in AllPicked(Calls(Greedy(db, eligible, todo, taken))) || x in taken
    decreases todo
  {
    var a, claims := AnyOf(todo), Greedy(db, eligible, todo, taken);
    var picked := Candidates(db, Favouring(db, eligible, a)) - taken;
    GreedyUnfolds(db, eligible, todo, taken);
    assert claims[1..] == Greedy(db, eligible, todo - {a}, taken + picked) && claims[0].call.picked == picked;
    CallsFirst(claims);
    if x == a {
      GreedyFirst(db, eligible, a, taken);
    } else {
      GreedyTakes(db, eligible, todo - {a}, taken + picked, x);
    }
  }

  lemma GreedyFirst(db: Db, eligible: set<nat>, a: nat, taken: set<nat>)
    requires eligible <= db.jobs.Keys && forall id <- eligible :: OriginRow(db.jobs[id]) in db.origins
    requires a in MayTake(db, eligible)
    ensures var rank := Favouring(db, eligible, a);
      IsRowNumber(db, eligible, rank) && a in Candidates(db, rank)
      && IsPick(db, eligible, rank, taken, |eligible|, Candidates(db, rank) - taken)
  {
    FavouringIsRowNumber(db, eligible, a);
    FreePick(db, eligible, Favouring(db, eligible, a), taken);
  }

  lemma CallsFirst(claims: seq<OverlapClaim>)
    requires claims != []
    ensures AllPicked(Calls(claims)) == claims[0].call.picked + AllPicked(Calls(claims[1..]))
  {
    assert Calls(claims)[1..] == Calls(claims[1..]);
  }

  /** If greedy claims keep the cap, there is room for all. */
  lemma GreedyNeedsRoom(db: Db, owner: string, eligible: set<nat>, greedy: seq<OverlapClaim>)
    requires eligible <= db.jobs.Keys
    requires AllPicked(Calls(greedy)) == MayTake(db, eligible) && LayeredCap(ClaimAll(db, owner, Calls(greedy)))
    ensures Roomy(db, eligible)
  {
    forall row, c: int | c >= 1
      ensures |Narrow(db, row, c) + NarrowTaken(db, MayTake(db, eligible), row, c)| <= c
    {
      NarrowAfterClaims(db, owner, Calls(greedy), row, c);
    }
  }

  lemma GreedyTakesExactly(db: Db, eligible: set<nat>)
    requires eligible <= db.jobs.Keys && forall id <- eligible :: OriginRow(db.jobs[id]) in db.origins
    ensures AllPicked(Calls(Greedy(db, eligible, MayTake(db, eligible), {}))) == MayTake(db, eligible)
  {
    var all := MayTake(db, eligible);
    GreedyOverlaps(db, eligible, all, {});
    forall x | x in all
      ensures x in AllPicked(Calls(Greedy(db, eligible, all, {})))
    {
      GreedyTakes(db, eligible, all, {}, x);
    }
    OverlapTakes(db, eligible, Greedy(db, eligible, all, {}), {});
  }

  /** Claims on one snapshot, each with a ranking of its own, always keep the layered cap. */
  ghost predicate AlwaysKeepsCap(db: Db, owner: string, eligible: set<nat>)
    requires eligible <= db.jobs.Keys && forall id <- eligible :: OriginRow(db.jobs[id]) in db.origins
  {
    forall claims :: Overlapping(db, eligible, claims, {}) ==> LayeredCap(ClaimAll(db, owner, Calls(claims)))
  }

  /** They do if and only if all jobs that some ranking makes candidates fit under it together with the active ones. */
  lemma OverlapKeepsCapIff(db: Db, owner: string, eligible: set<nat>)
    requires eligible <= db.jobs.Keys && forall id <- eligible :: OriginRow(db.jobs[id]) in db.origins
    ensures AlwaysKeepsCap(db, owner, eligible) <==> Roomy(db, eligible)
  {
    if Roomy(db, eligible) {
      forall claims | Overlapping(db, eligible, claims, {})
        ensures LayeredCap(ClaimAll(db, owner, Calls(claims)))
      {
        RoomyKeepsCap(db, owner, eligible, claims);
      }
    }
    if AlwaysKeepsCap(db, owner, eligible) {
      KeptNeedsRoom(db, owner, eligible);
    }
  }

  lemma KeptNeedsRoom(db: Db, owner: string, eligible: set<nat>)
    requires eligible <= db.jobs.Keys && forall id <- eligible :: OriginRow(db.jobs[id]) in db.origins
    requires AlwaysKeepsCap(db, owner, eligible)
    ensures Roomy(db, eligible)
  {
    var greedy := Greedy(db, eligible, MayTake(db, eligible), {});
    GreedyOverlaps(db, eligible, MayTake(db, eligible), {});
    GreedyTakesExactly(db, eligible);
    GreedyNeedsRoom(db, owner, eligible, greedy);
  }
}
