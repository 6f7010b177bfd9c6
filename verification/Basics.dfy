/** Small shared helpers: optional values, finite-set counting and sums over the row ids of a table. */
module Wrappers {
  datatype Option<+T> = None | Some(value: T)

  function Max(a: int, b: int): (m: int)
    ensures m >= a && m >= b && (m == a || m == b)
  {
    if a < b then b else a
  }

  function Min(a: int, b: int): (m: int)
    ensures m <= a && m <= b && (m == a || m == b)
  {
    if a < b then a else b
  }
}

module Counting {

  /** A subset is no larger. */
  lemma {:induction false} SubsetCard<T>(a: set<T>, b: set<T>)
    requires a <= b
    ensures |a| <= |b|
    decreases a
  {
    if a != {} {
      var x :| x in a;
      SubsetCard(a - {x}, b - {x});
    }
  }

  /** A set of ids whose ranks are pairwise different and lie in 1..m has at most m elements. */
  lemma {:induction false} RankedCard(s: set<nat>, rank: map<nat, nat>, m: nat)
    requires s <= rank.Keys
    requires forall a <- s, b <- s :: a != b ==> rank[a] != rank[b]
    requires forall a <- s :: 1 <= rank[a] <= m
    ensures |s| <= m
    decreases m
  {
    if s != {} {
      if top :| top in s && rank[top] == m {
        RankedCard(s - {top}, rank, m - 1);
        assert |s| == |s - {top}| + 1;
      } else {
        var a :| a in s;
        RankedCard(s, rank, m - 1);
      }
    }
  }

  /** Sum of a weight over the ids below n that are present. */
  function Sum(weight: map<nat, int>, n: nat): int {
    if n == 0 then 0
    else Sum(weight, n - 1) + (if n - 1 in weight then weight[n - 1] else 0)
  }
}
