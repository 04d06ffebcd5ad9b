/** Majorities of a fixed, finite set of node ids. */
module Quorums {

  type NodeId = nat

  /** Half of the cluster rounded down, plus one. */
  function Majority(size: nat): nat {
    size / 2 + 1
  }

  ghost predicate IsQuorum(ids: set<NodeId>, q: set<NodeId>) {
    q <= ids && Majority(|ids|) <= |q|
  }

  lemma SubsetSize(small: set<NodeId>, large: set<NodeId>)
    requires small <= large
    ensures |small| <= |large|
  {
    assert large == small + (large - small);
  }

  /** Two sets whose sizes exceed the whole together have a common member. */
  lemma Overlap(ids: set<NodeId>, a: set<NodeId>, b: set<NodeId>)
    requires a <= ids && b <= ids
    ensures |ids| < |a| + |b| ==> a * b != {}
  {
    SubsetSize(a + b, ids);
    assert |a + b| + |a * b| == |a| + |b|;
  }

  /** Any two majorities share a node, whatever the size of the cluster. */
  lemma QuorumsIntersect(ids: set<NodeId>, a: set<NodeId>, b: set<NodeId>) returns (common: NodeId)
    requires IsQuorum(ids, a) && IsQuorum(ids, b)
    ensures common in a && common in b
  {
    Overlap(ids, a, b);
    common :| common in a * b;
  }

  /** A list without repetition has as many elements as the set it enumerates. */
  lemma DistinctSize<T>(s: seq<T>, all: set<T>)
    requires forall p :: p in s <==> p in all
    requires forall i, j | 0 <= i < j < |s| :: s[i] != s[j]
    ensures |s| == |all|
  {
    if s == [] {
      assert all == {};
    } else {
      var rest := all - {s[0]};
      forall p ensures p in s[1..] <==> p in rest {
        if p in rest {
          var i :| 0 <= i < |s| && s[i] == p;
          assert s[1..][i - 1] == p;
        }
      }
      DistinctSize(s[1..], rest);
      assert all == rest + {s[0]};
    }
  }
}
