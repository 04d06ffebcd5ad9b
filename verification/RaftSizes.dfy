/** For which clusters Raft's main promise holds on every run, with no assumption on deliveries. */
module RaftSizes {
  import opened Quorums
  import opened LockCommands
  import opened RaftCluster
  import opened RaftTheorems
  import opened RaftPairs
  import opened RaftUncoveredCommit

  /** On every run from c, whatever two nodes have applied, at whatever two moments, is comparable. */
  ghost predicate AlwaysSafe(c: Cluster) {
    forall earlier, later, a, b |
      && Runs(c, earlier) && Runs(After(c, earlier), later)
      && a in After(c, earlier).nodes && b in After(After(c, earlier), later).nodes ::
        Comparable(After(c, earlier).nodes[a].applied, After(After(c, earlier), later).nodes[b].applied)
  }

  lemma {:induction false} SameNodes(c: Cluster, actions: seq<Action>)
    requires Runs(c, actions)
    ensures After(c, actions).nodes.Keys == c.nodes.Keys
    decreases |actions|
  {
    hide React;
    if actions != [] {
      SameNodes(Perform(c, actions[0]), actions[1..]);
    }
  }

  lemma OnlyTwo(s: set<NodeId>, a: NodeId, b: NodeId)
    requires a in s && b in s && a != b && |s| <= 2
    ensures s == {a, b}
  {
    var rest := s - {a, b};
    assert s == rest + {a, b};
    assert |{a, b}| == 2;
  }

  /** With at most two nodes nothing more is needed. */
  lemma TwoAreSafe(c: Cluster, earlier: seq<Action>, later: seq<Action>, a: NodeId, b: NodeId)
    requires Initial(c) && |c.nodes| <= 2 && Runs(c, earlier) && Runs(After(c, earlier), later)
    requires a in After(c, earlier).nodes && b in After(After(c, earlier), later).nodes
    ensures Comparable(After(c, earlier).nodes[a].applied, After(After(c, earlier), later).nodes[b].applied)
  {
    hide Initial, Runs, After, PairInv;
    var c1 := After(c, earlier);
    var c2 := After(c1, later);
    SameNodes(c, earlier);
    SameNodes(c1, later);
    RunApplies(c1, later, a);
    if a != b {
      OnlyTwo(c.nodes.Keys, a, b);
      InitialPair(c, a, b);
      var shared := PairRun(c, a, b, 0, earlier);
      shared := PairRun(c1, a, b, shared, later);
      SharedIsComparable(c2, a, b, shared);
    }
  }

  lemma NoAction(c: Cluster)
    ensures Runs(c, []) && After(c, []) == c
  {
  }

  /**
   * State Machine Safety without any assumption on deliveries: it holds on every run of a
   * cluster if and only if the cluster has at most two nodes.
   */
  lemma SafetySizes(c: Cluster)
    requires Initial(c)
    ensures AlwaysSafe(c) <==> |c.nodes| <= 2
  {
    hide Initial, Runs, After, Comparable;
    if |c.nodes| <= 2 {
      forall earlier, later, a, b |
        && Runs(c, earlier) && Runs(After(c, earlier), later)
        && a in After(c, earlier).nodes && b in After(After(c, earlier), later).nodes
        ensures Comparable(After(c, earlier).nodes[a].applied, After(After(c, earlier), later).nodes[b].applied)
      {
        TwoAreSafe(c, earlier, later, a, b);
      }
    } else {
      var a :| a in c.nodes;
      var b := AnotherNode(c.nodes.Keys, a);
      var actions := UncoveredCommitIsUnsafe(c, a, b, Unknown, Unknown, Release(0, 0));
      NoAction(After(c, actions));
      var d := After(c, actions);
      assert !Comparable(d.nodes[a].applied, After(d, []).nodes[b].applied);
    }
  }

  lemma AnotherNode(s: set<NodeId>, a: NodeId) returns (b: NodeId)
    requires |s| > 2
    ensures b in s && b != a
  {
    assert |s - {a}| >= |s| - 1;
    b :| b in s - {a};
  }
}
