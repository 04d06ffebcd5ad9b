/** What Raft promises, over every run of every cluster. */
module RaftTheorems {
  import opened Quorums
  import opened RaftTypes
  import opened RaftHistory
  import opened RaftInvariant
  import opened RaftCluster
  import opened RaftCommit
  import opened RaftSafety

  /** Careful deliveries all along: a leader counts no success of an earlier term, and no follower commits past what it matched. */
  ghost predicate CarefulRun(c: Cluster, actions: seq<Action>)
    decreases |actions|
  {
    actions == [] || (Enabled(c, actions[0]) && Careful(c, actions[0]) && CarefulRun(Perform(c, actions[0]), actions[1..]))
  }

  /** A history only gains: leaders stay, their logs grow at the end, commits stay. */
  ghost predicate Gains(h: History, h': History) {
    && (forall t | t in h.leaders ::
          t in h'.leaders && h'.leaders[t].id == h.leaders[t].id && Grows(LeaderLog(h, t), LeaderLog(h', t), t))
    && h.commits <= h'.commits
  }

  lemma GainsTransitive(h0: History, h1: History, h2: History)
    requires Gains(h0, h1) && Gains(h1, h2)
    ensures Gains(h0, h2)
  {
    forall t | t in h0.leaders ensures Grows(LeaderLog(h0, t), LeaderLog(h2, t), t) {
      GrowsTransitive(LeaderLog(h0, t), LeaderLog(h1, t), LeaderLog(h2, t), t);
    }
  }

  lemma {:induction false} RunKeeps(c: Cluster, actions: seq<Action>)
    requires Inv(c) && Runs(c, actions)
    ensures Inv(After(c, actions)) && Gains(c.history, After(c, actions).history)
    decreases |actions|
  {
    hide Inv, Perform;
    if actions != [] {
      var c1 := Perform(c, actions[0]);
      PerformInv(c, actions[0]);
      RunKeeps(c1, actions[1..]);
      GainsTransitive(c.history, c1.history, After(c, actions).history);
    }
  }

  /** A node's callback has seen what it has seen: no step takes an applied command back. */
  lemma AppliedGrows(c: Cluster, a: Action, v: NodeId)
    requires Enabled(c, a) && v in c.nodes
    ensures v in Perform(c, a).nodes && c.nodes[v].applied <= Perform(c, a).nodes[v].applied
  {
    hide Record;
  }

  lemma {:induction false} RunApplies(c: Cluster, actions: seq<Action>, v: NodeId)
    requires Runs(c, actions) && v in c.nodes
    ensures v in After(c, actions).nodes && c.nodes[v].applied <= After(c, actions).nodes[v].applied
    decreases |actions|
  {
    hide Perform;
    if actions != [] {
      AppliedGrows(c, actions[0], v);
      RunApplies(Perform(c, actions[0]), actions[1..], v);
    }
  }

  lemma {:induction false} CarefulKeeps(c: Cluster, actions: seq<Action>)
    requires Inv(c) && CommitInv(c) && CarefulRun(c, actions)
    ensures Runs(c, actions) && Inv(After(c, actions)) && CommitInv(After(c, actions))
    decreases |actions|
  {
    hide Inv, CommitInv, Perform, Careful;
    if actions != [] {
      CommitStep(c, actions[0]);
      CarefulKeeps(Perform(c, actions[0]), actions[1..]);
    }
  }

  // ---------- Election Safety ----------

  /** Two leaders of one term, at whatever two moments of a run, are one node. */
  lemma ElectionSafety(c: Cluster, earlier: seq<Action>, later: seq<Action>, a: NodeId, b: NodeId)
    requires Initial(c) && Runs(c, earlier) && Runs(After(c, earlier), later)
    requires a in After(c, earlier).nodes && After(c, earlier).nodes[a].role == Leader
    requires b in After(After(c, earlier), later).nodes && After(After(c, earlier), later).nodes[b].role == Leader
    requires After(c, earlier).nodes[a].currentTerm == After(After(c, earlier), later).nodes[b].currentTerm
    ensures a == b
  {
    hide HistoryInv, VoteInv, LogInv, PeersOk;
    var c1 := After(c, earlier);
    var c2 := After(c1, later);
    InitialInv(c);
    RunKeeps(c, earlier);
    RunKeeps(c1, later);
    assert NodeInv(c1.history, c1.nodes[a]) && NodeInv(c2.history, c2.nodes[b]);
  }

  // ---------- Leader Append-Only ----------

  /** As long as a node leads a term its log grows only at the end, by entries of that term. */
  lemma LeaderAppendOnly(c: Cluster, earlier: seq<Action>, later: seq<Action>, a: NodeId)
    requires Initial(c) && Runs(c, earlier) && Runs(After(c, earlier), later)
    requires a in After(c, earlier).nodes && After(c, earlier).nodes[a].role == Leader
    requires a in After(After(c, earlier), later).nodes && After(After(c, earlier), later).nodes[a].role == Leader
    requires After(c, earlier).nodes[a].currentTerm == After(After(c, earlier), later).nodes[a].currentTerm
    ensures Grows(After(c, earlier).nodes[a].log, After(After(c, earlier), later).nodes[a].log,
                  After(c, earlier).nodes[a].currentTerm)
  {
    hide HistoryInv, VoteInv, LogInv, PeersOk;
    var c1 := After(c, earlier);
    var c2 := After(c1, later);
    InitialInv(c);
    RunKeeps(c, earlier);
    RunKeeps(c1, later);
    assert NodeInv(c1.history, c1.nodes[a]) && NodeInv(c2.history, c2.nodes[a]);
  }

  // ---------- Log Matching ----------

  /** Equal terms at an index mean equal logs up to it, commands included; entries carry their position. */
  lemma LogMatchingHolds(c: Cluster, actions: seq<Action>, a: NodeId, b: NodeId, i: nat)
    requires Initial(c) && Runs(c, actions)
    requires a in After(c, actions).nodes && b in After(c, actions).nodes
    requires i < |After(c, actions).nodes[a].log|
    ensures After(c, actions).nodes[a].log[i].index == i
    ensures i < |After(c, actions).nodes[b].log| && After(c, actions).nodes[a].log[i].term == After(c, actions).nodes[b].log[i].term ==>
      After(c, actions).nodes[a].log[..i + 1] == After(c, actions).nodes[b].log[..i + 1]
  {
    hide HistoryInv, VoteInv, RoleInv, PeersOk, Retains;
    var c1 := After(c, actions);
    InitialInv(c);
    RunKeeps(c, actions);
    assert NodeInv(c1.history, c1.nodes[a]) && NodeInv(c1.history, c1.nodes[b]);
    if i < |c1.nodes[b].log| && c1.nodes[a].log[i].term == c1.nodes[b].log[i].term {
      LogMatching(c1.history, c1.nodes[a].log, c1.nodes[b].log, i);
    }
  }

  // ---------- Leader Completeness ----------

  lemma InvOf(c: Cluster, v: NodeId)
    requires Inv(c) && v in c.nodes
    ensures HistoryInv(c.history) && NodeInv(c.history, c.nodes[v])
  {
    hide HistoryInv, NodeInv, MessageInv;
  }

  lemma CommitInvOf(c: Cluster, v: NodeId)
    requires CommitInv(c) && v in c.nodes
    ensures AllChosen(c.history) && CommitNode(c.history, c.nodes[v])
    ensures CommitKnown(c.history, c.nodes[v].log, c.nodes[v].commitIndex, c.nodes[v].currentTerm) && c.nodes[v].commitIndex < |c.nodes[v].log|
  {
    hide Chosen, CommitKnown, MatchesAcked, CommitMessage;
  }

  lemma LeadersOwnLog(h: History, n: NodeState)
    requires NodeInv(h, n) && n.role == Leader
    ensures n.currentTerm in h.leaders && LeaderLog(h, n.currentTerm) == n.log
  {
    hide VoteInv, LogInv, PeersOk;
  }

  /** Without any assumption: what a majority acknowledged in its own term is in every later leader's log. */
  lemma LeadersHaveChosen(c: Cluster, actions: seq<Action>, e: EntryId, b: NodeId)
    requires Initial(c) && Runs(c, actions) && Chosen(After(c, actions).history, e)
    requires b in After(c, actions).nodes && After(c, actions).nodes[b].role == Leader
    requires e.term <= After(c, actions).nodes[b].currentTerm
    ensures Agree(After(c, actions).nodes[b].log, LeaderLog(After(c, actions).history, e.term), e.index + 1)
  {
    hide HistoryInv, VoteInv, LogInv, PeersOk, Chosen;
    var c1 := After(c, actions);
    InitialInv(c);
    RunKeeps(c, actions);
    assert NodeInv(c1.history, c1.nodes[b]);
    ChosenInLaterLogs(c1.history, e, c1.nodes[b].currentTerm);
  }

  lemma CommitKnownGains(h: History, h': History, log: Log, upTo: Index, t: nat)
    requires Gains(h, h') && CommitKnown(h, log, upTo, t)
    ensures CommitKnown(h', log, upTo, t)
  {
  }

  /** The committed part of any node's log is in the log of every leader of its term or a later one, then or later. */
  lemma LeaderCompleteness(c: Cluster, earlier: seq<Action>, later: seq<Action>, a: NodeId, b: NodeId)
    requires Initial(c) && CarefulRun(c, earlier) && Runs(c, earlier)
    requires CarefulRun(After(c, earlier), later) && Runs(After(c, earlier), later)
    requires a in After(c, earlier).nodes && b in After(After(c, earlier), later).nodes
    requires After(After(c, earlier), later).nodes[b].role == Leader
    requires After(c, earlier).nodes[a].currentTerm <= After(After(c, earlier), later).nodes[b].currentTerm
    ensures Agree(After(c, earlier).nodes[a].log, After(After(c, earlier), later).nodes[b].log,
                  After(c, earlier).nodes[a].commitIndex + 1)
  {
    hide Initial, Runs, After, CarefulRun, Inv, CommitInv, NodeInv, HistoryInv, CommitNode, CommitKnown, Chosen, Agree;
    var c1 := After(c, earlier);
    var c2 := After(c1, later);
    InitialInv(c);
    InitialCommitInv(c);
    CarefulKeeps(c, earlier);
    CarefulKeeps(c1, later);
    RunKeeps(c1, later);
    InvOf(c2, b);
    CommitInvOf(c2, b);
    CommitInvOf(c1, a);
    LeadersOwnLog(c2.history, c2.nodes[b]);
    CommitKnownGains(c1.history, c2.history, c1.nodes[a].log, c1.nodes[a].commitIndex, c1.nodes[a].currentTerm);
    CommitKnownByLeaders(c2.history, c1.nodes[a].log, c1.nodes[a].commitIndex, c1.nodes[a].currentTerm, c2.nodes[b].currentTerm);
  }

  // ---------- State Machine Safety ----------

  predicate Comparable<T(==)>(a: seq<T>, b: seq<T>) {
    a <= b || b <= a
  }

  lemma CommittedLogsComparable(h: History, a: NodeState, b: NodeState)
    requires HistoryInv(h) && AllChosen(h) && CommitNode(h, a) && CommitNode(h, b)
    ensures Comparable(a.applied, b.applied)
  {
    hide HistoryInv, Chosen;
    if a.commitIndex > -1 && b.commitIndex > -1 {
      var e :| e in h.commits && e.term <= a.currentTerm && a.commitIndex <= e.index
               && Agree(a.log, LeaderLog(h, e.term), a.commitIndex + 1);
      var f :| f in h.commits && f.term <= b.currentTerm && b.commitIndex <= f.index
               && Agree(b.log, LeaderLog(h, f.term), b.commitIndex + 1);
      assert e.term in h.leaders && f.term in h.leaders;
      if e.term <= f.term {
        ThroughLaterLeader(h, a.log, a.commitIndex, e, f.term);
        CommonPrefix(a.log, b.log, LeaderLog(h, f.term), a.commitIndex + 1, b.commitIndex + 1);
      } else {
        ThroughLaterLeader(h, b.log, b.commitIndex, f, e.term);
        CommonPrefix(a.log, b.log, LeaderLog(h, e.term), a.commitIndex + 1, b.commitIndex + 1);
      }
    }
  }

  lemma ThroughLaterLeader(h: History, log: Log, upTo: Index, e: EntryId, u: nat)
    requires HistoryInv(h) && Chosen(h, e) && e.term <= u && u in h.leaders
    requires upTo <= e.index && Agree(log, LeaderLog(h, e.term), upTo + 1)
    ensures Agree(log, LeaderLog(h, u), upTo + 1)
  {
    hide HistoryInv, Chosen;
    ChosenInLaterLogs(h, e, u);
    AgreeShorter(LeaderLog(h, u), LeaderLog(h, e.term), e.index + 1, upTo + 1);
  }

  lemma CommonPrefix(a: Log, b: Log, reference: Log, n: nat, m: nat)
    requires Agree(a, reference, n) && Agree(b, reference, m)
    ensures Comparable(Commands(a[..n]), Commands(b[..m]))
  {
  }

  /** The command sequences two nodes have applied, at whatever two moments, are prefixes of one another. */
  lemma StateMachineSafety(c: Cluster, earlier: seq<Action>, later: seq<Action>, a: NodeId, b: NodeId)
    requires Initial(c) && CarefulRun(c, earlier) && Runs(c, earlier)
    requires CarefulRun(After(c, earlier), later) && Runs(After(c, earlier), later)
    requires a in After(c, earlier).nodes && b in After(After(c, earlier), later).nodes
    ensures Comparable(After(c, earlier).nodes[a].applied, After(After(c, earlier), later).nodes[b].applied)
  {
    hide Initial, Runs, After, CarefulRun, Inv, CommitInv, NodeInv, HistoryInv, CommitNode, AllChosen;
    var c1 := After(c, earlier);
    var c2 := After(c1, later);
    InitialInv(c);
    InitialCommitInv(c);
    CarefulKeeps(c, earlier);
    CarefulKeeps(c1, later);
    RunApplies(c1, later, a);
    InvOf(c2, a);
    CommitInvOf(c2, a);
    CommitInvOf(c2, b);
    CommittedLogsComparable(c2.history, c2.nodes[a], c2.nodes[b]);
  }
}
