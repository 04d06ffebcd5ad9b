/** Careful runs keep every commit index truthful. */
module RaftSafety {
  import opened Options
  import opened Quorums
  import opened RaftTypes
  import opened RaftLog
  import opened RaftHandlers
  import opened RaftHistory
  import opened RaftInvariant
  import opened RaftElection
  import opened RaftCluster
  import opened RaftCommit

  ghost predicate AllChosen(h: History) {
    forall e | e in h.commits :: Chosen(h, e)
  }

  /** A step that leaves the commit index alone and the log at least as long. */
  lemma CommitCarries(h: History, h': History, a: NodeId, n: NodeState, n': NodeState)
    requires Evolves(h, h', a) && CommitNode(h, n) && n.currentTerm <= n'.currentTerm
    requires |n.log| <= |n'.log| && n'.log[..|n.log|] == n.log
    requires n'.commitIndex == n.commitIndex && n'.lastApplied == n.lastApplied && n'.applied == n.applied
    requires n'.role == Leader ==> MatchesAcked(h', n')
    ensures CommitNode(h', n')
  {
    hide Evolves;
    CommitKnownEvolves(h, h', a, n.log, n.commitIndex, n.currentTerm);
    AgreeShorter(n'.log, n.log, |n.log|, n.commitIndex + 1);
    CommandsAgree(n'.log, n.log, n.commitIndex + 1);
    CommitKnownMoves(h', n.log, n'.log, n.commitIndex, n.commitIndex, n.currentTerm, n'.currentTerm);
  }

  lemma HeartbeatsCommit(h: History, n: NodeState)
    requires CommitNode(h, n) && LeaderLog(h, n.currentTerm) == n.log
    ensures forall m | m in Heartbeats(n) :: CommitMessage(h, m)
  {
  }

  /** The obligations on the acting node: itself, what it sends, and what it commits. */
  ghost predicate CommitSound(h: History, h': History, n': NodeState, sent: seq<Message>) {
    && CommitNode(h', n')
    && (forall m | m in sent :: CommitMessage(h', m))
    && (forall e | e in h'.commits && e !in h.commits :: Chosen(h', e))
  }

  lemma CommitInstall(c: Cluster, v: NodeId, n': NodeState, sent: seq<Message>, h': History)
    requires Inv(c) && CommitInv(c) && v in c.nodes
    requires Evolves(c.history, h', v) && CommitSound(c.history, h', n', sent)
    ensures CommitInv(Install(c, v, n', sent, h'))
  {
    hide Evolves, CommitNode, CommitMessage, Chosen, HistoryInv, NodeInv;
    var c' := Install(c, v, n', sent, h');
    forall e | e in h'.commits ensures Chosen(h', e) {
      if e in c.history.commits { ChosenEvolves(c.history, h', v, e); }
    }
    forall w | w in c'.nodes ensures CommitNode(h', c'.nodes[w]) {
      if w != v { CommitNodeEvolves(c.history, h', v, c.nodes[w]); }
    }
    forall m | m in c'.network ensures CommitMessage(h', m) {
      if m in c.network {
        assert MessageInv(c.history, m);
        CommitMessageEvolves(c.history, h', v, m);
      }
    }
  }

  // ---------- a leader commits ----------

  lemma CommittableIsChosen(h: History, n: NodeState, i: nat)
    requires NodeInv(h, n) && n.role == Leader && MatchesAcked(h, n) && Committable(n, i)
    ensures Chosen(h, EntryId(n.currentTerm, i))
  {
    var e := EntryId(n.currentTerm, i);
    var q := {n.id} + Replicators(n, i);
    ClusterSize(h, n);
    assert n.id !in Replicators(n, i);
    assert q <= h.terms.Keys;
    forall v | v in q ensures Ack(h, v, e.term) > e.index {
    }
    assert IsQuorum(h.terms.Keys, q) && Acknowledged(h, q, e);
  }

  lemma LeaderCommits(h: History, n: NodeState, h': History, n': NodeState)
    requires NodeInv(h, n) && n.role == Leader && CommitNode(h, n)
    requires n' == UpdateCommitIndex(n) && h' == Record(h, n, n', [])
    ensures CommitSound(h, h', n', [])
  {
    hide Good, WellFormed, Retains, Chosen, VoteInv, PeersOk;
    var target := CommitTarget(n, LastIndex(n.log));
    LeaderRecord(h, n, n');
    if target > n.commitIndex {
      var e := EntryId(n.currentTerm, target);
      CommittableIsChosen(h, n, target);
      AppliesUpTo(n, target);
      assert h'.commits == h.commits + {e};
      SameLogsChosen(h, h', e);
      assert Agree(n'.log, LeaderLog(h', e.term), target + 1);
      assert CommitKnown(h', n'.log, n'.commitIndex, n'.currentTerm);
    } else {
      assert n' == n;
      assert h' == h;
    }
  }

  lemma LeaderRecord(h: History, n: NodeState, n': NodeState)
    requires NodeInv(h, n) && n.role == Leader && Quiet(n, n') && n'.role == Leader
    ensures Record(h, n, n', []) == h.(commits := if n.commitIndex < n'.commitIndex
                                                   then h.commits + {EntryId(n.currentTerm, n'.commitIndex)} else h.commits)
  {
    var h' := Record(h, n, n', []);
    assert h'.terms == h.terms && h'.leaders == h.leaders && h'.acks == h.acks && h'.votes == h.votes;
  }

  lemma SameLogsChosen(h: History, h': History, e: EntryId)
    requires h' == h.(commits := h'.commits) && Chosen(h, e)
    ensures Chosen(h', e)
  {
  }

  // ---------- a follower accepts ----------

  lemma FollowerAccepts(h: History, n: NodeState, m: Message)
    requires HistoryInv(h) && NodeInv(h, n) && AllChosen(h) && CommitNode(h, n) && n.role == Follower
    requires m.AppendEntries? && MessageInv(h, m) && CommitMessage(h, m) && m.term == n.currentTerm && CoveredCommit(n, m)
    ensures CommitNode(h, OnAppendEntries(n, m).node)
  {
    hide HistoryInv, NodeInv, MessageInv, Chosen, Merged, AdvanceCommit, CommitNode, CommitMessage;
    if PrevMatches(n.log, m.prevLogIndex, m.prevLogTerm) {
      var merged := Merged(n.log, m.prevLogIndex + 1, m.entries);
      MergeKeepsCommitted(h, n, m, merged);
      MergedCommitNode(h, n, m, merged);
    } else {
      LeaderIdIsFree(h, n, Some(m.src));
    }
  }

  lemma LeaderIdIsFree(h: History, n: NodeState, leader: Option<NodeId>)
    requires CommitNode(h, n) && n.role == Follower
    ensures CommitNode(h, n.(leaderId := leader))
  {
  }

  lemma MergedCommitNode(h: History, n: NodeState, m: Message, merged: Log)
    requires CommitNode(h, n) && n.role == Follower
    requires m.AppendEntries? && CommitMessage(h, m) && m.term == n.currentTerm
    requires Agree(merged, n.log, n.commitIndex + 1)
    requires Agree(merged, LeaderLog(h, m.term), m.prevLogIndex + 1 + |m.entries|)
    requires m.leaderCommit > n.commitIndex ==> Min(m.leaderCommit, LastIndex(merged)) <= m.prevLogIndex + |m.entries|
    ensures CommitNode(h, AdvanceCommit(n.(leaderId := Some(m.src), log := merged), m.leaderCommit))
  {
    var n2 := n.(leaderId := Some(m.src), log := merged);
    CommandsAgree(merged, n.log, n.commitIndex + 1);
    CommitKnownMoves(h, n.log, merged, n.commitIndex, n.commitIndex, n.currentTerm, n.currentTerm);
    if m.leaderCommit > n.commitIndex {
      var target := Min(m.leaderCommit, LastIndex(merged));
      AppliesUpTo(n2, target);
      AgreeShorter(merged, LeaderLog(h, m.term), m.prevLogIndex + 1 + |m.entries|, target + 1);
      CommitKnownMoves(h, LeaderLog(h, m.term), merged, m.leaderCommit, target, m.term, n.currentTerm);
    }
  }

  // ---------- one step of the cluster ----------

  /** Apart from counting an acknowledgement, no step commits anything. */
  lemma NoCommit(h: History, n: NodeState, n': NodeState, sent: seq<Message>)
    requires n'.role == Leader ==> n'.commitIndex == n.commitIndex
    ensures Record(h, n, n', sent).commits == h.commits
  {
  }

  lemma OrdinaryCommit(c: Cluster, a: Action)
    requires Inv(c) && CommitInv(c) && Enabled(c, a) && Stepped(c, Perform(c, a), Actor(a))
    requires a.Deliver? ==> !a.message.AppendEntries? && !a.message.AppendResponse?
    ensures CommitInv(Perform(c, a))
  {
    hide HistoryInv, Evolves, Chosen, MessageInv, LogInv, VoteInv, PeersOk, React, Record, CommitNode, CommitKnown;
    var v, n := Actor(a), c.nodes[Actor(a)];
    var c' := Perform(c, a);
    var n', h', sent := c'.nodes[v], c'.history, React(n, a).sent;
    assert CommitNode(c.history, n) && NodeInv(h', n');
    OrdinaryMatches(c.history, h', v, n, a);
    NoCommit(c.history, n, n', sent);
    CommitCarries(c.history, h', v, n, n');
    if n'.role == Leader { HeartbeatsCommit(h', n'); }
    forall m | m in sent ensures CommitMessage(h', m) {
      OrdinarySends(n, a, m);
    }
    CommitInstall(c, v, n', sent, h');
  }

  lemma OrdinarySends(n: NodeState, a: Action, m: Message)
    requires a.Deliver? ==> !a.message.AppendEntries? && !a.message.AppendResponse?
    requires a.HeartbeatTick? ==> n.role == Leader
    requires m in React(n, a).sent
    ensures m.AppendEntries? ==> React(n, a).node.role == Leader && m in Heartbeats(React(n, a).node)
  {
    if a.ElectionTimeout? {
      var k :| 0 <= k < |VoteRequests(BecomeCandidate(n))| && VoteRequests(BecomeCandidate(n))[k] == m;
    }
  }

  /** A leader keeps its match indexes, and a new one starts from -1. */
  lemma OrdinaryMatches(h: History, h': History, v: NodeId, n: NodeState, a: Action)
    requires Evolves(h, h', v) && CommitNode(h, n)
    requires a.Deliver? ==> !a.message.AppendEntries? && !a.message.AppendResponse?
    requires a.ElectionTimeout? ==> n.role != Leader
    ensures var n' := React(n, a).node;
            && n.currentTerm <= n'.currentTerm && n'.commitIndex == n.commitIndex
            && n'.lastApplied == n.lastApplied && n'.applied == n.applied
            && |n.log| <= |n'.log| && n'.log[..|n.log|] == n.log
            && (n'.role == Leader ==> MatchesAcked(h', n'))
  {
    hide Evolves, CommitKnown;
    if n.role == Leader { MatchesAckedEvolves(h, h', v, n); }
  }

  /** Only the leaders and the commits of a history matter to what is known to be committed. */
  lemma CommitNodeSameLeaders(h: History, h': History, n: NodeState)
    requires h'.leaders == h.leaders && h.commits <= h'.commits && CommitNode(h, n) && n.role == Follower
    ensures CommitNode(h', n)
  {
  }

  /** A follower's record of an AppendEntries touches neither leaders nor commits. */
  lemma FollowerRecord(h: History, n: NodeState, m: Message)
    requires m.AppendEntries? && (n.role != Leader || m.term > n.currentTerm) && m.term >= n.currentTerm
    ensures var out := OnAppendEntries(n, m); var h' := Record(h, n, out.node, out.sent);
            h'.leaders == h.leaders && h'.commits == h.commits && out.node.role == Follower
    ensures Record(h, n, BecomeFollower(n, m.term), []).leaders == h.leaders
    ensures Record(h, n, BecomeFollower(n, m.term), []).commits == h.commits
  {
  }

  lemma CoveredBehind(n: NodeState, m: Message)
    requires m.AppendEntries? && m.term >= n.currentTerm && CoveredCommit(n, m)
    ensures CoveredCommit(BecomeFollower(n, m.term), m)
  {
  }

  lemma AppendEntriesCommit(c: Cluster, m: Message)
    requires Inv(c) && CommitInv(c) && m.AppendEntries? && Enabled(c, Deliver(m)) && CoveredCommit(c.nodes[m.dst], m)
    requires Stepped(c, Perform(c, Deliver(m)), m.dst)
    ensures CommitInv(Perform(c, Deliver(m)))
  {
    hide HistoryInv, NodeInv, MessageInv, Evolves, Chosen, Record, Merged, AdvanceCommit, PrevMatches,
         CommitNode, CoveredCommit;
    var n, out := c.nodes[m.dst], OnAppendEntries(c.nodes[m.dst], m);
    var c' := Perform(c, Deliver(m));
    assert CommitNode(c.history, n) && NodeInv(c.history, n) && MessageInv(c.history, m) && CommitMessage(c.history, m);
    if m.term < n.currentTerm {
      NoCommit(c.history, n, n, out.sent);
      CommitNodeEvolves(c.history, c'.history, m.dst, n);
    } else {
      NotTheLeader(c.history, n, m);
      FollowerRecord(c.history, n, m);
      BehindInv(c, m.dst, m.term);
      var c1, n1 := Behind(c, m.dst, m.term), BecomeFollower(n, m.term);
      FollowerCommit(c.history, c1.history, m.dst, n, n1, m);
      assert OnAppendEntries(n1, m) == out;
      CommitNodeSameLeaders(c1.history, c'.history, out.node);
    }
    CommitInstall(c, m.dst, out.node, out.sent, c'.history);
  }

  lemma FollowerCommit(h: History, h1: History, v: NodeId, n: NodeState, n1: NodeState, m: Message)
    requires Evolves(h, h1, v) && HistoryInv(h1) && NodeInv(h1, n1) && AllChosen(h) && h1.commits == h.commits
    requires CommitNode(h, n) && n1 == BecomeFollower(n, m.term)
    requires m.AppendEntries? && m.term >= n.currentTerm && MessageInv(h, m) && CommitMessage(h, m) && CoveredCommit(n, m)
    ensures CommitNode(h1, OnAppendEntries(n1, m).node)
  {
    hide HistoryInv, NodeInv, Evolves, Chosen, Merged, AdvanceCommit, CommitNode, CoveredCommit, EntriesFrom;
    forall e | e in h1.commits ensures Chosen(h1, e) { ChosenEvolves(h, h1, v, e); }
    StepDownCommit(h, h1, v, n, m.term);
    CommitMessageEvolves(h, h1, v, m);
    MessageEvolves(h, h1, v, m);
    CoveredBehind(n, m);
    FollowerAccepts(h1, n1, m);
  }

  lemma StepDownCommit(h: History, h1: History, v: NodeId, n: NodeState, t: nat)
    requires Evolves(h, h1, v) && CommitNode(h, n) && n.currentTerm <= t
    ensures CommitNode(h1, BecomeFollower(n, t))
  {
    CommitCarries(h, h1, v, n, BecomeFollower(n, t));
  }

  lemma AppendResponseCommit(c: Cluster, m: Message)
    requires Inv(c) && CommitInv(c) && m.AppendResponse? && Enabled(c, Deliver(m)) && FreshSuccess(c.nodes[m.dst], m)
    requires Stepped(c, Perform(c, Deliver(m)), m.dst)
    ensures CommitInv(Perform(c, Deliver(m)))
  {
    hide HistoryInv, NodeInv, MessageInv, Evolves, Chosen, Record, UpdateCommitIndex, CommitNode;
    var n, out := c.nodes[m.dst], OnAppendResponse(c.nodes[m.dst], m);
    var c' := Perform(c, Deliver(m));
    assert CommitNode(c.history, n) && NodeInv(c.history, n) && MessageInv(c.history, m);
    if n.role == Leader && m.term <= n.currentTerm && m.success {
      CountedResponse(c.history, n, m);
    } else {
      UncountedResponse(c.history, c'.history, n, m);
      NoCommit(c.history, n, out.node, []);
    }
    CommitInstall(c, m.dst, out.node, [], c'.history);
  }

  lemma CountedResponse(h: History, n: NodeState, m: Message)
    requires NodeInv(h, n) && CommitNode(h, n) && n.role == Leader
    requires m.AppendResponse? && MessageInv(h, m) && m.success && m.term == n.currentTerm && m.dst == n.id
    ensures var n' := OnAppendResponse(n, m).node; CommitSound(h, Record(h, n, n', []), n', [])
  {
    hide LogInv, VoteInv, PeersOk, CommitKnown, UpdateCommitIndex, CommitSound;
    var n1 := n.(matchIndex := n.matchIndex[m.src := m.matchIndex], nextIndex := n.nextIndex[m.src := m.matchIndex + 1]);
    SameCoreNode(h, n, n1);
    assert CommitNode(h, n1);
    LeaderCommits(h, n1, Record(h, n1, UpdateCommitIndex(n1), []), UpdateCommitIndex(n1));
    assert Record(h, n, UpdateCommitIndex(n1), []) == Record(h, n1, UpdateCommitIndex(n1), []);
  }

  lemma SameCoreNode(h: History, n: NodeState, n1: NodeState)
    requires NodeInv(h, n) && n1 == n.(matchIndex := n1.matchIndex, nextIndex := n1.nextIndex)
    ensures NodeInv(h, n1)
  {
  }

  lemma UncountedResponse(h: History, h': History, n: NodeState, m: Message)
    requires Evolves(h, h', m.dst) && CommitNode(h, n)
    requires m.AppendResponse? && (n.role != Leader || m.term > n.currentTerm || !m.success)
    ensures var n' := OnAppendResponse(n, m).node;
            CommitNode(h', n') && (n'.role == Leader ==> n'.commitIndex == n.commitIndex)
  {
    hide Evolves;
    if n.role == Leader { MatchesAckedEvolves(h, h', m.dst, n); }
    CommitCarries(h, h', m.dst, n, OnAppendResponse(n, m).node);
  }

  lemma CommitStep(c: Cluster, a: Action)
    requires Inv(c) && CommitInv(c) && Enabled(c, a) && Careful(c, a)
    ensures Inv(Perform(c, a)) && CommitInv(Perform(c, a))
  {
    hide Inv, CommitInv, Perform, FreshSuccess, CoveredCommit;
    PerformInv(c, a);
    if a.Deliver? && a.message.AppendEntries? {
      AppendEntriesCommit(c, a.message);
    } else if a.Deliver? && a.message.AppendResponse? {
      AppendResponseCommit(c, a.message);
    } else {
      OrdinaryCommit(c, a);
    }
  }

  lemma InitialCommitInv(c: Cluster)
    requires Initial(c)
    ensures CommitInv(c)
  {
  }
}
