/** What one step does to a node, told by terms, votes and logs: which messages move it, and what it answers. */
module RaftRules {
  import opened Options
  import opened Quorums
  import opened LockCommands
  import opened RaftTypes
  import opened RaftLog
  import opened RaftHandlers
  import opened RaftHistory
  import opened RaftInvariant
  import opened RaftCluster
  import opened RaftProgress

  /** The node takes notice of a message of this kind in its present role. */
  predicate Heeds(n: NodeState, m: Message) {
    m.RequestVote? || m.AppendEntries? || (m.VoteResponse? && n.role == Candidate) || (m.AppendResponse? && n.role == Leader)
  }

  lemma HeededMoves(n: NodeState, m: Message)
    requires Heeds(n, m) && n.currentTerm < m.term
    ensures var n' := OnMessage(n, m).node;
            && n'.currentTerm == m.term && n'.role == Follower && (m.AppendEntries? || n'.log == n.log)
            && (n'.votedFor == None || (m.RequestVote? && n'.votedFor == Some(m.src)))
  {
    hide Merged, GrantsVote;
  }

  lemma UnheededStays(n: NodeState, m: Message)
    requires !Heeds(n, m)
    ensures OnMessage(n, m) == Outcome(n, [])
  {
  }

  /** A message of a later term makes whoever heeds it a follower in that term, without a vote for anybody else; the others ignore it. */
  lemma LaterTermIsAdopted(c: Cluster, m: Message)
    requires Enabled(c, Deliver(m)) && c.nodes[m.dst].currentTerm < m.term
    ensures m.dst in Perform(c, Deliver(m)).nodes
    ensures var n, n' := c.nodes[m.dst], Perform(c, Deliver(m)).nodes[m.dst];
            if Heeds(n, m) then
              && n'.currentTerm == m.term && n'.role == Follower && (m.AppendEntries? || n'.log == n.log)
              && (n'.votedFor == None || (m.RequestVote? && n'.votedFor == Some(m.src)))
            else n' == n
  {
    hide Record, OnMessage;
    var n := c.nodes[m.dst];
    if Heeds(n, m) { HeededMoves(n, m); } else { UnheededStays(n, m); }
  }

  /** A request of an earlier term is answered with the node's own term and a refusal; it changes nothing. */
  lemma EarlierTermIsRefused(c: Cluster, m: Message)
    requires Enabled(c, Deliver(m)) && m.term < c.nodes[m.dst].currentTerm && !m.AppendResponse?
    ensures Perform(c, Deliver(m)).nodes == c.nodes
    ensures var n, sent := c.nodes[m.dst], Perform(c, Deliver(m)).network;
            && (m.RequestVote? ==> VoteResponse(n.id, m.src, n.currentTerm, false) in sent)
            && (m.AppendEntries? ==> AppendResponse(n.id, m.src, n.currentTerm, false, -1) in sent)
  {
    hide Record, Merged, GrantsVote, Majority;
    var n := c.nodes[m.dst];
    var out := OnMessage(n, m);
    assert out.node == n;
    assert c.nodes[m.dst := n] == c.nodes;
    assert m.RequestVote? ==> out.sent[0] == VoteResponse(n.id, m.src, n.currentTerm, false);
    assert m.AppendEntries? ==> out.sent[0] == AppendResponse(n.id, m.src, n.currentTerm, false, -1);
  }

  /** A log with this last entry ends in a later term than the other, or in the same term and no shorter. */
  predicate EndsNoEarlier(lastTerm: nat, lastIndex: Index, log: Log) {
    log == [] || lastTerm > log[|log| - 1].term || (lastTerm == log[|log| - 1].term && lastIndex >= |log| - 1)
  }

  /** A vote is given exactly to a candidate whose log ends no earlier, by a node that has not voted for another in that term. */
  lemma VoteOutcome(c: Cluster, m: Message)
    requires Enabled(c, Deliver(m)) && m.RequestVote? && c.nodes[m.dst].currentTerm <= m.term
    ensures m.dst in Perform(c, Deliver(m)).nodes
    ensures var n, n' := c.nodes[m.dst], Perform(c, Deliver(m)).nodes[m.dst];
            var granted := EndsNoEarlier(m.lastLogTerm, m.lastLogIndex, n.log)
                           && (n.currentTerm < m.term || n.votedFor == None || n.votedFor == Some(m.src));
            && VoteResponse(n.id, m.src, m.term, granted) in Perform(c, Deliver(m)).network
            && n'.currentTerm == m.term && n'.log == n.log
            && n'.votedFor == (if granted then Some(m.src) else if n.currentTerm < m.term then None else n.votedFor)
  {
    hide Record;
    var n := c.nodes[m.dst];
    var out := OnRequestVote(n, m);
    assert out.sent[0] in out.sent;
  }

  /** Whoever takes a message of a leader knows it as the leader and follows it. */
  lemma LeaderIsKnown(c: Cluster, m: Message)
    requires Enabled(c, Deliver(m)) && m.AppendEntries? && c.nodes[m.dst].currentTerm <= m.term
    ensures m.dst in Perform(c, Deliver(m)).nodes
    ensures var n' := Perform(c, Deliver(m)).nodes[m.dst];
            n'.leaderId == Some(m.src) && n'.role == Follower && n'.currentTerm == m.term
  {
    hide Record, Merged;
  }

  /** A leader takes a command in as the last entry of its log and tells every peer at once; nobody else does anything. */
  lemma SubmitOutcome(c: Cluster, v: NodeId, command: Command)
    requires Inv(c) && v in c.nodes
    ensures Enabled(c, ClientSubmit(v, command)) && v in Perform(c, ClientSubmit(v, command)).nodes
    ensures var n, c' := c.nodes[v], Perform(c, ClientSubmit(v, command)); var n' := c'.nodes[v];
            if n.role == Leader then
              && n' == n.(log := n.log + [LogEntry(n.currentTerm, |n.log|, command)])
              && forall p | p in c.nodes && p != v :: AppendEntriesFor(n', p) in c'.network
            else c'.nodes == c.nodes && c'.network == c.network
  {
    hide Inv, Record, Heartbeats, AppendEntriesFor;
    var n, c' := c.nodes[v], Perform(c, ClientSubmit(v, command));
    PeersAre(c, v);
    if n.role == Leader {
      forall p | p in c.nodes && p != v ensures AppendEntriesFor(c'.nodes[v], p) in c'.network {
        SendsToAll(c'.nodes[v], p);
      }
    } else {
      assert c.nodes[v := n] == c.nodes;
    }
  }

  lemma PeersAre(c: Cluster, v: NodeId)
    requires Inv(c) && v in c.nodes
    ensures forall p | p in c.nodes && p != v :: p in c.nodes[v].peers
  {
    hide HistoryInv, VoteInv, RoleInv, LogInv, MessageInv;
    assert NodeInv(c.history, c.nodes[v]);
  }
}
