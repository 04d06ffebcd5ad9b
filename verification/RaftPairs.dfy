/**
 * Two nodes need no assumption on deliveries: a success can only come from the one other
 * node, and what both logs have shared once they never lose.
 */
module RaftPairs {
  import opened Options
  import opened Quorums
  import opened LockCommands
  import opened RaftTypes
  import opened RaftLog
  import opened RaftHandlers
  import opened RaftHistory
  import opened RaftInvariant
  import opened RaftReplication
  import opened RaftCluster
  import opened RaftCommit
  import opened RaftTheorems

  // ---------- the invariant ----------

  /** Everything the node has committed, applied or seen matched lies within the first `shared` entries. */
  ghost predicate NodeWithin(n: NodeState, shared: nat) {
    && n.lastApplied == n.commitIndex < shared <= |n.log|
    && n.applied == Commands(n.log[..n.commitIndex + 1])
    && forall p | p in n.matchIndex :: n.matchIndex[p] < shared
  }

  predicate MessageWithin(m: Message, shared: nat) {
    && (m.AppendResponse? && m.success ==> m.matchIndex < shared)
    && (m.AppendEntries? ==> m.leaderCommit < shared)
  }

  /** Whatever v may still get from u as a leader is a prefix of u's log. */
  ghost predicate Behind(h: History, v: NodeId, u: NodeState) {
    forall t | t in h.leaders && h.leaders[t].id == u.id && t >= Term(h, v) :: Agree(u.log, LeaderLog(h, t), |LeaderLog(h, t)|)
  }

  ghost predicate PairInv(c: Cluster, a: NodeId, b: NodeId, shared: nat) {
    && Inv(c) && a != b && c.nodes.Keys == {a, b}
    && Agree(c.nodes[a].log, c.nodes[b].log, shared)
    && NodeWithin(c.nodes[a], shared) && NodeWithin(c.nodes[b], shared)
    && (forall m | m in c.network :: MessageWithin(m, shared))
    && Behind(c.history, a, c.nodes[b]) && Behind(c.history, b, c.nodes[a])
  }

  lemma WithinMore(n: NodeState, shared: nat, more: nat)
    requires NodeWithin(n, shared) && shared <= more <= |n.log|
    ensures NodeWithin(n, more)
  {
  }

  /** The other node's leaderships are as they were, and the acting node's term is no lower. */
  lemma StillBehind(h: History, h': History, a: NodeId, u: NodeState)
    requires Evolves(h, h', a) && u.id != a && u.id in h.terms && a in h.terms && Behind(h, a, u)
    ensures Behind(h', a, u)
  {
    forall t | t in h'.leaders && h'.leaders[t].id == u.id && t >= Term(h', a)
      ensures Agree(u.log, LeaderLog(h', t), |LeaderLog(h', t)|)
    {
      assert t in h.leaders && LeaderLog(h', t) == LeaderLog(h, t);
    }
  }

  /** What is left to check of a step of node a. */
  lemma StepWithin(c: Cluster, a: NodeId, b: NodeId, shared: nat, more: nat, action: Action)
    requires PairInv(c, a, b, shared) && Enabled(c, action) && Actor(action) == a && shared <= more
    requires var out := React(c.nodes[a], action);
             && Agree(out.node.log, c.nodes[b].log, more) && NodeWithin(out.node, more)
             && (forall m | m in out.sent :: MessageWithin(m, more))
             && Behind(Record(c.history, c.nodes[a], out.node, out.sent), b, out.node)
    ensures PairInv(Perform(c, action), a, b, more)
  {
    hide Inv, React, Record, NodeWithin, Behind, Agree, Evolves;
    PerformInv(c, action);
    var c' := Perform(c, action);
    NodeIds(c, b);
    AgreeIsWithin(React(c.nodes[a], action).node.log, c.nodes[b].log, more);
    WithinMore(c.nodes[b], shared, more);
    StillBehind(c.history, c'.history, a, c.nodes[b]);
  }

  lemma NodeIds(c: Cluster, v: NodeId)
    requires Inv(c) && v in c.nodes
    ensures c.nodes[v].id == v && c.nodes.Keys == c.history.terms.Keys && HistoryInv(c.history) && NodeInv(c.history, c.nodes[v])
  {
    hide HistoryInv, NodeInv, MessageInv;
  }

  lemma AgreeIsWithin(a: Log, b: Log, n: nat)
    requires Agree(a, b, n)
    ensures n <= |a| && n <= |b|
  {
  }

  lemma LeaderWasThere(h: History, t: nat)
    requires HistoryInv(h) && t in h.leaders
    ensures t <= Term(h, h.leaders[t].id)
  {
    assert LeaderOk(h, t);
    assert CandidacyOk(h, Ballot(h.leaders[t].id, t));
  }

  // ---------- steps that leave the log alone ----------

  /** Nothing is committed, applied or matched, and the log stays. */
  ghost predicate Plain(n: NodeState, n': NodeState) {
    && n'.log == n.log && n'.commitIndex == n.commitIndex && n'.lastApplied == n.lastApplied && n'.applied == n.applied
    && n'.id == n.id && forall p | p in n'.matchIndex :: n'.matchIndex[p] == -1 || (p in n.matchIndex && n'.matchIndex[p] == n.matchIndex[p])
  }

  lemma PlainWithin(n: NodeState, n': NodeState, shared: nat)
    requires NodeWithin(n, shared) && Plain(n, n')
    ensures NodeWithin(n', shared)
  {
  }

  /** A node that leads records its own log; nothing else about leaders changes. */
  lemma PlainBehind(h: History, n: NodeState, n': NodeState, sent: seq<Message>, b: NodeId)
    requires Behind(h, b, n) && b in h.terms && b != n.id && Plain(n, n')
    ensures Behind(Record(h, n, n', sent), b, n')
  {
    var h' := Record(h, n, n', sent);
    forall t | t in h'.leaders && h'.leaders[t].id == n'.id && t >= Term(h', b)
      ensures Agree(n'.log, LeaderLog(h', t), |LeaderLog(h', t)|)
    {
      if n'.role == Leader && t == n'.currentTerm {
        assert LeaderLog(h', t) == n'.log;
      } else {
        assert LeaderLog(h', t) == LeaderLog(h, t);
      }
    }
  }

  lemma PlainStep(c: Cluster, a: NodeId, b: NodeId, shared: nat, action: Action)
    requires PairInv(c, a, b, shared) && Enabled(c, action) && Actor(action) == a
    requires var out := React(c.nodes[a], action);
             Plain(c.nodes[a], out.node) && forall m | m in out.sent :: MessageWithin(m, shared)
    ensures PairInv(Perform(c, action), a, b, shared)
  {
    hide Inv, React, Record, NodeWithin, Behind, Plain, Agree;
    var out := React(c.nodes[a], action);
    NodeIds(c, a);
    NodeIds(c, b);
    PlainWithin(c.nodes[a], out.node, shared);
    PlainBehind(c.history, c.nodes[a], out.node, out.sent, b);
    PlainSameLog(c.nodes[a], out.node);
    StepWithin(c, a, b, shared, shared, action);
  }

  lemma PlainSameLog(n: NodeState, n': NodeState)
    requires Plain(n, n')
    ensures n'.log == n.log
  {
  }

  lemma HeartbeatsWithin(n: NodeState, shared: nat)
    requires n.commitIndex < shared
    ensures forall m | m in Heartbeats(n) :: MessageWithin(m, shared)
  {
    forall m | m in Heartbeats(n) ensures MessageWithin(m, shared) {
      var i :| 0 <= i < |n.peers| && Heartbeats(n)[i] == m;
      assert m == AppendEntriesFor(n, n.peers[i]);
    }
  }

  /** Everything but a submission, a batch that is taken over, and a success that a leader counts. */
  predicate IsPlain(n: NodeState, action: Action) {
    match action
    case ClientSubmit(_, _) => n.role != Leader
    case Deliver(m) =>
      && (m.AppendEntries? ==> m.term < n.currentTerm || !PrevMatches(n.log, m.prevLogIndex, m.prevLogTerm))
      && (m.AppendResponse? ==> !m.success || n.role != Leader || m.term > n.currentTerm)
    case _ => true
  }

  lemma PlainReaction(n: NodeState, action: Action, shared: nat)
    requires IsPlain(n, action) && n.commitIndex < shared
    ensures Plain(n, React(n, action).node) && forall m | m in React(n, action).sent :: MessageWithin(m, shared)
  {
    hide Heartbeats, AppendEntriesFor, UpToDate, Merged;
    var n' := React(n, action).node;
    match action {
      case ElectionTimeout(_) =>
      case HeartbeatTick(_) => HeartbeatsWithin(n, shared);
      case ClientSubmit(_, _) =>
      case Deliver(m) =>
        if m.VoteResponse? && n'.role == Leader {
          HeartbeatsWithin(n', shared);
        }
    }
  }

  // ---------- a submission ----------

  lemma SubmitStep(c: Cluster, a: NodeId, b: NodeId, shared: nat, command: Command)
    requires Enabled(c, ClientSubmit(a, command)) && c.nodes[a].role == Leader && PairInv(c, a, b, shared)
    ensures PairInv(Perform(c, ClientSubmit(a, command)), a, b, shared)
  {
    hide Inv, Record, NodeWithin, Behind, Agree, Heartbeats, NodeInv;
    var n := c.nodes[a];
    var out := Submitted(n, command);
    NodeIds(c, a);
    NodeIds(c, b);
    LongerWithin(n, out.node, shared);
    LongerAgrees(n.log, out.node.log, c.nodes[b].log, shared);
    LeadsItsLog(c.history, n);
    LongerBehind(c.history, n, out.node, out.sent, b);
    CommitWithin(n, shared);
    HeartbeatsWithin(out.node, shared);
    StepWithin(c, a, b, shared, shared, ClientSubmit(a, command));
  }

  lemma CommitWithin(n: NodeState, shared: nat)
    requires NodeWithin(n, shared)
    ensures n.commitIndex < shared <= |n.log|
  {
  }

  lemma LongerWithin(n: NodeState, n': NodeState, shared: nat)
    requires NodeWithin(n, shared) && n' == n.(log := n'.log) && |n.log| <= |n'.log| && n'.log[..|n.log|] == n.log
    ensures NodeWithin(n', shared)
  {
    assert n'.log[..n.commitIndex + 1] == n.log[..n.commitIndex + 1];
  }

  lemma LongerAgrees(log: Log, longer: Log, other: Log, shared: nat)
    requires Agree(log, other, shared) && |log| <= |longer| && longer[..|log|] == log
    ensures Agree(longer, other, shared)
  {
    assert longer[..shared] == log[..shared];
  }

  lemma LeadsItsLog(h: History, n: NodeState)
    requires NodeInv(h, n) && n.role == Leader
    ensures n.currentTerm in h.leaders && h.leaders[n.currentTerm].id == n.id && LeaderLog(h, n.currentTerm) == n.log
  {
  }

  lemma LongerBehind(h: History, n: NodeState, n': NodeState, sent: seq<Message>, b: NodeId)
    requires Behind(h, b, n) && b in h.terms && b != n.id && n.role == Leader
    requires n' == n.(log := n'.log) && |n.log| <= |n'.log| && n'.log[..|n.log|] == n.log
    ensures Behind(Record(h, n, n', sent), b, n')
  {
    var h' := Record(h, n, n', sent);
    forall t | t in h'.leaders && h'.leaders[t].id == n'.id && t >= Term(h', b)
      ensures Agree(n'.log, LeaderLog(h', t), |LeaderLog(h', t)|)
    {
      if t == n'.currentTerm {
        assert LeaderLog(h', t) == n'.log;
      } else {
        assert LeaderLog(h', t) == LeaderLog(h, t);
        LongerAgrees(n.log, n'.log, LeaderLog(h, t), |LeaderLog(h, t)|);
      }
    }
  }

  // ---------- a success that a leader counts ----------

  lemma CountStep(c: Cluster, a: NodeId, b: NodeId, shared: nat, m: Message)
    requires Enabled(c, Deliver(m)) && m.dst == a && m.AppendResponse? && m.success
    requires c.nodes[a].role == Leader && m.term <= c.nodes[a].currentTerm && PairInv(c, a, b, shared)
    ensures PairInv(Perform(c, Deliver(m)), a, b, shared)
  {
    hide Inv, Record, NodeWithin, Behind, Agree, NodeInv, UpdateCommitIndex, HistoryInv;
    var n := c.nodes[a];
    var n1 := n.(matchIndex := n.matchIndex[m.src := m.matchIndex], nextIndex := n.nextIndex[m.src := m.matchIndex + 1]);
    NodeIds(c, a);
    NodeIds(c, b);
    HasPeer(c, a, b);
    MatchedWithin(n, n1, shared, m);
    CountedWithin(n1, shared);
    CountedBehind(c.history, n, UpdateCommitIndex(n1), b);
    StepWithin(c, a, b, shared, shared, Deliver(m));
  }

  lemma HasPeer(c: Cluster, a: NodeId, b: NodeId)
    requires Inv(c) && c.nodes.Keys == {a, b} && a != b
    ensures c.nodes[a].peers != []
  {
    NodeIds(c, a);
    assert b in c.nodes[a].peers;
  }

  lemma MatchedWithin(n: NodeState, n1: NodeState, shared: nat, m: Message)
    requires NodeWithin(n, shared) && m.AppendResponse? && m.matchIndex < shared
    requires n1 == n.(matchIndex := n.matchIndex[m.src := m.matchIndex], nextIndex := n1.nextIndex)
    ensures NodeWithin(n1, shared)
  {
  }

  /** With a peer, one replica is not enough, so what is committed has been matched. */
  lemma CountedWithin(n: NodeState, shared: nat)
    requires NodeWithin(n, shared) && n.peers != []
    ensures NodeWithin(UpdateCommitIndex(n), shared)
    ensures var n' := UpdateCommitIndex(n);
            n' == n.(commitIndex := n'.commitIndex, lastApplied := n'.lastApplied, applied := n'.applied)
  {
    var target := CommitTarget(n, LastIndex(n.log));
    if target > n.commitIndex {
      assert |Replicators(n, target)| >= 1;
      var p :| p in Replicators(n, target);
      assert n.matchIndex[p] >= target;
      AppliesUpTo(n, target);
    }
  }

  lemma CountedBehind(h: History, n: NodeState, n': NodeState, b: NodeId)
    requires Behind(h, b, n) && b in h.terms && b != n.id && NodeInv(h, n) && n.role == Leader
    requires n' == n.(matchIndex := n'.matchIndex, nextIndex := n'.nextIndex, commitIndex := n'.commitIndex,
                      lastApplied := n'.lastApplied, applied := n'.applied)
    ensures Behind(Record(h, n, n', []), b, n')
  {
    hide Record, NodeInv;
    LeadsItsLog(h, n);
    RecordsSame(h, n, n');
  }

  lemma RecordsSame(h: History, n: NodeState, n': NodeState)
    requires n.currentTerm in h.leaders && h.leaders[n.currentTerm].id == n.id && LeaderLog(h, n.currentTerm) == n.log && n.role == Leader
    requires n' == n.(matchIndex := n'.matchIndex, nextIndex := n'.nextIndex, commitIndex := n'.commitIndex,
                      lastApplied := n'.lastApplied, applied := n'.applied)
    ensures var h' := Record(h, n, n', []);
            && h'.leaders.Keys == h.leaders.Keys && h'.terms == h.terms[n.id := n.currentTerm]
            && forall t | t in h.leaders :: h'.leaders[t].id == h.leaders[t].id && LeaderLog(h', t) == LeaderLog(h, t)
  {
  }

  // ---------- a batch that is taken over ----------

  lemma TermsStayBelow(log: Log, t: nat, u: nat)
    requires WellFormed(log, t) && t <= u
    ensures WellFormed(log, u)
  {
  }

  /** A merge with a piece of a prefix of the other log loses nothing the two logs share, and shares the piece. */
  lemma MergeKeepsShared(h: History, log: Log, other: Log, reference: Log, at: nat, entries: Log, shared: nat) returns (more: nat)
    requires at <= |log| && Good(h, log) && Good(h, reference) && Agree(log, reference, at) && IsPiece(reference, at, entries)
    requires Agree(other, reference, |reference|) && Agree(log, other, shared)
    ensures more == Max(shared, at + |entries|) && Agree(Merged(log, at, entries), other, more)
    ensures Agree(Merged(log, at, entries), log, shared)
  {
    hide Good, Merged, IsPiece;
    more := Max(shared, at + |entries|);
    MergedWithLeader(h, log, reference, at, entries);
    if shared <= |reference| {
      AgreeShorter(other, reference, |reference|, shared);
      PieceIs(reference, at, entries);
      MergeKeepsAgreement(log, at, entries, reference, shared);
      AgreeShorter(other, reference, |reference|, at + |entries|);
    } else {
      NothingNew(log, other, reference, at, entries, shared);
    }
  }

  lemma PieceIs(reference: Log, at: nat, entries: Log)
    requires IsPiece(reference, at, entries)
    ensures at + |entries| <= |reference| && entries == reference[at..at + |entries|]
  {
  }

  lemma NothingNew(log: Log, other: Log, reference: Log, at: nat, entries: Log, shared: nat)
    requires at <= |log| && IsPiece(reference, at, entries) && Agree(other, reference, |reference|) && Agree(log, other, shared)
    requires |reference| < shared
    ensures at + |entries| <= |reference| && Merged(log, at, entries) == log
  {
    hide Merged;
    forall i | 0 <= i < |entries| ensures log[at + i].term == entries[i].term {
      PieceAt(reference, at, entries, i);
      AgreeAt(other, reference, |reference|, at + i);
      AgreeAt(log, other, shared, at + i);
    }
    MergeOutcome(log, at, entries);
  }

  /** Advancing the commit index over a part the logs share. */
  lemma AdvanceWithin(n: NodeState, leaderCommit: Index, shared: nat)
    requires NodeWithin(n, shared) && leaderCommit < shared
    ensures NodeWithin(AdvanceCommit(n, leaderCommit), shared)
    ensures var n' := AdvanceCommit(n, leaderCommit);
            n' == n.(commitIndex := n'.commitIndex, lastApplied := n'.lastApplied, applied := n'.applied)
  {
    if leaderCommit > n.commitIndex {
      AppliesUpTo(n, leaderCommit);
    }
  }

  lemma MergedWithin(n: NodeState, n': NodeState, shared: nat)
    requires NodeWithin(n, shared) && Agree(n'.log, n.log, shared)
    requires n'.lastApplied == n.lastApplied && n'.commitIndex == n.commitIndex && n'.applied == n.applied && n'.matchIndex == n.matchIndex
    ensures NodeWithin(n', shared)
  {
    assert n'.log[..n.commitIndex + 1] == n'.log[..shared][..n.commitIndex + 1] == n.log[..shared][..n.commitIndex + 1];
  }

  /** While the other node leads, nothing can come from this one that the other has yet to catch up with. */
  lemma FollowerIsNotBehind(h: History, h': History, n': NodeState, b: NodeId)
    requires HistoryInv(h') && n'.currentTerm in h'.leaders && h'.leaders[n'.currentTerm].id == b && b != n'.id
    requires Term(h', n'.id) == n'.currentTerm
    ensures Behind(h', b, n')
  {
    hide HistoryInv;
    LeaderWasThere(h', n'.currentTerm);
    forall t | t in h'.leaders && h'.leaders[t].id == n'.id ensures t < Term(h', b) {
      LeaderWasThere(h', t);
    }
  }

  lemma AppendStep(c: Cluster, a: NodeId, b: NodeId, shared: nat, m: Message) returns (more: nat)
    requires Enabled(c, Deliver(m)) && m.dst == a && m.AppendEntries? && m.term >= c.nodes[a].currentTerm
    requires PrevMatches(c.nodes[a].log, m.prevLogIndex, m.prevLogTerm) && PairInv(c, a, b, shared)
    ensures PairInv(Perform(c, Deliver(m)), a, b, more)
  {
    hide Inv, Record, NodeWithin, Behind, Agree, NodeInv, HistoryInv, Merged, AdvanceCommit, PrevMatches, MessageInv;
    var n := c.nodes[a];
    NodeIds(c, a);
    NodeIds(c, b);
    FromTheOther(c, a, b, m);
    PrevWithin(n.log, m);
    more := BatchKeepsShared(c, a, b, shared, m);
    var n1 := BecomeFollower(n, m.term).(leaderId := Some(m.src));
    var n2 := n1.(log := Merged(n.log, m.prevLogIndex + 1, m.entries));
    MergedWithin(n, n2, shared);
    AdvanceWithin(n2, m.leaderCommit, shared);
    var n' := AdvanceCommit(n2, m.leaderCommit);
    AgreeIsWithin(n2.log, c.nodes[b].log, more);
    WithinMore(n', shared, more);
    AppendBehind(c, a, b, m, n');
    StepWithin(c, a, b, shared, more, Deliver(m));
  }

  /** What the merge leaves is shared as far as before, and as far as the batch goes. */
  lemma BatchKeepsShared(c: Cluster, a: NodeId, b: NodeId, shared: nat, m: Message) returns (more: nat)
    requires Enabled(c, Deliver(m)) && m.dst == a && m.AppendEntries? && m.term >= c.nodes[a].currentTerm
    requires PrevMatches(c.nodes[a].log, m.prevLogIndex, m.prevLogTerm) && m.prevLogIndex + 1 <= |c.nodes[a].log|
    requires PairInv(c, a, b, shared)
    ensures more == Max(shared, m.prevLogIndex + 1 + |m.entries|)
    ensures var merged := Merged(c.nodes[a].log, m.prevLogIndex + 1, m.entries);
            Agree(merged, c.nodes[b].log, more) && Agree(merged, c.nodes[a].log, shared)
  {
    hide Inv, NodeWithin, Behind, Agree, NodeInv, HistoryInv, Merged, PrevMatches, IsPiece, MessageInv, Good, WellFormed, EntriesFrom;
    var h, n := c.history, c.nodes[a];
    var reference := LeaderLog(h, m.term);
    NodeIds(c, a);
    NodeIds(c, b);
    FromTheOther(c, a, b, m);
    LedLogIsGood(h, m.term);
    OwnLogIsGood(h, n, m.term);
    AcceptedIsPiece(n.log, reference, m);
    PreviousAgrees(h, n.log, reference, m.prevLogIndex, m.prevLogTerm);
    WholeReference(h, a, c.nodes[b], m.term);
    more := MergeKeepsShared(h, n.log, c.nodes[b].log, reference, m.prevLogIndex + 1, m.entries, shared);
  }

  lemma FromTheOther(c: Cluster, a: NodeId, b: NodeId, m: Message)
    requires Inv(c) && m in c.network && m.AppendEntries? && m.dst == a && c.nodes.Keys == {a, b}
    ensures m.src == b && m.term in c.history.leaders && c.history.leaders[m.term].id == b
    ensures EntriesFrom(LeaderLog(c.history, m.term), m)
  {
    hide HistoryInv, NodeInv;
    assert MessageInv(c.history, m);
  }

  lemma OwnLogIsGood(h: History, n: NodeState, t: nat)
    requires NodeInv(h, n) && n.currentTerm <= t
    ensures Good(h, n.log) && WellFormed(n.log, t)
    ensures Term(h, n.id) == n.currentTerm && n.id in h.terms
  {
    TermsStayBelow(n.log, n.currentTerm, t);
  }

  lemma WholeReference(h: History, a: NodeId, u: NodeState, t: nat)
    requires Behind(h, a, u) && t in h.leaders && h.leaders[t].id == u.id && t >= Term(h, a)
    ensures Agree(u.log, LeaderLog(h, t), |LeaderLog(h, t)|)
  {
  }

  lemma PrevWithin(log: Log, m: Message)
    requires m.AppendEntries? && PrevMatches(log, m.prevLogIndex, m.prevLogTerm)
    ensures m.prevLogIndex + 1 <= |log|
  {
  }

  lemma AppendBehind(c: Cluster, a: NodeId, b: NodeId, m: Message, n': NodeState)
    requires Inv(c) && Enabled(c, Deliver(m)) && m.dst == a && c.nodes.Keys == {a, b} && a != b && m.AppendEntries?
    requires m.term in c.history.leaders && c.history.leaders[m.term].id == b
    requires n' == React(c.nodes[a], Deliver(m)).node && n'.currentTerm == m.term && n'.id == a
    ensures Behind(Record(c.history, c.nodes[a], n', React(c.nodes[a], Deliver(m)).sent), b, n')
  {
    hide Inv, Record, Behind, NodeInv, HistoryInv, React;
    PerformInv(c, Deliver(m));
    var c' := Perform(c, Deliver(m));
    NodeIds(c', a);
    OwnLogIsGood(c'.history, n', n'.currentTerm);
    FollowerIsNotBehind(c'.history, c'.history, n', b);
  }

  // ---------- runs ----------

  lemma PairStep(c: Cluster, a: NodeId, b: NodeId, shared: nat, action: Action) returns (more: nat)
    requires Enabled(c, action) && Actor(action) == a && PairInv(c, a, b, shared)
    ensures PairInv(Perform(c, action), a, b, more)
  {
    hide Inv, Perform, NodeWithin, Behind, Agree, React, PrevMatches;
    more := shared;
    var n := c.nodes[a];
    if IsPlain(n, action) {
      CommitWithin(n, shared);
      PlainReaction(n, action, shared);
      PlainStep(c, a, b, shared, action);
    } else if action.ClientSubmit? {
      SubmitStep(c, a, b, shared, action.command);
    } else if action.message.AppendEntries? {
      more := AppendStep(c, a, b, shared, action.message);
    } else {
      CountStep(c, a, b, shared, action.message);
    }
  }

  lemma OtherWay(c: Cluster, a: NodeId, b: NodeId, shared: nat)
    requires PairInv(c, a, b, shared)
    ensures PairInv(c, b, a, shared)
  {
    hide Inv, NodeWithin, Behind;
    assert {a, b} == {b, a};
  }

  lemma {:induction false} PairRun(c: Cluster, a: NodeId, b: NodeId, shared: nat, actions: seq<Action>) returns (more: nat)
    requires PairInv(c, a, b, shared) && Runs(c, actions)
    ensures PairInv(After(c, actions), a, b, more)
    decreases |actions|
  {
    hide PairInv, Perform;
    more := shared;
    if actions != [] {
      ActorIsOne(c, a, b, shared, actions[0]);
      if Actor(actions[0]) == a {
        more := PairStep(c, a, b, shared, actions[0]);
      } else {
        OtherWay(c, a, b, shared);
        more := PairStep(c, b, a, shared, actions[0]);
        OtherWay(Perform(c, actions[0]), b, a, more);
      }
      more := PairRun(Perform(c, actions[0]), a, b, more, actions[1..]);
    }
  }

  lemma ActorIsOne(c: Cluster, a: NodeId, b: NodeId, shared: nat, action: Action)
    requires PairInv(c, a, b, shared) && Enabled(c, action)
    ensures Actor(action) == a || Actor(action) == b
  {
  }

  lemma InitialPair(c: Cluster, a: NodeId, b: NodeId)
    requires Initial(c) && c.nodes.Keys == {a, b} && a != b
    ensures PairInv(c, a, b, 0)
  {
    hide Inv;
    InitialInv(c);
  }

  lemma SharedIsComparable(c: Cluster, a: NodeId, b: NodeId, shared: nat)
    requires PairInv(c, a, b, shared)
    ensures Comparable(c.nodes[a].applied, c.nodes[b].applied)
  {
    hide Inv, Behind;
    var m, n := c.nodes[a], c.nodes[b];
    AgreeShorter(m.log, n.log, shared, m.commitIndex + 1);
    AgreeShorter(m.log, n.log, shared, n.commitIndex + 1);
    CommonPrefix(m.log, n.log, m.log, m.commitIndex + 1, n.commitIndex + 1);
  }
}
