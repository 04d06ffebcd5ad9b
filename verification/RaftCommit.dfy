/**
 * What commit indexes and applied commands mean, when deliveries are careful:
 * a leader only counts successes of its own term, and a follower's commit index
 * never passes the part of its log that the message vouches for.
 */
module RaftCommit {
  import opened Quorums
  import opened RaftTypes
  import opened RaftLog
  import opened RaftHandlers
  import opened RaftHistory
  import opened RaftInvariant
  import opened RaftReplication
  import opened RaftCluster

  /** A leader receives no success response of an earlier term. */
  predicate FreshSuccess(n: NodeState, m: Message) {
    m.AppendResponse? && m.success && n.role == Leader ==> m.term >= n.currentTerm
  }

  /** A follower that learns a commit index learns one within the matched part of its log. */
  predicate CoveredCommit(n: NodeState, m: Message) {
    m.AppendEntries? && m.term >= n.currentTerm && PrevMatches(n.log, m.prevLogIndex, m.prevLogTerm) && m.leaderCommit > n.commitIndex ==>
      Min(m.leaderCommit, LastIndex(Merged(n.log, m.prevLogIndex + 1, m.entries))) <= m.prevLogIndex + |m.entries|
  }

  predicate Careful(c: Cluster, a: Action)
    requires Enabled(c, a)
  {
    a.Deliver? ==> FreshSuccess(c.nodes[a.message.dst], a.message) && CoveredCommit(c.nodes[a.message.dst], a.message)
  }

  ghost predicate Acknowledged(h: History, q: set<NodeId>, e: EntryId) {
    forall v | v in q :: Ack(h, v, e.term) > e.index
  }

  /** A majority holds the entry, acknowledged in the entry's own term. */
  ghost predicate Chosen(h: History, e: EntryId) {
    && Has(LeaderLog(h, e.term), e.term, e.index)
    && exists q :: IsQuorum(h.terms.Keys, q) && Acknowledged(h, q, e)
  }

  /** Everything up to `upTo` lies at or below an entry committed in a term up to t. */
  ghost predicate CommitKnown(h: History, log: Log, upTo: Index, t: nat) {
    upTo == -1 || exists e :: e in h.commits && e.term <= t && upTo <= e.index && Agree(log, LeaderLog(h, e.term), upTo + 1)
  }

  ghost predicate MatchesAcked(h: History, n: NodeState) {
    forall p | p in n.peers && p in n.matchIndex :: n.matchIndex[p] < Ack(h, p, n.currentTerm)
  }

  ghost predicate CommitNode(h: History, n: NodeState) {
    && n.lastApplied == n.commitIndex < |n.log|
    && n.applied == Commands(n.log[..n.commitIndex + 1])
    && CommitKnown(h, n.log, n.commitIndex, n.currentTerm)
    && (n.role == Leader ==> MatchesAcked(h, n))
  }

  ghost predicate CommitMessage(h: History, m: Message) {
    m.AppendEntries? ==> CommitKnown(h, LeaderLog(h, m.term), m.leaderCommit, m.term)
  }

  ghost predicate CommitInv(c: Cluster) {
    && (forall e | e in c.history.commits :: Chosen(c.history, e))
    && (forall v | v in c.nodes :: CommitNode(c.history, c.nodes[v]))
    && (forall m | m in c.network :: CommitMessage(c.history, m))
  }

  lemma ChosenIsChoosable(h: History, e: EntryId)
    requires Chosen(h, e)
    ensures Choosable(h, e.term, e.index)
  {
    var q :| IsQuorum(h.terms.Keys, q) && Acknowledged(h, q, e);
    assert Supports(h, q, e.term, e.index);
  }

  /** The log of every leader from the entry's term on agrees with the entry's own leader up to it. */
  lemma ChosenInLaterLogs(h: History, e: EntryId, u: nat)
    requires HistoryInv(h) && Chosen(h, e) && e.term <= u && u in h.leaders
    ensures Agree(LeaderLog(h, u), LeaderLog(h, e.term), e.index + 1)
  {
    hide HistoryInv, Choosable;
    if e.term < u {
      ChosenIsChoosable(h, e);
      LaterLeaderHas(h, e.term, e.index, u);
      LedLogIsGood(h, u);
      assert Agree(LeaderLog(h, u), LeaderLog(h, LeaderLog(h, u)[e.index].term), e.index + 1);
    }
  }

  lemma LaterLeaderHas(h: History, t: nat, i: nat, u: nat)
    requires HistoryInv(h) && Choosable(h, t, i) && t < u && u in h.leaders
    ensures Has(LeaderLog(h, u), t, i)
  {
  }

  /** What a node knows to be committed is in the log of every leader from its term on. */
  lemma CommitKnownByLeaders(h: History, log: Log, upTo: Index, t: nat, u: nat)
    requires HistoryInv(h) && forall e | e in h.commits :: Chosen(h, e)
    requires CommitKnown(h, log, upTo, t) && t <= u && u in h.leaders
    ensures Agree(log, LeaderLog(h, u), upTo + 1)
  {
    if upTo > -1 {
      var e :| e in h.commits && e.term <= t && upTo <= e.index && Agree(log, LeaderLog(h, e.term), upTo + 1);
      ChosenInLaterLogs(h, e, u);
      AgreeShorter(LeaderLog(h, u), LeaderLog(h, e.term), e.index + 1, upTo + 1);
    }
  }

  lemma CommitKnownMoves(h: History, from: Log, to: Log, upTo: Index, shorter: Index, t: nat, u: nat)
    requires CommitKnown(h, from, upTo, t) && shorter <= upTo && t <= u
    requires Agree(to, from, shorter + 1)
    ensures CommitKnown(h, to, shorter, u)
  {
    if shorter > -1 {
      var e :| e in h.commits && e.term <= t && upTo <= e.index && Agree(from, LeaderLog(h, e.term), upTo + 1);
      AgreeShorter(from, LeaderLog(h, e.term), upTo + 1, shorter + 1);
      AgreeTransitive(to, from, LeaderLog(h, e.term), shorter + 1);
    }
  }

  // ---------- other nodes, earlier messages, earlier commits ----------

  lemma LeaderLogKeepsAgreement(h: History, h': History, a: NodeId, log: Log, t: nat, n: nat)
    requires Evolves(h, h', a) && Agree(log, LeaderLog(h, t), n) && n > 0
    ensures Agree(log, LeaderLog(h', t), n)
  {
    assert t in h.leaders;
    GrowsKeepsAgreement(log, LeaderLog(h, t), LeaderLog(h', t), t, n);
  }

  lemma CommitKnownEvolves(h: History, h': History, a: NodeId, log: Log, upTo: Index, t: nat)
    requires Evolves(h, h', a) && CommitKnown(h, log, upTo, t)
    ensures CommitKnown(h', log, upTo, t)
  {
    if upTo > -1 {
      var e :| e in h.commits && e.term <= t && upTo <= e.index && Agree(log, LeaderLog(h, e.term), upTo + 1);
      LeaderLogKeepsAgreement(h, h', a, log, e.term, upTo + 1);
      assert e in h'.commits;
    }
  }

  lemma ChosenEvolves(h: History, h': History, a: NodeId, e: EntryId)
    requires Evolves(h, h', a) && Chosen(h, e)
    ensures Chosen(h', e)
  {
    assert e.term in h.leaders;
    HasEvolves(h, h', a, e.term, e.term, e.index);
    var q :| IsQuorum(h.terms.Keys, q) && Acknowledged(h, q, e);
    forall v | v in q ensures Ack(h', v, e.term) > e.index {
      assert Ack(h, v, e.term) <= Ack(h', v, e.term);
    }
    assert Acknowledged(h', q, e);
  }

  lemma MatchesAckedEvolves(h: History, h': History, a: NodeId, n: NodeState)
    requires Evolves(h, h', a) && MatchesAcked(h, n)
    ensures MatchesAcked(h', n)
  {
    forall p | p in n.peers && p in n.matchIndex ensures n.matchIndex[p] < Ack(h', p, n.currentTerm) {
      assert Ack(h, p, n.currentTerm) <= Ack(h', p, n.currentTerm);
    }
  }

  lemma CommitNodeEvolves(h: History, h': History, a: NodeId, n: NodeState)
    requires Evolves(h, h', a) && CommitNode(h, n)
    ensures CommitNode(h', n)
  {
    CommitKnownEvolves(h, h', a, n.log, n.commitIndex, n.currentTerm);
    if n.role == Leader { MatchesAckedEvolves(h, h', a, n); }
  }

  lemma CommitMessageEvolves(h: History, h': History, a: NodeId, m: Message)
    requires Evolves(h, h', a) && CommitMessage(h, m) && (m.AppendEntries? ==> m.term in h.leaders)
    ensures CommitMessage(h', m)
  {
    if m.AppendEntries? && m.leaderCommit > -1 {
      var before, after := LeaderLog(h, m.term), LeaderLog(h', m.term);
      assert Grows(before, after, m.term);
      CommitKnownEvolves(h, h', a, before, m.leaderCommit, m.term);
      assert Agree(after, before, |before|);
      AgreeShorter(after, before, |before|, m.leaderCommit + 1);
      CommitKnownMoves(h', before, after, m.leaderCommit, m.leaderCommit, m.term, m.term);
    }
  }

  // ---------- the acting node ----------

  lemma CommandsExtend(log: Log, a: nat, b: nat)
    requires a <= b <= |log|
    ensures Commands(log[..b]) == Commands(log[..a]) + Commands(log[a..b])
  {
    assert log[..b] == log[..a] + log[a..b];
  }

  /** Advancing the commit index from a state in which everything committed is applied. */
  lemma AppliesUpTo(n: NodeState, target: Index)
    requires n.lastApplied == n.commitIndex <= target < |n.log|
    requires n.applied == Commands(n.log[..n.commitIndex + 1])
    ensures var n' := ApplyCommitted(n.(commitIndex := target));
            && n'.lastApplied == n'.commitIndex == target
            && n'.applied == Commands(n'.log[..target + 1])
  {
    CommandsExtend(n.log, n.commitIndex + 1, target + 1);
  }

  lemma CommandsAgree(a: Log, b: Log, n: nat)
    requires Agree(a, b, n)
    ensures Commands(a[..n]) == Commands(b[..n])
  {
  }

  /** A follower's committed prefix survives a merge with what its leader sends. */
  lemma MergeKeepsCommitted(h: History, n: NodeState, m: Message, merged: Log)
    requires HistoryInv(h) && NodeInv(h, n) && (forall e | e in h.commits :: Chosen(h, e)) && CommitNode(h, n)
    requires m.AppendEntries? && MessageInv(h, m) && m.term == n.currentTerm
    requires PrevMatches(n.log, m.prevLogIndex, m.prevLogTerm)
    requires merged == Merged(n.log, m.prevLogIndex + 1, m.entries)
    ensures Agree(merged, n.log, n.commitIndex + 1)
    ensures Agree(merged, LeaderLog(h, m.term), m.prevLogIndex + 1 + |m.entries|)
  {
    hide HistoryInv, Merged, Chosen, Retains, VoteInv, RoleInv, PeersOk, Good, WellFormed;
    LedLogIsGood(h, m.term);
    MergedLogInv(h, n, m, merged);
    CommitKnownByLeaders(h, n.log, n.commitIndex, n.currentTerm, m.term);
    AcceptedIsPiece(n.log, LeaderLog(h, m.term), m);
    PreviousAgrees(h, n.log, LeaderLog(h, m.term), m.prevLogIndex, m.prevLogTerm);
    MergeKeepsAgreement(n.log, m.prevLogIndex + 1, m.entries, LeaderLog(h, m.term), n.commitIndex + 1);
  }
}
