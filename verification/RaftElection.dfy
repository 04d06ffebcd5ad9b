/** Winning an election: why the term has no other leader, and why the winner's log is complete. */
module RaftElection {
  import opened Quorums
  import opened RaftTypes
  import opened RaftHandlers
  import opened RaftHistory
  import opened RaftInvariant

  ghost predicate Won(h: History, n: NodeState) {
    n.role == Candidate && |n.votesReceived| >= Majority(|n.peers| + 1) && NodeInv(h, n)
  }

  lemma ClusterSize(h: History, n: NodeState)
    requires n.id in h.terms && PeersOk(h, n)
    ensures |n.peers| + 1 == |h.terms.Keys|
  {
    var others := h.terms.Keys - {n.id};
    DistinctSize(n.peers, others);
    assert h.terms.Keys == others + {n.id};
  }

  lemma WinnersVoters(h: History, n: NodeState)
    requires HistoryInv(h) && Won(h, n)
    ensures IsQuorum(h.terms.Keys, n.votesReceived)
  {
    ClusterSize(h, n);
    forall v | v in n.votesReceived ensures v in h.terms {
      assert VotedFor(h, v, n.currentTerm, n.id);
      assert VoteOk(h, Ballot(v, n.currentTerm));
    }
  }

  /** A majority that voted for one node shares a voter with the majority that elected the leader. */
  lemma MajorityNamesLeader(h: History, q: set<NodeId>, t: nat, id: NodeId)
    requires t in h.leaders && LeaderOk(h, t)
    requires IsQuorum(h.terms.Keys, q) && forall v | v in q :: VotedFor(h, v, t, id)
    ensures h.leaders[t].id == id
  {
    var v := QuorumsIntersect(h.terms.Keys, q, h.leaders[t].voters);
    assert VotedFor(h, v, t, id) && VotedFor(h, v, t, h.leaders[t].id);
  }

  /** Election safety, at the moment of winning: nobody has led this term before. */
  lemma NobodyElse(h: History, n: NodeState)
    requires HistoryInv(h) && Won(h, n)
    ensures n.currentTerm !in h.leaders
  {
    WinnersVoters(h, n);
    if n.currentTerm in h.leaders {
      MajorityNamesLeader(h, n.votesReceived, n.currentTerm, n.id);
    }
  }

  /** The up-to-date check carries an entry from the voter's log to the candidate's. */
  lemma UpToDateHas(h: History, mine: Log, voters: Log, u: nat, t: nat, i: nat)
    requires forall s | s in h.leaders :: LeaderOk(h, s)
    requires Good(h, mine) && Good(h, voters) && WellFormed(mine, u) && WellFormed(voters, u)
    requires UpToDate(LastTerm(mine), LastIndex(mine), voters)
    requires LaterLeadersHave(h, t, i, u)
    requires Has(voters, t, i)
    ensures Has(mine, t, i)
  {
    hide Good, LeaderOk, LaterLeadersHave;
    var s := LastTerm(mine);
    assert t <= LastTerm(voters) <= s;
    assert 1 <= voters[i].term;
    IsItsLeaders(h, mine);
    if s > LastTerm(voters) {
      LeaderHasEarlier(h, s, t, i, u, |mine| - 1);
    } else {
      IsItsLeaders(h, voters);
      AgreeAt(voters, LeaderLog(h, s), |voters|, i);
    }
    AgreeAt(mine, LeaderLog(h, s), |mine|, i);
  }

  /** A log is a prefix of the log of the leader of its last term. */
  lemma IsItsLeaders(h: History, log: Log)
    requires Good(h, log) && log != []
    ensures Agree(log, LeaderLog(h, LastTerm(log)), |log|)
    ensures LeaderLog(h, LastTerm(log))[|log| - 1].term == LastTerm(log) && LastTerm(log) in h.leaders
  {
    assert Agree(log, LeaderLog(h, log[|log| - 1].term), |log| - 1 + 1);
    AgreeAt(log, LeaderLog(h, LastTerm(log)), |log|, |log| - 1);
  }

  /** A leader's entry of an earlier term stands before any entry of its own term. */
  lemma LeaderHasEarlier(h: History, s: nat, t: nat, i: nat, u: nat, last: nat)
    requires s in h.leaders && LeaderOk(h, s) && t < s <= u && LaterLeadersHave(h, t, i, u)
    requires last < |LeaderLog(h, s)| && LeaderLog(h, s)[last].term == s
    ensures Has(LeaderLog(h, s), t, i) && i < last
  {
    assert Has(LeaderLog(h, s), t, i);
    assert WellFormed(LeaderLog(h, s), s);
  }

  /** A voter who acknowledged a choosable entry still had it when it voted. */
  lemma VoterHas(h: History, v: NodeId, u: nat, t: nat, i: nat)
    requires HistoryInv(h) && Ballot(v, u) in h.votes
    requires t < u && Choosable(h, t, i) && Ack(h, v, t) > i
    ensures Has(h.votes[Ballot(v, u)].log, t, i)
    ensures LaterLeadersHave(h, t, i, u)
  {
    assert VoteOk(h, Ballot(v, u));
    forall s | t < s <= u && s in h.leaders ensures Has(LeaderLog(h, s), t, i) {
    }
    assert LaterLeadersHave(h, t, i, u);
  }

  /** Leader completeness, at the moment of winning. */
  lemma WinnerHas(h: History, n: NodeState, t: nat, i: nat)
    requires HistoryInv(h) && Won(h, n) && t < n.currentTerm && Choosable(h, t, i)
    ensures Has(n.log, t, i)
  {
    var u := n.currentTerm;
    var q :| IsQuorum(h.terms.Keys, q) && Supports(h, q, t, i);
    WinnersVoters(h, n);
    var v := QuorumsIntersect(h.terms.Keys, q, n.votesReceived);
    assert VotedFor(h, v, u, n.id);
    assert VoteOk(h, Ballot(v, u));
    assert Ack(h, v, t) > i;
    VoterHas(h, v, u, t, i);
    UpToDateHas(h, n.log, h.votes[Ballot(v, u)].log, u, t, i);
  }

  // ---------- taking leadership ----------

  function Crowned(h: History, n: NodeState): History {
    var b := Ballot(n.id, n.currentTerm);
    h.(leaders := h.leaders[n.currentTerm := Leadership(n.id, n.votesReceived, n.log)],
       acks := h.acks[b := |n.log|])
  }

  /** Without a leader nothing of the term is acknowledged. */
  lemma NoAcksYet(h: History, v: NodeId, t: nat)
    requires HistoryInv(h) && t !in h.leaders
    ensures Ballot(v, t) !in h.acks
  {
  }

  lemma FirstLeaderEvolves(h: History, n: NodeState)
    requires n.id in h.terms && h.terms[n.id] == n.currentTerm
    requires n.currentTerm !in h.leaders && Ballot(n.id, n.currentTerm) !in h.acks
    ensures Evolves(h, Crowned(h, n), n.id)
  {
    var h' := Crowned(h, n);
    forall t | t in h.leaders ensures Grows(LeaderLog(h, t), LeaderLog(h', t), t) {
      assert LeaderLog(h', t) == LeaderLog(h, t);
    }
    assert LeadersKept(h, h', n.id);
    assert AcksRise(h, h', n.id);
  }

  lemma CrownedEvolves(h: History, n: NodeState)
    requires HistoryInv(h) && NodeInv(h, n) && n.currentTerm !in h.leaders
    ensures Evolves(h, Crowned(h, n), n.id)
  {
    NoAcksYet(h, n.id, n.currentTerm);
    FirstLeaderEvolves(h, n);
  }

  lemma CrownedLeaderOk(h: History, n: NodeState)
    requires HistoryInv(h) && Won(h, n) && n.currentTerm !in h.leaders
    ensures LeaderOk(Crowned(h, n), n.currentTerm)
  {
    var h' := Crowned(h, n);
    WinnersVoters(h, n);
    CrownedEvolves(h, n);
    GoodEvolves(h, h', n.id, n.log);
    forall v | v in n.votesReceived ensures VotedFor(h', v, n.currentTerm, n.id) {
      assert VotedFor(h, v, n.currentTerm, n.id);
    }
  }

  lemma CrownedComplete(h: History, n: NodeState)
    requires HistoryInv(h) && Won(h, n) && n.currentTerm !in h.leaders
    ensures NewlyComplete(h, Crowned(h, n))
  {
    var h' := Crowned(h, n);
    CrownedEvolves(h, n);
    forall t: nat, i: nat, u: nat | t < u && u in h'.leaders && Choosable(h', t, i)
      && (u !in h.leaders || !Has(LeaderLog(h, t), t, i))
      ensures Has(LeaderLog(h', u), t, i)
    {
      NoForeignEntries(h, n, t, i);
      ChoosableEvolves(h, h', n.id, t, i);
      WinnerHas(h, n, t, i);
    }
  }

  /** The winner brings no entry of its new term along. */
  lemma NoForeignEntries(h: History, n: NodeState, t: nat, i: nat)
    requires NodeInv(h, n) && n.currentTerm !in h.leaders
    requires Has(LeaderLog(Crowned(h, n), t), t, i)
    ensures t != n.currentTerm && Has(LeaderLog(h, t), t, i)
  {
    TermsAreLed(h, n.log);
  }

  /** Every entry's term has had a leader. */
  lemma TermsAreLed(h: History, log: Log)
    requires Good(h, log)
    ensures forall j | 0 <= j < |log| :: log[j].term in h.leaders
  {
  }

  lemma CrownedNews(h: History, n: NodeState)
    requires n.id in h.terms && h.terms[n.id] == n.currentTerm && n.currentTerm !in h.leaders
    requires LeaderOk(Crowned(h, n), n.currentTerm) && NewlyComplete(h, Crowned(h, n))
    ensures NewItemsOk(h, Crowned(h, n))
  {
    var h' := Crowned(h, n);
    assert forall t | t in h.leaders :: LeaderLog(h', t) == LeaderLog(h, t);
    forall b | b in h'.acks && (b !in h.acks || Ack(h', b.node, b.term) != Ack(h, b.node, b.term))
      ensures AckOk(h', b)
    {
      assert b == Ballot(n.id, n.currentTerm);
    }
  }

  lemma CrownedHistory(h: History, n: NodeState)
    requires HistoryInv(h) && Won(h, n)
    ensures n.currentTerm !in h.leaders
    ensures Evolves(h, Crowned(h, n), n.id) && HistoryInv(Crowned(h, n))
  {
    NobodyElse(h, n);
    CrownedEvolves(h, n);
    CrownedLeaderOk(h, n);
    CrownedComplete(h, n);
    CrownedNews(h, n);
    HistoryEvolves(h, Crowned(h, n), n.id);
  }

  lemma CrownedNode(h: History, n: NodeState, n': NodeState)
    requires HistoryInv(h) && Won(h, n) && n.currentTerm !in h.leaders
    requires n' == BecomeLeader(n)
    ensures NodeInv(Crowned(h, n), n')
  {
    var h' := Crowned(h, n);
    CrownedEvolves(h, n);
    GoodEvolves(h, h', n.id, n.log);
    RetainsEvolves(h, h', n.id, n.id, n.currentTerm, n.log);
    assert LogInv(h', n');
    assert RoleInv(h', n') && VoteInv(h', n');
  }

  /** What a leader sends describes its own log. */
  lemma HeartbeatsOk(h: History, n: NodeState)
    requires NodeInv(h, n) && n.role == Leader
    ensures forall m | m in Heartbeats(n) :: MessageInv(h, m)
  {
    hide MessageInv, AppendEntriesFor, VoteInv, LogInv, PeersOk;
    forall k | 0 <= k < |n.peers| ensures MessageInv(h, Heartbeats(n)[k]) {
      PeerIsOther(h, n, n.peers[k]);
      HeartbeatOk(h, n, n.peers[k]);
    }
  }

  lemma PeerIsOther(h: History, n: NodeState, p: NodeId)
    requires PeersOk(h, n) && p in n.peers
    ensures p in h.terms && p != n.id
  {
  }

  lemma HeartbeatOk(h: History, n: NodeState, p: NodeId)
    requires n.id in h.terms && p in h.terms && p != n.id && Leads(h, n) && LeaderLog(h, n.currentTerm) == n.log
    ensures MessageInv(h, AppendEntriesFor(n, p))
  {
    hide Batch, EntriesFrom;
    BatchFromLog(n, p);
  }

  /** Whatever the next index is, the message is about a piece of the log, or about nothing. */
  lemma BatchFromLog(n: NodeState, p: NodeId)
    ensures EntriesFrom(n.log, AppendEntriesFor(n, p))
  {
    hide Batch, EntriesFrom;
    var next: nat := if p in n.nextIndex then n.nextIndex[p] else 0;
    if next <= |n.log| {
      BatchIsPiece(n.log, next);
      PieceFromLog(n.log, next, AppendEntriesFor(n, p));
    } else {
      BeyondLog(n.log, next, AppendEntriesFor(n, p));
    }
  }

  lemma BatchIsPiece(log: Log, next: nat)
    requires next <= |log|
    ensures next + |Batch(log, next)| <= |log| && Batch(log, next) == log[next..next + |Batch(log, next)|]
  {
  }

  lemma PieceFromLog(log: Log, next: nat, m: Message)
    requires m.AppendEntries? && m.prevLogIndex == next - 1 && next + |m.entries| <= |log|
    requires m.entries == log[next..next + |m.entries|] && (next > 0 ==> log[next - 1].term == m.prevLogTerm)
    ensures EntriesFrom(log, m)
  {
    assert m.prevLogIndex + 1 == next;
  }

  lemma BeyondLog(log: Log, next: nat, m: Message)
    requires next > |log| && m.AppendEntries? && m.prevLogIndex == next - 1 && m.prevLogTerm == 0
    requires m.entries == Batch(log, next)
    ensures EntriesFrom(log, m)
  {
  }

  lemma CrownedSound(h: History, n: NodeState)
    requires HistoryInv(h) && Won(h, n)
    ensures Sound(h, n, BecomeLeader(n), Heartbeats(BecomeLeader(n)))
  {
    var n' := BecomeLeader(n);
    CrownedHistory(h, n);
    CrownedNode(h, n, n');
    HeartbeatsOk(Crowned(h, n), n');
    CrownedRecord(h, n, Heartbeats(n'));
  }

  lemma CrownedRecord(h: History, n: NodeState, sent: seq<Message>)
    requires n.role == Candidate && n.id in h.terms && h.terms[n.id] == n.currentTerm
    requires VoteInv(h, n) && n.currentTerm !in h.leaders
    ensures Record(h, n, BecomeLeader(n), sent) == Crowned(h, n)
  {
    var h' := Record(h, n, BecomeLeader(n), sent);
    assert h'.terms == h.terms;
    assert h'.votes == h.votes;
  }
}
