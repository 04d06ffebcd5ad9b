/**
 * What holds of one node and of one message in every reachable state, and why
 * the single moves a handler is made of keep it. No assumption on delivery.
 */
module RaftInvariant {
  import opened Options
  import opened Quorums
  import opened RaftTypes
  import opened RaftHistory

  /** The peer list names every other node of the cluster once. */
  ghost predicate PeersOk(h: History, n: NodeState) {
    && (forall p :: p in n.peers <==> p in h.terms && p != n.id)
    && (forall i, j | 0 <= i < j < |n.peers| :: n.peers[i] != n.peers[j])
  }

  ghost predicate CandidateInv(h: History, n: NodeState) {
    && Ballot(n.id, n.currentTerm) in h.candidacies
    && h.candidacies[Ballot(n.id, n.currentTerm)] == n.log
    && (forall v | v in n.votesReceived :: VotedFor(h, v, n.currentTerm, n.id))
  }

  ghost predicate Leads(h: History, n: NodeState) {
    n.currentTerm in h.leaders && h.leaders[n.currentTerm].id == n.id
  }

  ghost predicate VoteInv(h: History, n: NodeState) {
    && (Ballot(n.id, n.currentTerm) in h.votes ==> n.votedFor.Some?)
    && (n.votedFor.Some? ==> VotedFor(h, n.id, n.currentTerm, n.votedFor.value))
  }

  ghost predicate RoleInv(h: History, n: NodeState) {
    && (n.role == Candidate ==> CandidateInv(h, n))
    && (n.role == Leader <==> Leads(h, n))
    && (n.role == Leader ==>
          && LeaderLog(h, n.currentTerm) == n.log
          && Ballot(n.id, n.currentTerm) in h.acks && h.acks[Ballot(n.id, n.currentTerm)] == |n.log|)
  }

  ghost predicate LogInv(h: History, n: NodeState) {
    && WellFormed(n.log, n.currentTerm)
    && Good(h, n.log)
    && Retains(h, n.id, n.currentTerm, n.log)
    && Agree(n.log, LeaderLog(h, n.currentTerm), Ack(h, n.id, n.currentTerm))
  }

  ghost predicate NodeInv(h: History, n: NodeState) {
    && n.id in h.terms && h.terms[n.id] == n.currentTerm
    && PeersOk(h, n)
    && VoteInv(h, n)
    && RoleInv(h, n)
    && LogInv(h, n)
  }

  /** The batch is a piece of the leader's log, and the previous entry is the one before it. */
  predicate EntriesFrom(log: Log, m: Message)
    requires m.AppendEntries?
  {
    || (m.prevLogIndex >= 0 && m.prevLogTerm == 0 && m.entries == [])
    || (&& m.prevLogIndex + 1 + |m.entries| <= |log|
        && m.entries == log[m.prevLogIndex + 1..m.prevLogIndex + 1 + |m.entries|]
        && (m.prevLogIndex >= 0 ==> log[m.prevLogIndex].term == m.prevLogTerm))
  }

  predicate MessageInv(h: History, m: Message) {
    && m.src in h.terms && m.dst in h.terms && m.src != m.dst
    && match m
       case RequestVote(src, _, term, lastIndex, lastTerm) =>
         && Ballot(src, term) in h.candidacies
         && lastIndex == LastIndex(h.candidacies[Ballot(src, term)])
         && lastTerm == LastTerm(h.candidacies[Ballot(src, term)])
       case VoteResponse(src, dst, term, granted) =>
         granted ==> VotedFor(h, src, term, dst)
       case AppendEntries(src, _, term, _, _, _, _) =>
         term in h.leaders && h.leaders[term].id == src && EntriesFrom(LeaderLog(h, term), m)
       case AppendResponse(src, dst, term, success, matchIndex) =>
         success ==> term in h.leaders && h.leaders[term].id == dst && matchIndex < Ack(h, src, term)
  }

  // ---------- other nodes and earlier messages ----------

  lemma RoleEvolves(h: History, h': History, a: NodeId, n: NodeState)
    requires Evolves(h, h', a) && n.id != a && n.id in h.terms
    requires RoleInv(h, n) && VoteInv(h, n)
    ensures RoleInv(h', n) && VoteInv(h', n)
  {
    assert Ack(h', n.id, n.currentTerm) == Ack(h, n.id, n.currentTerm);
    if n.role == Candidate {
      forall v | v in n.votesReceived ensures VotedFor(h', v, n.currentTerm, n.id) {
        assert VotedFor(h, v, n.currentTerm, n.id);
      }
    }
  }

  lemma LogEvolves(h: History, h': History, a: NodeId, n: NodeState)
    requires HistoryInv(h) && Evolves(h, h', a) && n.id != a
    requires LogInv(h, n) && n.currentTerm == Term(h, n.id)
    ensures LogInv(h', n)
  {
    GoodEvolves(h, h', a, n.log);
    RetainsEvolves(h, h', a, n.id, n.currentTerm, n.log);
    assert Ack(h', n.id, n.currentTerm) == Ack(h, n.id, n.currentTerm);
    if n.currentTerm in h.leaders {
      GrowsKeepsAgreement(n.log, LeaderLog(h, n.currentTerm), LeaderLog(h', n.currentTerm), n.currentTerm,
                          Ack(h, n.id, n.currentTerm));
    }
  }

  lemma NodeEvolves(h: History, h': History, a: NodeId, n: NodeState)
    requires HistoryInv(h) && Evolves(h, h', a)
    requires NodeInv(h, n) && n.id != a
    ensures NodeInv(h', n)
  {
    RoleEvolves(h, h', a, n);
    LogEvolves(h, h', a, n);
    assert h'.terms[n.id] == Term(h', n.id) == Term(h, n.id) == n.currentTerm;
  }

  lemma EntriesFromEvolves(before: Log, after: Log, t: nat, m: Message)
    requires m.AppendEntries? && Grows(before, after, t) && EntriesFrom(before, m)
    ensures EntriesFrom(after, m)
  {
  }

  lemma MessageEvolves(h: History, h': History, a: NodeId, m: Message)
    requires Evolves(h, h', a) && MessageInv(h, m)
    ensures MessageInv(h', m)
  {
    if m.AppendEntries? {
      EntriesFromEvolves(LeaderLog(h, m.term), LeaderLog(h', m.term), m.term, m);
    }
  }

  // ---------- history of one move ----------

  /** The node answers an AppendEntries with success. */
  predicate Acknowledges(sent: seq<Message>) {
    |sent| == 1 && sent[0].AppendResponse? && sent[0].success
  }

  function Max(a: nat, b: nat): nat {
    if a >= b then a else b
  }

  /** What an observer notes down when a node goes from one state to another, sending messages. */
  function Record(h: History, before: NodeState, after: NodeState, sent: seq<Message>): History {
    var t := after.currentTerm;
    var b := Ballot(after.id, t);
    History(
      h.terms[after.id := t],
      if after.role == Candidate && before.currentTerm < t then h.candidacies[b := after.log] else h.candidacies,
      if after.votedFor.Some? && (before.currentTerm < t || before.votedFor == None)
      then h.votes[b := VoteRecord(after.votedFor.value, after.log)] else h.votes,
      if after.role == Leader
      then h.leaders[t := Leadership(after.id, if t in h.leaders then h.leaders[t].voters else after.votesReceived, after.log)]
      else h.leaders,
      if after.role == Leader then h.acks[b := |after.log|]
      else if Acknowledges(sent) then h.acks[b := Max(Ack(h, after.id, t), sent[0].matchIndex + 1)] else h.acks,
      if after.role == Leader && before.commitIndex < after.commitIndex
      then h.commits + {EntryId(t, after.commitIndex)} else h.commits)
  }

  /** The obligations of one move of node n. */
  ghost predicate Sound(h: History, n: NodeState, n': NodeState, sent: seq<Message>) {
    var h' := Record(h, n, n', sent);
    && n'.id == n.id
    && Evolves(h, h', n.id)
    && HistoryInv(h')
    && NodeInv(h', n')
    && (forall m | m in sent :: MessageInv(h', m))
  }

  /** Neither term, vote, log nor tally changes; a node that does not lead may become a follower. */
  ghost predicate Quiet(n: NodeState, n': NodeState) {
    && n' == n.(role := n'.role, commitIndex := n'.commitIndex, lastApplied := n'.lastApplied, leaderId := n'.leaderId,
                nextIndex := n'.nextIndex, matchIndex := n'.matchIndex, applied := n'.applied)
    && (n'.role == n.role || (n.role != Leader && n'.role == Follower))
  }

  /** In a new term nothing is acknowledged, no vote is cast and the node leads nothing yet. */
  lemma NewTermIsClean(h: History, n: NodeState, t: nat)
    requires HistoryInv(h) && NodeInv(h, n) && n.currentTerm < t
    ensures Ack(h, n.id, t) == 0
    ensures Ballot(n.id, t) !in h.votes && Ballot(n.id, t) !in h.candidacies
    ensures t in h.leaders ==> h.leaders[t].id != n.id
  {
    var b := Ballot(n.id, t);
    assert b in h.acks ==> AckOk(h, b);
    assert b in h.votes ==> VoteOk(h, b);
    assert b in h.candidacies ==> CandidacyOk(h, b);
    assert t in h.leaders ==> LeaderOk(h, t);
  }

  /** Moving to a later term keeps what was acknowledged before. */
  lemma RetainsLonger(h: History, n: NodeState, t: nat)
    requires HistoryInv(h) && NodeInv(h, n) && n.currentTerm < t
    ensures Retains(h, n.id, t, n.log)
  {
    forall s: nat, i: nat | s < t && i < Ack(h, n.id, s) && Has(LeaderLog(h, s), s, i) && LaterLeadersHave(h, s, i, t)
      ensures Has(n.log, s, i)
    {
      assert AckOk(h, Ballot(n.id, s));
      if s == n.currentTerm {
        AgreeAt(n.log, LeaderLog(h, s), Ack(h, n.id, s), i);
      } else {
        assert LaterLeadersHave(h, s, i, n.currentTerm);
      }
    }
  }
}
