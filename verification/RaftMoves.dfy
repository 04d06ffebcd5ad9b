/** Each move of a node is sound: it keeps the history, the node and the new messages in order. */
module RaftMoves {
  import opened Options
  import opened Quorums
  import opened RaftTypes
  import opened RaftHandlers
  import opened RaftHistory
  import opened RaftInvariant

  lemma SameLogs(h: History, h': History, v: NodeId, upTo: nat, log: Log)
    requires h'.leaders == h.leaders && h'.acks == h.acks
    ensures Good(h, log) ==> Good(h', log)
    ensures Retains(h, v, upTo, log) ==> Retains(h', v, upTo, log)
  {
  }

  /** A step that adds neither leaders nor acknowledgements evolves the history if terms only rise. */
  lemma SameLeadersEvolve(h: History, h': History, a: NodeId)
    requires h'.leaders == h.leaders && h'.acks == h.acks && h.commits <= h'.commits
    requires a in h.terms && h'.terms == h.terms[a := Term(h', a)] && Term(h, a) <= Term(h', a)
    requires forall b | b in h.candidacies :: b in h'.candidacies && h'.candidacies[b] == h.candidacies[b]
    requires forall b | b in h.votes :: b in h'.votes && h'.votes[b] == h.votes[b]
    requires forall b | b in h'.votes :: b in h.votes || b.node == a
    requires forall b | b in h'.votes && b !in h.votes :: VoteOk(h', b)
    requires forall b | b in h'.candidacies && b !in h.candidacies :: CandidacyOk(h', b)
    ensures Evolves(h, h', a) && NewItemsOk(h, h')
  {
    assert forall t :: LeaderLog(h', t) == LeaderLog(h, t);
    assert forall v, t :: Ack(h', v, t) == Ack(h, v, t);
  }

  /** A node adopts a later term, as a follower without a vote. */
  lemma StepDownHistory(h: History, n: NodeState, t: nat)
    requires HistoryInv(h) && NodeInv(h, n) && n.currentTerm < t
    ensures var h' := Record(h, n, BecomeFollower(n, t), []); Evolves(h, h', n.id) && HistoryInv(h')
  {
    var h' := Record(h, n, BecomeFollower(n, t), []);
    SameLeadersEvolve(h, h', n.id);
    HistoryEvolves(h, h', n.id);
  }

  lemma StepDownNode(h: History, n: NodeState, t: nat)
    requires HistoryInv(h) && NodeInv(h, n) && n.currentTerm < t
    ensures NodeInv(Record(h, n, BecomeFollower(n, t), []), BecomeFollower(n, t))
  {
    hide HistoryInv;
    var n' := BecomeFollower(n, t);
    var h' := Record(h, n, n', []);
    NewTermIsClean(h, n, t);
    RetainsLonger(h, n, t);
    SameLogs(h, h', n.id, t, n.log);
    assert LogInv(h', n');
    assert VoteInv(h', n') && RoleInv(h', n');
  }

  lemma StepDownSound(h: History, n: NodeState, t: nat)
    requires HistoryInv(h) && NodeInv(h, n) && n.currentTerm < t
    ensures Sound(h, n, BecomeFollower(n, t), [])
  {
    StepDownHistory(h, n, t);
    StepDownNode(h, n, t);
  }

  // ---------- quiet moves ----------

  lemma QuietRecord(h: History, n: NodeState, n': NodeState, sent: seq<Message>)
    requires NodeInv(h, n) && Quiet(n, n') && !Acknowledges(sent)
    ensures var h' := Record(h, n, n', sent); h' == h.(commits := h'.commits) && h.commits <= h'.commits
  {
    var h' := Record(h, n, n', sent);
    assert h'.terms == h.terms;
    assert h'.candidacies == h.candidacies;
    assert h'.votes == h.votes;
    assert h'.leaders == h.leaders;
    assert h'.acks == h.acks;
  }

  lemma CommitsOnly(h: History, h': History, a: NodeId)
    requires HistoryInv(h) && a in h.terms && h' == h.(commits := h'.commits) && h.commits <= h'.commits
    ensures Evolves(h, h', a) && HistoryInv(h')
  {
    SameLeadersEvolve(h, h', a);
    HistoryEvolves(h, h', a);
  }

  lemma CommitsOnlyNode(h: History, h': History, n: NodeState)
    requires NodeInv(h, n) && h' == h.(commits := h'.commits)
    ensures NodeInv(h', n)
  {
    SameLogs(h, h', n.id, n.currentTerm, n.log);
    assert LogInv(h', n);
  }

  lemma QuietSound(h: History, n: NodeState, n': NodeState, sent: seq<Message>)
    requires HistoryInv(h) && NodeInv(h, n) && Quiet(n, n') && !Acknowledges(sent)
    requires forall m | m in sent :: MessageInv(h, m)
    ensures Sound(h, n, n', sent)
  {
    var h' := Record(h, n, n', sent);
    QuietRecord(h, n, n', sent);
    CommitsOnly(h, h', n.id);
    CommitsOnlyNode(h, h', n);
    forall m | m in sent ensures MessageInv(h', m) { MessageEvolves(h, h', n.id, m); }
  }

  // ---------- standing for election ----------

  lemma StandBallot(h: History, n: NodeState)
    requires HistoryInv(h) && NodeInv(h, n) && n.role != Leader
    ensures var h' := Record(h, n, BecomeCandidate(n), VoteRequests(BecomeCandidate(n)));
            var b := Ballot(n.id, n.currentTerm + 1);
            && h' == h.(terms := h.terms[n.id := b.term], candidacies := h.candidacies[b := n.log],
                        votes := h.votes[b := VoteRecord(n.id, n.log)])
            && b !in h.candidacies && b !in h.votes && VoteOk(h', b) && CandidacyOk(h', b)
  {
    var n' := BecomeCandidate(n);
    var h' := Record(h, n, n', VoteRequests(n'));
    NewTermIsClean(h, n, n'.currentTerm);
    RetainsLonger(h, n, n'.currentTerm);
    SameLogs(h, h', n.id, n'.currentTerm, n.log);
    assert h'.votes[Ballot(n.id, n'.currentTerm)] == VoteRecord(n.id, n.log);
    assert |VoteRequests(n')| == 1 ==> VoteRequests(n')[0].RequestVote?;
  }

  lemma StandHistory(h: History, n: NodeState)
    requires HistoryInv(h) && NodeInv(h, n) && n.role != Leader
    ensures var h' := Record(h, n, BecomeCandidate(n), VoteRequests(BecomeCandidate(n)));
            Evolves(h, h', n.id) && HistoryInv(h')
  {
    var h' := Record(h, n, BecomeCandidate(n), VoteRequests(BecomeCandidate(n)));
    StandBallot(h, n);
    SameLeadersEvolve(h, h', n.id);
    HistoryEvolves(h, h', n.id);
  }

  lemma StandNode(h: History, n: NodeState)
    requires HistoryInv(h) && NodeInv(h, n) && n.role != Leader
    ensures NodeInv(Record(h, n, BecomeCandidate(n), VoteRequests(BecomeCandidate(n))), BecomeCandidate(n))
  {
    hide HistoryInv;
    var n' := BecomeCandidate(n);
    var h' := Record(h, n, n', VoteRequests(n'));
    NewTermIsClean(h, n, n'.currentTerm);
    RetainsLonger(h, n, n'.currentTerm);
    SameLogs(h, h', n.id, n'.currentTerm, n.log);
    assert LogInv(h', n');
    assert VoteInv(h', n');
    assert CandidateInv(h', n');
    assert RoleInv(h', n');
  }

  lemma StandSound(h: History, n: NodeState)
    requires HistoryInv(h) && NodeInv(h, n) && n.role != Leader
    ensures Sound(h, n, BecomeCandidate(n), VoteRequests(BecomeCandidate(n)))
  {
    hide HistoryInv, Evolves, LogInv;
    StandHistory(h, n);
    StandNode(h, n);
  }

  // ---------- granting a vote ----------

  lemma GrantHistory(h: History, n: NodeState, m: Message, n': NodeState, sent: seq<Message>)
    requires HistoryInv(h) && NodeInv(h, n)
    requires m.RequestVote? && MessageInv(h, m) && m.term == n.currentTerm && GrantsVote(n, m)
    requires n' == n.(votedFor := Some(m.src)) && sent == [VoteResponse(n.id, m.src, n.currentTerm, true)]
    requires n.votedFor == None
    ensures var h' := Record(h, n, n', sent); Evolves(h, h', n.id) && HistoryInv(h')
  {
    var h' := Record(h, n, n', sent);
    var b := Ballot(n.id, n.currentTerm);
    QuietLeaderRecord(h, n, n', sent);
    SameLogs(h, h', n.id, n.currentTerm, n.log);
    assert VoteOk(h', b);
    SameLeadersEvolve(h, h', n.id);
    HistoryEvolves(h, h', n.id);
  }

  /** A step that leaves role, term and log alone records no new leader or acknowledgement. */
  lemma QuietLeaderRecord(h: History, n: NodeState, n': NodeState, sent: seq<Message>)
    requires NodeInv(h, n) && !Acknowledges(sent)
    requires n'.id == n.id && n'.currentTerm == n.currentTerm && n'.role == n.role && n'.log == n.log
    ensures var h' := Record(h, n, n', sent);
            h'.terms == h.terms && h'.candidacies == h.candidacies && h'.leaders == h.leaders && h'.acks == h.acks
  {
  }

  lemma GrantNode(h: History, n: NodeState, m: Message, n': NodeState, sent: seq<Message>)
    requires NodeInv(h, n) && m.RequestVote? && n.votedFor == None
    requires n' == n.(votedFor := Some(m.src)) && sent == [VoteResponse(n.id, m.src, n.currentTerm, true)]
    ensures var h' := Record(h, n, n', sent); NodeInv(h', n') && VotedFor(h', n.id, n.currentTerm, m.src)
  {
    var h' := Record(h, n, n', sent);
    QuietLeaderRecord(h, n, n', sent);
    SameLogs(h, h', n.id, n.currentTerm, n.log);
    assert LogInv(h', n');
    assert VoteInv(h', n');
    if n.role == Candidate {
      forall v | v in n'.votesReceived ensures VotedFor(h', v, n.currentTerm, n.id) {
        assert VotedFor(h, v, n.currentTerm, n.id);
      }
    }
    assert RoleInv(h', n');
  }

  lemma GrantSound(h: History, n: NodeState, m: Message)
    requires HistoryInv(h) && NodeInv(h, n)
    requires m.RequestVote? && MessageInv(h, m) && m.term == n.currentTerm && m.dst == n.id && GrantsVote(n, m)
    ensures Sound(h, n, n.(votedFor := Some(m.src)), [VoteResponse(n.id, m.src, n.currentTerm, true)])
  {
    hide HistoryInv, Evolves, LogInv;
    var n' := n.(votedFor := Some(m.src));
    var sent := [VoteResponse(n.id, m.src, n.currentTerm, true)];
    if n.votedFor == None {
      GrantHistory(h, n, m, n', sent);
      GrantNode(h, n, m, n', sent);
    } else {
      assert n' == n;
      QuietSound(h, n, n', sent);
    }
  }

  // ---------- counting a vote ----------

  lemma TallySound(h: History, n: NodeState, m: Message)
    requires HistoryInv(h) && NodeInv(h, n) && n.role == Candidate
    requires m.VoteResponse? && m.granted && MessageInv(h, m) && m.term == n.currentTerm && m.dst == n.id
    ensures Sound(h, n, n.(votesReceived := n.votesReceived + {m.src}), [])
  {
    hide HistoryInv, Evolves;
    var n' := n.(votesReceived := n.votesReceived + {m.src});
    var h' := Record(h, n, n', []);
    assert h' == h;
    CommitsOnly(h, h', n.id);
    assert CandidateInv(h', n');
    assert LogInv(h', n');
  }
}
