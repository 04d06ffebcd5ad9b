/** Growing the leader's log and copying it: why logs stay matched and acknowledged entries stay put. */
module RaftReplication {
  import opened Quorums
  import opened LockCommands
  import opened RaftTypes
  import opened RaftLog
  import opened RaftHandlers
  import opened RaftHistory
  import opened RaftInvariant
  import opened RaftElection

  // ---------- a leader appends ----------

  function Appended(n: NodeState, command: Command): NodeState {
    n.(log := n.log + [LogEntry(n.currentTerm, |n.log|, command)])
  }

  function Extended(h: History, n': NodeState): History
    requires n'.currentTerm in h.leaders
  {
    h.(leaders := h.leaders[n'.currentTerm := h.leaders[n'.currentTerm].(log := n'.log)],
       acks := h.acks[Ballot(n'.id, n'.currentTerm) := |n'.log|])
  }

  lemma ExtendedEvolves(h: History, n: NodeState, command: Command)
    requires n.id in h.terms && h.terms[n.id] == n.currentTerm && n.role == Leader && RoleInv(h, n)
    ensures Evolves(h, Extended(h, Appended(n, command)), n.id)
  {
    var n' := Appended(n, command);
    var h' := Extended(h, n');
    forall t | t in h.leaders
      ensures Grows(LeaderLog(h, t), LeaderLog(h', t), t)
      ensures h.leaders[t].id != n.id ==> LeaderLog(h', t) == LeaderLog(h, t)
    {
      if t != n.currentTerm {
        assert LeaderLog(h', t) == LeaderLog(h, t);
      }
    }
    assert LeadersKept(h, h', n.id);
    assert AcksRise(h, h', n.id);
  }

  lemma AppendedLog(h: History, n: NodeState, command: Command)
    requires Good(h, n.log) && WellFormed(n.log, n.currentTerm) && n.role == Leader && RoleInv(h, n)
    requires 1 <= n.currentTerm && Evolves(h, Extended(h, Appended(n, command)), n.id)
    ensures WellFormed(Appended(n, command).log, n.currentTerm)
    ensures Good(Extended(h, Appended(n, command)), Appended(n, command).log)
  {
    hide Evolves;
    var n' := Appended(n, command);
    var h' := Extended(h, n');
    GoodEvolves(h, h', n.id, n.log);
    forall i | 0 <= i < |n'.log| ensures Agree(n'.log, LeaderLog(h', n'.log[i].term), i + 1) {
      if i < |n.log| {
        assert Agree(n.log, LeaderLog(h', n.log[i].term), i + 1);
        assert n'.log[..i + 1] == n.log[..i + 1];
      }
    }
  }

  lemma LedTermIsPositive(h: History, t: nat)
    requires HistoryInv(h) && t in h.leaders
    ensures 1 <= t
  {
    assert LeaderOk(h, t);
    assert CandidacyOk(h, Ballot(h.leaders[t].id, t));
  }

  /** Once a later leader is elected, a majority can no longer acknowledge new entries of an earlier term. */
  lemma NewEntryNotChoosable(h: History, n: NodeState, command: Command, u: nat)
    requires HistoryInv(h) && NodeInv(h, n) && n.role == Leader
    requires n.currentTerm < u && u in h.leaders
    ensures !Choosable(Extended(h, Appended(n, command)), n.currentTerm, |n.log|)
  {
    var h' := Extended(h, Appended(n, command));
    forall q | IsQuorum(h'.terms.Keys, q) ensures !Supports(h', q, n.currentTerm, |n.log|) {
      MajorityMovedOn(h, n, command, u, q);
    }
  }

  lemma MajorityMovedOn(h: History, n: NodeState, command: Command, u: nat, q: set<NodeId>)
    requires HistoryInv(h) && NodeInv(h, n) && n.role == Leader
    requires n.currentTerm < u && u in h.leaders && IsQuorum(h.terms.Keys, q)
    ensures !Supports(Extended(h, Appended(n, command)), q, n.currentTerm, |n.log|)
  {
    var h' := Extended(h, Appended(n, command));
    assert LeaderOk(h, u);
    var v := QuorumsIntersect(h.terms.Keys, q, h.leaders[u].voters);
    assert VotedFor(h, v, u, h.leaders[u].id);
    LateVoterHasNotAcked(h, n, v, u);
    assert Ack(h', v, n.currentTerm) == Ack(h, v, n.currentTerm) && Term(h', v) == Term(h, v);
  }

  lemma LateVoterHasNotAcked(h: History, n: NodeState, v: NodeId, u: nat)
    requires HistoryInv(h) && NodeInv(h, n) && n.role == Leader
    requires n.currentTerm < u && Ballot(v, u) in h.votes
    ensures v != n.id && Term(h, v) > n.currentTerm && Ack(h, v, n.currentTerm) <= |n.log|
  {
    assert VoteOk(h, Ballot(v, u));
    var b := Ballot(v, n.currentTerm);
    assert b in h.acks ==> AckOk(h, b);
  }

  lemma ExtendedComplete(h: History, n: NodeState, command: Command)
    requires HistoryInv(h) && NodeInv(h, n) && n.role == Leader
    ensures NewlyComplete(h, Extended(h, Appended(n, command)))
  {
    var h' := Extended(h, Appended(n, command));
    forall t: nat, i: nat, u: nat | t < u && u in h'.leaders && Choosable(h', t, i)
      ensures u in h.leaders && Has(LeaderLog(h, t), t, i)
    {
      ChoosableIsOld(h, n, command, t, i, u);
    }
  }

  lemma ChoosableIsOld(h: History, n: NodeState, command: Command, t: nat, i: nat, u: nat)
    requires HistoryInv(h) && NodeInv(h, n) && n.role == Leader
    requires t < u && u in h.leaders && Choosable(Extended(h, Appended(n, command)), t, i)
    ensures Has(LeaderLog(h, t), t, i)
  {
    var h' := Extended(h, Appended(n, command));
    assert Has(LeaderLog(h', t), t, i);
    if t == n.currentTerm {
      NewEntryNotChoosable(h, n, command, u);
    } else {
      assert LeaderLog(h', t) == LeaderLog(h, t);
    }
  }

  lemma ExtendedLeaderOk(h: History, n: NodeState, command: Command)
    requires HistoryInv(h) && NodeInv(h, n) && n.role == Leader
    ensures LeaderOk(Extended(h, Appended(n, command)), n.currentTerm)
  {
    var h' := Extended(h, Appended(n, command));
    LedTermIsPositive(h, n.currentTerm);
    ExtendedEvolves(h, n, command);
    AppendedLog(h, n, command);
    assert LeaderOk(h, n.currentTerm);
    forall v | v in h'.leaders[n.currentTerm].voters ensures VotedFor(h', v, n.currentTerm, n.id) {
      assert VotedFor(h, v, n.currentTerm, n.id);
    }
  }

  lemma ExtendedNews(h: History, n: NodeState, command: Command)
    requires n.id in h.terms && h.terms[n.id] == n.currentTerm && n.role == Leader && RoleInv(h, n)
    requires LeaderOk(Extended(h, Appended(n, command)), n.currentTerm)
    requires NewlyComplete(h, Extended(h, Appended(n, command)))
    ensures NewItemsOk(h, Extended(h, Appended(n, command)))
  {
    var h' := Extended(h, Appended(n, command));
    assert forall t | t != n.currentTerm :: LeaderLog(h', t) == LeaderLog(h, t);
    forall b | b in h'.acks && (b !in h.acks || Ack(h', b.node, b.term) != Ack(h, b.node, b.term))
      ensures AckOk(h', b)
    {
      assert b == Ballot(n.id, n.currentTerm);
    }
  }

  lemma ExtendedHistory(h: History, n: NodeState, command: Command)
    requires HistoryInv(h) && NodeInv(h, n) && n.role == Leader
    ensures var h' := Extended(h, Appended(n, command)); Evolves(h, h', n.id) && HistoryInv(h')
  {
    ExtendedEvolves(h, n, command);
    ExtendedLeaderOk(h, n, command);
    ExtendedComplete(h, n, command);
    ExtendedNews(h, n, command);
    HistoryEvolves(h, Extended(h, Appended(n, command)), n.id);
  }

  lemma RetainsMore(h: History, v: NodeId, upTo: nat, log: Log, longer: Log)
    requires Retains(h, v, upTo, log) && |log| <= |longer| && longer[..|log|] == log
    ensures Retains(h, v, upTo, longer)
  {
  }

  lemma ExtendedNode(h: History, n: NodeState, command: Command)
    requires HistoryInv(h) && NodeInv(h, n) && n.role == Leader
    requires Evolves(h, Extended(h, Appended(n, command)), n.id)
    ensures NodeInv(Extended(h, Appended(n, command)), Appended(n, command))
  {
    var n' := Appended(n, command);
    var h' := Extended(h, n');
    LedTermIsPositive(h, n.currentTerm);
    AppendedLog(h, n, command);
    RetainsEvolves(h, h', n.id, n.id, n.currentTerm, n.log);
    RetainsMore(h', n.id, n.currentTerm, n.log, n'.log);
    assert LogInv(h', n');
    assert RoleInv(h', n') && VoteInv(h', n');
  }

  lemma ExtendedRecord(h: History, n: NodeState, command: Command, sent: seq<Message>)
    requires n.role == Leader && n.id in h.terms && h.terms[n.id] == n.currentTerm
    requires VoteInv(h, n) && RoleInv(h, n)
    ensures Record(h, n, Appended(n, command), sent) == Extended(h, Appended(n, command))
  {
    var h' := Record(h, n, Appended(n, command), sent);
    assert h'.terms == h.terms;
    assert h'.votes == h.votes;
  }

  lemma AppendSound(h: History, n: NodeState, command: Command)
    requires HistoryInv(h) && NodeInv(h, n) && n.role == Leader
    ensures Sound(h, n, Appended(n, command), Heartbeats(Appended(n, command)))
  {
    var n' := Appended(n, command);
    ExtendedHistory(h, n, command);
    ExtendedNode(h, n, command);
    HeartbeatsOk(Extended(h, n'), n');
    ExtendedRecord(h, n, command, Heartbeats(n'));
  }

  // ---------- a follower merges a batch ----------

  lemma GoodPrefix(h: History, log: Log, n: nat)
    requires Good(h, log) && n <= |log|
    ensures Good(h, log[..n])
  {
  }

  lemma WellFormedPrefix(log: Log, t: nat, n: nat)
    requires WellFormed(log, t) && n <= |log|
    ensures WellFormed(log[..n], t)
  {
  }

  /** The same term at the end of a stretch that follows an agreed prefix means agreement on the whole. */
  lemma MatchedStretch(h: History, log: Log, reference: Log, at: nat, k: nat)
    requires Good(h, log) && Good(h, reference) && Agree(log, reference, at)
    requires at + k <= |log| && at + k <= |reference|
    requires k > 0 ==> log[at + k - 1].term == reference[at + k - 1].term
    ensures Agree(log, reference, at + k)
  {
  }

  predicate IsPiece(log: Log, at: nat, entries: Log) {
    at + |entries| <= |log| && entries == log[at..at + |entries|]
  }

  lemma PieceAt(log: Log, at: nat, entries: Log, i: nat)
    requires IsPiece(log, at, entries) && i < |entries|
    ensures at + |entries| <= |log| && entries[i] == log[at + i]
  {
  }

  lemma CutAndJoined(log: Log, reference: Log, at: nat, entries: Log, k: nat)
    requires IsPiece(reference, at, entries) && k <= |entries| && Agree(log, reference, at + k)
    ensures at + |entries| <= |reference| && log[..at + k] + entries[k..] == reference[..at + |entries|]
  {
    assert reference[..at + |entries|] == reference[..at + k] + reference[at + k..at + |entries|];
  }

  /** The merge either changes nothing or leaves exactly the leader's log up to the end of the batch. */
  lemma MergedWithLeader(h: History, log: Log, reference: Log, at: nat, entries: Log)
    requires at <= |log| && Good(h, log) && Good(h, reference) && Agree(log, reference, at)
    requires IsPiece(reference, at, entries)
    ensures at + |entries| <= |reference|
    ensures Agree(Merged(log, at, entries), reference, at + |entries|)
    ensures Merged(log, at, entries) == log || Merged(log, at, entries) == reference[..at + |entries|]
  {
    hide Good, Agree, IsPiece, FirstNew;
    var k := FirstNew(log, at, entries);
    CutAndJoined(log, reference, at, entries, 0);
    if k > 0 {
      PieceAt(reference, at, entries, k - 1);
    }
    MatchedStretch(h, log, reference, at, k);
    if k < |entries| {
      CutAndJoined(log, reference, at, entries, k);
      PrefixAgrees(reference, at + |entries|);
    }
  }

  lemma PrefixAgrees(reference: Log, n: nat)
    requires n <= |reference|
    ensures Agree(reference[..n], reference, n)
  {
  }

  /** What both the follower and the leader have survives the merge. */
  lemma MergeKeepsEntry(h: History, log: Log, reference: Log, at: nat, entries: Log, t: nat, i: nat)
    requires Good(h, log) && Good(h, reference) && at <= |log|
    requires IsPiece(reference, at, entries)
    requires Has(log, t, i) && Has(reference, t, i)
    ensures Has(Merged(log, at, entries), t, i)
  {
    LogMatching(h, log, reference, i);
    MergeKeepsAgreement(log, at, entries, reference, i + 1);
    assert Merged(log, at, entries)[i] == Merged(log, at, entries)[..i + 1][i] == reference[..i + 1][i];
  }

  lemma MergeRetains(h: History, v: NodeId, t: nat, log: Log, at: nat, entries: Log)
    requires t in h.leaders && Good(h, log) && Good(h, LeaderLog(h, t)) && at <= |log|
    requires IsPiece(LeaderLog(h, t), at, entries)
    requires Retains(h, v, t, log)
    ensures Retains(h, v, t, Merged(log, at, entries))
  {
    forall s: nat, i: nat | s < t && i < Ack(h, v, s) && Has(LeaderLog(h, s), s, i) && LaterLeadersHave(h, s, i, t)
      ensures Has(Merged(log, at, entries), s, i)
    {
      assert Has(log, s, i);
      assert Has(LeaderLog(h, t), s, i);
      MergeKeepsEntry(h, log, LeaderLog(h, t), at, entries, s, i);
    }
  }

  predicate HasPrevious(log: Log, prev: Index, prevTerm: nat) {
    prev >= 0 ==> prev < |log| && log[prev].term == prevTerm
  }

  /** The previous-entry check makes the follower's log agree with the leader's up to there. */
  lemma PreviousAgrees(h: History, log: Log, reference: Log, prev: Index, prevTerm: nat)
    requires Good(h, log) && Good(h, reference)
    requires PrevMatches(log, prev, prevTerm) && HasPrevious(reference, prev, prevTerm)
    ensures Agree(log, reference, prev + 1)
  {
    hide Good;
    if prev >= 0 {
      LogMatching(h, log, reference, prev);
    }
  }

  lemma PreviousIsReal(log: Log, t: nat, prev: Index, prevTerm: nat)
    requires WellFormed(log, t) && PrevMatches(log, prev, prevTerm)
    ensures prev >= 0 ==> prevTerm >= 1
  {
  }

  /** A message with a real previous entry, or none, carries the piece of the log that follows it. */
  lemma NamesPiece(log: Log, m: Message)
    requires m.AppendEntries? && EntriesFrom(log, m) && (m.prevLogIndex >= 0 ==> m.prevLogTerm >= 1)
    ensures IsPiece(log, m.prevLogIndex + 1, m.entries)
    ensures HasPrevious(log, m.prevLogIndex, m.prevLogTerm)
  {
  }

  lemma AcceptedIsPiece(log: Log, reference: Log, m: Message)
    requires m.AppendEntries? && WellFormed(log, m.term) && EntriesFrom(reference, m)
    requires PrevMatches(log, m.prevLogIndex, m.prevLogTerm)
    ensures IsPiece(reference, m.prevLogIndex + 1, m.entries)
    ensures HasPrevious(reference, m.prevLogIndex, m.prevLogTerm)
  {
    hide WellFormed, EntriesFrom, PrevMatches, IsPiece, HasPrevious;
    PreviousIsReal(log, m.term, m.prevLogIndex, m.prevLogTerm);
    NamesPiece(reference, m);
  }

  lemma MergedIsGood(h: History, log: Log, reference: Log, t: nat, at: nat, entries: Log)
    requires Good(h, log) && WellFormed(log, t) && Good(h, reference) && WellFormed(reference, t)
    requires at <= |log| && Agree(log, reference, at)
    requires IsPiece(reference, at, entries)
    ensures var merged := Merged(log, at, entries);
            Good(h, merged) && WellFormed(merged, t) && Agree(merged, reference, at + |entries|)
  {
    hide Good, WellFormed, Agree, IsPiece, Merged;
    MergedWithLeader(h, log, reference, at, entries);
    if Merged(log, at, entries) != log {
      GoodPrefix(h, reference, at + |entries|);
      WellFormedPrefix(reference, t, at + |entries|);
    }
  }

  lemma MergedLogInv(h: History, n: NodeState, m: Message, merged: Log)
    requires LogInv(h, n) && m.AppendEntries? && m.term == n.currentTerm && m.term in h.leaders
    requires Good(h, LeaderLog(h, m.term)) && WellFormed(LeaderLog(h, m.term), m.term)
    requires EntriesFrom(LeaderLog(h, m.term), m)
    requires PrevMatches(n.log, m.prevLogIndex, m.prevLogTerm)
    requires merged == Merged(n.log, m.prevLogIndex + 1, m.entries)
    ensures LogInv(h, n.(log := merged))
    ensures Agree(merged, LeaderLog(h, m.term), m.prevLogIndex + 1 + |m.entries|)
  {
    hide Merged, Retains;
    var at := m.prevLogIndex + 1;
    var reference := LeaderLog(h, m.term);
    AcceptedIsPiece(n.log, reference, m);
    PreviousAgrees(h, n.log, reference, m.prevLogIndex, m.prevLogTerm);
    MergedIsGood(h, n.log, reference, m.term, at, m.entries);
    MergeRetains(h, n.id, m.term, n.log, at, m.entries);
    MergeKeepsAgreement(n.log, at, m.entries, reference, Ack(h, n.id, m.term));
  }

  function Acked(h: History, v: NodeId, t: nat, len: nat): History {
    h.(acks := h.acks[Ballot(v, t) := Max(Ack(h, v, t), len)])
  }

  lemma AckedHistory(h: History, n: NodeState, len: nat)
    requires HistoryInv(h) && n.id in h.terms && h.terms[n.id] == n.currentTerm
    requires n.currentTerm in h.leaders && len <= |LeaderLog(h, n.currentTerm)|
    ensures var h' := Acked(h, n.id, n.currentTerm, len); Evolves(h, h', n.id) && HistoryInv(h')
  {
    var h' := Acked(h, n.id, n.currentTerm, len);
    AckedEvolves(h, n.id, n.currentTerm, len);
    assert Ballot(n.id, n.currentTerm) in h.acks ==> AckOk(h, Ballot(n.id, n.currentTerm));
    AckedNews(h, n.id, n.currentTerm, len);
    HistoryEvolves(h, h', n.id);
  }

  lemma AckedEvolves(h: History, v: NodeId, t: nat, len: nat)
    requires v in h.terms && h.terms[v] == t
    ensures Evolves(h, Acked(h, v, t, len), v)
  {
    var h' := Acked(h, v, t, len);
    assert forall s :: LeaderLog(h', s) == LeaderLog(h, s);
    assert LeadersKept(h, h', v);
    assert AcksRise(h, h', v);
  }

  lemma AckedNews(h: History, v: NodeId, t: nat, len: nat)
    requires v in h.terms && h.terms[v] == t && t in h.leaders && len <= |LeaderLog(h, t)|
    requires Ack(h, v, t) <= |LeaderLog(h, t)|
    ensures NewItemsOk(h, Acked(h, v, t, len))
  {
    var h' := Acked(h, v, t, len);
    assert forall s :: LeaderLog(h', s) == LeaderLog(h, s);
    forall b | b in h'.acks && (b !in h.acks || Ack(h', b.node, b.term) != Ack(h, b.node, b.term))
      ensures AckOk(h', b)
    {
      assert b == Ballot(v, t);
    }
  }

  lemma AckedLogInv(h: History, n: NodeState, len: nat)
    requires HistoryInv(h) && Evolves(h, Acked(h, n.id, n.currentTerm, len), n.id)
    requires LogInv(h, n) && n.currentTerm == Term(h, n.id)
    requires Agree(n.log, LeaderLog(h, n.currentTerm), len)
    ensures LogInv(Acked(h, n.id, n.currentTerm, len), n)
  {
    var h' := Acked(h, n.id, n.currentTerm, len);
    GoodEvolves(h, h', n.id, n.log);
    RetainsEvolves(h, h', n.id, n.id, n.currentTerm, n.log);
    assert LeaderLog(h', n.currentTerm) == LeaderLog(h, n.currentTerm);
    assert Ack(h', n.id, n.currentTerm) == Max(Ack(h, n.id, n.currentTerm), len);
  }

  /** A follower whose log has come to agree with the leader's on a stretch may acknowledge that stretch. */
  lemma AcceptSound(h: History, n: NodeState, merged: NodeState, n': NodeState, leader: NodeId, matched: Index)
    requires HistoryInv(h) && NodeInv(h, n) && n.role == Follower
    requires leader in h.terms && leader != n.id
    requires n.currentTerm in h.leaders && h.leaders[n.currentTerm].id == leader
    requires LogInv(h, merged) && merged == n.(log := merged.log) && Quiet(merged, n')
    requires Agree(merged.log, LeaderLog(h, n.currentTerm), matched + 1)
    ensures Sound(h, n, n', [AppendResponse(n.id, leader, n.currentTerm, true, matched)])
  {
    hide HistoryInv, Evolves, LogInv;
    var sent := [AppendResponse(n.id, leader, n.currentTerm, true, matched)];
    var h' := Acked(h, n.id, n.currentTerm, matched + 1);
    AckedHistory(h, n, matched + 1);
    AckedLogInv(h, merged, matched + 1);
    MergedNode(h, n, merged, n', matched + 1);
    MergedRecord(h, n, n', sent, matched + 1);
    assert MessageInv(h', sent[0]);
  }

  /** An AppendEntries that passes the check: the follower merges, acknowledges and may learn a commit. */
  lemma MergeSound(h: History, n: NodeState, m: Message, merged: Log, n': NodeState)
    requires HistoryInv(h) && NodeInv(h, n) && n.role == Follower
    requires m.AppendEntries? && MessageInv(h, m) && m.term == n.currentTerm && m.dst == n.id
    requires PrevMatches(n.log, m.prevLogIndex, m.prevLogTerm)
    requires merged == Merged(n.log, m.prevLogIndex + 1, m.entries)
    requires Quiet(n.(log := merged), n')
    ensures Sound(h, n, n', [AppendResponse(n.id, m.src, n.currentTerm, true, m.prevLogIndex + |m.entries|)])
  {
    hide Good, WellFormed, Merged, HistoryInv, LogInv, VoteInv, RoleInv, PeersOk, Sound, EntriesFrom, PrevMatches, Quiet, Agree;
    LedLogIsGood(h, m.term);
    MergedLogInv(h, n, m, merged);
    AcceptSound(h, n, n.(log := merged), n', m.src, m.prevLogIndex + |m.entries|);
  }

  lemma LedLogIsGood(h: History, t: nat)
    requires HistoryInv(h) && t in h.leaders
    ensures Good(h, LeaderLog(h, t)) && WellFormed(LeaderLog(h, t), t)
  {
    assert LeaderOk(h, t);
  }

  lemma MergedNode(h: History, n: NodeState, merged: NodeState, n': NodeState, len: nat)
    requires NodeInv(h, n) && n.role == Follower && merged == n.(log := merged.log) && Quiet(merged, n')
    requires LogInv(Acked(h, n.id, n.currentTerm, len), merged)
    ensures NodeInv(Acked(h, n.id, n.currentTerm, len), n')
  {
    var h' := Acked(h, n.id, n.currentTerm, len);
    assert RoleInv(h', n') && VoteInv(h', n');
    assert LogInv(h', n');
  }

  lemma MergedRecord(h: History, n: NodeState, n': NodeState, sent: seq<Message>, len: nat)
    requires n.id in h.terms && h.terms[n.id] == n.currentTerm && n.role == Follower
    requires n'.id == n.id && n'.currentTerm == n.currentTerm && n'.votedFor == n.votedFor && n'.role == Follower
    requires |sent| == 1 && sent[0].AppendResponse? && sent[0].success && sent[0].matchIndex + 1 == len
    ensures Acked(h, n.id, n.currentTerm, len) == Record(h, n, n', sent)
  {
    assert Record(h, n, n', sent).terms == h.terms;
    assert Record(h, n, n', sent).votes == h.votes;
  }
}
