/** A Raft node as the program runs it: fields changed in place, loops over logs and peers. */
module RaftProgram {
  import opened Options
  import opened Quorums
  import opened LockCommands
  import opened RaftTypes
  import opened RaftLog
  import opened RaftHandlers

  class RaftNode {
    const id: NodeId
    const peers: seq<NodeId>
    var currentTerm: nat
    var votedFor: Option<NodeId>
    var log: Log
    var role: Role
    var commitIndex: Index
    var lastApplied: Index
    var leaderId: Option<NodeId>
    var nextIndex: map<NodeId, nat>
    var matchIndex: map<NodeId, Index>
    var votesReceived: set<NodeId>
    var applied: seq<Command>

    /** The abstract value of the object. */
    ghost function State(): NodeState
      reads this
    {
      NodeState(id, peers, currentTerm, votedFor, log, role, commitIndex, lastApplied,
                leaderId, nextIndex, matchIndex, votesReceived, applied)
    }

    ghost predicate DistinctPeers() {
      forall i, j | 0 <= i < j < |peers| :: peers[i] != peers[j]
    }

    constructor (id: NodeId, peers: seq<NodeId>)
      ensures State() == Fresh(id, peers)
    {
      this.id, this.peers := id, peers;
      currentTerm, votedFor, log, role := 0, None, [], Follower;
      commitIndex, lastApplied, leaderId := -1, -1, None;
      nextIndex, matchIndex, votesReceived, applied := map[], map[], {}, [];
    }

    method StepDown(term: nat)
      modifies this
      ensures State() == BecomeFollower(old(State()), term)
    {
      if term > currentTerm {
        currentTerm := term;
        votedFor := None;
      }
      role := Follower;
    }

    method StartCandidacy()
      modifies this
      ensures State() == BecomeCandidate(old(State()))
    {
      role := Candidate;
      currentTerm := currentTerm + 1;
      votedFor := Some(id);
      votesReceived := {id};
    }

    method TakeLeadership()
      modifies this
      ensures State() == BecomeLeader(old(State()))
    {
      role := Leader;
      leaderId := Some(id);
      for k := 0 to |peers|
        invariant State() == old(State()).(role := Leader, leaderId := Some(id),
                                           nextIndex := nextIndex, matchIndex := matchIndex)
        invariant nextIndex == SetAll(old(nextIndex), peers[..k], |log|)
        invariant matchIndex == SetAll(old(matchIndex), peers[..k], -1)
      {
        assert peers[..k + 1][..k] == peers[..k];
        nextIndex := nextIndex[peers[k] := LastIndex(log) + 1];
        matchIndex := matchIndex[peers[k] := -1];
      }
      assert peers[..|peers|] == peers;
    }

    method StartElection() returns (sent: seq<Message>)
      ensures sent == VoteRequests(State())
    {
      sent := [];
      for k := 0 to |peers|
        invariant sent == VoteRequests(State())[..k]
      {
        sent := sent + [RequestVote(id, peers[k], currentTerm, LastIndex(log), LastTerm(log))];
      }
    }

    /** The election deadline has passed. */
    method Tick() returns (sent: seq<Message>)
      modifies this
      ensures Outcome(State(), sent) == TimedOut(old(State()))
    {
      StartCandidacy();
      sent := StartElection();
    }

    method HandleRequestVote(m: Message) returns (sent: seq<Message>)
      requires m.RequestVote?
      modifies this
      ensures Outcome(State(), sent) == OnRequestVote(old(State()), m)
    {
      var granted := false;
      if m.term >= currentTerm {
        if m.term > currentTerm {
          StepDown(m.term);
        }
        var logOk := m.lastLogTerm > LastTerm(log)
                     || (m.lastLogTerm == LastTerm(log) && m.lastLogIndex >= LastIndex(log));
        var alreadyVoted := votedFor != None && votedFor != Some(m.src);
        if logOk && !alreadyVoted {
          votedFor := Some(m.src);
          granted := true;
        }
      }
      sent := [VoteResponse(id, m.src, currentTerm, granted)];
    }

    method HandleVoteResponse(m: Message) returns (sent: seq<Message>)
      requires m.VoteResponse?
      modifies this
      ensures Outcome(State(), sent) == OnVoteResponse(old(State()), m)
    {
      sent := [];
      if role != Candidate {
        return;
      }
      if m.term > currentTerm {
        StepDown(m.term);
        return;
      }
      if m.term < currentTerm {
        return;
      }
      if m.granted {
        votesReceived := votesReceived + {m.src};
        if |votesReceived| >= Majority(|peers| + 1) {
          TakeLeadership();
          sent := BroadcastHeartbeat();
        }
      }
    }

    method SendAppendEntries(peer: NodeId) returns (message: Message)
      ensures message == AppendEntriesFor(State(), peer)
    {
      var next := if peer in nextIndex then nextIndex[peer] else 0;
      var prevTerm := 0;
      if 0 <= next - 1 < |log| {
        prevTerm := log[next - 1].term;
      }
      var entries := [];
      if next < |log| {
        entries := log[next..if next + BATCH < |log| then next + BATCH else |log|];
      }
      message := AppendEntries(id, peer, currentTerm, next - 1, prevTerm, entries, commitIndex);
    }

    method BroadcastHeartbeat() returns (sent: seq<Message>)
      ensures sent == Heartbeats(State())
    {
      sent := [];
      for k := 0 to |peers|
        invariant sent == Heartbeats(State())[..k]
      {
        var message := SendAppendEntries(peers[k]);
        sent := sent + [message];
      }
    }

    /** Truncates conflicting entries and appends new ones, entry by entry. */
    method MergeEntries(at: nat, entries: Log)
      requires at <= |log|
      modifies this`log
      ensures State() == old(State()).(log := Merged(old(log), at, entries))
    {
      hide FirstNew, Merged;
      ghost var start := log;
      ghost var k := FirstNew(start, at, entries);
      for i := 0 to |entries|
        invariant log == if i <= k then start else start[..at + k] + entries[k..i]
      {
        var pos := at + i;
        MergedNext(start, at, entries, i);
        if pos < |log| {
          if log[pos].term != entries[i].term {
            log := log[..pos];
            log := log + [LogEntry(entries[i].term, entries[i].index, entries[i].command)];
          }
        } else {
          log := log + [LogEntry(entries[i].term, entries[i].index, entries[i].command)];
        }
      }
      MergedLast(start, at, entries);
    }

    method ApplyEntries()
      requires commitIndex < |log|
      modifies this`lastApplied, this`applied
      ensures State() == ApplyCommitted(old(State()))
    {
      ghost var first := lastApplied + 1;
      if lastApplied >= commitIndex {
        return;
      }
      while lastApplied < commitIndex
        invariant old(lastApplied) <= lastApplied <= commitIndex
        invariant applied == old(applied) + Commands(log[first..lastApplied + 1])
      {
        lastApplied := lastApplied + 1;
        OneMoreCommand(log, first, lastApplied);
        applied := applied + [log[lastApplied].command];
      }
    }

    method LearnCommitIndex(leaderCommit: Index)
      modifies this`commitIndex, this`lastApplied, this`applied
      ensures State() == AdvanceCommit(old(State()), leaderCommit)
    {
      if leaderCommit > commitIndex {
        commitIndex := Min(leaderCommit, LastIndex(log));
        ApplyEntries();
      }
    }

    /** The part of the handler that runs once the previous entry has been found. */
    method AcceptBatch(m: Message) returns (matched: Index)
      requires m.AppendEntries? && m.prevLogIndex < |log|
      modifies this`log, this`commitIndex, this`lastApplied, this`applied
      ensures State() == AdvanceCommit(old(State()).(log := Merged(old(log), m.prevLogIndex + 1, m.entries)), m.leaderCommit)
      ensures matched == m.prevLogIndex + |m.entries|
    {
      MergeEntries(m.prevLogIndex + 1, m.entries);
      matched := m.prevLogIndex + |m.entries|;
      LearnCommitIndex(m.leaderCommit);
    }

    method HandleAppendEntries(m: Message) returns (sent: seq<Message>)
      requires m.AppendEntries?
      modifies this
      ensures Outcome(State(), sent) == OnAppendEntries(old(State()), m)
    {
      hide Merged, AdvanceCommit;
      var success := false;
      var matched: Index := -1;
      if m.term >= currentTerm {
        if m.term > currentTerm {
          StepDown(m.term);
        }
        role := Follower;
        leaderId := Some(m.src);
        assert State() == BecomeFollower(old(State()), m.term).(leaderId := Some(m.src));
        if m.prevLogIndex == -1 || (m.prevLogIndex < |log| && log[m.prevLogIndex].term == m.prevLogTerm) {
          success := true;
          matched := AcceptBatch(m);
        }
      }
      sent := [AppendResponse(id, m.src, currentTerm, success, matched)];
    }

    /** Counts this node and every peer whose match index has reached i. */
    method CountReplicas(i: nat) returns (count: nat)
      requires DistinctPeers()
      ensures count == 1 + |Replicators(State(), i)|
    {
      count := 1;
      ghost var counted: set<NodeId> := {};
      for k := 0 to |peers|
        invariant counted == set p | p in peers[..k] && p in matchIndex && matchIndex[p] >= i
        invariant count == 1 + |counted|
      {
        assert peers[..k + 1] == peers[..k] + [peers[k]];
        assert peers[k] !in counted;
        if peers[k] in matchIndex && matchIndex[peers[k]] >= i {
          count := count + 1;
          counted := counted + {peers[k]};
        }
      }
      assert peers[..|peers|] == peers;
      assert counted == Replicators(State(), i);
    }

    method RecomputeCommitIndex()
      requires DistinctPeers()
      modifies this
      ensures State() == UpdateCommitIndex(old(State()))
    {
      var n := LastIndex(log);
      while n > commitIndex
        invariant -1 <= n < |log|
        invariant State() == old(State())
        invariant CommitTarget(State(), LastIndex(log)) == CommitTarget(State(), n)
        decreases n + 1
      {
        if log[n].term == currentTerm {
          var count := CountReplicas(n);
          if count >= Majority(|peers| + 1) {
            commitIndex := n;
            ApplyEntries();
            return;
          }
        }
        n := n - 1;
      }
    }

    method HandleAppendResponse(m: Message) returns (sent: seq<Message>)
      requires m.AppendResponse? && DistinctPeers()
      modifies this
      ensures Outcome(State(), sent) == OnAppendResponse(old(State()), m)
    {
      sent := [];
      if role != Leader {
        return;
      }
      if m.term > currentTerm {
        StepDown(m.term);
        return;
      }
      if m.success {
        matchIndex := matchIndex[m.src := m.matchIndex];
        nextIndex := nextIndex[m.src := m.matchIndex + 1];
        RecomputeCommitIndex();
      } else {
        var next := if m.src in nextIndex then nextIndex[m.src] else 0;
        nextIndex := nextIndex[m.src := if next > 0 then next - 1 else 0];
      }
    }

    method Submit(command: Command) returns (sent: seq<Message>)
      modifies this
      ensures Outcome(State(), sent) == Submitted(old(State()), command)
    {
      sent := [];
      if role != Leader {
        return;
      }
      log := log + [LogEntry(currentTerm, |log|, command)];
      sent := BroadcastHeartbeat();
    }
  }

  /** What the log must be after i entries of the batch, and after one more. */
  lemma MergedNext(start: Log, at: nat, entries: Log, i: nat)
    requires at <= |start| && i < |entries|
    ensures var k := FirstNew(start, at, entries);
            && LogEntry(entries[i].term, entries[i].index, entries[i].command) == entries[i]
            && (i < k ==> at + i < |start| && start[at + i].term == entries[i].term)
            && (i == k && at + k < |start| ==> start[at + k].term != entries[k].term)
            && (i == k ==> start[..at + k] + [entries[i]] == start[..at + k] + entries[k..i + 1])
            && (i > k ==> |start[..at + k] + entries[k..i]| == at + i)
            && (i > k ==> start[..at + k] + entries[k..i] + [entries[i]] == start[..at + k] + entries[k..i + 1])
  {
  }

  lemma MergedLast(start: Log, at: nat, entries: Log)
    requires at <= |start|
    ensures var k := FirstNew(start, at, entries);
            Merged(start, at, entries) == if |entries| <= k then start else start[..at + k] + entries[k..|entries|]
  {
  }

  lemma OneMoreCommand(log: Log, first: nat, next: nat)
    requires first <= next < |log|
    ensures Commands(log[first..next + 1]) == Commands(log[first..next]) + [log[next].command]
  {
  }
}
