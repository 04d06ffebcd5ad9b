/**
 * The handlers of a Raft node as functions of its state: what the methods of
 * class RaftNode must leave behind, with their loops in closed form.
 */
module RaftHandlers {
  import opened Options
  import opened Quorums
  import opened LockCommands
  import opened RaftTypes
  import opened RaftLog

  const BATCH: nat := 50

  function BecomeFollower(n: NodeState, term: nat): NodeState {
    if term > n.currentTerm then n.(currentTerm := term, votedFor := None, role := Follower)
    else n.(role := Follower)
  }

  function BecomeCandidate(n: NodeState): NodeState {
    n.(role := Candidate, currentTerm := n.currentTerm + 1, votedFor := Some(n.id), votesReceived := {n.id})
  }

  /** The same value under each of the keys. */
  function SetAll<V>(m: map<NodeId, V>, keys: seq<NodeId>, v: V): (r: map<NodeId, V>)
    ensures forall p | p in keys :: p in r && r[p] == v
    ensures forall p | p in r && p !in keys :: p in m && r[p] == m[p]
  {
    if keys == [] then m
    else
      var k := |keys| - 1;
      assert keys == keys[..k] + [keys[k]];
      SetAll(m, keys[..k], v)[keys[k] := v]
  }

  function BecomeLeader(n: NodeState): NodeState {
    n.(role := Leader,
       leaderId := Some(n.id),
       nextIndex := SetAll(n.nextIndex, n.peers, |n.log|),
       matchIndex := SetAll(n.matchIndex, n.peers, -1))
  }

  /** One message for each peer, in the order of the peer list. */
  function VoteRequests(n: NodeState): seq<Message> {
    seq(|n.peers|, i requires 0 <= i < |n.peers| =>
      RequestVote(n.id, n.peers[i], n.currentTerm, LastIndex(n.log), LastTerm(n.log)))
  }

  function Batch(log: Log, next: nat): Log {
    if next < |log| then log[next..if next + BATCH < |log| then next + BATCH else |log|] else []
  }

  function AppendEntriesFor(n: NodeState, peer: NodeId): Message {
    var next: int := if peer in n.nextIndex then n.nextIndex[peer] else 0;
    AppendEntries(n.id, peer, n.currentTerm, next - 1,
                  if 0 <= next - 1 < |n.log| then n.log[next - 1].term else 0,
                  Batch(n.log, next), n.commitIndex)
  }

  function Heartbeats(n: NodeState): seq<Message> {
    seq(|n.peers|, i requires 0 <= i < |n.peers| => AppendEntriesFor(n, n.peers[i]))
  }

  /** Election timeout of a follower or candidate. */
  function TimedOut(n: NodeState): Outcome {
    var candidate := BecomeCandidate(n);
    Outcome(candidate, VoteRequests(candidate))
  }

  /** The voter's side of the up-to-date check. */
  predicate UpToDate(lastTerm: nat, lastIndex: Index, log: Log) {
    lastTerm > LastTerm(log) || (lastTerm == LastTerm(log) && lastIndex >= LastIndex(log))
  }

  predicate GrantsVote(n: NodeState, m: Message)
    requires m.RequestVote?
  {
    && UpToDate(m.lastLogTerm, m.lastLogIndex, n.log)
    && (n.votedFor == None || n.votedFor == Some(m.src))
  }

  function OnRequestVote(n: NodeState, m: Message): Outcome
    requires m.RequestVote?
  {
    if m.term < n.currentTerm then
      Outcome(n, [VoteResponse(n.id, m.src, n.currentTerm, false)])
    else
      var n1 := if m.term > n.currentTerm then BecomeFollower(n, m.term) else n;
      if GrantsVote(n1, m) then
        Outcome(n1.(votedFor := Some(m.src)), [VoteResponse(n.id, m.src, n1.currentTerm, true)])
      else
        Outcome(n1, [VoteResponse(n.id, m.src, n1.currentTerm, false)])
  }

  function OnVoteResponse(n: NodeState, m: Message): Outcome
    requires m.VoteResponse?
  {
    if n.role != Candidate then Outcome(n, [])
    else if m.term > n.currentTerm then Outcome(BecomeFollower(n, m.term), [])
    else if m.term < n.currentTerm || !m.granted then Outcome(n, [])
    else
      var n1 := n.(votesReceived := n.votesReceived + {m.src});
      if |n1.votesReceived| >= Majority(|n.peers| + 1) then
        var leader := BecomeLeader(n1);
        Outcome(leader, Heartbeats(leader))
      else
        Outcome(n1, [])
  }

  /** Every command up to the commit index is handed to the callback, in log order. */
  function ApplyCommitted(n: NodeState): NodeState
    requires n.commitIndex < |n.log|
  {
    if n.lastApplied < n.commitIndex then
      n.(lastApplied := n.commitIndex,
         applied := n.applied + Commands(n.log[n.lastApplied + 1..n.commitIndex + 1]))
    else n
  }

  /** The previous-entry check of AppendEntries. */
  predicate PrevMatches(log: Log, prev: Index, prevTerm: nat) {
    prev == -1 || (prev < |log| && log[prev].term == prevTerm)
  }

  function Min(a: Index, b: Index): Index {
    if a <= b then a else b
  }

  function AdvanceCommit(n: NodeState, leaderCommit: Index): NodeState {
    if leaderCommit > n.commitIndex then
      ApplyCommitted(n.(commitIndex := Min(leaderCommit, LastIndex(n.log))))
    else n
  }

  function OnAppendEntries(n: NodeState, m: Message): Outcome
    requires m.AppendEntries?
  {
    if m.term < n.currentTerm then
      Outcome(n, [AppendResponse(n.id, m.src, n.currentTerm, false, -1)])
    else
      var n1 := BecomeFollower(n, m.term).(leaderId := Some(m.src));
      if PrevMatches(n1.log, m.prevLogIndex, m.prevLogTerm) then
        var n2 := n1.(log := Merged(n1.log, m.prevLogIndex + 1, m.entries));
        Outcome(AdvanceCommit(n2, m.leaderCommit),
                [AppendResponse(n.id, m.src, n1.currentTerm, true, m.prevLogIndex + |m.entries|)])
      else
        Outcome(n1, [AppendResponse(n.id, m.src, n1.currentTerm, false, -1)])
  }

  function Replicators(n: NodeState, i: nat): set<NodeId> {
    set p | p in n.peers && p in n.matchIndex && n.matchIndex[p] >= i
  }

  /** Entry i is of the leader's own term and enough peers have acknowledged it. */
  predicate Committable(n: NodeState, i: nat) {
    && i < |n.log|
    && n.log[i].term == n.currentTerm
    && 1 + |Replicators(n, i)| >= Majority(|n.peers| + 1)
  }

  /** The highest committable index above the commit index and at most i, or the commit index itself. */
  function CommitTarget(n: NodeState, i: Index): (target: Index)
    requires i < |n.log|
    ensures target == n.commitIndex || (n.commitIndex < target <= i && Committable(n, target))
    ensures forall j | n.commitIndex < j <= i && target < j :: !Committable(n, j)
    decreases i + 1
  {
    if i <= n.commitIndex then n.commitIndex
    else if Committable(n, i) then i
    else CommitTarget(n, i - 1)
  }

  function UpdateCommitIndex(n: NodeState): NodeState {
    var target := CommitTarget(n, LastIndex(n.log));
    if target > n.commitIndex then ApplyCommitted(n.(commitIndex := target)) else n
  }

  function OnAppendResponse(n: NodeState, m: Message): Outcome
    requires m.AppendResponse?
  {
    if n.role != Leader then Outcome(n, [])
    else if m.term > n.currentTerm then Outcome(BecomeFollower(n, m.term), [])
    else if m.success then
      Outcome(UpdateCommitIndex(n.(matchIndex := n.matchIndex[m.src := m.matchIndex],
                                   nextIndex := n.nextIndex[m.src := m.matchIndex + 1])), [])
    else
      var next := if m.src in n.nextIndex then n.nextIndex[m.src] else 0;
      Outcome(n.(nextIndex := n.nextIndex[m.src := if next > 0 then next - 1 else 0]), [])
  }

  /** A leader appends the command and sends it out at once; any other node refuses. */
  function Submitted(n: NodeState, command: Command): Outcome {
    if n.role != Leader then Outcome(n, [])
    else
      var n1 := n.(log := n.log + [LogEntry(n.currentTerm, |n.log|, command)]);
      Outcome(n1, Heartbeats(n1))
  }

  function OnMessage(n: NodeState, m: Message): Outcome {
    match m
    case RequestVote(_, _, _, _, _) => OnRequestVote(n, m)
    case VoteResponse(_, _, _, _) => OnVoteResponse(n, m)
    case AppendEntries(_, _, _, _, _, _, _) => OnAppendEntries(n, m)
    case AppendResponse(_, _, _, _, _) => OnAppendResponse(n, m)
  }
}
