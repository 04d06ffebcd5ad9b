/** State of one Raft node and the messages it exchanges. */
module RaftTypes {
  import opened Options
  import opened Quorums
  import opened LockCommands

  /** Log positions; -1 stands for "before the first entry". */
  type Index = i: int | -1 <= i witness -1

  datatype Role = Follower | Candidate | Leader

  datatype LogEntry = LogEntry(term: nat, index: nat, command: Command)

  type Log = seq<LogEntry>

  /**
   * The fields of one node. `applied` lists the commands handed to the apply
   * callback so far; the source keeps no such list, it only advances lastApplied.
   */
  datatype NodeState = NodeState(
    id: NodeId,
    peers: seq<NodeId>,
    currentTerm: nat,
    votedFor: Option<NodeId>,
    log: Log,
    role: Role,
    commitIndex: Index,
    lastApplied: Index,
    leaderId: Option<NodeId>,
    nextIndex: map<NodeId, nat>,
    matchIndex: map<NodeId, Index>,
    votesReceived: set<NodeId>,
    applied: seq<Command>)

  /** voter_id, leader_id and follower_id in the source's payloads always equal src. */
  datatype Message =
    | RequestVote(src: NodeId, dst: NodeId, term: nat, lastLogIndex: Index, lastLogTerm: nat)
    | VoteResponse(src: NodeId, dst: NodeId, term: nat, granted: bool)
    | AppendEntries(src: NodeId, dst: NodeId, term: nat, prevLogIndex: Index, prevLogTerm: nat,
                    entries: Log, leaderCommit: Index)
    | AppendResponse(src: NodeId, dst: NodeId, term: nat, success: bool, matchIndex: Index)

  /** What a handler leaves behind: the new node state and the messages sent, in order. */
  datatype Outcome = Outcome(node: NodeState, sent: seq<Message>)

  function Fresh(id: NodeId, peers: seq<NodeId>): NodeState {
    NodeState(id, peers, 0, None, [], Follower, -1, -1, None, map[], map[], {}, [])
  }

  function LastIndex(log: Log): Index {
    |log| - 1
  }

  function LastTerm(log: Log): nat {
    if log == [] then 0 else log[|log| - 1].term
  }

  function Commands(log: Log): (cs: seq<Command>)
    ensures |cs| == |log|
  {
    seq(|log|, i requires 0 <= i < |log| => log[i].command)
  }
}
