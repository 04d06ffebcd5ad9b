/**
 * A cluster as a state machine. Messages are never removed from the network, so
 * each may be delivered any number of times, in any order, or never.
 */
module RaftCluster {
  import opened Options
  import opened Quorums
  import opened LockCommands
  import opened RaftTypes
  import opened RaftLog
  import opened RaftHandlers
  import opened RaftHistory
  import opened RaftInvariant
  import opened RaftMoves
  import opened RaftElection
  import opened RaftReplication

  datatype Cluster = Cluster(nodes: map<NodeId, NodeState>, network: set<Message>, history: History)

  datatype Action =
    | ElectionTimeout(node: NodeId)
    | HeartbeatTick(node: NodeId)
    | ClientSubmit(node: NodeId, command: Command)
    | Deliver(message: Message)

  function Actor(a: Action): NodeId {
    match a
    case ElectionTimeout(v) => v
    case HeartbeatTick(v) => v
    case ClientSubmit(v, _) => v
    case Deliver(m) => m.dst
  }

  predicate Enabled(c: Cluster, a: Action) {
    && Actor(a) in c.nodes
    && match a
       case ElectionTimeout(v) => c.nodes[v].role != Leader
       case HeartbeatTick(v) => c.nodes[v].role == Leader
       case ClientSubmit(_, _) => true
       case Deliver(m) => m in c.network
  }

  /** What the acting node does. */
  function React(n: NodeState, a: Action): Outcome {
    match a
    case ElectionTimeout(_) => TimedOut(n)
    case HeartbeatTick(_) => Outcome(n, Heartbeats(n))
    case ClientSubmit(_, command) => Submitted(n, command)
    case Deliver(m) => OnMessage(n, m)
  }

  function Install(c: Cluster, v: NodeId, n: NodeState, sent: seq<Message>, h: History): Cluster {
    Cluster(c.nodes[v := n], c.network + (set m | m in sent), h)
  }

  function Perform(c: Cluster, a: Action): Cluster
    requires Enabled(c, a)
  {
    var n := c.nodes[Actor(a)];
    var out := React(n, a);
    Install(c, Actor(a), out.node, out.sent, Record(c.history, n, out.node, out.sent))
  }

  ghost predicate Initial(c: Cluster) {
    && (forall v | v in c.nodes :: c.nodes[v] == Fresh(v, c.nodes[v].peers) && PeersOk(c.history, c.nodes[v]))
    && c.network == {}
    && c.history == History(map v | v in c.nodes :: 0, map[], map[], map[], map[], {})
  }

  /** The states a sequence of actions leads to; an action that is not enabled ends the run. */
  ghost predicate Runs(c: Cluster, actions: seq<Action>)
    decreases |actions|
  {
    actions == [] || (Enabled(c, actions[0]) && Runs(Perform(c, actions[0]), actions[1..]))
  }

  function After(c: Cluster, actions: seq<Action>): Cluster
    requires Runs(c, actions)
    decreases |actions|
  {
    if actions == [] then c else After(Perform(c, actions[0]), actions[1..])
  }

  /** The invariant of every reachable state, with no assumption on delivery. */
  ghost predicate Inv(c: Cluster) {
    && c.nodes.Keys == c.history.terms.Keys
    && HistoryInv(c.history)
    && (forall v | v in c.nodes :: c.nodes[v].id == v && NodeInv(c.history, c.nodes[v]))
    && (forall m | m in c.network :: MessageInv(c.history, m))
  }

  /** One step of node v, seen from outside. */
  ghost predicate Stepped(c: Cluster, c': Cluster, v: NodeId) {
    Inv(c') && Evolves(c.history, c'.history, v)
  }

  lemma InitialInv(c: Cluster)
    requires Initial(c)
    ensures Inv(c)
  {
    hide HistoryInv, VoteInv, RoleInv, LogInv, PeersOk;
    InitialHistory(c.history);
    forall v | v in c.nodes ensures NodeInv(c.history, c.nodes[v]) {
      InitialNode(c.history, v, c.nodes[v].peers);
    }
  }

  lemma InitialHistory(h: History)
    requires h == History(h.terms, map[], map[], map[], map[], {})
    ensures HistoryInv(h)
  {
  }

  lemma InitialNode(h: History, v: NodeId, peers: seq<NodeId>)
    requires h == History(h.terms, map[], map[], map[], map[], {}) && v in h.terms && h.terms[v] == 0
    requires PeersOk(h, Fresh(v, peers))
    ensures NodeInv(h, Fresh(v, peers))
  {
    hide PeersOk;
  }

  /** A sound move of one node keeps the invariant of the cluster. */
  lemma InstallInv(c: Cluster, v: NodeId, n': NodeState, sent: seq<Message>)
    requires Inv(c) && v in c.nodes && Sound(c.history, c.nodes[v], n', sent)
    ensures Stepped(c, Install(c, v, n', sent, Record(c.history, c.nodes[v], n', sent)), v)
  {
    hide HistoryInv, NodeInv, MessageInv, Evolves;
    var n := c.nodes[v];
    var h' := Record(c.history, n, n', sent);
    var c' := Install(c, v, n', sent, h');
    assert n.id == v;
    forall w | w in c'.nodes ensures c'.nodes[w].id == w && NodeInv(h', c'.nodes[w]) {
      if w != v { NodeEvolves(c.history, h', v, c.nodes[w]); }
    }
    forall m | m in c'.network ensures MessageInv(h', m) {
      if m in c.network { MessageEvolves(c.history, h', v, m); }
    }
    SoundKeepsIds(c.history, n, n', sent);
  }

  lemma SoundKeepsIds(h: History, n: NodeState, n': NodeState, sent: seq<Message>)
    requires Sound(h, n, n', sent)
    ensures Record(h, n, n', sent).terms.Keys == h.terms.Keys
  {
    assert TermsRise(h, Record(h, n, n', sent), n.id);
  }

  /** Every handler that adopts a later term does so first; the rest is a move in the new term. */
  function Behind(c: Cluster, v: NodeId, t: nat): Cluster
    requires v in c.nodes
  {
    var n := c.nodes[v];
    Install(c, v, BecomeFollower(n, t), [], Record(c.history, n, BecomeFollower(n, t), []))
  }

  lemma BehindInv(c: Cluster, v: NodeId, t: nat)
    requires Inv(c) && v in c.nodes
    requires c.nodes[v].currentTerm < t || (c.nodes[v].currentTerm == t && c.nodes[v].role != Leader)
    ensures Stepped(c, Behind(c, v, t), v)
    ensures NodeInv(Behind(c, v, t).history, BecomeFollower(c.nodes[v], t))
    ensures forall m | m in c.network :: MessageInv(Behind(c, v, t).history, m)
  {
    hide HistoryInv, NodeInv, MessageInv, Sound;
    if c.nodes[v].currentTerm < t {
      StepDownSound(c.history, c.nodes[v], t);
    } else {
      QuietSound(c.history, c.nodes[v], BecomeFollower(c.nodes[v], t), []);
    }
    InstallInv(c, v, BecomeFollower(c.nodes[v], t), []);
    assert v in Behind(c, v, t).nodes;
    assert forall m | m in c.network :: m in Behind(c, v, t).network;
  }

  lemma BehindRecord(h: History, n: NodeState, t: nat, n': NodeState, sent: seq<Message>)
    requires n.currentTerm <= t == n'.currentTerm && n'.id == n.id && n'.role == Follower
    requires n.currentTerm < t || n'.votedFor == n.votedFor || n.votedFor == None
    ensures var n1 := BecomeFollower(n, t); Record(h, n, n', sent) == Record(Record(h, n, n1, []), n1, n', sent)
  {
  }

  lemma TwoMoves(c: Cluster, v: NodeId, t: nat, n': NodeState, sent: seq<Message>)
    requires Inv(c) && v in c.nodes && c.nodes[v].currentTerm <= t == n'.currentTerm
    requires n'.role == Follower && Stepped(c, Behind(c, v, t), v)
    requires c.nodes[v].currentTerm < t || n'.votedFor == c.nodes[v].votedFor
    requires Sound(Behind(c, v, t).history, BecomeFollower(c.nodes[v], t), n', sent)
    ensures Stepped(c, Install(c, v, n', sent, Record(c.history, c.nodes[v], n', sent)), v)
  {
    hide HistoryInv, NodeInv, MessageInv, Evolves;
    var c1 := Behind(c, v, t);
    InstallInv(c1, v, n', sent);
    BehindRecord(c.history, c.nodes[v], t, n', sent);
    assert Install(c, v, n', sent, Record(c.history, c.nodes[v], n', sent))
        == Install(c1, v, n', sent, Record(c1.history, c1.nodes[v], n', sent));
    EvolvesTransitive(c.history, c1.history, Record(c1.history, c1.nodes[v], n', sent), v);
  }

  lemma ElectionTimeoutInv(c: Cluster, v: NodeId)
    requires Inv(c) && Enabled(c, ElectionTimeout(v))
    ensures Stepped(c, Perform(c, ElectionTimeout(v)), Actor(ElectionTimeout(v)))
  {
    hide HistoryInv, NodeInv, MessageInv, Evolves, Sound, Record;
    StandSound(c.history, c.nodes[v]);
    InstallInv(c, v, BecomeCandidate(c.nodes[v]), VoteRequests(BecomeCandidate(c.nodes[v])));
  }

  lemma HeartbeatTickInv(c: Cluster, v: NodeId)
    requires Inv(c) && Enabled(c, HeartbeatTick(v))
    ensures Stepped(c, Perform(c, HeartbeatTick(v)), Actor(HeartbeatTick(v)))
  {
    hide HistoryInv, NodeInv, MessageInv, Evolves, Sound, Record;
    var n := c.nodes[v];
    HeartbeatsOk(c.history, n);
    QuietSound(c.history, n, n, Heartbeats(n));
    InstallInv(c, v, n, Heartbeats(n));
  }

  lemma ClientSubmitInv(c: Cluster, v: NodeId, command: Command)
    requires Inv(c) && Enabled(c, ClientSubmit(v, command))
    ensures Stepped(c, Perform(c, ClientSubmit(v, command)), Actor(ClientSubmit(v, command)))
  {
    hide HistoryInv, NodeInv, MessageInv, Evolves, Sound, Record;
    var n := c.nodes[v];
    if n.role == Leader {
      AppendSound(c.history, n, command);
      InstallInv(c, v, Appended(n, command), Heartbeats(Appended(n, command)));
    } else {
      QuietSound(c.history, n, n, []);
      InstallInv(c, v, n, []);
    }
  }

  /** A granted or refused vote, in the voter's own term. */
  lemma VoteSound(h: History, n: NodeState, m: Message)
    requires HistoryInv(h) && NodeInv(h, n)
    requires m.RequestVote? && MessageInv(h, m) && m.term == n.currentTerm && m.dst == n.id
    ensures var out := OnRequestVote(n, m); Sound(h, n, out.node, out.sent)
  {
    hide HistoryInv, NodeInv, Sound;
    if GrantsVote(n, m) {
      GrantSound(h, n, m);
    } else {
      RefusalOk(h, n, m);
      QuietSound(h, n, n, [VoteResponse(n.id, m.src, n.currentTerm, false)]);
    }
  }

  lemma RefusalOk(h: History, n: NodeState, m: Message)
    requires NodeInv(h, n) && MessageInv(h, m) && m.dst == n.id
    ensures MessageInv(h, VoteResponse(n.id, m.src, n.currentTerm, false))
    ensures MessageInv(h, AppendResponse(n.id, m.src, n.currentTerm, false, -1))
  {
  }

  lemma RequestVoteInv(c: Cluster, m: Message)
    requires Inv(c) && m.RequestVote? && Enabled(c, Deliver(m))
    ensures Stepped(c, Perform(c, Deliver(m)), Actor(Deliver(m)))
  {
    hide HistoryInv, NodeInv, MessageInv, Evolves, Sound, Record, GrantsVote;
    var n := c.nodes[m.dst];
    var out := OnRequestVote(n, m);
    if m.term < n.currentTerm {
      RefusalOk(c.history, n, m);
      QuietSound(c.history, n, n, out.sent);
      InstallInv(c, m.dst, n, out.sent);
    } else if m.term == n.currentTerm {
      VoteSound(c.history, n, m);
      InstallInv(c, m.dst, out.node, out.sent);
    } else {
      BehindInv(c, m.dst, m.term);
      VoteSound(Behind(c, m.dst, m.term).history, BecomeFollower(n, m.term), m);
      TwoMoves(c, m.dst, m.term, out.node, out.sent);
    }
  }

  lemma StepDownInv(c: Cluster, v: NodeId, t: nat)
    requires Inv(c) && v in c.nodes && c.nodes[v].currentTerm < t
    ensures var n' := BecomeFollower(c.nodes[v], t);
            Stepped(c, Install(c, v, n', [], Record(c.history, c.nodes[v], n', [])), v)
  {
    BehindInv(c, v, t);
  }

  lemma TallyInv(c: Cluster, v: NodeId, m: Message)
    requires Inv(c) && v in c.nodes && c.nodes[v].role == Candidate && v == m.dst
    requires m.VoteResponse? && m.granted && m in c.network && m.term == c.nodes[v].currentTerm
    ensures Stepped(c, Install(c, v, c.nodes[v].(votesReceived := c.nodes[v].votesReceived + {m.src}), [], c.history), v)
  {
    hide HistoryInv, MessageInv, Sound, Record, Good, WellFormed, Retains;
    var n := c.nodes[v];
    var n1 := n.(votesReceived := n.votesReceived + {m.src});
    TallySound(c.history, n, m);
    InstallInv(c, v, n1, []);
    TallyRecord(c.history, n, n1);
  }

  /** The last vote makes the candidate leader at once. */
  lemma CrownInv(c: Cluster, v: NodeId, n1: NodeState)
    requires v in c.nodes && Inv(Install(c, v, n1, [], c.history))
    requires n1.role == Candidate && |n1.votesReceived| >= Majority(|n1.peers| + 1)
    ensures var sent := Heartbeats(BecomeLeader(n1));
            Stepped(c, Install(c, v, BecomeLeader(n1), sent, Record(c.history, n1, BecomeLeader(n1), sent)), v)
  {
    hide HistoryInv, NodeInv, MessageInv, Evolves, Sound, Record;
    var c1 := Install(c, v, n1, [], c.history);
    var sent := Heartbeats(BecomeLeader(n1));
    assert v in c1.nodes;
    CrownedSound(c.history, n1);
    InstallInv(c1, v, BecomeLeader(n1), sent);
    assert Install(c1, v, BecomeLeader(n1), sent, Record(c.history, n1, BecomeLeader(n1), sent))
        == Install(c, v, BecomeLeader(n1), sent, Record(c.history, n1, BecomeLeader(n1), sent));
  }

  lemma TallyRecord(h: History, n: NodeState, n1: NodeState)
    requires n.id in h.terms && h.terms[n.id] == n.currentTerm
    requires n.role == Candidate && n1 == n.(votesReceived := n1.votesReceived)
    ensures Record(h, n, n1, []) == h
  {
  }

  lemma VoteRecords(h: History, n: NodeState, n1: NodeState)
    requires NodeInv(h, n) && n.role == Candidate && n1 == n.(votesReceived := n1.votesReceived)
    ensures Record(h, n, n1, []) == h
    ensures var leader := BecomeLeader(n1);
            Record(h, n, leader, Heartbeats(leader)) == Record(h, n1, leader, Heartbeats(leader))
  {
    TallyRecord(h, n, n1);
  }

  lemma VoteResponseInv(c: Cluster, m: Message)
    requires Inv(c) && m.VoteResponse? && Enabled(c, Deliver(m))
    ensures Stepped(c, Perform(c, Deliver(m)), Actor(Deliver(m)))
  {
    hide HistoryInv, NodeInv, MessageInv, Evolves, Sound, Record;
    var n := c.nodes[m.dst];
    if n.role == Candidate && m.term > n.currentTerm {
      StepDownInv(c, m.dst, m.term);
    } else if n.role != Candidate || m.term < n.currentTerm || !m.granted {
      QuietSound(c.history, n, n, []);
      InstallInv(c, m.dst, n, []);
    } else {
      var n1 := n.(votesReceived := n.votesReceived + {m.src});
      TallyInv(c, m.dst, m);
      assert c.nodes[m.dst].id == m.dst && NodeInv(c.history, n);
      VoteRecords(c.history, n, n1);
      if |n1.votesReceived| >= Majority(|n1.peers| + 1) {
        CrownInv(c, m.dst, n1);
      }
    }
  }

  /** An AppendEntries in the follower's own term. */
  lemma FollowSound(h: History, n: NodeState, m: Message)
    requires HistoryInv(h) && NodeInv(h, n) && n.role == Follower
    requires m.AppendEntries? && MessageInv(h, m) && m.term == n.currentTerm && m.dst == n.id
    ensures var out := OnAppendEntries(n, m); Sound(h, n, out.node, out.sent)
  {
    hide HistoryInv, NodeInv, MessageInv, Sound, Merged, AdvanceCommit;
    var n1 := n.(leaderId := Some(m.src));
    if PrevMatches(n.log, m.prevLogIndex, m.prevLogTerm) {
      var merged := Merged(n.log, m.prevLogIndex + 1, m.entries);
      AdvanceIsQuiet(n1.(log := merged), m.leaderCommit);
      MergeSound(h, n, m, merged, AdvanceCommit(n1.(log := merged), m.leaderCommit));
    } else {
      RefusalOk(h, n, m);
      QuietSound(h, n, n1, [AppendResponse(n.id, m.src, n.currentTerm, false, -1)]);
    }
  }

  lemma AdvanceIsQuiet(n: NodeState, leaderCommit: Index)
    ensures Quiet(n, AdvanceCommit(n, leaderCommit))
  {
  }

  lemma AppendEntriesInv(c: Cluster, m: Message)
    requires Inv(c) && m.AppendEntries? && Enabled(c, Deliver(m))
    ensures Stepped(c, Perform(c, Deliver(m)), Actor(Deliver(m)))
  {
    hide HistoryInv, NodeInv, Evolves, Sound, Record, Merged, AdvanceCommit, EntriesFrom;
    var n := c.nodes[m.dst];
    var out := OnAppendEntries(n, m);
    if m.term < n.currentTerm {
      RefusalOk(c.history, n, m);
      QuietSound(c.history, n, n, out.sent);
      InstallInv(c, m.dst, n, out.sent);
    } else {
      NotTheLeader(c.history, n, m);
      BehindInv(c, m.dst, m.term);
      var n1 := BecomeFollower(n, m.term);
      FollowSound(Behind(c, m.dst, m.term).history, n1, m);
      assert OnAppendEntries(n1, m) == out;
      FollowerStays(n1, m);
      TwoMoves(c, m.dst, m.term, out.node, out.sent);
    }
  }

  lemma NotTheLeader(h: History, n: NodeState, m: Message)
    requires NodeInv(h, n) && m.AppendEntries? && MessageInv(h, m) && m.dst == n.id
    ensures m.term == n.currentTerm ==> n.role != Leader
  {
  }

  lemma FollowerStays(n: NodeState, m: Message)
    requires m.AppendEntries? && n.role == Follower && m.term == n.currentTerm
    ensures var n' := OnAppendEntries(n, m).node;
            n'.role == Follower && n'.currentTerm == n.currentTerm && n'.votedFor == n.votedFor
  {
  }

  lemma AppendResponseInv(c: Cluster, m: Message)
    requires Inv(c) && m.AppendResponse? && Enabled(c, Deliver(m))
    ensures Stepped(c, Perform(c, Deliver(m)), Actor(Deliver(m)))
  {
    hide HistoryInv, NodeInv, MessageInv, Evolves, Sound, Record;
    var n := c.nodes[m.dst];
    var out := OnAppendResponse(n, m);
    if n.role == Leader && m.term > n.currentTerm {
      StepDownInv(c, m.dst, m.term);
    } else {
      assert Quiet(n, out.node) && out.sent == [];
      QuietSound(c.history, n, out.node, []);
      InstallInv(c, m.dst, out.node, []);
    }
  }

  lemma PerformInv(c: Cluster, a: Action)
    requires Inv(c) && Enabled(c, a)
    ensures Stepped(c, Perform(c, a), Actor(a))
  {
    hide Inv, Perform;
    match a
    case ElectionTimeout(v) => ElectionTimeoutInv(c, v);
    case HeartbeatTick(v) => HeartbeatTickInv(c, v);
    case ClientSubmit(v, command) => ClientSubmitInv(c, v, command);
    case Deliver(m) =>
      match m {
        case RequestVote(_, _, _, _, _) => RequestVoteInv(c, m);
        case VoteResponse(_, _, _, _) => VoteResponseInv(c, m);
        case AppendEntries(_, _, _, _, _, _, _) => AppendEntriesInv(c, m);
        case AppendResponse(_, _, _, _, _) => AppendResponseInv(c, m);
      }
  }

  lemma {:induction false} RunInv(c: Cluster, actions: seq<Action>)
    requires Inv(c) && Runs(c, actions)
    ensures Inv(After(c, actions))
    decreases |actions|
  {
    hide Inv, Perform;
    if actions != [] {
      PerformInv(c, actions[0]);
      RunInv(Perform(c, actions[0]), actions[1..]);
    }
  }
}
