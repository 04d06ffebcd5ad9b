/**
 * Why the two assumptions on deliveries are needed: with either of them dropped,
 * a run of the handlers lets two nodes apply different commands at one position.
 */
module RaftCounterexamples {
  import opened Options
  import opened Quorums
  import opened LockCommands
  import opened RaftTypes
  import opened RaftLog
  import opened RaftHandlers
  import opened RaftHistory
  import opened RaftInvariant
  import opened RaftCluster
  import opened RaftCommit

  // ---------- runs under one of the assumptions ----------

  /** Which of the two assumptions a run is held to: no stale successes, or covered commits. */
  datatype Assumption = OnlyFreshSuccess | OnlyCoveredCommit

  predicate Allowed(which: Assumption, c: Cluster, a: Action)
    requires Enabled(c, a)
  {
    a.Deliver? ==>
      if which.OnlyFreshSuccess? then FreshSuccess(c.nodes[a.message.dst], a.message)
      else CoveredCommit(c.nodes[a.message.dst], a.message)
  }

  ghost predicate RunsUnder(which: Assumption, c: Cluster, actions: seq<Action>)
    decreases |actions|
  {
    actions == [] || (Enabled(c, actions[0]) && Allowed(which, c, actions[0]) && RunsUnder(which, Perform(c, actions[0]), actions[1..]))
  }

  ghost predicate Leads(which: Assumption, c0: Cluster, actions: seq<Action>, c: Cluster) {
    Runs(c0, actions) && RunsUnder(which, c0, actions) && After(c0, actions) == c
  }

  lemma {:induction false} OneMore(which: Assumption, c0: Cluster, actions: seq<Action>, c: Cluster, a: Action)
    requires Leads(which, c0, actions, c) && Enabled(c, a) && Allowed(which, c, a)
    ensures Leads(which, c0, actions + [a], Perform(c, a))
    decreases |actions|
  {
    hide Perform, Enabled, Allowed;
    if actions == [] {
      assert [a][1..] == [] && actions + [a] == [a];
      assert Leads(which, Perform(c, a), [], Perform(c, a));
    } else {
      assert (actions + [a])[1..] == actions[1..] + [a];
      OneMore(which, Perform(c0, actions[0]), actions[1..], c, a);
    }
  }

  lemma MakesInitial(c: Cluster)
    requires c.network == {} && c.history == History(c.history.terms, map[], map[], map[], map[], {})
    requires c.nodes.Keys == c.history.terms.Keys
    requires forall v | v in c.nodes ::
               c.history.terms[v] == 0 && c.nodes[v] == Fresh(v, c.nodes[v].peers) && PeersOk(c.history, c.nodes[v])
    ensures Initial(c)
  {
    hide PeersOk;
    assert c.history.terms == map v | v in c.nodes :: 0;
  }

  /** A run from c0 so far, and where it has led. */
  datatype Course = Course(which: Assumption, start: Cluster, actions: seq<Action>, now: Cluster)

  ghost predicate Real(k: Course) {
    Leads(k.which, k.start, k.actions, k.now) && forall v | v in k.now.nodes :: k.now.nodes[v].id == v
  }

  /** k' continues k: only these nodes have changed, to these states, and no message is gone. */
  ghost predicate Continues(k: Course, k': Course, nodes: map<NodeId, NodeState>) {
    Real(k') && k'.which == k.which && k'.start == k.start && k'.now.nodes == nodes && k.now.network <= k'.now.network
  }

  lemma Next(k: Course, a: Action) returns (k': Course)
    requires Real(k) && Enabled(k.now, a) && Allowed(k.which, k.now, a)
    ensures var out := React(k.now.nodes[Actor(a)], a);
            && Continues(k, k', k.now.nodes[Actor(a) := out.node])
            && forall m | m in out.sent :: m in k'.now.network
  {
    hide Leads, Record, OnMessage, TimedOut, Heartbeats, Submitted;
    OneMore(k.which, k.start, k.actions, k.now, a);
    k' := Course(k.which, k.start, k.actions + [a], Perform(k.now, a));
    SameId(k.now.nodes[Actor(a)], a);
  }

  lemma SameId(n: NodeState, a: Action)
    ensures React(n, a).node.id == n.id
  {
  }

  // ---------- what one node does ----------

  lemma Stand(k: Course, v: NodeId) returns (k': Course)
    requires Real(k) && v in k.now.nodes && k.now.nodes[v].role != Leader
    ensures var n := k.now.nodes[v];
            && Continues(k, k', k.now.nodes[v := BecomeCandidate(n)])
            && forall p | p in n.peers :: RequestVote(v, p, n.currentTerm + 1, LastIndex(n.log), LastTerm(n.log)) in k'.now.network
  {
    hide Leads, Real;
    OwnId(k, v);
    k' := Next(k, ElectionTimeout(v));
    var n := k.now.nodes[v];
    forall p | p in n.peers ensures RequestVote(v, p, n.currentTerm + 1, LastIndex(n.log), LastTerm(n.log)) in k'.now.network {
      var i :| 0 <= i < |n.peers| && n.peers[i] == p;
      assert VoteRequests(BecomeCandidate(n))[i] == RequestVote(v, p, n.currentTerm + 1, LastIndex(n.log), LastTerm(n.log));
    }
  }

  function Voted(n: NodeState, v: NodeId, t: nat): NodeState {
    n.(currentTerm := t, role := Follower, votedFor := Some(v))
  }

  function Counted(n: NodeState, w: NodeId): NodeState {
    var n1 := n.(votesReceived := n.votesReceived + {w});
    if |n1.votesReceived| >= Majority(|n.peers| + 1) then BecomeLeader(n1) else n1
  }

  /** A voter behind in term and log grants its vote, and the candidate counts it. */
  lemma GetVote(k: Course, v: NodeId, w: NodeId) returns (k': Course)
    requires Real(k) && v in k.now.nodes && w in k.now.nodes && v != w
    requires var n := k.now.nodes[v];
             && n.role == Candidate && w in n.peers && k.now.nodes[w].currentTerm < n.currentTerm
             && UpToDate(LastTerm(n.log), LastIndex(n.log), k.now.nodes[w].log)
             && RequestVote(v, w, n.currentTerm, LastIndex(n.log), LastTerm(n.log)) in k.now.network
    ensures var n := k.now.nodes[v];
            Continues(k, k', k.now.nodes[w := Voted(k.now.nodes[w], v, n.currentTerm)][v := Counted(n, w)])
  {
    hide Leads, Heartbeats, BecomeLeader;
    var n := k.now.nodes[v];
    var k1 := Next(k, Deliver(RequestVote(v, w, n.currentTerm, LastIndex(n.log), LastTerm(n.log))));
    k' := Next(k1, Deliver(VoteResponse(w, v, n.currentTerm, true)));
  }

  function Longer(n: NodeState, command: Command): NodeState {
    n.(log := n.log + [LogEntry(n.currentTerm, |n.log|, command)])
  }

  lemma InHeartbeats(n: NodeState, p: NodeId)
    requires p in n.peers
    ensures AppendEntriesFor(n, p) in Heartbeats(n)
  {
    var i :| 0 <= i < |n.peers| && n.peers[i] == p;
    assert Heartbeats(n)[i] == AppendEntriesFor(n, p);
  }

  lemma Submit(k: Course, v: NodeId, command: Command) returns (k': Course)
    requires Real(k) && v in k.now.nodes && k.now.nodes[v].role == Leader
    ensures var n1 := Longer(k.now.nodes[v], command);
            Continues(k, k', k.now.nodes[v := n1]) && forall q | q in n1.peers :: AppendEntriesFor(n1, q) in k'.now.network
  {
    hide Leads, Heartbeats, AppendEntriesFor;
    k' := Next(k, ClientSubmit(v, command));
    var n1 := Longer(k.now.nodes[v], command);
    forall q | q in n1.peers ensures AppendEntriesFor(n1, q) in k'.now.network {
      InHeartbeats(n1, q);
    }
  }

  lemma Tick(k: Course, v: NodeId, p: NodeId) returns (k': Course)
    requires Real(k) && v in k.now.nodes && k.now.nodes[v].role == Leader && p in k.now.nodes[v].peers
    ensures Continues(k, k', k.now.nodes) && AppendEntriesFor(k.now.nodes[v], p) in k'.now.network
  {
    hide Leads, Heartbeats, AppendEntriesFor;
    k' := Next(k, HeartbeatTick(v));
    InHeartbeats(k.now.nodes[v], p);
    assert k.now.nodes[v := k.now.nodes[v]] == k.now.nodes;
  }

  function Appended(n: NodeState, m: Message): NodeState
    requires m.AppendEntries? && PrevMatches(n.log, m.prevLogIndex, m.prevLogTerm)
  {
    BecomeFollower(n, m.term).(leaderId := Some(m.src), log := Merged(n.log, m.prevLogIndex + 1, m.entries))
  }

  /** A follower takes a batch over; nothing is committed by it. */
  lemma Append(k: Course, m: Message) returns (k': Course)
    requires Real(k) && m in k.now.network && m.AppendEntries? && m.dst in k.now.nodes
    requires var n := k.now.nodes[m.dst];
             m.term >= n.currentTerm && PrevMatches(n.log, m.prevLogIndex, m.prevLogTerm) && m.leaderCommit <= n.commitIndex
    ensures var n := k.now.nodes[m.dst];
            && Continues(k, k', k.now.nodes[m.dst := Appended(n, m)])
            && AppendResponse(m.dst, m.src, m.term, true, m.prevLogIndex + |m.entries|) in k'.now.network
  {
    hide Leads, Merged;
    k' := Next(k, Deliver(m));
  }

  /** A batch that does not fit, or comes from an old leader, is refused. */
  lemma Refuse(k: Course, m: Message) returns (k': Course)
    requires Real(k) && m in k.now.network && m.AppendEntries? && m.dst in k.now.nodes
    requires var n := k.now.nodes[m.dst];
             m.term < n.currentTerm || (m.term == n.currentTerm && !PrevMatches(n.log, m.prevLogIndex, m.prevLogTerm))
    ensures var n := k.now.nodes[m.dst];
            && Continues(k, k', k.now.nodes[m.dst := if m.term < n.currentTerm then n
                                                     else n.(role := Follower, leaderId := Some(m.src))])
            && AppendResponse(m.dst, m.src, n.currentTerm, false, -1) in k'.now.network
  {
    hide Leads, Merged;
    k' := Next(k, Deliver(m));
  }

  lemma Tell(k: Course, m: Message) returns (k': Course)
    requires Real(k) && m in k.now.network && m.AppendResponse? && m.dst in k.now.nodes
    requires k.which.OnlyFreshSuccess? && m.success ==> m.term >= k.now.nodes[m.dst].currentTerm
    ensures Continues(k, k', k.now.nodes[m.dst := OnAppendResponse(k.now.nodes[m.dst], m).node])
  {
    hide Leads, OnAppendResponse;
    k' := Next(k, Deliver(m));
  }

  // ---------- elections ----------

  /** A node that has committed nothing yet. */
  predicate Looks(n: NodeState, peers: seq<NodeId>, role: Role, term: nat, log: Log) {
    && n.peers == peers && n.role == role && n.currentTerm == term && n.log == log
    && n.commitIndex == -1 && n.lastApplied == -1 && n.applied == []
  }

  /** A leader just elected takes every peer's log to be as long as its own, and knows of no match. */
  predicate JustElected(n: NodeState) {
    forall p | p in n.peers :: p in n.nextIndex && n.nextIndex[p] == |n.log| && p in n.matchIndex && n.matchIndex[p] == -1
  }

  /** Only the nodes listed have changed. */
  predicate OthersSame(before: map<NodeId, NodeState>, after: map<NodeId, NodeState>, changed: set<NodeId>) {
    before.Keys == after.Keys && forall v | v in before && v !in changed :: after[v] == before[v]
  }

  predicate CanElect(n: NodeState, w: NodeId, voter: NodeState) {
    w in n.peers && voter.currentTerm <= n.currentTerm && UpToDate(LastTerm(n.log), LastIndex(n.log), voter.log)
  }

  /** n' is n after it has won the next term. */
  ghost predicate Won(n: NodeState, n': NodeState) {
    && JustElected(n') && n'.role == Leader && n'.currentTerm == n.currentTerm + 1
    && n' == n.(role := Leader, currentTerm := n.currentTerm + 1, votedFor := n'.votedFor, votesReceived := n'.votesReceived,
                leaderId := n'.leaderId, nextIndex := n'.nextIndex, matchIndex := n'.matchIndex)
  }

  /** k' continues k by an election that v has won with these votes. */
  ghost predicate Elected(k: Course, k': Course, v: NodeId, voters: set<NodeId>) {
    && v in k.now.nodes && voters <= k.now.nodes.Keys
    && Real(k') && k'.which == k.which && k'.start == k.start && k.now.network <= k'.now.network
    && OthersSame(k.now.nodes, k'.now.nodes, {v} + voters)
    && Won(k.now.nodes[v], k'.now.nodes[v])
    && forall w | w in voters && w != v :: k'.now.nodes[w] == Voted(k.now.nodes[w], v, k.now.nodes[v].currentTerm + 1)
  }

  /** Where candidate v is with these votes: waiting, or elected. */
  ghost predicate Tallied(n: NodeState, m: NodeState, votes: set<NodeId>) {
    if |votes| >= Majority(|n.peers| + 1) then Won(n, m)
    else m == BecomeCandidate(n).(votesReceived := votes)
  }

  predicate Asks(k: Course, n: NodeState, v: NodeId, w: NodeId) {
    RequestVote(v, w, n.currentTerm + 1, LastIndex(n.log), LastTerm(n.log)) in k.now.network
  }

  /** k' continues k, in which these nodes are still to be asked, by their votes for v. */
  ghost predicate Gathered(k: Course, k': Course, n: NodeState, v: NodeId, todo: set<NodeId>) {
    && Real(k') && k'.which == k.which && k'.start == k.start && k.now.network <= k'.now.network
    && OthersSame(k.now.nodes, k'.now.nodes, {v} + todo)
    && forall w | w in todo && w in k.now.nodes :: k'.now.nodes[w] == Voted(k.now.nodes[w], v, n.currentTerm + 1)
  }

  /** One more vote; a leader no longer counts it. */
  lemma OneVote(k: Course, n: NodeState, v: NodeId, w: NodeId, votes: set<NodeId>) returns (k': Course)
    requires Real(k) && v in k.now.nodes && w in k.now.nodes && v != w && w !in votes
    requires Tallied(n, k.now.nodes[v], votes) && CanElect(n, w, k.now.nodes[w]) && Asks(k, n, v, w)
    ensures Gathered(k, k', n, v, {w}) && v in k'.now.nodes && Tallied(n, k'.now.nodes[v], votes + {w})
  {
    hide Real, Gathered, CanElect, Won, BecomeCandidate, Asks;
    assert |votes + {w}| == |votes| + 1;
    if |votes| >= Majority(|n.peers| + 1) {
      k' := LateVote(k, n, v, w);
    } else {
      k' := CountedVote(k, n, v, w, votes);
    }
  }

  lemma LateVote(k: Course, n: NodeState, v: NodeId, w: NodeId) returns (k': Course)
    requires Real(k) && v in k.now.nodes && w in k.now.nodes && v != w && CanElect(n, w, k.now.nodes[w]) && Asks(k, n, v, w)
    ensures Gathered(k, k', n, v, {w}) && v in k'.now.nodes && k'.now.nodes[v] == k.now.nodes[v]
  {
    hide Real, UpToDate;
    k' := Next(k, Deliver(RequestVote(v, w, n.currentTerm + 1, LastIndex(n.log), LastTerm(n.log))));
  }

  lemma CountedVote(k: Course, n: NodeState, v: NodeId, w: NodeId, votes: set<NodeId>) returns (k': Course)
    requires Real(k) && v in k.now.nodes && w in k.now.nodes && v != w && CanElect(n, w, k.now.nodes[w]) && Asks(k, n, v, w)
    requires k.now.nodes[v] == BecomeCandidate(n).(votesReceived := votes)
    ensures Gathered(k, k', n, v, {w}) && v in k'.now.nodes && Tallied(n, k'.now.nodes[v], votes + {w})
  {
    hide Real, UpToDate, BecomeLeader, Counted, JustElected;
    CountedIs(k.now.nodes[v], w);
    k' := GetVote(k, v, w);
  }

  ghost predicate Askable(k: Course, n: NodeState, v: NodeId, todo: set<NodeId>) {
    v in k.now.nodes && todo <= k.now.nodes.Keys - {v} && forall w | w in todo :: CanElect(n, w, k.now.nodes[w]) && Asks(k, n, v, w)
  }

  lemma StillAskable(k: Course, k1: Course, n: NodeState, v: NodeId, w: NodeId, todo: set<NodeId>)
    requires Askable(k, n, v, todo) && Gathered(k, k1, n, v, {w})
    ensures Askable(k1, n, v, todo - {w}) && Real(k1)
  {
    hide Real, CanElect;
  }

  lemma GatheredMore(k: Course, k1: Course, k2: Course, n: NodeState, v: NodeId, w: NodeId, todo: set<NodeId>)
    requires Gathered(k, k1, n, v, {w}) && Gathered(k1, k2, n, v, todo - {w}) && w in todo && v !in todo && v in k.now.nodes
    ensures Gathered(k, k2, n, v, todo)
  {
    hide Real, Voted;
  }

  lemma MayAsk(k: Course, n: NodeState, v: NodeId, w: NodeId, todo: set<NodeId>)
    requires Askable(k, n, v, todo) && w in todo
    ensures v in k.now.nodes && w in k.now.nodes && v != w && v !in todo && CanElect(n, w, k.now.nodes[w]) && Asks(k, n, v, w)
  {
    hide CanElect, Asks;
  }

  lemma NoneGathered(k: Course, n: NodeState, v: NodeId)
    requires Real(k)
    ensures Gathered(k, k, n, v, {})
  {
  }

  lemma {:induction false} GatherVotes(k: Course, n: NodeState, v: NodeId, todo: set<NodeId>, votes: set<NodeId>) returns (k': Course)
    requires Real(k) && Askable(k, n, v, todo) && todo !! votes && v in k.now.nodes && Tallied(n, k.now.nodes[v], votes)
    ensures Gathered(k, k', n, v, todo) && v in k'.now.nodes && Tallied(n, k'.now.nodes[v], votes + todo)
    decreases |todo|
  {
    hide Real, Tallied, CanElect, Gathered, Askable, Asks, Majority;
    if todo == {} {
      k' := k;
      NoneGathered(k, n, v);
      assert votes + todo == votes;
    } else {
      var w :| w in todo;
      MoveOver(todo, votes, w);
      MayAsk(k, n, v, w, todo);
      var k1 := OneVote(k, n, v, w, votes);
      StillAskable(k, k1, n, v, w, todo);
      k' := GatherVotes(k1, n, v, todo - {w}, votes + {w});
      GatheredMore(k, k1, k', n, v, w, todo);
    }
  }

  lemma MoveOver(todo: set<NodeId>, votes: set<NodeId>, w: NodeId)
    requires w in todo && todo !! votes
    ensures w !in votes && todo - {w} !! votes + {w} && votes + {w} + (todo - {w}) == votes + todo && |todo - {w}| < |todo|
  {
  }

  /** An election that v wins with the votes of these nodes. */
  lemma Elect(k: Course, v: NodeId, voters: set<NodeId>) returns (k': Course)
    requires Real(k) && v in k.now.nodes && voters <= k.now.nodes.Keys - {v} && k.now.nodes[v].role != Leader
    requires |voters| + 1 >= Majority(|k.now.nodes[v].peers| + 1) >= 2
    requires forall w | w in voters :: CanElect(k.now.nodes[v], w, k.now.nodes[w])
    ensures Elected(k, k', v, voters)
  {
    hide Real, UpToDate, Won, Voted, BecomeCandidate;
    OwnId(k, v);
    var n := k.now.nodes[v];
    var k1 := Stand(k, v);
    assert |{v} + voters| == 1 + |voters|;
    Stood(k, k1, n, v, voters);
    k' := GatherVotes(k1, n, v, voters, {v});
    WonAll(k, k1, k', n, v, voters);
  }

  lemma Stood(k: Course, k1: Course, n: NodeState, v: NodeId, voters: set<NodeId>)
    requires v in k.now.nodes && k.now.nodes[v] == n && n.id == v && Continues(k, k1, k.now.nodes[v := BecomeCandidate(n)])
    requires forall p | p in n.peers :: RequestVote(v, p, n.currentTerm + 1, LastIndex(n.log), LastTerm(n.log)) in k1.now.network
    requires voters <= k.now.nodes.Keys - {v} && forall w | w in voters :: CanElect(n, w, k.now.nodes[w])
    requires Majority(|n.peers| + 1) >= 2
    ensures Askable(k1, n, v, voters) && Tallied(n, k1.now.nodes[v], {v})
  {
    hide Real, UpToDate, Won;
  }

  lemma WonAll(k: Course, k1: Course, k': Course, n: NodeState, v: NodeId, voters: set<NodeId>)
    requires v in k.now.nodes && k.now.nodes[v] == n && Continues(k, k1, k.now.nodes[v := BecomeCandidate(n)])
    requires voters <= k.now.nodes.Keys - {v} && Gathered(k1, k', n, v, voters) && v in k'.now.nodes
    requires Tallied(n, k'.now.nodes[v], {v} + voters) && |{v} + voters| >= Majority(|n.peers| + 1)
    ensures Elected(k, k', v, voters)
  {
    hide Real, Voted, BecomeCandidate, Won;
  }

  lemma OwnId(k: Course, v: NodeId)
    requires Real(k) && v in k.now.nodes
    ensures k.now.nodes[v].id == v
  {
  }

  lemma CountedIs(n: NodeState, w: NodeId)
    ensures var votes := n.votesReceived + {w};
            if |votes| >= Majority(|n.peers| + 1) then
              var n' := Counted(n, w);
              && JustElected(n')
              && n' == n.(role := Leader, votesReceived := votes,
                          leaderId := n'.leaderId, nextIndex := n'.nextIndex, matchIndex := n'.matchIndex)
            else Counted(n, w) == n.(votesReceived := votes)
  {
  }
}
