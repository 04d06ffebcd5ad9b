/**
 * What replication is for: sends and replies alone bring the followers up to the
 * leader's log, and a majority that has come up to it commits and applies it.
 */
module RaftProgress {
  import opened Options
  import opened Quorums
  import opened RaftTypes
  import opened RaftLog
  import opened RaftHandlers
  import opened RaftHistory
  import opened RaftInvariant
  import opened RaftReplication
  import opened RaftCluster

  // ---------- what the leader sends next ----------

  /** The message continues a log after entry i: it names that entry and carries up to fifty that follow it. */
  predicate ContinuesAfter(log: Log, m: Message, i: Index)
    requires m.AppendEntries?
  {
    && m.prevLogIndex == i
    && m.prevLogTerm == (if 0 <= i < |log| then log[i].term else 0)
    && |m.entries| == (if |log| <= i + 1 then 0 else if |log| - (i + 1) < 50 then |log| - (i + 1) else 50)
    && forall j | 0 <= j < |m.entries| :: m.entries[j] == log[i + 1 + j]
  }

  /** The same message, but for the leader's commit index. */
  predicate SameBut(m: Message, m': Message, commit: Index) {
    m.AppendEntries? && m' == m.(leaderCommit := commit)
  }

  function NextOf(n: NodeState, p: NodeId): nat {
    if p in n.nextIndex then n.nextIndex[p] else 0
  }

  lemma SendsContinuation(n: NodeState, p: NodeId)
    ensures AppendEntriesFor(n, p).AppendEntries?
    ensures AppendEntriesFor(n, p).leaderCommit == n.commitIndex
    ensures ContinuesAfter(n.log, AppendEntriesFor(n, p), NextOf(n, p) - 1)
  {
  }

  lemma SendsSame(n: NodeState, n': NodeState, p: NodeId)
    requires n'.id == n.id && n'.currentTerm == n.currentTerm && n'.log == n.log && NextOf(n', p) == NextOf(n, p)
    ensures SameBut(AppendEntriesFor(n, p), AppendEntriesFor(n', p), n'.commitIndex)
  {
  }

  /** After a success that matched up to entry i, the next message to that peer continues there. */
  lemma NextAfterSuccess(c: Cluster, m: Message)
    requires Enabled(c, Deliver(m)) && m.AppendResponse? && m.success
    requires c.nodes[m.dst].role == Leader && m.term <= c.nodes[m.dst].currentTerm
    ensures m.dst in Perform(c, Deliver(m)).nodes
    ensures var n, n' := c.nodes[m.dst], Perform(c, Deliver(m)).nodes[m.dst];
            && n'.role == Leader && n'.log == n.log
            && ContinuesAfter(n.log, AppendEntriesFor(n', m.src), m.matchIndex)
            && forall p | p != m.src :: SameBut(AppendEntriesFor(n, p), AppendEntriesFor(n', p), n'.commitIndex)
  {
    hide Record, CommitTarget, AppendEntriesFor, ContinuesAfter;
    var n, n' := c.nodes[m.dst], Perform(c, Deliver(m)).nodes[m.dst];
    SendsContinuation(n', m.src);
    forall p | p != m.src ensures SameBut(AppendEntriesFor(n, p), AppendEntriesFor(n', p), n'.commitIndex) {
      SendsSame(n, n', p);
    }
  }

  /** After a refusal it starts one entry earlier than before, unless it started at the first already. */
  lemma NextAfterRefusal(c: Cluster, m: Message)
    requires Enabled(c, Deliver(m)) && m.AppendResponse? && !m.success
    requires c.nodes[m.dst].role == Leader && m.term <= c.nodes[m.dst].currentTerm
    ensures m.dst in Perform(c, Deliver(m)).nodes
    ensures var n, n' := c.nodes[m.dst], Perform(c, Deliver(m)).nodes[m.dst];
            var before := AppendEntriesFor(n, m.src).prevLogIndex;
            && n'.role == Leader && n'.log == n.log && n'.commitIndex == n.commitIndex
            && ContinuesAfter(n.log, AppendEntriesFor(n', m.src), if before >= 0 then before - 1 else -1)
            && forall p | p != m.src :: SameBut(AppendEntriesFor(n, p), AppendEntriesFor(n', p), n.commitIndex)
  {
    hide Record, AppendEntriesFor, ContinuesAfter;
    var n, n' := c.nodes[m.dst], Perform(c, Deliver(m)).nodes[m.dst];
    SendsContinuation(n', m.src);
    NamesPrevious(n, m.src);
    forall p | p != m.src ensures SameBut(AppendEntriesFor(n, p), AppendEntriesFor(n', p), n.commitIndex) {
      SendsSame(n, n', p);
    }
  }

  lemma NamesPrevious(n: NodeState, p: NodeId)
    ensures AppendEntriesFor(n, p).AppendEntries? && AppendEntriesFor(n, p).prevLogIndex == NextOf(n, p) - 1
  {
  }

  lemma SendsToAll(n: NodeState, p: NodeId)
    requires p in n.peers
    ensures AppendEntriesFor(n, p) in Heartbeats(n)
  {
    var i :| 0 <= i < |n.peers| && n.peers[i] == p;
    assert Heartbeats(n)[i] == AppendEntriesFor(n, p);
  }

  /** Only a vote makes a leader. */
  lemma VotesMakeLeaders(n: NodeState, m: Message)
    requires n.role != Leader && !m.VoteResponse?
    ensures OnMessage(n, m).node.role != Leader
  {
    hide Merged, GrantsVote;
  }

  lemma BecameLeader(n: NodeState, m: Message)
    requires n.role != Leader && m.VoteResponse? && OnMessage(n, m).node.role == Leader
    ensures var n' := OnMessage(n, m).node;
            && n'.log == n.log && n'.peers == n.peers && OnMessage(n, m).sent == Heartbeats(n')
            && n'.leaderId == Some(n.id) && forall p | p in n.peers :: NextOf(n', p) == |n.log| && MatchOf(n', p) == -1
  {
    hide Heartbeats, Majority;
  }

  /** Whoever becomes leader asks every peer at once about the last entry of its log. */
  lemma NewLeaderAsks(c: Cluster, m: Message, p: NodeId)
    requires Enabled(c, Deliver(m)) && m.dst in Perform(c, Deliver(m)).nodes
    requires c.nodes[m.dst].role != Leader && Perform(c, Deliver(m)).nodes[m.dst].role == Leader
    requires p in c.nodes[m.dst].peers
    ensures var n, n' := c.nodes[m.dst], Perform(c, Deliver(m)).nodes[m.dst];
            && n'.log == n.log && AppendEntriesFor(n', p) in Perform(c, Deliver(m)).network
            && ContinuesAfter(n.log, AppendEntriesFor(n', p), |n.log| - 1)
            && MatchOf(n', p) == -1 && n'.leaderId == Some(n.id)
  {
    hide Record, AppendEntriesFor, Heartbeats, ContinuesAfter, OnMessage;
    var n' := Perform(c, Deliver(m)).nodes[m.dst];
    if !m.VoteResponse? { VotesMakeLeaders(c.nodes[m.dst], m); }
    BecameLeader(c.nodes[m.dst], m);
    SendsContinuation(n', p);
    SendsToAll(n', p);
  }

  // ---------- a conversation ----------

  /** The leader sends to all, or it and one of the others have a message delivered. */
  predicate Talk(v: NodeId, others: set<NodeId>, a: Action) {
    match a
    case HeartbeatTick(u) => u == v
    case Deliver(m) => (m.AppendEntries? && m.src == v && m.dst in others) || (m.AppendResponse? && m.dst == v && m.src in others)
    case _ => false
  }

  /** A run that only talks, and where it has led. */
  datatype Course = Course(leader: NodeId, others: set<NodeId>, start: Cluster, actions: seq<Action>, now: Cluster)

  ghost predicate Real(k: Course) {
    && Runs(k.start, k.actions) && After(k.start, k.actions) == k.now && Inv(k.now)
    && forall a | a in k.actions :: Talk(k.leader, k.others, a)
  }

  ghost predicate SameTalk(k: Course, k': Course) {
    Real(k') && k'.leader == k.leader && k'.others == k.others && k'.start == k.start && k.now.network <= k'.now.network
  }

  lemma {:induction false} OneMore(c: Cluster, actions: seq<Action>, a: Action)
    requires Runs(c, actions) && Enabled(After(c, actions), a)
    ensures Runs(c, actions + [a]) && After(c, actions + [a]) == Perform(After(c, actions), a)
    decreases |actions|
  {
    hide Perform, Enabled;
    if actions == [] {
      assert [a][1..] == [] && actions + [a] == [a];
      assert Runs(Perform(c, a), []);
    } else {
      assert (actions + [a])[1..] == actions[1..] + [a];
      OneMore(Perform(c, actions[0]), actions[1..], a);
    }
  }

  lemma Next(k: Course, a: Action) returns (k': Course)
    requires Real(k) && Enabled(k.now, a) && Talk(k.leader, k.others, a)
    ensures var out := React(k.now.nodes[Actor(a)], a);
            && SameTalk(k, k') && k'.now.nodes == k.now.nodes[Actor(a) := out.node]
            && forall m | m in out.sent :: m in k'.now.network
  {
    hide Record, OnMessage, TimedOut, Heartbeats, Submitted, Inv, Runs, After, Talk;
    OneMore(k.start, k.actions, a);
    PerformInv(k.now, a);
    k' := k.(actions := k.actions + [a], now := Perform(k.now, a));
  }

  /** The leader, and one of the others that does not know of a later term. */
  ghost predicate Paired(k: Course, q: NodeId) {
    && Real(k) && k.leader in k.now.nodes && q in k.now.nodes && q in k.others && q != k.leader
    && k.now.nodes[k.leader].role == Leader
    && k.now.nodes[q].currentTerm <= k.now.nodes[k.leader].currentTerm
  }

  /** The states after the leader's next message to q and q's reply have been delivered. */
  function Exchanged(n: NodeState, f: NodeState): (NodeState, NodeState)
  {
    var out := OnAppendEntries(f, AppendEntriesFor(n, f.id));
    if |out.sent| == 1 && out.sent[0].AppendResponse? then (OnAppendResponse(n, out.sent[0]).node, out.node) else (n, f)
  }

  lemma PairOf(k: Course, q: NodeId)
    requires Paired(k, q)
    ensures var n, f := k.now.nodes[k.leader], k.now.nodes[q];
            && n.id == k.leader && f.id == q && q in n.peers
            && NodeInv(k.now.history, n) && NodeInv(k.now.history, f)
  {
    hide HistoryInv, VoteInv, RoleInv, LogInv, MessageInv;
    assert NodeInv(k.now.history, k.now.nodes[k.leader]) && NodeInv(k.now.history, k.now.nodes[q]);
  }

  /** One send and its reply. */
  lemma Exchange(k: Course, q: NodeId) returns (k': Course)
    requires Paired(k, q)
    ensures var (n', f') := Exchanged(k.now.nodes[k.leader], k.now.nodes[q]);
            SameTalk(k, k') && k'.now.nodes == k.now.nodes[q := f'][k.leader := n']
  {
    hide Real, AppendEntriesFor, OnAppendEntries, OnAppendResponse, Heartbeats, NodeInv;
    PairOf(k, q);
    var n, f := k.now.nodes[k.leader], k.now.nodes[q];
    var m := AppendEntriesFor(n, q);
    SendsToAll(n, q);
    NamesPrevious(n, q);
    Answers(n, f);
    var k1 := Next(k, HeartbeatTick(k.leader));
    assert k1.now.nodes == k.now.nodes;
    AddressedTo(n, q);
    var k2 := Next(k1, Deliver(m));
    k' := Next(k2, Deliver(OnAppendEntries(f, m).sent[0]));
  }

  lemma AddressedTo(n: NodeState, q: NodeId)
    ensures AppendEntriesFor(n, q).dst == q && AppendEntriesFor(n, q).src == n.id
  {
  }

  lemma Answers(n: NodeState, f: NodeState)
    ensures var m := AppendEntriesFor(n, f.id);
            && m.AppendEntries?
            && var out := OnAppendEntries(f, m);
               |out.sent| == 1 && out.sent[0].AppendResponse? && out.sent[0].src == f.id && out.sent[0].dst == n.id
  {
    hide Merged, AdvanceCommit;
  }

  // ---------- what one exchange does ----------

  /** Everything up to the commit index has been applied, and nothing else. */
  predicate Tidy(n: NodeState) {
    && n.lastApplied == n.commitIndex < |n.log|
    && n.applied == Commands(n.log[..n.commitIndex + 1])
  }

  predicate AppliesCommitted(n: NodeState) {
    n.commitIndex <= n.lastApplied
  }

  /** The log a follower ends with: the leader's, unless its own starts with that already. */
  function Final(log: Log, leaders: Log): Log {
    if leaders <= log then log else leaders
  }

  /** The leader has learned about q, and perhaps committed more. */
  ghost predicate Learned(n: NodeState, n': NodeState, q: NodeId) {
    && n' == n.(nextIndex := n'.nextIndex, matchIndex := n'.matchIndex,
                commitIndex := n'.commitIndex, lastApplied := n'.lastApplied, applied := n'.applied)
    && n.commitIndex <= n'.commitIndex
    && (forall p | p != q :: NextOf(n', p) == NextOf(n, p) && MatchOf(n', p) == MatchOf(n, p))
    && (Tidy(n) ==> Tidy(n'))
    && (AppliesCommitted(n) ==> AppliesCommitted(n'))
  }

  function MatchOf(n: NodeState, p: NodeId): Index {
    if p in n.matchIndex then n.matchIndex[p] else -1
  }

  /** The follower of a leader with this log and term has come nearer to it, or stayed where it was. */
  predicate Followed(f: NodeState, f': NodeState, leaders: Log, t: nat) {
    && f'.id == f.id && f'.currentTerm <= t
    && Final(f'.log, leaders) == Final(f.log, leaders)
    && (f.log <= leaders && Tidy(f) ==> f'.log <= leaders && Tidy(f'))
    && (AppliesCommitted(f) ==> AppliesCommitted(f'))
  }

  /** The follower would accept the leader's next message. */
  predicate Accepts(n: NodeState, f: NodeState) {
    NextOf(n, f.id) == 0 || (NextOf(n, f.id) <= |n.log| && NextOf(n, f.id) <= |f.log|
                             && f.log[NextOf(n, f.id) - 1].term == n.log[NextOf(n, f.id) - 1].term)
  }

  /** What is known of the two logs in every reachable state. */
  ghost predicate LogsMatch(h: History, n: NodeState, f: NodeState) {
    && Good(h, n.log) && Good(h, f.log)
    && WellFormed(n.log, n.currentTerm) && WellFormed(f.log, f.currentTerm)
  }

  lemma PairLogs(k: Course, q: NodeId)
    requires Paired(k, q)
    ensures LogsMatch(k.now.history, k.now.nodes[k.leader], k.now.nodes[q])
    ensures k.now.nodes[q].role == Leader ==> k.now.nodes[q].currentTerm < k.now.nodes[k.leader].currentTerm
  {
    hide HistoryInv, VoteInv, MessageInv, Good, WellFormed, Retains, Agree;
    PairOf(k, q);
  }

  lemma AppliedMore(n: NodeState, to: Index)
    requires Tidy(n) && n.commitIndex <= to < |n.log|
    ensures Tidy(ApplyCommitted(n.(commitIndex := to)))
  {
    assert Commands(n.log[..to + 1]) == Commands(n.log[..n.commitIndex + 1]) + Commands(n.log[n.commitIndex + 1..to + 1]);
  }

  lemma UpdateLearns(n: NodeState, q: NodeId)
    ensures var n' := UpdateCommitIndex(n);
            && Learned(n, n', q) && n'.nextIndex == n.nextIndex && n'.matchIndex == n.matchIndex
            && (n.log != [] && Committable(n, |n.log| - 1) ==> |n.log| - 1 <= n'.commitIndex)
  {
    hide Tidy, Committable;
    var target := CommitTarget(n, LastIndex(n.log));
    if target > n.commitIndex && Tidy(n) {
      AppliedMore(n, target);
    }
  }

  lemma TidyStays(n: NodeState, n': NodeState)
    requires n'.log == n.log && n'.commitIndex == n.commitIndex && n'.lastApplied == n.lastApplied && n'.applied == n.applied
    ensures Tidy(n') == Tidy(n) && AppliesCommitted(n') == AppliesCommitted(n)
  {
  }

  /** A refusal: the leader goes one entry back. */
  lemma Refused(h: History, n: NodeState, f: NodeState)
    requires LogsMatch(h, n, f) && n.role == Leader && f.currentTerm <= n.currentTerm && !Accepts(n, f)
    ensures var (n', f') := Exchanged(n, f);
            && Learned(n, n', f.id) && Followed(f, f', n.log, n.currentTerm)
            && NextOf(n', f.id) == NextOf(n, f.id) - 1
  {
    hide Good, Tidy, Merged, AdvanceCommit, Batch, Final;
    var (n', f') := Exchanged(n, f);
    TidyStays(n, n');
    TidyStays(f, f');
  }

  /** A batch of the leader's log merged into a follower's log that agrees with it up to there. */
  lemma MergeNears(h: History, log: Log, leaders: Log, at: nat, entries: Log)
    requires Good(h, log) && Good(h, leaders) && Agree(log, leaders, at) && IsPiece(leaders, at, entries)
    ensures var merged := Merged(log, at, entries);
            && at + |entries| <= |leaders| && Agree(merged, leaders, at + |entries|)
            && Final(merged, leaders) == Final(log, leaders)
            && (log <= leaders ==> log <= merged <= leaders)
            && (at + |entries| == |leaders| ==> merged == Final(log, leaders))
  {
    hide Good, Merged;
    var merged := Merged(log, at, entries);
    MergedWithLeader(h, log, leaders, at, entries);
    if leaders <= log {
      forall i | 0 <= i < |entries| ensures log[at + i].term == entries[i].term {
        assert log[at + i] == leaders[at + i];
      }
      MergeOutcome(log, at, entries);
    }
    if log <= leaders {
      MergeKeepsAgreement(log, at, entries, leaders, |log|);
    }
  }

  lemma TidyLonger(f: NodeState, f': NodeState)
    requires f.log <= f'.log
    requires f'.commitIndex == f.commitIndex && f'.lastApplied == f.lastApplied && f'.applied == f.applied
    ensures Tidy(f) ==> Tidy(f')
  {
    if Tidy(f) {
      assert f'.log[..f.commitIndex + 1] == f.log[..f.commitIndex + 1];
    }
  }

  lemma AdvanceFollows(f: NodeState, leaderCommit: Index)
    ensures var f' := AdvanceCommit(f, leaderCommit);
            && f'.id == f.id && f'.log == f.log && f'.currentTerm == f.currentTerm
            && Min(leaderCommit, LastIndex(f.log)) <= f'.commitIndex
            && (Tidy(f) ==> Tidy(f')) && (AppliesCommitted(f) ==> AppliesCommitted(f'))
  {
    hide Tidy;
    if Tidy(f) { TidyBounds(f); }
    if Tidy(f) && f.commitIndex < leaderCommit {
      AppliedMore(f, Min(leaderCommit, LastIndex(f.log)));
    }
  }

  lemma TidyBounds(n: NodeState)
    requires Tidy(n)
    ensures n.lastApplied == n.commitIndex < |n.log|
  {
  }

  /** Where the leader's next batch for p ends. */
  function EndOf(n: NodeState, p: NodeId): (end: nat)
    requires NextOf(n, p) <= |n.log|
    ensures NextOf(n, p) <= end <= |n.log| && (end < |n.log| ==> NextOf(n, p) < end)
  {
    if NextOf(n, p) + 50 < |n.log| then NextOf(n, p) + 50 else |n.log|
  }

  /** What the follower answers to a message it accepts, and what it becomes. */
  lemma AcceptedReply(h: History, n: NodeState, f: NodeState)
    requires LogsMatch(h, n, f) && f.currentTerm <= n.currentTerm && Accepts(n, f)
    ensures var m := AppendEntriesFor(n, f.id); var at, end := NextOf(n, f.id), EndOf(n, f.id);
            && m.AppendEntries? && IsPiece(n.log, at, m.entries) && at + |m.entries| == end && at <= |f.log|
            && OnAppendEntries(f, m)
            == Outcome(AdvanceCommit(BecomeFollower(f, n.currentTerm).(leaderId := Some(n.id), log := Merged(f.log, at, m.entries)),
                                     n.commitIndex),
                       [AppendResponse(f.id, n.id, n.currentTerm, true, end - 1)])
  {
    hide Good, Merged, AdvanceCommit;
  }

  lemma AcceptedAgrees(h: History, n: NodeState, f: NodeState)
    requires LogsMatch(h, n, f) && Accepts(n, f)
    ensures Agree(f.log, n.log, NextOf(n, f.id))
  {
    hide Good, WellFormed, Agree;
    var at := NextOf(n, f.id);
    if at > 0 {
      LogMatching(h, f.log, n.log, at - 1);
    } else {
      NothingAgrees(f.log, n.log);
    }
  }

  lemma NothingAgrees(a: Log, b: Log)
    ensures Agree(a, b, 0)
  {
  }

  /** The follower after it has accepted the leader's message. */
  lemma AcceptedFollows(h: History, n: NodeState, f: NodeState)
    requires LogsMatch(h, n, f) && n.role == Leader && f.currentTerm <= n.currentTerm && Accepts(n, f)
    ensures var f' := Exchanged(n, f).1; var end := EndOf(n, f.id);
            && Followed(f, f', n.log, n.currentTerm) && Agree(f'.log, n.log, end)
            && (end == |n.log| ==> f'.log == Final(f.log, n.log) && Min(n.commitIndex, |n.log| - 1) <= f'.commitIndex)
  {
    hide Good, WellFormed, Agree, Merged, AdvanceCommit, Tidy, OnAppendEntries, OnAppendResponse, AppendEntriesFor, IsPiece, Final, Accepts;
    AcceptedReply(h, n, f);
    AcceptedAgrees(h, n, f);
    var at, entries := NextOf(n, f.id), AppendEntriesFor(n, f.id).entries;
    MergeNears(h, f.log, n.log, at, entries);
    var f1 := BecomeFollower(f, n.currentTerm).(leaderId := Some(n.id), log := Merged(f.log, at, entries));
    if f.log <= n.log { TidyLonger(f, f1); }
    AdvanceFollows(f1, n.commitIndex);
    AgreeLengths(f1.log, n.log, EndOf(n, f.id));
  }

  lemma AgreeLengths(a: Log, b: Log, n: nat)
    requires Agree(a, b, n)
    ensures n <= |a| && n <= |b|
  {
  }

  /** The leader after it has counted that reply. */
  lemma AcceptedLearns(h: History, n: NodeState, f: NodeState)
    requires LogsMatch(h, n, f) && n.role == Leader && f.currentTerm <= n.currentTerm && Accepts(n, f)
    ensures var n' := Exchanged(n, f).0; var end := EndOf(n, f.id);
            && Learned(n, n', f.id) && NextOf(n', f.id) == end && MatchOf(n', f.id) == end - 1
            && (n.log != [] && Committable(n', |n.log| - 1) ==> |n.log| - 1 <= n'.commitIndex)
  {
    hide Good, WellFormed, Merged, AdvanceCommit, Tidy, OnAppendEntries, AppendEntriesFor, IsPiece, UpdateCommitIndex, Replicators;
    AcceptedReply(h, n, f);
    var end: int := EndOf(n, f.id);
    var matched: Index := end - 1;
    var n1 := n.(matchIndex := n.matchIndex[f.id := matched], nextIndex := n.nextIndex[f.id := end]);
    TidyStays(n, n1);
    UpdateLearns(n1, f.id);
    CommittableStays(n1, UpdateCommitIndex(n1), |n.log| - 1);
  }

  lemma CommittableStays(n: NodeState, n': NodeState, i: int)
    requires n'.log == n.log && n'.currentTerm == n.currentTerm && n'.peers == n.peers && n'.matchIndex == n.matchIndex
    ensures i >= 0 ==> Committable(n', i) == Committable(n, i)
  {
    if i >= 0 {
      assert Replicators(n', i) == Replicators(n, i);
    }
  }

  /** After an accepted message the next one is accepted too. */
  lemma AcceptedAgain(h: History, n: NodeState, f: NodeState)
    requires LogsMatch(h, n, f) && n.role == Leader && f.currentTerm <= n.currentTerm && Accepts(n, f)
    ensures var (n', f') := Exchanged(n, f); Accepts(n', f')
  {
    hide LogsMatch, Exchanged, Final, Tidy, Committable, Agree;
    AcceptedFollows(h, n, f);
    AcceptedLearns(h, n, f);
    var (n', f') := Exchanged(n, f);
    var end := EndOf(n, f.id);
    AgreeLengths(f'.log, n.log, end);
    if end > 0 { AgreeAt(f'.log, n.log, end, end - 1); }
  }

  // ---------- catching up ----------

  /** k' continues k by talk with these others only, and with no loss for any of them. */
  ghost predicate Nearer(k: Course, k': Course, qs: set<NodeId>) {
    && SameTalk(k, k') && OthersSame(k.now.nodes, k'.now.nodes, {k.leader} + qs) && k.leader in k.now.nodes
    && var n, n' := k.now.nodes[k.leader], k'.now.nodes[k.leader];
       && Kept(n, n') && (forall p | p !in qs :: NextOf(n', p) == NextOf(n, p) && MatchOf(n', p) == MatchOf(n, p))
       && forall q | q in qs && q in k.now.nodes :: Followed(k.now.nodes[q], k'.now.nodes[q], n.log, n.currentTerm)
  }

  predicate OthersSame(before: map<NodeId, NodeState>, after: map<NodeId, NodeState>, changed: set<NodeId>) {
    before.Keys == after.Keys && forall v | v in before && v !in changed :: after[v] == before[v]
  }

  /** The leader has the same log in the same term, and has committed no less. */
  predicate Kept(n: NodeState, n': NodeState) {
    && n' == n.(nextIndex := n'.nextIndex, matchIndex := n'.matchIndex,
                commitIndex := n'.commitIndex, lastApplied := n'.lastApplied, applied := n'.applied)
    && n.commitIndex <= n'.commitIndex
    && (Tidy(n) ==> Tidy(n')) && (AppliesCommitted(n) ==> AppliesCommitted(n'))
  }

  lemma NearerStep(k: Course, k': Course, q: NodeId)
    requires Paired(k, q) && SameTalk(k, k')
    requires var (n', f') := Exchanged(k.now.nodes[k.leader], k.now.nodes[q]);
             && k'.now.nodes == k.now.nodes[q := f'][k.leader := n']
             && Learned(k.now.nodes[k.leader], n', q)
             && Followed(k.now.nodes[q], f', k.now.nodes[k.leader].log, k.now.nodes[k.leader].currentTerm)
    ensures Nearer(k, k', {q}) && Paired(k', q)
  {
    hide Real, Exchanged, Tidy, Final;
  }

  lemma NearerOn(k: Course, k1: Course, k2: Course, ps: set<NodeId>, qs: set<NodeId>)
    requires Nearer(k, k1, ps) && Nearer(k1, k2, qs) && (ps == qs || ps !! qs) && k.leader !in ps + qs
    ensures Nearer(k, k2, ps + qs)
  {
    hide Real, Tidy, Final, AppliesCommitted;
  }

  lemma ExchangeNears(k: Course, q: NodeId) returns (k': Course)
    requires Paired(k, q)
    ensures Nearer(k, k', {q}) && Paired(k', q)
    ensures (k'.now.nodes[k.leader], k'.now.nodes[q]) == Exchanged(k.now.nodes[k.leader], k.now.nodes[q])
  {
    hide Real, LogsMatch, Exchanged, Learned, Followed, Nearer;
    PairOf(k, q);
    PairLogs(k, q);
    var n, f := k.now.nodes[k.leader], k.now.nodes[q];
    if Accepts(n, f) {
      AcceptedFollows(k.now.history, n, f);
      AcceptedLearns(k.now.history, n, f);
    } else {
      Refused(k.now.history, n, f);
    }
    k' := Exchange(k, q);
    NearerStep(k, k', q);
  }

  /** The leader goes back until its message is accepted. */
  lemma {:induction false} GoBack(k: Course, q: NodeId) returns (k': Course)
    requires Paired(k, q)
    ensures Nearer(k, k', {q}) && Paired(k', q) && Accepts(k'.now.nodes[k.leader], k'.now.nodes[q])
    decreases NextOf(k.now.nodes[k.leader], q)
  {
    hide Real, LogsMatch, Exchanged, Learned, Followed, Nearer, Accepts;
    PairOf(k, q);
    PairLogs(k, q);
    var n, f := k.now.nodes[k.leader], k.now.nodes[q];
    if Accepts(n, f) {
      k' := k;
      NearAtOnce(k, q);
    } else {
      Refused(k.now.history, n, f);
      GoesDown(n, f);
      var k1 := ExchangeNears(k, q);
      SameLeader(k, k1, q);
      k' := GoBack(k1, q);
      SameLeader(k1, k', q);
      NearerOn(k, k1, k', {q}, {q});
      assert {q} + {q} == {q};
    }
  }

  lemma GoesDown(n: NodeState, f: NodeState)
    requires !Accepts(n, f)
    ensures NextOf(n, f.id) > 0
  {
  }

  lemma SameLeader(k: Course, k1: Course, q: NodeId)
    requires Nearer(k, k1, {q})
    ensures k1.leader == k.leader && k1.others == k.others && SameTalk(k, k1)
    ensures k.leader in k.now.nodes && k.leader in k1.now.nodes && Kept(k.now.nodes[k.leader], k1.now.nodes[k.leader])
  {
    hide Real;
  }

  lemma NearAtOnce(k: Course, q: NodeId)
    requires Paired(k, q)
    ensures Nearer(k, k, {q})
  {
    hide Real, Tidy;
  }

  /** The leader knows that the follower's log has come up to its own. */
  ghost predicate CaughtUp(n: NodeState, f: NodeState) {
    NextOf(n, f.id) == |n.log| && MatchOf(n, f.id) == |n.log| - 1 && f.log == Final(f.log, n.log)
  }

  /** If enough peers match the leader's whole log and its last entry is its own, that entry is committed. */
  predicate CommitsAll(n: NodeState) {
    n.log != [] && Committable(n, |n.log| - 1) ==> |n.log| - 1 <= n.commitIndex
  }

  /** From the first accepted message on, batch after batch, to the end of the log. */
  lemma {:induction false} GoForward(k: Course, q: NodeId) returns (k': Course)
    requires Paired(k, q) && Accepts(k.now.nodes[k.leader], k.now.nodes[q])
    ensures Nearer(k, k', {q}) && Paired(k', q) && CaughtUp(k'.now.nodes[k.leader], k'.now.nodes[q])
    ensures CommitsAll(k'.now.nodes[k.leader])
    ensures var n := k.now.nodes[k.leader]; Min(n.commitIndex, |n.log| - 1) <= k'.now.nodes[q].commitIndex
    decreases |k.now.nodes[k.leader].log| - NextOf(k.now.nodes[k.leader], q)
  {
    hide Real, LogsMatch, Exchanged, Learned, Followed, Nearer, Agree, Final, Committable;
    PairOf(k, q);
    PairLogs(k, q);
    var n, f := k.now.nodes[k.leader], k.now.nodes[q];
    AcceptedFollows(k.now.history, n, f);
    AcceptedLearns(k.now.history, n, f);
    AcceptedAgain(k.now.history, n, f);
    var k1 := ExchangeNears(k, q);
    SameLeader(k, k1, q);
    PairOf(k1, q);
    if EndOf(n, q) == |n.log| {
      k' := k1;
      FinalTwice(f.log, n.log);
    } else {
      k' := GoForward(k1, q);
      SameLeader(k1, k', q);
      NearerOn(k, k1, k', {q}, {q});
      assert {q} + {q} == {q};
    }
  }

  lemma FinalTwice(log: Log, leaders: Log)
    ensures Final(Final(log, leaders), leaders) == Final(log, leaders)
  {
  }

  lemma CatchUp(k: Course, q: NodeId) returns (k': Course)
    requires Paired(k, q)
    ensures Nearer(k, k', {q}) && Paired(k', q) && CaughtUp(k'.now.nodes[k.leader], k'.now.nodes[q])
    ensures CommitsAll(k'.now.nodes[k.leader])
    ensures var n := k.now.nodes[k.leader]; Min(n.commitIndex, |n.log| - 1) <= k'.now.nodes[q].commitIndex
  {
    hide Real, Nearer, Accepts, CaughtUp, CommitsAll, Tidy;
    var k1 := GoBack(k, q);
    SameLeader(k, k1, q);
    k' := GoForward(k1, q);
    SameLeader(k1, k', q);
    NearerOn(k, k1, k', {q}, {q});
    assert {q} + {q} == {q};
  }

  lemma StillPaired(k: Course, k1: Course, q: NodeId, p: NodeId)
    requires Nearer(k, k1, {q}) && Paired(k, p) && p != q
    ensures Paired(k1, p) && k1.now.nodes[p] == k.now.nodes[p]
  {
    hide Real;
  }

  ghost predicate AllPaired(k: Course, qs: set<NodeId>) {
    forall q | q in qs :: Paired(k, q)
  }

  /** Of the followers listed, each has caught up and has committed up to this index. */
  ghost predicate AllCaughtUp(k: Course, qs: set<NodeId>, upTo: Index) {
    && k.leader in k.now.nodes
    && forall q | q in qs :: q in k.now.nodes && CaughtUp(k.now.nodes[k.leader], k.now.nodes[q]) && upTo <= k.now.nodes[q].commitIndex
  }

  lemma StillCaughtUp(k: Course, k1: Course, q: NodeId, p: NodeId, upTo: Index)
    requires Nearer(k, k1, {q}) && p != q && p != k.leader && p in k.now.nodes && k.now.nodes[p].id == p
    requires k.leader in k.now.nodes && CaughtUp(k.now.nodes[k.leader], k.now.nodes[p]) && upTo <= k.now.nodes[p].commitIndex
    ensures k1.leader == k.leader && k.leader in k1.now.nodes && p in k1.now.nodes
    ensures CaughtUp(k1.now.nodes[k.leader], k1.now.nodes[p]) && upTo <= k1.now.nodes[p].commitIndex
  {
    hide Real, Final;
  }

  /** Follower after follower. */
  lemma {:induction false} CatchUpAll(k: Course, todo: set<NodeId>, upTo: Index) returns (k': Course)
    requires Real(k) && k.leader in k.now.nodes && AllPaired(k, todo)
    requires upTo <= k.now.nodes[k.leader].commitIndex && upTo < |k.now.nodes[k.leader].log|
    ensures Nearer(k, k', todo) && AllPaired(k', todo) && AllCaughtUp(k', todo, upTo)
    ensures todo != {} ==> CommitsAll(k'.now.nodes[k.leader])
    decreases |todo|
  {
    hide Real, Nearer, CaughtUp, CommitsAll, Paired, Kept;
    if todo == {} {
      k' := k;
      NearNobody(k);
    } else {
      var q :| q in todo;
      var k1 := CatchUpAll(k, todo - {q}, upTo);
      k' := CatchUpOne(k, k1, todo - {q}, q, upTo);
      assert todo - {q} + {q} == todo;
    }
  }

  lemma NearNobody(k: Course)
    requires Real(k) && k.leader in k.now.nodes
    ensures Nearer(k, k, {})
  {
    hide Real, Tidy;
  }

  lemma OutsideStays(k: Course, k1: Course, qs: set<NodeId>, q: NodeId)
    requires Nearer(k, k1, qs) && Paired(k, q) && q !in qs
    ensures Paired(k1, q)
  {
    hide Real;
  }

  lemma KeptIn(k: Course, k1: Course, qs: set<NodeId>)
    requires Nearer(k, k1, qs)
    ensures k.leader in k.now.nodes && k.leader in k1.now.nodes && k1.leader == k.leader && SameTalk(k, k1)
    ensures Kept(k.now.nodes[k.leader], k1.now.nodes[k.leader])
  {
    hide Real, Tidy;
  }

  lemma NotItself(k: Course, q: NodeId)
    requires Paired(k, q)
    ensures q in k.now.nodes && k.now.nodes[q].id == q && q != k.leader && k.leader in k.now.nodes
  {
    hide NodeInv, Real;
    PairOf(k, q);
  }

  lemma CatchUpOne(k: Course, k1: Course, done: set<NodeId>, q: NodeId, upTo: Index) returns (k': Course)
    requires Nearer(k, k1, done) && AllPaired(k, done + {q}) && AllPaired(k1, done) && AllCaughtUp(k1, done, upTo) && q !in done
    requires k.leader in k.now.nodes && upTo <= k.now.nodes[k.leader].commitIndex && upTo < |k.now.nodes[k.leader].log|
    ensures Nearer(k, k', done + {q}) && AllPaired(k', done + {q}) && AllCaughtUp(k', done + {q}, upTo)
    ensures CommitsAll(k'.now.nodes[k.leader])
  {
    hide Real, Nearer, CaughtUp, CommitsAll, Paired, Tidy;
    KeptIn(k, k1, done);
    OutsideStays(k, k1, done, q);
    k' := CatchUp(k1, q);
    KeptIn(k1, k', {q});
    NotItself(k, q);
    NotItself(k', q);
    forall p | p in done ensures p in k'.now.nodes && Paired(k', p)
      && CaughtUp(k'.now.nodes[k'.leader], k'.now.nodes[p]) && upTo <= k'.now.nodes[p].commitIndex {
      NotItself(k1, p);
      StillCaughtUp(k1, k', q, p, upTo);
      StillPaired(k1, k', q, p);
    }
    forall p | p in done ensures p != k.leader { NotItself(k, p); }
    NearerOn(k, k1, k', done, {q});
  }
}
