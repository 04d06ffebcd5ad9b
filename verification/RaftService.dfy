/**
 * Runs in which Raft does its work, from every reachable state: logs are copied,
 * entries are committed, and commands are applied.
 */
module RaftService {
  import opened Quorums
  import opened LockCommands
  import opened RaftTypes
  import opened RaftHandlers
  import opened RaftHistory
  import opened RaftInvariant
  import opened RaftCluster
  import opened RaftProgress
  import Elections = RaftUncoveredCommit

  // ---------- applied up to the commit index ----------

  lemma ReactApplies(n: NodeState, a: Action)
    requires AppliesCommitted(n)
    ensures AppliesCommitted(React(n, a).node)
  {
    hide GrantsVote, Heartbeats, VoteRequests, PrevMatches;
  }

  ghost predicate AllApply(c: Cluster) {
    forall v | v in c.nodes :: AppliesCommitted(c.nodes[v])
  }

  lemma {:induction false} RunAppliesCommitted(c: Cluster, actions: seq<Action>)
    requires AllApply(c) && Runs(c, actions)
    ensures AllApply(After(c, actions))
    decreases |actions|
  {
    hide AppliesCommitted, React, Record;
    if actions != [] {
      ReactApplies(c.nodes[Actor(actions[0])], actions[0]);
      RunAppliesCommitted(Perform(c, actions[0]), actions[1..]);
    }
  }

  // ---------- a majority that has caught up ----------

  /** The last entry of the leader's log is of its own term. */
  predicate EndsInOwnTerm(n: NodeState) {
    n.log != [] && n.log[|n.log| - 1].term == n.currentTerm
  }

  /** Together with the leader these are more than half. */
  predicate Suffices(c: Cluster, others: set<NodeId>) {
    others != {} && 1 + |others| >= Majority(|c.nodes|)
  }

  lemma PeersCount(c: Cluster, v: NodeId)
    requires Inv(c) && v in c.nodes
    ensures |c.nodes[v].peers| + 1 == |c.nodes| && forall p :: p in c.nodes[v].peers <==> p in c.nodes && p != v
  {
    hide HistoryInv, VoteInv, RoleInv, LogInv, MessageInv;
    var n := c.nodes[v];
    assert NodeInv(c.history, n);
    DistinctSize(n.peers, c.nodes.Keys - {v});
  }

  lemma MatchedSuffice(c: Cluster, v: NodeId, others: set<NodeId>)
    requires Inv(c) && v in c.nodes && others <= c.nodes.Keys - {v} && Suffices(c, others)
    requires EndsInOwnTerm(c.nodes[v]) && forall q | q in others :: MatchOf(c.nodes[v], q) == |c.nodes[v].log| - 1
    ensures Committable(c.nodes[v], |c.nodes[v].log| - 1)
  {
    hide Inv;
    PeersCount(c, v);
    var n := c.nodes[v];
    SubsetSize(others, Replicators(n, |n.log| - 1));
  }

  /** Whatever stands behind a leader's own last entry, in no later term, is of that term too. */
  lemma BehindLastEntry(n: NodeState, log: Log, t: nat)
    requires EndsInOwnTerm(n) && n.log <= log && |n.log| < |log| && WellFormed(log, t) && t <= n.currentTerm
    ensures log[|n.log|].term == n.currentTerm
  {
    var i := |n.log|;
    assert log[i - 1] == n.log[i - 1];
    assert log[i - 1].term <= log[i].term <= t;
  }

  lemma WithinLeaderLog(h: History, log: Log, i: nat)
    requires Good(h, log) && i < |log|
    ensures i < |LeaderLog(h, log[i].term)|
  {
    assert Agree(log, LeaderLog(h, log[i].term), i + 1);
  }

  /** A log that starts with that of a leader whose last entry is its own, in no later term, is that log. */
  lemma NoLonger(h: History, n: NodeState, f: NodeState)
    requires NodeInv(h, n) && n.role == Leader && EndsInOwnTerm(n)
    requires NodeInv(h, f) && f.currentTerm <= n.currentTerm && n.log <= f.log
    ensures f.log == n.log
  {
    hide PeersOk, VoteInv, Retains, Good, WellFormed, EndsInOwnTerm, LeaderLog;
    if |n.log| < |f.log| {
      BehindLastEntry(n, f.log, f.currentTerm);
      WithinLeaderLog(h, f.log, |n.log|);
      assert false;
    }
  }

  lemma LeaderSide(k: Course, others: set<NodeId>)
    requires Real(k) && k.leader in k.now.nodes && others <= k.now.nodes.Keys - {k.leader} && Suffices(k.now, others)
    requires AllCaughtUp(k, others, -1) && forall q | q in others :: k.now.nodes[q].id == q
    requires EndsInOwnTerm(k.now.nodes[k.leader]) && CommitsAll(k.now.nodes[k.leader])
    ensures |k.now.nodes[k.leader].log| - 1 <= k.now.nodes[k.leader].commitIndex
  {
    hide Committable, Runs, After, Inv, Final;
    MatchedSuffice(k.now, k.leader, others);
  }

  /** Two rounds of catching up: the first lets the leader commit, the second tells the others. */
  lemma Replicate(k: Course, others: set<NodeId>) returns (k': Course)
    requires Real(k) && k.leader in k.now.nodes && AllPaired(k, others) && others <= k.now.nodes.Keys - {k.leader}
    ensures Nearer(k, k', others) && AllPaired(k', others) && AllCaughtUp(k', others, -1)
    ensures Suffices(k.now, others) && EndsInOwnTerm(k.now.nodes[k.leader]) ==>
              && |k'.now.nodes[k.leader].log| - 1 <= k'.now.nodes[k.leader].commitIndex
              && AllCaughtUp(k', others, |k'.now.nodes[k.leader].log| - 1)
  {
    hide Real, Nearer, CaughtUp, CommitsAll, Paired, Tidy;
    var k1 := CatchUpAll(k, others, -1);
    KeptIn(k, k1, others);
    SameNodes(k, k1, others);
    var n1 := k1.now.nodes[k.leader];
    var upTo := -1;
    if Suffices(k.now, others) && EndsInOwnTerm(k.now.nodes[k.leader]) {
      forall q | q in others ensures k1.now.nodes[q].id == q { NotItself(k1, q); }
      LeaderSide(k1, others);
      upTo := |n1.log| - 1;
    }
    k' := CatchUpAll(k1, others, upTo);
    KeptIn(k1, k', others);
    NearerOn(k, k1, k', others, others);
    assert others + others == others;
  }

  lemma SameNodes(k: Course, k1: Course, qs: set<NodeId>)
    requires Nearer(k, k1, qs)
    ensures k1.now.nodes.Keys == k.now.nodes.Keys
  {
    hide Real;
  }

  // ---------- replication completes ----------

  lemma InitialApplies(c: Cluster)
    requires Initial(c)
    ensures AllApply(c)
  {
  }

  /** What is left to show of a leader and others that have caught up. */
  lemma SameLogs(k: Course, k': Course, others: set<NodeId>, q: NodeId)
    requires Nearer(k, k', others) && AllCaughtUp(k', others, -1) && AllPaired(k', others) && q in others && q in k.now.nodes
    ensures q in k'.now.nodes && k'.leader == k.leader && k.leader in k.now.nodes && k.leader in k'.now.nodes
    ensures k'.now.nodes[q].log == Final(k.now.nodes[q].log, k.now.nodes[k.leader].log)
    ensures MatchOf(k'.now.nodes[k.leader], q) == |k.now.nodes[k.leader].log| - 1
    ensures NextOf(k'.now.nodes[k.leader], q) == |k.now.nodes[k.leader].log|
    ensures EndsInOwnTerm(k.now.nodes[k.leader]) ==> k'.now.nodes[q].log == k.now.nodes[k.leader].log
  {
    hide Real, NodeInv, Tidy;
    assert Paired(k', q);
    PairOf(k', q);
    assert q in k.now.nodes && q in k'.now.nodes;
    if EndsInOwnTerm(k.now.nodes[k.leader]) && k.now.nodes[k.leader].log <= k'.now.nodes[q].log {
      NoLonger(k'.now.history, k'.now.nodes[k.leader], k'.now.nodes[q]);
    }
  }

  ghost predicate Leading(c: Cluster, v: NodeId, others: set<NodeId>) {
    && v in c.nodes && c.nodes[v].role == Leader && others <= c.nodes.Keys - {v}
    && forall q | q in others :: c.nodes[q].currentTerm <= c.nodes[v].currentTerm
  }

  lemma StartTalk(c: Cluster, v: NodeId, others: set<NodeId>) returns (k: Course)
    requires Inv(c) && Leading(c, v, others)
    ensures k == Course(v, others, c, [], c) && Real(k) && AllPaired(k, others)
  {
    hide Inv;
    k := Course(v, others, c, [], c);
  }

  /**
   * From any reachable state in which v leads and none of the others listed is in a later
   * term, messages between v and them alone bring each of their logs to v's; a log that
   * already starts with v's stays as it is. If v's last entry is of its own term and they
   * make a majority with v, the whole log is then committed and applied on all of them.
   */
  lemma ReplicationCompletes(c: Cluster, earlier: seq<Action>, v: NodeId, others: set<NodeId>)
    returns (talk: seq<Action>)
    requires Initial(c) && Runs(c, earlier) && Leading(After(c, earlier), v, others)
    ensures forall a | a in talk :: Talk(v, others, a)
    ensures Runs(After(c, earlier), talk)
    ensures var before, after := After(c, earlier).nodes, After(After(c, earlier), talk).nodes;
            && after.Keys == before.Keys && after[v].role == Leader
            && after[v].currentTerm == before[v].currentTerm && after[v].log == before[v].log
            && (forall w | w in before && w != v && w !in others :: after[w] == before[w])
            && (forall q | q in others ::
                  && after[q].log == (if before[v].log <= before[q].log then before[q].log else before[v].log)
                  && NextOf(after[v], q) == |before[v].log| && MatchOf(after[v], q) == |before[v].log| - 1)
            && (EndsInOwnTerm(before[v]) && Suffices(After(c, earlier), others) ==>
                  forall u | u in others + {v} ::
                    && after[u].log == before[v].log
                    && |before[v].log| - 1 <= after[u].commitIndex <= after[u].lastApplied)
  {
    hide Initial, Inv, Leading, Suffices, EndsInOwnTerm, Nearer, AllCaughtUp, AllPaired, Runs, After, AppliesCommitted, Kept, Real, Final, Talk;
    InitialInv(c);
    RunInv(c, earlier);
    InitialApplies(c);
    RunAppliesCommitted(c, earlier);
    var c1 := After(c, earlier);
    LeadingIs(c1, v, others);
    var k := StartTalk(c1, v, others);
    var k' := Replicate(k, others);
    talk := k'.actions;
    KeptIn(k, k', others);
    TalkIs(k');
    RunAppliesCommitted(c1, talk);
    LeaderIs(k, k', others);
    forall q | q in others
      ensures k'.now.nodes[q].log == (if c1.nodes[v].log <= c1.nodes[q].log then c1.nodes[q].log else c1.nodes[v].log)
      ensures NextOf(k'.now.nodes[v], q) == |c1.nodes[v].log| && MatchOf(k'.now.nodes[v], q) == |c1.nodes[v].log| - 1
      ensures EndsInOwnTerm(c1.nodes[v]) ==> k'.now.nodes[q].log == c1.nodes[v].log
    {
      CaughtUpUnpacked(k', others, -1, q);
      SameLogs(k, k', others, q);
      FinalIs(c1.nodes[q].log, c1.nodes[v].log);
    }
    if EndsInOwnTerm(c1.nodes[v]) && Suffices(c1, others) {
      forall u | u in others + {v} ensures |c1.nodes[v].log| - 1 <= k'.now.nodes[u].commitIndex <= k'.now.nodes[u].lastApplied {
        if u != v { CaughtUpUnpacked(k', others, |c1.nodes[v].log| - 1, u); }
        AppliesAt(k'.now, u);
      }
    }
  }

  lemma LeadingIs(c: Cluster, v: NodeId, others: set<NodeId>)
    requires Leading(c, v, others)
    ensures v in c.nodes && others <= c.nodes.Keys - {v} && c.nodes[v].role == Leader
  {
  }

  lemma TalkIs(k: Course)
    requires Real(k)
    ensures Runs(k.start, k.actions) && After(k.start, k.actions) == k.now && Inv(k.now)
    ensures forall a | a in k.actions :: Talk(k.leader, k.others, a)
  {
    hide Inv, Talk;
  }

  lemma LeaderIs(k: Course, k': Course, qs: set<NodeId>)
    requires Nearer(k, k', qs)
    ensures k.leader in k.now.nodes && k'.now.nodes.Keys == k.now.nodes.Keys && k'.start == k.start && k'.others == k.others
    ensures var n, n' := k.now.nodes[k.leader], k'.now.nodes[k.leader];
            n'.role == n.role && n'.currentTerm == n.currentTerm && n'.log == n.log
    ensures forall w | w in k.now.nodes && w != k.leader && w !in qs :: k'.now.nodes[w] == k.now.nodes[w]
  {
    hide Real, Tidy;
  }

  lemma CaughtUpUnpacked(k: Course, qs: set<NodeId>, upTo: Index, q: NodeId)
    requires AllCaughtUp(k, qs, upTo) && q in qs
    ensures q in k.now.nodes && upTo <= k.now.nodes[q].commitIndex
  {
  }

  lemma FinalIs(log: Log, leaders: Log)
    ensures Final(log, leaders) == if leaders <= log then log else leaders
  {
  }

  lemma AppliesAt(c: Cluster, u: NodeId)
    requires AllApply(c) && u in c.nodes
    ensures c.nodes[u].commitIndex <= c.nodes[u].lastApplied
  {
  }

  // ---------- from the start to the last command ----------

  lemma {:induction false} RunsJoin(c: Cluster, first: seq<Action>, second: seq<Action>)
    requires Runs(c, first) && Runs(After(c, first), second)
    ensures Runs(c, first + second) && After(c, first + second) == After(After(c, first), second)
    decreases |first|
  {
    hide Perform, Enabled;
    if first == [] {
      assert first + second == second;
    } else {
      assert (first + second)[1..] == first[1..] + second;
      RunsJoin(Perform(c, first[0]), first[1..], second);
    }
  }

  /** The entries for these commands in one term, from this index on. */
  function EntriesOf(commands: seq<Command>, term: nat, at: nat): (log: Log)
    ensures |log| == |commands|
  {
    seq(|commands|, i requires 0 <= i < |commands| => LogEntry(term, at + i, commands[i]))
  }

  function WithEntries(n: NodeState, commands: seq<Command>): NodeState {
    n.(log := n.log + EntriesOf(commands, n.currentTerm, |n.log|))
  }

  /** The leader is asked for one command after the other. */
  lemma {:induction false} SubmitAll(c: Cluster, v: NodeId, commands: seq<Command>) returns (run: seq<Action>)
    requires v in c.nodes && c.nodes[v].role == Leader && c.nodes[v].id == v
    ensures Runs(c, run) && After(c, run).nodes == c.nodes[v := WithEntries(c.nodes[v], commands)]
    decreases |commands|
  {
    hide Record, Heartbeats;
    if commands == [] {
      run := [];
      assert c.nodes[v].log + EntriesOf(commands, c.nodes[v].currentTerm, |c.nodes[v].log|) == c.nodes[v].log;
      assert c.nodes[v := c.nodes[v]] == c.nodes;
    } else {
      var k := |commands| - 1;
      run := SubmitAll(c, v, commands[..k]);
      var c1 := After(c, run);
      OneMore(c, run, ClientSubmit(v, commands[k]));
      run := run + [ClientSubmit(v, commands[k])];
      assert EntriesOf(commands, c.nodes[v].currentTerm, |c.nodes[v].log|)
          == EntriesOf(commands[..k], c.nodes[v].currentTerm, |c.nodes[v].log|)
             + [LogEntry(c.nodes[v].currentTerm, |c1.nodes[v].log|, commands[k])];
      assert WithEntries(c.nodes[v], commands) == c1.nodes[v].(log := c1.nodes[v].log + [LogEntry(c.nodes[v].currentTerm, |c1.nodes[v].log|, commands[k])]);
    }
  }

  /** The node has this term and log and has applied nothing. */
  predicate Begins(n: NodeState, term: nat) {
    n.currentTerm == term && n.log == [] && Tidy(n) && n.commitIndex == -1
  }

  /** Any node can be elected first. */
  lemma FirstElection(c: Cluster, v: NodeId) returns (run: seq<Action>)
    requires Initial(c) && v in c.nodes && |c.nodes| >= 2
    ensures Runs(c, run) && After(c, run).nodes.Keys == c.nodes.Keys && After(c, run).nodes[v].role == Leader
    ensures forall u | u in c.nodes :: Begins(After(c, run).nodes[u], 1)
  {
    hide Initial, Runs, After;
    var k := Elections.FirstTerm(c, v);
    run := k.actions;
    forall u | u in c.nodes ensures u in k.now.nodes && Begins(k.now.nodes[u], 1) {
      if u != v { assert u in c.nodes.Keys - {v}; }
    }
  }

  lemma CommandsOf(commands: seq<Command>, term: nat)
    ensures Commands(EntriesOf(commands, term, 0)) == commands
    ensures commands != [] ==> var log := EntriesOf(commands, term, 0); log != [] && log[|log| - 1].term == term
  {
  }

  lemma BeginsWithEntries(n: NodeState, commands: seq<Command>, term: nat)
    requires Begins(n, term)
    ensures var n' := WithEntries(n, commands); Tidy(n') && n'.log == EntriesOf(commands, term, 0) && n'.currentTerm == term
  {
  }

  /** A tidy node that has committed its whole log has applied all of its commands. */
  lemma AllApplied(n: NodeState)
    requires Tidy(n) && |n.log| - 1 <= n.commitIndex
    ensures n.applied == Commands(n.log)
  {
    assert n.log[..n.commitIndex + 1] == n.log;
  }

  /** Every node is tidy again when the talk is over, and has the leader's log. */
  lemma TidyAfter(k: Course, k': Course, others: set<NodeId>, u: NodeId)
    requires Nearer(k, k', others) && AllCaughtUp(k', others, -1) && AllPaired(k', others) && u in k.now.nodes
    requires k.leader in k.now.nodes && EndsInOwnTerm(k.now.nodes[k.leader])
    requires u == k.leader || (u in others && k.now.nodes[u].log == [])
    requires Tidy(k.now.nodes[u])
    ensures u in k'.now.nodes && Tidy(k'.now.nodes[u]) && k'.now.nodes[u].log == k.now.nodes[k.leader].log
  {
    hide Real, Tidy, AllPaired, AllCaughtUp, EndsInOwnTerm;
    if u != k.leader { SameLogs(k, k', others, u); }
  }

  /** A leader with the whole list of commands in its log, and everybody else with nothing, serves them. */
  lemma ServeFrom(c: Cluster, v: NodeId, commands: seq<Command>, term: nat) returns (talk: seq<Action>)
    requires Inv(c) && v in c.nodes && c.nodes[v].role == Leader && |c.nodes| >= 2 && commands != []
    requires c.nodes[v].log == EntriesOf(commands, term, 0) && c.nodes[v].currentTerm == term && Tidy(c.nodes[v])
    requires forall u | u in c.nodes && u != v :: Begins(c.nodes[u], term)
    ensures Runs(c, talk) && After(c, talk).nodes.Keys == c.nodes.Keys
    ensures forall u | u in c.nodes :: After(c, talk).nodes[u].applied == commands
  {
    hide Inv, Nearer, AllCaughtUp, AllPaired, Runs, After, Kept, Real, Tidy, Talk, EntriesOf, Commands;
    var others := c.nodes.Keys - {v};
    assert |others| == |c.nodes| - 1;
    CommandsOf(commands, term);
    var k := StartTalk(c, v, others);
    var k' := Replicate(k, others);
    talk := k'.actions;
    KeptIn(k, k', others);
    TalkIs(k');
    LeaderIs(k, k', others);
    forall u | u in c.nodes ensures u in k'.now.nodes && k'.now.nodes[u].applied == commands {
      TidyAfter(k, k', others, u);
      if u != v { CaughtUpUnpacked(k', others, |c.nodes[v].log| - 1, u); }
      AllApplied(k'.now.nodes[u]);
    }
  }

  /**
   * The service Raft provides: in every cluster of at least two nodes, whatever node is
   * to lead and whatever the commands, there is a run after which every node has
   * applied exactly these commands in this order.
   */
  lemma CommandsAreServed(c: Cluster, v: NodeId, commands: seq<Command>) returns (run: seq<Action>)
    requires Initial(c) && v in c.nodes && |c.nodes| >= 2
    ensures Runs(c, run) && After(c, run).nodes.Keys == c.nodes.Keys
    ensures forall u | u in c.nodes :: After(c, run).nodes[u].applied == commands
  {
    hide Initial, Inv, Begins, EntriesOf, Tidy, WithEntries;
    if commands == [] {
      run := [];
      NothingApplied(c);
    } else {
      var first := FirstElection(c, v);
      InitialInv(c);
      RunInv(c, first);
      var c1 := After(c, first);
      IdsAre(c1, v);
      var second := SubmitAll(c1, v, commands);
      RunInv(c1, second);
      var c2 := After(c1, second);
      BeginsWithEntries(c1.nodes[v], commands, 1);
      SubmittedLeads(c1.nodes[v], commands);
      var third := ServeFrom(c2, v, commands, 1);
      RunsJoin(c1, second, third);
      RunsJoin(c, first, second + third);
      run := first + (second + third);
    }
  }

  lemma NothingApplied(c: Cluster)
    requires Initial(c)
    ensures forall u | u in c.nodes :: c.nodes[u].applied == []
  {
  }

  lemma IdsAre(c: Cluster, v: NodeId)
    requires Inv(c) && v in c.nodes
    ensures c.nodes[v].id == v
  {
  }

  lemma SubmittedLeads(n: NodeState, commands: seq<Command>)
    ensures WithEntries(n, commands).role == n.role
  {
  }
}
