/**
 * Any three nodes or more, no stale success anywhere: a follower commits past the fifty
 * entries it has just matched, and applies a command that was never committed.
 */
module RaftUncoveredCommit {
  import opened Quorums
  import opened LockCommands
  import opened RaftTypes
  import opened RaftLog
  import opened RaftHandlers
  import opened RaftInvariant
  import opened RaftCluster
  import opened RaftCommit
  import opened RaftTheorems
  import opened RaftCounterexamples

  // ---------- the cluster ----------

  /** A cluster of three nodes or more at its start; a will lead terms 1 and 3, b term 2. */
  ghost predicate Cast(c: Cluster, a: NodeId, b: NodeId) {
    Initial(c) && a in c.nodes && b in c.nodes && a != b && |c.nodes| >= 3
  }

  function Rest(c: Cluster, a: NodeId, b: NodeId): set<NodeId> {
    c.nodes.Keys - {a, b}
  }

  lemma PeersAre(c: Cluster, v: NodeId)
    requires Initial(c) && v in c.nodes
    ensures forall p :: p in c.nodes[v].peers <==> p in c.nodes && p != v
    ensures |c.nodes[v].peers| == |c.nodes| - 1
  {
    var others := c.nodes.Keys - {v};
    assert PeersOk(c.history, c.nodes[v]);
    forall p ensures p in c.nodes[v].peers <==> p in others {
      assert p in c.history.terms <==> p in c.nodes;
    }
    DistinctSize(c.nodes[v].peers, others);
    assert |others| == |c.nodes.Keys| - 1;
  }

  /** A run from c under fresh successes, with the same nodes. */
  ghost predicate Story(k: Course, c: Cluster) {
    Real(k) && k.which == OnlyFreshSuccess && k.start == c && k.now.nodes.Keys == c.nodes.Keys
  }

  predicate Is(k: Course, c: Cluster, v: NodeId, role: Role, term: nat, log: Log) {
    v in k.now.nodes && v in c.nodes && Looks(k.now.nodes[v], c.nodes[v].peers, role, term, log)
  }

  predicate AllAre(k: Course, c: Cluster, vs: set<NodeId>, role: Role, term: nat, log: Log) {
    forall v | v in vs :: Is(k, c, v, role, term, log)
  }

  lemma Begin(c: Cluster) returns (k: Course)
    requires Initial(c)
    ensures Story(k, c) && k.now == c && AllAre(k, c, c.nodes.Keys, Follower, 0, [])
  {
    hide PeersOk, Perform, Enabled, Allowed;
    k := Course(OnlyFreshSuccess, c, [], c);
  }

  /** The node has this log and is in this term or an earlier one. */
  predicate MayVote(k: Course, c: Cluster, w: NodeId, t: nat, log: Log) {
    w in k.now.nodes && k.now.nodes[w].currentTerm <= t && Is(k, c, w, k.now.nodes[w].role, k.now.nodes[w].currentTerm, log)
  }

  lemma IsMayVote(k: Course, c: Cluster, w: NodeId, role: Role, s: nat, t: nat, log: Log)
    requires Is(k, c, w, role, s, log) && s <= t
    ensures MayVote(k, c, w, t, log)
  {
  }

  /** An election in which everybody who votes has the candidate's log and term. */
  lemma ElectAmong(k: Course, c: Cluster, v: NodeId, voters: set<NodeId>, role: Role, t: nat, log: Log) returns (k': Course)
    requires Story(k, c) && Initial(c) && Is(k, c, v, role, t, log) && role != Leader
    requires voters <= c.nodes.Keys - {v} && |c.nodes| >= 2 && |voters| + 1 >= Majority(|c.nodes|)
    requires forall w | w in voters :: MayVote(k, c, w, t, log)
    ensures Story(k', c) && Elected(k, k', v, voters) && Is(k', c, v, Leader, t + 1, log) && JustElected(k'.now.nodes[v])
    ensures AllAre(k', c, voters, Follower, t + 1, log)
  {
    hide Real, JustElected, Initial;
    PeersAre(c, v);
    forall w | w in voters ensures CanElect(k.now.nodes[v], w, k.now.nodes[w]) {
      assert MayVote(k, c, w, t, log);
    }
    k' := Elect(k, v, voters);
  }

  // ---------- term 1 ----------

  /** The same command submitted n times in term 1. */
  function Same(e: Command, n: nat): (log: Log)
    ensures |log| == n && forall i | 0 <= i < n :: log[i] == LogEntry(1, i, e)
  {
    seq(n, i requires 0 <= i < n => LogEntry(1, i, e))
  }

  lemma FirstTerm(c: Cluster, a: NodeId) returns (k: Course)
    requires Initial(c) && a in c.nodes && |c.nodes| >= 2
    ensures Story(k, c) && Is(k, c, a, Leader, 1, []) && JustElected(k.now.nodes[a])
    ensures AllAre(k, c, c.nodes.Keys - {a}, Follower, 1, [])
  {
    hide Real, JustElected, Initial;
    k := Begin(c);
    assert |c.nodes.Keys - {a}| == |c.nodes| - 1;
    k := ElectAmong(k, c, a, c.nodes.Keys - {a}, Follower, 0, []);
  }

  lemma {:induction false} SubmitMany(k: Course, c: Cluster, a: NodeId, e: Command, n: nat) returns (k': Course)
    requires Story(k, c) && n > 0 && Is(k, c, a, Leader, 1, [])
    ensures var n0 := k.now.nodes[a].(log := Same(e, n));
            Continues(k, k', k.now.nodes[a := n0]) && forall p | p in n0.peers :: AppendEntriesFor(n0, p) in k'.now.network
  {
    hide Real, AppendEntriesFor;
    if n > 1 {
      k' := SubmitMany(k, c, a, e, n - 1);
      assert Same(e, n) == Same(e, n - 1) + [LogEntry(1, n - 1, e)];
      k' := Submit(k', a, e);
    } else {
      assert Same(e, 1) == [] + [LogEntry(1, 0, e)];
      k' := Submit(k, a, e);
    }
  }

  /** The first batch of fifty, for a peer that is thought to have nothing. */
  lemma FirstBatch(n: NodeState, p: NodeId, e: Command, tail: Log)
    requires p in n.nextIndex && n.nextIndex[p] == 0 && n.log == Same(e, BATCH) + tail
    ensures AppendEntriesFor(n, p) == AppendEntries(n.id, p, n.currentTerm, -1, 0, Same(e, BATCH), n.commitIndex)
  {
  }

  lemma TakesAll(entries: Log)
    ensures Merged([], 0, entries) == entries
  {
  }

  /** k' continues k; of the nodes only these have changed. */
  ghost predicate Moves(k: Course, k': Course, vs: set<NodeId>) {
    && Real(k') && k'.which == k.which && k'.start == k.start && k.now.network <= k'.now.network
    && OthersSame(k.now.nodes, k'.now.nodes, vs)
  }

  lemma MovesStory(k: Course, k': Course, c: Cluster, vs: set<NodeId>)
    requires Story(k, c) && Moves(k, k', vs)
    ensures Story(k', c)
  {
    hide Real;
  }

  lemma MovesOn(k: Course, k1: Course, k2: Course, vs: set<NodeId>, ws: set<NodeId>)
    requires Moves(k, k1, vs) && Moves(k1, k2, ws)
    ensures Moves(k, k2, vs + ws)
  {
    hide Real;
  }

  /** The first fifty entries as they go out to p. */
  function FirstFifty(a: NodeId, p: NodeId, e: Command): Message {
    AppendEntries(a, p, 1, -1, 0, Same(e, BATCH), -1)
  }

  lemma FillOne(k: Course, c: Cluster, a: NodeId, e: Command, p: NodeId) returns (k': Course)
    requires Story(k, c) && Is(k, c, p, Follower, 1, []) && FirstFifty(a, p, e) in k.now.network
    ensures Moves(k, k', {p}) && Is(k', c, p, Follower, 1, Same(e, BATCH))
  {
    hide Real, Merged, Same;
    TakesAll(Same(e, BATCH));
    k' := Append(k, FirstFifty(a, p, e));
  }

  lemma {:induction false} FillAll(k: Course, c: Cluster, a: NodeId, e: Command, todo: set<NodeId>) returns (k': Course)
    requires Story(k, c) && AllAre(k, c, todo, Follower, 1, [])
    requires forall p | p in todo :: FirstFifty(a, p, e) in k.now.network
    ensures Moves(k, k', todo) && AllAre(k', c, todo, Follower, 1, Same(e, BATCH))
    decreases |todo|
  {
    hide Real, Looks, Same, FirstFifty;
    if todo == {} {
      k' := k;
    } else {
      var p :| p in todo;
      var k1 := FillOne(k, c, a, e, p);
      MovesStory(k, k1, c, {p});
      k' := FillAll(k1, c, a, e, todo - {p});
      MovesOn(k, k1, k', {p}, todo - {p});
      assert {p} + (todo - {p}) == todo;
    }
  }

  /** Everybody holds the same fifty entries; batches for b are still in the network. */
  ghost predicate Filled(k: Course, c: Cluster, a: NodeId, b: NodeId, e: Command) {
    && Story(k, c) && Is(k, c, a, Leader, 1, Same(e, BATCH))
    && AllAre(k, c, c.nodes.Keys - {a}, Follower, 1, Same(e, BATCH))
    && FirstFifty(a, b, e) in k.now.network
  }

  lemma SentToAll(k: Course, c: Cluster, a: NodeId, e: Command) returns (k': Course)
    requires Story(k, c) && Initial(c) && Is(k, c, a, Leader, 1, []) && JustElected(k.now.nodes[a])
    ensures Moves(k, k', {a}) && Is(k', c, a, Leader, 1, Same(e, BATCH))
    ensures forall p | p in c.nodes && p != a :: FirstFifty(a, p, e) in k'.now.network
  {
    hide Real, AppendEntriesFor, Same, Initial;
    k' := SubmitMany(k, c, a, e, BATCH);
    OwnId(k', a);
    PeersAre(c, a);
    var n0 := k'.now.nodes[a];
    assert Same(e, BATCH) == Same(e, BATCH) + [];
    forall p | p in c.nodes && p != a ensures FirstFifty(a, p, e) in k'.now.network {
      FirstBatch(n0, p, e, []);
      assert AppendEntriesFor(n0, p) in k'.now.network;
    }
  }

  lemma Fill(c: Cluster, a: NodeId, b: NodeId, e: Command) returns (k: Course)
    requires Cast(c, a, b)
    ensures Filled(k, c, a, b, e)
  {
    hide Real, JustElected, Looks, Same, Initial, FirstFifty;
    var k1 := FirstTerm(c, a);
    var k2 := SentToAll(k1, c, a, e);
    MovesStory(k1, k2, c, {a});
    k := FillAll(k2, c, a, e, c.nodes.Keys - {a});
    MovesStory(k2, k, c, c.nodes.Keys - {a});
  }

  // ---------- term 2 ----------

  /** b leads term 2 with an entry of its own; a batch of term 1 is still on its way to it. */
  ghost predicate Split(k: Course, c: Cluster, a: NodeId, b: NodeId, e: Command, x: Command) {
    && Story(k, c) && Is(k, c, b, Leader, 2, Same(e, BATCH) + [LogEntry(2, BATCH, x)])
    && AllAre(k, c, c.nodes.Keys - {b}, Follower, 2, Same(e, BATCH))
    && FirstFifty(a, b, e) in k.now.network
  }

  lemma SecondTerm(c: Cluster, a: NodeId, b: NodeId, e: Command, x: Command) returns (k: Course)
    requires Cast(c, a, b)
    ensures Split(k, c, a, b, e, x)
  {
    hide Real, JustElected, Same, Initial, FirstFifty, Looks, MayVote;
    var k1 := Fill(c, a, b, e);
    var others := c.nodes.Keys - {b};
    assert |others| == |c.nodes| - 1;
    forall w | w in others ensures MayVote(k1, c, w, 1, Same(e, BATCH)) {
      IsMayVote(k1, c, w, if w == a then Leader else Follower, 1, 1, Same(e, BATCH));
    }
    var k2 := ElectAmong(k1, c, b, others, Follower, 1, Same(e, BATCH));
    k := SubmitOne(k2, c, b, 2, Same(e, BATCH), x);
  }

  lemma SubmitOne(k: Course, c: Cluster, v: NodeId, t: nat, log: Log, command: Command) returns (k': Course)
    requires Story(k, c) && Is(k, c, v, Leader, t, log)
    ensures Story(k', c) && k.now.network <= k'.now.network && Is(k', c, v, Leader, t, log + [LogEntry(t, |log|, command)])
    ensures k'.now.nodes == k.now.nodes[v := Longer(k.now.nodes[v], command)]
    ensures forall q | q in k'.now.nodes[v].peers :: AppendEntriesFor(k'.now.nodes[v], q) in k'.now.network
  {
    hide Real, AppendEntriesFor;
    k' := Submit(k, v, command);
  }

  lemma SetTwice<V>(m: map<NodeId, V>, k: NodeId, a: V, b: V)
    ensures m[k := a][k := b] == m[k := b]
  {
  }

  /** Each batch of term 1 that comes late is refused, and each refusal takes the next index one down. */
  lemma {:induction false} RefuseMany(k: Course, a: NodeId, b: NodeId, e: Command, next: nat) returns (k': Course)
    requires Real(k) && a in k.now.nodes && b in k.now.nodes && a != b && k.now.nodes[b].currentTerm == 2
    requires FirstFifty(a, b, e) in k.now.network
    requires var n := k.now.nodes[a]; n.role == Leader && n.currentTerm == 3 && b in n.nextIndex && n.nextIndex[b] == next
    ensures var n := k.now.nodes[a]; Continues(k, k', k.now.nodes[a := n.(nextIndex := n.nextIndex[b := 0])])
    decreases next
  {
    hide Real, Same;
    var n := k.now.nodes[a];
    var next' := if next > 0 then next - 1 else 0;
    var n1 := n.(nextIndex := n.nextIndex[b := next']);
    k' := Refuse(k, FirstFifty(a, b, e));
    assert k'.now.nodes == k.now.nodes;
    k' := Tell(k', AppendResponse(b, a, 2, false, -1));
    assert k'.now.nodes[a] == n1;
    if next > 1 {
      k' := RefuseMany(k', a, b, e, next - 1);
      SetTwice(n.nextIndex, b, next', 0);
      SetTwice(k.now.nodes, a, n1, n.(nextIndex := n.nextIndex[b := 0]));
    }
  }

  // ---------- term 3 ----------

  /** a leads term 3 again; its view of b is back at the first entry, and of the others at the last. */
  ghost predicate Third(k: Course, c: Cluster, a: NodeId, b: NodeId, e: Command, x: Command) {
    && Story(k, c) && Is(k, c, a, Leader, 3, Same(e, BATCH)) && Is(k, c, b, Leader, 2, Same(e, BATCH) + [LogEntry(2, BATCH, x)])
    && AllAre(k, c, Rest(c, a, b), Follower, 3, Same(e, BATCH))
    && (forall p | p in c.nodes && p != a ::
          && p in k.now.nodes[a].nextIndex && p in k.now.nodes[a].matchIndex && k.now.nodes[a].matchIndex[p] == -1
          && k.now.nodes[a].nextIndex[p] == if p == b then 0 else BATCH)
  }

  lemma ThirdTerm(c: Cluster, a: NodeId, b: NodeId, e: Command, x: Command) returns (k: Course)
    requires Cast(c, a, b)
    ensures Third(k, c, a, b, e, x)
  {
    hide Real, Same, Initial, FirstFifty, Looks, MayVote, JustElected, Elected;
    var k1 := SecondTerm(c, a, b, e, x);
    RestSize(c, a, b);
    forall w | w in Rest(c, a, b) ensures MayVote(k1, c, w, 2, Same(e, BATCH)) {
      IsMayVote(k1, c, w, Follower, 2, 2, Same(e, BATCH));
    }
    var k2 := ElectAmong(k1, c, a, Rest(c, a, b), Follower, 2, Same(e, BATCH));
    BehindTheBack(k1, k2, c, a, b, e, x);
    k := WindBack(k2, c, a, b, e, x);
  }

  /** a has been elected without b's noticing. */
  lemma BehindTheBack(k: Course, k': Course, c: Cluster, a: NodeId, b: NodeId, e: Command, x: Command)
    requires Split(k, c, a, b, e, x) && Elected(k, k', a, Rest(c, a, b)) && a != b && b in c.nodes
    ensures b in k'.now.nodes && k'.now.nodes[b] == k.now.nodes[b] && k.now.network <= k'.now.network
    ensures Is(k', c, b, Leader, 2, Same(e, BATCH) + [LogEntry(2, BATCH, x)]) && FirstFifty(a, b, e) in k'.now.network
  {
    hide Real, Looks, Same, FirstFifty, Won, Voted;
  }

  lemma WindBack(k: Course, c: Cluster, a: NodeId, b: NodeId, e: Command, x: Command) returns (k': Course)
    requires Cast(c, a, b) && Story(k, c) && Is(k, c, a, Leader, 3, Same(e, BATCH)) && JustElected(k.now.nodes[a])
    requires Is(k, c, b, Leader, 2, Same(e, BATCH) + [LogEntry(2, BATCH, x)]) && FirstFifty(a, b, e) in k.now.network
    requires AllAre(k, c, Rest(c, a, b), Follower, 3, Same(e, BATCH))
    ensures Third(k', c, a, b, e, x)
  {
    hide Real, Same, Initial, FirstFifty;
    PeersAre(c, a);
    k' := RefuseMany(k, a, b, e, BATCH);
  }

  lemma RestSize(c: Cluster, a: NodeId, b: NodeId)
    requires a in c.nodes && b in c.nodes && a != b
    ensures |Rest(c, a, b)| == |c.nodes| - 2
    ensures |c.nodes| >= 3 ==> |Rest(c, a, b)| + 1 >= Majority(|c.nodes|)
  {
    assert c.nodes.Keys == Rest(c, a, b) + {a, b};
  }

  function Ends(e: Command, t: nat, y: Command): (log: Log)
    ensures |log| == BATCH + 1 && log[BATCH] == LogEntry(t, BATCH, y) && log[..BATCH] == Same(e, BATCH)
  {
    Same(e, BATCH) + [LogEntry(t, BATCH, y)]
  }

  /** The entry of term 3 as it goes out to p. */
  function LastOne(a: NodeId, p: NodeId, y: Command): Message {
    AppendEntries(a, p, 3, BATCH - 1, 1, [LogEntry(3, BATCH, y)], -1)
  }

  /** The batch for the others is the new entry alone. */
  lemma LastBatch(n: NodeState, p: NodeId, e: Command, y: Command)
    requires p in n.nextIndex && n.nextIndex[p] == BATCH && n.log == Ends(e, 3, y)
    requires n.currentTerm == 3 && n.commitIndex == -1
    ensures AppendEntriesFor(n, p) == LastOne(n.id, p, y)
  {
    assert n.log[BATCH - 1] == n.log[..BATCH][BATCH - 1];
  }

  lemma TakesLast(e: Command, y: Command)
    ensures PrevMatches(Same(e, BATCH), BATCH - 1, 1)
    ensures Merged(Same(e, BATCH), BATCH, [LogEntry(3, BATCH, y)]) == Ends(e, 3, y)
  {
  }

  lemma LastTo(k: Course, c: Cluster, a: NodeId, e: Command, y: Command, p: NodeId) returns (k': Course)
    requires Story(k, c) && Is(k, c, p, Follower, 3, Same(e, BATCH)) && LastOne(a, p, y) in k.now.network
    ensures Moves(k, k', {p}) && Is(k', c, p, Follower, 3, Ends(e, 3, y))
    ensures AppendResponse(p, a, 3, true, BATCH) in k'.now.network
  {
    hide Real, Merged, Same, Ends, PrevMatches;
    TakesLast(e, y);
    k' := Append(k, LastOne(a, p, y));
  }

  lemma {:induction false} LastToAll(k: Course, c: Cluster, a: NodeId, e: Command, y: Command, todo: set<NodeId>) returns (k': Course)
    requires Story(k, c) && AllAre(k, c, todo, Follower, 3, Same(e, BATCH))
    requires forall p | p in todo :: LastOne(a, p, y) in k.now.network
    ensures Moves(k, k', todo) && forall p | p in todo :: AppendResponse(p, a, 3, true, BATCH) in k'.now.network
    decreases |todo|
  {
    hide Real, Looks, Same, LastOne, Ends;
    if todo == {} {
      k' := k;
    } else {
      var p :| p in todo;
      var k1 := LastTo(k, c, a, e, y, p);
      MovesStory(k, k1, c, {p});
      k' := LastToAll(k1, c, a, e, y, todo - {p});
      MovesOn(k, k1, k', {p}, todo - {p});
      assert {p} + (todo - {p}) == todo;
    }
  }

  // ---------- a counts ----------

  /** The leader when it has counted the successes of these nodes. */
  ghost predicate Counting(n: NodeState, peers: seq<NodeId>, b: NodeId, e: Command, y: Command, done: set<NodeId>) {
    && n.peers == peers && n.role == Leader && n.currentTerm == 3 && n.log == Ends(e, 3, y)
    && b in n.nextIndex && n.nextIndex[b] == 0 && (forall p | p in done :: p in peers)
    && (forall p | p in peers :: p in n.matchIndex && n.matchIndex[p] == if p in done then BATCH else -1)
    && n.commitIndex == (if |done| + 1 >= Majority(|peers| + 1) then BATCH else -1)
    && n.lastApplied == n.commitIndex && n.applied == Commands(n.log[..n.commitIndex + 1])
  }

  lemma WhoHas(n: NodeState, done: set<NodeId>, i: nat)
    requires i <= BATCH && forall p | p in done :: p in n.peers
    requires forall p | p in n.peers :: p in n.matchIndex && n.matchIndex[p] == if p in done then BATCH else -1
    ensures Replicators(n, i) == done
  {
  }

  lemma OnlyTheLast(n: NodeState, e: Command, y: Command, i: nat)
    requires n.log == Ends(e, 3, y) && n.currentTerm == 3 && i < |n.log|
    ensures Committable(n, i) <==> i == BATCH && 1 + |Replicators(n, i)| >= Majority(|n.peers| + 1)
  {
    if i < BATCH {
      assert n.log[i] == n.log[..BATCH][i];
    }
  }

  lemma CountOne(n: NodeState, peers: seq<NodeId>, b: NodeId, e: Command, y: Command, done: set<NodeId>, m: Message)
    requires Counting(n, peers, b, e, y, done) && m.AppendResponse? && m.success && m.term == 3 && m.matchIndex == BATCH
    requires m.src in peers && m.src !in done && m.src != b
    ensures Counting(OnAppendResponse(n, m).node, peers, b, e, y, done + {m.src})
  {
    hide Ends, Replicators, Committable;
    var n1 := n.(matchIndex := n.matchIndex[m.src := m.matchIndex], nextIndex := n.nextIndex[m.src := m.matchIndex + 1]);
    var done' := done + {m.src};
    assert |done'| == |done| + 1;
    WhoHas(n1, done', BATCH);
    forall i: nat | i < |n1.log| ensures Committable(n1, i) <==> i == BATCH && |done'| + 1 >= Majority(|peers| + 1) {
      OnlyTheLast(n1, e, y, i);
    }
    var target := CommitTarget(n1, LastIndex(n1.log));
    if target > n1.commitIndex {
      AppliesUpTo(n1, target);
    }
  }

  lemma TellOne(k: Course, c: Cluster, a: NodeId, b: NodeId, e: Command, y: Command, p: NodeId, done: set<NodeId>) returns (k': Course)
    requires Story(k, c) && a in c.nodes && a in k.now.nodes && Counting(k.now.nodes[a], c.nodes[a].peers, b, e, y, done)
    requires p !in done && p != b && p in c.nodes[a].peers && AppendResponse(p, a, 3, true, BATCH) in k.now.network
    ensures Moves(k, k', {a}) && a in k'.now.nodes && Counting(k'.now.nodes[a], c.nodes[a].peers, b, e, y, done + {p})
  {
    hide Real, Ends, OnAppendResponse;
    var m := AppendResponse(p, a, 3, true, BATCH);
    CountOne(k.now.nodes[a], c.nodes[a].peers, b, e, y, done, m);
    k' := Tell(k, m);
  }

  lemma {:induction false} CountAll(k: Course, c: Cluster, a: NodeId, b: NodeId, e: Command, y: Command, todo: set<NodeId>, done: set<NodeId>)
    returns (k': Course)
    requires Story(k, c) && a in c.nodes && a in k.now.nodes && Counting(k.now.nodes[a], c.nodes[a].peers, b, e, y, done)
    requires todo !! done && b !in todo && forall p | p in todo :: p in c.nodes[a].peers && AppendResponse(p, a, 3, true, BATCH) in k.now.network
    ensures Moves(k, k', {a}) && a in k'.now.nodes && Counting(k'.now.nodes[a], c.nodes[a].peers, b, e, y, done + todo)
    decreases |todo|
  {
    hide Real, Counting;
    if todo == {} {
      k' := k;
      assert done + todo == done;
    } else {
      var p :| p in todo;
      var k1 := TellOne(k, c, a, b, e, y, p, done);
      MovesStory(k, k1, c, {a});
      k' := CountAll(k1, c, a, b, e, y, todo - {p}, done + {p});
      MovesOn(k, k1, k', {a}, {a});
      assert {a} + {a} == {a} && done + {p} + (todo - {p}) == done + todo;
    }
  }

  /** a has committed and applied its entry of term 3, without b. */
  ghost predicate Committed(k: Course, c: Cluster, a: NodeId, b: NodeId, e: Command, x: Command, y: Command) {
    && Story(k, c) && a in k.now.nodes && a in c.nodes && Is(k, c, b, Leader, 2, Ends(e, 2, x))
    && k.now.nodes[a].peers == c.nodes[a].peers && k.now.nodes[a].role == Leader && k.now.nodes[a].currentTerm == 3
    && k.now.nodes[a].log == Ends(e, 3, y) && b in k.now.nodes[a].nextIndex && k.now.nodes[a].nextIndex[b] == 0
    && k.now.nodes[a].commitIndex == BATCH && k.now.nodes[a].applied == Commands(Ends(e, 3, y))
  }

  lemma AskForLast(c: Cluster, a: NodeId, b: NodeId, e: Command, x: Command, y: Command) returns (k: Course)
    requires Cast(c, a, b)
    ensures Story(k, c) && Is(k, c, b, Leader, 2, Ends(e, 2, x)) && AllAre(k, c, Rest(c, a, b), Follower, 3, Same(e, BATCH))
    ensures a in k.now.nodes && Counting(k.now.nodes[a], c.nodes[a].peers, b, e, y, {})
    ensures forall p | p in Rest(c, a, b) :: LastOne(a, p, y) in k.now.network
  {
    hide Real, Same, Initial, AppendEntriesFor;
    var k1 := ThirdTerm(c, a, b, e, x);
    PeersAre(c, a);
    k := SubmitOne(k1, c, a, 3, Same(e, BATCH), y);
    OwnId(k, a);
    forall p | p in Rest(c, a, b) ensures LastOne(a, p, y) in k.now.network {
      LastBatch(k.now.nodes[a], p, e, y);
    }
  }

  lemma CommitsOwn(c: Cluster, a: NodeId, b: NodeId, e: Command, x: Command, y: Command) returns (k: Course)
    requires Cast(c, a, b)
    ensures Committed(k, c, a, b, e, x, y)
  {
    hide Real, Same, Ends, Initial, LastOne, Looks, Counting;
    var rest := Rest(c, a, b);
    var k1 := AskForLast(c, a, b, e, x, y);
    var k2 := LastToAll(k1, c, a, e, y, rest);
    MovesStory(k1, k2, c, rest);
    PeersAre(c, a);
    k := CountAll(k2, c, a, b, e, y, rest, {});
    MovesStory(k2, k, c, {a});
    assert {} + rest == rest;
    CountedAll(k, c, a, b, e, y);
  }

  lemma CountedAll(k: Course, c: Cluster, a: NodeId, b: NodeId, e: Command, y: Command)
    requires Cast(c, a, b) && a in k.now.nodes && Counting(k.now.nodes[a], c.nodes[a].peers, b, e, y, Rest(c, a, b))
    ensures k.now.nodes[a].peers == c.nodes[a].peers && k.now.nodes[a].role == Leader && k.now.nodes[a].currentTerm == 3
    ensures k.now.nodes[a].log == Ends(e, 3, y) && b in k.now.nodes[a].nextIndex && k.now.nodes[a].nextIndex[b] == 0
    ensures k.now.nodes[a].commitIndex == BATCH && k.now.nodes[a].applied == Commands(Ends(e, 3, y))
  {
    hide Ends, Initial;
    RestSize(c, a, b);
    PeersAre(c, a);
    assert Ends(e, 3, y)[..BATCH + 1] == Ends(e, 3, y);
  }

  /** The batch already is in place, the commit index is not covered by it, and the follower applies what it has. */
  lemma AppliesUncovered(n: NodeState, peers: seq<NodeId>, m: Message, e: Command, x: Command, a: NodeId)
    requires Looks(n, peers, Leader, 2, Ends(e, 2, x)) && m == AppendEntries(a, n.id, 3, -1, 0, Same(e, BATCH), BATCH)
    ensures OnAppendEntries(n, m).node.applied == Commands(n.log)
  {
    assert forall i | 0 <= i < BATCH :: n.log[i].term == Same(e, BATCH)[i].term;
    MergeOutcome(n.log, 0, Same(e, BATCH));
    assert n.log[0..BATCH + 1] == n.log;
    assert [] + Commands(n.log) == Commands(n.log);
  }

  lemma EndsDiffer(e: Command, x: Command, y: Command)
    ensures Commands(Ends(e, 3, y)) == Commands(Same(e, BATCH)) + [y] && Commands(Ends(e, 2, x)) == Commands(Same(e, BATCH)) + [x]
    ensures x != y ==> !Comparable(Commands(Ends(e, 3, y)), Commands(Ends(e, 2, x)))
  {
    var a, b := Commands(Ends(e, 3, y)), Commands(Ends(e, 2, x));
    assert a[BATCH] == y && b[BATCH] == x && |a| == |b|;
  }

  /**
   * On any three nodes or more: fifty entries, and each of two leaders adds one of its own.
   * The commands that a and b apply at position fifty differ, though no success was stale.
   */
  lemma UncoveredCommitIsUnsafe(c: Cluster, a: NodeId, b: NodeId, e: Command, x: Command, y: Command) returns (actions: seq<Action>)
    requires Initial(c) && a in c.nodes && b in c.nodes && a != b && |c.nodes| >= 3
    ensures Runs(c, actions) && RunsUnder(OnlyFreshSuccess, c, actions) && After(c, actions).nodes.Keys == c.nodes.Keys
    ensures var d := After(c, actions);
            && d.nodes[a].applied == Commands(Same(e, BATCH)) + [y]
            && d.nodes[b].applied == Commands(Same(e, BATCH)) + [x]
            && (x != y ==> !Comparable(d.nodes[a].applied, d.nodes[b].applied))
  {
    hide OnAppendEntries, AppendEntriesFor, Initial, RunsUnder, Runs, After, Perform, Ends, Comparable, Same;
    var k := CommitsOwn(c, a, b, e, x, y);
    OwnId(k, a);
    OwnId(k, b);
    PeersAre(c, a);
    ToTheOther(k.now.nodes[a], b, e, y);
    k := Tick(k, a, b);
    var m := AppendEntriesFor(k.now.nodes[a], b);
    AppliesUncovered(k.now.nodes[b], c.nodes[b].peers, m, e, x, a);
    k := Next(k, Deliver(m));
    actions := k.actions;
    EndsDiffer(e, x, y);
  }

  lemma ToTheOther(n: NodeState, b: NodeId, e: Command, y: Command)
    requires b in n.nextIndex && n.nextIndex[b] == 0 && n.log == Ends(e, 3, y) && n.commitIndex == BATCH && n.currentTerm == 3
    ensures AppendEntriesFor(n, b) == AppendEntries(n.id, b, 3, -1, 0, Same(e, BATCH), BATCH)
  {
    FirstBatch(n, b, e, [LogEntry(3, BATCH, y)]);
  }
}
