/**
 * Five nodes, every commit index covered: a leader counts a success that a follower
 * sent in an earlier term, for entries since overwritten, and commits without a majority.
 */
module RaftStaleSuccess {
  import opened Quorums
  import opened LockCommands
  import opened RaftTypes
  import opened RaftLog
  import opened RaftHandlers
  import opened RaftHistory
  import opened RaftInvariant
  import opened RaftCluster
  import opened RaftTheorems
  import opened RaftCounterexamples

  function PeersOf(v: NodeId): seq<NodeId> {
    if v == 0 then [1, 2, 3, 4]
    else if v == 1 then [0, 2, 3, 4]
    else if v == 2 then [0, 1, 3, 4]
    else if v == 3 then [0, 1, 2, 4]
    else [0, 1, 2, 3]
  }

  function Start(): Cluster {
    Cluster(map[0 := Fresh(0, PeersOf(0)), 1 := Fresh(1, PeersOf(1)), 2 := Fresh(2, PeersOf(2)),
                3 := Fresh(3, PeersOf(3)), 4 := Fresh(4, PeersOf(4))], {},
            History(map[0 := 0, 1 := 0, 2 := 0, 3 := 0, 4 := 0], map[], map[], map[], map[], {}))
  }

  lemma NodesOfFive()
    ensures Start().nodes.Keys == {0, 1, 2, 3, 4} && Start().history.terms.Keys == {0, 1, 2, 3, 4}
    ensures forall v | v in {0, 1, 2, 3, 4} :: Start().nodes[v] == Fresh(v, PeersOf(v)) && Start().history.terms[v] == 0
    ensures Start().network == {} && Start().history == History(Start().history.terms, map[], map[], map[], map[], {})
  {
    hide PeersOf;
  }

  lemma PeersFit(v: NodeId, p: NodeId)
    requires v in {0, 1, 2, 3, 4}
    ensures p in PeersOf(v) <==> p in {0, 1, 2, 3, 4} && p != v
    ensures forall i, j | 0 <= i < j < |PeersOf(v)| :: PeersOf(v)[i] != PeersOf(v)[j]
  {
  }

  lemma PeersOfAreOk(v: NodeId, h: History)
    requires v in {0, 1, 2, 3, 4} && h.terms.Keys == {0, 1, 2, 3, 4}
    ensures PeersOk(h, Fresh(v, PeersOf(v)))
  {
    hide PeersOf;
    forall p ensures p in PeersOf(v) <==> p in h.terms && p != v {
      PeersFit(v, p);
    }
    PeersFit(v, v);
  }

  lemma StartIsInitial()
    ensures Initial(Start())
  {
    hide PeersOf, Start, PeersOk, Initial;
    NodesOfFive();
    forall v | v in Start().nodes ensures PeersOk(Start().history, Start().nodes[v]) {
      PeersOfAreOk(v, Start().history);
    }
    MakesInitial(Start());
  }

  lemma Begin() returns (k: Course)
    ensures Real(k) && k.which == OnlyCoveredCommit && k.start == k.now == Start()
  {
    hide Initial, Perform, Enabled, Allowed, PeersOf;
    k := Course(OnlyCoveredCommit, Start(), [], Start());
  }

  ghost predicate Usual(k: Course) {
    Real(k) && k.which == OnlyCoveredCommit && k.start == Start() && k.now.nodes.Keys == {0, 1, 2, 3, 4}
  }

  predicate Node(k: Course, v: NodeId, role: Role, term: nat, log: Log) {
    v in k.now.nodes && Looks(k.now.nodes[v], PeersOf(v), role, term, log)
  }

  /** The batch a peer gets that is thought to hold everything before position `at`. */
  lemma BatchIs(n: NodeState, p: NodeId, at: nat)
    requires p in n.nextIndex && n.nextIndex[p] == at <= |n.log| <= 2
    ensures AppendEntriesFor(n, p)
         == AppendEntries(n.id, p, n.currentTerm, at - 1, if at == 0 then 0 else n.log[at - 1].term, n.log[at..], n.commitIndex)
  {
  }

  lemma TakesAll(log: Log, entries: Log)
    requires log == [] || (entries != [] && log[0].term != entries[0].term)
    ensures Merged(log, 0, entries) == entries
  {
  }

  lemma TakesTail(log: Log, entries: Log)
    ensures Merged(log, |log|, entries) == log + entries
  {
  }

  // The entries of the four terms; what the first two leaders append does not matter.
  const OLD: Log := [LogEntry(1, 0, Unknown), LogEntry(1, 1, Unknown)]
  const BASE: Log := [LogEntry(2, 0, Unknown)]

  /** The peers of v that have just elected it are taken to be as long as its log. */
  predicate NewLeader(k: Course, v: NodeId, term: nat, log: Log) {
    Node(k, v, Leader, term, log) && JustElected(k.now.nodes[v])
  }

  lemma FirstLeader() returns (k: Course)
    ensures Usual(k) && NewLeader(k, 0, 1, []) && Node(k, 1, Follower, 1, []) && Node(k, 2, Follower, 0, [])
    ensures Node(k, 3, Follower, 1, []) && Node(k, 4, Follower, 0, [])
  {
    hide Real, JustElected;
    k := Begin();
    k := Elect(k, 0, {1, 3});
  }

  /** Node 0 leads term 1; its two entries reach node 1, whose success stays in the network. */
  lemma FirstTerm() returns (k: Course)
    ensures Usual(k) && AppendResponse(1, 0, 1, true, 1) in k.now.network
    ensures Node(k, 0, Leader, 1, OLD) && Node(k, 1, Follower, 1, OLD) && Node(k, 2, Follower, 0, [])
    ensures Node(k, 3, Follower, 1, []) && Node(k, 4, Follower, 0, [])
  {
    hide Real, JustElected, AppendEntriesFor, Merged;
    k := FirstLeader();
    PeersElected(k.now.nodes[0], 1);
    k := Submit(k, 0, Unknown);
    k := Submit(k, 0, Unknown);
    assert k.now.nodes[0].log == OLD;
    OwnId(k, 0);
    BatchIs(k.now.nodes[0], 1, 0);
    assert OLD[0..] == OLD;
    TakesAll([], OLD);
    k := Append(k, AppendEntriesFor(k.now.nodes[0], 1));
  }

  lemma PeersElected(n: NodeState, p: NodeId)
    requires JustElected(n) && p in n.peers
    ensures p in n.nextIndex && n.nextIndex[p] == |n.log| && p in n.matchIndex && n.matchIndex[p] == -1
  {
  }

  /** Node 2 stands once in vain, so its next term is a new one. */
  lemma SecondStands() returns (k: Course)
    ensures Usual(k) && AppendResponse(1, 0, 1, true, 1) in k.now.network
    ensures Node(k, 0, Leader, 1, OLD) && Node(k, 1, Follower, 1, OLD) && Node(k, 2, Candidate, 1, [])
    ensures Node(k, 3, Follower, 1, []) && Node(k, 4, Follower, 0, [])
  {
    hide Real, JustElected;
    k := FirstTerm();
    k := Stand(k, 2);
  }

  lemma SecondLeader() returns (k: Course)
    ensures Usual(k) && AppendResponse(1, 0, 1, true, 1) in k.now.network
    ensures Node(k, 0, Leader, 1, OLD) && Node(k, 1, Follower, 1, OLD) && NewLeader(k, 2, 2, [])
    ensures Node(k, 3, Follower, 2, []) && Node(k, 4, Follower, 2, [])
  {
    hide Real, JustElected;
    k := SecondStands();
    k := Elect(k, 2, {3, 4});
  }

  /** Node 2 leads term 2; its entry replaces those of node 0 and reaches nodes 3 and 4. */
  lemma SecondTerm() returns (k: Course)
    ensures Usual(k) && AppendResponse(1, 0, 1, true, 1) in k.now.network
    ensures Node(k, 0, Follower, 2, BASE) && Node(k, 1, Follower, 1, OLD) && Node(k, 2, Leader, 2, BASE)
    ensures Node(k, 3, Follower, 2, BASE) && Node(k, 4, Follower, 2, BASE)
  {
    hide Real, JustElected, AppendEntriesFor, Merged;
    k := SecondLeader();
    PeersElected(k.now.nodes[2], 0);
    PeersElected(k.now.nodes[2], 3);
    PeersElected(k.now.nodes[2], 4);
    k := Submit(k, 2, Unknown);
    assert k.now.nodes[2].log == BASE;
    OwnId(k, 2);
    var n := k.now.nodes[2];
    BatchIs(n, 0, 0);
    BatchIs(n, 3, 0);
    BatchIs(n, 4, 0);
    assert BASE[0..] == BASE;
    TakesAll([], BASE);
    TakesAll(OLD, BASE);
    k := Append(k, AppendEntriesFor(n, 0));
    k := Append(k, AppendEntriesFor(n, 3));
    k := Append(k, AppendEntriesFor(n, 4));
  }

  lemma ThirdLeader() returns (k: Course)
    ensures Usual(k) && AppendResponse(1, 0, 1, true, 1) in k.now.network
    ensures NewLeader(k, 0, 3, BASE) && Node(k, 1, Follower, 1, OLD) && Node(k, 2, Leader, 2, BASE)
    ensures Node(k, 3, Follower, 3, BASE) && Node(k, 4, Follower, 3, BASE)
  {
    hide Real, JustElected;
    k := SecondTerm();
    k := Elect(k, 0, {3, 4});
  }

  function Third(r: Command): Log {
    BASE + [LogEntry(3, 1, r)]
  }

  /** Node 0 leads term 3; its new entry reaches node 3 only. */
  lemma ThirdTerm(r: Command) returns (k: Course)
    ensures Usual(k) && AppendResponse(1, 0, 1, true, 1) in k.now.network && AppendResponse(3, 0, 3, true, 1) in k.now.network
    ensures Node(k, 0, Leader, 3, Third(r))
    ensures forall p | p in PeersOf(0) :: p in k.now.nodes[0].matchIndex && k.now.nodes[0].matchIndex[p] == -1
    ensures Node(k, 1, Follower, 1, OLD) && Node(k, 2, Leader, 2, BASE) && Node(k, 4, Follower, 3, BASE)
  {
    hide Real, AppendEntriesFor, Merged;
    k := ThirdLeader();
    k := Submit(k, 0, r);
    OwnId(k, 0);
    var n := k.now.nodes[0];
    assert n.log == Third(r) && Third(r)[1..] == [LogEntry(3, 1, r)];
    BatchIs(n, 3, 1);
    TakesTail(BASE, [LogEntry(3, 1, r)]);
    k := Append(k, AppendEntriesFor(n, 3));
  }

  /** One success is not enough for a commit, the second one is, whatever it was sent for. */
  lemma CountsBoth(n: NodeState, w: NodeId, x: NodeId, tw: nat, tx: nat, log: Log)
    requires w != x && w in n.peers && x in n.peers && |n.peers| == 4
    requires n.role == Leader && n.log == log && |log| == 2 && log[1].term == n.currentTerm != log[0].term
    requires n.commitIndex == n.lastApplied == -1 && n.applied == []
    requires forall p | p in n.peers :: p in n.matchIndex && n.matchIndex[p] == -1
    requires tw <= n.currentTerm && tx <= n.currentTerm
    ensures var n1 := OnAppendResponse(n, AppendResponse(w, n.id, tw, true, 1)).node;
            && n1.role == Leader && n1.currentTerm == n.currentTerm && n1.peers == n.peers && n1.log == log
            && OnAppendResponse(n1, AppendResponse(x, n.id, tx, true, 1)).node.applied == Commands(log)
  {
    var n1 := n.(matchIndex := n.matchIndex[w := 1], nextIndex := n.nextIndex[w := 2]);
    assert Replicators(n1, 1) == {w};
    assert !Committable(n1, 1) && !Committable(n1, 0);
    assert UpdateCommitIndex(n1) == n1;
    var n2 := n1.(matchIndex := n1.matchIndex[x := 1], nextIndex := n1.nextIndex[x := 2]);
    assert Replicators(n2, 1) == {w, x};
    assert Committable(n2, 1);
    assert log[0..2] == log && [] + Commands(log) == Commands(log);
  }

  /** Node 0 counts the stale success of node 1 and commits an entry that only nodes 0 and 3 have. */
  lemma CommitsAlone(r: Command) returns (k: Course)
    ensures Usual(k) && k.now.nodes[0].applied == Commands(Third(r))
    ensures Node(k, 1, Follower, 1, OLD) && Node(k, 2, Leader, 2, BASE) && Node(k, 4, Follower, 3, BASE)
  {
    hide Real, OnAppendResponse, Commands;
    k := ThirdTerm(r);
    OwnId(k, 0);
    CountsBoth(k.now.nodes[0], 1, 3, 1, 3, Third(r));
    k := Tell(k, AppendResponse(1, 0, 1, true, 1));
    k := Tell(k, AppendResponse(3, 0, 3, true, 1));
  }

  lemma FourthLeader(r: Command) returns (k: Course)
    ensures Usual(k) && k.now.nodes[0].applied == Commands(Third(r))
    ensures Node(k, 1, Follower, 4, OLD) && Node(k, 2, Follower, 4, BASE) && NewLeader(k, 4, 4, BASE)
  {
    hide Real, JustElected, Commands;
    k := CommitsAlone(r);
    k := Elect(k, 4, {1, 2});
  }

  function Fourth(s: Command): Log {
    BASE + [LogEntry(4, 1, s)]
  }

  /** Node 4 leads term 4 without the committed entry, and its own one reaches nodes 1 and 2. */
  lemma FourthTerm(r: Command, s: Command) returns (k: Course)
    ensures Usual(k) && k.now.nodes[0].applied == Commands(Third(r))
    ensures AppendResponse(2, 4, 4, true, 1) in k.now.network && AppendResponse(1, 4, 4, false, -1) in k.now.network
    ensures Node(k, 4, Leader, 4, Fourth(s)) && Node(k, 1, Follower, 4, OLD)
    ensures 1 in k.now.nodes[4].nextIndex && k.now.nodes[4].nextIndex[1] == 1
    ensures forall p | p in PeersOf(4) :: p in k.now.nodes[4].matchIndex && k.now.nodes[4].matchIndex[p] == -1
  {
    hide Real, AppendEntriesFor, Merged, Commands;
    k := FourthLeader(r);
    k := Submit(k, 4, s);
    OwnId(k, 4);
    var n := k.now.nodes[4];
    assert n.log == Fourth(s) && Fourth(s)[1..] == [LogEntry(4, 1, s)];
    BatchIs(n, 1, 1);
    BatchIs(n, 2, 1);
    TakesTail(BASE, [LogEntry(4, 1, s)]);
    k := Append(k, AppendEntriesFor(n, 2));
    k := Refuse(k, AppendEntriesFor(n, 1));
  }

  lemma Replicated(r: Command, s: Command) returns (k: Course)
    ensures Usual(k) && k.now.nodes[0].applied == Commands(Third(r))
    ensures AppendResponse(2, 4, 4, true, 1) in k.now.network && AppendResponse(1, 4, 4, true, 1) in k.now.network
    ensures Node(k, 4, Leader, 4, Fourth(s))
    ensures forall p | p in PeersOf(4) :: p in k.now.nodes[4].matchIndex && k.now.nodes[4].matchIndex[p] == -1
  {
    hide Real, AppendEntriesFor, Merged, Commands;
    k := FourthTerm(r, s);
    OwnId(k, 4);
    k := Tell(k, AppendResponse(1, 4, 4, false, -1));
    var n := k.now.nodes[4];
    k := Tick(k, 4, 1);
    BatchIs(n, 1, 0);
    assert Fourth(s)[0..] == Fourth(s);
    TakesAll(OLD, Fourth(s));
    k := Append(k, AppendEntriesFor(n, 1));
  }

  /**
   * Four terms: the commands applied at position one differ between nodes 0 and 4,
   * though no commit index ever passed what its message covered.
   */
  lemma StaleSuccessIsUnsafe(r: Command, s: Command) returns (actions: seq<Action>)
    ensures Initial(Start()) && Runs(Start(), actions) && RunsUnder(OnlyCoveredCommit, Start(), actions)
    ensures After(Start(), actions).nodes.Keys == {0, 1, 2, 3, 4}
    ensures var c := After(Start(), actions);
            && c.nodes[0].applied == [Unknown, r] && c.nodes[4].applied == [Unknown, s]
            && (r != s ==> !Comparable(c.nodes[0].applied, c.nodes[4].applied))
  {
    hide OnAppendResponse, Initial, RunsUnder, Runs, After, Perform, Start;
    StartIsInitial();
    var k := Replicated(r, s);
    OwnId(k, 4);
    CountsBoth(k.now.nodes[4], 1, 2, 4, 4, Fourth(s));
    k := Tell(k, AppendResponse(1, 4, 4, true, 1));
    k := Tell(k, AppendResponse(2, 4, 4, true, 1));
    actions := k.actions;
    assert Commands(Third(r)) == [Unknown, r] && Commands(Fourth(s)) == [Unknown, s];
    assert [Unknown, r][1] == r && [Unknown, s][1] == s;
  }
}
