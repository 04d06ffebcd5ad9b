/** How one request comes to be executed, step by step, by a group of correct replicas that hear from each other. */
module PbftRounds {
  import opened Quorums
  import opened PbftReplica
  import opened PbftAgreement

  /** A run from the start so far, and where it has led; in an honest one no message is forged. */
  datatype Course = Course(config: Config, hash: Hash, honest: bool, start: Cluster, actions: seq<Action>, now: Cluster)

  ghost predicate IsRun(k: Course)
    requires k.config.all != []
  {
    && Runs(k.config, k.hash, k.start, k.actions) && After(k.config, k.hash, k.start, k.actions) == k.now
    && (k.honest ==> forall a | a in k.actions :: !a.Forge?)
  }

  ghost predicate Real(k: Course) {
    k.config.all != [] && IsRun(k)
  }

  ghost predicate SameRun(k: Course, k': Course) {
    Real(k') && k'.config == k.config && k'.hash == k.hash && k'.honest == k.honest && k'.start == k.start && k.actions <= k'.actions
  }

  /** k' continues k: no message is gone, and only these replicas have moved. */
  ghost predicate Continues(k: Course, k': Course, moved: set<NodeId>) {
    && SameRun(k, k')
    && k.now.network <= k'.now.network
    && k'.now.correct.Keys == k.now.correct.Keys
    && forall v | v in k.now.correct && v !in moved :: k'.now.correct[v] == k.now.correct[v]
  }

  lemma {:induction false} OneMore(config: Config, hash: Hash, c: Cluster, a: seq<Action>, action: Action)
    requires config.all != [] && Runs(config, hash, c, a) && Enabled(config, After(config, hash, c, a), action)
    ensures Runs(config, hash, c, a + [action])
    ensures After(config, hash, c, a + [action]) == Perform(config, hash, After(config, hash, c, a), action)
    decreases |a|
  {
    hide Perform, Enabled;
    if a == [] {
      assert [action][1..] == [] && a + [action] == [action];
      assert Runs(config, hash, Perform(config, hash, c, action), []);
    } else {
      assert (a + [action])[1..] == a[1..] + [action];
      OneMore(config, hash, Perform(config, hash, c, a[0]), a[1..], action);
    }
  }

  lemma Next(k: Course, action: Action) returns (k': Course)
    requires Real(k) && Enabled(k.config, k.now, action) && (action.Forge? ==> !k.honest)
    ensures SameRun(k, k') && k'.now == Perform(k.config, k.hash, k.now, action) && k'.actions == k.actions + [action]
  {
    hide Perform, Enabled;
    OneMore(k.config, k.hash, k.start, k.actions, action);
    k' := k.(actions := k.actions + [action], now := Perform(k.config, k.hash, k.now, action));
  }

  // ---------- the messages and states of a round ----------

  /** One request under one number, and what the replicas were before it. */
  datatype Round = Round(base: NodeId -> Replica, number: nat, request: Request)

  /** Nobody has logged or applied the number yet. */
  ghost predicate Opens(r: Round) {
    forall x :: r.base(x).id == x && r.number !in r.base(x).log && r.number !in r.base(x).applied
  }

  function Proposal(config: Config, hash: Hash, r: Round, x: NodeId): Message
    requires config.all != []
  {
    PrePrepare(config.Primary(), x, config.view, r.number, hash(r.request), r.request)
  }

  function PrepareFrom(config: Config, hash: Hash, r: Round, x: NodeId, y: NodeId): Message {
    Prepare(x, y, config.view, r.number, hash(r.request))
  }

  function CommitFrom(config: Config, hash: Hash, r: Round, x: NodeId, y: NodeId): Message {
    Commit(x, y, config.view, r.number, hash(r.request))
  }

  function EntryWith(hash: Hash, r: Round, prepares: set<NodeId>, commits: set<NodeId>): Entry {
    Entry(r.request, hash(r.request), true, prepares, commits, false)
  }

  /** The replica has logged the request under its number, with these votes, and has not executed it. */
  function Holding(hash: Hash, v: NodeId, r: Round, prepares: set<NodeId>, commits: set<NodeId>): Replica {
    r.base(v).(log := r.base(v).log[r.number := EntryWith(hash, r, prepares, commits)])
  }

  /** The replica is what it was, but that it has logged and executed the request. */
  predicate Executed(r: Round, v: NodeId, now: Replica) {
    && now.id == v && now.seqNum == r.base(v).seqNum
    && now.log.Keys == r.base(v).log.Keys + {r.number}
    && now.applied == r.base(v).applied + {r.number}
    && now.executed == r.base(v).executed + [(r.number, r.request)]
  }

  lemma {:induction false} OthersHas(all: seq<NodeId>, x: NodeId, y: NodeId)
    requires y in all && y != x
    ensures y in Others(all, x)
  {
    if all[0] != y {
      OthersHas(all[1..], x, y);
    }
  }

  /** A broadcast reaches every other replica. */
  lemma Broadcast(k: Course, r: Round, x: NodeId, y: NodeId)
    requires y in Ids(k.config) && y != x
    ensures PrepareFrom(k.config, k.hash, r, x, y) in Prepares(k.config, x, r.number, k.hash(r.request))
    ensures CommitFrom(k.config, k.hash, r, x, y) in Commits(k.config, x, r.number, k.hash(r.request))
  {
    OthersHas(k.config.all, x, y);
    var i :| 0 <= i < |k.config.Peers(x)| && k.config.Peers(x)[i] == y;
    assert Prepares(k.config, x, r.number, k.hash(r.request))[i] == PrepareFrom(k.config, k.hash, r, x, y);
    assert Commits(k.config, x, r.number, k.hash(r.request))[i] == CommitFrom(k.config, k.hash, r, x, y);
  }

  // ---------- a correct replica ----------

  lemma Propose(k: Course, r: Round, x: NodeId) returns (k': Course)
    requires Real(k) && Opens(r) && x in k.now.correct && k.now.correct[x] == r.base(x) && Proposal(k.config, k.hash, r, x) in k.now.network
    ensures Continues(k, k', {x}) && k'.now.correct[x] == Holding(k.hash, x, r, {x}, {})
    ensures forall y | y in Ids(k.config) && y != x :: PrepareFrom(k.config, k.hash, r, x, y) in k'.now.network
  {
    hide IsRun, Others, Prepares, Ids;
    k' := Next(k, Deliver(Proposal(k.config, k.hash, r, x)));
    assert {} + {x} == {x};
    assert k'.now.correct[x].log == r.base(x).log[r.number := EntryWith(k.hash, r, {x}, {})];
    forall y | y in Ids(k.config) && y != x ensures PrepareFrom(k.config, k.hash, r, x, y) in k'.now.network {
      Broadcast(k, r, x, y);
    }
  }

  /** One more prepare: once there are 2f of them, the replica adds its own commit and broadcasts it. */
  lemma TakePrepare(k: Course, r: Round, x: NodeId, u: NodeId, prepares: set<NodeId>, commits: set<NodeId>) returns (k': Course)
    requires Real(k) && Opens(r) && x in k.now.correct && k.now.correct[x] == Holding(k.hash, x, r, prepares, commits)
    requires commits <= {x} && u != x && PrepareFrom(k.config, k.hash, r, u, x) in k.now.network
    ensures var enough := |prepares + {u}| >= 2 * k.config.F();
            && Continues(k, k', {x})
            && k'.now.correct[x] == Holding(k.hash, x, r, prepares + {u}, if enough then {x} else commits)
            && (enough ==> forall y | y in Ids(k.config) && y != x :: CommitFrom(k.config, k.hash, r, x, y) in k'.now.network)
  {
    hide IsRun, Others, Commits, Ids;
    k' := Next(k, Deliver(PrepareFrom(k.config, k.hash, r, u, x)));
    var enough := |prepares + {u}| >= 2 * k.config.F();
    assert commits + {x} == {x};
    assert k'.now.correct[x].log
        == r.base(x).log[r.number := EntryWith(k.hash, r, prepares + {u}, if enough then {x} else commits)];
    if enough {
      forall y | y in Ids(k.config) && y != x ensures CommitFrom(k.config, k.hash, r, x, y) in k'.now.network {
        Broadcast(k, r, x, y);
      }
    }
  }

  lemma {:induction false} TakePrepares(k: Course, r: Round, x: NodeId, from: set<NodeId>, prepares: set<NodeId>)
    returns (k': Course, commits: set<NodeId>)
    requires Real(k) && Opens(r) && x in k.now.correct && k.now.correct[x] == Holding(k.hash, x, r, prepares, {}) && x !in from
    requires forall u | u in from :: PrepareFrom(k.config, k.hash, r, u, x) in k.now.network
    ensures Continues(k, k', {x}) && commits <= {x} && k'.now.correct[x] == Holding(k.hash, x, r, prepares + from, commits)
    ensures from != {} && |prepares + from| >= 2 * k.config.F() ==>
              commits == {x} && forall y | y in Ids(k.config) && y != x :: CommitFrom(k.config, k.hash, r, x, y) in k'.now.network
    decreases |from|
  {
    hide IsRun, Ids, Holding, PrepareFrom, CommitFrom, Opens;
    if from == {} {
      k', commits := k, {};
      assert prepares + from == prepares;
    } else {
      var u :| u in from;
      k', commits := TakePrepares(k, r, x, from - {u}, prepares);
      assert prepares + (from - {u}) + {u} == prepares + from;
      var enough := |prepares + from| >= 2 * k.config.F();
      k' := TakePrepare(k', r, x, u, prepares + (from - {u}), commits);
      commits := if enough then {x} else commits;
    }
  }

  /** Commits short of 2f + 1 only add up. */
  lemma {:induction false} TakeCommits(k: Course, r: Round, x: NodeId, from: set<NodeId>, prepares: set<NodeId>) returns (k': Course)
    requires Real(k) && Opens(r) && x in k.now.correct && k.now.correct[x] == Holding(k.hash, x, r, prepares, {x}) && x !in from
    requires (|from| < 2 * k.config.F() || from == {}) && forall u | u in from :: CommitFrom(k.config, k.hash, r, u, x) in k.now.network
    ensures Continues(k, k', {x}) && k'.now.correct[x] == Holding(k.hash, x, r, prepares, {x} + from)
    decreases |from|
  {
    hide IsRun, Holding, CommitFrom;
    if from == {} {
      k' := k;
      assert {x} + from == {x};
    } else {
      var u :| u in from;
      k' := TakeCommits(k, r, x, from - {u}, prepares);
      assert {x} + (from - {u}) + {u} == {x} + from;
      assert |{x} + (from - {u})| == |from|;
      k' := TakeCommit(k', r, x, u, prepares, {x} + (from - {u}));
    }
  }

  lemma TakeCommit(k: Course, r: Round, x: NodeId, u: NodeId, prepares: set<NodeId>, commits: set<NodeId>) returns (k': Course)
    requires Real(k) && Opens(r) && x in k.now.correct && k.now.correct[x] == Holding(k.hash, x, r, prepares, commits)
    requires u !in commits && |commits| < 2 * k.config.F() && CommitFrom(k.config, k.hash, r, u, x) in k.now.network
    ensures Continues(k, k', {x}) && k'.now.correct[x] == Holding(k.hash, x, r, prepares, commits + {u})
  {
    hide IsRun;
    assert |commits + {u}| == |commits| + 1;
    k' := Next(k, Deliver(CommitFrom(k.config, k.hash, r, u, x)));
    assert k'.now.correct[x].log == r.base(x).log[r.number := EntryWith(k.hash, r, prepares, commits + {u})];
  }

  lemma LastCommit(k: Course, r: Round, x: NodeId, u: NodeId, prepares: set<NodeId>, commits: set<NodeId>) returns (k': Course)
    requires Real(k) && Opens(r) && x in k.now.correct && k.now.correct[x] == Holding(k.hash, x, r, prepares, commits)
    requires u !in commits && |commits| >= 2 * k.config.F() && CommitFrom(k.config, k.hash, r, u, x) in k.now.network
    ensures Continues(k, k', {x}) && Executed(r, x, k'.now.correct[x])
  {
    hide IsRun;
    assert |commits + {u}| == |commits| + 1;
    k' := Next(k, Deliver(CommitFrom(k.config, k.hash, r, u, x)));
  }

  // ---------- a group of them ----------

  lemma {:induction false} ProposeAll(k: Course, r: Round, camp: set<NodeId>) returns (k': Course)
    requires Real(k) && Opens(r) && camp <= k.now.correct.Keys
    requires forall x | x in camp :: k.now.correct[x] == r.base(x) && Proposal(k.config, k.hash, r, x) in k.now.network
    ensures Continues(k, k', camp)
    ensures forall x | x in camp :: k'.now.correct[x] == Holding(k.hash, x, r, {x}, {})
    ensures forall x, y | x in camp && y in Ids(k.config) && y != x :: PrepareFrom(k.config, k.hash, r, x, y) in k'.now.network
    decreases |camp|
  {
    hide IsRun, Ids, Holding, Proposal, PrepareFrom;
    if camp == {} {
      k' := k;
    } else {
      var x :| x in camp;
      var k1 := ProposeAll(k, r, camp - {x});
      k' := Propose(k1, r, x);
    }
  }

  /** Every member of the camp collects the prepares of the whole side. */
  lemma {:induction false} PrepareAll(k: Course, r: Round, side: set<NodeId>, camp: set<NodeId>) returns (k': Course)
    requires Real(k) && Opens(r) && camp <= k.now.correct.Keys && camp <= side && |side| >= 2 && |side| >= 2 * k.config.F()
    requires forall x | x in camp :: k.now.correct[x] == Holding(k.hash, x, r, {x}, {})
    requires forall u, x | u in side && x in camp && u != x :: PrepareFrom(k.config, k.hash, r, u, x) in k.now.network
    ensures Continues(k, k', camp)
    ensures forall x | x in camp :: k'.now.correct[x] == Holding(k.hash, x, r, side, {x})
    ensures forall x, y | x in camp && y in Ids(k.config) && y != x :: CommitFrom(k.config, k.hash, r, x, y) in k'.now.network
    decreases |camp|
  {
    hide IsRun, Ids, Holding, Proposal, PrepareFrom, CommitFrom;
    if camp == {} {
      k' := k;
    } else {
      var x :| x in camp;
      var k1 := PrepareAll(k, r, side, camp - {x});
      k' := PrepareOne(k1, r, side, x);
    }
  }

  lemma PrepareOne(k: Course, r: Round, side: set<NodeId>, x: NodeId) returns (k': Course)
    requires Real(k) && Opens(r) && x in k.now.correct && x in side && |side| >= 2 && |side| >= 2 * k.config.F()
    requires k.now.correct[x] == Holding(k.hash, x, r, {x}, {})
    requires forall u | u in side && u != x :: PrepareFrom(k.config, k.hash, r, u, x) in k.now.network
    ensures Continues(k, k', {x}) && k'.now.correct[x] == Holding(k.hash, x, r, side, {x})
    ensures forall y | y in Ids(k.config) && y != x :: CommitFrom(k.config, k.hash, r, x, y) in k'.now.network
  {
    hide IsRun, Ids, Holding, PrepareFrom, CommitFrom;
    assert {x} + (side - {x}) == side;
    OtherMember(side, x);
    var commits: set<NodeId>;
    k', commits := TakePrepares(k, r, x, side - {x}, {x});
  }

  lemma OtherMember(side: set<NodeId>, x: NodeId)
    requires x in side && |side| >= 2
    ensures side - {x} != {} && |side - {x}| == |side| - 1
  {
  }

  lemma Moved(k: Course, k': Course, moved: set<NodeId>)
    requires Continues(k, k', moved)
    ensures SameRun(k, k') && k'.now.correct.Keys == k.now.correct.Keys && k.now.network <= k'.now.network
  {
  }

  lemma InARow(k: Course, k1: Course, k2: Course, moved: set<NodeId>)
    requires Continues(k, k1, moved) && Continues(k1, k2, moved)
    ensures Continues(k, k2, moved)
  {
    hide IsRun;
  }

  /** How many commits, its own among them, a replica waits for: another one than its own must arrive. */
  function Enough(config: Config): nat
    requires config.all != []
  {
    if config.F() == 0 then 2 else 2 * config.F() + 1
  }

  /** With the commits of everybody on its side the replica executes the request. */
  lemma Finish(k: Course, r: Round, prepares: set<NodeId>, side: set<NodeId>, x: NodeId, u: NodeId) returns (k': Course)
    requires Real(k) && Opens(r) && x in k.now.correct && k.now.correct[x] == Holding(k.hash, x, r, prepares, {x})
    requires x in side && u in side && u != x && |side| == Enough(k.config)
    requires forall y | y in side && y != x :: CommitFrom(k.config, k.hash, r, y, x) in k.now.network
    ensures Continues(k, k', {x}) && Executed(r, x, k'.now.correct[x])
  {
    hide IsRun, Holding, Executed;
    var most := side - {x} - {u};
    assert side == most + {x} + {u};
    assert |side| == |most| + 2;
    var k1 := TakeCommits(k, r, x, most, prepares);
    assert |{x} + most| == |most| + 1;
    k' := LastCommit(k1, r, x, u, prepares, {x} + most);
  }
}
