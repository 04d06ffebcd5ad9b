/**
 * What PBFT is for: under a correct primary the correct replicas execute its requests
 * in order, with the faulty ones silent, exactly if there are enough of them.
 */
module PbftProgress {
  import opened Quorums
  import opened PbftReplica
  import opened PbftAgreement
  import opened PbftRounds

  // ---------- one request after the other ----------

  /** The requests under the numbers from 1 on. */
  function Numbered(requests: seq<Request>): (executed: seq<(nat, Request)>)
    ensures |executed| == |requests|
    ensures forall i | 0 <= i < |requests| :: executed[i] == (i + 1, requests[i])
  {
    seq(|requests|, i requires 0 <= i < |requests| => (i + 1, requests[i]))
  }

  /** The replica has executed exactly these requests, and knows of no later number. */
  ghost predicate Settled(config: Config, v: NodeId, r: Replica, done: seq<Request>)
    requires config.all != []
  {
    && r.id == v && r.executed == Numbered(done)
    && (forall s | s in r.log || s in r.applied :: s <= |done|)
    && (v == config.Primary() ==> r.seqNum == |done|)
  }

  ghost predicate AllSettled(k: Course, done: seq<Request>) {
    k.config.all != [] && forall v | v in k.now.correct :: Settled(k.config, v, k.now.correct[v], done)
  }

  /** Enough correct replicas, the primary among them, to fill every quorum and to hear from each other. */
  predicate EnoughCorrect(config: Config, correct: set<NodeId>)
    requires config.all != []
  {
    config.Primary() in correct && |correct| >= 3 && |correct| >= 2 * config.F() + 1
  }


  /** What the replicas are before the round of this request: the primary has already counted it. */
  function RoundOf(k: Course, s: nat, q: Request): Round
    requires k.config.all != []
  {
    Round((x: NodeId) => if x !in k.now.correct then Replica(x, 0, map[], {}, [])
               else if x == k.config.Primary() then k.now.correct[x].(seqNum := s) else k.now.correct[x],
          s, q)
  }

  lemma RoundOpens(k: Course, done: seq<Request>, q: Request)
    requires AllSettled(k, done)
    ensures Opens(RoundOf(k, |done| + 1, q))
  {
  }

  lemma ProposalSent(config: Config, hash: Hash, r: Round, y: NodeId)
    requires config.all != [] && y in Ids(config) && y != config.Primary()
    ensures Proposal(config, hash, r, y) in PrePrepares(config, config.Primary(), r.number, hash(r.request), r.request)
  {
    OthersHas(config.all, config.Primary(), y);
    var p := config.Primary();
    var i :| 0 <= i < |config.Peers(p)| && config.Peers(p)[i] == y;
    assert PrePrepares(config, p, r.number, hash(r.request), r.request)[i] == Proposal(config, hash, r, y);
  }

  /** The primary logs the request under the next number and sends its proposal to everybody else. */
  lemma Ask(k: Course, done: seq<Request>, q: Request) returns (k': Course)
    requires Real(k) && AllSettled(k, done) && k.config.Primary() in k.now.correct
    ensures var p, r := k.config.Primary(), RoundOf(k, |done| + 1, q);
            && Continues(k, k', {p}) && k'.now.correct[p] == Holding(k.hash, p, r, {}, {})
            && k'.actions == k.actions + [Submit(p, q)]
            && forall y | y in Ids(k.config) && y != p :: Proposal(k.config, k.hash, r, y) in k'.now.network
  {
    hide IsRun, Ids, PrePrepares, Others;
    var p, r := k.config.Primary(), RoundOf(k, |done| + 1, q);
    k' := Next(k, Submit(p, q));
    forall y | y in Ids(k.config) && y != p ensures Proposal(k.config, k.hash, r, y) in k'.now.network {
      ProposalSent(k.config, k.hash, r, y);
    }
  }

  /** Everybody else takes the proposal and hears the prepares of all the others. */
  lemma OthersPrepare(k: Course, r: Round) returns (k': Course)
    requires Real(k) && Opens(r) && EnoughCorrect(k.config, k.now.correct.Keys) && k.now.correct.Keys <= Ids(k.config)
    requires forall x | x in k.now.correct && x != k.config.Primary() ::
               k.now.correct[x] == r.base(x) && Proposal(k.config, k.hash, r, x) in k.now.network
    ensures var p := k.config.Primary(); var backups := k.now.correct.Keys - {p};
            && Continues(k, k', backups)
            && (forall x | x in backups :: k'.now.correct[x] == Holding(k.hash, x, r, backups, {x}))
            && (forall x | x in backups :: PrepareFrom(k.config, k.hash, r, x, p) in k'.now.network)
            && (forall x, y | x in backups && y in k.now.correct && y != x :: CommitFrom(k.config, k.hash, r, x, y) in k'.now.network)
  {
    hide IsRun, Ids, Holding, Proposal, PrepareFrom, CommitFrom, Opens;
    var p := k.config.Primary();
    var backups := k.now.correct.Keys - {p};
    assert |backups| == |k.now.correct.Keys| - 1;
    var k1 := ProposeAll(k, r, backups);
    k' := PrepareAll(k1, r, backups, backups);
    InARow(k, k1, k', backups);
  }

  /** The primary hears the prepares of all the others. */
  lemma PrimaryPrepares(k: Course, r: Round, backups: set<NodeId>) returns (k': Course)
    requires Real(k) && Opens(r) && EnoughCorrect(k.config, k.now.correct.Keys) && k.now.correct.Keys <= Ids(k.config)
    requires backups == k.now.correct.Keys - {k.config.Primary()}
    requires k.now.correct[k.config.Primary()] == Holding(k.hash, k.config.Primary(), r, {}, {})
    requires forall x | x in backups :: PrepareFrom(k.config, k.hash, r, x, k.config.Primary()) in k.now.network
    ensures var p := k.config.Primary();
            && Continues(k, k', {p}) && k'.now.correct[p] == Holding(k.hash, p, r, backups, {p})
            && forall y | y in k.now.correct && y != p :: CommitFrom(k.config, k.hash, r, p, y) in k'.now.network
  {
    hide IsRun, Ids, Holding, PrepareFrom, CommitFrom, Opens;
    var p := k.config.Primary();
    assert |backups| == |k.now.correct.Keys| - 1;
    assert {} + backups == backups;
    var commits: set<NodeId>;
    k', commits := TakePrepares(k, r, p, backups, {});
  }

  lemma {:induction false} SomeWith(all: set<NodeId>, x: NodeId, n: nat) returns (some: set<NodeId>)
    requires x in all && 1 <= n <= |all|
    ensures some <= all && x in some && |some| == n
    decreases n
  {
    if n == 1 {
      some := {x};
    } else {
      some := SomeWith(all, x, n - 1);
      assert |all - some| == |all| - |some|;
      var y :| y in all - some;
      some := some + {y};
    }
  }

  /** Everybody collects commits and executes. */
  lemma {:induction false} ExecuteAll(k: Course, r: Round, prepares: set<NodeId>, correct: set<NodeId>, todo: set<NodeId>) returns (k': Course)
    requires Real(k) && Opens(r) && correct == k.now.correct.Keys && todo <= correct && |correct| >= Enough(k.config)
    requires forall x | x in todo :: k.now.correct[x] == Holding(k.hash, x, r, prepares, {x})
    requires forall u, x | u in correct && x in correct && u != x :: CommitFrom(k.config, k.hash, r, u, x) in k.now.network
    ensures Continues(k, k', todo) && forall x | x in todo :: Executed(r, x, k'.now.correct[x])
    decreases |todo|
  {
    hide IsRun, Ids, Holding, CommitFrom, Opens, Executed, Continues;
    if todo == {} {
      k' := k;
      AtOnce(k);
    } else {
      var x :| x in todo;
      var k1 := ExecuteAll(k, r, prepares, correct, todo - {x});
      Moved(k, k1, todo - {x});
      Untouched(k, k1, todo - {x}, x);
      k' := ExecuteOne(k1, r, prepares, correct, x);
      Moved(k1, k', {x});
      forall y | y in todo && y != x ensures k'.now.correct[y] == k1.now.correct[y] { Untouched(k1, k', {x}, y); }
      BothMoved(k, k1, k', todo, x);
    }
  }

  lemma ExecuteOne(k: Course, r: Round, prepares: set<NodeId>, correct: set<NodeId>, x: NodeId) returns (k': Course)
    requires Real(k) && Opens(r) && correct == k.now.correct.Keys && x in correct && |correct| >= Enough(k.config)
    requires k.now.correct[x] == Holding(k.hash, x, r, prepares, {x})
    requires forall u | u in correct && u != x :: CommitFrom(k.config, k.hash, r, u, x) in k.now.network
    ensures Continues(k, k', {x}) && Executed(r, x, k'.now.correct[x])
  {
    hide IsRun, Ids, Holding, CommitFrom, Opens, Executed;
    var side := SomeWith(correct, x, Enough(k.config));
    var rest := side - {x};
    assert |rest| == |side| - 1;
    var u :| u in rest;
    k' := Finish(k, r, prepares, side, x, u);
  }

  lemma AtOnce(k: Course)
    requires Real(k)
    ensures Continues(k, k, {})
  {
    hide IsRun;
  }

  lemma Untouched(k: Course, k1: Course, moved: set<NodeId>, x: NodeId)
    requires Continues(k, k1, moved) && x in k.now.correct && x !in moved
    ensures x in k1.now.correct && k1.now.correct[x] == k.now.correct[x]
  {
    hide IsRun;
  }

  lemma BothMoved(k: Course, k1: Course, k2: Course, moved: set<NodeId>, x: NodeId)
    requires Continues(k, k1, moved - {x}) && Continues(k1, k2, {x}) && x in moved
    ensures Continues(k, k2, moved)
  {
    hide IsRun;
  }

  lemma SettledAfter(config: Config, r: Round, v: NodeId, now: Replica, done: seq<Request>, q: Request)
    requires config.all != [] && Executed(r, v, now) && r.number == |done| + 1 && r.request == q
    requires r.base(v).executed == Numbered(done) && forall s | s in r.base(v).log || s in r.base(v).applied :: s <= |done|
    requires v == config.Primary() ==> r.base(v).seqNum == |done| + 1
    ensures Settled(config, v, now, done + [q])
  {
    assert Numbered(done + [q]) == Numbered(done) + [(|done| + 1, q)];
    forall s | s in now.log || s in now.applied ensures s <= |done| + 1 {
      assert s in r.base(v).log.Keys + {r.number} || s in r.base(v).applied + {r.number};
    }
  }

  /** One request of the primary, from its submission to its execution by every correct replica. */
  lemma ServeOne(k: Course, done: seq<Request>, q: Request) returns (k': Course)
    requires Real(k) && AllSettled(k, done) && EnoughCorrect(k.config, k.now.correct.Keys) && k.now.correct.Keys <= Ids(k.config)
    ensures SameRun(k, k') && k'.now.correct.Keys == k.now.correct.Keys && AllSettled(k', done + [q])
    ensures k.actions + [Submit(k.config.Primary(), q)] <= k'.actions
  {
    hide IsRun, Ids, Holding, Proposal, PrepareFrom, CommitFrom, Opens, Continues, Executed, RoundOf, AllSettled;
    var p, r := k.config.Primary(), RoundOf(k, |done| + 1, q);
    RoundOpens(k, done, q);
    var backups := k.now.correct.Keys - {p};
    var k1 := Ask(k, done, q);
    Moved(k, k1, {p});
    forall x | x in backups ensures k1.now.correct[x] == r.base(x) {
      Untouched(k, k1, {p}, x);
      BackupBase(k, |done| + 1, q, x);
    }
    var k2 := OthersPrepare(k1, r);
    Moved(k1, k2, backups);
    Untouched(k1, k2, backups, p);
    k' := Complete(k2, r, backups);
    NowSettled(k, k', done, q);
  }

  /** The primary prepares, and everybody executes. */
  lemma Complete(k: Course, r: Round, backups: set<NodeId>) returns (k': Course)
    requires Real(k) && Opens(r) && EnoughCorrect(k.config, k.now.correct.Keys) && k.now.correct.Keys <= Ids(k.config)
    requires backups == k.now.correct.Keys - {k.config.Primary()}
    requires k.now.correct[k.config.Primary()] == Holding(k.hash, k.config.Primary(), r, {}, {})
    requires forall x | x in backups :: k.now.correct[x] == Holding(k.hash, x, r, backups, {x})
    requires forall x | x in backups :: PrepareFrom(k.config, k.hash, r, x, k.config.Primary()) in k.now.network
    requires forall x, y | x in backups && y in k.now.correct && y != x :: CommitFrom(k.config, k.hash, r, x, y) in k.now.network
    ensures SameRun(k, k') && k'.now.correct.Keys == k.now.correct.Keys
    ensures forall x | x in k'.now.correct :: Executed(r, x, k'.now.correct[x])
  {
    hide IsRun, Ids, Holding, PrepareFrom, CommitFrom, Opens, Continues, Executed;
    var p := k.config.Primary();
    var k1 := PrimaryPrepares(k, r, backups);
    Moved(k, k1, {p});
    forall x | x in backups ensures k1.now.correct[x] == k.now.correct[x] { Untouched(k, k1, {p}, x); }
    k' := ExecuteAll(k1, r, backups, k.now.correct.Keys, k.now.correct.Keys);
    Moved(k1, k', k.now.correct.Keys);
  }

  lemma BackupBase(k: Course, s: nat, q: Request, x: NodeId)
    requires k.config.all != [] && x in k.now.correct && x != k.config.Primary()
    ensures RoundOf(k, s, q).base(x) == k.now.correct[x]
  {
  }

  lemma NowSettled(k: Course, k': Course, done: seq<Request>, q: Request)
    requires AllSettled(k, done) && k'.config == k.config && k'.now.correct.Keys == k.now.correct.Keys
    requires forall x | x in k'.now.correct :: Executed(RoundOf(k, |done| + 1, q), x, k'.now.correct[x])
    ensures AllSettled(k', done + [q])
  {
    hide Executed;
    forall v | v in k'.now.correct ensures Settled(k'.config, v, k'.now.correct[v], done + [q]) {
      assert Settled(k.config, v, k.now.correct[v], done);
      SettledAfter(k.config, RoundOf(k, |done| + 1, q), v, k'.now.correct[v], done, q);
    }
  }

  lemma {:induction false} ServeAll(k: Course, requests: seq<Request>) returns (k': Course)
    requires Real(k) && AllSettled(k, []) && EnoughCorrect(k.config, k.now.correct.Keys) && k.now.correct.Keys <= Ids(k.config)
    ensures SameRun(k, k') && k'.now.correct.Keys == k.now.correct.Keys && AllSettled(k', requests)
    ensures if requests == [] then k' == k else k.actions + [Submit(k.config.Primary(), requests[0])] <= k'.actions
    decreases |requests|
  {
    hide IsRun, Ids, AllSettled;
    if requests == [] {
      k' := k;
    } else {
      var front, q := requests[..|requests| - 1], requests[|requests| - 1];
      assert requests == front + [q];
      var k1 := ServeAll(k, front);
      k' := ServeOne(k1, front, q);
    }
  }

  /**
   * Under a correct primary, with enough correct replicas and nothing from the faulty
   * ones, there is a run for every list of requests that starts with the first of them
   * and after which every correct replica has executed them all, in order, from number 1.
   */
  lemma RequestsAreServed(config: Config, hash: Hash, c: Cluster, requests: seq<Request>) returns (actions: seq<Action>)
    requires config.all != [] && Initial(config, c) && EnoughCorrect(config, c.correct.Keys)
    ensures Runs(config, hash, c, actions) && forall a | a in actions :: !a.Forge?
    ensures requests != [] ==> actions != [] && actions[0] == Submit(config.Primary(), requests[0])
    ensures var c' := After(config, hash, c, actions);
            && c'.correct.Keys == c.correct.Keys
            && forall v | v in c'.correct ::
                 && |c'.correct[v].executed| == |requests|
                 && forall i | 0 <= i < |requests| :: c'.correct[v].executed[i] == (i + 1, requests[i])
  {
    hide Ids, EnoughCorrect;
    var k := Course(config, hash, true, c, [], c);
    assert AllSettled(k, []);
    var k' := ServeAll(k, requests);
    actions := k'.actions;
  }

  // ---------- too few correct replicas ----------

  /** Without forged messages only correct replicas vote. */
  ghost predicate VotesCorrect(c: Cluster) {
    && (forall m | m in c.network :: m.src in c.correct)
    && (forall v, s | v in c.correct && s in c.correct[v].log :: c.correct[v].log[s].commits <= c.correct.Keys)
  }

  lemma OthersVote(config: Config, hash: Hash, r: Replica, m: Message, correct: set<NodeId>)
    requires config.all != [] && r.id in correct && m.src in correct
    requires forall s | s in r.log :: r.log[s].commits <= correct
    ensures var out := OnMessage(config, hash, r, m);
            && out.replica.id == r.id && (forall k | k in out.sent :: k.src == r.id)
            && forall s | s in out.replica.log :: out.replica.log[s].commits <= correct
  {
    hide Others;
  }

  lemma VotesStep(config: Config, hash: Hash, c: Cluster, a: Action)
    requires config.all != [] && Enabled(config, c, a) && !a.Forge? && VotesCorrect(c)
    requires forall v | v in c.correct :: c.correct[v].id == v
    ensures VotesCorrect(Perform(config, hash, c, a)) && Perform(config, hash, c, a).correct.Keys == c.correct.Keys
  {
    hide OnMessage, Others;
    match a {
      case Submit(v, q) =>
      case Deliver(m) => OthersVote(config, hash, c.correct[m.dst], m, c.correct.Keys);
    }
  }

  predicate Unforged(actions: seq<Action>) {
    forall a | a in actions :: !a.Forge?
  }

  lemma IdsOk(config: Config, hash: Hash, c: Cluster)
    requires config.all != [] && Inv(config, hash, c)
    ensures forall v | v in c.correct :: c.correct[v].id == v
    ensures forall m | m in c.network && m.src in c.correct :: m.dst != m.src
  {
    hide EntryInv, ExecutedInv;
    forall v | v in c.correct ensures c.correct[v].id == v { assert ReplicaInv(config, hash, c, v); }
    forall m | m in c.network && m.src in c.correct ensures m.dst != m.src { assert MessageInv(config, c, m); }
  }

  lemma {:induction false} VotesRun(config: Config, hash: Hash, c: Cluster, actions: seq<Action>)
    requires config.all != [] && Inv(config, hash, c) && VotesCorrect(c) && Runs(config, hash, c, actions) && Unforged(actions)
    ensures var c' := After(config, hash, c, actions);
            Inv(config, hash, c') && VotesCorrect(c') && c'.correct.Keys == c.correct.Keys
    decreases |actions|
  {
    hide Inv, VotesCorrect, Perform, Enabled;
    if actions != [] {
      IdsOk(config, hash, c);
      PerformInv(config, hash, c, actions[0]);
      VotesStep(config, hash, c, actions[0]);
      VotesRun(config, hash, Perform(config, hash, c, actions[0]), actions[1..]);
    }
  }

  /** Fewer correct replicas than a commit quorum execute nothing on their own. */
  lemma NoQuorumNoExecution(config: Config, hash: Hash, c: Cluster, v: NodeId)
    requires config.all != [] && Inv(config, hash, c) && VotesCorrect(c) && v in c.correct
    requires |c.correct.Keys| < 2 * config.F() + 1
    ensures c.correct[v].executed == []
  {
    hide ExecutedInv, MessageInv;
    if c.correct[v].executed != [] {
      ExecutedIs(config, hash, c, v, 0);
      var s := c.correct[v].executed[0].0;
      assert ReplicaInv(config, hash, c, v);
      assert EntryInv(config, hash, c, v, s);
      SubsetSize(c.correct[v].log[s].commits, c.correct.Keys);
    }
  }

  /** With no third replica to hear a prepare from, a backup never commits, and the primary hears no commit. */
  ghost predicate PrimaryAlone(config: Config, c: Cluster)
    requires config.all != [] && config.Primary() in c.correct
  {
    && c.correct[config.Primary()].executed == []
    && forall m | m in c.network ::
         && m.src in c.correct
         && (m.src == config.Primary() <==> !m.Prepare?)
  }

  lemma AtMostTwo(all: set<NodeId>, a: NodeId, b: NodeId, d: NodeId)
    requires |all| <= 2 && a in all && b in all && d in all
    ensures a == b || a == d || b == d
  {
    SubsetSize({a, b, d}, all);
  }

  lemma AloneStep(config: Config, hash: Hash, c: Cluster, a: Action)
    requires config.all != [] && config.Primary() in c.correct && Enabled(config, c, a) && !a.Forge?
    requires PrimaryAlone(config, c) && |c.correct.Keys| <= 2
    requires forall v | v in c.correct :: c.correct[v].id == v
    requires forall m | m in c.network && m.src in c.correct :: m.dst != m.src
    ensures Perform(config, hash, c, a).correct.Keys == c.correct.Keys && PrimaryAlone(config, Perform(config, hash, c, a))
  {
    hide Others, Ids;
    match a {
      case Submit(v, q) =>
      case Deliver(m) =>
        if m.Prepare? { AtMostTwo(c.correct.Keys, config.Primary(), m.src, m.dst); }
    }
  }

  lemma {:induction false} AloneRun(config: Config, hash: Hash, c: Cluster, actions: seq<Action>)
    requires config.all != [] && config.Primary() in c.correct && Inv(config, hash, c) && Runs(config, hash, c, actions)
    requires Unforged(actions) && PrimaryAlone(config, c) && |c.correct.Keys| <= 2
    ensures config.Primary() in After(config, hash, c, actions).correct && PrimaryAlone(config, After(config, hash, c, actions))
    decreases |actions|
  {
    hide Inv, PrimaryAlone, Perform, Enabled;
    if actions != [] {
      IdsOk(config, hash, c);
      PerformInv(config, hash, c, actions[0]);
      AloneStep(config, hash, c, actions[0]);
      AloneRun(config, hash, Perform(config, hash, c, actions[0]), actions[1..]);
    }
  }

  /** With a silent primary nothing happens at all. */
  lemma {:induction false} SilentRun(config: Config, hash: Hash, c: Cluster, actions: seq<Action>)
    requires config.all != [] && config.Primary() !in c.correct && Runs(config, hash, c, actions) && Unforged(actions)
    requires c.network == {} && forall v | v in c.correct :: c.correct[v].id == v
    ensures After(config, hash, c, actions) == c
    decreases |actions|
  {
    if actions != [] {
      var v := actions[0].replica;
      assert c.correct[v := c.correct[v]] == c.correct;
      assert Perform(config, hash, c, actions[0]) == c;
      SilentRun(config, hash, c, actions[1..]);
    }
  }

  /** An unforged run after which every correct replica has executed this request, under number 1, and nothing else. */
  ghost predicate Serves(config: Config, hash: Hash, c: Cluster, actions: seq<Action>, q: Request)
    requires config.all != []
  {
    && Runs(config, hash, c, actions) && Unforged(actions)
    && forall v | v in After(config, hash, c, actions).correct :: After(config, hash, c, actions).correct[v].executed == [(1, q)]
  }

  /** If there are too few, some correct replica has executed nothing. */
  lemma TooFewStall(config: Config, hash: Hash, c: Cluster, actions: seq<Action>) returns (v: NodeId)
    requires config.all != [] && Initial(config, c) && c.correct.Keys != {} && !EnoughCorrect(config, c.correct.Keys)
    requires Runs(config, hash, c, actions) && Unforged(actions)
    ensures v in After(config, hash, c, actions).correct && After(config, hash, c, actions).correct[v].executed == []
  {
    hide Runs, After, Inv, VotesCorrect;
    InitialInv(config, hash, c);
    if config.Primary() !in c.correct {
      SilentRun(config, hash, c, actions);
      v :| v in c.correct;
    } else if |c.correct.Keys| < 2 * config.F() + 1 {
      InitialVotes(config, c);
      VotesRun(config, hash, c, actions);
      v := config.Primary();
      NoQuorumNoExecution(config, hash, After(config, hash, c, actions), v);
    } else {
      AloneRun(config, hash, c, actions);
      v := config.Primary();
    }
  }

  lemma InitialVotes(config: Config, c: Cluster)
    requires Initial(config, c)
    ensures VotesCorrect(c)
  {
  }

  /** The exact condition for a request to be served with the faulty replicas silent. */
  lemma ServedIffEnough(config: Config, hash: Hash, c: Cluster, q: Request)
    requires config.all != [] && Initial(config, c) && c.correct.Keys != {}
    ensures (exists actions :: Serves(config, hash, c, actions, q)) <==> EnoughCorrect(config, c.correct.Keys)
  {
    hide Initial, Runs, After, EnoughCorrect;
    if EnoughCorrect(config, c.correct.Keys) {
      var actions := RequestsAreServed(config, hash, c, [q]);
      assert Serves(config, hash, c, actions, q);
    }
    if actions :| Serves(config, hash, c, actions, q) {
      if !EnoughCorrect(config, c.correct.Keys) {
        var v := TooFewStall(config, hash, c, actions);
        assert false;
      }
    }
  }
}
