/**
 * How a faulty primary splits correct replicas: a camp of f + 1 correct replicas and
 * the f faulty ones is enough to execute a request, so two camps execute two.
 */
module PbftDisagreement {
  import opened Quorums
  import opened PbftReplica
  import opened PbftAgreement
  import opened PbftRounds

  // ---------- the faulty replicas ----------

  lemma {:induction false} ForgeAll(k: Course, messages: set<Message>) returns (k': Course)
    requires Real(k) && !k.honest && forall m | m in messages :: m.src in Ids(k.config) && m.src !in k.now.correct
    ensures Continues(k, k', {}) && k'.now.correct == k.now.correct && messages <= k'.now.network
    decreases |messages|
  {
    hide IsRun;
    if messages == {} {
      k' := k;
    } else {
      var m :| m in messages;
      k' := ForgeAll(k, messages - {m});
      k' := Next(k', Forge(m));
    }
  }

  // ---------- a camp ----------

  function Idle(v: NodeId): Replica {
    Replica(v, 0, map[], {}, [])
  }

  /** A request as the first thing these replicas hear of. */
  function FirstRound(q: Request): Round {
    Round(Idle, 1, q)
  }

  lemma FirstRoundOpens(q: Request)
    ensures Opens(FirstRound(q))
  {
  }

  lemma FirstExecuted(q: Request, x: NodeId, now: Replica)
    requires Executed(FirstRound(q), x, now)
    ensures now.executed == [(1, q)]
  {
  }

  /** The proposals of the faulty primary arrive, and so do the prepares of the faulty replicas. */
  lemma EverybodyProposed(k: Course, r: Round, camp: set<NodeId>, faulty: set<NodeId>) returns (k': Course)
    requires Real(k) && !k.honest && Opens(r) && camp <= k.now.correct.Keys && forall y | y in camp :: k.now.correct[y] == r.base(y)
    requires faulty <= Ids(k.config) && faulty !! k.now.correct.Keys && k.config.Primary() in faulty
    requires k.now.correct.Keys <= Ids(k.config)
    ensures Continues(k, k', camp)
    ensures forall y | y in camp :: k'.now.correct[y] == Holding(k.hash, y, r, {y}, {})
    ensures forall u, y | u in camp + faulty && y in camp && u != y :: PrepareFrom(k.config, k.hash, r, u, y) in k'.now.network
  {
    hide IsRun, Ids, Holding;
    var proposals := set y | y in camp :: Proposal(k.config, k.hash, r, y);
    k' := ForgeAll(k, proposals);
    assert forall y | y in camp :: Proposal(k.config, k.hash, r, y) in proposals;
    k' := ProposeAll(k', r, camp);
    var prepares := set u, y | u in faulty && y in camp :: PrepareFrom(k.config, k.hash, r, u, y);
    k' := ForgeAll(k', prepares);
    assert forall u, y | u in faulty && y in camp :: PrepareFrom(k.config, k.hash, r, u, y) in prepares;
  }

  /** Everybody in the camp has the prepares of the whole side and has broadcast its commit. */
  lemma EverybodyPrepared(k: Course, r: Round, camp: set<NodeId>, faulty: set<NodeId>) returns (k': Course)
    requires Real(k) && !k.honest && Opens(r) && camp <= k.now.correct.Keys && k.now.correct.Keys <= Ids(k.config)
    requires |camp + faulty| >= 2 && |camp + faulty| >= 2 * k.config.F()
    requires forall y | y in camp :: k.now.correct[y] == Holding(k.hash, y, r, {y}, {})
    requires forall u, y | u in camp + faulty && y in camp && u != y :: PrepareFrom(k.config, k.hash, r, u, y) in k.now.network
    ensures Continues(k, k', camp)
    ensures forall y | y in camp :: k'.now.correct[y] == Holding(k.hash, y, r, camp + faulty, {y})
    ensures forall u, y | u in camp && y in camp && u != y :: CommitFrom(k.config, k.hash, r, u, y) in k'.now.network
  {
    hide IsRun, Ids, Holding, PrepareFrom, CommitFrom;
    k' := PrepareAll(k, r, camp + faulty, camp);
  }

  /** The faulty replicas add their commits, and the chosen one has 2f + 1. */
  lemma OneExecutes(k: Course, r: Round, camp: set<NodeId>, faulty: set<NodeId>, x: NodeId) returns (k': Course)
    requires Real(k) && !k.honest && Opens(r) && camp <= k.now.correct.Keys && x in camp && |camp + faulty| == 2 * k.config.F() + 1 && k.config.F() >= 1
    requires faulty <= Ids(k.config) && faulty !! k.now.correct.Keys && k.config.Primary() in faulty
    requires k.now.correct[x] == Holding(k.hash, x, r, camp + faulty, {x})
    requires forall u | u in camp && u != x :: CommitFrom(k.config, k.hash, r, u, x) in k.now.network
    ensures Continues(k, k', camp) && Executed(r, x, k'.now.correct[x])
  {
    hide IsRun, Ids, Holding;
    var commits := set u | u in faulty :: CommitFrom(k.config, k.hash, r, u, x);
    k' := ForgeAll(k, commits);
    assert forall u | u in faulty :: CommitFrom(k.config, k.hash, r, u, x) in commits;
    k' := Finish(k', r, camp + faulty, camp + faulty, x, k.config.Primary());
  }

  /** f + 1 idle correct replicas and f faulty ones, the primary among them, make a chosen one execute a request. */
  lemma Camp(k: Course, r: Round, camp: set<NodeId>, faulty: set<NodeId>, x: NodeId) returns (k': Course)
    requires Real(k) && !k.honest && Opens(r) && camp <= k.now.correct.Keys && x in camp && |camp| == k.config.F() + 1
    requires faulty <= Ids(k.config) && faulty !! k.now.correct.Keys && |faulty| == k.config.F() && k.config.Primary() in faulty
    requires k.now.correct.Keys <= Ids(k.config) && forall y | y in camp :: k.now.correct[y] == r.base(y)
    ensures Continues(k, k', camp) && Executed(r, x, k'.now.correct[x])
  {
    hide IsRun, Ids, Holding, Proposal, PrepareFrom, CommitFrom, Continues, Executed;
    PrimaryCounts(faulty, k.config.Primary());
    var k1 := EverybodyProposed(k, r, camp, faulty);
    var side := camp + faulty;
    assert |side| == 2 * k.config.F() + 1;
    Moved(k, k1, camp);
    var k2 := EverybodyPrepared(k1, r, camp, faulty);
    Moved(k1, k2, camp);
    k' := OneExecutes(k2, r, camp, faulty, x);
    Moved(k2, k', camp);
    InARow(k, k1, k2, camp);
    InARow(k, k2, k', camp);
  }

  lemma PrimaryCounts(faulty: set<NodeId>, p: NodeId)
    requires p in faulty
    ensures |faulty| >= 1
  {
  }
}
