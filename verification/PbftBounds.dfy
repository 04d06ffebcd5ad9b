/**
 * Why the cluster size matters: f is the number of replicas less one, over three,
 * rounded down, and quorums of 2f + 1 only overlap enough when nothing is lost
 * in the rounding. At the other sizes agreement fails, unless f is zero.
 */
module PbftBounds {
  import opened Quorums
  import opened PbftReplica
  import opened PbftAgreement
  import opened PbftDisagreement
  import opened PbftRounds

  // ---------- which sizes are safe ----------

  function Between(from: nat, end: nat): (r: set<NodeId>)
    ensures forall p :: p in r <==> from <= p < end
    ensures |r| == (if from <= end then end - from else 0)
    decreases end
  {
    if from >= end then {} else Between(from, end - 1) + {end - 1}
  }

  /** How many faulty replicas the program expects to stand. */
  function MaxFaulty(n: nat): nat
    requires n > 0
  {
    (n - 1) / 3
  }

  /** Two commit quorums and a set of at most f faulty replicas, out of n. */
  ghost predicate Setting(n: nat, ids: set<NodeId>, a: set<NodeId>, b: set<NodeId>, faulty: set<NodeId>)
    requires n > 0
  {
    && |ids| == n && a <= ids && b <= ids && faulty <= ids
    && |a| >= 2 * MaxFaulty(n) + 1 && |b| >= 2 * MaxFaulty(n) + 1 && |faulty| <= MaxFaulty(n)
  }

  ghost predicate QuorumsShareCorrect(n: nat)
    requires n > 0
  {
    forall ids, a, b, faulty | Setting(n, ids, a, b, faulty) :: !(a * b <= faulty)
  }

  lemma RoundSizeIsSafe(n: nat, ids: set<NodeId>, a: set<NodeId>, b: set<NodeId>, faulty: set<NodeId>)
    requires n % 3 == 1 && Setting(n, ids, a, b, faulty)
    ensures !(a * b <= faulty)
  {
    assert ids - (ids - faulty) == faulty;
    var u := CorrectInBoth(ids, MaxFaulty(n), a, b, ids - faulty);
    assert u in a * b;
  }

  lemma Rounding(n: nat)
    requires n > 0
    ensures n == 3 * MaxFaulty(n) + (if n % 3 == 0 then 3 else n % 3)
  {
  }

  lemma BetweenOverlap(n: nat, q: nat)
    requires q <= n
    ensures Between(0, q) <= Between(0, n) && Between(n - q, n) <= Between(0, n) && Between(n - q, q) <= Between(0, n)
    ensures Between(0, q) * Between(n - q, n) <= Between(n - q, q)
  {
  }

  lemma OtherSizesAreNot(n: nat) returns (ids: set<NodeId>, a: set<NodeId>, b: set<NodeId>, faulty: set<NodeId>)
    requires n > 0 && n % 3 != 1
    ensures Setting(n, ids, a, b, faulty) && a * b <= faulty
  {
    hide MaxFaulty, Between;
    Rounding(n);
    var q := 2 * MaxFaulty(n) + 1;
    BetweenOverlap(n, q);
    ids, a, b, faulty := Between(0, n), Between(0, q), Between(n - q, n), Between(n - q, q);
  }

  /** Exactly for the sizes 3f + 1 do any two commit quorums share a replica that is not faulty. */
  lemma SafeSizes(n: nat)
    requires n > 0
    ensures QuorumsShareCorrect(n) <==> n % 3 == 1
  {
    if n % 3 == 1 {
      forall ids, a, b, faulty | Setting(n, ids, a, b, faulty) ensures !(a * b <= faulty) {
        RoundSizeIsSafe(n, ids, a, b, faulty);
      }
    } else {
      var ids, a, b, faulty := OtherSizesAreNot(n);
    }
  }

  // ---------- which sizes agree ----------

  /** What has been executed under one number is one request, wherever and whenever. */
  ghost predicate ExecutesAlike(c: Cluster) {
    forall v, w, i, j | v in c.correct && w in c.correct && 0 <= i < |c.correct[v].executed| && 0 <= j < |c.correct[w].executed|
      && c.correct[v].executed[i].0 == c.correct[w].executed[j].0 :: c.correct[v].executed[i] == c.correct[w].executed[j]
  }

  /** Agreement on all runs with at most as many faulty replicas as the program expects to stand. */
  ghost predicate AlwaysAgrees(config: Config, hash: Hash)
    requires config.all != []
  {
    forall c, actions | Initial(config, c) && |Ids(config) - c.correct.Keys| <= config.F() && Runs(config, hash, c, actions) ::
      ExecutesAlike(After(config, hash, c, actions))
  }

  /** The cluster in which these replicas are faulty, at its start. */
  function StartWith(config: Config, faulty: set<NodeId>): Cluster {
    Cluster(map v | v in Ids(config) - faulty :: Idle(v), {})
  }

  lemma StartIs(config: Config, faulty: set<NodeId>)
    ensures Initial(config, StartWith(config, faulty)) && StartWith(config, faulty).correct.Keys == Ids(config) - faulty
    ensures forall z | z in StartWith(config, faulty).correct :: StartWith(config, faulty).correct[z] == Idle(z)
  {
  }

  lemma IdleFirst(q: Request, z: NodeId)
    ensures FirstRound(q).base(z) == Idle(z)
  {
  }

  /** Two camps beside the faulty replicas, one of which is the primary, execute a request each under number 1. */
  lemma CampsDisagree(config: Config, hash: Hash, faulty: set<NodeId>, one: set<NodeId>, other: set<NodeId>,
                      x: NodeId, y: NodeId, first: Request, second: Request) returns (actions: seq<Action>)
    requires config.all != [] && faulty <= Ids(config) && |faulty| == config.F() && config.Primary() in faulty
    requires one <= Ids(config) - faulty && other <= Ids(config) - faulty && one !! other
    requires |one| == |other| == config.F() + 1 && x in one && y in other
    ensures var start := StartWith(config, faulty);
            && Initial(config, start) && |Ids(config) - start.correct.Keys| <= config.F()
            && Runs(config, hash, start, actions)
            && var c := After(config, hash, start, actions);
            && x in c.correct && c.correct[x].executed == [(1, first)]
            && y in c.correct && c.correct[y].executed == [(1, second)]
  {
    hide Perform, Executed, Opens, FirstRound, Ids;
    var start := StartWith(config, faulty);
    StartIs(config, faulty);
    assert start.correct.Keys == Ids(config) - faulty;
    assert Ids(config) - start.correct.Keys == faulty;
    FirstRoundOpens(first);
    FirstRoundOpens(second);
    var k := Course(config, hash, false, start, [], start);
    forall q, z | z in start.correct ensures start.correct[z] == FirstRound(q).base(z) {
      IdleFirst(q, z);
    }
    var k1 := Camp(k, FirstRound(first), one, faulty, x);
    var k2 := Camp(k1, FirstRound(second), other, faulty, y);
    FirstExecuted(first, x, k1.now.correct[x]);
    FirstExecuted(second, y, k2.now.correct[y]);
    actions := k2.actions;
  }

  lemma {:induction false} SomeOf(all: set<NodeId>, n: nat) returns (some: set<NodeId>)
    requires n <= |all|
    ensures some <= all && |some| == n
  {
    if n == 0 {
      some := {};
    } else {
      var x :| x in all;
      some := SomeOf(all - {x}, n - 1);
      some := some + {x};
    }
  }

  lemma AtLeastOne(n: nat)
    requires 0 < n && !SafeSize(n)
    ensures MaxFaulty(n) >= 1 && n >= 3 * MaxFaulty(n) + 2
  {
  }

  /** At any other size there is room for two camps of f + 1 beside f faulty replicas. */
  lemma TwoCamps(config: Config) returns (faulty: set<NodeId>, one: set<NodeId>, other: set<NodeId>)
    requires config.all != [] && |Ids(config)| == |config.all| && !SafeSize(|config.all|)
    ensures faulty <= Ids(config) && |faulty| == config.F() && config.Primary() in faulty
    ensures one <= Ids(config) - faulty && other <= Ids(config) - faulty && one !! other
    ensures |one| == |other| == config.F() + 1
  {
    hide Ids, SafeSize, MaxFaulty;
    var f := config.F();
    AtLeastOne(|config.all|);
    PrimaryIsMember(config);
    var p := config.Primary();
    faulty := SomeOf(Ids(config) - {p}, f - 1);
    faulty := faulty + {p};
    assert |Ids(config) - faulty| == |Ids(config)| - f;
    one := SomeOf(Ids(config) - faulty, f + 1);
    assert |Ids(config) - faulty - one| == |Ids(config)| - f - (f + 1);
    other := SomeOf(Ids(config) - faulty - one, f + 1);
  }

  lemma PrimaryIsMember(config: Config)
    requires config.all != []
    ensures config.Primary() in Ids(config) && config.F() == MaxFaulty(|config.all|)
  {
  }

  /**
   * The exact condition: with at most f = (n - 1) / 3 faulty replicas the correct ones
   * agree on every run if and only if n is 3f + 1, or so small that nobody is faulty.
   */
  lemma AgreementSizes(config: Config, hash: Hash)
    requires config.all != [] && |Ids(config)| == |config.all| && Injective(hash)
    ensures AlwaysAgrees(config, hash) <==> SafeSize(|config.all|)
  {
    hide Ids, SafeSize, Initial, Runs, After, ExecutesAlike;
    if SafeSize(|config.all|) {
      forall c, actions | Initial(config, c) && |Ids(config) - c.correct.Keys| <= config.F() && Runs(config, hash, c, actions)
        ensures ExecutesAlike(After(config, hash, c, actions))
      {
        SafeRunAgrees(config, hash, c, actions);
      }
    } else {
      var faulty, one, other := TwoCamps(config);
      var x :| x in one;
      var y :| y in other;
      var actions := CampsDisagree(config, hash, faulty, one, other, x, y, Request(0, 0, 0), Request(1, 0, 0));
      var c := After(config, hash, StartWith(config, faulty), actions);
      NotAlike(c, x, y, Request(0, 0, 0), Request(1, 0, 0));
    }
  }

  lemma SafeRunAgrees(config: Config, hash: Hash, c: Cluster, actions: seq<Action>)
    requires config.all != [] && |Ids(config)| == |config.all| && Injective(hash) && SafeSize(|config.all|)
    requires Initial(config, c) && |Ids(config) - c.correct.Keys| <= config.F() && Runs(config, hash, c, actions)
    ensures ExecutesAlike(After(config, hash, c, actions))
  {
    hide Ids, SafeSize, Initial, Runs, After;
    var c' := After(config, hash, c, actions);
    forall v, w, i, j | v in c'.correct && w in c'.correct && 0 <= i < |c'.correct[v].executed| && 0 <= j < |c'.correct[w].executed|
      && c'.correct[v].executed[i].0 == c'.correct[w].executed[j].0
      ensures c'.correct[v].executed[i] == c'.correct[w].executed[j]
    {
      Agreement(config, hash, c, actions, v, w, i, j);
    }
  }

  lemma NotAlike(c: Cluster, x: NodeId, y: NodeId, first: Request, second: Request)
    requires x in c.correct && c.correct[x].executed == [(1, first)] && y in c.correct && c.correct[y].executed == [(1, second)]
    requires first != second
    ensures !ExecutesAlike(c)
  {
    assert c.correct[x].executed[0].0 == c.correct[y].executed[0].0;
    assert c.correct[x].executed[0] != c.correct[y].executed[0];
  }

  // ---------- the smallest such cluster ----------

  const FIVE := Config([0, 1, 2, 3, 4], 0)

  function Start(): Cluster {
    Cluster(map v | v in {1, 2, 3, 4} :: Replica(v, 0, map[], {}, []), {})
  }

  /** Five replicas, one of them faulty: two correct replicas execute different requests under number 1. */
  lemma FiveReplicasDisagree(hash: Hash, first: Request, second: Request) returns (actions: seq<Action>)
    ensures Initial(FIVE, Start()) && |Ids(FIVE) - Start().correct.Keys| <= FIVE.F()
    ensures Runs(FIVE, hash, Start(), actions)
    ensures var c := After(FIVE, hash, Start(), actions);
            && 1 in c.correct && c.correct[1].executed == [(1, first)]
            && 3 in c.correct && c.correct[3].executed == [(1, second)]
  {
    hide Initial, Runs, After;
    assert Ids(FIVE) == {0, 1, 2, 3, 4};
    assert StartWith(FIVE, {0}).correct == Start().correct;
    actions := CampsDisagree(FIVE, hash, {0}, {1, 2}, {3, 4}, 1, 3, first, second);
  }
}
