/** What the lock table promises: exclusion, and agreement of replicas that walk their sets differently. */
module LockTheorems {
  import opened Quorums
  import opened LockCommands
  import opened LockTable
  import opened RaftCluster
  import opened RaftTheorems

  /** Equal up to clocks: locks with waiter order, what every client holds, wait-for edges, who has an age. */
  ghost predicate SameTable(a: Table, b: Table) {
    && a.locks == b.locks
    && (forall c :: HeldBy(a.clientLocks, c) == HeldBy(b.clientLocks, c))
    && a.waitFor == b.waitFor
    && a.ages.Keys == b.ages.Keys
  }

  function WithoutHolder(s: LockState, c: Client): LockState {
    Promoted(s.(holders := s.holders - {c}))
  }

  lemma WithoutTwice(graph: map<Client, set<Client>>, c: Client)
    ensures WithoutClient(WithoutClient(graph, c), c) == WithoutClient(graph, c)
  {
    var once := WithoutClient(graph, c);
    assert forall w | w in once :: once[w] - {c} == once[w];
  }

  /** Releasing in some order: each listed lock loses the client on its own; nothing depends on the order. */
  lemma {:induction false} ReleasedInOrderIs(t: Table, c: Client, order: seq<Resource>)
    requires forall r | r in order :: Holds(t, c, r)
    requires forall i, j | 0 <= i < j < |order| :: order[i] != order[j]
    ensures var (t', n) := ReleasedInOrder(t, c, order);
            && n == |order|
            && t'.locks == (map r | r in t.locks :: if r in order then WithoutHolder(t.locks[r], c) else t.locks[r])
            && WithoutClient(t'.waitFor, c) == WithoutClient(t.waitFor, c)
            && t'.ages - {c} == t.ages - {c}
    decreases |order|
  {
    if order != [] {
      var t1 := Released(t, c, order[0]);
      forall r | r in order[1..] ensures Holds(t1, c, r) && r != order[0] {
        assert r in order;
      }
      WithoutTwice(t.waitFor, c);
      ReleasedInOrderIs(t1, c, order[1..]);
      assert forall r :: r in order <==> r == order[0] || r in order[1..];
    }
  }

  lemma SameLocksSameHeld(a: Table, b: Table)
    requires TableInv(a) && TableInv(b) && a.locks == b.locks
    ensures forall c :: HeldBy(a.clientLocks, c) == HeldBy(b.clientLocks, c)
  {
  }

  /** The reply of a release of everything is the number of locks the client held. */
  lemma ReleaseAllIs(t: Table, c: Client, order: seq<Resource>)
    requires TableInv(t) && Enumerates(order, HeldBy(t.clientLocks, c))
    ensures var (t', reply) := ReleasedAll(t, c, order);
            && reply == Count(|HeldBy(t.clientLocks, c)|)
            && t'.locks == (map r | r in t.locks :: if Holds(t, c, r) then WithoutHolder(t.locks[r], c) else t.locks[r])
            && t'.waitFor == WithoutClient(t.waitFor, c)
            && t'.ages == t.ages - {c}
  {
    forall r ensures r in order <==> Holds(t, c, r) {
      assert r in order <==> r in HeldBy(t.clientLocks, c);
    }
    ReleasedInOrderIs(t, c, order);
    DistinctSize(order, HeldBy(t.clientLocks, c));
  }

  /** After a release of everything the client holds a resource only if it was itself queued on it. */
  lemma KeepsOnlyWhatItQueuedFor(t: Table, c: Client, order: seq<Resource>, r: Resource)
    requires TableInv(t) && Enumerates(order, HeldBy(t.clientLocks, c))
    requires r in HeldBy(ReleasedAll(t, c, order).0.clientLocks, c)
    ensures Holds(t, c, r) && Waits(t.locks[r].waiters, c)
  {
    var t' := ReleasedAll(t, c, order).0;
    ReleasedInOrderInv(t, c, order);
    ReleaseAllIs(t, c, order);
    assert Holds(t', c, r);
    var s := t.locks[r].(holders := t.locks[r].holders - {c});
    WithHoldersKeys(s.holders, s.waiters[..Admitted(s)]);
    var i :| 0 <= i < Admitted(s) && s.waiters[..Admitted(s)][i].client == c;
    assert s.waiters[i].client == c;
  }

  /** All of a table that is not determined by its locks. */
  ghost predicate SameRest(a: Table, b: Table) {
    a.locks == b.locks && a.waitFor == b.waitFor && a.ages.Keys == b.ages.Keys
  }

  lemma AcquireStep(a: Table, b: Table, c: Client, r: Resource, mode: LockMode, nowA: int, nowB: int)
    requires SameRest(a, b)
    ensures SameRest(Acquired(a, c, r, mode, nowA).0, Acquired(b, c, r, mode, nowB).0)
    ensures Acquired(a, c, r, mode, nowA).1 == Acquired(b, c, r, mode, nowB).1
  {
  }

  lemma ReleaseStep(a: Table, b: Table, c: Client, r: Resource)
    requires SameRest(a, b)
    ensures SameRest(ReleasedOne(a, c, r).0, ReleasedOne(b, c, r).0)
    ensures ReleasedOne(a, c, r).1 == ReleasedOne(b, c, r).1
  {
    hide Promoted, WithoutClient;
  }

  lemma ReleaseAllStep(a: Table, b: Table, c: Client, orderA: seq<Resource>, orderB: seq<Resource>)
    requires TableInv(a) && TableInv(b) && SameTable(a, b)
    requires Enumerates(orderA, HeldBy(a.clientLocks, c)) && Enumerates(orderB, HeldBy(b.clientLocks, c))
    ensures SameRest(ReleasedAll(a, c, orderA).0, ReleasedAll(b, c, orderB).0)
    ensures ReleasedAll(a, c, orderA).1 == ReleasedAll(b, c, orderB).1
  {
    hide TableInv, Promoted, WithoutClient, ReleasedAll;
    ReleaseAllIs(a, c, orderA);
    ReleaseAllIs(b, c, orderB);
    assert forall r :: Holds(a, c, r) <==> Holds(b, c, r);
  }

  /** One command on two replicas that agree: they agree again and give the same reply. */
  lemma ReplicasStep(a: Table, b: Table, command: Command, orderA: seq<Resource>, orderB: seq<Resource>, nowA: int, nowB: int)
    requires TableInv(a) && TableInv(b) && SameTable(a, b)
    requires ValidOrder(a, command, orderA) && ValidOrder(b, command, orderB)
    ensures var (a', replyA) := Applied(a, command, orderA, nowA); var (b', replyB) := Applied(b, command, orderB, nowB);
            SameTable(a', b') && replyA == replyB
  {
    hide TableInv, Acquired, ReleasedOne, ReleasedAll;
    AppliedInv(a, command, orderA, nowA);
    AppliedInv(b, command, orderB, nowB);
    match command {
      case Acquire(c, r, mode) => AcquireStep(a, b, c, r, mode, nowA, nowB);
      case Release(c, r) => ReleaseStep(a, b, c, r);
      case ReleaseAll(c) => ReleaseAllStep(a, b, c, orderA, orderB);
      case Abort(c) => ReleaseAllStep(a, b, c, orderA, orderB);
      case Unknown =>
    }
    SameLocksSameHeld(Applied(a, command, orderA, nowA).0, Applied(b, command, orderB, nowB).0);
  }

  function Front<T>(s: seq<T>): (front: seq<T>)
    requires s != []
    ensures |front| == |s| - 1
  {
    s[..|s| - 1]
  }

  function Last<T>(s: seq<T>): T
    requires s != []
  {
    s[|s| - 1]
  }

  /** A replica that has applied these commands, in this order, may have this table and have given these replies. */
  ghost predicate Follows(commands: seq<Command>, t: Table, replies: seq<Reply>)
    decreases |commands|
  {
    if commands == [] then t == EMPTY && replies == []
    else
      && |replies| == |commands|
      && exists t0, order, now ::
           Follows(Front(commands), t0, Front(replies)) && StepOf(t0, Last(commands), order, now, t, Last(replies))
  }

  lemma {:induction false} FollowsInv(commands: seq<Command>, t: Table, replies: seq<Reply>)
    requires Follows(commands, t, replies)
    ensures TableInv(t)
    decreases |commands|
  {
    if commands != [] {
      var t0, order, now :| Follows(Front(commands), t0, Front(replies)) && StepOf(t0, Last(commands), order, now, t, Last(replies));
      FollowsInv(Front(commands), t0, Front(replies));
      AppliedInv(t0, Last(commands), order, now);
    }
  }

  /** Mutual exclusion and no forgotten waiter, after any command sequence. */
  lemma LocksAreSafe(commands: seq<Command>, t: Table, replies: seq<Reply>, r: Resource, c: Client, d: Client)
    requires Follows(commands, t, replies) && r in t.locks
    ensures c in t.locks[r].holders && t.locks[r].holders[c] == Exclusive && d in t.locks[r].holders ==> c == d
    ensures c in t.locks[r].holders <==> r in HeldBy(t.clientLocks, c)
    ensures forall i, j | 0 <= i < j < |t.locks[r].waiters| :: t.locks[r].waiters[i].client != t.locks[r].waiters[j].client
    ensures t.locks[r].waiters != [] ==> t.locks[r].Held() && !t.locks[r].Grants(t.locks[r].waiters[0].mode)
  {
    FollowsInv(commands, t, replies);
    assert LockInv(t.locks[r]);
    assert r in HeldBy(t.clientLocks, c) <==> Holds(t, c, r);
  }

  lemma SameItself(t: Table)
    ensures SameTable(t, t)
  {
  }

  /** Replicas that applied the same commands have the same table and gave the same replies. */
  lemma {:induction false} ReplicasAgree(commands: seq<Command>, a: Table, repliesA: seq<Reply>, b: Table, repliesB: seq<Reply>)
    requires Follows(commands, a, repliesA) && Follows(commands, b, repliesB)
    ensures SameTable(a, b) && repliesA == repliesB
    decreases |commands|
  {
    hide SameTable, TableInv, Applied, ValidOrder;
    SameItself(EMPTY);
    if commands != [] {
      var a0, orderA, nowA :| Follows(Front(commands), a0, Front(repliesA))
                              && StepOf(a0, Last(commands), orderA, nowA, a, Last(repliesA));
      var b0, orderB, nowB :| Follows(Front(commands), b0, Front(repliesB))
                              && StepOf(b0, Last(commands), orderB, nowB, b, Last(repliesB));
      ReplicasAgree(Front(commands), a0, Front(repliesA), b0, Front(repliesB));
      FollowsInv(Front(commands), a0, Front(repliesA));
      FollowsInv(Front(commands), b0, Front(repliesB));
      ReplicasStep(a0, b0, Last(commands), orderA, orderB, nowA, nowB);
      assert repliesA == Front(repliesA) + [Last(repliesA)] && repliesB == Front(repliesB) + [Last(repliesB)];
    }
  }

  /**
   * The replicated lock service: on a careful run of a Raft cluster, two nodes that
   * have applied equally many commands, at whatever two moments, have the same lock
   * table and have answered every command alike.
   */
  lemma LockServiceAgrees(c: Cluster, earlier: seq<Action>, later: seq<Action>, v: NodeId, w: NodeId,
                          a: Table, repliesA: seq<Reply>, b: Table, repliesB: seq<Reply>)
    requires Initial(c) && CarefulRun(c, earlier) && Runs(c, earlier)
    requires CarefulRun(After(c, earlier), later) && Runs(After(c, earlier), later)
    requires v in After(c, earlier).nodes && w in After(After(c, earlier), later).nodes
    requires Follows(After(c, earlier).nodes[v].applied, a, repliesA)
    requires Follows(After(After(c, earlier), later).nodes[w].applied, b, repliesB)
    requires |After(c, earlier).nodes[v].applied| == |After(After(c, earlier), later).nodes[w].applied|
    ensures SameTable(a, b) && repliesA == repliesB
  {
    hide Initial, CarefulRun, Runs, After, Follows;
    StateMachineSafety(c, earlier, later, v, w);
    var x, y := After(c, earlier).nodes[v].applied, After(After(c, earlier), later).nodes[w].applied;
    assert x == y;
    ReplicasAgree(x, a, repliesA, b, repliesB);
  }
}
