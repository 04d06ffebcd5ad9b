/** The lock manager's state machine as the program runs it, on dictionaries changed in place. */
module LockManager {
  import opened LockCommands
  import opened LockTable
  import opened Options
  import opened WaitForGraph

  class DeadlockDetector {
    var waitFor: map<Client, set<Client>>
    var ages: map<Client, int>

    constructor ()
      ensures waitFor == map[] && ages == map[]
    {
      waitFor, ages := map[], map[];
    }

    method AddWait(waiter: Client, holder: Client)
      modifies this`waitFor
      ensures waitFor == WithEdges(old(waitFor), waiter, {holder} - {waiter})
    {
      if waiter == holder {
        assert {holder} - {waiter} == {};
        return;
      }
      assert {holder} - {waiter} == {holder};
      waitFor := waitFor[waiter := WaitsFor(waitFor, waiter) + {holder}];
    }

    /** Removes the client, then every edge to it, then whoever is left waiting for nobody. */
    method RemoveClient(client: Client)
      modifies this
      ensures waitFor == WithoutClient(old(waitFor), client) && ages == old(ages) - {client}
    {
      hide WithoutClient, PartlyWithout;
      waitFor := waitFor - {client};
      ages := ages - {client};
      var todo := waitFor.Keys;
      PartlyEnds(old(waitFor), client);
      while todo != {}
        invariant ages == old(ages) - {client}
        invariant todo <= old(waitFor).Keys - {client}
        invariant waitFor == PartlyWithout(old(waitFor), client, todo)
        decreases |todo|
      {
        var w :| w in todo;
        PartlyStep(old(waitFor), client, todo, w);
        SetThenDrop(waitFor, w, waitFor[w] - {client});
        waitFor := waitFor[w := waitFor[w] - {client}];
        if waitFor[w] == {} {
          waitFor := waitFor - {w};
        }
        todo := todo - {w};
      }
    }

    method SetClientAge(client: Client, now: int)
      modifies this`ages
      ensures ages == Aged(old(ages), client, now)
    {
      if client !in ages {
        ages := ages[client := now];
      }
    }

    /** One cycle of the wait-for graph, exactly when it has one. */
    method DetectCycle() returns (cycle: Option<seq<Client>>)
      ensures cycle.Some? ==> IsCycle(waitFor, cycle.value)
      ensures cycle.Some? <==> HasCycle(waitFor)
    {
      var search := new CycleSearch(waitFor);
      cycle := search.Run();
    }

    /** The youngest client of the cycle, the first of them if several are equally young. */
    method SelectVictim(cycle: seq<Client>) returns (victim: Client)
      requires cycle != []
      ensures IsYoungest(ages, cycle, victim)
      ensures exists i :: 0 <= i < |cycle| && cycle[i] == victim && forall j | 0 <= j < i :: AgeOf(ages, cycle[j]) < AgeOf(ages, victim)
    {
      var best, k := 0, 1;
      while k < |cycle|
        invariant best < k <= |cycle|
        invariant forall j | 0 <= j < k :: AgeOf(ages, cycle[j]) <= AgeOf(ages, cycle[best])
        invariant forall j | 0 <= j < best :: AgeOf(ages, cycle[j]) < AgeOf(ages, cycle[best])
      {
        if AgeOf(ages, cycle[k]) > AgeOf(ages, cycle[best]) {
          best := k;
        }
        k := k + 1;
      }
      victim := cycle[best];
    }
  }

  /** Removal of a client, with some vertices still to be visited. */
  ghost function PartlyWithout(graph: map<Client, set<Client>>, c: Client, todo: set<Client>): map<Client, set<Client>> {
    map w | w in graph && w != c && (w in todo || graph[w] - {c} != {}) :: if w in todo then graph[w] else graph[w] - {c}
  }

  lemma SetThenDrop(graph: map<Client, set<Client>>, w: Client, others: set<Client>)
    ensures graph[w := others] - {w} == graph - {w}
  {
  }

  lemma PartlyEnds(graph: map<Client, set<Client>>, c: Client)
    ensures PartlyWithout(graph, c, (graph - {c}).Keys) == graph - {c}
    ensures PartlyWithout(graph, c, {}) == WithoutClient(graph, c)
  {
  }

  lemma PartlyStep(graph: map<Client, set<Client>>, c: Client, todo: set<Client>, w: Client)
    requires w in todo && w in graph && w != c
    ensures var before, after := PartlyWithout(graph, c, todo), PartlyWithout(graph, c, todo - {w});
            && w in before && before[w] == graph[w]
            && after == if graph[w] - {c} == {} then before - {w} else before[w := graph[w] - {c}]
  {
  }

  class LockManagerNode {
    var locks: map<Resource, LockState>
    var clientLocks: map<Client, set<Resource>>
    const detector: DeadlockDetector

    ghost function State(): Table
      reads this, detector
    {
      Table(locks, clientLocks, detector.waitFor, detector.ages)
    }

    constructor ()
      ensures fresh(detector) && State() == EMPTY
    {
      locks, clientLocks := map[], map[];
      detector := new DeadlockDetector();
    }

    /** Lets waiters in from the front, one after the other, as long as the first one fits. */
    method PromoteWaiters(resource: Resource)
      requires resource in locks
      modifies this`locks, this`clientLocks
      ensures locks == old(locks)[resource := Promoted(old(locks)[resource])]
      ensures clientLocks == WithLocks(old(clientLocks), old(locks)[resource].waiters[..Admitted(old(locks)[resource])], resource)
    {
      while locks[resource].waiters != [] && locks[resource].Grants(locks[resource].waiters[0].mode)
        invariant resource in locks && locks == old(locks)[resource := locks[resource]]
        invariant Promoted(locks[resource]) == Promoted(old(locks)[resource])
        invariant WithLocks(clientLocks, locks[resource].waiters[..Admitted(locks[resource])], resource)
               == WithLocks(old(clientLocks), old(locks)[resource].waiters[..Admitted(old(locks)[resource])], resource)
        decreases |locks[resource].waiters|
      {
        var s := locks[resource];
        var w := s.waiters[0];
        AdmitFirst(s, clientLocks, resource);
        clientLocks := clientLocks[w.client := HeldBy(clientLocks, w.client) + {resource}];
        locks := locks[resource := LockState(s.holders[w.client := w.mode], s.waiters[1..])];
      }
      AdmitNobody(locks[resource]);
    }

    method DoAcquire(client: Client, resource: Resource, mode: LockMode, now: int) returns (ok: bool)
      modifies this, detector
      ensures (State(), Granted(ok)) == Acquired(old(State()), client, resource, mode, now)
    {
      if resource !in locks {
        locks := locks[resource := FREE];
      }
      detector.SetClientAge(client, now);
      var s := locks[resource];
      if !s.Held() || (mode == Shared && s.Mode() == Shared) {
        locks := locks[resource := s.(holders := s.holders[client := mode])];
        clientLocks := clientLocks[client := HeldBy(clientLocks, client) + {resource}];
        assert locks == old(locks)[resource := s.(holders := s.holders[client := mode])];
        return true;
      }
      AddWaits(client, s.holders.Keys);
      if !Waits(s.waiters, client) {
        locks := locks[resource := s.(waiters := s.waiters + [Waiter(client, mode)])];
      }
      assert old(locks)[resource := s] == old(locks);
      return false;
    }

    /** An edge to every holder but the client itself. */
    method AddWaits(client: Client, holders: set<Client>)
      modifies detector`waitFor
      ensures detector.waitFor == WithEdges(old(detector.waitFor), client, holders - {client})
    {
      var todo := holders;
      ghost var done: set<Client> := {};
      while todo != {}
        invariant todo <= holders && done == holders - todo
        invariant detector.waitFor == WithEdges(old(detector.waitFor), client, done - {client})
        decreases |todo|
      {
        var h :| h in todo;
        EdgesStep(old(detector.waitFor), client, done, h);
        detector.AddWait(client, h);
        todo := todo - {h};
        done := done + {h};
      }
      assert done == holders;
    }

    method DoRelease(client: Client, resource: Resource) returns (ok: bool)
      modifies this, detector
      ensures (State(), ok) == ReleasedOne(old(State()), client, resource)
    {
      if resource !in locks || client !in locks[resource].holders {
        return false;
      }
      var s := locks[resource];
      locks := locks[resource := s.(holders := s.holders - {client})];
      clientLocks := clientLocks[client := HeldBy(clientLocks, client) - {resource}];
      if !locks[resource].Held() {
        detector.RemoveClient(client);
      }
      ghost var left := s.(holders := s.holders - {client});
      assert locks[resource] == left;
      PromoteWaiters(resource);
      assert locks == old(locks)[resource := Promoted(left)];
      return true;
    }

    /** Visits the client's resources in an order of the program's choosing. */
    method DoReleaseAll(client: Client) returns (count: nat)
      modifies this, detector
      ensures exists order ::
        Enumerates(order, HeldBy(old(clientLocks), client)) && (State(), Count(count)) == ReleasedAll(old(State()), client, order)
    {
      hide WithoutClient, ReleasedOne, HeldBy;
      count := 0;
      var todo := HeldBy(clientLocks, client);
      ghost var order: seq<Resource> := [];
      while todo != {}
        invariant Enumerates(order, HeldBy(old(clientLocks), client) - todo) && todo <= HeldBy(old(clientLocks), client)
        invariant (State(), count) == ReleasedInOrder(old(State()), client, order)
        decreases |todo|
      {
        var r :| r in todo;
        OneMore(old(State()), client, order, r);
        var ok := DoRelease(client, r);
        if ok {
          count := count + 1;
        }
        todo := todo - {r};
        order := order + [r];
      }
      assert HeldBy(old(clientLocks), client) - todo == HeldBy(old(clientLocks), client);
      detector.RemoveClient(client);
    }

    /** What Raft calls for every committed command. */
    method ApplyCommand(command: Command, now: int) returns (reply: Reply)
      modifies this, detector
      ensures exists order :: StepOf(old(State()), command, order, now, State(), reply)
    {
      ghost var order: seq<Resource> := [];
      match command {
        case Acquire(client, resource, mode) =>
          var ok := DoAcquire(client, resource, mode, now);
          reply := Granted(ok);
        case Release(client, resource) =>
          var ok := DoRelease(client, resource);
          reply := Granted(ok);
        case ReleaseAll(client) =>
          var count := DoReleaseAll(client);
          reply := Count(count);
          order :| Enumerates(order, HeldBy(old(clientLocks), client)) && (State(), reply) == ReleasedAll(old(State()), client, order);
        case Abort(client) =>
          var count := DoReleaseAll(client);
          reply := Count(count);
          order :| Enumerates(order, HeldBy(old(clientLocks), client)) && (State(), reply) == ReleasedAll(old(State()), client, order);
        case Unknown =>
          reply := Nothing;
      }
      assert StepOf(old(State()), command, order, now, State(), reply);
    }

    /** What the leader submits when it looks for a deadlock: to abort the youngest client of a cycle. */
    method DetectionRound(isLeader: bool) returns (submitted: Option<Command>)
      ensures submitted.Some? <==> isLeader && HasCycle(detector.waitFor)
      ensures submitted.Some? ==> exists cycle, victim ::
        IsCycle(detector.waitFor, cycle) && IsYoungest(detector.ages, cycle, victim) && submitted.value == Abort(victim)
    {
      if !isLeader {
        return None;
      }
      var cycle := detector.DetectCycle();
      if cycle.None? {
        return None;
      }
      var victim := detector.SelectVictim(cycle.value);
      return Some(Abort(victim));
    }
  }

  lemma EdgesStep(graph: map<Client, set<Client>>, c: Client, done: set<Client>, h: Client)
    ensures WithEdges(WithEdges(graph, c, done - {c}), c, {h} - {c}) == WithEdges(graph, c, done + {h} - {c})
  {
    if h == c {
      assert {h} - {c} == {};
      assert done + {h} - {c} == done - {c};
    } else {
      assert {h} - {c} == {h};
      assert done + {h} - {c} == (done - {c}) + {h};
      var with := WithEdges(graph, c, done - {c});
      assert WaitsFor(with, c) + {h} == WaitsFor(graph, c) + ((done - {c}) + {h});
      assert graph[c := WaitsFor(graph, c) + (done - {c})][c := WaitsFor(with, c) + {h}] == graph[c := WaitsFor(with, c) + {h}];
    }
  }

  /** The first waiter is admitted: the loop's step is the closed form's first element. */
  lemma AdmitFirst(s: LockState, index: map<Client, set<Resource>>, r: Resource)
    requires s.waiters != [] && s.Grants(s.waiters[0].mode)
    ensures var w := s.waiters[0];
            var s1 := LockState(s.holders[w.client := w.mode], s.waiters[1..]);
            && Promoted(s1) == Promoted(s)
            && WithLocks(index[w.client := HeldBy(index, w.client) + {r}], s1.waiters[..Admitted(s1)], r)
            == WithLocks(index, s.waiters[..Admitted(s)], r)
  {
    var w := s.waiters[0];
    var s1 := LockState(s.holders[w.client := w.mode], s.waiters[1..]);
    AdmittedStep(s);
    assert s.waiters[..Admitted(s)] == [w] + s1.waiters[..Admitted(s1)];
    assert s.waiters[..Admitted(s)][1..] == s1.waiters[..Admitted(s1)];
    assert s.waiters[Admitted(s)..] == s1.waiters[Admitted(s1)..];
  }

  lemma AdmittedStep(s: LockState)
    requires s.waiters != [] && s.Grants(s.waiters[0].mode)
    ensures Admitted(s) == 1 + Admitted(LockState(s.holders[s.waiters[0].client := s.waiters[0].mode], s.waiters[1..]))
  {
    var w := s.waiters[0];
    var s1 := LockState(s.holders[w.client := w.mode], s.waiters[1..]);
    assert s1.holders[w.client] == w.mode;
    if w.mode == Shared {
      assert s1.Mode() == Shared;
    }
  }

  lemma AdmitNobody(s: LockState)
    requires s.waiters != [] ==> !s.Grants(s.waiters[0].mode)
    ensures Admitted(s) == 0 && Promoted(s) == s && s.waiters[..0] == []
  {
  }

  lemma OneMore(t: Table, c: Client, order: seq<Resource>, r: Resource)
    ensures var (t1, n) := ReleasedInOrder(t, c, order);
            var (t2, ok) := ReleasedOne(t1, c, r);
            ReleasedInOrder(t, c, order + [r]) == (t2, if ok then n + 1 else n)
    decreases |order|
  {
    if order == [] {
      assert [r][1..] == [] && order + [r] == [r];
      assert ReleasedInOrder(ReleasedOne(t, c, r).0, c, []) == (ReleasedOne(t, c, r).0, 0);
    } else {
      assert (order + [r])[1..] == order[1..] + [r];
      OneMore(ReleasedOne(t, c, order[0]).0, c, order[1..], r);
    }
  }
}
