/** What clients can see when operations overlap: runs from empty caches, on any two nodes of any cluster. */
module CacheSurprises {
  import opened Options
  import opened Quorums
  import opened CachePolicy
  import opened CacheStates
  import opened CacheTheorems
  import opened CacheMessages
  import opened CacheFreshness
  import opened CacheOperations

  ghost predicate Starts(s: Net) {
    Quiet(s) && InitialCaches(CachesOf(s)) && s.last == map[]
  }

  /** Nothing is stale at the start, and no answer is under way. */
  lemma StartsFresh(s: Net, k: Key)
    requires Starts(s)
    ensures Sane(s) && CoherentAt(s, k) && CurrentAt(s, k) && FreshAt(s, k)
  {
    InitialHolds(CachesOf(s));
    forall n | n in s.members ensures NodeInv(s.members[n].cache) && s.members[n].cache.lines == map[] {
      assert CachesOf(s)[n] == s.members[n].cache;
    }
    assert Column(CachesOf(s), k) == map[];
  }

  ghost predicate Settled(s: Net) {
    Quiet(s) && CachesInv(CachesOf(s), s.last)
  }

  lemma CopyIsLast(s: Net, n: NodeId, k: Key)
    requires CachesInv(CachesOf(s), s.last) && n in s.members && HasCopy(s.members[n].cache, k)
    ensures IsLast(s.last, k, s.members[n].cache.lines[k].value)
  {
    assert n in Column(CachesOf(s), k);
    ColumnOf(CachesOf(s), s.last, k);
  }

  /** An operation that is left alone. */
  lemma LeftAlone(s: Net, op: Op) returns (steps: seq<Step>, s': Net)
    requires Settled(s) && OpEnabled(CachesOf(s), op)
    ensures Leads(s, steps, s') && Settled(s') && s'.last == LastPut(s.last, op) && s'.members.Keys == s.members.Keys
    ensures CachesOf(s') == Done(CachesOf(s), op)
  {
    hide Leads, Quiet, CachesInv, Done, OpEnabled, LastPut;
    OpKeeps(CachesOf(s), s.last, op);
    steps, s' := OperationIsRun(s, op);
    assert s'.members.Keys == CachesOf(s').Keys;
  }

  /** After a put that is left alone, its node alone has the key. */
  lemma FirstPut(s: Net, m: NodeId, k: Key, v: Value) returns (steps: seq<Step>, s': Net)
    requires Starts(s) && m in s.members
    ensures Leads(s, steps, s') && Settled(s') && s'.last == map[k := v] && s'.members.Keys == s.members.Keys
    ensures forall n | n in s.members :: HasCopy(s'.members[n].cache, k) <==> n == m
  {
    hide Leads, Quiet, CachesInv, PutOn;
    InitialHolds(CachesOf(s));
    PutKeeps(CachesOf(s), map[], m, k, v);
    steps, s' := LeftAlone(s, Put(m, k, v));
    forall n | n in s.members ensures HasCopy(s'.members[n].cache, k) <==> n == m {
      assert CachesOf(s')[n] == s'.members[n].cache;
    }
  }

  /** After a put on one node and a read on another, each left alone, both have the value. */
  lemma PutThenRead(s: Net, n: NodeId, m: NodeId, k: Key, v: Value) returns (steps: seq<Step>, s': Net)
    requires Starts(s) && n in s.members && m in s.members && n != m
    ensures Leads(s, steps, s') && Settled(s') && s'.last == map[k := v] && s'.members.Keys == s.members.Keys
    ensures HasCopy(s'.members[n].cache, k)
  {
    hide Leads, Quiet, CachesInv, GetOn;
    var s1, rest;
    steps, s1 := FirstPut(s, m, k, v);
    assert CachesOf(s1)[m] == s1.members[m].cache;
    GetKeeps(CachesOf(s1), s1.last, n, k, Some(m));
    rest, s' := LeftAlone(s1, Get(n, k, Some(m)));
    Joined(s, steps, s1, rest, s');
    steps := steps + rest;
    assert CachesOf(s')[n] == s'.members[n].cache;
  }

  lemma HitReturns(s: Net, n: NodeId, k: Key)
    requires CanStep(s, Begin(n, k)) && HasCopy(s.members[n].cache, k)
    ensures Returned(s, Begin(n, k), k) == Some(s.members[n].cache.lines[k].value)
  {
    hide Accessed;
  }

  /**
   * A put returns before anybody has handled its invalidation: put, read elsewhere, put again,
   * and the next read over there is a hit that returns the first value.
   */
  lemma PutIsNotSeen(s: Net, n: NodeId, m: NodeId, k: Key, before: Value, after: Value) returns (steps: seq<Step>, s': Net)
    requires Starts(s) && n in s.members && m in s.members && n != m && before != after
    ensures Leads(s, steps, s') && CanStep(s', Begin(n, k))
    ensures s'.last == map[k := after] && Returned(s', Begin(n, k), k) == Some(before)
  {
    hide Leads, CachesInv, Written, Returned;
    var s1;
    steps, s1 := PutThenRead(s, n, m, k, before);
    CopyIsLast(s1, n, k);
    steps := Then(s, steps, s1, Write(m, k, after));
    s' := Stepped(s1, Write(m, k, after));
    assert s'.members[n] == s1.members[n];
    HitReturns(s', n, k);
  }

  /** A node waits for an answer that has been overtaken: it is first in its queue, the invalidation second. */
  ghost predicate Overtaken(s: Net, n: NodeId, m: NodeId, k: Key, r: Response) {
    && n in s.members && n in s.queues && s.queues[n] == [Reply(m, n, k, r), Invalidate(m, n, k)]
    && NodeInv(s.members[n].cache) && k !in s.members[n].cache.lines
    && k in s.members[n].pending && s.members[n].pending[k].key == k
  }

  lemma AskFor(s: Net, n: NodeId, m: NodeId, k: Key) returns (steps: seq<Step>, s': Net)
    requires Quiet(s) && n in s.members && m in s.members && n != m
    requires HasCopy(s.members[m].cache, k) && !HasCopy(s.members[n].cache, k)
    ensures Leads(s, steps, s') && s'.queues.Keys == s'.members.Keys == s.members.Keys && s'.last == s.last
    ensures s'.queues[n] == [Reply(m, n, k, Answered(s.members[m].cache, k).1.value)]
    ensures s'.members[n] == Began(s.members[n], k).0
  {
    hide Leads, HasCopy, Began;
    MissOne(s, n, k);
    var s1 := Stepped(s, Begin(n, k));
    OneStep(s, Begin(n, k));
    FetchOne(s1, n, k, s.members.Keys - {n}, [], m);
    steps := Then(s, [Begin(n, k)], s1, Handle(m));
    s' := Stepped(s1, Handle(m));
  }

  lemma Overtake(s: Net, n: NodeId, m: NodeId, k: Key, before: Value, after: Value)
    returns (steps: seq<Step>, s': Net, r: Response)
    requires Starts(s) && n in s.members && m in s.members && n != m
    ensures Leads(s, steps, s') && Overtaken(s', n, m, k, r) && r.value == before && s'.last == map[k := after]
  {
    hide Leads, Settled, HasCopy, Starts, Overtaken;
    var s1, rest;
    steps, s1 := FirstPut(s, m, k, before);
    SettledCopy(s1, m, k);
    rest, s', r := OvertakeFetch(s1, n, m, k, after);
    Joined(s, steps, s1, rest, s');
    steps := steps + rest;
    assert s1.last[k := after] == map[k := after];
  }

  lemma SettledCopy(s: Net, n: NodeId, k: Key)
    requires Settled(s) && n in s.members
    ensures HasCopy(s.members[n].cache, k) ==> IsLast(s.last, k, s.members[n].cache.lines[k].value)
    ensures !HasCopy(s.members[n].cache, k) ==> k !in s.members[n].cache.lines
    ensures NodeInv(s.members[n].cache)
  {
    hide Quiet, NodeInv, LinesInv;
    assert CachesOf(s)[n] == s.members[n].cache;
    LineIsCopy(CachesOf(s), s.last, n, k);
    NoLine(CachesOf(s), n, k);
    if HasCopy(s.members[n].cache, k) {
      CopyIsLast(s, n, k);
    }
  }

  lemma OvertakeFetch(s: Net, n: NodeId, m: NodeId, k: Key, after: Value)
    returns (steps: seq<Step>, s': Net, r: Response)
    requires Settled(s) && n in s.members && m in s.members && n != m
    requires HasCopy(s.members[m].cache, k) && !HasCopy(s.members[n].cache, k)
    ensures Leads(s, steps, s') && Overtaken(s', n, m, k, r) && s'.last == s.last[k := after]
    ensures r.value == s.members[m].cache.lines[k].value
  {
    hide Leads, NodeInv, CachesInv, Stepped;
    SettledCopy(s, n, k);
    r := Answered(s.members[m].cache, k).1.value;
    var s1;
    steps, s1 := AskFor(s, n, m, k);
    s' := Stepped(s1, Write(m, k, after));
    WriteElsewhere(s1, n, m, k, after);
    steps := Then(s, steps, s1, Write(m, k, after));
  }

  lemma WriteElsewhere(s: Net, n: NodeId, m: NodeId, k: Key, v: Value)
    requires CanStep(s, Write(m, k, v)) && n in s.members && n in s.queues && n != m
    ensures var s' := Stepped(s, Write(m, k, v));
            && s'.members[n] == s.members[n] && s'.queues[n] == s.queues[n] + [Invalidate(m, n, k)]
            && s'.last == s.last[k := v] && s'.members.Keys == s.members.Keys && s'.queues.Keys == s.queues.Keys
  {
    hide Written;
  }

  /**
   * An answer that a put overtakes is cached all the same: nothing is under way for the node
   * any more, and it goes on reading the old value.
   */
  lemma OvertakenAnswerStays(s: Net, n: NodeId, m: NodeId, k: Key, before: Value, after: Value) returns (steps: seq<Step>, s': Net)
    requires Starts(s) && n in s.members && m in s.members && n != m && before != after
    ensures Leads(s, steps, s') && CanStep(s', Begin(n, k)) && s'.queues[n] == [] && !CurrentAt(s', k)
    ensures s'.last == map[k := after] && Returned(s', Begin(n, k), k) == Some(before)
  {
    hide Leads, NodeInv, Filled, Returned, Overtaken, Stepped, CurrentAt;
    var s1, r;
    steps, s1, r := Overtake(s, n, m, k, before, after);
    HandleBoth(s1, n, m, k, r);
    var f := s1.members[n].pending[k];
    var s2 := Stepped(s1, Handle(n));
    var s3 := Stepped(s2, Handle(n));
    steps := Then(s, steps, s1, Handle(n));
    steps := Then(s, steps, s2, Handle(n));
    steps := Then(s, steps, s3, End(n, f));
    s' := Stepped(s3, End(n, f));
    EndStale(s3, n, k, f, r);
    HitReturns(s', n, k);
  }

  /** The answer resolves the read, and the invalidation finds nothing to remove. */
  lemma HandleBoth(s: Net, n: NodeId, m: NodeId, k: Key, r: Response)
    requires Overtaken(s, n, m, k, r)
    ensures n in s.members && k in s.members[n].pending
    ensures CanStep(s, Handle(n)) && CanStep(Stepped(s, Handle(n)), Handle(n))
    ensures var s', f := Stepped(Stepped(s, Handle(n)), Handle(n)), s.members[n].pending[k];
            && n in s'.members && n in s'.queues && s'.queues[n] == [] && s'.last == s.last && f.key == k
            && f in s'.members[n].results && s'.members[n].results[f] == r && NodeInv(s'.members[n].cache)
  {
    hide NodeInv, Removed;
    assert Stepped(s, Handle(n)).queues[n] == [Invalidate(m, n, k)];
  }

  /** An answer that is not current any more, cached with nothing else under way. */
  lemma EndStale(s: Net, n: NodeId, k: Key, f: Future, r: Response)
    requires n in s.members && n in s.queues && s.queues[n] == [] && f.key == k
    requires f in s.members[n].results && s.members[n].results[f] == r && NodeInv(s.members[n].cache) && !IsLast(s.last, k, r.value)
    ensures CanStep(s, End(n, f))
    ensures var s' := Stepped(s, End(n, f));
            && CanStep(s', Begin(n, k)) && s'.last == s.last && s'.queues[n] == [] && !CurrentAt(s', k)
            && HasCopy(s'.members[n].cache, k) && s'.members[n].cache.lines[k].value == r.value
  {
    hide NodeInv, Filled;
    FilledKeeps(s.members[n].cache, k, r);
    var s' := Stepped(s, End(n, f));
    assert s'.queues[n] == [];
    assert !CurrentOn(s'.last, s'.members[n].cache, s'.queues[n], k);
  }

  lemma WriteHere(s: Net, m: NodeId, k: Key, v: Value)
    requires CanStep(s, Write(m, k, v))
    ensures Stepped(s, Write(m, k, v)).queues[m] == s.queues[m]
  {
    hide Written;
  }

  lemma HandleInvalidation(s: Net, n: NodeId, m: NodeId, k: Key)
    requires n in s.members && n in s.queues && s.queues[n] == [Invalidate(m, n, k)]
    ensures CanStep(s, Handle(n))
    ensures var s' := Stepped(s, Handle(n));
            && s'.queues == s.queues[n := []] && s'.last == s.last && s'.members.Keys == s.members.Keys
            && k !in s'.members[n].cache.lines && forall x | x in s.members && x != n :: s'.members[x] == s.members[x]
  {
    hide Removed;
    QueuesAre(s, Handle(n), s.queues[n := []]);
  }

  /** Two puts have crossed: each node has the other's invalidation, and nobody else has a line. */
  ghost predicate Crossed(s: Net, n: NodeId, m: NodeId, k: Key) {
    && n in s.members && m in s.members && n != m && s.queues.Keys == s.members.Keys
    && s.queues[n] == [Invalidate(m, n, k)] && s.queues[m] == [Invalidate(n, m, k)]
    && forall x | x in s.members && x != n && x != m :: k !in s.members[x].cache.lines
  }

  lemma CrossWrites(s: Net, n: NodeId, m: NodeId, k: Key, v: Value, w: Value)
    requires Starts(s) && n in s.members && m in s.members && n != m
    ensures CanStep(s, Write(m, k, v)) && CanStep(Stepped(s, Write(m, k, v)), Write(n, k, w))
    ensures var s' := Stepped(Stepped(s, Write(m, k, v)), Write(n, k, w)); Crossed(s', n, m, k) && s'.last == map[k := w]
  {
    hide Stepped, Starts;
    Nothing(s, k);
    var s1 := Stepped(s, Write(m, k, v));
    WriteElsewhere(s, n, m, k, v);
    WriteHere(s, m, k, v);
    WriteElsewhere(s1, m, n, k, w);
    WriteHere(s1, n, k, w);
    forall x | x in s.members && x != n && x != m ensures k !in Stepped(s1, Write(n, k, w)).members[x].cache.lines {
      WriteElsewhere(s, x, m, k, v);
      WriteElsewhere(s1, x, n, k, w);
    }
  }

  lemma CrossedAreGone(s: Net, n: NodeId, m: NodeId, k: Key)
    requires Crossed(s, n, m, k)
    ensures CanStep(s, Handle(n)) && CanStep(Stepped(s, Handle(n)), Handle(m))
    ensures var s' := Stepped(Stepped(s, Handle(n)), Handle(m));
            s'.last == s.last && forall x | x in s'.members :: k !in s'.members[x].cache.lines
  {
    hide Stepped;
    HandleInvalidation(s, n, m, k);
    HandleInvalidation(Stepped(s, Handle(n)), m, n, k);
  }

  /** Two puts that cross invalidate each other, and neither value is left anywhere. */
  lemma CrossedPutsAreLost(s: Net, n: NodeId, m: NodeId, k: Key, v: Value, w: Value) returns (steps: seq<Step>, s': Net)
    requires Starts(s) && n in s.members && m in s.members && n != m
    ensures steps == [Write(m, k, v), Write(n, k, w), Handle(n), Handle(m)]
    ensures Leads(s, steps, s') && s'.last == map[k := w]
    ensures forall x | x in s'.members :: k !in s'.members[x].cache.lines
  {
    hide Leads, Stepped, CanStep, Crossed, Starts;
    CrossWrites(s, n, m, k, v, w);
    var s1 := Stepped(s, Write(m, k, v));
    var s2 := Stepped(s1, Write(n, k, w));
    CrossedAreGone(s2, n, m, k);
    var s3 := Stepped(s2, Handle(n));
    s' := Stepped(s3, Handle(m));
    OneStep(s, Write(m, k, v));
    steps := Then(s, [Write(m, k, v)], s1, Write(n, k, w));
    steps := Then(s, steps, s2, Handle(n));
    steps := Then(s, steps, s3, Handle(m));
  }

  lemma Nothing(s: Net, k: Key)
    requires Starts(s)
    ensures s.queues.Keys == s.members.Keys && s.last == map[]
    ensures forall n | n in s.members :: s.queues[n] == [] && k !in s.members[n].cache.lines
  {
    forall n | n in s.members ensures k !in s.members[n].cache.lines {
      assert CachesOf(s)[n] == s.members[n].cache;
    }
  }
}
