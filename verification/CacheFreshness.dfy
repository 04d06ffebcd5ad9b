/**
 * What a reader may rely on while invalidations are on their way: when every stale copy
 * is one whose node has yet to handle an invalidation, and when there is none at all.
 */
module CacheFreshness {
  import opened Options
  import opened Quorums
  import opened CachePolicy
  import opened CacheStates
  import opened CacheTheorems
  import opened CacheMessages

  // ---------- stale copies ----------

  predicate IsLast(last: map<Key, Value>, k: Key, v: Value) {
    k in last && v == last[k]
  }

  /** An invalidation of the key waits in the queue. */
  predicate Told(q: seq<Packet>, k: Key) {
    exists i :: 0 <= i < |q| && q[i].Invalidate? && q[i].key == k
  }

  ghost predicate CurrentOn(last: map<Key, Value>, cache: CacheState, q: seq<Packet>, k: Key) {
    k in cache.lines ==> IsLast(last, k, cache.lines[k].value) || Told(q, k)
  }

  /** Every copy has the last value put, or an invalidation of it waits in its node's queue. */
  ghost predicate CurrentAt(s: Net, k: Key) {
    forall n | n in s.members && n in s.queues :: CurrentOn(s.last, s.members[n].cache, s.queues[n], k)
  }

  /** An answer that is cached is still current, or about to be invalidated; no invalidation that is needed gets lost. */
  ghost predicate Careful(s: Net, step: Step, k: Key)
    requires CanStep(s, step)
  {
    var n := step.node;
    match step
    case End(_, f) => f.key == k && f in s.members[n].results ==> IsLast(s.last, k, s.members[n].results[f].value) || Told(s.queues[n], k)
    case Lose(_) => CurrentOn(s.last, s.members[n].cache, s.queues[n][1..], k)
    case _ => true
  }

  predicate Fills(s: Net, step: Step, k: Key)
    requires CanStep(s, step)
  {
    step.End? && step.read.key == k && step.read in s.members[step.node].results
  }

  /** Where the line a node has after a step comes from. */
  lemma LineComesFrom(s: Net, step: Step, k: Key)
    requires Sane(s) && CanStep(s, step)
    ensures var before, after := s.members[step.node].cache.lines, MemberAfter(s, step).cache.lines;
            && (step.Write? && step.key == k ==> k in after && after[k].value == step.value)
            && (step.Erase? && step.key == k ==> k !in after)
            && (Fills(s, step, k) ==> k in after && after[k] == LineOf(s.members[step.node].results[step.read]))
            && (step.Handle? && s.queues[step.node][0].Invalidate? && s.queues[step.node][0].key == k ==> k !in after)
            && (step.Lose? ==> after == before)
            && (k in after && !(step.Write? && step.key == k) && !Fills(s, step, k)
                ==> k in before && (after[k] == before[k] || after[k] == before[k].(state := Shared)))
  {
    hide NodeInv, Filled, Written, Removed, Began;
    var m := s.members[step.node];
    MemberKeeps(s, step);
    assert k != KeyOf(s, step) && k in MemberAfter(s, step).cache.lines ==> k in MemberAfter(s, step).cache.lines - {KeyOf(s, step)};
    match step {
      case Begin(_, j) => BeganKeeps(m, j);
      case End(_, f) => if f in m.results { FilledKeeps(m.cache, f.key, m.results[f]); }
      case Write(_, j, v) => WrittenIs(m.cache, j, v);
      case Erase(_, _) =>
      case Handle(_) =>
      case Lose(_) =>
    }
  }

  lemma ToldMore(q: seq<Packet>, more: seq<Packet>, k: Key)
    requires Told(q, k)
    ensures Told(q + more, k)
  {
    var i :| 0 <= i < |q| && q[i].Invalidate? && q[i].key == k;
    assert (q + more)[i] == q[i];
  }

  lemma ToldRest(q: seq<Packet>, k: Key)
    requires q != []
    ensures Told(q, k) <==> Told(q[1..], k) || (q[0].Invalidate? && q[0].key == k)
  {
    if Told(q, k) && !(q[0].Invalidate? && q[0].key == k) {
      var i :| 0 <= i < |q| && q[i].Invalidate? && q[i].key == k;
      assert q[1..][i - 1] == q[i];
    }
    if Told(q[1..], k) {
      var i :| 0 <= i < |q[1..]| && q[1..][i].Invalidate? && q[1..][i].key == k;
      assert q[i + 1] == q[1..][i];
    }
  }

  predicate WritesTo(step: Step, k: Key) {
    (step.Write? || step.Erase?) && step.key == k
  }

  lemma OthersCurrent(s: Net, step: Step, k: Key, m: NodeId)
    requires CanStep(s, step) && m in s.members && m in s.queues && m != step.node
    requires CurrentOn(s.last, s.members[m].cache, s.queues[m], k)
    ensures CurrentOn(Stepped(s, step).last, Stepped(s, step).members[m].cache, Stepped(s, step).queues[m], k)
  {
    hide MemberAfter, Handled;
    var more := Toward(s, step, m);
    if WritesTo(step, k) {
      assert (s.queues[m] + more)[|s.queues[m]|] == Invalidate(step.node, m, k);
    } else if Told(s.queues[m], k) {
      ToldMore(s.queues[m], more, k);
    }
  }

  lemma OwnCurrent(s: Net, step: Step, k: Key)
    requires Sane(s) && CanStep(s, step) && CurrentOn(s.last, s.members[step.node].cache, s.queues[step.node], k)
    requires forall p | p in Toward(s, step, step.node) :: !p.Invalidate?
    ensures var s' := Stepped(s, step);
            CurrentOn(s'.last, s'.members[step.node].cache, s'.queues[step.node], k) <==> Careful(s, step, k)
  {
    hide NodeInv, MemberAfter, Toward, Told;
    var n := step.node;
    LineComesFrom(s, step, k);
    ToldAfter(Waiting(s, step, n), Toward(s, step, n), k);
    if step.Handle? || step.Lose? {
      ToldRest(s.queues[n], k);
    }
  }

  lemma ToldAfter(q: seq<Packet>, more: seq<Packet>, k: Key)
    requires forall p | p in more :: !p.Invalidate?
    ensures Told(q + more, k) <==> Told(q, k)
  {
    if Told(q, k) {
      ToldMore(q, more, k);
    }
  }

  lemma NoneToItself(s: Net, step: Step)
    requires CanStep(s, step)
    ensures forall p | p in Toward(s, step, step.node) :: !p.Invalidate?
  {
  }

  /** One step from current copies leaves them current if and only if it is careful. */
  lemma StepIsCurrent(s: Net, step: Step, k: Key)
    requires Sane(s) && CanStep(s, step) && CurrentAt(s, k)
    ensures Sane(Stepped(s, step)) && (CurrentAt(Stepped(s, step), k) <==> Careful(s, step, k))
  {
    hide NodeInv, CurrentOn, Careful, MemberAfter, Toward, Waiting;
    var s' := Stepped(s, step);
    SteppedSane(s, step);
    NoneToItself(s, step);
    OwnCurrent(s, step, k);
    forall m | m in s'.members && m in s'.queues && m != step.node
      ensures CurrentOn(s'.last, s'.members[m].cache, s'.queues[m], k)
    {
      OthersCurrent(s, step, k, m);
    }
    assert step.node in s'.members && step.node in s'.queues;
  }

  ghost predicate StaysCurrent(s: Net, steps: seq<Step>, k: Key)
    requires Runs(s, steps)
    decreases |steps|
  {
    CurrentAt(s, k) && (steps != [] ==> StaysCurrent(Stepped(s, steps[0]), steps[1..], k))
  }

  ghost predicate AllCareful(s: Net, steps: seq<Step>, k: Key)
    requires Runs(s, steps)
    decreases |steps|
  {
    steps != [] ==> Careful(s, steps[0], k) && AllCareful(Stepped(s, steps[0]), steps[1..], k)
  }

  /**
   * A copy is stale only while its invalidation waits, all through a run, if and only if no
   * answer is cached after it has been overtaken and no invalidation of a stale copy is lost.
   */
  lemma {:induction false} CurrentIffCareful(s: Net, steps: seq<Step>, k: Key)
    requires Sane(s) && CurrentAt(s, k) && Runs(s, steps)
    ensures StaysCurrent(s, steps, k) <==> AllCareful(s, steps, k)
    decreases |steps|
  {
    hide Sane, CurrentAt, Stepped, CanStep, Careful;
    if steps != [] {
      StepIsCurrent(s, steps[0], k);
      if CurrentAt(Stepped(s, steps[0]), k) {
        CurrentIffCareful(Stepped(s, steps[0]), steps[1..], k);
      }
    }
  }

  // ---------- what reads return ----------

  /** What a read of the key returns to its caller in this step. */
  function Returned(s: Net, step: Step, k: Key): Option<Value>
    requires CanStep(s, step)
  {
    match step
    case Begin(n, j) => if j == k then Began(s.members[n], k).1 else None
    case End(n, f) => if f.key == k then Ended(s.members[n], f).1 else None
    case _ => None
  }

  ghost predicate ReadsLast(s: Net, step: Step, k: Key)
    requires CanStep(s, step)
  {
    Returned(s, step, k).Some? ==> IsLast(s.last, k, Returned(s, step, k).value)
  }

  ghost predicate AllReadLast(s: Net, steps: seq<Step>, k: Key)
    requires Runs(s, steps)
    decreases |steps|
  {
    steps != [] ==> ReadsLast(s, steps[0], k) && AllReadLast(Stepped(s, steps[0]), steps[1..], k)
  }

  lemma LineAt(s: Net, n: NodeId, k: Key)
    requires CoherentAt(s, k) && n in s.members && k in s.members[n].cache.lines
    ensures LineInv(s.last, k, s.members[n].cache.lines[k])
  {
    assert n in Column(CachesOf(s), k);
    assert Column(CachesOf(s), k)[n] == s.members[n].cache.lines[k];
  }

  lemma CoherentReadIsLast(s: Net, step: Step, k: Key)
    requires CanStep(s, step) && CoherentAt(s, k) && Timely(s, step, k)
    ensures ReadsLast(s, step, k)
  {
    hide CoherentAt, Accessed, Filled;
    if step.Begin? && step.key == k && HasCopy(s.members[step.node].cache, k) {
      LineAt(s, step.node, k);
    }
  }

  /** While the copies of a key stay coherent, every read of it returns the last value put. */
  lemma {:induction false} CoherentReadsAreLast(s: Net, steps: seq<Step>, k: Key)
    requires Sane(s) && Runs(s, steps) && StaysCoherent(s, steps, k)
    ensures AllReadLast(s, steps, k)
    decreases |steps|
  {
    hide Sane, CoherentAt, Stepped, CanStep, Timely, ReadsLast;
    if steps != [] {
      CoherentIffTimely(s, steps, k);
      CoherentReadIsLast(s, steps[0], k);
      SteppedSane(s, steps[0]);
      CoherentReadsAreLast(Stepped(s, steps[0]), steps[1..], k);
    }
  }

  /** As long as copies are current, a hit is stale only where an invalidation still waits. */
  lemma HitIsCurrent(s: Net, n: NodeId, k: Key)
    requires n in s.members && n in s.queues && CurrentAt(s, k) && !Told(s.queues[n], k)
    ensures ReadsLast(s, Begin(n, k), k)
  {
    hide Told;
    assert CurrentOn(s.last, s.members[n].cache, s.queues[n], k);
  }

  // ---------- answers under way ----------

  ghost predicate InQueue(q: seq<Packet>, k: Key, r: Response) {
    exists i :: 0 <= i < |q| && q[i].Reply? && q[i].key == k && q[i].response == r
  }

  ghost predicate InResults(m: Member, k: Key, r: Response) {
    exists f :: f in m.results && f.key == k && m.results[f] == r
  }

  ghost predicate UnderWay(s: Net, n: NodeId, k: Key, r: Response) {
    (n in s.queues && InQueue(s.queues[n], k, r)) || (n in s.members && InResults(s.members[n], k, r))
  }

  /** The answer is what every copy says. */
  ghost predicate Agreed(c: Caches, last: map<Key, Value>, k: Key, r: Response) {
    && r.shared && IsLast(last, k, r.value)
    && forall m | m in c && k in c[m].lines :: c[m].lines[k].state == Shared && c[m].lines[k].version == r.version
  }

  /** The copies are coherent, and so are the answers on their way. */
  ghost predicate FreshAt(s: Net, k: Key) {
    && CoherentAt(s, k)
    && (forall n, r | UnderWay(s, n, k, r) :: Agreed(CachesOf(s), s.last, k, r))
    && (forall n, r, n', r' | UnderWay(s, n, k, r) && UnderWay(s, n', k, r') :: r == r')
  }

  /** Nobody else has a line of the key, and no answer about it is under way. */
  ghost predicate Free(s: Net, n: NodeId, k: Key) {
    Alone(CachesOf(s), n, k) && forall m, r :: !UnderWay(s, m, k, r)
  }

  /** The answer that the step gives, if it gives one about the key. */
  ghost predicate Gives(s: Net, step: Step, k: Key, r: Response)
    requires CanStep(s, step)
  {
    && step.Handle? && s.queues[step.node][0].Fetch? && s.queues[step.node][0].key == k
    && Answered(s.members[step.node].cache, k).1 == Some(r)
  }

  lemma QueueSplit(q: seq<Packet>, more: seq<Packet>, k: Key, r: Response)
    requires InQueue(q + more, k, r)
    ensures InQueue(q, k, r) || InQueue(more, k, r)
  {
    var i :| 0 <= i < |q + more| && (q + more)[i].Reply? && (q + more)[i].key == k && (q + more)[i].response == r;
    if i < |q| {
      assert q[i] == (q + more)[i];
    } else {
      assert more[i - |q|] == (q + more)[i];
    }
  }

  lemma QueueRest(q: seq<Packet>, k: Key, r: Response)
    requires q != [] && InQueue(q[1..], k, r)
    ensures InQueue(q, k, r)
  {
    var i :| 0 <= i < |q[1..]| && q[1..][i].Reply? && q[1..][i].key == k && q[1..][i].response == r;
    assert q[i + 1] == q[1..][i];
  }

  lemma OldInQueue(s: Net, step: Step, n: NodeId, k: Key, r: Response)
    requires CanStep(s, step) && n in s.queues && InQueue(Stepped(s, step).queues[n], k, r)
    ensures InQueue(s.queues[n], k, r) || Gives(s, step, k, r)
  {
    hide Answered, MemberAfter;
    QueueSplit(Waiting(s, step, n), Toward(s, step, n), k, r);
    if InQueue(Waiting(s, step, n), k, r) && n == step.node && (step.Handle? || step.Lose?) {
      QueueRest(s.queues[n], k, r);
    }
  }

  lemma OldInResults(s: Net, step: Step, n: NodeId, k: Key, r: Response)
    requires CanStep(s, step) && n in s.members && InResults(Stepped(s, step).members[n], k, r)
    requires PendingInv(s.members[n])
    ensures UnderWay(s, n, k, r)
  {
    hide Answered, Removed, Filled, Written, Hit, Toward, Waiting;
    var m := Stepped(s, step).members[n];
    var f :| f in m.results && f.key == k && m.results[f] == r;
    if !(f in s.members[n].results && s.members[n].results[f] == r) {
      assert s.queues[n][0].Reply? && s.queues[n][0].response == r && s.members[n].pending[s.queues[n][0].key] == f;
    }
  }

  /** An answer under way after a step was so before, or the step gives it. */
  lemma WhereFrom(s: Net, step: Step, n: NodeId, k: Key, r: Response)
    requires Sane(s) && CanStep(s, step) && UnderWay(Stepped(s, step), n, k, r)
    ensures UnderWay(s, n, k, r) || Gives(s, step, k, r)
  {
    hide NodeInv, PendingInv, Stepped, InQueue, InResults, Gives;
    SteppedSane(s, step);
    SameNodes(s, step);
    if n in s.queues && InQueue(Stepped(s, step).queues[n], k, r) {
      OldInQueue(s, step, n, k, r);
    } else {
      OldInResults(s, step, n, k, r);
    }
  }

  lemma SameNodes(s: Net, step: Step)
    requires CanStep(s, step)
    ensures Stepped(s, step).members.Keys == s.members.Keys && Stepped(s, step).queues.Keys == s.queues.Keys
  {
    hide MemberAfter, Waiting, Toward;
  }

  /** A step that does not write the key keeps what an answer says, if it caches no other answer. */
  lemma AgreedKept(s: Net, step: Step, k: Key, r: Response)
    requires Sane(s) && CanStep(s, step) && !WritesTo(step, k) && Agreed(CachesOf(s), s.last, k, r)
    requires Fills(s, step, k) ==> s.members[step.node].results[step.read] == r
    ensures Agreed(CachesOf(Stepped(s, step)), Stepped(s, step).last, k, r)
  {
    hide Sane, MemberAfter, Waiting, Toward;
    SteppedSane(s, step);
    LineComesFrom(s, step, k);
    var n, c, c' := step.node, CachesOf(s), CachesOf(Stepped(s, step));
    assert k in c[n].lines ==> c[n].lines[k].state == Shared && c[n].lines[k].version == r.version;
    forall m | m in c' && k in c'[m].lines ensures c'[m].lines[k].state == Shared && c'[m].lines[k].version == r.version {
      assert m != n ==> c'[m] == c[m];
    }
  }

  /** An answer just given is what every copy says. */
  lemma GivenAgrees(s: Net, step: Step, k: Key, r: Response)
    requires Sane(s) && CanStep(s, step) && CoherentAt(s, k) && Gives(s, step, k, r)
    ensures Agreed(CachesOf(Stepped(s, step)), Stepped(s, step).last, k, r)
  {
    hide Sane;
    SteppedSane(s, step);
    var n, c, c' := step.node, CachesOf(s), CachesOf(Stepped(s, step));
    LineAt(s, n, k);
    forall m | m in c' && k in c'[m].lines ensures c'[m].lines[k].state == Shared && c'[m].lines[k].version == r.version {
      if m != n {
        LineAt(s, m, k);
        PairAt(s, m, n, k);
      }
    }
  }

  lemma PairAt(s: Net, n: NodeId, m: NodeId, k: Key)
    requires CoherentAt(s, k) && n in s.members && m in s.members && n != m
    requires k in s.members[n].cache.lines && k in s.members[m].cache.lines
    ensures PairInv(s.members[n].cache.lines[k], s.members[m].cache.lines[k])
  {
    var copies := Column(CachesOf(s), k);
    assert n in copies && m in copies;
    assert PairInv(copies[n], copies[m]);
  }

  lemma GivenIsOld(s: Net, step: Step, k: Key, r: Response, earlier: Response)
    requires CanStep(s, step) && CoherentAt(s, k) && Gives(s, step, k, r) && Agreed(CachesOf(s), s.last, k, earlier)
    ensures r == earlier
  {
    hide CoherentAt;
    LineAt(s, step.node, k);
    assert CachesOf(s)[step.node].lines[k].state == Shared;
  }

  lemma FreshIsTimely(s: Net, step: Step, k: Key)
    requires CanStep(s, step) && FreshAt(s, k) && !WritesTo(step, k)
    ensures Timely(s, step, k)
  {
    hide CoherentAt;
    if Fills(s, step, k) {
      assert UnderWay(s, step.node, k, s.members[step.node].results[step.read]) by {
        assert step.read in s.members[step.node].results;
      }
    }
  }

  lemma FreshAgreed(s: Net, step: Step, n: NodeId, k: Key, r: Response)
    requires Sane(s) && CanStep(s, step) && FreshAt(s, k) && !WritesTo(step, k)
    requires UnderWay(s, n, k, r) || Gives(s, step, k, r)
    ensures Agreed(CachesOf(Stepped(s, step)), Stepped(s, step).last, k, r)
  {
    hide Sane, CoherentAt, Agreed, Gives, Stepped;
    if UnderWay(s, n, k, r) {
      if Fills(s, step, k) {
        var r' := s.members[step.node].results[step.read];
        assert InResults(s.members[step.node], k, r');
        assert UnderWay(s, step.node, k, r');
      }
      AgreedKept(s, step, k, r);
    } else {
      GivenAgrees(s, step, k, r);
    }
  }

  lemma FreshUnique(s: Net, step: Step, n: NodeId, r: Response, n': NodeId, r': Response, k: Key)
    requires CanStep(s, step) && FreshAt(s, k)
    requires UnderWay(s, n, k, r) || Gives(s, step, k, r)
    requires UnderWay(s, n', k, r') || Gives(s, step, k, r')
    ensures r == r'
  {
    hide CoherentAt, Agreed, UnderWay;
    if Gives(s, step, k, r) && !Gives(s, step, k, r') {
      GivenIsOld(s, step, k, r, r');
    }
    if Gives(s, step, k, r') && !Gives(s, step, k, r) {
      GivenIsOld(s, step, k, r', r);
    }
  }

  /** What is fresh stays fresh until somebody writes or deletes the key. */
  lemma FreshStep(s: Net, step: Step, k: Key)
    requires Sane(s) && CanStep(s, step) && FreshAt(s, k) && !WritesTo(step, k)
    ensures Timely(s, step, k) && FreshAt(Stepped(s, step), k)
  {
    hide Sane, CoherentAt, Stepped, UnderWay, Gives, Agreed, WritesTo, Timely;
    FreshIsTimely(s, step, k);
    StepIsCoherent(s, step, k);
    var s' := Stepped(s, step);
    forall n, r | UnderWay(s', n, k, r) ensures Agreed(CachesOf(s'), s'.last, k, r) {
      WhereFrom(s, step, n, k, r);
      FreshAgreed(s, step, n, k, r);
    }
    forall n, r, n', r' | UnderWay(s', n, k, r) && UnderWay(s', n', k, r') ensures r == r' {
      WhereFrom(s, step, n, k, r);
      WhereFrom(s, step, n', k, r');
      FreshUnique(s, step, n, r, n', r', k);
    }
  }

  /** A write or delete that finds the key free leaves it fresh. */
  lemma FreeStep(s: Net, step: Step, k: Key)
    requires Sane(s) && CanStep(s, step) && FreshAt(s, k) && WritesTo(step, k) && Free(s, step.node, k)
    ensures Timely(s, step, k) && FreshAt(Stepped(s, step), k)
  {
    hide Sane, CoherentAt, Stepped, UnderWay, Agreed;
    StepIsCoherent(s, step, k);
    var s' := Stepped(s, step);
    forall n, r ensures !UnderWay(s', n, k, r) {
      if UnderWay(s', n, k, r) {
        WhereFrom(s, step, n, k, r);
        assert false;
      }
    }
  }

  /** Every write and delete of the key finds it free. */
  ghost predicate WritesFree(s: Net, steps: seq<Step>, k: Key)
    requires Runs(s, steps)
    decreases |steps|
  {
    steps != [] ==>
      && (WritesTo(steps[0], k) ==> Free(s, steps[0].node, k))
      && WritesFree(Stepped(s, steps[0]), steps[1..], k)
  }

  /**
   * If whoever writes or deletes the key does so only when no other node has it and no answer
   * about it is under way, its copies stay coherent and every read returns the last value put,
   * whatever happens in between, late answers and time-outs included.
   */
  lemma {:induction false} FreeWritesAreCoherent(s: Net, steps: seq<Step>, k: Key)
    requires Sane(s) && FreshAt(s, k) && Runs(s, steps) && WritesFree(s, steps, k)
    ensures StaysCoherent(s, steps, k) && AllReadLast(s, steps, k)
    ensures Sane(Reached(s, steps)) && FreshAt(Reached(s, steps), k)
    decreases |steps|
  {
    hide Sane, CoherentAt, Stepped, CanStep, UnderWay, Agreed, Free, Timely, ReadsLast, WritesTo;
    if steps != [] {
      if WritesTo(steps[0], k) {
        FreeStep(s, steps[0], k);
      } else {
        FreshStep(s, steps[0], k);
      }
      CoherentReadIsLast(s, steps[0], k);
      SteppedSane(s, steps[0]);
      FreeWritesAreCoherent(Stepped(s, steps[0]), steps[1..], k);
    }
  }

  /** In particular if nobody writes or deletes the key at all. */
  lemma {:induction false} UndisturbedReadIsCoherent(s: Net, steps: seq<Step>, k: Key)
    requires Sane(s) && FreshAt(s, k) && Runs(s, steps) && forall step | step in steps :: !WritesTo(step, k)
    ensures StaysCoherent(s, steps, k) && AllReadLast(s, steps, k)
  {
    hide Sane, FreshAt, WritesTo;
    NoWritesAreFree(s, steps, k);
    FreeWritesAreCoherent(s, steps, k);
  }

  lemma {:induction false} NoWritesAreFree(s: Net, steps: seq<Step>, k: Key)
    requires Runs(s, steps) && forall step | step in steps :: !WritesTo(step, k)
    ensures WritesFree(s, steps, k)
    decreases |steps|
  {
    hide Stepped, CanStep, WritesTo, Free;
    if steps != [] {
      NoWritesAreFree(Stepped(s, steps[0]), steps[1..], k);
    }
  }
}
