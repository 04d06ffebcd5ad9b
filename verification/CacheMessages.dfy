/**
 * The cluster message by message: every handler of a node is one step, and what it sends
 * waits in the receiver's queue. When the copies of a key stay coherent, and when a stale
 * one can be read.
 */
module CacheMessages {
  import opened Quorums
  import opened CachePolicy
  import opened CacheStates
  import opened CacheTheorems

  /** The nodes, their queues of messages, and the last value put for every key. */
  datatype Net = Net(members: map<NodeId, Member>, queues: map<NodeId, seq<Packet>>, last: map<Key, Value>)

  datatype Step =
    | Begin(node: NodeId, key: Key)                   // a read hits, or asks the peers
    | End(node: NodeId, read: Future)                 // a read that missed goes on, or gives up
    | Write(node: NodeId, key: Key, value: Value)
    | Erase(node: NodeId, key: Key)
    | Handle(node: NodeId)                            // the first message of the node's queue
    | Lose(node: NodeId)                              // it is gone instead

  predicate CanStep(s: Net, step: Step) {
    && step.node in s.members && step.node in s.queues
    && (step.Handle? || step.Lose? ==> s.queues[step.node] != [])
  }

  /** What a message does to a node, and what the node answers. */
  function Handled(m: Member, p: Packet): (Member, seq<Packet>) {
    match p
    case Fetch(src, dst, k) =>
      var (cache, response) := Answered(m.cache, k);
      (m.(cache := cache), if response.Some? then [Reply(dst, src, k, response.value)] else [])
    case Reply(_, _, k, r) => (Replied(m, k, r), [])
    case Invalidate(_, _, k) => (m.(cache := Invalidated(m.cache, k)), [])
  }

  function MemberAfter(s: Net, step: Step): Member
    requires CanStep(s, step)
  {
    var m := s.members[step.node];
    match step
    case Begin(_, k) => Began(m, k).0
    case End(_, f) => Ended(m, f).0
    case Write(_, k, v) => m.(cache := Written(m.cache, k, v))
    case Erase(_, k) => m.(cache := Erased(m.cache, k))
    case Handle(n) => Handled(m, s.queues[n][0]).0
    case Lose(_) => m
  }

  /** What the step puts into the queue of a node. */
  function Toward(s: Net, step: Step, to: NodeId): seq<Packet>
    requires CanStep(s, step)
  {
    match step
    case Begin(n, k) => if to != n && !HasCopy(s.members[n].cache, k) then [Fetch(n, to, k)] else []
    case End(_, _) => []
    case Write(n, k, _) => if to != n then [Invalidate(n, to, k)] else []
    case Erase(n, k) => if to != n then [Invalidate(n, to, k)] else []
    case Handle(n) =>
      var reply := Handled(s.members[n], s.queues[n][0]).1;
      if reply != [] && reply[0].dst == to then reply else []
    case Lose(_) => []
  }

  function Waiting(s: Net, step: Step, n: NodeId): seq<Packet>
    requires CanStep(s, step) && n in s.queues
  {
    if n == step.node && (step.Handle? || step.Lose?) then s.queues[n][1..] else s.queues[n]
  }

  function LastFor(last: map<Key, Value>, step: Step): map<Key, Value> {
    match step
    case Write(_, k, v) => last[k := v]
    case Erase(_, k) => last - {k}
    case _ => last
  }

  function Stepped(s: Net, step: Step): Net
    requires CanStep(s, step)
  {
    Net(s.members[step.node := MemberAfter(s, step)],
        map n | n in s.queues :: Waiting(s, step, n) + Toward(s, step, n),
        LastFor(s.last, step))
  }

  ghost predicate Runs(s: Net, steps: seq<Step>)
    decreases |steps|
  {
    steps == [] || (CanStep(s, steps[0]) && Runs(Stepped(s, steps[0]), steps[1..]))
  }

  function Reached(s: Net, steps: seq<Step>): Net
    requires Runs(s, steps)
    decreases |steps|
  {
    if steps == [] then s else Reached(Stepped(s, steps[0]), steps[1..])
  }

  // ---------- single nodes ----------

  function CachesOf(s: Net): Caches {
    map n | n in s.members :: s.members[n].cache
  }

  /** Futures are kept under their own key. */
  ghost predicate PendingInv(m: Member) {
    forall k | k in m.pending :: m.pending[k].key == k
  }

  ghost predicate Sane(s: Net) {
    && s.queues.Keys == s.members.Keys
    && forall n | n in s.members :: NodeInv(s.members[n].cache) && PendingInv(s.members[n])
  }

  /** The key the step is about. */
  function KeyOf(s: Net, step: Step): Key
    requires CanStep(s, step)
  {
    match step
    case Begin(_, k) => k
    case End(_, f) => f.key
    case Write(_, k, _) => k
    case Erase(_, k) => k
    case Handle(n) => s.queues[n][0].key
    case Lose(n) => s.queues[n][0].key
  }

  /** The copy enters whether or not the node has taken in a line of the key meanwhile. */
  lemma FilledKeeps(s: CacheState, k: Key, r: Response)
    requires NodeInv(s)
    ensures var s' := Filled(s, k, r);
            && NodeInv(s') && Part(s'.lines - {k}, s.lines)
            && k in s'.lines && s'.lines[k] == LineOf(r)
  {
    hide Knows, PolicyInv, WithRoom, Inserted;
    RoomIs(s);
    FewerLines(WithRoom(s).lines, k, LineOf(r));
    CachePolicy.InsertedIs(WithRoom(s).policy, k);
  }

  function LineOf(r: Response): Line {
    Line(r.value, if r.shared then Shared else Exclusive, r.version)
  }

  lemma HandledKeeps(m: Member, p: Packet)
    requires NodeInv(m.cache)
    ensures NodeInv(Handled(m, p).0.cache) && Part(Handled(m, p).0.cache.lines - {p.key}, m.cache.lines)
    ensures PendingInv(m) ==> PendingInv(Handled(m, p).0)
  {
    hide NodeInv, Answered, Removed;
    match p {
      case Fetch(_, _, k) => AnsweredIs(m.cache, k);
      case Reply(_, _, _, _) =>
      case Invalidate(_, _, k) => ErasedIs(m.cache, k);
    }
  }

  lemma BeganKeeps(m: Member, k: Key)
    requires NodeInv(m.cache)
    ensures NodeInv(Began(m, k).0.cache) && Began(m, k).0.cache.lines == m.cache.lines
    ensures PendingInv(m) ==> PendingInv(Began(m, k).0)
  {
    hide NodeInv, Accessed;
    if HasCopy(m.cache, k) {
      TouchedIs(m.cache, k, m.cache.lines[k]);
    }
  }

  /** A step leaves its node in order and changes no line of another key, though some may go. */
  lemma MemberKeeps(s: Net, step: Step)
    requires Sane(s) && CanStep(s, step)
    ensures var before, after := s.members[step.node].cache, MemberAfter(s, step).cache;
            NodeInv(after) && Part(after.lines - {KeyOf(s, step)}, before.lines)
    ensures PendingInv(MemberAfter(s, step))
  {
    hide NodeInv, Began, Filled, Written, Removed, Handled;
    var m := s.members[step.node];
    match step {
      case Begin(_, k) => BeganKeeps(m, k);
      case End(_, f) => if f in m.results { FilledKeeps(m.cache, f.key, m.results[f]); }
      case Write(_, k, v) => WrittenIs(m.cache, k, v);
      case Erase(_, k) => ErasedIs(m.cache, k);
      case Handle(n) => HandledKeeps(m, s.queues[n][0]);
      case Lose(_) =>
    }
  }

  lemma SteppedSane(s: Net, step: Step)
    requires Sane(s) && CanStep(s, step)
    ensures Sane(Stepped(s, step))
    ensures CachesOf(Stepped(s, step)) == CachesOf(s)[step.node := MemberAfter(s, step).cache]
  {
    hide NodeInv, PendingInv, MemberAfter, Toward, Waiting, KeyOf;
    MemberKeeps(s, step);
  }

  // ---------- one key's copies ----------

  lemma ColumnWith(c: Caches, n: NodeId, s: CacheState, k: Key)
    ensures Column(c[n := s], k) == if k in s.lines then Column(c, k)[n := s.lines[k]] else Column(c, k) - {n}
  {
  }

  /** No other node has a line of the key. */
  ghost predicate Alone(c: Caches, n: NodeId, k: Key) {
    forall m | m in c && m != n :: k !in c[m].lines
  }

  /** The answer is still the last value put, it came as shared, and every other copy is shared with its version. */
  ghost predicate Fits(c: Caches, last: map<Key, Value>, n: NodeId, k: Key, r: Response) {
    && r.shared && k in last && r.value == last[k]
    && forall m | m in c && m != n && k in c[m].lines :: c[m].lines[k].state == Shared && c[m].lines[k].version == r.version
  }

  lemma AnswerEnters(c: Caches, last: map<Key, Value>, n: NodeId, k: Key, r: Response)
    requires ColumnInv(last, k, Column(c, k))
    ensures ColumnInv(last, k, Column(c, k)[n := LineOf(r)]) <==> Fits(c, last, n, k, r)
  {
    var copies, copies' := Column(c, k), Column(c, k)[n := LineOf(r)];
    if Fits(c, last, n, k, r) {
      forall m, l | m in copies' && l in copies' && m != l ensures PairInv(copies'[m], copies'[l]) {
        assert m != n ==> copies[m].state == Shared && copies[m].version == r.version;
        assert l != n ==> copies[l].state == Shared && copies[l].version == r.version;
      }
    } else if ColumnInv(last, k, copies') {
      assert LineInv(last, k, copies'[n]);
      forall m | m in c && m != n && k in c[m].lines
        ensures c[m].lines[k].state == Shared && c[m].lines[k].version == r.version
      {
        assert m in copies';
        assert PairInv(copies'[m], copies'[n]) && LineInv(last, k, copies'[m]);
      }
    }
  }

  lemma ModifiedEnters(c: Caches, last: map<Key, Value>, n: NodeId, k: Key, line: Line)
    requires line.state == Modified && k in last && line.value == last[k]
    ensures ColumnInv(last, k, Column(c, k)[n := line]) <==> Alone(c, n, k)
  {
    var copies := Column(c, k)[n := line];
    if ColumnInv(last, k, copies) {
      forall m | m in c && m != n ensures k !in c[m].lines {
        assert k in c[m].lines ==> m in copies && !PairInv(copies[n], copies[m]);
      }
    }
  }

  lemma LineLeaves(c: Caches, last: map<Key, Value>, n: NodeId, k: Key)
    requires k !in last
    ensures ColumnInv(last, k, Column(c, k) - {n}) <==> Alone(c, n, k)
  {
    var copies := Column(c, k) - {n};
    if ColumnInv(last, k, copies) {
      forall m | m in c && m != n ensures k !in c[m].lines {
        assert k in c[m].lines ==> m in copies && !LineInv(last, k, copies[m]);
      }
    }
  }

  // ---------- one change to all copies ----------

  lemma OneColumn(c: Caches, n: NodeId, s: CacheState, k: Key, last: map<Key, Value>, last': map<Key, Value>)
    requires CachesInv(c, last) && n in c && NodeInv(s) && Part(s.lines - {k}, c[n].lines) && last - {k} == last' - {k}
    ensures CachesInv(c[n := s], last') <==> ColumnInv(last', k, Column(c[n := s], k))
  {
    hide NodeInv, LinesInv, ColumnInv, Column;
    if ColumnInv(last', k, Column(c[n := s], k)) {
      OtherColumns(c, c[n := s], last, last', k);
    } else if LinesInv(c[n := s], last') {
      ColumnOf(c[n := s], last', k);
    }
  }

  /** Caching an answer keeps the caches coherent if and only if it fits. */
  lemma FillIsCoherent(c: Caches, last: map<Key, Value>, n: NodeId, k: Key, r: Response)
    requires CachesInv(c, last) && n in c
    ensures CachesInv(c[n := Filled(c[n], k, r)], last) <==> Fits(c, last, n, k, r)
  {
    hide NodeInv, LinesInv, Filled, ColumnInv, Column, Fits;
    ColumnOf(c, last, k);
    FilledKeeps(c[n], k, r);
    OneColumn(c, n, Filled(c[n], k, r), k, last, last);
    ColumnWith(c, n, Filled(c[n], k, r), k);
    AnswerEnters(c, last, n, k, r);
  }

  /** A put keeps the caches coherent, before anybody handles its invalidation, if and only if nobody else has a line. */
  lemma WriteIsCoherent(c: Caches, last: map<Key, Value>, n: NodeId, k: Key, v: Value)
    requires CachesInv(c, last) && n in c
    ensures CachesInv(c[n := Written(c[n], k, v)], last[k := v]) <==> Alone(c, n, k)
  {
    hide NodeInv, LinesInv, Written, ColumnInv, Column, Alone;
    WrittenIs(c[n], k, v);
    OneColumn(c, n, Written(c[n], k, v), k, last, last[k := v]);
    ColumnWith(c, n, Written(c[n], k, v), k);
    ModifiedEnters(c, last[k := v], n, k, Written(c[n], k, v).lines[k]);
  }

  /** So does a delete. */
  lemma EraseIsCoherent(c: Caches, last: map<Key, Value>, n: NodeId, k: Key)
    requires CachesInv(c, last) && n in c
    ensures CachesInv(c[n := Erased(c[n], k)], last - {k}) <==> Alone(c, n, k)
  {
    hide NodeInv, LinesInv, Removed, ColumnInv, Column, Alone;
    ErasedIs(c[n], k);
    OneColumn(c, n, Erased(c[n], k), k, last, last - {k});
    ColumnWith(c, n, Erased(c[n], k), k);
    LineLeaves(c, last - {k}, n, k);
  }

  // ---------- when the copies of a key are coherent ----------

  ghost predicate CoherentAt(s: Net, k: Key) {
    ColumnInv(s.last, k, Column(CachesOf(s), k))
  }

  /** An answer about the key fits when it is cached, and a write or delete of it finds no line elsewhere. */
  ghost predicate Timely(s: Net, step: Step, k: Key)
    requires CanStep(s, step)
  {
    match step
    case End(n, f) => f.key == k && f in s.members[n].results ==> Fits(CachesOf(s), s.last, n, k, s.members[n].results[f])
    case Write(n, j, _) => j == k ==> Alone(CachesOf(s), n, k)
    case Erase(n, j) => j == k ==> Alone(CachesOf(s), n, k)
    case _ => true
  }

  lemma OtherColumn(c: Caches, n: NodeId, s: CacheState, j: Key, last: map<Key, Value>, last': map<Key, Value>, k: Key)
    requires n in c && Part(s.lines - {j}, c[n].lines) && last - {j} == last' - {j} && k != j
    requires ColumnInv(last, k, Column(c, k))
    ensures ColumnInv(last', k, Column(c[n := s], k))
  {
    hide ColumnInv;
    assert k in s.lines ==> k in s.lines - {j};
    assert k in last <==> k in last - {j};
    assert k in last' <==> k in last' - {j};
    ColumnPart(last, last', k, Column(c, k), Column(c[n := s], k));
  }

  lemma SameLast(s: Net, step: Step)
    requires CanStep(s, step)
    ensures s.last - {KeyOf(s, step)} == LastFor(s.last, step) - {KeyOf(s, step)}
  {
  }

  lemma OtherKey(s: Net, step: Step, k: Key)
    requires Sane(s) && CanStep(s, step) && CoherentAt(s, k) && k != KeyOf(s, step)
    ensures CoherentAt(Stepped(s, step), k)
  {
    hide Sane, ColumnInv, Column, MemberAfter, KeyOf, Part, LastFor;
    SteppedSane(s, step);
    MemberKeeps(s, step);
    SameLast(s, step);
    OtherColumn(CachesOf(s), step.node, MemberAfter(s, step).cache, KeyOf(s, step), s.last, LastFor(s.last, step), k);
  }

  lemma SameLines(c: Caches, n: NodeId, s: CacheState, k: Key)
    requires n in c && s.lines == c[n].lines
    ensures Column(c[n := s], k) == Column(c, k)
  {
  }

  /** A copy that is shared, or lost, leaves the others as they should be. */
  lemma HandledColumn(c: Caches, last: map<Key, Value>, n: NodeId, m: Member, p: Packet)
    requires n in c && m.cache == c[n] && ColumnInv(last, p.key, Column(c, p.key))
    ensures ColumnInv(last, p.key, Column(c[n := Handled(m, p).0.cache], p.key))
  {
    hide Removed;
    var s := Handled(m, p).0.cache;
    var copies := Column(c, p.key);
    ColumnWith(c, n, s, p.key);
    match p {
      case Fetch(_, _, k) => if HasCopy(c[n], k) { assert copies[n] == c[n].lines[k]; }
      case Reply(_, _, _, _) => SameLines(c, n, s, p.key);
      case Invalidate(_, _, _) =>
    }
  }

  lemma OwnKey(s: Net, step: Step)
    requires Sane(s) && CanStep(s, step) && CoherentAt(s, KeyOf(s, step))
    ensures var k, c := KeyOf(s, step), CachesOf(s);
            ColumnInv(LastFor(s.last, step), k, Column(c[step.node := MemberAfter(s, step).cache], k)) <==> Timely(s, step, k)
  {
    hide NodeInv, ColumnInv, Column, Handled, Filled, Written, Removed, Alone, Fits, Began;
    var k, c, n, m := KeyOf(s, step), CachesOf(s), step.node, s.members[step.node];
    ColumnWith(c, n, MemberAfter(s, step).cache, k);
    match step {
      case Begin(_, _) =>
        BeganKeeps(m, k);
        SameLines(c, n, MemberAfter(s, step).cache, k);
      case End(_, f) =>
        if f in m.results {
          FilledKeeps(m.cache, k, m.results[f]);
          AnswerEnters(c, s.last, n, k, m.results[f]);
        } else {
          SameLines(c, n, MemberAfter(s, step).cache, k);
        }
      case Write(_, _, v) =>
        WrittenIs(m.cache, k, v);
        ModifiedEnters(c, s.last[k := v], n, k, Written(m.cache, k, v).lines[k]);
      case Erase(_, _) => LineLeaves(c, s.last - {k}, n, k);
      case Handle(_) => HandledColumn(c, s.last, n, m, s.queues[n][0]);
      case Lose(_) => SameLines(c, n, MemberAfter(s, step).cache, k);
    }
  }

  /** One step from coherent copies leaves them coherent if and only if it is timely. */
  lemma StepIsCoherent(s: Net, step: Step, k: Key)
    requires Sane(s) && CanStep(s, step) && CoherentAt(s, k)
    ensures Sane(Stepped(s, step)) && (CoherentAt(Stepped(s, step), k) <==> Timely(s, step, k))
  {
    hide Sane, ColumnInv, MemberAfter, Fits, Alone, LastFor;
    SteppedSane(s, step);
    if k == KeyOf(s, step) {
      OwnKey(s, step);
    } else {
      OtherKey(s, step, k);
    }
  }

  /** Coherent now and after every step. */
  ghost predicate StaysCoherent(s: Net, steps: seq<Step>, k: Key)
    requires Runs(s, steps)
    decreases |steps|
  {
    CoherentAt(s, k) && (steps != [] ==> StaysCoherent(Stepped(s, steps[0]), steps[1..], k))
  }

  ghost predicate AllTimely(s: Net, steps: seq<Step>, k: Key)
    requires Runs(s, steps)
    decreases |steps|
  {
    steps != [] ==> Timely(s, steps[0], k) && AllTimely(Stepped(s, steps[0]), steps[1..], k)
  }

  /**
   * The copies of a key stay coherent through a run if and only if every answer about it
   * still fits when it is cached and every write and delete of it finds no line elsewhere.
   */
  lemma {:induction false} CoherentIffTimely(s: Net, steps: seq<Step>, k: Key)
    requires Sane(s) && CoherentAt(s, k) && Runs(s, steps)
    ensures StaysCoherent(s, steps, k) <==> AllTimely(s, steps, k)
    decreases |steps|
  {
    hide Sane, CoherentAt, Stepped, CanStep, Timely;
    if steps != [] {
      StepIsCoherent(s, steps[0], k);
      if CoherentAt(Stepped(s, steps[0]), k) {
        CoherentIffTimely(Stepped(s, steps[0]), steps[1..], k);
      }
    }
  }
}
