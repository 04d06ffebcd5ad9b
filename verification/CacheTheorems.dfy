/** Coherence of the caches over runs of whole operations, and agreement of every policy with its cache. */
module CacheTheorems {
  import opened Options
  import opened Quorums
  import opened CachePolicy
  import opened CacheStates

  // ---------- one node ----------

  /** A cache told to hold nothing still takes the line it has just made room for. */
  function Bound(maxSize: int): nat {
    if maxSize < 1 then 1 else maxSize
  }

  ghost predicate Agrees(s: CacheState) {
    PolicyInv(s.policy) && forall k :: Knows(s.policy, k) <==> k in s.lines
  }

  ghost predicate NodeInv(s: CacheState) {
    Agrees(s) && |s.lines| <= Bound(s.maxSize)
  }

  lemma FewerLines(lines: map<Key, Line>, k: Key, line: Line)
    ensures |lines - {k}| <= |lines|
    ensures |lines[k := line]| == if k in lines then |lines| else |lines| + 1
  {
  }

  /** Some of the lines, none of them changed. */
  ghost predicate Part<K(!new)>(some: map<K, Line>, all: map<K, Line>) {
    forall k | k in some :: k in all && some[k] == all[k]
  }

  /** Room is made by evicting only, no more than is needed for one more line to fit. */
  lemma {:induction false} RoomIs(s: CacheState)
    requires Agrees(s)
    ensures var s' := WithRoom(s);
            && Agrees(s') && s'.maxSize == s.maxSize && Part(s'.lines, s.lines)
            && |s'.lines| < Bound(s.maxSize)
            && (|s.lines| < s.maxSize ==> s' == s)
            && (|s.lines| >= s.maxSize >= 1 ==> |s'.lines| == s.maxSize - 1)
    decreases Size(s.policy)
  {
    hide Knows, PolicyInv, Victim, Evicted;
    if |s.lines| >= s.maxSize {
      EvictedIs(s.policy);
      if Victim(s.policy).Some? {
        var k := Victim(s.policy).value;
        EvictedShrinks(s.policy);
        RoomIs(s.(lines := s.lines - {k}, policy := Evicted(s.policy)));
      } else {
        assert s.lines.Keys == {};
      }
    }
  }

  /** A line enters: room first, then the line, then the policy is told. */
  lemma EntersIs(s: CacheState, k: Key, line: Line)
    requires NodeInv(s) && k !in s.lines
    ensures var s1 := WithRoom(s);
            && NodeInv(s1.(lines := s1.lines[k := line], policy := Inserted(s1.policy, k)))
            && Part(s1.lines, s.lines) && s1.maxSize == s.maxSize
  {
    hide Knows, PolicyInv, WithRoom, Inserted;
    RoomIs(s);
    var s1 := WithRoom(s);
    FewerLines(s1.lines, k, line);
    CachePolicy.InsertedIs(s1.policy, k);
  }

  lemma TouchedIs(s: CacheState, k: Key, line: Line)
    requires NodeInv(s) && k in s.lines
    ensures NodeInv(s.(lines := s.lines[k := line])) && NodeInv(s.(lines := s.lines[k := line], policy := Accessed(s.policy, k)))
    ensures NodeInv(s.(policy := Accessed(s.policy, k)))
  {
    hide Knows, PolicyInv, Accessed;
    FewerLines(s.lines, k, line);
    AccessedIs(s.policy, k);
  }

  lemma ErasedIs(s: CacheState, k: Key)
    requires NodeInv(s)
    ensures NodeInv(Erased(s, k)) && NodeInv(Invalidated(s, k))
  {
    hide Knows, PolicyInv, Removed;
    FewerLines(s.lines, k, Line(0, Invalid, 0));
    RemovedIs(s.policy, k);
  }

  // ---------- the cluster ----------

  /** A line between operations: modified or shared, with the last value put. */
  predicate LineInv(last: map<Key, Value>, k: Key, line: Line) {
    (line.state == Modified || line.state == Shared) && k in last && line.value == last[k]
  }

  /** Two copies on different nodes: same version, neither of them modified. */
  predicate PairInv(a: Line, b: Line) {
    a.version == b.version && a.state != Modified
  }

  /** The copies of one key, by node. */
  function Column(c: Caches, k: Key): map<NodeId, Line> {
    map n | n in c && k in c[n].lines :: c[n].lines[k]
  }

  ghost predicate ColumnInv(last: map<Key, Value>, k: Key, copies: map<NodeId, Line>) {
    && (forall n | n in copies :: LineInv(last, k, copies[n]))
    && (forall n, m | n in copies && m in copies && n != m :: PairInv(copies[n], copies[m]))
  }

  ghost predicate LinesInv(c: Caches, last: map<Key, Value>) {
    forall k :: ColumnInv(last, k, Column(c, k))
  }

  ghost predicate CachesInv(c: Caches, last: map<Key, Value>) {
    (forall n | n in c :: NodeInv(c[n])) && LinesInv(c, last)
  }

  datatype Op =
    | Get(node: NodeId, key: Key, from: Option<NodeId>)
    | Put(node: NodeId, key: Key, value: Value)
    | Delete(node: NodeId, key: Key)

  predicate OpEnabled(c: Caches, op: Op) {
    op.node in c && (op.Get? ==> Responds(c, op.node, op.key, op.from))
  }

  function Done(c: Caches, op: Op): Caches
    requires OpEnabled(c, op)
  {
    match op
    case Get(n, k, from) => GetOn(c, n, k, from).0
    case Put(n, k, v) => PutOn(c, n, k, v)
    case Delete(n, k) => DeleteOn(c, n, k)
  }

  /** The last value put for every key, unless it has been deleted since. */
  function LastPut(last: map<Key, Value>, op: Op): map<Key, Value> {
    match op
    case Get(_, _, _) => last
    case Put(_, k, v) => last[k := v]
    case Delete(_, k) => last - {k}
  }

  /** Of every other key no line has changed, though some may be gone. */
  ghost predicate OnlyTouches(c: Caches, c': Caches, k: Key) {
    c'.Keys == c.Keys && forall m | m in c :: Part(c'[m].lines - {k}, c[m].lines)
  }

  /** It is enough to look at the key an operation is about. */
  lemma OtherColumns(c: Caches, c': Caches, last: map<Key, Value>, last': map<Key, Value>, k: Key)
    requires LinesInv(c, last) && OnlyTouches(c, c', k) && last - {k} == last' - {k}
    requires ColumnInv(last', k, Column(c', k))
    ensures LinesInv(c', last')
  {
    forall j ensures ColumnInv(last', j, Column(c', j)) {
      if j != k {
        assert j in last' <==> j in last' - {k};
        assert j in last <==> j in last - {k};
        ColumnPart(last, last', j, Column(c, j), PartOfColumn(c, c', k, j));
      }
    }
  }

  function PartOfColumn(c: Caches, c': Caches, k: Key, j: Key): (copies: map<NodeId, Line>)
    requires OnlyTouches(c, c', k) && j != k
    ensures copies == Column(c', j) && Part(copies, Column(c, j))
  {
    assert forall m | m in c && j in c'[m].lines :: j in c'[m].lines - {k};
    Column(c', j)
  }

  lemma ColumnPart(last: map<Key, Value>, last': map<Key, Value>, k: Key, all: map<NodeId, Line>, some: map<NodeId, Line>)
    requires ColumnInv(last, k, all) && Part(some, all)
    requires (k in last <==> k in last') && (k in last ==> last[k] == last'[k])
    ensures ColumnInv(last', k, some)
  {
  }

  lemma PutKeeps(c: Caches, last: map<Key, Value>, n: NodeId, k: Key, v: Value)
    requires CachesInv(c, last) && n in c
    ensures CachesInv(PutOn(c, n, k, v), last[k := v])
    ensures forall m | m in c :: HasCopy(PutOn(c, n, k, v)[m], k) <==> m == n
  {
    hide NodeInv, Written, LinesInv;
    var c' := PutOn(c, n, k, v);
    forall m | m in c ensures NodeInv(c'[m]) && Part(c'[m].lines - {k}, c[m].lines) {
      if m != n {
        ErasedIs(c[m], k);
      } else {
        WrittenIs(c[n], k, v);
      }
    }
    WrittenIs(c[n], k, v);
    assert Column(c', k) == map[n := c'[n].lines[k]];
    OtherColumns(c, c', last, last[k := v], k);
  }

  lemma WrittenIs(s: CacheState, k: Key, v: Value)
    requires NodeInv(s)
    ensures NodeInv(Written(s, k, v))
    ensures k in Written(s, k, v).lines && Written(s, k, v).lines[k].state == Modified && Written(s, k, v).lines[k].value == v
    ensures Part(Written(s, k, v).lines - {k}, s.lines)
  {
    hide NodeInv, WithRoom;
    if k in s.lines {
      TouchedIs(s, k, Line(v, Modified, s.lines[k].version + 1));
    } else {
      EntersIs(s, k, Line(v, Modified, 1));
    }
  }

  lemma DeleteKeeps(c: Caches, last: map<Key, Value>, n: NodeId, k: Key)
    requires CachesInv(c, last) && n in c
    ensures CachesInv(DeleteOn(c, n, k), last - {k})
    ensures forall m | m in c :: !HasCopy(DeleteOn(c, n, k)[m], k)
  {
    hide NodeInv, LinesInv;
    var c' := DeleteOn(c, n, k);
    forall m | m in c ensures NodeInv(c'[m]) && Part(c'[m].lines - {k}, c[m].lines) {
      ErasedIs(c[m], k);
    }
    assert Column(c', k) == map[];
    OtherColumns(c, c', last, last - {k}, k);
  }

  lemma AnsweredIs(s: CacheState, k: Key)
    requires NodeInv(s)
    ensures NodeInv(Answered(s, k).0) && Part(Answered(s, k).0.lines - {k}, s.lines)
  {
    hide NodeInv;
    if HasCopy(s, k) {
      TouchedIs(s, k, s.lines[k].(state := Shared));
    }
  }

  lemma SharedColumn(c: Caches, last: map<Key, Value>, n: NodeId, k: Key)
    requires ColumnInv(last, k, Column(c, k)) && n in c && k !in c[n].lines
    ensures Column(Fetched(c, n, k), k) == map m | m in Column(c, k) :: Column(c, k)[m].(state := Shared)
  {
    var copies := Column(c, k);
    forall m | m in copies ensures Answered(c[m], k).0.lines[k] == copies[m].(state := Shared) {
      assert LineInv(last, k, copies[m]);
    }
  }

  /** After the fetch the copies are the same ones, all shared. */
  lemma FetchedColumn(c: Caches, last: map<Key, Value>, n: NodeId, k: Key)
    requires LinesInv(c, last) && n in c && k !in c[n].lines
    ensures Column(Fetched(c, n, k), k) == map m | m in Column(c, k) :: Column(c, k)[m].(state := Shared)
    ensures ColumnInv(last, k, Column(Fetched(c, n, k), k))
  {
    hide LinesInv, Fetched;
    ColumnOf(c, last, k);
    SharedColumn(c, last, n, k);
  }

  lemma FetchedKeeps(c: Caches, last: map<Key, Value>, n: NodeId, k: Key)
    requires CachesInv(c, last) && n in c && k !in c[n].lines
    ensures CachesInv(Fetched(c, n, k), last)
    ensures Column(Fetched(c, n, k), k) == map m | m in Column(c, k) :: Column(c, k)[m].(state := Shared)
  {
    hide NodeInv, LinesInv, Answered, ColumnInv, Column;
    var c' := Fetched(c, n, k);
    forall m | m in c ensures NodeInv(c'[m]) && Part(c'[m].lines - {k}, c[m].lines) {
      AnsweredIs(c[m], k);
    }
    FetchedColumn(c, last, n, k);
    OtherColumns(c, c', last, last, k);
  }

  lemma ColumnOf(c: Caches, last: map<Key, Value>, k: Key)
    requires LinesInv(c, last)
    ensures ColumnInv(last, k, Column(c, k))
  {
  }

  /** A copy of the shared copies joins them. */
  lemma EntryKeeps(c: Caches, last: map<Key, Value>, n: NodeId, p: NodeId, k: Key, s: CacheState)
    requires CachesInv(c, last) && n in c && p in Column(c, k) && p != n && k !in c[n].lines
    requires forall m | m in Column(c, k) :: Column(c, k)[m].state == Shared
    requires NodeInv(s) && k in s.lines && s.lines[k] == Column(c, k)[p] && Part(s.lines - {k}, c[n].lines)
    ensures CachesInv(c[n := s], last)
  {
    hide NodeInv, LinesInv;
    var copies := Column(c, k);
    ColumnOf(c, last, k);
    forall m | m in copies && m != p ensures PairInv(copies[m], copies[p]) {
    }
    assert Column(c[n := s], k) == copies[n := copies[p]];
    OtherColumns(c, c[n := s], last, last, k);
  }

  lemma FilledIs(s: CacheState, k: Key, r: Response)
    requires NodeInv(s) && k !in s.lines
    ensures var s' := Filled(s, k, r);
            && NodeInv(s') && Part(s'.lines - {k}, s.lines)
            && k in s'.lines && s'.lines[k] == Line(r.value, if r.shared then Shared else Exclusive, r.version)
  {
    hide NodeInv, WithRoom;
    EntersIs(s, k, Line(r.value, if r.shared then Shared else Exclusive, r.version));
  }

  /** A node with a line of the key has a valid copy of it. */
  lemma LineIsCopy(c: Caches, last: map<Key, Value>, m: NodeId, k: Key)
    requires LinesInv(c, last) && m in c
    ensures HasCopy(c[m], k) <==> m in Column(c, k)
    ensures m in Column(c, k) ==> LineInv(last, k, c[m].lines[k])
  {
  }

  lemma MissKeeps(c: Caches, last: map<Key, Value>, n: NodeId, k: Key, p: NodeId)
    requires CachesInv(c, last) && n in c && p in c && p != n && HasCopy(c[p], k) && !HasCopy(c[n], k)
    ensures var r := Answered(c[p], k).1.value;
            && CachesInv(Fetched(c, n, k)[n := Filled(c[n], k, r)], last)
            && k in last && r.value == last[k] && HasCopy(Filled(c[n], k, r), k)
  {
    hide NodeInv, LinesInv, Filled, Column, Fetched;
    LineIsCopy(c, last, n, k);
    LineIsCopy(c, last, p, k);
    NoLine(c, n, k);
    FetchedKeeps(c, last, n, k);
    ColumnAt(c, p, k);
    FetchedAt(c, n, k);
    var r := Answered(c[p], k).1.value;
    FilledIs(c[n], k, r);
    EntryKeeps(Fetched(c, n, k), last, n, p, k, Filled(c[n], k, r));
  }

  lemma NoLine(c: Caches, n: NodeId, k: Key)
    requires n in c
    ensures n in Column(c, k) <==> k in c[n].lines
  {
  }

  lemma ColumnAt(c: Caches, p: NodeId, k: Key)
    requires p in Column(c, k)
    ensures p in c && k in c[p].lines && Column(c, k)[p] == c[p].lines[k]
  {
  }

  lemma FetchedAt(c: Caches, n: NodeId, k: Key)
    requires n in c
    ensures n in Fetched(c, n, k) && Fetched(c, n, k)[n] == c[n]
  {
  }

  /** A read returns the last value put, if any node still has it, and leaves a copy where it was made. */
  lemma GetKeeps(c: Caches, last: map<Key, Value>, n: NodeId, k: Key, from: Option<NodeId>)
    requires CachesInv(c, last) && n in c && Responds(c, n, k, from)
    ensures var (c', found) := GetOn(c, n, k, from);
            && CachesInv(c', last)
            && (found.Some? <==> exists m :: m in c && HasCopy(c[m], k))
            && (found.Some? ==> k in last && found.value == last[k] && HasCopy(c'[n], k))
  {
    hide NodeInv, LinesInv, Filled, Accessed, Column;
    LineIsCopy(c, last, n, k);
    NoLine(c, n, k);
    if HasCopy(c[n], k) {
      HitKeeps(c, last, n, k);
    } else {
      FetchedKeeps(c, last, n, k);
      if from.Some? {
        MissKeeps(c, last, n, k, from.value);
      }
    }
  }

  lemma HitKeeps(c: Caches, last: map<Key, Value>, n: NodeId, k: Key)
    requires CachesInv(c, last) && n in c && HasCopy(c[n], k)
    ensures CachesInv(c[n := Hit(c[n], k).0], last)
  {
    hide NodeInv, LinesInv, Accessed;
    TouchedIs(c[n], k, c[n].lines[k]);
    var c' := c[n := Hit(c[n], k).0];
    ColumnOf(c, last, k);
    assert Column(c', k) == Column(c, k);
    OtherColumns(c, c', last, last, k);
  }

  // ---------- runs ----------

  ghost predicate InitialCaches(c: Caches) {
    forall n | n in c :: c[n].lines == map[] && (c[n].policy == LRU([]) || c[n].policy == LFU([]))
  }

  predicate Enabled(c: Caches, ops: seq<Op>)
    decreases |ops|
  {
    ops != [] ==> OpEnabled(c, ops[0]) && Enabled(Done(c, ops[0]), ops[1..])
  }

  function After(c: Caches, ops: seq<Op>): Caches
    requires Enabled(c, ops)
    decreases |ops|
  {
    if ops == [] then c else After(Done(c, ops[0]), ops[1..])
  }

  function LastAfter(last: map<Key, Value>, ops: seq<Op>): map<Key, Value>
    decreases |ops|
  {
    if ops == [] then last else LastAfter(LastPut(last, ops[0]), ops[1..])
  }

  lemma OpKeeps(c: Caches, last: map<Key, Value>, op: Op)
    requires CachesInv(c, last) && OpEnabled(c, op)
    ensures CachesInv(Done(c, op), LastPut(last, op)) && Done(c, op).Keys == c.Keys
  {
    hide CachesInv, GetOn;
    match op {
      case Get(n, k, from) =>
        GetKeeps(c, last, n, k, from);
        GetKeepsNodes(c, n, k, from);
      case Put(n, k, v) => PutKeeps(c, last, n, k, v);
      case Delete(n, k) => DeleteKeeps(c, last, n, k);
    }
  }

  lemma GetKeepsNodes(c: Caches, n: NodeId, k: Key, from: Option<NodeId>)
    requires n in c && Responds(c, n, k, from)
    ensures GetOn(c, n, k, from).0.Keys == c.Keys
  {
  }

  lemma {:induction false} RunKeeps(c: Caches, last: map<Key, Value>, ops: seq<Op>)
    requires CachesInv(c, last) && Enabled(c, ops)
    ensures CachesInv(After(c, ops), LastAfter(last, ops)) && After(c, ops).Keys == c.Keys
    decreases |ops|
  {
    hide CachesInv, Done, LastPut;
    if ops != [] {
      OpKeeps(c, last, ops[0]);
      RunKeeps(Done(c, ops[0]), LastPut(last, ops[0]), ops[1..]);
    }
  }

  lemma InitialHolds(c: Caches)
    requires InitialCaches(c)
    ensures CachesInv(c, map[])
  {
    assert forall k :: Column(c, k) == map[];
  }

  /**
   * After any run of whole operations every copy is the last value put, modified copies
   * are alone, and no line is exclusive or invalid.
   */
  lemma CachesAreCoherent(c: Caches, ops: seq<Op>, n: NodeId, m: NodeId, k: Key)
    requires InitialCaches(c) && Enabled(c, ops) && n in c && m in c
    ensures After(c, ops).Keys == c.Keys
    ensures k in After(c, ops)[n].lines ==> LineInv(LastAfter(map[], ops), k, After(c, ops)[n].lines[k])
    ensures n != m && k in After(c, ops)[n].lines && k in After(c, ops)[m].lines
            ==> PairInv(After(c, ops)[n].lines[k], After(c, ops)[m].lines[k])
  {
    hide NodeInv, LineInv, PairInv, After, Enabled, LastAfter;
    InitialHolds(c);
    RunKeeps(c, map[], ops);
    ColumnOf(After(c, ops), LastAfter(map[], ops), k);
    var copies := Column(After(c, ops), k);
    assert n in copies ==> copies[n] == After(c, ops)[n].lines[k];
    assert m in copies ==> copies[m] == After(c, ops)[m].lines[k];
  }

  /** After any run a policy knows exactly the keys its node caches, and the size limit holds. */
  lemma PoliciesAgree(c: Caches, ops: seq<Op>, n: NodeId, k: Key)
    requires InitialCaches(c) && Enabled(c, ops) && n in c
    ensures After(c, ops).Keys == c.Keys
    ensures var s := After(c, ops)[n];
            && (Knows(s.policy, k) <==> k in s.lines)
            && |s.lines| <= Bound(s.maxSize)
            && NodeInv(s)
  {
    hide After, Enabled, LastAfter;
    InitialHolds(c);
    RunKeeps(c, map[], ops);
  }

  /** A node of size less than one is overfull as soon as it is written to, whatever was in it. */
  lemma NoRoomIsOverfull(s: CacheState, k: Key, v: Value)
    ensures k in Written(s, k, v).lines
    ensures s.maxSize < 1 ==> |Written(s, k, v).lines| > s.maxSize
  {
  }

  /** A read anywhere returns the last value put since the last delete, or nothing when no node has a copy left. */
  lemma ReadsReturnLastPut(c: Caches, ops: seq<Op>, n: NodeId, k: Key, from: Option<NodeId>)
    requires InitialCaches(c) && Enabled(c, ops) && n in After(c, ops) && Responds(After(c, ops), n, k, from)
    ensures var found := GetOn(After(c, ops), n, k, from).1; var last := LastAfter(map[], ops);
            && (found.Some? <==> exists m :: m in After(c, ops) && HasCopy(After(c, ops)[m], k))
            && (found.Some? ==> k in last && found.value == last[k])
  {
    hide CachesInv, After, Enabled, GetOn, HasCopy;
    InitialHolds(c);
    RunKeeps(c, map[], ops);
    GetKeeps(After(c, ops), LastAfter(map[], ops), n, k, from);
  }

  /** Right after a put, a read on whatever node returns what was put; right after a delete, nothing. */
  lemma WritesAreRead(c: Caches, last: map<Key, Value>, n: NodeId, k: Key, v: Value, m: NodeId, from: Option<NodeId>)
    requires CachesInv(c, last) && n in c && m in c
    ensures Responds(PutOn(c, n, k, v), m, k, from) ==> GetOn(PutOn(c, n, k, v), m, k, from).1 == Some(v)
    ensures Responds(DeleteOn(c, n, k), m, k, from) ==> GetOn(DeleteOn(c, n, k), m, k, from).1 == None
  {
    hide CachesInv, GetOn, HasCopy, Written, Erased, Invalidated;
    PutKeeps(c, last, n, k, v);
    DeleteKeeps(c, last, n, k);
    if Responds(PutOn(c, n, k, v), m, k, from) {
      GetKeeps(PutOn(c, n, k, v), last[k := v], m, k, from);
    }
    if Responds(DeleteOn(c, n, k), m, k, from) {
      GetKeeps(DeleteOn(c, n, k), last - {k}, m, k, from);
    }
  }
}
