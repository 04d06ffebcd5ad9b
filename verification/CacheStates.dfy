/** One cache node as a value, and the three operations of clients on a cluster of them, each done as a whole. */
module CacheStates {
  import opened Options
  import opened Quorums
  import opened CachePolicy

  type Value = int

  datatype LineState = Modified | Exclusive | Shared | Invalid

  datatype Line = Line(value: Value, state: LineState, version: nat)

  datatype CacheState = CacheState(maxSize: int, lines: map<Key, Line>, policy: Policy)

  /** What a peer answers to a fetch; `shared` tells whether its copy was modified or already shared. */
  datatype Response = Response(value: Value, version: nat, shared: bool)

  /** What nodes send to one another. */
  datatype Packet =
    | Fetch(src: NodeId, dst: NodeId, key: Key)
    | Reply(src: NodeId, dst: NodeId, key: Key, response: Response)
    | Invalidate(src: NodeId, dst: NodeId, key: Key)

  function Fetches(self: NodeId, peers: seq<NodeId>, k: Key): seq<Packet> {
    seq(|peers|, i requires 0 <= i < |peers| => Fetch(self, peers[i], k))
  }

  function Invalidations(self: NodeId, peers: seq<NodeId>, k: Key): seq<Packet> {
    seq(|peers|, i requires 0 <= i < |peers| => Invalidate(self, peers[i], k))
  }

  predicate HasCopy(s: CacheState, k: Key) {
    k in s.lines && s.lines[k].state != Invalid
  }

  lemma EvictedShrinks(p: Policy)
    ensures Victim(p).Some? ==> Size(Evicted(p)) < Size(p)
    ensures Victim(p).None? ==> Evicted(p) == p
  {
  }

  /** Victims leave until one more line fits, or nobody is left to evict. */
  function WithRoom(s: CacheState): CacheState
    decreases Size(s.policy)
  {
    if |s.lines| < s.maxSize then s
    else
      match Victim(s.policy)
      case None => s
      case Some(k) =>
        EvictedShrinks(s.policy);
        WithRoom(s.(lines := s.lines - {k}, policy := Evicted(s.policy)))
  }

  /** One turn of the eviction loop. */
  function OneOut(s: CacheState): CacheState {
    match Victim(s.policy)
    case None => s
    case Some(k) => s.(lines := s.lines - {k}, policy := Evicted(s.policy))
  }

  lemma RoomStep(s: CacheState)
    ensures |s.lines| < s.maxSize || Victim(s.policy).None? ==> WithRoom(s) == s
    ensures |s.lines| >= s.maxSize ==> WithRoom(s) == WithRoom(OneOut(s))
  {
    hide Victim, Evicted;
  }

  lemma OneOutShrinks(s: CacheState)
    ensures Victim(s.policy).Some? ==> Size(OneOut(s).policy) < Size(s.policy)
    ensures Victim(s.policy).None? ==> OneOut(s) == s
  {
    EvictedShrinks(s.policy);
  }

  function Hit(s: CacheState, k: Key): (CacheState, Option<Value>) {
    if HasCopy(s, k) then (s.(policy := Accessed(s.policy, k)), Some(s.lines[k].value)) else (s, None)
  }

  /** A fetched copy comes in. */
  function Filled(s: CacheState, k: Key, r: Response): CacheState {
    var s1 := WithRoom(s);
    s1.(lines := s1.lines[k := Line(r.value, if r.shared then Shared else Exclusive, r.version)],
        policy := Inserted(s1.policy, k))
  }

  function Written(s: CacheState, k: Key, v: Value): CacheState {
    if k in s.lines then
      s.(lines := s.lines[k := Line(v, Modified, s.lines[k].version + 1)], policy := Accessed(s.policy, k))
    else
      var s1 := WithRoom(s);
      s1.(lines := s1.lines[k := Line(v, Modified, 1)], policy := Inserted(s1.policy, k))
  }

  function Erased(s: CacheState, k: Key): CacheState {
    s.(lines := s.lines - {k}, policy := Removed(s.policy, k))
  }

  /** A fetch from a peer: a copy becomes shared and is sent. */
  function Answered(s: CacheState, k: Key): (CacheState, Option<Response>) {
    if !HasCopy(s, k) then (s, None)
    else
      var line := s.lines[k];
      (s.(lines := s.lines[k := line.(state := Shared)]),
       Some(Response(line.value, line.version, line.state == Shared || line.state == Modified)))
  }

  /** An invalidation from a peer: the line goes, whatever its state was. */
  function Invalidated(s: CacheState, k: Key): CacheState {
    if k in s.lines then Erased(s, k) else s
  }

  // ---------- a node and its unfinished reads ----------

  /** What a read that missed waits for; reads of one key are told apart by their number. */
  datatype Future = Future(key: Key, number: nat)

  /** A cache, the latest future of every key asked for, and the futures that have got an answer. */
  datatype Member = Member(cache: CacheState, pending: map<Key, Future>, results: map<Future, Response>, next: nat)

  /** A hit answers at once, a miss waits for a future of its own. */
  function Began(m: Member, k: Key): (Member, Option<Value>) {
    var (s, found) := Hit(m.cache, k);
    if found.Some? then (m.(cache := s), found)
    else (m.(pending := m.pending[k := Future(k, m.next)], next := m.next + 1), None)
  }

  /** An answer goes to whichever future is the key's latest, and to it only once. */
  function Replied(m: Member, k: Key, r: Response): Member {
    if k in m.pending then m.(pending := m.pending - {k}, results := m.results[m.pending[k] := r]) else m
  }

  /** The read goes on with its answer, or gives up and takes the key's latest future with it. */
  function Ended(m: Member, f: Future): (Member, Option<Value>) {
    if f in m.results then
      var r := m.results[f];
      (m.(cache := Filled(m.cache, f.key, r), results := m.results - {f}), Some(r.value))
    else (m.(pending := m.pending - {f.key}), None)
  }

  // ---------- whole operations ----------

  type Caches = map<NodeId, CacheState>

  /** The answer that arrives first comes from a peer with a copy; there is none only if no peer has one. */
  predicate Responds(c: Caches, n: NodeId, k: Key, from: Option<NodeId>) {
    match from
    case Some(p) => p in c && p != n && HasCopy(c[p], k)
    case None => forall p | p in c && p != n :: !HasCopy(c[p], k)
  }

  /** All peers with a copy now share it. */
  function Fetched(c: Caches, n: NodeId, k: Key): Caches {
    map m | m in c :: if m == n then c[m] else Answered(c[m], k).0
  }

  function GetOn(c: Caches, n: NodeId, k: Key, from: Option<NodeId>): (Caches, Option<Value>)
    requires n in c && Responds(c, n, k, from)
  {
    var (s, found) := Hit(c[n], k);
    if found.Some? then (c[n := s], found)
    else
      match from
      case None => (Fetched(c, n, k), None)
      case Some(p) =>
        var r := Answered(c[p], k).1.value;
        (Fetched(c, n, k)[n := Filled(s, k, r)], Some(r.value))
  }

  function PutOn(c: Caches, n: NodeId, k: Key, v: Value): Caches {
    map m | m in c :: if m == n then Written(c[m], k, v) else Invalidated(c[m], k)
  }

  function DeleteOn(c: Caches, n: NodeId, k: Key): Caches {
    map m | m in c :: if m == n then Erased(c[m], k) else Invalidated(c[m], k)
  }
}
