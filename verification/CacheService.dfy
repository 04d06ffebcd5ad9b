/** The cache node as the program runs it, with its policy object changed in place. */
module CacheService {
  import opened Options
  import opened Quorums
  import opened OrderedDicts
  import opened CachePolicy
  import opened CacheStates

  class LRUPolicy {
    var order: seq<Key>

    constructor ()
      ensures order == []
    {
      order := [];
    }

    method Access(k: Key)
      modifies this
      ensures LRU(order) == Accessed(LRU(old(order)), k)
    {
      if k in order {
        order := Without(order, k) + [k];
      }
    }

    method Insert(k: Key)
      modifies this
      ensures LRU(order) == Inserted(LRU(old(order)), k)
    {
      order := Without(order, k) + [k];
    }

    method Remove(k: Key)
      modifies this
      ensures LRU(order) == Removed(LRU(old(order)), k)
    {
      order := Without(order, k);
    }

    method Evict() returns (victim: Option<Key>)
      modifies this
      ensures victim == Victim(LRU(old(order))) && LRU(order) == Evicted(LRU(old(order)))
    {
      if order == [] {
        return None;
      }
      victim := Some(order[0]);
      order := order[1..];
    }
  }

  class LFUPolicy {
    var counts: Dict<Key, nat>

    constructor ()
      ensures counts == []
    {
      counts := [];
    }

    method Access(k: Key)
      modifies this
      ensures LFU(counts) == Accessed(LFU(old(counts)), k)
    {
      var n := if Has(counts, k) then Lookup(counts, k) else 0;
      counts := Put(counts, k, n + 1);
    }

    method Insert(k: Key)
      modifies this
      ensures LFU(counts) == Inserted(LFU(old(counts)), k)
    {
      if !Has(counts, k) {
        counts := Put(counts, k, 1);
      }
    }

    method Remove(k: Key)
      modifies this
      ensures LFU(counts) == Removed(LFU(old(counts)), k)
    {
      counts := Dropped(counts, k);
    }

    /** The first of the keys with the smallest count. */
    method Evict() returns (victim: Option<Key>)
      modifies this
      ensures victim == Victim(LFU(old(counts))) && LFU(counts) == Evicted(LFU(old(counts)))
    {
      if counts == [] {
        return None;
      }
      var least, i := 0, 1;
      while i < |counts|
        invariant least < i <= |counts|
        invariant forall j | 0 <= j < i :: counts[least].1 <= counts[j].1
        invariant forall j | 0 <= j < least :: counts[least].1 < counts[j].1
      {
        if counts[i].1 < counts[least].1 {
          least := i;
        }
        i := i + 1;
      }
      var k := counts[least].0;
      counts := Dropped(counts, k);
      return Some(k);
    }
  }

  datatype PolicyObject = LRUObject(lru: LRUPolicy) | LFUObject(lfu: LFUPolicy) {
    function Objects(): set<object> {
      match this
      case LRUObject(lru) => {lru}
      case LFUObject(lfu) => {lfu}
    }

    function Contents(): Policy
      reads Objects()
    {
      match this
      case LRUObject(lru) => LRU(lru.order)
      case LFUObject(lfu) => LFU(lfu.counts)
    }

    method Access(k: Key)
      modifies Objects()
      ensures Contents() == Accessed(old(Contents()), k)
    {
      match this {
        case LRUObject(lru) => lru.Access(k);
        case LFUObject(lfu) => lfu.Access(k);
      }
    }

    method Insert(k: Key)
      modifies Objects()
      ensures Contents() == Inserted(old(Contents()), k)
    {
      match this {
        case LRUObject(lru) => lru.Insert(k);
        case LFUObject(lfu) => lfu.Insert(k);
      }
    }

    method Remove(k: Key)
      modifies Objects()
      ensures Contents() == Removed(old(Contents()), k)
    {
      match this {
        case LRUObject(lru) => lru.Remove(k);
        case LFUObject(lfu) => lfu.Remove(k);
      }
    }

    method Evict() returns (victim: Option<Key>)
      modifies Objects()
      ensures victim == Victim(old(Contents())) && Contents() == Evicted(old(Contents()))
    {
      match this {
        case LRUObject(lru) => victim := lru.Evict();
        case LFUObject(lfu) => victim := lfu.Evict();
      }
    }
  }

  class CacheNode {
    const nodeId: NodeId
    const peers: seq<NodeId>
    const maxSize: int
    const policy: PolicyObject
    var cache: map<Key, Line>
    var pendingReads: map<Key, Future>       // the latest future of every key asked for
    var results: map<Future, Response>       // the futures that have got an answer
    var futures: nat                         // how many there have been

    ghost function State(): CacheState
      reads this, policy.Objects()
    {
      CacheState(maxSize, cache, policy.Contents())
    }

    ghost function Whole(): Member
      reads this, policy.Objects()
    {
      Member(State(), pendingReads, results, futures)
    }

    constructor (nodeId: NodeId, peers: seq<NodeId>, maxSize: int, lfu: bool)
      ensures this.nodeId == nodeId && this.peers == peers && this.maxSize == maxSize && fresh(policy.Objects())
      ensures State() == CacheState(maxSize, map[], if lfu then LFU([]) else LRU([]))
      ensures pendingReads == map[] && results == map[]
    {
      this.nodeId, this.peers, this.maxSize := nodeId, peers, maxSize;
      cache, pendingReads, results, futures := map[], map[], map[], 0;
      if lfu {
        var p := new LFUPolicy();
        policy := LFUObject(p);
      } else {
        var p := new LRUPolicy();
        policy := LRUObject(p);
      }
    }

    method EvictLine() returns (victim: Option<Key>)
      modifies this`cache, policy.Objects()
      ensures victim == Victim(old(State()).policy) && State() == OneOut(old(State()))
    {
      hide Victim, Evicted;
      EvictedShrinks(State().policy);
      victim := policy.Evict();
      if victim.Some? {
        cache := cache - {victim.value};
      }
    }

    method EnsureCapacity()
      modifies this`cache, policy.Objects()
      ensures State() == WithRoom(old(State()))
    {
      hide WithRoom, OneOut, Victim, Size;
      while |cache| >= maxSize
        invariant WithRoom(State()) == WithRoom(old(State()))
        decreases Size(State().policy)
      {
        RoomStep(State());
        OneOutShrinks(State());
        var victim := EvictLine();
        if victim.None? {
          break;
        }
      }
      RoomStep(State());
    }

    /** First half of a read: a hit answers at once, a miss waits for a future while the peers are asked. */
    method GetBegin(k: Key) returns (found: Option<Value>, read: Future, packets: seq<Packet>)
      modifies this`pendingReads, this`futures, policy.Objects()
      ensures (Whole(), found) == Began(old(Whole()), k) && read == Future(k, old(futures))
      ensures packets == if found.Some? then [] else Fetches(nodeId, peers, k)
    {
      packets, read := [], Future(k, futures);
      if k in cache && cache[k].state != Invalid {
        policy.Access(k);
        return Some(cache[k].value), read, packets;
      }
      pendingReads := pendingReads[k := read];
      futures := futures + 1;
      for i := 0 to |peers|
        invariant packets == Fetches(nodeId, peers[..i], k)
      {
        packets := packets + [Fetch(nodeId, peers[i], k)];
      }
      assert peers[..|peers|] == peers;
      return None, read, packets;
    }

    /** Only the first answer counts, and it goes to the latest read of the key. */
    method HandleResponse(m: Packet)
      requires m.Reply?
      modifies this`pendingReads, this`results
      ensures Whole() == Replied(old(Whole()), m.key, m.response)
    {
      if m.key in pendingReads {
        results := results[pendingReads[m.key] := m.response];
        pendingReads := pendingReads - {m.key};
      }
    }

    /** Second half of a read that missed, when its future has an answer or the wait is over. */
    method GetEnd(read: Future) returns (found: Option<Value>)
      modifies this`cache, this`pendingReads, this`results, policy.Objects()
      ensures (Whole(), found) == Ended(old(Whole()), read)
    {
      hide WithRoom, Inserted;
      if read !in results {
        pendingReads := pendingReads - {read.key};
        return None;
      }
      var k, r := read.key, results[read];
      results := results - {read};
      EnsureCapacity();
      cache := cache[k := Line(r.value, if r.shared then Shared else Exclusive, r.version)];
      policy.Insert(k);
      return Some(r.value);
    }

    method BroadcastInvalidate(k: Key) returns (packets: seq<Packet>)
      ensures packets == Invalidations(nodeId, peers, k)
    {
      packets := [];
      for i := 0 to |peers|
        invariant packets == Invalidations(nodeId, peers[..i], k)
      {
        packets := packets + [Invalidate(nodeId, peers[i], k)];
      }
      assert peers[..|peers|] == peers;
    }

    method Put(k: Key, v: Value) returns (packets: seq<Packet>)
      modifies this`cache, policy.Objects()
      ensures State() == Written(old(State()), k, v)
      ensures packets == Invalidations(nodeId, peers, k)
    {
      hide WithRoom, Accessed, Inserted, Invalidations;
      packets := BroadcastInvalidate(k);
      if k !in cache {
        EnsureCapacity();
        cache := cache[k := Line(v, Modified, 1)];
        policy.Insert(k);
      } else {
        cache := cache[k := Line(v, Modified, cache[k].version + 1)];
        policy.Access(k);
      }
    }

    method Delete(k: Key) returns (existed: bool, packets: seq<Packet>)
      modifies this`cache, policy.Objects()
      ensures State() == Erased(old(State()), k) && existed == (k in old(cache))
      ensures packets == Invalidations(nodeId, peers, k)
    {
      hide Removed, Invalidations;
      packets := BroadcastInvalidate(k);
      existed := k in cache;
      cache := cache - {k};
      policy.Remove(k);
    }

    method HandleFetch(m: Packet) returns (reply: seq<Packet>)
      requires m.Fetch?
      modifies this`cache
      ensures State() == Answered(old(State()), m.key).0
      ensures var response := Answered(old(State()), m.key).1;
              reply == if response.Some? then [Reply(nodeId, m.src, m.key, response.value)] else []
    {
      var k := m.key;
      if k !in cache || cache[k].state == Invalid {
        return [];
      }
      var line := cache[k];
      cache := cache[k := line.(state := Shared)];
      return [Reply(nodeId, m.src, k, Response(line.value, line.version, line.state == Shared || line.state == Modified))];
    }

    method HandleInvalidate(m: Packet)
      requires m.Invalidate?
      modifies this`cache, policy.Objects()
      ensures State() == Invalidated(old(State()), m.key)
    {
      var k := m.key;
      if k in cache {
        cache := cache[k := cache[k].(state := Invalid)];
        policy.Remove(k);
        if cache[k].state != Modified {
          assert cache - {k} == old(cache) - {k};
          cache := cache - {k};
        }
      }
    }
  }
}
