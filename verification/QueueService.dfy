/** The queue node as the program runs it: queues, dictionaries and statistics changed in place. */
module QueueService {
  import opened Options
  import opened OrderedDicts
  import opened RingOrder
  import opened HashRing
  import opened LocalQueue

  class QueueNode {
    const nodeId: Id
    const peers: seq<Id>
    const visibilityTimeout: int
    const replicationFactor: int
    const ring: ConsistentHashRing
    var queues: map<Name, seq<Message>>
    var inflight: Dict<MsgId, Message>
    var replicas: Dict<MsgId, Message>
    var dequeued: nat
    var acked: nat
    var redelivered: nat
    var enqueued: nat
    var replicated: nat

    ghost function State(): Local
      reads this
    {
      Local(queues, inflight, replicas, dequeued, acked, redelivered)
    }

    /** The node adds its peers to the ring, then itself. */
    constructor (nodeId: Id, peers: seq<Id>, hash: Hash, virtualNodes: nat, replicationFactor: int, visibilityTimeout: int)
      ensures State() == EMPTY && fresh(ring)
      ensures enqueued == replicated == 0
      ensures this.nodeId == nodeId && this.peers == peers
      ensures this.visibilityTimeout == visibilityTimeout && this.replicationFactor == replicationFactor
      ensures ring.Valid() && ring.nodes == (set x | x in peers) + {nodeId}
    {
      hide IsRing;
      this.nodeId, this.peers := nodeId, peers;
      this.visibilityTimeout, this.replicationFactor := visibilityTimeout, replicationFactor;
      queues, inflight, replicas := map[], [], [];
      dequeued, acked, redelivered, enqueued, replicated := 0, 0, 0, 0, 0;
      ring := new ConsistentHashRing(hash, virtualNodes);
      new;
      for i := 0 to |peers|
        invariant State() == EMPTY && enqueued == replicated == 0 && fresh(ring)
        invariant ring.Valid() && ring.nodes == set x | x in peers[..i]
      {
        ring.AddNode(peers[i]);
      }
      assert peers[..|peers|] == peers;
      ring.AddNode(nodeId);
    }

    method StoreLocal(m: Message)
      modifies this`queues
      ensures State() == Stored(old(State()), m)
    {
      if m.queue !in queues {
        queues := queues[m.queue := []];
      }
      queues := queues[m.queue := queues[m.queue] + [m]];
      assert queues == Appended(old(queues), m);
    }

    method HandleReplicate(m: Message)
      modifies this`replicas
      ensures State() == Replicated(old(State()), m)
    {
      replicas := Put(replicas, m.id, m);
    }

    /** Takes messages from the left, putting those not yet visible back at the right. */
    method PopLocal(name: Name, now: int) returns (found: Option<Message>)
      modifies this`queues, this`inflight, this`dequeued
      ensures (State(), found) == Popped(old(State()), name, now, visibilityTimeout)
    {
      hide Rotated, Put;
      if name !in queues || queues[name] == [] {
        return None;
      }
      var q := queues[name];
      RotatedEnds(q);
      for i := 0 to |q|
        invariant queues == old(queues)[name := Rotated(q, i)]
        invariant forall j | 0 <= j < i :: q[j].hiddenUntil > now
        invariant inflight == old(inflight) && dequeued == old(dequeued)
      {
        RotatedStep(q, i);
        var m := queues[name][0];
        var rest := queues[name][1..];
        if m.hiddenUntil > now {
          queues := queues[name := rest + [m]];
        } else {
          assert FirstVisible(q, now) == i;
          assert queues[name := rest] == old(queues)[name := rest];
          queues := queues[name := rest];
          m := Delivered(m, now + visibilityTimeout);
          inflight := Put(inflight, m.id, m);
          dequeued := dequeued + 1;
          return Some(m);
        }
      }
      return None;
    }

    method RequeueExpired(now: int)
      modifies this`queues, this`inflight, this`redelivered
      ensures State() == Expired(old(State()), now)
    {
      var items := inflight;
      for i := 0 to |items|
        invariant State() == AllReturned(old(State()), items[..i], now)
      {
        var (id, m) := items[i];
        assert items[..i + 1][..i] == items[..i];
        if m.hiddenUntil < now {
          inflight := Dropped(inflight, id);
          StoreLocal(m.(hiddenUntil := 0));
          redelivered := redelivered + 1;
        }
      }
      assert items[..|items|] == items;
    }

    method OnPeerFailure(peer: Id)
      modifies this`queues, this`replicas
      ensures State() == PeerFailed(old(State()), peer, nodeId)
    {
      var items := replicas;
      for i := 0 to |items|
        invariant State() == AllPromoted(old(State()), items[..i], peer, nodeId)
      {
        var (id, m) := items[i];
        assert items[..i + 1][..i] == items[..i];
        if m.primary == Some(peer) {
          StoreLocal(m.(primary := Some(nodeId)));
          replicas := Dropped(replicas, id);
        }
      }
      assert items[..|items|] == items;
    }

    /** Forgets a delivered message; `told` are the replica nodes that get a notice. */
    method Ack(id: MsgId) returns (ok: bool, told: seq<Id>)
      requires Proper(replicas)
      modifies this`inflight, this`replicas, this`acked
      ensures (State(), ok) == Acked(old(State()), id, nodeId)
      ensures told == if ok then Others(Lookup(old(inflight), id).replicas, nodeId) else []
    {
      hide Dropped;
      told := [];
      if !Has(inflight, id) {
        return false, told;
      }
      var m := Lookup(inflight, id);
      inflight := Dropped(inflight, id);
      acked := acked + 1;
      for i := 0 to |m.replicas|
        invariant told == Others(m.replicas[..i], nodeId)
        invariant replicas == if nodeId in m.replicas[..i] then Dropped(old(replicas), id) else old(replicas)
        invariant inflight == Dropped(old(inflight), id) && acked == old(acked) + 1
      {
        assert m.replicas[..i + 1][..i] == m.replicas[..i];
        assert m.replicas[..i + 1] == m.replicas[..i] + [m.replicas[i]];
        if m.replicas[i] != nodeId {
          told := told + [m.replicas[i]];
        } else {
          DroppedTwice(old(replicas), id);
          replicas := Dropped(replicas, id);
        }
      }
      assert m.replicas[..|m.replicas|] == m.replicas;
      return true, told;
    }

    method HandleAck(id: MsgId)
      modifies this`replicas
      ensures State() == AckNoticed(old(State()), id)
    {
      replicas := Dropped(replicas, id);
    }

    /** A client's request: expired messages come back first, then the local queue is asked; `asked` are the peers asked after that. */
    method Dequeue(name: Name, now: int) returns (found: Option<Message>, asked: seq<Id>)
      modifies this`queues, this`inflight, this`dequeued, this`redelivered
      ensures (State(), found) == Popped(Expired(old(State()), now), name, now, visibilityTimeout)
      ensures asked == if found.Some? then [] else peers
    {
      asked := [];
      RequeueExpired(now);
      found := PopLocal(name, now);
      if found.Some? {
        return;
      }
      for i := 0 to |peers|
        invariant asked == peers[..i]
      {
        asked := asked + [peers[i]];
      }
    }

    /** A peer's request, answered from the local queue only. */
    method HandleDequeue(name: Name, now: int) returns (answer: Option<Message>)
      modifies this`queues, this`inflight, this`dequeued
      ensures (State(), answer) == Popped(old(State()), name, now, visibilityTimeout)
    {
      answer := PopLocal(name, now);
    }

    /** Places a new message on the nodes the ring names; false if the ring is empty. */
    method Enqueue(id: MsgId, queue: Name, payload: string, key: string) returns (ok: bool, packets: seq<Packet>)
      requires ring.Valid()
      modifies this`queues, this`replicas, this`enqueued, this`replicated
      ensures var nodes := Replicas(ring.ring, ring.hash(key), replicationFactor);
              if nodes == [] then !ok && packets == [] && State() == old(State())
              else ok && (State(), packets) == Placed(old(State()), nodes,
                Message(id, queue, payload, nodes[1..], 0, 0, Some(nodes[0])), nodeId)
      ensures enqueued == old(enqueued) + if ok then 1 else 0
      ensures replicated == old(replicated) + if ok then |Replicas(ring.ring, ring.hash(key), replicationFactor)| - 1 else 0
    {
      hide IsRing, Replicas, Put, Appended;
      packets := [];
      var nodes := ring.GetNNodes(key, replicationFactor);
      if nodes == [] {
        return false, packets;
      }
      var rest := nodes[1..];
      var m := Message(id, queue, payload, rest, 0, 0, Some(nodes[0]));
      if nodes[0] == nodeId {
        StoreLocal(m);
      } else {
        packets := packets + [EnqueueAt(nodes[0], m)];
        assert packets == [EnqueueAt(nodes[0], m)];
      }
      assert rest[0..] == nodes[1..];
      for i := 0 to |rest|
        invariant enqueued == old(enqueued) && replicated == old(replicated)
        invariant ReplicasPlaced(State(), packets, rest[i..], m, nodeId) == Placed(old(State()), nodes, m, nodeId)
      {
        assert rest[i..][1..] == rest[i + 1..];
        if rest[i] == nodeId {
          HandleReplicate(m);
        } else {
          packets := packets + [ReplicateAt(rest[i], m)];
        }
      }
      enqueued, replicated := enqueued + 1, replicated + |rest|;
      return true, packets;
    }
  }

  lemma DroppedTwice(d: Dict<MsgId, Message>, id: MsgId)
    requires Proper(d)
    ensures Dropped(Dropped(d, id), id) == Dropped(d, id)
  {
    DroppedIs(d, id);
  }
}
