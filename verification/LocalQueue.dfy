/** What one queue node does to its messages, as a value: queues, messages in flight, replicas, statistics. */
module LocalQueue {
  import opened Options
  import opened OrderedDicts
  import opened RingOrder

  type MsgId = nat
  type Name = string

  datatype Message = Message(
    id: MsgId,
    queue: Name,
    payload: string,
    replicas: seq<Id>,
    deliveries: nat,
    hiddenUntil: int,
    primary: Option<Id>)

  datatype Local = Local(
    queues: map<Name, seq<Message>>,
    inflight: Dict<MsgId, Message>,
    replicas: Dict<MsgId, Message>,
    dequeued: nat,
    acked: nat,
    redelivered: nat)

  const EMPTY := Local(map[], [], [], 0, 0, 0)

  function QueueOf(queues: map<Name, seq<Message>>, name: Name): seq<Message> {
    if name in queues then queues[name] else []
  }

  function Appended(queues: map<Name, seq<Message>>, m: Message): map<Name, seq<Message>> {
    queues[m.queue := QueueOf(queues, m.queue) + [m]]
  }

  function Stored(s: Local, m: Message): Local {
    s.(queues := Appended(s.queues, m))
  }

  function Replicated(s: Local, m: Message): Local {
    s.(replicas := Put(s.replicas, m.id, m))
  }

  // ---------- delivery ----------

  /** The first message that may be delivered now. */
  function FirstVisible(q: seq<Message>, now: int): (k: nat)
    ensures k <= |q|
    ensures forall i | 0 <= i < k :: q[i].hiddenUntil > now
    ensures k < |q| ==> q[k].hiddenUntil <= now
  {
    if q == [] || q[0].hiddenUntil <= now then 0
    else
      var k := FirstVisible(q[1..], now);
      assert forall i | 1 <= i < k + 1 :: q[i] == q[1..][i - 1] && q[1..][i - 1].hiddenUntil > now;
      k + 1
  }

  function Delivered(m: Message, until: int): Message {
    m.(deliveries := m.deliveries + 1, hiddenUntil := until)
  }

  /** The queue after its first i messages have gone from the left end to the right. */
  function Rotated(q: seq<Message>, i: nat): seq<Message>
    requires i <= |q|
  {
    q[i..] + q[..i]
  }

  lemma RotatedStep(q: seq<Message>, i: nat)
    requires i < |q|
    ensures |Rotated(q, i)| == |q| && Rotated(q, i)[0] == q[i]
    ensures Rotated(q, i)[1..] == q[i + 1..] + q[..i]
    ensures Rotated(q, i)[1..] + [q[i]] == Rotated(q, i + 1)
  {
  }

  lemma RotatedEnds(q: seq<Message>)
    ensures Rotated(q, 0) == q && Rotated(q, |q|) == q
  {
  }

  /** A delivery takes one message out and leaves the rest in cyclic order; otherwise nothing changes. */
  function Popped(s: Local, name: Name, now: int, timeout: int): (Local, Option<Message>) {
    var q := QueueOf(s.queues, name);
    var k := FirstVisible(q, now);
    if k == |q| then (s, None)
    else
      var m := Delivered(q[k], now + timeout);
      (s.(queues := s.queues[name := q[k + 1..] + q[..k]], inflight := Put(s.inflight, m.id, m), dequeued := s.dequeued + 1),
       Some(m))
  }

  // ---------- expiry ----------

  /** One message goes back from flight into its queue. */
  function Returned(s: Local, e: (MsgId, Message)): Local {
    s.(inflight := Dropped(s.inflight, e.0),
       queues := Appended(s.queues, e.1.(hiddenUntil := 0)),
       redelivered := s.redelivered + 1)
  }

  function AllReturned(s: Local, items: Dict<MsgId, Message>, now: int): Local {
    if items == [] then s
    else
      var e := items[|items| - 1];
      var s1 := AllReturned(s, items[..|items| - 1], now);
      if e.1.hiddenUntil < now then Returned(s1, e) else s1
  }

  function Expired(s: Local, now: int): Local {
    AllReturned(s, s.inflight, now)
  }

  // ---------- failure of a peer ----------

  /** A replica becomes a message of this node's own. */
  function Promoted(s: Local, e: (MsgId, Message), self: Id): Local {
    s.(replicas := Dropped(s.replicas, e.0), queues := Appended(s.queues, e.1.(primary := Some(self))))
  }

  function AllPromoted(s: Local, items: Dict<MsgId, Message>, peer: Id, self: Id): Local {
    if items == [] then s
    else
      var e := items[|items| - 1];
      var s1 := AllPromoted(s, items[..|items| - 1], peer, self);
      if e.1.primary == Some(peer) then Promoted(s1, e, self) else s1
  }

  function PeerFailed(s: Local, peer: Id, self: Id): Local {
    AllPromoted(s, s.replicas, peer, self)
  }

  // ---------- acknowledgement ----------

  function Acked(s: Local, id: MsgId, self: Id): (Local, bool) {
    if !Has(s.inflight, id) then (s, false)
    else
      var m := Lookup(s.inflight, id);
      (s.(inflight := Dropped(s.inflight, id),
          replicas := if self in m.replicas then Dropped(s.replicas, id) else s.replicas,
          acked := s.acked + 1),
       true)
  }

  function AckNoticed(s: Local, id: MsgId): Local {
    s.(replicas := Dropped(s.replicas, id))
  }

  /** The nodes told about an acknowledgement. */
  function Others(ids: seq<Id>, self: Id): seq<Id> {
    if ids == [] then []
    else
      var o := Others(ids[..|ids| - 1], self);
      if ids[|ids| - 1] == self then o else o + [ids[|ids| - 1]]
  }

  // ---------- placement of a new message ----------

  datatype Packet = EnqueueAt(node: Id, message: Message) | ReplicateAt(node: Id, message: Message)

  /** The first node of the list queues the message, the others keep a replica; packets go to the others. */
  function Placed(s: Local, nodes: seq<Id>, m: Message, self: Id): (Local, seq<Packet>)
    requires nodes != []
  {
    var first := if nodes[0] == self then (Stored(s, m), []) else (s, [EnqueueAt(nodes[0], m)]);
    ReplicasPlaced(first.0, first.1, nodes[1..], m, self)
  }

  function ReplicasPlaced(s: Local, packets: seq<Packet>, replicas: seq<Id>, m: Message, self: Id): (Local, seq<Packet>)
    decreases |replicas|
  {
    if replicas == [] then (s, packets)
    else if replicas[0] == self then ReplicasPlaced(Replicated(s, m), packets, replicas[1..], m, self)
    else ReplicasPlaced(s, packets + [ReplicateAt(replicas[0], m)], replicas[1..], m, self)
  }
}
