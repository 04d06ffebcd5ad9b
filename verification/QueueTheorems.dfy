/** What a queue node promises over any interleaving of its operations: no loss without an acknowledgement. */
module QueueTheorems {
  import opened Options
  import opened OrderedDicts
  import opened RingOrder
  import opened LocalQueue

  // ---------- where messages are ----------

  /** What a message is, apart from the bookkeeping of its delivery. */
  datatype Content = Content(queue: Name, payload: string, replicas: seq<Id>)

  predicate Fits(content: MsgId -> Content, m: Message) {
    Content(m.queue, m.payload, m.replicas) == content(m.id)
  }

  predicate At(queues: map<Name, seq<Message>>, name: Name, i: int, id: MsgId) {
    name in queues && 0 <= i < |queues[name]| && queues[name][i].id == id
  }

  ghost predicate Present(s: Local, id: MsgId) {
    Has(s.inflight, id) || exists name, i :: At(s.queues, name, i, id)
  }

  ghost predicate QueuesInv(content: MsgId -> Content, queues: map<Name, seq<Message>>) {
    forall name, i | name in queues && 0 <= i < |queues[name]| :: queues[name][i].queue == name && Fits(content, queues[name][i])
  }

  ghost predicate DictInv(content: MsgId -> Content, d: Dict<MsgId, Message>) {
    Proper(d) && forall e | e in d :: e.1.id == e.0 && Fits(content, e.1)
  }

  ghost predicate LocalInv(content: MsgId -> Content, s: Local) {
    QueuesInv(content, s.queues) && DictInv(content, s.inflight) && DictInv(content, s.replicas)
  }

  /** No id is queued twice, or queued while in flight. */
  ghost predicate Unique(s: Local) {
    && (forall id, name, i, name', j | At(s.queues, name, i, id) && At(s.queues, name', j, id) :: name == name' && i == j)
    && (forall id, name, i | At(s.queues, name, i, id) :: !Has(s.inflight, id))
  }

  /** Deliveries not yet accounted for by an acknowledgement, a redelivery, or a message in flight. */
  function Balance(s: Local): int {
    s.dequeued - s.acked - s.redelivered - |s.inflight|
  }

  // ---------- single moves ----------

  lemma AtAppended(queues: map<Name, seq<Message>>, m: Message)
    ensures forall name, i, id :: At(Appended(queues, m), name, i, id)
              <==> At(queues, name, i, id) || (name == m.queue && i == |QueueOf(queues, m.queue)| && id == m.id)
  {
  }

  lemma AppendedInv(content: MsgId -> Content, queues: map<Name, seq<Message>>, m: Message)
    requires QueuesInv(content, queues) && Fits(content, m)
    ensures QueuesInv(content, Appended(queues, m))
  {
  }

  lemma StoreMove(content: MsgId -> Content, s: Local, m: Message)
    requires LocalInv(content, s) && Fits(content, m)
    ensures LocalInv(content, Stored(s, m)) && Balance(Stored(s, m)) == Balance(s)
    ensures forall id :: Present(Stored(s, m), id) <==> Present(s, id) || id == m.id
    ensures Unique(s) && !Present(s, m.id) ==> Unique(Stored(s, m))
  {
    hide QueuesInv, DictInv, At, Appended;
    AtAppended(s.queues, m);
    AppendedInv(content, s.queues, m);
    assert At(Appended(s.queues, m), m.queue, |QueueOf(s.queues, m.queue)|, m.id);
  }

  lemma PutInv(content: MsgId -> Content, d: Dict<MsgId, Message>, m: Message)
    requires DictInv(content, d) && Fits(content, m)
    ensures DictInv(content, Put(d, m.id, m))
  {
    hide Put;
    PutIs(d, m.id, m);
  }

  lemma DropInv(content: MsgId -> Content, d: Dict<MsgId, Message>, id: MsgId)
    requires DictInv(content, d)
    ensures DictInv(content, Dropped(d, id))
  {
    hide Dropped;
    DroppedIs(d, id);
  }

  /** Taking message k out of a queue and turning the rest around it. */
  lemma AtTaken(queues: map<Name, seq<Message>>, name: Name, k: nat)
    requires name in queues && k < |queues[name]|
    ensures var q := queues[name];
            var queues' := queues[name := q[k + 1..] + q[..k]];
            && (forall n, i, id | n != name :: At(queues', n, i, id) <==> At(queues, n, i, id))
            && (forall i, id :: At(queues', name, i, id)
                 <==> 0 <= i < |q| - 1 && At(queues, name, if i < |q| - 1 - k then i + k + 1 else i - (|q| - 1 - k), id))
  {
  }

  lemma TakenInv(content: MsgId -> Content, queues: map<Name, seq<Message>>, name: Name, k: nat)
    requires QueuesInv(content, queues) && name in queues && k < |queues[name]|
    ensures QueuesInv(content, queues[name := queues[name][k + 1..] + queues[name][..k]])
  {
  }

  /** The ids left in the queues are the others, wherever else the taken one may still be. */
  lemma TakenIds(queues: map<Name, seq<Message>>, name: Name, k: nat, n: Name, i: int, id: MsgId) returns (i': int)
    requires name in queues && k < |queues[name]|
    requires At(queues, n, i, id) && !(n == name && i == k)
    ensures At(queues[name := queues[name][k + 1..] + queues[name][..k]], n, i', id)
  {
    var q := queues[name];
    i' := if n != name then i else if i > k then i - k - 1 else i + (|q| - 1 - k);
  }

  /** A delivery moves one id from a queue into flight. */
  lemma PopMove(content: MsgId -> Content, s: Local, name: Name, now: int, timeout: int)
    requires LocalInv(content, s)
    ensures var (s', m) := Popped(s, name, now, timeout);
            && LocalInv(content, s')
            && (forall id :: Present(s', id) <==> Present(s, id))
            && (m.Some? ==> Present(s, m.value.id) && Fits(content, m.value))
            && Balance(s') == Balance(s) + (if m.Some? && Has(s.inflight, m.value.id) then 1 else 0)
            && (Unique(s) ==> Unique(s') && (m.Some? ==> !Has(s.inflight, m.value.id)))
  {
    hide QueuesInv, DictInv, Put;
    var (s', found) := Popped(s, name, now, timeout);
    if found.Some? {
      var k, m := FirstVisible(QueueOf(s.queues, name), now), found.value;
      assert Fits(content, s.queues[name][k]) by {
        FitsAt(content, s.queues, name, k);
      }
      PutInv(content, s.inflight, m);
      PutProper(content, s.inflight, m);
      TakenInv(content, s.queues, name, k);
      PopKeepsIds(s, name, k, m, s');
      if Unique(s) {
        PopKeepsUnique(s, name, k, m, s');
      }
    }
  }

  lemma FitsAt(content: MsgId -> Content, queues: map<Name, seq<Message>>, name: Name, k: nat)
    requires QueuesInv(content, queues) && name in queues && k < |queues[name]|
    ensures Fits(content, queues[name][k])
  {
  }

  lemma PutProper(content: MsgId -> Content, d: Dict<MsgId, Message>, m: Message)
    requires DictInv(content, d)
    ensures forall x :: Has(Put(d, m.id, m), x) <==> Has(d, x) || x == m.id
    ensures |Put(d, m.id, m)| == if Has(d, m.id) then |d| else |d| + 1
  {
    PutIs(d, m.id, m);
  }

  /** s' is s with message k of the queue taken out and m, which has its id, in flight. */
  ghost predicate Took(s: Local, name: Name, k: nat, m: Message, s': Local) {
    && name in s.queues && k < |s.queues[name]| && s.queues[name][k].id == m.id
    && s'.queues == s.queues[name := s.queues[name][k + 1..] + s.queues[name][..k]]
    && (forall x :: Has(s'.inflight, x) <==> Has(s.inflight, x) || x == m.id)
  }

  lemma PopKeepsIds(s: Local, name: Name, k: nat, m: Message, s': Local)
    requires Took(s, name, k, m, s')
    ensures forall id :: Present(s', id) <==> Present(s, id)
  {
    assert At(s.queues, name, k, m.id);
    AtTaken(s.queues, name, k);
    forall id ensures Present(s', id) <==> Present(s, id) {
      if n, i :| At(s.queues, n, i, id) && !(n == name && i == k) {
        var i' := TakenIds(s.queues, name, k, n, i, id);
      }
    }
  }

  lemma PopKeepsUnique(s: Local, name: Name, k: nat, m: Message, s': Local)
    requires Took(s, name, k, m, s') && Unique(s)
    ensures Unique(s') && !Has(s.inflight, m.id)
  {
    assert At(s.queues, name, k, m.id);
    AtTaken(s.queues, name, k);
  }

  /** An expired message goes back: its id leaves flight for a queue. */
  lemma ReturnMove(content: MsgId -> Content, s: Local, e: (MsgId, Message))
    requires LocalInv(content, s) && e in s.inflight
    ensures var s' := Returned(s, e);
            && LocalInv(content, s') && Balance(s') == Balance(s)
            && (forall id :: Present(s', id) <==> Present(s, id))
            && (Unique(s) ==> Unique(s'))
            && (forall x :: x in s'.inflight <==> x in s.inflight && x.0 != e.0)
  {
    hide QueuesInv, At, Appended, Dropped;
    var s', m := Returned(s, e), e.1.(hiddenUntil := 0);
    DropInv(content, s.inflight, e.0);
    DroppedIs(s.inflight, e.0);
    AtAppended(s.queues, m);
    AppendedInv(content, s.queues, m);
    InDict(s.inflight, e);
    assert At(s'.queues, m.queue, |QueueOf(s.queues, m.queue)|, m.id);
  }

  lemma InDict<V>(d: Dict<MsgId, V>, e: (MsgId, V))
    requires e in d
    ensures Has(d, e.0)
  {
  }

  /** A replica is promoted: its id joins the queues. */
  lemma PromoteMove(content: MsgId -> Content, s: Local, e: (MsgId, Message), self: Id)
    requires LocalInv(content, s) && e in s.replicas
    ensures var s' := Promoted(s, e, self);
            && LocalInv(content, s') && Balance(s') == Balance(s) && s'.inflight == s.inflight
            && (forall id :: Present(s', id) <==> Present(s, id) || id == e.0)
            && (Unique(s) && !Present(s, e.0) ==> Unique(s'))
            && (forall x :: x in s'.replicas <==> x in s.replicas && x.0 != e.0)
  {
    hide QueuesInv, At, Appended, Dropped;
    var s', m := Promoted(s, e, self), e.1.(primary := Some(self));
    DropInv(content, s.replicas, e.0);
    DroppedIs(s.replicas, e.0);
    AtAppended(s.queues, m);
    AppendedInv(content, s.queues, m);
    assert At(s'.queues, m.queue, |QueueOf(s.queues, m.queue)|, m.id);
  }

  /** An acknowledgement forgets one id and no other. */
  lemma AckMove(content: MsgId -> Content, s: Local, id: MsgId, self: Id)
    requires LocalInv(content, s)
    ensures var (s', ok) := Acked(s, id, self);
            && LocalInv(content, s') && Balance(s') == Balance(s)
            && (forall x | x != id :: Present(s', x) <==> Present(s, x))
            && (Unique(s) ==> Unique(s') && (ok ==> !Present(s', id)))
            && (ok <==> Has(s.inflight, id))
  {
    hide QueuesInv, At, Dropped;
    DropInv(content, s.inflight, id);
    DropInv(content, s.replicas, id);
    DroppedIs(s.inflight, id);
  }

  // ---------- moves in a row ----------

  lemma {:induction false} ReturnMoves(content: MsgId -> Content, s: Local, items: Dict<MsgId, Message>, now: int)
    requires LocalInv(content, s) && Proper(items) && forall e | e in items :: e in s.inflight
    ensures var s' := AllReturned(s, items, now);
            && LocalInv(content, s') && Balance(s') == Balance(s) && s'.replicas == s.replicas
            && (forall id :: Present(s', id) <==> Present(s, id))
            && (Unique(s) ==> Unique(s'))
            && (forall x :: x in s'.inflight <==> x in s.inflight && !(x in items && x.1.hiddenUntil < now))
  {
    hide LocalInv, Present, Unique, Balance;
    if items != [] {
      var front, e := items[..|items| - 1], items[|items| - 1];
      assert items == front + [e];
      ReturnMoves(content, s, front, now);
      NotInFront(items);
      if e.1.hiddenUntil < now {
        ReturnMove(content, AllReturned(s, front, now), e);
        SameKeySameEntry(content, s, e);
      }
    }
  }

  lemma NotInFront(items: Dict<MsgId, Message>)
    requires Proper(items) && items != []
    ensures items[|items| - 1] !in items[..|items| - 1]
  {
  }

  lemma SameKeySameEntry(content: MsgId -> Content, s: Local, e: (MsgId, Message))
    requires LocalInv(content, s)
    ensures e in s.inflight ==> forall x | x in s.inflight && x.0 == e.0 :: x == e
    ensures e in s.replicas ==> forall x | x in s.replicas && x.0 == e.0 :: x == e
  {
  }

  /** One of the entries carries this id and has this peer as its primary. */
  ghost predicate OwnedBy(items: Dict<MsgId, Message>, peer: Id, id: MsgId) {
    exists e :: e in items && e.0 == id && e.1.primary == Some(peer)
  }

  lemma {:induction false} PromoteMoves(content: MsgId -> Content, s: Local, items: Dict<MsgId, Message>, peer: Id, self: Id)
    requires LocalInv(content, s) && Proper(items) && forall e | e in items :: e in s.replicas
    ensures var s' := AllPromoted(s, items, peer, self);
            && LocalInv(content, s') && Balance(s') == Balance(s) && s'.inflight == s.inflight
            && (forall id :: Present(s', id) <==> Present(s, id) || OwnedBy(items, peer, id))
            && (Unique(s) && (forall id | OwnedBy(items, peer, id) :: !Present(s, id)) ==> Unique(s'))
            && (forall x :: x in s'.replicas <==> x in s.replicas && !(x in items && x.1.primary == Some(peer)))
  {
    hide LocalInv, Present, Unique, Balance;
    if items != [] {
      var front, e := items[..|items| - 1], items[|items| - 1];
      assert items == front + [e];
      PromoteMoves(content, s, front, peer, self);
      NotInFront(items);
      OwnedStep(items, peer);
      if e.1.primary == Some(peer) {
        PromoteMove(content, AllPromoted(s, front, peer, self), e, self);
        SameKeySameEntry(content, s, e);
      }
    }
  }

  lemma OwnedStep(items: Dict<MsgId, Message>, peer: Id)
    requires items != [] && Proper(items)
    ensures var front, e := items[..|items| - 1], items[|items| - 1];
            && (forall id :: OwnedBy(items, peer, id) <==> OwnedBy(front, peer, id) || (id == e.0 && e.1.primary == Some(peer)))
            && !OwnedBy(front, peer, e.0)
  {
  }

  // ---------- runs ----------

  /** Everything that can happen to a node's messages. A client's dequeue is an expiry followed by a pop. */
  datatype Step =
    | Store(message: Message)
    | Replicate(message: Message)
    | Pop(name: Name, now: int)
    | Expire(now: int)
    | Fail(peer: Id)
    | Ack(id: MsgId)
    | AckNotice(id: MsgId)

  function Stepped(s: Local, step: Step, self: Id, timeout: int): Local {
    match step
    case Store(m) => Stored(s, m)
    case Replicate(m) => Replicated(s, m)
    case Pop(name, now) => Popped(s, name, now, timeout).0
    case Expire(now) => Expired(s, now)
    case Fail(peer) => PeerFailed(s, peer, self)
    case Ack(id) => Acked(s, id, self).0
    case AckNotice(id) => AckNoticed(s, id)
  }

  function After(s: Local, steps: seq<Step>, self: Id, timeout: int): Local
    decreases |steps|
  {
    if steps == [] then s else After(Stepped(s, steps[0], self, timeout), steps[1..], self, timeout)
  }

  /** Whatever reaches the node under an id is a copy of the same message. */
  predicate Genuine(content: MsgId -> Content, step: Step) {
    (step.Store? || step.Replicate?) ==> Fits(content, step.message)
  }

  /** The step delivers an id that is already in flight. */
  function DeliversTwice(s: Local, step: Step, timeout: int): nat {
    if step.Pop? then
      var m := Popped(s, step.name, step.now, timeout).1;
      if m.Some? && Has(s.inflight, m.value.id) then 1 else 0
    else 0
  }

  /** How many deliveries of a run were of an id in flight at that moment. */
  function DoubleDeliveries(s: Local, steps: seq<Step>, self: Id, timeout: int): nat
    decreases |steps|
  {
    if steps == [] then 0
    else DeliversTwice(s, steps[0], timeout) + DoubleDeliveries(Stepped(s, steps[0], self, timeout), steps[1..], self, timeout)
  }

  /** The step queues no id that the node already has. */
  ghost predicate StoresOnce(s: Local, step: Step) {
    match step
    case Store(m) => !Present(s, m.id)
    case Fail(peer) => forall id | OwnedBy(s.replicas, peer, id) :: !Present(s, id)
    case _ => true
  }

  ghost predicate RunStoresOnce(s: Local, steps: seq<Step>, self: Id, timeout: int)
    decreases |steps|
  {
    steps != [] ==> StoresOnce(s, steps[0]) && RunStoresOnce(Stepped(s, steps[0], self, timeout), steps[1..], self, timeout)
  }

  lemma StepMove(content: MsgId -> Content, s: Local, step: Step, self: Id, timeout: int)
    requires LocalInv(content, s) && Genuine(content, step)
    ensures var s' := Stepped(s, step, self, timeout);
            && LocalInv(content, s')
            && (forall id | Present(s, id) && step != Ack(id) :: Present(s', id))
            && Balance(s') == Balance(s) + DeliversTwice(s, step, timeout)
            && (Unique(s) && StoresOnce(s, step) ==> Unique(s') && DeliversTwice(s, step, timeout) == 0)
  {
    hide QueuesInv, DictInv, Appended, At, Dropped, Put, Has, OwnedBy;
    match step {
      case Store(m) => StoreMove(content, s, m);
      case Replicate(m) =>
        PutInv(content, s.replicas, m);
        SamePresence(s, Replicated(s, m));
      case Pop(name, now) => PopMove(content, s, name, now, timeout);
      case Expire(now) =>
        ProperInflight(content, s);
        ReturnMoves(content, s, s.inflight, now);
      case Fail(peer) =>
        ProperInflight(content, s);
        PromoteMoves(content, s, s.replicas, peer, self);
      case Ack(id) => AckMove(content, s, id, self);
      case AckNotice(id) =>
        DropInv(content, s.replicas, id);
        SamePresence(s, AckNoticed(s, id));
    }
  }

  lemma ProperInflight(content: MsgId -> Content, s: Local)
    requires LocalInv(content, s)
    ensures Proper(s.inflight) && Proper(s.replicas)
  {
  }

  lemma SamePresence(s: Local, s': Local)
    requires s'.queues == s.queues && s'.inflight == s.inflight
    ensures forall id :: Present(s', id) <==> Present(s, id)
    ensures Unique(s') <==> Unique(s)
  {
  }

  /**
   * No message is lost without an acknowledgement: once its id is queued or in flight
   * it stays so, with the same content, until that id is acknowledged on this node.
   */
  lemma {:induction false} MessagesStay(content: MsgId -> Content, s: Local, steps: seq<Step>, self: Id, timeout: int, id: MsgId)
    requires LocalInv(content, s) && forall step | step in steps :: Genuine(content, step)
    requires Present(s, id) && Ack(id) !in steps
    ensures LocalInv(content, After(s, steps, self, timeout)) && Present(After(s, steps, self, timeout), id)
    decreases |steps|
  {
    hide LocalInv, Present, Unique, Stepped;
    if steps != [] {
      StepMove(content, s, steps[0], self, timeout);
      MessagesStay(content, Stepped(s, steps[0], self, timeout), steps[1..], self, timeout, id);
    }
  }

  /** Every delivery is acknowledged, redelivered or in flight, except the double ones. */
  lemma {:induction false} DeliveriesAddUp(content: MsgId -> Content, s: Local, steps: seq<Step>, self: Id, timeout: int)
    requires LocalInv(content, s) && forall step | step in steps :: Genuine(content, step)
    ensures Balance(After(s, steps, self, timeout)) == Balance(s) + DoubleDeliveries(s, steps, self, timeout)
    ensures Unique(s) && RunStoresOnce(s, steps, self, timeout) ==> DoubleDeliveries(s, steps, self, timeout) == 0
    decreases |steps|
  {
    hide LocalInv, Present, Unique, Stepped, StoresOnce, Balance;
    if steps != [] {
      StepMove(content, s, steps[0], self, timeout);
      DeliveriesAddUp(content, Stepped(s, steps[0], self, timeout), steps[1..], self, timeout);
    }
  }

  /** From an empty node: dequeued = acked + redelivered + in flight, exactly when no id was delivered while in flight. */
  lemma StatisticsAddUp(content: MsgId -> Content, steps: seq<Step>, self: Id, timeout: int)
    requires forall step | step in steps :: Genuine(content, step)
    ensures var s := After(EMPTY, steps, self, timeout);
            && (s.dequeued == s.acked + s.redelivered + |s.inflight| <==> DoubleDeliveries(EMPTY, steps, self, timeout) == 0)
            && (RunStoresOnce(EMPTY, steps, self, timeout) ==> s.dequeued == s.acked + s.redelivered + |s.inflight|)
  {
    hide Stepped;
    DeliveriesAddUp(content, EMPTY, steps, self, timeout);
  }

  /**
   * An acknowledged id is neither queued nor in flight any more, if it was stored once.
   * The node's own mirror forgets it only if the message names this node as a replica.
   */
  lemma AcknowledgedIsGone(content: MsgId -> Content, s: Local, id: MsgId, self: Id)
    requires LocalInv(content, s) && Unique(s)
    ensures var (s', ok) := Acked(s, id, self);
            && (ok <==> Has(s.inflight, id))
            && (ok ==> !Present(s', id))
            && (ok ==> (Has(s'.replicas, id) <==> Has(s.replicas, id) && self !in Lookup(s.inflight, id).replicas))
            && (forall x | x != id :: (Present(s', x) <==> Present(s, x)) && (Has(s'.replicas, x) <==> Has(s.replicas, x)))
  {
    hide Dropped, Present, LocalInv, Unique;
    AckMove(content, s, id, self);
    ProperInflight(content, s);
    DroppedIs(s.replicas, id);
  }

  // ---------- closed forms ----------

  /** The expired messages of one queue, as they will be queued again, in the order of their delivery. */
  function ExpiredOf(items: Dict<MsgId, Message>, name: Name, now: int): seq<Message> {
    if items == [] then []
    else
      var m := items[|items| - 1].1;
      var front := ExpiredOf(items[..|items| - 1], name, now);
      if m.queue == name && m.hiddenUntil < now then front + [m.(hiddenUntil := 0)] else front
  }

  lemma {:induction false} ReturnedQueues(s: Local, items: Dict<MsgId, Message>, now: int, name: Name)
    ensures QueueOf(AllReturned(s, items, now).queues, name) == QueueOf(s.queues, name) + ExpiredOf(items, name, now)
  {
    if items != [] {
      ReturnedQueues(s, items[..|items| - 1], now, name);
    }
  }

  /** Expiry: what is overdue leaves flight and goes to the end of its queue, in order; the rest stays in flight. */
  lemma ExpiryIs(content: MsgId -> Content, s: Local, now: int, name: Name, e: (MsgId, Message))
    requires LocalInv(content, s)
    ensures QueueOf(Expired(s, now).queues, name) == QueueOf(s.queues, name) + ExpiredOf(s.inflight, name, now)
    ensures e in Expired(s, now).inflight <==> e in s.inflight && e.1.hiddenUntil >= now
    ensures Expired(s, now).replicas == s.replicas
  {
    ReturnedQueues(s, s.inflight, now, name);
    ReturnMoves(content, s, s.inflight, now);
  }

  /** The replicas of one queue whose primary failed, as this node queues them: it is their primary now. */
  function OrphansOf(items: Dict<MsgId, Message>, name: Name, peer: Id, self: Id): seq<Message> {
    if items == [] then []
    else
      var m := items[|items| - 1].1;
      var front := OrphansOf(items[..|items| - 1], name, peer, self);
      if m.queue == name && m.primary == Some(peer) then front + [m.(primary := Some(self))] else front
  }

  lemma {:induction false} PromotedQueues(s: Local, items: Dict<MsgId, Message>, peer: Id, self: Id, name: Name)
    ensures QueueOf(AllPromoted(s, items, peer, self).queues, name) == QueueOf(s.queues, name) + OrphansOf(items, name, peer, self)
  {
    if items != [] {
      PromotedQueues(s, items[..|items| - 1], peer, self, name);
    }
  }

  /** Failure of a peer: exactly its replicas leave the mirror and join the ends of their queues, with this node as their primary. */
  lemma FailureIs(content: MsgId -> Content, s: Local, peer: Id, self: Id, id: MsgId, e: (MsgId, Message), name: Name)
    requires LocalInv(content, s)
    ensures e in PeerFailed(s, peer, self).replicas <==> e in s.replicas && e.1.primary != Some(peer)
    ensures Present(PeerFailed(s, peer, self), id) <==> Present(s, id) || OwnedBy(s.replicas, peer, id)
    ensures QueueOf(PeerFailed(s, peer, self).queues, name) == QueueOf(s.queues, name) + OrphansOf(s.replicas, name, peer, self)
    ensures PeerFailed(s, peer, self).inflight == s.inflight
  {
    PromotedQueues(s, s.replicas, peer, self, name);
    PromoteMoves(content, s, s.replicas, peer, self);
  }

  // ---------- placement ----------

  lemma {:induction false} ReplicasReached(s: Local, packets: seq<Packet>, replicas: seq<Id>, m: Message, self: Id, p: Packet)
    ensures var (s', packets') := ReplicasPlaced(s, packets, replicas, m, self);
            && (p in packets' <==> p in packets || (p.ReplicateAt? && p.message == m && p.node != self && p.node in replicas))
            && s'.queues == s.queues && s'.inflight == s.inflight
            && s'.replicas == if self in replicas then Put(s.replicas, m.id, m) else s.replicas
    decreases |replicas|
  {
    hide Put;
    if replicas != [] {
      PutTwice(s.replicas, m.id, m);
      if replicas[0] == self {
        ReplicasReached(Replicated(s, m), packets, replicas[1..], m, self, p);
      } else {
        ReplicasReached(s, packets + [ReplicateAt(replicas[0], m)], replicas[1..], m, self, p);
      }
    }
  }

  lemma PutTwice(d: Dict<MsgId, Message>, id: MsgId, m: Message)
    ensures Put(Put(d, id, m), id, m) == Put(d, id, m)
  {
    var i, d' := Position(d, id), Put(d, id, m);
    assert d'[i] == (id, m);
    assert Position(d', id) == i by {
      assert forall j | 0 <= j < i :: d'[j] == d[j];
    }
  }

  /** A new message is queued on the first node of its list and mirrored on each other one: here, or by a packet. */
  lemma PlacementReachesAll(s: Local, nodes: seq<Id>, m: Message, self: Id, p: Packet)
    requires nodes != []
    ensures var (s', packets) := Placed(s, nodes, m, self);
            && (p in packets <==> p.message == m && p.node != self && p.node in if p.EnqueueAt? then [nodes[0]] else nodes[1..])
            && s'.queues == (if self == nodes[0] then Appended(s.queues, m) else s.queues)
            && s'.replicas == (if self in nodes[1..] then Put(s.replicas, m.id, m) else s.replicas)
            && s'.inflight == s.inflight
  {
    hide Put, Appended;
    var first := if nodes[0] == self then (Stored(s, m), []) else (s, [EnqueueAt(nodes[0], m)]);
    ReplicasReached(first.0, first.1, nodes[1..], m, self, p);
  }
}
