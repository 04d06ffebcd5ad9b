/** What a delivery is: which message it takes, how long it hides it, and how the message comes back. */
module QueueDelivery {
  import opened OrderedDicts
  import opened RingOrder
  import opened LocalQueue
  import opened QueueTheorems

  /** Message k of the queue may be delivered now, and none before it. */
  predicate IsFirstVisible(q: seq<Message>, k: int, now: int) {
    0 <= k < |q| && q[k].hiddenUntil <= now && forall j | 0 <= j < k :: q[j].hiddenUntil > now
  }

  /** The same message with one more delivery; only when it may be seen again has changed besides. */
  predicate OnceMore(before: Message, after: Message) {
    after == before.(deliveries := before.deliveries + 1, hiddenUntil := after.hiddenUntil)
  }

  /** The message stands behind everything that was in its queue before, ready to be delivered. */
  ghost predicate BackAtEnd(before: Local, after: Local, m: Message) {
    var q, q' := QueueOf(before.queues, m.queue), QueueOf(after.queues, m.queue);
    q <= q' && exists i :: |q| <= i < |q'| && q'[i] == m.(hiddenUntil := 0)
  }

  lemma {:induction false} InExpiredOf(items: Dict<MsgId, Message>, e: (MsgId, Message), at: int)
    requires e in items && e.1.hiddenUntil < at
    ensures e.1.(hiddenUntil := 0) in ExpiredOf(items, e.1.queue, at)
  {
    var front, last := items[..|items| - 1], items[|items| - 1];
    assert items == front + [last];
    if e in front {
      InExpiredOf(front, e, at);
    }
  }

  /** An overdue message comes back. */
  lemma OverdueReturns(content: MsgId -> Content, s: Local, e: (MsgId, Message), at: int)
    requires LocalInv(content, s) && e in s.inflight && e.1.hiddenUntil < at
    ensures !Has(Expired(s, at).inflight, e.0) && BackAtEnd(s, Expired(s, at), e.1)
  {
    hide LocalInv, Expired, QueueOf;
    var s' := Expired(s, at);
    ExpiryIs(content, s, at, e.1.queue, e);
    InExpiredOf(s.inflight, e, at);
    var q, back := QueueOf(s.queues, e.1.queue), ExpiredOf(s.inflight, e.1.queue, at);
    var j :| 0 <= j < |back| && back[j] == e.1.(hiddenUntil := 0);
    assert (q + back)[|q| + j] == e.1.(hiddenUntil := 0);
    if Has(s'.inflight, e.0) {
      var i :| 0 <= i < |s'.inflight| && s'.inflight[i].0 == e.0;
      ExpiryIs(content, s, at, e.1.queue, s'.inflight[i]);
      SameKeySameEntry(content, s, e);
    }
  }

  /** What a pop takes, and what it leaves. */
  lemma PopTakes(content: MsgId -> Content, s: Local, name: Name, now: int, timeout: int)
    requires LocalInv(content, s)
    ensures var (s', found) := Popped(s, name, now, timeout); var q := QueueOf(s.queues, name);
            && (found.None? <==> forall i | 0 <= i < |q| :: q[i].hiddenUntil > now)
            && (found.None? ==> s' == s)
            && (found.Some? ==>
                  var m := found.value;
                  && (exists k :: IsFirstVisible(q, k, now) && OnceMore(q[k], m) && QueueOf(s'.queues, name) == q[k + 1..] + q[..k])
                  && (forall n | n != name :: QueueOf(s'.queues, n) == QueueOf(s.queues, n)) && s'.replicas == s.replicas
                  && (forall e :: e in s'.inflight <==> e == (m.id, m) || (e in s.inflight && e.0 != m.id))
                  && m.hiddenUntil == now + timeout)
  {
    hide LocalInv, Put;
    var found := Popped(s, name, now, timeout).1;
    if found.Some? {
      ProperInflight(content, s);
      PutIs(s.inflight, found.value.id, found.value);
      assert IsFirstVisible(QueueOf(s.queues, name), FirstVisible(QueueOf(s.queues, name), now), now);
    }
  }

  /**
   * A pop returns the first visible message of the queue, once more delivered, and has it in
   * flight under its id. There every expiry up to the end of the visibility timeout leaves it,
   * and the first one after that puts it back at the end of its queue.
   */
  lemma PopOutcome(content: MsgId -> Content, s: Local, name: Name, now: int, timeout: int, at: int)
    requires LocalInv(content, s) && Popped(s, name, now, timeout).1.Some?
    ensures var (s', found) := Popped(s, name, now, timeout); var q, m := QueueOf(s.queues, name), found.value;
            && (exists k :: IsFirstVisible(q, k, now) && OnceMore(q[k], m))
            && (m.id, m) in s'.inflight
            && (at <= now + timeout ==> (m.id, m) in Expired(s', at).inflight)
            && (at > now + timeout ==> !Has(Expired(s', at).inflight, m.id) && BackAtEnd(s', Expired(s', at), m))
  {
    hide LocalInv, Expired, Popped, BackAtEnd, QueueOf;
    var (s', found) := Popped(s, name, now, timeout);
    var m := found.value;
    PopMove(content, s, name, now, timeout);
    PopTakes(content, s, name, now, timeout);
    ExpiryIs(content, s', at, m.queue, (m.id, m));
    if at > now + timeout {
      OverdueReturns(content, s', (m.id, m), at);
    }
  }

  // ---------- over a run ----------

  /** How many deliveries of a run are of this id. */
  function DeliveriesOf(s: Local, steps: seq<Step>, self: Id, timeout: int, id: MsgId): nat
    decreases |steps|
  {
    if steps == [] then 0
    else
      var rest := DeliveriesOf(Stepped(s, steps[0], self, timeout), steps[1..], self, timeout, id);
      if Delivers(s, steps[0], timeout, id) then 1 + rest else rest
  }

  predicate Delivers(s: Local, step: Step, timeout: int, id: MsgId) {
    && step.Pop?
    && var found := Popped(s, step.name, step.now, timeout).1;
       found.Some? && found.value.id == id
  }

  /** No expiry later than this. */
  predicate ExpiresBy(steps: seq<Step>, deadline: int) {
    forall step | step in steps && step.Expire? :: step.now <= deadline
  }

  lemma StaysOneStep(content: MsgId -> Content, s: Local, step: Step, self: Id, timeout: int, e: (MsgId, Message))
    requires LocalInv(content, s) && Unique(s) && Genuine(content, step) && StoresOnce(s, step)
    requires e in s.inflight && step != Ack(e.0) && (step.Expire? ==> step.now <= e.1.hiddenUntil)
    ensures e in Stepped(s, step, self, timeout).inflight && !Delivers(s, step, timeout, e.0)
  {
    hide LocalInv, Unique, Put, Dropped, Appended, Expired, PeerFailed, StoresOnce;
    ProperInflight(content, s);
    InDict(s.inflight, e);
    match step {
      case Store(m) =>
      case Replicate(m) =>
      case Pop(name, now) =>
        PopMove(content, s, name, now, timeout);
        var found := Popped(s, name, now, timeout).1;
        if found.Some? { PutIs(s.inflight, found.value.id, found.value); }
      case Expire(now) => ExpiryIs(content, s, now, e.1.queue, e);
      case Fail(peer) => FailedInflight(content, s, peer, self);
      case Ack(id) => DroppedIs(s.inflight, id);
      case AckNotice(id) =>
    }
  }

  lemma FailedInflight(content: MsgId -> Content, s: Local, peer: Id, self: Id)
    requires LocalInv(content, s)
    ensures PeerFailed(s, peer, self).inflight == s.inflight
  {
    hide LocalInv;
    ProperInflight(content, s);
    PromoteMoves(content, s, s.replicas, peer, self);
  }

  /** As long as no expiry passes its deadline and nobody acknowledges it, a message in flight stays there and is not delivered again. */
  lemma {:induction false} HiddenUntilDeadline(content: MsgId -> Content, s: Local, steps: seq<Step>, self: Id, timeout: int,
                                              e: (MsgId, Message))
    requires LocalInv(content, s) && Unique(s) && e in s.inflight
    requires (forall step | step in steps :: Genuine(content, step)) && RunStoresOnce(s, steps, self, timeout)
    requires Ack(e.0) !in steps && ExpiresBy(steps, e.1.hiddenUntil)
    ensures e in After(s, steps, self, timeout).inflight && DeliveriesOf(s, steps, self, timeout, e.0) == 0
    ensures LocalInv(content, After(s, steps, self, timeout))
    decreases |steps|
  {
    hide LocalInv, Present, Unique, Stepped, StoresOnce, Balance, Delivers;
    if steps != [] {
      StepMove(content, s, steps[0], self, timeout);
      StaysOneStep(content, s, steps[0], self, timeout, e);
      HiddenUntilDeadline(content, Stepped(s, steps[0], self, timeout), steps[1..], self, timeout, e);
    }
  }

  /**
   * The visibility timeout: whatever happens after a delivery, the message is not delivered
   * again before an expiry later than the timeout, or an acknowledgement; and such an expiry
   * puts it back at the end of its queue.
   */
  lemma VisibilityTimeout(content: MsgId -> Content, s: Local, name: Name, now: int, timeout: int,
                          steps: seq<Step>, self: Id, at: int)
    requires LocalInv(content, s) && Unique(s) && Popped(s, name, now, timeout).1.Some?
    requires forall step | step in steps :: Genuine(content, step)
    requires RunStoresOnce(Popped(s, name, now, timeout).0, steps, self, timeout)
    requires Ack(Popped(s, name, now, timeout).1.value.id) !in steps && ExpiresBy(steps, now + timeout)
    ensures var (s1, found) := Popped(s, name, now, timeout); var s2 := After(s1, steps, self, timeout); var m := found.value;
            && DeliveriesOf(s1, steps, self, timeout, m.id) == 0
            && Has(s2.inflight, m.id)
            && (at > now + timeout ==> !Has(Expired(s2, at).inflight, m.id) && BackAtEnd(s2, Expired(s2, at), m))
  {
    hide LocalInv, Unique, Expired, BackAtEnd, RunStoresOnce, Genuine;
    var (s1, found) := Popped(s, name, now, timeout);
    var m := found.value;
    PopMove(content, s, name, now, timeout);
    PopTakes(content, s, name, now, timeout);
    HiddenUntilDeadline(content, s1, steps, self, timeout, (m.id, m));
    var s2 := After(s1, steps, self, timeout);
    InDict(s2.inflight, (m.id, m));
    if at > now + timeout {
      OverdueReturns(content, s2, (m.id, m), at);
    }
  }

  // ---------- order ----------

  function Stores(ms: seq<Message>): seq<Step> {
    seq(|ms|, i requires 0 <= i < |ms| => Store(ms[i]))
  }

  /** What this many pops return, as long as each returns something. */
  function Pops(s: Local, name: Name, now: int, timeout: int, count: nat): (got: seq<Message>)
    decreases count
  {
    var (s', found) := Popped(s, name, now, timeout);
    if count == 0 || found.None? then [] else [found.value] + Pops(s', name, now, timeout, count - 1)
  }

  lemma {:induction false} StoredInOrder(s: Local, name: Name, ms: seq<Message>, self: Id, timeout: int)
    requires forall m | m in ms :: m.queue == name
    ensures QueueOf(After(s, Stores(ms), self, timeout).queues, name) == QueueOf(s.queues, name) + ms
    decreases |ms|
  {
    if ms == [] {
      assert QueueOf(s.queues, name) + ms == QueueOf(s.queues, name);
    } else {
      var s1 := Stepped(s, Store(ms[0]), self, timeout);
      assert QueueOf(s1.queues, name) == QueueOf(s.queues, name) + [ms[0]];
      assert Stores(ms)[1..] == Stores(ms[1..]);
      StoredInOrder(s1, name, ms[1..], self, timeout);
      assert QueueOf(s.queues, name) + [ms[0]] + ms[1..] == QueueOf(s.queues, name) + ms;
    }
  }

  lemma PopsFirst(s: Local, name: Name, now: int, timeout: int)
    requires QueueOf(s.queues, name) != [] && QueueOf(s.queues, name)[0].hiddenUntil <= now
    ensures var (s', found) := Popped(s, name, now, timeout); var q := QueueOf(s.queues, name);
            found.Some? && OnceMore(q[0], found.value) && QueueOf(s'.queues, name) == q[1..]
  {
    hide Put;
  }

  lemma {:induction false} PoppedInOrder(s: Local, name: Name, now: int, timeout: int)
    requires forall m | m in QueueOf(s.queues, name) :: m.hiddenUntil <= now
    ensures var q := QueueOf(s.queues, name); var got := Pops(s, name, now, timeout, |q|);
            |got| == |q| && forall i | 0 <= i < |q| :: OnceMore(q[i], got[i])
    decreases |QueueOf(s.queues, name)|
  {
    hide Popped, QueueOf, OnceMore;
    var q := QueueOf(s.queues, name);
    if q != [] {
      PopsFirst(s, name, now, timeout);
      PoppedInOrder(Popped(s, name, now, timeout).0, name, now, timeout);
      assert forall i | 1 <= i < |q| :: q[i] == q[1..][i - 1];
    }
  }

  /** First in, first out: with nothing hidden, the pops return what was queued and then what is stored, in that order. */
  lemma FirstInFirstOut(s: Local, name: Name, ms: seq<Message>, self: Id, now: int, timeout: int)
    requires forall m | m in ms :: m.queue == name && m.hiddenUntil <= now
    requires forall m | m in QueueOf(s.queues, name) :: m.hiddenUntil <= now
    ensures var q := QueueOf(s.queues, name) + ms; var got := Pops(After(s, Stores(ms), self, timeout), name, now, timeout, |q|);
            |got| == |q| && forall i | 0 <= i < |q| :: OnceMore(q[i], got[i])
  {
    hide Stores, Pops;
    StoredInOrder(s, name, ms, self, timeout);
    PoppedInOrder(After(s, Stores(ms), self, timeout), name, now, timeout);
  }

  // ---------- after an acknowledgement ----------

  lemma {:induction false} OthersAre(ids: seq<Id>, self: Id, x: Id)
    ensures x in Others(ids, self) <==> x in ids && x != self
  {
    if ids != [] {
      assert ids == ids[..|ids| - 1] + [ids[|ids| - 1]];
      OthersAre(ids[..|ids| - 1], self, x);
    }
  }

  /** Every replica node is told of an acknowledgement, and a node that is told forgets its mirror of that id and nothing else. */
  lemma NoticeForgets(content: MsgId -> Content, replicas: seq<Id>, self: Id, other: Id, s: Local, id: MsgId, e: (MsgId, Message))
    requires LocalInv(content, s)
    ensures other in Others(replicas, self) <==> other in replicas && other != self
    ensures !Has(AckNoticed(s, id).replicas, id) && (e in AckNoticed(s, id).replicas <==> e in s.replicas && e.0 != id)
    ensures AckNoticed(s, id).queues == s.queues && AckNoticed(s, id).inflight == s.inflight
  {
    hide LocalInv, Dropped, Others;
    OthersAre(replicas, self, other);
    ProperInflight(content, s);
    DroppedIs(s.replicas, id);
  }
}
