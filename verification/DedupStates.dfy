/** The idempotent aggregator as a value: the table, the stream with its consumer group, and the workers between two awaits. */
module DedupStates {

  // ---------- the table ----------

  datatype Key = Key(topic: string, eventId: string)

  datatype Event = Event(topic: string, eventId: string, timestamp: string, source: string, payload: string)

  function KeyOf(ev: Event): Key {
    Key(ev.topic, ev.eventId)
  }

  type WorkerId = string

  datatype AuditRow = AuditRow(key: Key, isNew: bool, worker: WorkerId)

  /** `order` lists the rows by their serial number. */
  datatype Store = Store(
    rows: map<Key, Event>,
    order: seq<Key>,
    received: nat,
    unique: nat,
    duplicate: nat,
    audit: seq<AuditRow>)

  const NO_ROWS := Store(map[], [], 0, 0, 0, [])

  /** One committed transaction: insert if absent, count, and leave an audit row. */
  function Processed(s: Store, ev: Event, worker: WorkerId): (Store, bool) {
    var k := KeyOf(ev);
    if k in s.rows then
      (s.(duplicate := s.duplicate + 1, audit := s.audit + [AuditRow(k, false, worker)]), false)
    else
      (s.(rows := s.rows[k := ev], order := s.order + [k], unique := s.unique + 1,
          audit := s.audit + [AuditRow(k, true, worker)]), true)
  }

  // ---------- the stream ----------

  /** An entry is known by its position in the stream. */
  type MsgId = nat

  /** What the consumer group has delivered but not acknowledged is pending, under the worker that has it. */
  datatype Stream = Stream(entries: seq<Event>, delivered: nat, pending: map<MsgId, WorkerId>, acked: set<MsgId>)

  const NO_ENTRIES := Stream([], 0, map[], {})

  function Published(t: Stream, ev: Event): Stream {
    t.(entries := t.entries + [ev])
  }

  /** How many new entries a read of at most `count` returns. */
  function Available(t: Stream, count: nat): nat {
    if t.delivered >= |t.entries| then 0
    else if |t.entries| - t.delivered < count then |t.entries| - t.delivered else count
  }

  function NewIds(t: Stream, count: nat): seq<MsgId> {
    seq(Available(t, count), i => t.delivered + i)
  }

  function GivenTo(pending: map<MsgId, WorkerId>, ids: seq<MsgId>, w: WorkerId): map<MsgId, WorkerId> {
    if ids == [] then pending else GivenTo(pending, ids[..|ids| - 1], w)[ids[|ids| - 1] := w]
  }

  /** Delivers the next entries to a worker. */
  function Read(t: Stream, w: WorkerId, count: nat): Stream {
    t.(delivered := t.delivered + Available(t, count), pending := GivenTo(t.pending, NewIds(t, count), w))
  }

  /** Hands stale entries over. */
  function Claimed(t: Stream, w: WorkerId, ids: seq<MsgId>): Stream {
    t.(pending := GivenTo(t.pending, ids, w))
  }

  /** Acknowledging an entry that is not pending has no effect. */
  function Acked(t: Stream, ids: set<MsgId>): Stream {
    t.(pending := t.pending - ids, acked := t.acked + (ids * t.pending.Keys))
  }

  // ---------- the workers ----------

  const BATCH := 50
  const CLAIM_EVERY := 5

  /** Where a worker is between two awaits of its loop, with the locals it still needs. */
  datatype Phase =
    | Top
    | Claims(todo: seq<MsgId>)                        // going through what it has claimed
    | AckClaim(id: MsgId, todo: seq<MsgId>)           // processed one claimed entry
    | Reading
    | Batch(todo: seq<MsgId>, acks: seq<MsgId>)       // going through what it has read

  datatype Worker = Worker(idle: nat, phase: Phase)

  // ---------- the system ----------

  /**
   * `accepted` has for every request the events it still has to publish, `lost` counts those
   * it never will, and `commits` lists the entries of all committed transactions.
   */
  datatype System = System(
    store: Store,
    stream: Stream,
    accepted: seq<seq<Event>>,
    lost: nat,
    workers: map<WorkerId, Worker>,
    commits: seq<MsgId>)

  datatype Step =
    | Accept(events: seq<Event>)                      // a request is counted
    | Publish(request: nat)                           // its next event enters the stream
    | PublisherCrash(request: nat)                    // it fails, and the rest of its events are gone
    | LoopTop(w: WorkerId, stale: seq<MsgId>)         // claims, every fifth idle round
    | ProcessClaim(w: WorkerId)
    | AckClaimed(w: WorkerId)
    | ReadNew(w: WorkerId)
    | ProcessNext(w: WorkerId)
    | SkipNext(w: WorkerId, committed: bool)          // the transaction raised, perhaps after its commit
    | AckBatch(w: WorkerId)
    | Raise(w: WorkerId, committed: bool)             // an exception ends the round
    | Crash(w: WorkerId)                              // the locals are gone; the worker starts again

  function Committed(s: System, id: MsgId, w: WorkerId): System
    requires id < |s.stream.entries|
  {
    s.(store := Processed(s.store, s.stream.entries[id], w).0, commits := s.commits + [id])
  }

  function Moved(s: System, w: WorkerId, worker: Worker): System {
    s.(workers := s.workers[w := worker])
  }

  predicate IsNext(s: System, todo: seq<MsgId>) {
    todo != [] && todo[0] < |s.stream.entries|
  }

  predicate Enabled(s: System, step: Step) {
    match step
    case Accept(_) => true
    case Publish(r) => r < |s.accepted| && s.accepted[r] != []
    case PublisherCrash(r) => r < |s.accepted|
    case LoopTop(w, stale) =>
      && w in s.workers && s.workers[w].phase.Top?
      && (s.workers[w].idle % CLAIM_EVERY != 0 ==> stale == [])
      && |stale| <= BATCH && forall id | id in stale :: id in s.stream.pending
    case ProcessClaim(w) => w in s.workers && s.workers[w].phase.Claims? && IsNext(s, s.workers[w].phase.todo)
    case AckClaimed(w) => w in s.workers && s.workers[w].phase.AckClaim?
    case ReadNew(w) => w in s.workers && (s.workers[w].phase.Reading? || s.workers[w].phase == Claims([]))
    case ProcessNext(w) => w in s.workers && s.workers[w].phase.Batch? && IsNext(s, s.workers[w].phase.todo)
    case SkipNext(w, _) => w in s.workers && s.workers[w].phase.Batch? && IsNext(s, s.workers[w].phase.todo)
    case AckBatch(w) => w in s.workers && s.workers[w].phase.Batch? && s.workers[w].phase.todo == []
    case Raise(w, committed) =>
      w in s.workers && (committed ==> s.workers[w].phase.Claims? && IsNext(s, s.workers[w].phase.todo))
    case Crash(w) => w in s.workers
  }

  function Performed(s: System, step: Step): System
    requires Enabled(s, step)
  {
    match step
    case Accept(events) =>
      s.(store := s.store.(received := s.store.received + |events|), accepted := s.accepted + [events])
    case Publish(r) =>
      s.(stream := Published(s.stream, s.accepted[r][0]), accepted := s.accepted[r := s.accepted[r][1..]])
    case PublisherCrash(r) => s.(accepted := s.accepted[r := []], lost := s.lost + |s.accepted[r]|)
    case LoopTop(w, stale) =>
      if s.workers[w].idle % CLAIM_EVERY == 0 then
        Moved(s.(stream := Claimed(s.stream, w, stale)), w, s.workers[w].(phase := Claims(stale)))
      else Moved(s, w, s.workers[w].(phase := Reading))
    case ProcessClaim(w) =>
      var todo := s.workers[w].phase.todo;
      Moved(Committed(s, todo[0], w), w, s.workers[w].(phase := AckClaim(todo[0], todo[1..])))
    case AckClaimed(w) =>
      var phase := s.workers[w].phase;
      Moved(s.(stream := Acked(s.stream, {phase.id})), w, s.workers[w].(phase := Claims(phase.todo)))
    case ReadNew(w) =>
      var ids := NewIds(s.stream, BATCH);
      Moved(s.(stream := Read(s.stream, w, BATCH)), w,
            if ids == [] then Worker(s.workers[w].idle + 1, Top) else Worker(0, Batch(ids, [])))
    case ProcessNext(w) =>
      var phase := s.workers[w].phase;
      Moved(Committed(s, phase.todo[0], w), w,
            s.workers[w].(phase := Batch(phase.todo[1..], phase.acks + [phase.todo[0]])))
    case SkipNext(w, committed) =>
      var phase := s.workers[w].phase;
      Moved(if committed then Committed(s, phase.todo[0], w) else s, w,
            s.workers[w].(phase := Batch(phase.todo[1..], phase.acks)))
    case AckBatch(w) =>
      Moved(s.(stream := Acked(s.stream, set id | id in s.workers[w].phase.acks)), w, s.workers[w].(phase := Top))
    case Raise(w, committed) =>
      Moved(if committed then Committed(s, s.workers[w].phase.todo[0], w) else s, w, s.workers[w].(phase := Top))
    case Crash(w) => Moved(s, w, Worker(0, Top))
  }

  predicate Runs(s: System, steps: seq<Step>)
    decreases |steps|
  {
    steps != [] ==> Enabled(s, steps[0]) && Runs(Performed(s, steps[0]), steps[1..])
  }

  function After(s: System, steps: seq<Step>): System
    requires Runs(s, steps)
    decreases |steps|
  {
    if steps == [] then s else After(Performed(s, steps[0]), steps[1..])
  }
}
