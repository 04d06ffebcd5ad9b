/** Exactly-once effect from at-least-once delivery. */
module DedupTheorems {
  import opened DedupStates

  // ---------- the invariant ----------

  /** Every delivered entry is either pending or acknowledged. */
  ghost predicate StreamInv(t: Stream) {
    && t.delivered <= |t.entries|
    && (forall id | id in t.pending :: id < t.delivered && id !in t.acked)
    && (forall id | id in t.acked :: id < t.delivered)
    && (forall id: MsgId | id < t.delivered :: id in t.pending || id in t.acked)
  }

  /** How many audit rows say the key was new. */
  function NewRows(audit: seq<AuditRow>, k: Key): nat {
    if audit == [] then 0
    else NewRows(audit[..|audit| - 1], k) + if audit[|audit| - 1].key == k && audit[|audit| - 1].isNew then 1 else 0
  }

  /** The serial numbers list every row once. */
  ghost predicate OrderInv(s: Store) {
    && (forall k :: k in s.order <==> k in s.rows)
    && (forall i, j | 0 <= i < j < |s.order| :: s.order[i] != s.order[j])
  }

  /** A stored key was new exactly once, any other key never. */
  ghost predicate AuditInv(s: Store) {
    forall k :: NewRows(s.audit, k) == if k in s.rows then 1 else 0
  }

  ghost predicate StoreInv(s: Store) {
    s.unique == |s.rows| && s.unique + s.duplicate == |s.audit| && OrderInv(s) && AuditInv(s)
  }

  /** The event of every committed entry has its key stored. */
  ghost predicate Covered(s: System) {
    forall id | id in s.commits :: id < |s.stream.entries| && KeyOf(s.stream.entries[id]) in s.store.rows
  }

  /** The row of the key is the event of this entry. */
  ghost predicate IsSource(s: System, k: Key, id: MsgId) {
    && id in s.commits && id < |s.stream.entries| && k in s.store.rows
    && KeyOf(s.stream.entries[id]) == k && s.store.rows[k] == s.stream.entries[id]
  }

  /** Every row is the event of a committed entry. */
  ghost predicate Sourced(s: System) {
    forall k | k in s.store.rows :: exists id :: IsSource(s, k, id)
  }

  ghost predicate CommitsInv(s: System) {
    && s.store.unique + s.store.duplicate == |s.commits|
    && (forall id | id in s.commits :: id < s.stream.delivered)
    && (forall id | id in s.stream.acked :: id in s.commits)
    && Covered(s) && Sourced(s)
  }

  /** What a worker still has in hand has been delivered; what it is about to acknowledge is committed. */
  ghost predicate PhaseInv(s: System, p: Phase) {
    match p
    case Top => true
    case Claims(todo) => forall id | id in todo :: id < s.stream.delivered
    case AckClaim(id, todo) => id in s.commits && forall i | i in todo :: i < s.stream.delivered
    case Reading => true
    case Batch(todo, acks) => (forall id | id in todo :: id < s.stream.delivered) && forall id | id in acks :: id in s.commits
  }

  /** How many events the requests still have to publish. */
  function Left(accepted: seq<seq<Event>>): nat {
    if accepted == [] then 0 else Left(accepted[..|accepted| - 1]) + |accepted[|accepted| - 1]|
  }

  ghost predicate SystemInv(s: System) {
    && StreamInv(s.stream) && StoreInv(s.store) && CommitsInv(s)
    && (forall w | w in s.workers :: PhaseInv(s, s.workers[w].phase))
    && s.store.received == |s.stream.entries| + Left(s.accepted) + s.lost
  }

  ghost predicate Fresh(s: System) {
    && s.store == NO_ROWS && s.stream == NO_ENTRIES && s.accepted == [] && s.lost == 0 && s.commits == []
    && forall w | w in s.workers :: s.workers[w] == Worker(0, Top)
  }

  // ---------- steps of the parts ----------

  lemma NewRowsNext(audit: seq<AuditRow>, row: AuditRow, k: Key)
    ensures NewRows(audit + [row], k) == NewRows(audit, k) + if row.key == k && row.isNew then 1 else 0
  {
  }

  lemma ProcessedOrder(s: Store, ev: Event, w: WorkerId)
    requires OrderInv(s)
    ensures OrderInv(Processed(s, ev, w).0)
  {
  }

  lemma ProcessedAudit(s: Store, ev: Event, w: WorkerId)
    requires AuditInv(s)
    ensures AuditInv(Processed(s, ev, w).0)
  {
    hide NewRows;
    var s' := Processed(s, ev, w).0;
    forall k ensures NewRows(s'.audit, k) == if k in s'.rows then 1 else 0 {
      NewRowsNext(s.audit, AuditRow(KeyOf(ev), KeyOf(ev) !in s.rows, w), k);
    }
  }

  lemma ProcessedIs(s: Store, ev: Event, w: WorkerId)
    requires StoreInv(s)
    ensures var s' := Processed(s, ev, w).0;
            && StoreInv(s') && s'.unique + s'.duplicate == s.unique + s.duplicate + 1
            && s'.received == s.received
            && s'.rows == if KeyOf(ev) in s.rows then s.rows else s.rows[KeyOf(ev) := ev]
  {
    hide OrderInv, AuditInv;
    ProcessedOrder(s, ev, w);
    ProcessedAudit(s, ev, w);
    if KeyOf(ev) !in s.rows {
      assert Processed(s, ev, w).0.rows.Keys == s.rows.Keys + {KeyOf(ev)};
    }
  }

  lemma {:induction false} GivenIs(pending: map<MsgId, WorkerId>, ids: seq<MsgId>, w: WorkerId)
    ensures forall id :: id in GivenTo(pending, ids, w) <==> id in pending || id in ids
  {
    if ids != [] {
      GivenIs(pending, ids[..|ids| - 1], w);
      assert ids == ids[..|ids| - 1] + [ids[|ids| - 1]];
    }
  }

  lemma StreamSteps(t: Stream, w: WorkerId)
    requires StreamInv(t)
    ensures forall ev :: StreamInv(Published(t, ev))
    ensures forall ids | (forall id | id in ids :: id in t.pending) :: StreamInv(Claimed(t, w, ids))
    ensures forall ids :: StreamInv(Acked(t, ids))
  {
    forall ids | forall id | id in ids :: id in t.pending ensures StreamInv(Claimed(t, w, ids)) {
      GivenIs(t.pending, ids, w);
    }
  }

  lemma ReadIs(t: Stream, w: WorkerId, count: nat)
    requires StreamInv(t)
    ensures StreamInv(Read(t, w, count)) && t.delivered <= Read(t, w, count).delivered
    ensures forall id | id in NewIds(t, count) :: t.delivered <= id < Read(t, w, count).delivered
  {
    var ids := NewIds(t, count);
    GivenIs(t.pending, ids, w);
    forall id: MsgId | t.delivered <= id < t.delivered + |ids| ensures id in ids {
      assert ids[id - t.delivered] == id;
    }
  }

  /** The system moved on: nothing delivered or committed is taken back. */
  ghost predicate Grows(s: System, s': System) {
    && s.stream.delivered <= s'.stream.delivered
    && s.stream.entries <= s'.stream.entries
    && s.commits <= s'.commits
  }

  lemma PhaseStays(s: System, s': System, p: Phase)
    requires PhaseInv(s, p) && Grows(s, s')
    ensures PhaseInv(s', p)
  {
  }

  lemma WorkersStay(s: System, s': System, w: WorkerId)
    requires forall x | x in s.workers :: PhaseInv(s, s.workers[x].phase)
    requires Grows(s, s') && w in s.workers && s'.workers.Keys == s.workers.Keys
    requires forall x | x in s.workers && x != w :: s'.workers[x] == s.workers[x]
    requires PhaseInv(s', s'.workers[w].phase)
    ensures forall x | x in s'.workers :: PhaseInv(s', s'.workers[x].phase)
  {
  }

  /** s' is s after a committed transaction on this entry, as far as rows and commits go. */
  ghost predicate CommittedOne(s: System, s': System, id: MsgId) {
    && s'.stream == s.stream && id < |s.stream.entries| && s'.commits == s.commits + [id]
    && var ev := s.stream.entries[id];
       s'.store.rows == if KeyOf(ev) in s.store.rows then s.store.rows else s.store.rows[KeyOf(ev) := ev]
  }

  lemma CommitCovers(s: System, s': System, id: MsgId)
    requires Covered(s) && CommittedOne(s, s', id)
    ensures Covered(s')
  {
  }

  /** Rows stay, and a new row comes from the entry just committed. */
  lemma CommitSources(s: System, s': System, id: MsgId)
    requires Sourced(s) && CommittedOne(s, s', id)
    ensures Sourced(s')
  {
    forall k | k in s'.store.rows ensures exists i :: IsSource(s', k, i) {
      if k in s.store.rows {
        var i :| IsSource(s, k, i);
        assert IsSource(s', k, i);
      } else {
        assert IsSource(s', k, id);
      }
    }
  }

  /** A committed transaction on a delivered entry. */
  lemma CommitIs(s: System, id: MsgId, w: WorkerId)
    requires StreamInv(s.stream) && StoreInv(s.store) && CommitsInv(s) && id < s.stream.delivered
    ensures var s' := Committed(s, id, w);
            StoreInv(s'.store) && CommitsInv(s') && Grows(s, s') && id in s'.commits && s'.store.received == s.store.received
  {
    hide StoreInv, Processed, Covered, Sourced;
    var s' := Committed(s, id, w);
    ProcessedIs(s.store, s.stream.entries[id], w);
    CommitCovers(s, s', id);
    CommitSources(s, s', id);
    assert forall i :: i in s'.commits <==> i in s.commits || i == id;
  }

  lemma CoveredStays(s: System, s': System)
    requires Covered(s) && s.stream.entries <= s'.stream.entries && s'.store.rows == s.store.rows && s'.commits == s.commits
    ensures Covered(s')
  {
  }

  lemma SourcedStays(s: System, s': System)
    requires Sourced(s) && s.stream.entries <= s'.stream.entries && s'.store.rows == s.store.rows && s'.commits == s.commits
    ensures Sourced(s')
  {
    forall k | k in s'.store.rows ensures exists i :: IsSource(s', k, i) {
      var i :| IsSource(s, k, i);
      assert IsSource(s', k, i);
    }
  }

  /** The stream moves on and the rows stay. */
  lemma StreamMoves(s: System, s': System)
    requires CommitsInv(s) && Grows(s, s') && s'.store.rows == s.store.rows && s'.commits == s.commits
    requires s'.store.unique + s'.store.duplicate == s.store.unique + s.store.duplicate
    requires forall id | id in s'.stream.acked :: id in s.commits
    ensures CommitsInv(s')
  {
    hide Covered, Sourced;
    CoveredStays(s, s');
    SourcedStays(s, s');
  }

  lemma OnlyReceived(s: Store, received: nat)
    requires StoreInv(s)
    ensures StoreInv(s.(received := received))
  {
  }

  lemma LeftMore(accepted: seq<seq<Event>>, events: seq<Event>)
    ensures Left(accepted + [events]) == Left(accepted) + |events|
  {
    assert (accepted + [events])[..|accepted|] == accepted;
  }

  lemma {:induction false} LeftNow(accepted: seq<seq<Event>>, r: nat, events: seq<Event>)
    requires r < |accepted|
    ensures Left(accepted[r := events]) + |accepted[r]| == Left(accepted) + |events|
    decreases |accepted|
  {
    var front := accepted[..|accepted| - 1];
    if r < |front| {
      LeftNow(front, r, events);
      assert accepted[r := events][..|accepted| - 1] == front[r := events];
    } else {
      assert accepted[r := events][..|accepted| - 1] == front;
    }
  }

  lemma LeftAfter(s: System, step: Step)
    requires Enabled(s, step) && (step.Accept? || step.Publish? || step.PublisherCrash?)
    ensures var s' := Performed(s, step);
            s'.store.received + |s.stream.entries| + Left(s.accepted) + s.lost
            == s.store.received + |s'.stream.entries| + Left(s'.accepted) + s'.lost
  {
    match step
    case Accept(events) => LeftMore(s.accepted, events);
    case Publish(r) => LeftNow(s.accepted, r, s.accepted[r][1..]);
    case PublisherCrash(r) => LeftNow(s.accepted, r, []);
  }

  /** A step of the publisher: no worker takes part. */
  lemma PublisherStep(s: System, step: Step)
    requires SystemInv(s) && Enabled(s, step) && (step.Accept? || step.Publish? || step.PublisherCrash?)
    ensures SystemInv(Performed(s, step)) && Grows(s, Performed(s, step))
  {
    hide PhaseInv, Covered, Sourced, OrderInv, AuditInv, Left;
    var s' := Performed(s, step);
    LeftAfter(s, step);
    OnlyReceived(s.store, s'.store.received);
    StreamMoves(s, s');
    forall w | w in s'.workers ensures PhaseInv(s', s'.workers[w].phase) {
      PhaseStays(s, s', s.workers[w].phase);
    }
  }

  /** A worker commits a transaction on the entry in hand. */
  lemma CommitStep(s: System, w: WorkerId, id: MsgId, phase: Phase)
    requires SystemInv(s) && w in s.workers && id < s.stream.delivered && id < |s.stream.entries|
    requires Grows(s, Committed(s, id, w)) && id in Committed(s, id, w).commits ==> PhaseInv(Committed(s, id, w), phase)
    ensures var s' := Moved(Committed(s, id, w), w, s.workers[w].(phase := phase)); SystemInv(s') && Grows(s, s')
  {
    hide PhaseInv, CommitsInv, StoreInv, StreamInv;
    CommitIs(s, id, w);
    var s1 := Committed(s, id, w);
    var s' := Moved(s1, w, s.workers[w].(phase := phase));
    SameButWorkers(s1, s', phase);
    WorkersStay(s, s', w);
  }

  lemma SameButWorkers(s: System, s': System, phase: Phase)
    requires s' == s.(workers := s'.workers)
    ensures CommitsInv(s) ==> CommitsInv(s')
    ensures PhaseInv(s, phase) ==> PhaseInv(s', phase)
  {
    if CommitsInv(s) {
      StreamMoves(s, s');
    }
  }

  /** A worker moves on, at most with an effect on the stream. */
  lemma QuietStep(s: System, w: WorkerId, stream: Stream, worker: Worker)
    requires SystemInv(s) && w in s.workers && StreamInv(stream)
    requires stream.entries == s.stream.entries && s.stream.delivered <= stream.delivered
    requires forall id | id in stream.acked :: id in s.commits
    requires PhaseInv(s.(stream := stream), worker.phase)
    ensures var s' := Moved(s.(stream := stream), w, worker); SystemInv(s') && Grows(s, s')
  {
    hide PhaseInv, StoreInv, StreamInv, Covered, Sourced;
    var s1 := s.(stream := stream);
    var s' := Moved(s1, w, worker);
    StreamMoves(s, s');
    SameButWorkers(s1, s', worker.phase);
    WorkersStay(s, s', w);
  }

  /** The first entry in hand is done with. */
  lemma PhaseAdvances(s: System, s': System, p: Phase)
    requires PhaseInv(s, p) && Grows(s, s') && (p.Claims? || p.Batch?) && p.todo != []
    ensures p.todo[0] < s.stream.delivered
    ensures p.Batch? ==> PhaseInv(s', Batch(p.todo[1..], p.acks))
    ensures p.Batch? && p.todo[0] in s'.commits ==> PhaseInv(s', Batch(p.todo[1..], p.acks + [p.todo[0]]))
    ensures p.Claims? && p.todo[0] in s'.commits ==> PhaseInv(s', AckClaim(p.todo[0], p.todo[1..]))
  {
    PhaseStays(s, s', p);
    assert p.todo[0] in p.todo;
    assert forall id | id in p.todo[1..] :: id in p.todo;
  }

  predicate Commits(step: Step) {
    step.ProcessClaim? || step.ProcessNext? || (step.SkipNext? && step.committed) || (step.Raise? && step.committed)
  }

  lemma CommittingStep(s: System, step: Step)
    requires SystemInv(s) && Enabled(s, step) && Commits(step)
    ensures SystemInv(Performed(s, step)) && Grows(s, Performed(s, step))
  {
    hide CommitsInv, StoreInv, StreamInv;
    var w := step.w;
    var phase := s.workers[w].phase;
    var todo := phase.todo;
    assert PhaseInv(s, phase);
    var next := if step.ProcessClaim? then AckClaim(todo[0], todo[1..])
                else if step.ProcessNext? then Batch(todo[1..], phase.acks + [todo[0]])
                else if step.SkipNext? then Batch(todo[1..], phase.acks) else Top;
    var s1 := Committed(s, todo[0], w);
    if Grows(s, s1) && todo[0] in s1.commits {
      PhaseAdvances(s, s1, phase);
    }
    CommitStep(s, w, todo[0], next);
  }

  lemma OtherWorkerStep(s: System, step: Step)
    requires SystemInv(s) && Enabled(s, step) && !Commits(step)
    requires !step.Accept? && !step.Publish? && !step.PublisherCrash?
    ensures SystemInv(Performed(s, step)) && Grows(s, Performed(s, step))
  {
    hide StoreInv, StreamInv, Covered, Sourced;
    var w := step.w;
    var worker := s.workers[w];
    assert PhaseInv(s, worker.phase);
    StreamSteps(s.stream, w);
    match step {
      case LoopTop(_, stale) =>
        PendingDelivered(s.stream);
        QuietStep(s, w, if worker.idle % CLAIM_EVERY == 0 then Claimed(s.stream, w, stale) else s.stream,
                  worker.(phase := if worker.idle % CLAIM_EVERY == 0 then Claims(stale) else Reading));
      case AckClaimed(_) =>
        QuietStep(s, w, Acked(s.stream, {worker.phase.id}), worker.(phase := Claims(worker.phase.todo)));
      case ReadNew(_) =>
        ReadIs(s.stream, w, BATCH);
        var ids := NewIds(s.stream, BATCH);
        QuietStep(s, w, Read(s.stream, w, BATCH), if ids == [] then Worker(worker.idle + 1, Top) else Worker(0, Batch(ids, [])));
      case SkipNext(_, _) =>
        PhaseAdvances(s, s, worker.phase);
        QuietStep(s, w, s.stream, worker.(phase := Batch(worker.phase.todo[1..], worker.phase.acks)));
      case AckBatch(_) =>
        QuietStep(s, w, Acked(s.stream, set id | id in worker.phase.acks), worker.(phase := Top));
      case Raise(_, _) =>
        QuietStep(s, w, s.stream, worker.(phase := Top));
      case Crash(_) =>
        QuietStep(s, w, s.stream, Worker(0, Top));
    }
  }

  lemma PendingDelivered(t: Stream)
    requires StreamInv(t)
    ensures forall id | id in t.pending :: id < t.delivered
  {
  }

  lemma StepKeeps(s: System, step: Step)
    requires SystemInv(s) && Enabled(s, step)
    ensures SystemInv(Performed(s, step)) && Grows(s, Performed(s, step))
  {
    hide SystemInv, Grows, Enabled, Performed;
    if step.Accept? || step.Publish? || step.PublisherCrash? {
      PublisherStep(s, step);
    } else if Commits(step) {
      CommittingStep(s, step);
    } else {
      OtherWorkerStep(s, step);
    }
  }

  lemma {:induction false} RunKeeps(s: System, steps: seq<Step>)
    requires SystemInv(s) && Runs(s, steps)
    ensures SystemInv(After(s, steps)) && Grows(s, After(s, steps))
    decreases |steps|
  {
    hide SystemInv, Performed;
    if steps != [] {
      StepKeeps(s, steps[0]);
      RunKeeps(Performed(s, steps[0]), steps[1..]);
    }
  }

  lemma NothingYet()
    ensures StreamInv(NO_ENTRIES) && StoreInv(NO_ROWS)
  {
  }

  lemma NothingCommitted(s: System)
    requires s.store == NO_ROWS && s.stream == NO_ENTRIES && s.commits == []
    ensures CommitsInv(s)
  {
  }

  lemma NothingInHand(s: System)
    ensures PhaseInv(s, Top)
  {
  }

  lemma FreshHolds(s: System)
    requires Fresh(s)
    ensures SystemInv(s)
  {
    hide StreamInv, StoreInv, CommitsInv, PhaseInv;
    NothingYet();
    NothingCommitted(s);
    NothingInHand(s);
  }

  // ---------- the theorems ----------

  predicate AllAcked(t: Stream) {
    forall id: MsgId | id < |t.entries| :: id in t.acked
  }

  function PublishedKeys(t: Stream): set<Key> {
    set ev | ev in t.entries :: KeyOf(ev)
  }

  /**
   * After any run: one row, one count and one audit row "new" per key, every committed
   * transaction counted once, and no entry acknowledged before its key is stored.
   */
  lemma ExactlyOnceEffect(s: System, steps: seq<Step>, k: Key, id: MsgId)
    requires Fresh(s) && Runs(s, steps)
    ensures var t := After(s, steps);
            && t.store.unique == |t.store.rows|
            && t.store.unique + t.store.duplicate == |t.commits|
            && NewRows(t.store.audit, k) == (if k in t.store.rows then 1 else 0)
            && (k in t.store.rows ==> k in PublishedKeys(t.stream) && t.store.rows[k] in t.stream.entries)
            && (id in t.stream.acked ==> id < |t.stream.entries| && KeyOf(t.stream.entries[id]) in t.store.rows)
  {
    hide Runs, After, Fresh, SystemInv;
    FreshHolds(s);
    RunKeeps(s, steps);
    AckedIsStored(After(s, steps), id);
    RowIsPublished(After(s, steps), k);
    CountsAgree(After(s, steps), k);
  }

  lemma AckedIsStored(t: System, id: MsgId)
    requires SystemInv(t)
    ensures id in t.stream.acked ==> id < |t.stream.entries| && KeyOf(t.stream.entries[id]) in t.store.rows
  {
  }

  lemma RowIsPublished(t: System, k: Key)
    requires SystemInv(t)
    ensures k in t.store.rows ==> k in PublishedKeys(t.stream) && t.store.rows[k] in t.stream.entries
  {
    hide StoreInv, Covered, StreamInv, PhaseInv;
    if k in t.store.rows {
      assert Sourced(t);
      var i: MsgId :| IsSource(t, k, i);
      assert t.stream.entries[i] in t.stream.entries && KeyOf(t.stream.entries[i]) == k;
    }
  }

  lemma CountsAgree(t: System, k: Key)
    requires SystemInv(t)
    ensures t.store.unique == |t.store.rows| && t.store.unique + t.store.duplicate == |t.commits|
    ensures NewRows(t.store.audit, k) == if k in t.store.rows then 1 else 0
  {
  }

  /** When everything published is acknowledged, the stored keys are exactly the published keys. */
  lemma DrainedMeansStored(s: System, steps: seq<Step>)
    requires Fresh(s) && Runs(s, steps) && AllAcked(After(s, steps).stream)
    ensures var t := After(s, steps);
            t.store.rows.Keys == PublishedKeys(t.stream) && t.store.unique == |PublishedKeys(t.stream)|
  {
    hide Runs, After, SystemInv, Fresh;
    var t := After(s, steps);
    forall k ensures k in t.store.rows <==> k in PublishedKeys(t.stream) {
      ExactlyOnceEffect(s, steps, k, 0);
      if ev :| ev in t.stream.entries && KeyOf(ev) == k {
        var i :| 0 <= i < |t.stream.entries| && t.stream.entries[i] == ev;
        ExactlyOnceEffect(s, steps, k, i);
      }
    }
    ExactlyOnceEffect(s, steps, Key("", ""), 0);
    assert t.store.rows.Keys == PublishedKeys(t.stream);
  }

  /** No entry is forgotten: it is still to be read, waits to be claimed, or is acknowledged with its key stored. */
  lemma NothingIsForgotten(s: System, steps: seq<Step>, id: MsgId, w: WorkerId)
    requires Fresh(s) && Runs(s, steps) && id < |After(s, steps).stream.entries|
    ensures var t := After(s, steps);
            && (id >= t.stream.delivered || id in t.stream.pending || id in t.stream.acked)
            && !(id in t.stream.pending && id in t.stream.acked)
            && (id in t.stream.pending && w in t.workers && t.workers[w] == Worker(0, Top) ==> Enabled(t, LoopTop(w, [id])))
  {
    hide Runs, After, Fresh, StoreInv, CommitsInv;
    FreshHolds(s);
    RunKeeps(s, steps);
  }

  /** The row of a key is never overwritten or removed. */
  lemma {:induction false} RowsStay(s: System, steps: seq<Step>, k: Key)
    requires Runs(s, steps) && k in s.store.rows
    ensures k in After(s, steps).store.rows && After(s, steps).store.rows[k] == s.store.rows[k]
    decreases |steps|
  {
    hide Enabled;
    if steps != [] {
      RowStays(s, steps[0], k);
      RowsStay(Performed(s, steps[0]), steps[1..], k);
    }
  }

  lemma RowStays(s: System, step: Step, k: Key)
    requires Enabled(s, step) && k in s.store.rows
    ensures k in Performed(s, step).store.rows && Performed(s, step).store.rows[k] == s.store.rows[k]
  {
  }

  // ---------- the counters ----------

  ghost predicate NoRepeats(ids: seq<MsgId>) {
    forall i, j | 0 <= i < j < |ids| :: ids[i] != ids[j]
  }

  function Members(ids: seq<MsgId>): set<MsgId> {
    set id | id in ids
  }

  /** A list that names every entry has their number exactly when it repeats none. */
  lemma CoveringSize(ids: seq<MsgId>, n: nat)
    requires forall id: MsgId :: id in ids <==> id < n
    ensures |ids| >= n && (|ids| == n <==> NoRepeats(ids))
  {
    hide NoRepeats;
    BelowSize(n);
    MembersSize(ids);
    assert Below(n) == Members(ids);
  }

  function Below(n: nat): set<MsgId> {
    if n == 0 then {} else Below(n - 1) + {n - 1}
  }

  lemma {:induction false} BelowSize(n: nat)
    ensures |Below(n)| == n && forall id: MsgId :: id in Below(n) <==> id < n
  {
    if n > 0 {
      BelowSize(n - 1);
    }
  }

  lemma {:induction false} MembersSize(ids: seq<MsgId>)
    ensures |Members(ids)| <= |ids|
    ensures |Members(ids)| == |ids| <==> NoRepeats(ids)
  {
    if ids != [] {
      var front, last := ids[..|ids| - 1], ids[|ids| - 1];
      MembersSize(front);
      assert ids == front + [last];
      assert Members(ids) == Members(front) + {last};
      assert last in front ==> Members(ids) == Members(front);
      RepeatsNext(front, last);
    }
  }

  lemma RepeatsNext(front: seq<MsgId>, last: MsgId)
    ensures NoRepeats(front + [last]) <==> NoRepeats(front) && last !in front
  {
    var ids := front + [last];
    assert forall i | 0 <= i < |front| :: ids[i] == front[i];
    assert ids[|front|] == last;
    if i :| 0 <= i < |front| && front[i] == last {
      assert ids[i] == ids[|front|];
    }
  }

  /** Everything accepted has been published or lost, and everything published is acknowledged. */
  predicate Drained(t: System) {
    AllAcked(t.stream) && Left(t.accepted) == 0
  }

  /**
   * The statistics of a drained system: received is unique plus duplicate exactly when
   * the commits of entries committed before make up for the events that a publisher
   * counted and never published.
   */
  lemma ReceivedAddsUp(s: System, steps: seq<Step>)
    requires Fresh(s) && Runs(s, steps) && Drained(After(s, steps))
    ensures var t := After(s, steps);
            && t.store.received == |t.stream.entries| + t.lost
            && t.store.unique + t.store.duplicate == |t.commits| >= |t.stream.entries|
            && (t.store.received == t.store.unique + t.store.duplicate <==> |t.commits| == |t.stream.entries| + t.lost)
            && (|t.commits| == |t.stream.entries| <==> NoRepeats(t.commits))
  {
    hide Runs, After, Fresh, StoreInv, Covered, Sourced, NoRepeats;
    FreshHolds(s);
    RunKeeps(s, steps);
    var t := After(s, steps);
    CoveringSize(t.commits, |t.stream.entries|);
  }

  /** If no publisher lost an event: exactly when no entry was committed twice. */
  lemma ReceivedAddsUpWithoutLoss(s: System, steps: seq<Step>)
    requires Fresh(s) && Runs(s, steps) && Drained(After(s, steps)) && After(s, steps).lost == 0
    ensures var t := After(s, steps);
            t.store.received == t.store.unique + t.store.duplicate <==> NoRepeats(t.commits)
  {
    hide Runs, After, Fresh, Drained, NoRepeats;
    ReceivedAddsUp(s, steps);
  }

  /** A publisher that dies between counting and publishing makes the two sides differ, with no repeat at all. */
  lemma LostEventIsCounted(ev: Event) returns (s: System, steps: seq<Step>)
    ensures Fresh(s) && Runs(s, steps) && Drained(After(s, steps))
    ensures var t := After(s, steps);
            t.lost == 1 && NoRepeats(t.commits) && t.store.received == 1 && t.store.unique == t.store.duplicate == 0
  {
    s := System(NO_ROWS, NO_ENTRIES, [], 0, map[], []);
    var s1 := System(ONE_RECEIVED, NO_ENTRIES, [[ev]], 0, map[], []);
    var s2 := System(ONE_RECEIVED, NO_ENTRIES, [[]], 1, map[], []);
    LeftMore([], []);
    EmptyRun(s2);
    steps := RunStep(s1, PublisherCrash(0), [], s2);
    steps := RunStep(s, Accept([ev]), steps, s1);
  }

  /** A lost event and a repeated commit cancel out: the sum is right although an entry was committed twice. */
  lemma LossHidesRepeat(ev: Event, w: WorkerId) returns (s: System, steps: seq<Step>)
    ensures Fresh(s) && Runs(s, steps) && Drained(After(s, steps))
    ensures var t := After(s, steps);
            t.lost == 1 && !NoRepeats(t.commits) && t.store.received == t.store.unique + t.store.duplicate == 2
  {
    hide Runs, After, Fresh;
    s, steps := CrashCountsTwice(ev, w);
    var t := After(s, steps);
    var t1 := Performed(t, Accept([ev]));
    var t2 := Performed(t1, PublisherCrash(|t.accepted|));
    LeftMore(t.accepted, [ev]);
    LeftNow(t1.accepted, |t.accepted|, []);
    assert t.commits[0] == t.commits[1];
    EmptyRun(t2);
    var more := RunStep(t1, PublisherCrash(|t.accepted|), [], t2);
    more := RunStep(t, Accept([ev]), more, t1);
    Joined(s, steps, more);
    steps := steps + more;
  }

  /** A worker that crashes between commit and acknowledgement makes the two sides differ: one event, counted twice. */
  lemma CrashCountsTwice(ev: Event, w: WorkerId) returns (s: System, steps: seq<Step>)
    ensures Fresh(s) && Runs(s, steps)
    ensures var t := After(s, steps);
            && Drained(t) && t.lost == 0 && t.commits == [0, 0]
            && t.store.received == 1 && t.store.unique == 1 && t.store.duplicate == 1
  {
    hide Processed, Enabled, Performed, Runs, After;
    var r1 := Processed(ONE_RECEIVED, ev, w).0;
    CountedTwice(ev, w);
    var claimed := Reclaimed(r1, ev, w);
    var read := ReadAndCrash(ev, w);
    s := System(NO_ROWS, NO_ENTRIES, [], 0, map[w := Worker(0, Top)], []);
    var s1 := System(ONE_RECEIVED, NO_ENTRIES, [[ev]], 0, map[w := Worker(0, Top)], []);
    assert Enabled(s, Accept([ev])) && Performed(s, Accept([ev])) == s1 by {
      Accepted(ev, w);
    }
    Joined(s1, read, claimed);
    steps := RunStep(s, Accept([ev]), read + claimed, s1);
  }

  const ONE_RECEIVED := NO_ROWS.(received := 1)

  lemma Accepted(ev: Event, w: WorkerId)
    ensures var s := System(NO_ROWS, NO_ENTRIES, [], 0, map[w := Worker(0, Top)], []);
            && Enabled(s, Accept([ev]))
            && Performed(s, Accept([ev])) == System(ONE_RECEIVED, NO_ENTRIES, [[ev]], 0, map[w := Worker(0, Top)], [])
  {
    assert [] + [[ev]] == [[ev]];
  }

  lemma {:induction false} Joined(s: System, a: seq<Step>, b: seq<Step>)
    requires Runs(s, a) && Runs(After(s, a), b)
    ensures Runs(s, a + b) && After(s, a + b) == After(After(s, a), b)
    decreases |a|
  {
    hide Enabled, Performed;
    if a == [] {
      assert a + b == b;
    } else {
      Joined(Performed(s, a[0]), a[1..], b);
      assert (a + b)[1..] == a[1..] + b;
    }
  }

  /** The event is published, read and committed; then the worker crashes. */
  lemma ReadAndCrash(ev: Event, w: WorkerId) returns (steps: seq<Step>)
    ensures var s1 := System(ONE_RECEIVED, NO_ENTRIES, [[ev]], 0, map[w := Worker(0, Top)], []);
            && Runs(s1, steps)
            && After(s1, steps) == System(Processed(ONE_RECEIVED, ev, w).0, Stream([ev], 1, map[0 := w], {}), [[]], 0,
                                          map[w := Worker(0, Top)], [0])
  {
    hide Processed, Runs, After;
    var r0, r1 := ONE_RECEIVED, Processed(ONE_RECEIVED, ev, w).0;
    var t1, t4 := Stream([ev], 0, map[], {}), Stream([ev], 1, map[0 := w], {});
    var s1 := System(r0, NO_ENTRIES, [[ev]], 0, map[w := Worker(0, Top)], []);
    var s2 := System(r0, t1, [[]], 0, map[w := Worker(0, Top)], []);
    var s3 := System(r0, t1, [[]], 0, map[w := Worker(0, Claims([]))], []);
    var s4 := System(r0, t4, [[]], 0, map[w := Worker(0, Batch([0], []))], []);
    var s5 := System(r1, t4, [[]], 0, map[w := Worker(0, Batch([], [0]))], [0]);
    var s6 := System(r1, t4, [[]], 0, map[w := Worker(0, Top)], [0]);
    OneGiven(w);
    EmptyRun(s6);
    assert [0][1..] == [] && [] + [0] == [0];
    steps := RunStep(s5, Crash(w), [], s6);
    steps := RunStep(s4, ProcessNext(w), steps, s5);
    steps := RunStep(s3, ReadNew(w), steps, s4);
    steps := RunStep(s2, LoopTop(w, []), steps, s3);
    PublishedOne(ev, w);
    steps := RunStep(s1, Publish(0), steps, s2);
  }

  lemma PublishedOne(ev: Event, w: WorkerId)
    ensures var s1 := System(ONE_RECEIVED, NO_ENTRIES, [[ev]], 0, map[w := Worker(0, Top)], []);
            && Enabled(s1, Publish(0))
            && Performed(s1, Publish(0)) == System(ONE_RECEIVED, Stream([ev], 0, map[], {}), [[]], 0, map[w := Worker(0, Top)], [])
  {
    assert [ev][1..] == [] && [[ev]][0 := []] == [[]] && [] + [ev] == [ev];
  }

  /** The pending entry is claimed, committed again and acknowledged. */
  lemma Reclaimed(r1: Store, ev: Event, w: WorkerId) returns (steps: seq<Step>)
    ensures var s6 := System(r1, Stream([ev], 1, map[0 := w], {}), [[]], 0, map[w := Worker(0, Top)], [0]);
            && Runs(s6, steps)
            && After(s6, steps) == System(Processed(r1, ev, w).0, Stream([ev], 1, map[], {0}), [[]], 0,
                                          map[w := Worker(0, Claims([]))], [0, 0])
  {
    hide Processed, Runs, After;
    var t4, r2 := Stream([ev], 1, map[0 := w], {}), Processed(r1, ev, w).0;
    var s6 := System(r1, t4, [[]], 0, map[w := Worker(0, Top)], [0]);
    var s7 := System(r1, t4, [[]], 0, map[w := Worker(0, Claims([0]))], [0]);
    var s8 := System(r2, t4, [[]], 0, map[w := Worker(0, AckClaim(0, []))], [0, 0]);
    var s9 := System(r2, Stream([ev], 1, map[], {0}), [[]], 0, map[w := Worker(0, Claims([]))], [0, 0]);
    OneGiven(w);
    EmptyRun(s9);
    assert [0][1..] == [] && [0] + [0] == [0, 0];
    assert Acked(t4, {0}) == s9.stream;
    steps := RunStep(s8, AckClaimed(w), [], s9);
    steps := RunStep(s7, ProcessClaim(w), steps, s8);
    steps := RunStep(s6, LoopTop(w, [0]), steps, s7);
  }

  lemma EmptyRun(s: System)
    ensures Runs(s, []) && After(s, []) == s
  {
  }

  lemma RunStep(s: System, step: Step, rest: seq<Step>, s1: System) returns (steps: seq<Step>)
    requires Enabled(s, step) && Performed(s, step) == s1 && Runs(s1, rest)
    ensures Runs(s, steps) && After(s, steps) == After(s1, rest)
  {
    steps := [step] + rest;
    assert ([step] + rest)[1..] == rest;
  }

  lemma CountedTwice(ev: Event, w: WorkerId)
    ensures var r2 := Processed(Processed(ONE_RECEIVED, ev, w).0, ev, w).0; r2.received == 1 && r2.unique == 1 && r2.duplicate == 1
  {
  }

  lemma OneGiven(w: WorkerId)
    ensures GivenTo(map[], [0], w) == map[0 := w] && GivenTo(map[0 := w], [0], w) == map[0 := w] && GivenTo(map[], [], w) == map[]
    ensures forall ev :: NewIds(Stream([ev], 0, map[], {}), BATCH) == [0]
  {
  }
}
