/** The aggregator's database, its broker, and one round of a worker's loop, as the program runs them. */
module DedupService {
  import opened DedupStates
  import opened DedupTheorems

  class Database {
    var rows: map<Key, Event>
    var order: seq<Key>
    var received: nat
    var unique: nat
    var duplicate: nat
    var audit: seq<AuditRow>

    ghost function State(): Store
      reads this
    {
      Store(rows, order, received, unique, duplicate, audit)
    }

    constructor ()
      ensures State() == NO_ROWS
    {
      rows, order, received, unique, duplicate, audit := map[], [], 0, 0, 0, [];
    }

    method IncrReceived(n: nat)
      modifies this`received
      ensures State() == old(State()).(received := old(received) + n)
    {
      received := received + n;
    }

    /** One transaction: the row if its key is new, the counter, the audit row. */
    method ProcessEvent(ev: Event, worker: WorkerId) returns (isNew: bool)
      modifies this
      ensures (State(), isNew) == Processed(old(State()), ev, worker)
    {
      isNew := KeyOf(ev) !in rows;
      if isNew {
        rows := rows[KeyOf(ev) := ev];
        order := order + [KeyOf(ev)];
        unique := unique + 1;
      } else {
        duplicate := duplicate + 1;
      }
      audit := audit + [AuditRow(KeyOf(ev), isNew, worker)];
    }
  }

  class Broker {
    var entries: seq<Event>
    var delivered: nat
    var pending: map<MsgId, WorkerId>
    var acked: set<MsgId>

    ghost function State(): Stream
      reads this
    {
      Stream(entries, delivered, pending, acked)
    }

    constructor ()
      ensures State() == NO_ENTRIES
    {
      entries, delivered, pending, acked := [], 0, map[], {};
    }

    method Publish(ev: Event) returns (id: MsgId)
      modifies this`entries
      ensures State() == Published(old(State()), ev) && id == |old(entries)|
    {
      id := |entries|;
      entries := entries + [ev];
    }

    /** The next entries nobody in the group has had yet. */
    method ReadGroup(worker: WorkerId, count: nat) returns (ids: seq<MsgId>)
      modifies this`delivered, this`pending
      ensures ids == NewIds(old(State()), count) && State() == Read(old(State()), worker, count)
    {
      ids := NewIds(Stream(entries, delivered, pending, acked), count);
      for i := 0 to |ids|
        invariant pending == GivenTo(old(pending), ids[..i], worker) && delivered == old(delivered) + i
      {
        assert ids[..i + 1][..i] == ids[..i];
        pending := pending[ids[i] := worker];
        delivered := delivered + 1;
      }
      assert ids[..|ids|] == ids;
    }

    /** Takes over the entries that the stream finds stale. */
    method ClaimStale(worker: WorkerId, stale: seq<MsgId>)
      modifies this`pending
      ensures State() == Claimed(old(State()), worker, stale)
    {
      for i := 0 to |stale|
        invariant pending == GivenTo(old(pending), stale[..i], worker)
      {
        assert stale[..i + 1][..i] == stale[..i];
        pending := pending[stale[i] := worker];
      }
      assert stale[..|stale|] == stale;
    }

    method Ack(ids: set<MsgId>)
      modifies this`pending, this`acked
      ensures State() == Acked(old(State()), ids)
    {
      acked := acked + (ids * pending.Keys);
      pending := pending - ids;
    }
  }

  /** The whole system while only one worker moves. */
  ghost function Alone(store: Store, stream: Stream, w: WorkerId, worker: Worker, log: seq<MsgId>): System {
    System(store, stream, [], 0, map[w := worker], log)
  }

  ghost predicate Led(s: System, steps: seq<Step>, t: System) {
    Runs(s, steps) && After(s, steps) == t
  }

  lemma OneMore(s: System, steps: seq<Step>, t: System, step: Step, t': System)
    requires Led(s, steps, t) && Enabled(t, step) && Performed(t, step) == t'
    ensures Led(s, steps + [step], t')
  {
    EmptyRun(t');
    assert Runs(t, [step]) && After(t, [step]) == t' by {
      assert [step][1..] == [];
    }
    Joined(s, steps, [step]);
  }

  // ---------- the steps of a worker that moves alone ----------

  lemma AloneTop(store: Store, t: Stream, w: WorkerId, idle: nat, stale: seq<MsgId>, log: seq<MsgId>)
    requires |stale| <= BATCH && (idle % CLAIM_EVERY != 0 ==> stale == []) && forall id | id in stale :: id in t.pending
    ensures var s, step := Alone(store, t, w, Worker(idle, Top), log), LoopTop(w, stale);
            && Enabled(s, step)
            && Performed(s, step) == if idle % CLAIM_EVERY == 0 then Alone(store, Claimed(t, w, stale), w, Worker(idle, Claims(stale)), log)
                                     else Alone(store, t, w, Worker(idle, Reading), log)
  {
    hide Claimed;
    assert forall x: Worker, y :: map[w := x][w := y] == map[w := y];
  }

  lemma AloneClaim(store: Store, t: Stream, w: WorkerId, idle: nat, todo: seq<MsgId>, log: seq<MsgId>)
    requires todo != [] && todo[0] < |t.entries|
    ensures var s, step := Alone(store, t, w, Worker(idle, Claims(todo)), log), ProcessClaim(w);
            && Enabled(s, step)
            && Performed(s, step) == Alone(Processed(store, t.entries[todo[0]], w).0, t, w,
                                           Worker(idle, AckClaim(todo[0], todo[1..])), log + [todo[0]])
  {
    hide Processed;
    assert forall x: Worker, y :: map[w := x][w := y] == map[w := y];
  }

  lemma AloneAck(store: Store, t: Stream, w: WorkerId, idle: nat, id: MsgId, todo: seq<MsgId>, log: seq<MsgId>)
    ensures var s, step := Alone(store, t, w, Worker(idle, AckClaim(id, todo)), log), AckClaimed(w);
            Enabled(s, step) && Performed(s, step) == Alone(store, Acked(t, {id}), w, Worker(idle, Claims(todo)), log)
  {
    hide Acked;
    assert forall x: Worker, y :: map[w := x][w := y] == map[w := y];
  }

  lemma AloneRaise(store: Store, t: Stream, w: WorkerId, worker: Worker, log: seq<MsgId>)
    ensures var s, step := Alone(store, t, w, worker, log), Raise(w, false);
            Enabled(s, step) && Performed(s, step) == Alone(store, t, w, Worker(worker.idle, Top), log)
  {
    assert forall x: Worker, y :: map[w := x][w := y] == map[w := y];
  }

  lemma AloneRead(store: Store, t: Stream, w: WorkerId, idle: nat, phase: Phase, log: seq<MsgId>)
    requires phase == Reading || phase == Claims([])
    ensures var s, step := Alone(store, t, w, Worker(idle, phase), log), ReadNew(w);
            && Enabled(s, step)
            && Performed(s, step) == Alone(store, Read(t, w, BATCH), w, if NewIds(t, BATCH) == [] then Worker(idle + 1, Top)
                                                                       else Worker(0, Batch(NewIds(t, BATCH), [])), log)
  {
    hide Read, NewIds;
    assert forall x: Worker, y :: map[w := x][w := y] == map[w := y];
  }

  lemma AloneNext(store: Store, t: Stream, w: WorkerId, todo: seq<MsgId>, acks: seq<MsgId>, log: seq<MsgId>)
    requires todo != [] && todo[0] < |t.entries|
    ensures var s := Alone(store, t, w, Worker(0, Batch(todo, acks)), log);
            && Enabled(s, ProcessNext(w)) && Enabled(s, SkipNext(w, false))
            && Performed(s, ProcessNext(w)) == Alone(Processed(store, t.entries[todo[0]], w).0, t, w,
                                                     Worker(0, Batch(todo[1..], acks + [todo[0]])), log + [todo[0]])
            && Performed(s, SkipNext(w, false)) == Alone(store, t, w, Worker(0, Batch(todo[1..], acks)), log)
  {
    hide Processed;
    assert forall x: Worker, y :: map[w := x][w := y] == map[w := y];
  }

  lemma AloneAckBatch(store: Store, t: Stream, w: WorkerId, acks: seq<MsgId>, log: seq<MsgId>)
    ensures var s := Alone(store, t, w, Worker(0, Batch([], acks)), log);
            && Enabled(s, AckBatch(w))
            && Performed(s, AckBatch(w)) == Alone(store, Acked(t, Members(acks)), w, Worker(0, Top), log)
  {
    hide Acked;
    assert forall x: Worker, y :: map[w := x][w := y] == map[w := y];
  }

  // ---------- one round of the loop ----------

  /** The entries before the first one whose processing raises. */
  function BeforeFailing(ids: seq<MsgId>, failing: set<MsgId>): seq<MsgId> {
    if ids == [] || ids[0] in failing then [] else [ids[0]] + BeforeFailing(ids[1..], failing)
  }

  lemma {:induction false} BeforeFailingIs(ids: seq<MsgId>, failing: set<MsgId>, i: nat)
    requires i <= |ids| && (forall j | 0 <= j < i :: ids[j] !in failing) && (i < |ids| ==> ids[i] in failing)
    ensures BeforeFailing(ids, failing) == ids[..i]
  {
    if i > 0 {
      BeforeFailingIs(ids[1..], failing, i - 1);
      assert ids[..i] == [ids[0]] + ids[1..][..i - 1];
    }
  }

  /** The entries whose processing does not raise. */
  function Passing(ids: seq<MsgId>, failing: set<MsgId>): seq<MsgId> {
    if ids == [] then []
    else
      var p := Passing(ids[..|ids| - 1], failing);
      if ids[|ids| - 1] in failing then p else p + [ids[|ids| - 1]]
  }

  lemma {:induction false} PassingIn(ids: seq<MsgId>, failing: set<MsgId>)
    ensures forall id | id in Passing(ids, failing) :: id in ids
  {
    if ids != [] {
      PassingIn(ids[..|ids| - 1], failing);
    }
  }

  lemma PassingNext(ids: seq<MsgId>, failing: set<MsgId>, i: nat)
    requires i < |ids|
    ensures Passing(ids[..i + 1], failing) == Passing(ids[..i], failing) + if ids[i] in failing then [] else [ids[i]]
  {
    assert ids[..i + 1][..i] == ids[..i];
  }

  /** How far the claimed entries have been processed and acknowledged. */
  ghost predicate ClaimedSoFar(stale: seq<MsgId>, i: nat, failing: set<MsgId>, log: seq<MsgId>, log': seq<MsgId>,
                               acked: set<MsgId>, t: Stream) {
    && i <= |stale| && (forall j | 0 <= j < i :: stale[j] !in failing)
    && log' == log + stale[..i] && t.acked == acked + Members(stale[..i])
    && forall id | id in stale :: id in t.pending || id in t.acked
  }

  lemma ClaimedNext(stale: seq<MsgId>, i: nat, failing: set<MsgId>, log: seq<MsgId>, log': seq<MsgId>, acked: set<MsgId>, t: Stream)
    requires ClaimedSoFar(stale, i, failing, log, log', acked, t) && i < |stale| && stale[i] !in failing
    ensures ClaimedSoFar(stale, i + 1, failing, log, log' + [stale[i]], acked, Acked(t, {stale[i]}))
  {
  }

  lemma ClaimedNothing(stale: seq<MsgId>, failing: set<MsgId>, log: seq<MsgId>, t: Stream, w: WorkerId)
    requires forall id | id in stale :: id in t.pending
    ensures ClaimedSoFar(stale, 0, failing, log, log, t.acked, Claimed(t, w, stale)) && log + [] == log && Members([]) == {}
  {
    GivenIs(t.pending, stale, w);
    assert stale[..0] == [] && Members([]) == {};
  }

  /** First half: every fifth idle round claims stale entries, then processes and acknowledges them one by one. */
  method ClaimRound(name: WorkerId, db: Database, broker: Broker, idle: nat, stale: seq<MsgId>, failing: set<MsgId>,
                    ghost log: seq<MsgId>)
    returns (raised: bool, ghost phase: Phase, ghost steps: seq<Step>, ghost log': seq<MsgId>)
    requires |stale| <= BATCH && (forall id | id in stale :: id in broker.pending)
    requires forall id | id in broker.pending :: id < |broker.entries|
    modifies db, broker
    ensures var done := if idle % CLAIM_EVERY == 0 then BeforeFailing(stale, failing) else [];
            && log' == log + done && broker.acked == old(broker.acked) + Members(done)
            && (raised <==> idle % CLAIM_EVERY == 0 && |done| < |stale|)
    ensures phase == if raised then Top else if idle % CLAIM_EVERY == 0 then Claims([]) else Reading
    ensures broker.entries == old(broker.entries) && broker.delivered == old(broker.delivered)
    ensures Led(Alone(old(db.State()), old(broker.State()), name, Worker(idle, Top), log), steps,
                Alone(db.State(), broker.State(), name, Worker(idle, phase), log'))
  {
    hide Processed, Enabled, Performed, Runs, After, Led, BeforeFailing, Members, Acked, Claimed;
    ghost var s := Alone(db.State(), broker.State(), name, Worker(idle, Top), log);
    steps, log' := [], log;
    NothingLed(s);
    AloneTop(db.State(), broker.State(), name, idle, if idle % CLAIM_EVERY == 0 then stale else [], log);
    if idle % CLAIM_EVERY != 0 {
      OneMore(s, steps, s, LoopTop(name, []), Alone(db.State(), broker.State(), name, Worker(idle, Reading), log));
      ClaimedNothing([], {}, log, broker.State(), name);
      return false, Reading, steps + [LoopTop(name, [])], log';
    }
    ClaimedNothing(stale, failing, log, broker.State(), name);
    broker.ClaimStale(name, stale);
    ghost var t := Alone(db.State(), broker.State(), name, Worker(idle, Claims(stale)), log);
    OneMore(s, steps, s, LoopTop(name, stale), t);
    steps := steps + [LoopTop(name, stale)];
    assert stale[0..] == stale;
    assert forall id | id in stale :: id < |broker.entries|;
    for i := 0 to |stale|
      invariant broker.entries == old(broker.entries) && broker.delivered == old(broker.delivered)
      invariant t == Alone(db.State(), broker.State(), name, Worker(idle, Claims(stale[i..])), log')
      invariant Led(s, steps, t)
      invariant ClaimedSoFar(stale, i, failing, log, log', old(broker.acked), broker.State())
    {
      var id := stale[i];
      assert id in stale && stale[i..][0] == id && stale[i..][1..] == stale[i + 1..];
      if id in failing {
        BeforeFailingIs(stale, failing, i);
        AloneRaise(db.State(), broker.State(), name, Worker(idle, Claims(stale[i..])), log');
        OneMore(s, steps, t, Raise(name, false), Alone(db.State(), broker.State(), name, Worker(idle, Top), log'));
        return true, Top, steps + [Raise(name, false)], log';
      }
      ClaimedNext(stale, i, failing, log, log', old(broker.acked), broker.State());
      AloneClaim(db.State(), broker.State(), name, idle, stale[i..], log');
      var isNew := db.ProcessEvent(broker.entries[id], name);
      log' := log' + [id];
      ghost var t1 := Alone(db.State(), broker.State(), name, Worker(idle, AckClaim(id, stale[i + 1..])), log');
      OneMore(s, steps, t, ProcessClaim(name), t1);
      AloneAck(db.State(), broker.State(), name, idle, id, stale[i + 1..], log');
      broker.Ack({id});
      t := Alone(db.State(), broker.State(), name, Worker(idle, Claims(stale[i + 1..])), log');
      OneMore(s, steps + [ProcessClaim(name)], t1, AckClaimed(name), t);
      steps := steps + [ProcessClaim(name)] + [AckClaimed(name)];
    }
    assert stale[|stale|..] == [];
    BeforeFailingIs(stale, failing, |stale|);
    return false, Claims([]), steps, log';
  }

  /** Second half: reads a batch, processes it entry by entry, and acknowledges what did not raise. */
  method ReadRound(name: WorkerId, db: Database, broker: Broker, idle: nat, failing: set<MsgId>,
                   ghost phase: Phase, ghost log: seq<MsgId>)
    returns (nextIdle: nat, ghost steps: seq<Step>, ghost log': seq<MsgId>)
    requires (phase == Reading || phase == Claims([])) && broker.delivered <= |broker.entries|
    modifies db, broker
    ensures var ids := NewIds(old(broker.State()), BATCH);
            && log' == log + Passing(ids, failing) && broker.acked == old(broker.acked) + Members(Passing(ids, failing))
            && nextIdle == if ids == [] then idle + 1 else 0
    ensures Led(Alone(old(db.State()), old(broker.State()), name, Worker(idle, phase), log), steps,
                Alone(db.State(), broker.State(), name, Worker(nextIdle, Top), log'))
  {
    hide Processed, Read, Acked, Enabled, Performed, Runs, After, Led, NewIds, Members, Passing;
    ghost var s := Alone(db.State(), broker.State(), name, Worker(idle, phase), log);
    steps, log' := [ReadNew(name)], log;
    NothingLed(s);
    AloneRead(db.State(), broker.State(), name, idle, phase, log);
    NewIdsExist(broker.State(), BATCH);
    var ids := broker.ReadGroup(name, BATCH);
    ghost var t := Alone(db.State(), broker.State(), name, if ids == [] then Worker(idle + 1, Top) else Worker(0, Batch(ids, [])), log);
    OneMore(s, [], s, ReadNew(name), t);
    assert [] + [ReadNew(name)] == [ReadNew(name)];
    ReadGives(old(broker.State()), name, BATCH);
    PassingNone(log, failing);
    if ids == [] {
      return idle + 1, steps, log';
    }
    var acks: seq<MsgId> := [];
    ghost var given := broker.State();
    assert ids[0..] == ids && ids[..0] == [];
    for i := 0 to |ids|
      invariant broker.State() == given
      invariant t == Alone(db.State(), broker.State(), name, Worker(0, Batch(ids[i..], acks)), log')
      invariant Led(s, steps, t)
      invariant acks == Passing(ids[..i], failing) && log' == log + acks
    {
      var id := ids[i];
      assert id in ids && ids[i..][0] == id && ids[i..][1..] == ids[i + 1..];
      PassingNext(ids, failing, i);
      AloneNext(db.State(), broker.State(), name, ids[i..], acks, log');
      ghost var before := t;
      ghost var step := SkipNext(name, false);
      if id !in failing {
        var isNew := db.ProcessEvent(broker.entries[id], name);
        log' := log' + [id];
        acks := acks + [id];
        step := ProcessNext(name);
      }
      t := Alone(db.State(), broker.State(), name, Worker(0, Batch(ids[i + 1..], acks)), log');
      OneMore(s, steps, before, step, t);
      steps := steps + [step];
    }
    assert ids[|ids|..] == [] && ids[..|ids|] == ids;
    PassingIn(ids, failing);
    AloneAckBatch(db.State(), broker.State(), name, acks, log');
    AckedOfPending(broker.State(), acks);
    broker.Ack(Members(acks));
    OneMore(s, steps, t, AckBatch(name), Alone(db.State(), broker.State(), name, Worker(0, Top), log'));
    return 0, steps + [AckBatch(name)], log';
  }

  lemma NewIdsExist(t: Stream, count: nat)
    requires t.delivered <= |t.entries|
    ensures forall id | id in NewIds(t, count) :: id < |t.entries|
  {
  }

  /** What a read returns is pending, and nothing else changes. */
  lemma ReadGives(t: Stream, w: WorkerId, count: nat)
    ensures Read(t, w, count).acked == t.acked && Read(t, w, count).entries == t.entries
    ensures forall id | id in NewIds(t, count) :: id in Read(t, w, count).pending
  {
    hide NewIds;
    GivenIs(t.pending, NewIds(t, count), w);
  }

  lemma PassingNone(log: seq<MsgId>, failing: set<MsgId>)
    ensures Passing([], failing) == [] && log + [] == log && Members([]) == {}
  {
  }

  lemma AckedOfPending(t: Stream, ids: seq<MsgId>)
    requires forall id | id in ids :: id in t.pending
    ensures Acked(t, Members(ids)).acked == t.acked + Members(ids)
  {
  }

  /**
   * One round of the loop while nobody else moves, with processing raising for the
   * entries in `failing`: it is a run of the step machine.
   */
  method WorkerRound(name: WorkerId, db: Database, broker: Broker, idle: nat, stale: seq<MsgId>, failing: set<MsgId>,
                     ghost log: seq<MsgId>)
    returns (nextIdle: nat, ghost steps: seq<Step>, ghost log': seq<MsgId>)
    requires StreamInv(broker.State()) && |stale| <= BATCH && forall id | id in stale :: id in broker.pending
    modifies db, broker
    ensures var claimed := if idle % CLAIM_EVERY == 0 then BeforeFailing(stale, failing) else [];
            var raised := idle % CLAIM_EVERY == 0 && |claimed| < |stale|;
            var ids := NewIds(old(broker.State()), BATCH);
            var read := if raised then [] else Passing(ids, failing);
            && log' == log + claimed + read
            && broker.acked == old(broker.acked) + Members(claimed) + Members(read)
            && nextIdle == if raised then idle else if ids == [] then idle + 1 else 0
    ensures Led(Alone(old(db.State()), old(broker.State()), name, Worker(idle, Top), log), steps,
                Alone(db.State(), broker.State(), name, Worker(nextIdle, Top), log'))
  {
    hide Processed, Read, Acked, Claimed, Enabled, Performed, Runs, After, Led;
    var raised: bool;
    ghost var phase: Phase;
    StreamStarts(broker.State());
    raised, phase, steps, log' := ClaimRound(name, db, broker, idle, stale, failing, log);
    if raised {
      assert log' + [] == log' && Members([]) == {};
      return idle, steps, log';
    }
    ghost var t := Alone(db.State(), broker.State(), name, Worker(idle, phase), log');
    SameNewIds(old(broker.State()), broker.State(), BATCH);
    ghost var more: seq<Step>;
    nextIdle, more, log' := ReadRound(name, db, broker, idle, failing, phase, log');
    LedOn(Alone(old(db.State()), old(broker.State()), name, Worker(idle, Top), log), steps, t, more,
          Alone(db.State(), broker.State(), name, Worker(nextIdle, Top), log'));
    steps := steps + more;
  }

  lemma SameNewIds(t: Stream, t': Stream, count: nat)
    requires t.entries == t'.entries && t.delivered == t'.delivered
    ensures NewIds(t, count) == NewIds(t', count)
  {
  }

  lemma StreamStarts(t: Stream)
    requires StreamInv(t)
    ensures t.delivered <= |t.entries| && forall id | id in t.pending :: id < |t.entries|
  {
  }

  lemma LedOn(s: System, a: seq<Step>, t: System, b: seq<Step>, u: System)
    requires Led(s, a, t) && Led(t, b, u)
    ensures Led(s, a + b, u)
  {
    Joined(s, a, b);
  }

  lemma NothingLed(s: System)
    ensures Led(s, [], s)
  {
  }
}
