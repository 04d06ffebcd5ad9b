/** One worker that is left in peace empties the stream: from every reachable state it can claim, read and acknowledge everything. */
module DedupProgress {
  import opened DedupStates
  import opened DedupTheorems

  /** A step of this worker's loop without any failure. */
  predicate Smooth(w: WorkerId, step: Step) {
    match step
    case LoopTop(v, _) => v == w
    case ProcessClaim(v) => v == w
    case AckClaimed(v) => v == w
    case ReadNew(v) => v == w
    case ProcessNext(v) => v == w
    case AckBatch(v) => v == w
    case _ => false
  }

  /** A run of smooth steps of one worker. */
  ghost predicate Goes(s: System, w: WorkerId, steps: seq<Step>, t: System) {
    && Runs(s, steps) && After(s, steps) == t && (forall step | step in steps :: Smooth(w, step))
    && SystemInv(t) && t.stream.entries == s.stream.entries && w in t.workers
  }

  lemma Stays(s: System, w: WorkerId)
    requires SystemInv(s) && w in s.workers
    ensures Goes(s, w, [], s)
  {
    hide SystemInv;
  }

  lemma Then(s: System, w: WorkerId, first: seq<Step>, s1: System, second: seq<Step>, t: System)
    requires Goes(s, w, first, s1) && Goes(s1, w, second, t)
    ensures Goes(s, w, first + second, t)
  {
    hide SystemInv, Runs, After;
    Joined(s, first, second);
  }

  lemma OneStep(s: System, w: WorkerId, step: Step) returns (t: System)
    requires SystemInv(s) && w in s.workers && Enabled(s, step) && Smooth(w, step)
    ensures t == Performed(s, step) && Goes(s, w, [step], t)
  {
    hide SystemInv, Enabled, Performed;
    t := Performed(s, step);
    StepKeeps(s, step);
    EmptyRun(t);
    assert [step][1..] == [];
    SmoothStep(s, w, step);
  }

  lemma SmoothStep(s: System, w: WorkerId, step: Step)
    requires w in s.workers && Enabled(s, step) && Smooth(w, step)
    ensures Performed(s, step).stream.entries == s.stream.entries && w in Performed(s, step).workers
  {
    hide Processed, GivenTo;
  }

  function IdsOf(ids: seq<MsgId>): set<MsgId> {
    set id | id in ids
  }

  predicate At(s: System, w: WorkerId, idle: nat, phase: Phase) {
    w in s.workers && s.workers[w] == Worker(idle, phase)
  }

  /** So many entries nobody has read, and these are pending. */
  predicate Open(s: System, unread: int, pending: set<MsgId>) {
    |s.stream.entries| - s.stream.delivered == unread && s.stream.pending.Keys == pending
  }

  lemma InHand(s: System, w: WorkerId, idle: nat, todo: seq<MsgId>)
    requires SystemInv(s) && (At(s, w, idle, Claims(todo)) || exists acks :: At(s, w, idle, Batch(todo, acks)))
    ensures forall id | id in todo :: id < |s.stream.entries|
  {
    hide StoreInv, CommitsInv;
    assert PhaseInv(s, s.workers[w].phase);
  }

  // ---------- what has been claimed ----------

  lemma ClaimOne(s: System, w: WorkerId, idle: nat, todo: seq<MsgId>) returns (steps: seq<Step>, t: System)
    requires SystemInv(s) && At(s, w, idle, Claims(todo)) && todo != []
    ensures Goes(s, w, steps, t) && At(t, w, idle, Claims(todo[1..]))
    ensures Open(t, |s.stream.entries| - s.stream.delivered, s.stream.pending.Keys - {todo[0]})
  {
    hide SystemInv, Goes, Processed;
    InHand(s, w, idle, todo);
    assert todo[0] in todo;
    var s1 := OneStep(s, w, ProcessClaim(w));
    GoesOn(s, w, [ProcessClaim(w)], s1);
    t := OneStep(s1, w, AckClaimed(w));
    steps := [ProcessClaim(w)] + [AckClaimed(w)];
    Then(s, w, [ProcessClaim(w)], s1, [AckClaimed(w)], t);
  }

  lemma GoesOn(s: System, w: WorkerId, steps: seq<Step>, t: System)
    requires Goes(s, w, steps, t)
    ensures SystemInv(t) && w in t.workers && t.stream.entries == s.stream.entries
  {
    hide SystemInv;
  }

  lemma {:induction false} ClaimAll(s: System, w: WorkerId, idle: nat, todo: seq<MsgId>) returns (steps: seq<Step>, t: System)
    requires SystemInv(s) && At(s, w, idle, Claims(todo))
    ensures Goes(s, w, steps, t) && At(t, w, idle, Claims([]))
    ensures Open(t, |s.stream.entries| - s.stream.delivered, s.stream.pending.Keys - IdsOf(todo))
    decreases |todo|
  {
    hide SystemInv, Goes;
    if todo == [] {
      steps, t := [], s;
      Stays(s, w);
    } else {
      var first, s1 := ClaimOne(s, w, idle, todo);
      GoesOn(s, w, first, s1);
      var rest;
      rest, t := ClaimAll(s1, w, idle, todo[1..]);
      steps := first + rest;
      Then(s, w, first, s1, rest, t);
      assert IdsOf(todo) == {todo[0]} + IdsOf(todo[1..]);
    }
  }

  // ---------- what has been read ----------

  lemma BatchOne(s: System, w: WorkerId, idle: nat, todo: seq<MsgId>, acks: seq<MsgId>) returns (t: System)
    requires SystemInv(s) && At(s, w, idle, Batch(todo, acks)) && todo != []
    ensures Goes(s, w, [ProcessNext(w)], t) && At(t, w, idle, Batch(todo[1..], acks + [todo[0]])) && t.stream == s.stream
  {
    hide SystemInv, Goes, Processed;
    InHand(s, w, idle, todo);
    assert todo[0] in todo;
    t := OneStep(s, w, ProcessNext(w));
  }

  lemma {:induction false} BatchAll(s: System, w: WorkerId, idle: nat, todo: seq<MsgId>, acks: seq<MsgId>)
    returns (steps: seq<Step>, t: System)
    requires SystemInv(s) && At(s, w, idle, Batch(todo, acks))
    ensures Goes(s, w, steps, t) && At(t, w, idle, Top)
    ensures Open(t, |s.stream.entries| - s.stream.delivered, s.stream.pending.Keys - IdsOf(acks + todo))
    decreases |todo|
  {
    hide SystemInv, Goes;
    if todo == [] {
      assert acks + todo == acks;
      t := OneStep(s, w, AckBatch(w));
      steps := [AckBatch(w)];
    } else {
      var s1 := BatchOne(s, w, idle, todo, acks);
      GoesOn(s, w, [ProcessNext(w)], s1);
      var rest;
      rest, t := BatchAll(s1, w, idle, todo[1..], acks + [todo[0]]);
      steps := [ProcessNext(w)] + rest;
      Then(s, w, [ProcessNext(w)], s1, rest, t);
      assert acks + [todo[0]] + todo[1..] == acks + todo;
    }
  }

  function Fewer(n: int): int {
    if n <= 50 then n else 50
  }

  lemma ReadGives(t: Stream, w: WorkerId)
    requires StreamInv(t)
    ensures |NewIds(t, BATCH)| == Fewer(|t.entries| - t.delivered)
    ensures Read(t, w, BATCH).delivered == t.delivered + Fewer(|t.entries| - t.delivered) && Read(t, w, BATCH).entries == t.entries
    ensures Read(t, w, BATCH).pending.Keys == t.pending.Keys + IdsOf(NewIds(t, BATCH))
    ensures forall id | id in NewIds(t, BATCH) :: id !in t.pending
  {
    GivenIs(t.pending, NewIds(t, BATCH), w);
  }

  /** A read: up to fifty new entries are committed and acknowledged, or the worker has been idle once more. */
  lemma ReadOnce(s: System, w: WorkerId, idle: nat, phase: Phase) returns (steps: seq<Step>, t: System)
    requires SystemInv(s) && At(s, w, idle, phase) && (phase == Reading || phase == Claims([]))
    ensures var unread := |s.stream.entries| - s.stream.delivered;
            && Goes(s, w, steps, t) && At(t, w, if unread == 0 then idle + 1 else 0, Top)
            && Open(t, unread - Fewer(unread), s.stream.pending.Keys)
  {
    hide SystemInv, Goes, NewIds, Read;
    StreamOk(s);
    ReadGives(s.stream, w);
    var ids := NewIds(s.stream, BATCH);
    var s1 := OneStep(s, w, ReadNew(w));
    GoesOn(s, w, [ReadNew(w)], s1);
    if ids == [] {
      steps, t := [ReadNew(w)], s1;
    } else {
      var rest;
      rest, t := BatchAll(s1, w, 0, ids, []);
      assert [] + ids == ids;
      steps := [ReadNew(w)] + rest;
      Then(s, w, [ReadNew(w)], s1, rest, t);
    }
  }

  lemma StreamOk(s: System)
    requires SystemInv(s)
    ensures StreamInv(s.stream) && s.stream.delivered <= |s.stream.entries|
  {
    hide StoreInv, CommitsInv, PhaseInv;
  }

  // ---------- rounds ----------

  lemma {:induction false} SomeOf(all: set<MsgId>, n: nat) returns (some: seq<MsgId>)
    requires n <= |all|
    ensures |some| == n && (forall id | id in some :: id in all) && |IdsOf(some)| == n
  {
    if n == 0 {
      some := [];
    } else {
      var id :| id in all;
      var rest := SomeOf(all - {id}, n - 1);
      some := rest + [id];
      assert IdsOf(some) == IdsOf(rest) + {id};
    }
  }

  function Least(n: nat): (m: nat)
    ensures m == Fewer(n)
  {
    if n <= 50 then n else 50
  }

  /** Every fifth idle round starts with claims: up to fifty pending entries, whoever had them, are committed and acknowledged. */
  lemma ClaimRound(s: System, w: WorkerId, idle: nat) returns (steps: seq<Step>, t: System)
    requires SystemInv(s) && At(s, w, idle, Top) && idle % 5 == 0
    ensures Goes(s, w, steps, t) && At(t, w, idle, Claims([]))
    ensures |t.stream.entries| - t.stream.delivered == |s.stream.entries| - s.stream.delivered
    ensures |t.stream.pending.Keys| == |s.stream.pending.Keys| - Fewer(|s.stream.pending.Keys|)
  {
    hide SystemInv, Goes, Claimed;
    var stale := SomeOf(s.stream.pending.Keys, Least(|s.stream.pending.Keys|));
    var s1 := OneStep(s, w, LoopTop(w, stale));
    GoesOn(s, w, [LoopTop(w, stale)], s1);
    ClaimGives(s.stream, w, stale);
    var rest;
    rest, t := ClaimAll(s1, w, idle, stale);
    steps := [LoopTop(w, stale)] + rest;
    Then(s, w, [LoopTop(w, stale)], s1, rest, t);
    Shrinks(s.stream.pending.Keys, stale);
  }

  lemma ClaimGives(t: Stream, w: WorkerId, stale: seq<MsgId>)
    requires forall id | id in stale :: id in t.pending
    ensures Claimed(t, w, stale).pending.Keys == t.pending.Keys && Claimed(t, w, stale).delivered == t.delivered
    ensures Claimed(t, w, stale).entries == t.entries
  {
    GivenIs(t.pending, stale, w);
  }

  lemma Shrinks(all: set<MsgId>, some: seq<MsgId>)
    requires forall id | id in some :: id in all
    ensures |all - IdsOf(some)| == |all| - |IdsOf(some)|
  {
    var part := IdsOf(some);
    assert part <= all;
    assert all == (all - part) + part;
    assert |all| == |all - part| + |part|;
  }

  /** What is left to do: entries unread or pending, and idle rounds until the next claims. */
  function Work(s: System): int {
    |s.stream.entries| - s.stream.delivered + |s.stream.pending.Keys|
  }

  function RoundsToClaim(idle: nat): nat {
    (5 - idle % 5) % 5
  }

  /** A round of the loop gets nearer to an empty stream. */
  lemma Round(s: System, w: WorkerId, idle: nat) returns (steps: seq<Step>, t: System, next: nat)
    requires SystemInv(s) && At(s, w, idle, Top) && Work(s) > 0
    ensures Goes(s, w, steps, t) && At(t, w, next, Top)
    ensures 0 <= Work(t) < Work(s) || (Work(t) == Work(s) && RoundsToClaim(next) < RoundsToClaim(idle))
  {
    hide SystemInv, Goes, Claimed;
    StreamOk(s);
    var s1, first;
    if idle % 5 == 0 {
      first, s1 := ClaimRound(s, w, idle);
    } else {
      s1 := OneStep(s, w, LoopTop(w, []));
      first := [LoopTop(w, [])];
    }
    GoesOn(s, w, first, s1);
    StreamOk(s1);
    var rest;
    rest, t := ReadOnce(s1, w, idle, s1.workers[w].phase);
    GoesOn(s1, w, rest, t);
    StreamOk(t);
    next := t.workers[w].idle;
    steps := first + rest;
    Then(s, w, first, s1, rest, t);
  }

  lemma {:induction false} DrainFrom(s: System, w: WorkerId, idle: nat) returns (steps: seq<Step>, t: System)
    requires SystemInv(s) && At(s, w, idle, Top)
    ensures Goes(s, w, steps, t) && Work(t) <= 0
    decreases Work(s), RoundsToClaim(idle)
  {
    hide SystemInv, Goes, Work, RoundsToClaim;
    if Work(s) <= 0 {
      steps, t := [], s;
      Stays(s, w);
    } else {
      var first, s1, next := Round(s, w, idle);
      GoesOn(s, w, first, s1);
      var rest;
      rest, t := DrainFrom(s1, w, next);
      steps := first + rest;
      Then(s, w, first, s1, rest, t);
    }
  }

  /**
   * From every reachable state, a worker at the top of its loop has a run of its own, without
   * any failure, after which every published entry is acknowledged and its key is stored.
   */
  lemma BacklogDrains(s: System, earlier: seq<Step>, w: WorkerId) returns (steps: seq<Step>)
    requires Fresh(s) && Runs(s, earlier) && w in After(s, earlier).workers && After(s, earlier).workers[w].phase == Top
    ensures Runs(After(s, earlier), steps) && forall step | step in steps :: Smooth(w, step)
    ensures var t := After(After(s, earlier), steps);
            && t.stream.entries == After(s, earlier).stream.entries
            && forall id: MsgId | id < |t.stream.entries| :: id in t.stream.acked && KeyOf(t.stream.entries[id]) in t.store.rows
  {
    hide Runs, After, Fresh, SystemInv, Goes;
    FreshHolds(s);
    RunKeeps(s, earlier);
    var s1 := After(s, earlier);
    var t;
    steps, t := DrainFrom(s1, w, s1.workers[w].idle);
    Drained(s1, w, steps, t);
  }

  lemma Drained(s: System, w: WorkerId, steps: seq<Step>, t: System)
    requires Goes(s, w, steps, t) && Work(t) <= 0
    ensures Runs(s, steps) && After(s, steps) == t && t.stream.entries == s.stream.entries
    ensures forall step | step in steps :: Smooth(w, step)
    ensures forall id: MsgId | id < |t.stream.entries| :: id in t.stream.acked && KeyOf(t.stream.entries[id]) in t.store.rows
  {
    hide StoreInv, PhaseInv, Sourced, Runs, After;
    forall id: MsgId | id < |t.stream.entries| ensures id in t.stream.acked && KeyOf(t.stream.entries[id]) in t.store.rows {
      assert t.stream.pending.Keys == {};
      assert id < t.stream.delivered;
      assert id !in t.stream.pending.Keys;
    }
  }

  // ---------- who has what ----------

  lemma {:induction false} GivenOwner(pending: map<MsgId, WorkerId>, ids: seq<MsgId>, w: WorkerId)
    ensures forall id | id in GivenTo(pending, ids, w) ::
              if id in ids then GivenTo(pending, ids, w)[id] == w else id in pending && GivenTo(pending, ids, w)[id] == pending[id]
  {
    if ids != [] {
      GivenOwner(pending, ids[..|ids| - 1], w);
      assert ids == ids[..|ids| - 1] + [ids[|ids| - 1]];
    }
  }

  /** The entries listed are pending under this worker now; whoever had any other still has it. */
  ghost predicate HandedTo(t: Stream, ids: set<MsgId>, w: WorkerId, t': Stream) {
    && t'.pending.Keys == t.pending.Keys + ids
    && forall id | id in t'.pending :: if id in ids then t'.pending[id] == w else id in t.pending && t'.pending[id] == t.pending[id]
  }

  /** Claims hand exactly the stale entries to the worker, a read exactly the next ones, at most fifty, that nobody had. */
  lemma OwnersAre(s: System, w: WorkerId, stale: seq<MsgId>)
    requires SystemInv(s) && w in s.workers
    ensures Enabled(s, LoopTop(w, stale)) ==> HandedTo(s.stream, IdsOf(stale), w, Performed(s, LoopTop(w, stale)).stream)
    ensures Enabled(s, ReadNew(w)) ==>
              var t := Performed(s, ReadNew(w)).stream;
              && HandedTo(s.stream, IdsOf(NewIds(s.stream, 50)), w, t)
              && t.delivered == s.stream.delivered + Fewer(|s.stream.entries| - s.stream.delivered)
              && forall id: MsgId :: id in NewIds(s.stream, 50) <==> s.stream.delivered <= id < t.delivered
  {
    hide SystemInv, GivenTo;
    StreamOk(s);
    GivenOwner(s.stream.pending, stale, w);
    GivenIs(s.stream.pending, stale, w);
    var ids := NewIds(s.stream, 50);
    GivenOwner(s.stream.pending, ids, w);
    GivenIs(s.stream.pending, ids, w);
    forall id: MsgId | s.stream.delivered <= id < s.stream.delivered + |ids| ensures id in ids {
      assert ids[id - s.stream.delivered] == id;
    }
  }

  /** A worker counts its empty reads since the last one that brought something, or since it started; nothing else moves the count. */
  lemma IdleCounts(s: System, step: Step, w: WorkerId)
    requires SystemInv(s) && Enabled(s, step) && w in s.workers
    ensures w in Performed(s, step).workers
    ensures Performed(s, step).workers[w].idle ==
              if step == ReadNew(w) then (if s.stream.delivered == |s.stream.entries| then s.workers[w].idle + 1 else 0)
              else if step == Crash(w) then 0
              else s.workers[w].idle
  {
    hide SystemInv, Processed, GivenTo;
    StreamOk(s);
  }
}
