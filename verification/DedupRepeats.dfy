/** When an entry is committed twice: which interruptions of a worker make its work count again. */
module DedupRepeats {
  import opened DedupStates
  import opened DedupTheorems

  /** The entries a worker has yet to process. */
  function TodoOf(p: Phase): seq<MsgId> {
    match p
    case Claims(todo) => todo
    case AckClaim(_, todo) => todo
    case Batch(todo, _) => todo
    case _ => []
  }

  /** The worker has committed the entry and not acknowledged it yet. */
  predicate HasDone(p: Phase, id: MsgId) {
    match p
    case AckClaim(i, _) => i == id
    case Batch(_, acks) => id in acks
    case _ => false
  }

  /** A claim names no entry twice, and none that a worker has in hand. */
  ghost predicate OrderlyClaim(s: System, step: Step) {
    step.LoopTop? ==>
      && NoRepeats(step.stale)
      && forall w, id | w in s.workers && id in step.stale :: id !in TodoOf(s.workers[w].phase) && !HasDone(s.workers[w].phase, id)
  }

  predicate Unacknowledged(p: Phase) {
    p.AckClaim? || (p.Batch? && p.acks != [])
  }

  /** The step parts a commit from its acknowledgement. */
  predicate Interrupts(s: System, step: Step)
    requires Enabled(s, step)
  {
    match step
    case SkipNext(_, committed) => committed
    case Raise(w, committed) => committed || Unacknowledged(s.workers[w].phase)
    case Crash(w) => Unacknowledged(s.workers[w].phase)
    case _ => false
  }

  // ---------- undisturbed work ----------

  /** What is to do has not been done, and what has been done is not acknowledged. */
  ghost predicate WorkerInv(s: System, p: Phase) {
    && NoRepeats(TodoOf(p))
    && (forall id | id in TodoOf(p) :: id !in s.commits)
    && (forall id | HasDone(p, id) :: id !in s.stream.acked)
  }

  /** Two workers have nothing in common. */
  ghost predicate Apart(p: Phase, q: Phase) {
    && (forall id | id in TodoOf(p) :: id !in TodoOf(q))
    && (forall id | HasDone(p, id) :: !HasDone(q, id))
  }

  ghost predicate SomebodyHasDone(s: System, id: MsgId) {
    exists w :: w in s.workers && HasDone(s.workers[w].phase, id)
  }

  ghost predicate OnceInv(s: System) {
    && NoRepeats(s.commits)
    && (forall id | id in s.commits :: id in s.stream.acked || SomebodyHasDone(s, id))
    && (forall w | w in s.workers :: WorkerInv(s, s.workers[w].phase))
    && (forall w, v | w in s.workers && v in s.workers && w != v :: Apart(s.workers[w].phase, s.workers[v].phase))
  }

  /** A commit stands unacknowledged, in nobody's hands, or an entry has been committed twice. */
  ghost predicate Orphaned(s: System) {
    !NoRepeats(s.commits) || exists id :: IsOrphan(s, id)
  }

  ghost predicate IsOrphan(s: System, id: MsgId) {
    id in s.commits && id !in s.stream.acked && !SomebodyHasDone(s, id)
  }

  lemma NoRepeatsRest(ids: seq<MsgId>)
    requires ids != [] && NoRepeats(ids)
    ensures NoRepeats(ids[1..]) && ids[0] !in ids[1..]
  {
  }

  lemma RepeatsStay(ids: seq<MsgId>, more: seq<MsgId>)
    requires !NoRepeats(ids) && ids <= more
    ensures !NoRepeats(more)
  {
    var i, j :| 0 <= i < j < |ids| && ids[i] == ids[j];
    assert more[i] == more[j];
  }

  lemma RepeatsNow(ids: seq<MsgId>, id: MsgId)
    requires id in ids
    ensures !NoRepeats(ids + [id])
  {
    RepeatsNext(ids, id);
  }

  // ---------- one step of a worker ----------

  predicate OfWorker(step: Step) {
    !step.Accept? && !step.Publish? && !step.PublisherCrash?
  }

  function PhaseOf(s: System, step: Step): Phase
    requires OfWorker(step) && Enabled(s, step)
  {
    s.workers[step.w].phase
  }

  /** The step puts the entry into the worker's hands. */
  predicate Takes(s: System, step: Step, id: MsgId) {
    (step.LoopTop? && id in step.stale) || (step.ReadNew? && id in NewIds(s.stream, BATCH))
  }

  lemma WorkerStays(s: System, step: Step)
    requires OfWorker(step) && Enabled(s, step)
    ensures var s' := Performed(s, step);
            s'.workers.Keys == s.workers.Keys && forall v | v in s.workers && v != step.w :: s'.workers[v] == s.workers[v]
  {
  }

  /** What the worker has in hand afterwards, it had before or takes now. */
  lemma InHand(s: System, step: Step)
    requires OfWorker(step) && Enabled(s, step)
    ensures var p, p' := PhaseOf(s, step), Performed(s, step).workers[step.w].phase;
            && (forall id | id in TodoOf(p') :: id in TodoOf(p) || Takes(s, step, id))
            && (Commits(step) ==> TodoOf(p) != [])
            && (forall id | HasDone(p', id) :: HasDone(p, id) || (Commits(step) && id == TodoOf(p)[0]))
            && (NoRepeats(TodoOf(p)) && OrderlyClaim(s, step) ==> NoRepeats(TodoOf(p')))
            && (NoRepeats(TodoOf(p)) && Commits(step) ==> TodoOf(p)[0] !in TodoOf(p'))
  {
    hide Acked, Read, Claimed;
    var p := PhaseOf(s, step);
    if TodoOf(p) != [] && NoRepeats(TodoOf(p)) {
      NoRepeatsRest(TodoOf(p));
    }
  }

  /** What the step does to commits and acknowledgements. */
  lemma Effects(s: System, step: Step)
    requires StreamInv(s.stream) && OfWorker(step) && Enabled(s, step)
    requires forall id: MsgId | HasDone(PhaseOf(s, step), id) :: id < s.stream.delivered
    ensures var p, s' := PhaseOf(s, step), Performed(s, step);
            var p' := s'.workers[step.w].phase;
            && (Commits(step) ==> TodoOf(p) != [])
            && s'.commits == (if Commits(step) then s.commits + [TodoOf(p)[0]] else s.commits)
            && s.stream.acked <= s'.stream.acked
            && (forall id | id in s'.stream.acked :: id in s.stream.acked || HasDone(p, id))
            && (!Interrupts(s, step) ==> forall id | HasDone(p, id) :: id in s'.stream.acked || HasDone(p', id))
            && (!Interrupts(s, step) && Commits(step) ==> HasDone(p', TodoOf(p)[0]))
  {
    hide Processed, GivenTo, NewIds;
  }

  lemma DoneIsCommitted(s: System, w: WorkerId, id: MsgId)
    requires SystemInv(s) && w in s.workers
    ensures id in TodoOf(s.workers[w].phase) || HasDone(s.workers[w].phase, id) ==> id < s.stream.delivered
    ensures HasDone(s.workers[w].phase, id) ==> id in s.commits
  {
    assert PhaseInv(s, s.workers[w].phase);
    assert CommitsInv(s);
  }

  /** What a worker takes has not been committed and is in nobody's hands. */
  lemma TakenIsFree(s: System, step: Step, id: MsgId)
    requires SystemInv(s) && OnceInv(s) && Enabled(s, step) && OrderlyClaim(s, step) && Takes(s, step, id)
    ensures id !in s.commits && id !in s.stream.acked
    ensures forall v | v in s.workers :: id !in TodoOf(s.workers[v].phase) && !HasDone(s.workers[v].phase, id)
  {
    hide StoreInv, PhaseInv, Covered, Sourced, WorkerInv, Apart, NoRepeats, TodoOf, HasDone;
    forall v | v in s.workers ensures id !in TodoOf(s.workers[v].phase) && !HasDone(s.workers[v].phase, id) {
      DoneIsCommitted(s, v, id);
    }
  }

  lemma OthersApart(s: System, v: WorkerId, w: WorkerId)
    requires OnceInv(s) && v in s.workers && w in s.workers && v != w
    ensures Apart(s.workers[v].phase, s.workers[w].phase) && Apart(s.workers[w].phase, s.workers[v].phase)
    ensures WorkerInv(s, s.workers[v].phase)
  {
  }

  /** The other workers keep what they have. */
  lemma OthersKeep(s: System, step: Step, v: WorkerId)
    requires SystemInv(s) && OnceInv(s) && Enabled(s, step) && OfWorker(step) && v in s.workers && v != step.w
    ensures WorkerInv(Performed(s, step), s.workers[v].phase)
  {
    hide SystemInv, OnceInv, StreamInv, PhaseInv, NoRepeats, Performed, TodoOf, HasDone, Interrupts;
    OthersApart(s, v, step.w);
    DoneIsDelivered(s, step.w);
    Effects(s, step);
  }

  lemma DoneIsDelivered(s: System, w: WorkerId)
    requires SystemInv(s) && w in s.workers
    ensures StreamInv(s.stream) && forall id: MsgId | HasDone(s.workers[w].phase, id) :: id < s.stream.delivered
  {
    hide SystemInv, HasDone;
    forall id: MsgId | HasDone(s.workers[w].phase, id) ensures id < s.stream.delivered {
      DoneIsCommitted(s, w, id);
    }
    SystemStream(s);
  }

  lemma SystemStream(s: System)
    requires SystemInv(s)
    ensures StreamInv(s.stream)
  {
  }

  lemma OwnOnce(s: System, step: Step)
    requires SystemInv(s) && OnceInv(s) && Enabled(s, step) && OfWorker(step) && OrderlyClaim(s, step)
    ensures WorkerInv(Performed(s, step), Performed(s, step).workers[step.w].phase)
    ensures NoRepeats(Performed(s, step).commits)
  {
    hide SystemInv, StreamInv, PhaseInv, NoRepeats, Performed, TodoOf, HasDone, Takes, Apart, OrderlyClaim, Interrupts;
    DoneIsDelivered(s, step.w);
    Effects(s, step);
    InHand(s, step);
    WorkerStays(s, step);
    var p, s' := PhaseOf(s, step), Performed(s, step);
    var p' := s'.workers[step.w].phase;
    forall id | id in TodoOf(p') ensures id !in s.commits {
      if id !in TodoOf(p) {
        TakenIsFree(s, step, id);
      }
    }
    if Commits(step) {
      RepeatsNext(s.commits, TodoOf(p)[0]);
      AckedIsCommitted(s, TodoOf(p)[0]);
    }
    forall id | HasDone(p', id) ensures id !in s'.stream.acked {
      AckedLeavesHands(s, step, id);
    }
  }

  lemma AckedIsCommitted(s: System, id: MsgId)
    requires SystemInv(s)
    ensures id in s.stream.acked ==> id in s.commits
  {
    assert CommitsInv(s);
  }

  /** What a step acknowledges, the worker has no longer. */
  lemma AckedLeavesHands(s: System, step: Step, id: MsgId)
    requires SystemInv(s) && OnceInv(s) && Enabled(s, step) && OfWorker(step)
    requires HasDone(Performed(s, step).workers[step.w].phase, id)
    ensures id !in Performed(s, step).stream.acked
  {
    hide StoreInv, StreamInv, PhaseInv, Covered, Sourced, Apart, NoRepeats, Processed, GivenTo, NewIds;
    assert WorkerInv(s, PhaseOf(s, step));
    if Commits(step) {
      assert TodoOf(PhaseOf(s, step))[0] !in s.commits;
    }
  }

  lemma OwnApart(s: System, step: Step, v: WorkerId)
    requires SystemInv(s) && OnceInv(s) && Enabled(s, step) && OfWorker(step) && OrderlyClaim(s, step)
    requires v in s.workers && v != step.w
    ensures step.w in Performed(s, step).workers
    ensures var p' := Performed(s, step).workers[step.w].phase; Apart(p', s.workers[v].phase) && Apart(s.workers[v].phase, p')
  {
    hide SystemInv, OnceInv, StreamInv, PhaseInv, NoRepeats, Performed, TodoOf, HasDone, Takes, OrderlyClaim, WorkerInv;
    WorkerStays(s, step);
    InHand(s, step);
    OthersApart(s, v, step.w);
    var p, q, p' := PhaseOf(s, step), s.workers[v].phase, Performed(s, step).workers[step.w].phase;
    forall id | id in TodoOf(p') ensures id !in TodoOf(q) {
      if Takes(s, step, id) {
        TakenIsFree(s, step, id);
      }
    }
    if Commits(step) {
      var id := TodoOf(p)[0];
      NotYetCommitted(s, step.w, id);
      if HasDone(q, id) {
        DoneIsCommitted(s, v, id);
      }
    }
  }

  lemma NotYetCommitted(s: System, w: WorkerId, id: MsgId)
    requires OnceInv(s) && w in s.workers && id in TodoOf(s.workers[w].phase)
    ensures id !in s.commits
  {
    assert WorkerInv(s, s.workers[w].phase);
  }

  lemma CommitsAccounted(s: System, step: Step, id: MsgId)
    requires SystemInv(s) && OnceInv(s) && Enabled(s, step) && OfWorker(step) && !Interrupts(s, step)
    requires id in Performed(s, step).commits
    ensures id in Performed(s, step).stream.acked || SomebodyHasDone(Performed(s, step), id)
  {
    hide SystemInv, StreamInv, PhaseInv, NoRepeats, Performed, TodoOf, HasDone, WorkerInv, Apart, Interrupts;
    WorkerStays(s, step);
    DoneIsDelivered(s, step.w);
    Effects(s, step);
    var s' := Performed(s, step);
    if id in s.commits && id !in s.stream.acked {
      var w :| w in s.workers && HasDone(s.workers[w].phase, id);
      assert w != step.w ==> HasDone(s'.workers[w].phase, id);
    }
    if id !in s.commits {
      assert HasDone(s'.workers[step.w].phase, id);
    }
  }

  lemma StepOnce(s: System, step: Step)
    requires SystemInv(s) && OnceInv(s) && Enabled(s, step) && OrderlyClaim(s, step) && !Interrupts(s, step)
    ensures OnceInv(Performed(s, step))
  {
    hide SystemInv, WorkerInv, Apart, SomebodyHasDone, NoRepeats, OrderlyClaim, Interrupts;
    if OfWorker(step) {
      WorkerStep(s, step);
    } else {
      PublisherIsQuiet(s, step);
      OnceSame(s, Performed(s, step));
    }
  }

  lemma PublisherIsQuiet(s: System, step: Step)
    requires Enabled(s, step) && !OfWorker(step)
    ensures var s' := Performed(s, step);
            s'.commits == s.commits && s'.stream.acked == s.stream.acked && s'.workers == s.workers
  {
  }

  lemma OnceSame(s: System, s': System)
    requires s'.commits == s.commits && s'.stream.acked == s.stream.acked && s'.workers == s.workers
    ensures OnceInv(s) ==> OnceInv(s')
    ensures Orphaned(s) ==> Orphaned(s')
  {
    hide NoRepeats, TodoOf, HasDone;
    if Orphaned(s) && NoRepeats(s.commits) {
      var id :| IsOrphan(s, id);
      assert IsOrphan(s', id);
    }
  }

  lemma WorkerStep(s: System, step: Step)
    requires SystemInv(s) && OnceInv(s) && Enabled(s, step) && OrderlyClaim(s, step) && !Interrupts(s, step) && OfWorker(step)
    ensures OnceInv(Performed(s, step))
  {
    hide SystemInv, OnceInv, WorkerInv, Apart, SomebodyHasDone, NoRepeats, OrderlyClaim, Interrupts, Performed, Enabled;
    var s' := Performed(s, step);
    WorkerStays(s, step);
    OwnOnce(s, step);
    forall id | id in s'.commits ensures id in s'.stream.acked || SomebodyHasDone(s', id) {
      CommitsAccounted(s, step, id);
    }
    forall v | v in s'.workers ensures WorkerInv(s', s'.workers[v].phase) {
      if v != step.w {
        OthersKeep(s, step, v);
      }
    }
    forall v, w | v in s'.workers && w in s'.workers && v != w ensures Apart(s'.workers[v].phase, s'.workers[w].phase) {
      if v == step.w {
        OwnApart(s, step, w);
      } else if w == step.w {
        OwnApart(s, step, v);
      } else {
        OthersApart(s, v, w);
      }
    }
    IsOnce(s');
  }

  lemma IsOnce(s: System)
    requires NoRepeats(s.commits) && forall id | id in s.commits :: id in s.stream.acked || SomebodyHasDone(s, id)
    requires forall w | w in s.workers :: WorkerInv(s, s.workers[w].phase)
    requires forall w, v | w in s.workers && v in s.workers && w != v :: Apart(s.workers[w].phase, s.workers[v].phase)
    ensures OnceInv(s)
  {
  }

  // ---------- interrupted work ----------

  lemma OrphanStays(s: System, step: Step)
    requires SystemInv(s) && Orphaned(s) && Enabled(s, step)
    ensures Orphaned(Performed(s, step))
  {
    hide SystemInv, Performed, NoRepeats, IsOrphan, Enabled;
    StepKeeps(s, step);
    if !NoRepeats(s.commits) {
      RepeatsStay(s.commits, Performed(s, step).commits);
    } else if OfWorker(step) {
      var id :| IsOrphan(s, id);
      OrphanMoves(s, step, id);
    } else {
      PublisherIsQuiet(s, step);
      OnceSame(s, Performed(s, step));
    }
  }

  /** An orphan stays one, or is committed again. */
  lemma OrphanMoves(s: System, step: Step, id: MsgId)
    requires SystemInv(s) && IsOrphan(s, id) && Enabled(s, step) && OfWorker(step)
    ensures IsOrphan(Performed(s, step), id) || !NoRepeats(Performed(s, step).commits)
  {
    hide SystemInv, StreamInv, PhaseInv, NoRepeats, Performed, TodoOf, HasDone, Takes, Interrupts, OrderlyClaim;
    WorkerStays(s, step);
    DoneIsDelivered(s, step.w);
    Effects(s, step);
    InHand(s, step);
    var s' := Performed(s, step);
    assert !HasDone(PhaseOf(s, step), id);
    if SomebodyHasDone(s', id) {
      var w :| w in s'.workers && HasDone(s'.workers[w].phase, id);
      assert w == step.w;
      RepeatsNow(s.commits, id);
    }
  }

  /** An interruption leaves acknowledgements alone and keeps only what was done before. */
  lemma InterruptionIs(s: System, step: Step)
    requires Enabled(s, step) && Interrupts(s, step)
    ensures OfWorker(step)
    ensures var p, s' := PhaseOf(s, step), Performed(s, step);
            && s'.stream == s.stream
            && (forall id | HasDone(s'.workers[step.w].phase, id) :: HasDone(p, id))
            && (!Commits(step) ==> Unacknowledged(p) && forall id :: !HasDone(s'.workers[step.w].phase, id))
  {
    hide Processed;
  }

  lemma SomethingDone(p: Phase) returns (id: MsgId)
    requires Unacknowledged(p)
    ensures HasDone(p, id)
  {
    id := if p.AckClaim? then p.id else p.acks[0];
  }

  lemma InterruptOrphans(s: System, step: Step)
    requires SystemInv(s) && OnceInv(s) && Enabled(s, step) && Interrupts(s, step)
    ensures Orphaned(Performed(s, step))
  {
    hide SystemInv, StreamInv, PhaseInv, NoRepeats, Performed, TodoOf, HasDone, WorkerInv, Apart, Interrupts;
    InterruptionIs(s, step);
    WorkerStays(s, step);
    DoneIsDelivered(s, step.w);
    Effects(s, step);
    var p, s' := PhaseOf(s, step), Performed(s, step);
    if Commits(step) {
      CommitOrphans(s, step, TodoOf(p)[0]);
    } else {
      var id := SomethingDone(p);
      DoneOrphans(s, step, id);
    }
  }

  lemma CommitOrphans(s: System, step: Step, id: MsgId)
    requires SystemInv(s) && OnceInv(s) && Enabled(s, step) && Interrupts(s, step) && OfWorker(step) && Commits(step)
    requires id in TodoOf(PhaseOf(s, step)) && id in Performed(s, step).commits
    ensures IsOrphan(Performed(s, step), id)
  {
    hide SystemInv, OnceInv, Performed, TodoOf, HasDone, Interrupts;
    InterruptionIs(s, step);
    WorkerStays(s, step);
    NotYetCommitted(s, step.w, id);
    AckedIsCommitted(s, id);
    var s' := Performed(s, step);
    if SomebodyHasDone(s', id) {
      var w :| w in s'.workers && HasDone(s'.workers[w].phase, id);
      DoneIsCommitted(s, w, id);
    }
  }

  lemma DoneOrphans(s: System, step: Step, id: MsgId)
    requires SystemInv(s) && OnceInv(s) && Enabled(s, step) && Interrupts(s, step) && OfWorker(step) && !Commits(step)
    requires HasDone(PhaseOf(s, step), id) && Performed(s, step).commits == s.commits
    ensures IsOrphan(Performed(s, step), id)
  {
    hide SystemInv, OnceInv, Performed, TodoOf, HasDone, Interrupts;
    InterruptionIs(s, step);
    WorkerStays(s, step);
    DoneIsCommitted(s, step.w, id);
    OwnInv(s, step.w);
    var s' := Performed(s, step);
    if SomebodyHasDone(s', id) {
      var w :| w in s'.workers && HasDone(s'.workers[w].phase, id);
      OthersApart(s, w, step.w);
    }
  }

  lemma OwnInv(s: System, w: WorkerId)
    requires OnceInv(s) && w in s.workers
    ensures WorkerInv(s, s.workers[w].phase)
  {
  }

  // ---------- runs ----------

  ghost predicate AllOrderly(s: System, steps: seq<Step>)
    requires Runs(s, steps)
    decreases |steps|
  {
    steps != [] ==> OrderlyClaim(s, steps[0]) && AllOrderly(Performed(s, steps[0]), steps[1..])
  }

  predicate Uninterrupted(s: System, steps: seq<Step>)
    requires Runs(s, steps)
    decreases |steps|
  {
    steps != [] ==> !Interrupts(s, steps[0]) && Uninterrupted(Performed(s, steps[0]), steps[1..])
  }

  lemma {:induction false} OrphansAtTheEnd(s: System, steps: seq<Step>)
    requires SystemInv(s) && Orphaned(s) && Runs(s, steps)
    ensures SystemInv(After(s, steps)) && Orphaned(After(s, steps))
    decreases |steps|
  {
    hide SystemInv, Orphaned, Enabled, Performed;
    if steps != [] {
      StepKeeps(s, steps[0]);
      OrphanStays(s, steps[0]);
      OrphansAtTheEnd(Performed(s, steps[0]), steps[1..]);
    }
  }

  lemma {:induction false} OnceOrOrphaned(s: System, steps: seq<Step>)
    requires SystemInv(s) && OnceInv(s) && Runs(s, steps) && AllOrderly(s, steps)
    ensures SystemInv(After(s, steps))
    ensures if Uninterrupted(s, steps) then OnceInv(After(s, steps)) else Orphaned(After(s, steps))
    decreases |steps|
  {
    hide SystemInv, OnceInv, Orphaned, Enabled, Performed, OrderlyClaim, Interrupts;
    if steps != [] {
      StepKeeps(s, steps[0]);
      if Interrupts(s, steps[0]) {
        InterruptOrphans(s, steps[0]);
        OrphansAtTheEnd(Performed(s, steps[0]), steps[1..]);
      } else {
        StepOnce(s, steps[0]);
        OnceOrOrphaned(Performed(s, steps[0]), steps[1..]);
      }
    }
  }

  lemma FreshIsOnce(s: System)
    requires Fresh(s)
    ensures OnceInv(s)
  {
  }

  lemma NoOrphans(t: System)
    requires SystemInv(t) && AllAcked(t.stream) && Orphaned(t)
    ensures !NoRepeats(t.commits)
  {
    hide NoRepeats, StoreInv, StreamInv, PhaseInv;
  }

  /**
   * If claims take only what no worker has in hand, then once everything is acknowledged
   * an entry has been committed twice exactly if some step parted a commit from its
   * acknowledgement: a crash, an error after the commit, or a failed acknowledgement.
   */
  lemma RepeatsAreInterruptions(s: System, steps: seq<Step>)
    requires Fresh(s) && Runs(s, steps) && AllOrderly(s, steps) && AllAcked(After(s, steps).stream)
    ensures NoRepeats(After(s, steps).commits) <==> Uninterrupted(s, steps)
  {
    hide Fresh, Runs, After, SystemInv, AllOrderly, Uninterrupted, AllAcked, Orphaned, NoRepeats;
    FreshHolds(s);
    FreshIsOnce(s);
    OnceOrOrphaned(s, steps);
    if !Uninterrupted(s, steps) {
      NoOrphans(After(s, steps));
    }
  }

  // ---------- the counters once more ----------

  /** No request fails with events of its own still to publish. */
  predicate NothingLost(s: System, steps: seq<Step>)
    requires Runs(s, steps)
    decreases |steps|
  {
    steps != [] ==>
      && (steps[0].PublisherCrash? ==> s.accepted[steps[0].request] == [])
      && NothingLost(Performed(s, steps[0]), steps[1..])
  }

  lemma LostNow(s: System, step: Step)
    requires Enabled(s, step)
    ensures Performed(s, step).lost >= s.lost
    ensures Performed(s, step).lost == s.lost <==> (step.PublisherCrash? ==> s.accepted[step.request] == [])
  {
  }

  lemma {:induction false} LostIs(s: System, steps: seq<Step>)
    requires Runs(s, steps)
    ensures After(s, steps).lost >= s.lost
    ensures After(s, steps).lost == s.lost <==> NothingLost(s, steps)
    decreases |steps|
  {
    hide Performed, Enabled;
    if steps != [] {
      LostNow(s, steps[0]);
      LostIs(Performed(s, steps[0]), steps[1..]);
    }
  }

  /**
   * The statistics of a drained system, in terms of what happened in it: with orderly claims
   * and no request that failed half-way, received is unique plus duplicate exactly if no
   * worker was interrupted between a commit and its acknowledgement.
   */
  lemma StatisticsAreInterruptions(s: System, steps: seq<Step>)
    requires Fresh(s) && Runs(s, steps) && AllOrderly(s, steps) && NothingLost(s, steps) && Drained(After(s, steps))
    ensures var t := After(s, steps); t.store.received == t.store.unique + t.store.duplicate <==> Uninterrupted(s, steps)
  {
    hide Runs, After, AllOrderly, Uninterrupted, NoRepeats, NothingLost;
    LostIs(s, steps);
    ReceivedAddsUpWithoutLoss(s, steps);
    RepeatsAreInterruptions(s, steps);
  }
}
