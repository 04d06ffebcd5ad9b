/** Aborting victims clears every deadlock, with no more victims than there are waiting clients. */
module DeadlockTheorems {
  import opened LockCommands
  import opened LockTable
  import opened LockTheorems
  import opened WaitForGraph

  /** The table, and the victims whose abort has been submitted but not applied yet. */
  datatype Detection = Detection(table: Table, pending: set<Client>)

  /**
   * What can happen while nobody acquires: the detector finds a cycle and submits the
   * abort of a victim, a submitted abort is applied, or any other command is applied.
   */
  datatype Move =
    | Detect(cycle: seq<Client>, victim: Client)
    | Apply(victim: Client)
    | Other(command: Command)

  function PendingAfter(pending: set<Client>, m: Move): set<Client> {
    match m
    case Detect(_, victim) => pending + {victim}
    case Apply(victim) => pending - {victim}
    case Other(_) => pending
  }

  ghost predicate CommandApplied(t: Table, command: Command, t': Table) {
    exists order, now, reply :: StepOf(t, command, order, now, t', reply)
  }

  ghost predicate TableMove(s: Detection, m: Move, t': Table) {
    match m
    case Detect(cycle, victim) => IsCycle(s.table.waitFor, cycle) && IsYoungest(s.table.ages, cycle, victim) && t' == s.table
    case Apply(victim) => victim in s.pending && CommandApplied(s.table, Abort(victim), t')
    case Other(command) => !command.Acquire? && CommandApplied(s.table, command, t')
  }

  ghost predicate MoveOf(s: Detection, m: Move, s': Detection) {
    TableMove(s, m, s'.table) && s'.pending == PendingAfter(s.pending, m)
  }

  ghost predicate MovesOf(s: Detection, moves: seq<Move>, s': Detection)
    decreases |moves|
  {
    if moves == [] then s' == s
    else exists s1 :: MoveOf(s, moves[0], s1) && MovesOf(s1, moves[1..], s')
  }

  predicate NewVictim(pending: set<Client>, m: Move) {
    m.Detect? && m.victim !in pending
  }

  /** The rounds of detection that pick a victim whose abort is not under way already. */
  function NewVictims(pending: set<Client>, moves: seq<Move>): nat
    decreases |moves|
  {
    if moves == [] then 0
    else (if NewVictim(pending, moves[0]) then 1 else 0) + NewVictims(PendingAfter(pending, moves[0]), moves[1..])
  }

  function Rounds(moves: seq<Move>): nat {
    if moves == [] then 0 else (if moves[0].Detect? then 1 else 0) + Rounds(moves[1..])
  }

  /** The detector looks again only after the abort it submitted has been applied. */
  predicate Awaited(pending: set<Client>, moves: seq<Move>)
    decreases |moves|
  {
    moves != [] ==>
      (moves[0].Detect? ==> pending == {}) && Awaited(PendingAfter(pending, moves[0]), moves[1..])
  }

  /** The clients that wait and are not about to be aborted. */
  function Waiting(s: Detection): set<Client> {
    s.table.waitFor.Keys - s.pending
  }

  /** No new waiting client and no new edge. */
  ghost predicate Within(g': Graph, g: Graph) {
    g'.Keys <= g.Keys && forall u :: WaitsFor(g', u) <= WaitsFor(g, u)
  }

  lemma OnCycleWaits(g: Graph, cycle: seq<Client>, c: Client)
    requires IsCycle(g, cycle) && c in cycle
    ensures c in g
  {
    var i :| 0 <= i < |cycle| && cycle[i] == c;
    var k := if i == |cycle| - 1 then 0 else i;
    assert cycle[k + 1] in WaitsFor(g, cycle[k]);
  }

  lemma CommandShrinks(t: Table, command: Command, t': Table)
    requires TableInv(t) && CommandApplied(t, command, t') && !command.Acquire?
    ensures TableInv(t') && Within(t'.waitFor, t.waitFor)
    ensures command.Abort? ==> command.client !in Vertices(t'.waitFor)
  {
    hide TableInv, ReleasedAll;
    var order, now, reply :| StepOf(t, command, order, now, t', reply);
    AppliedInv(t, command, order, now);
    match command {
      case Release(c, r) =>
      case ReleaseAll(c) => ReleaseAllIs(t, c, order);
      case Abort(c) => ReleaseAllIs(t, c, order);
      case Unknown =>
    }
  }

  /** A move adds no edge; a round picks a waiting client, and its abort takes it out of the graph altogether. */
  lemma MoveShrinks(s: Detection, m: Move, s': Detection)
    requires TableInv(s.table) && MoveOf(s, m, s')
    ensures TableInv(s'.table) && Within(s'.table.waitFor, s.table.waitFor)
    ensures m.Detect? ==> s'.table == s.table && m.victim in s.table.waitFor
    ensures m.Apply? ==> m.victim !in Vertices(s'.table.waitFor)
  {
    hide TableInv, IsCycle, Vertices, CommandApplied;
    match m {
      case Detect(cycle, victim) => OnCycleWaits(s.table.waitFor, cycle, victim);
      case Apply(victim) => CommandShrinks(s.table, Abort(victim), s'.table);
      case Other(command) => CommandShrinks(s.table, command, s'.table);
    }
  }

  lemma AppliedLeaves(s: Detection, m: Move, s': Detection)
    requires TableInv(s.table) && MoveOf(s, m, s')
    ensures Waiting(s') <= Waiting(s)
    ensures NewVictim(s.pending, m) ==> m.victim in Waiting(s) && m.victim !in Waiting(s')
  {
    hide TableInv, TableMove;
    MoveShrinks(s, m, s');
  }

  /** New victims plus clients still waiting for themselves never exceed the clients that waited at first. */
  lemma {:induction false} RoundsAreBounded(s: Detection, moves: seq<Move>, s': Detection)
    requires TableInv(s.table) && MovesOf(s, moves, s')
    ensures TableInv(s'.table) && Within(s'.table.waitFor, s.table.waitFor)
    ensures NewVictims(s.pending, moves) + |Waiting(s')| <= |Waiting(s)|
    decreases |moves|
  {
    hide TableInv, TableMove, Waiting;
    if moves != [] {
      var s1 :| MoveOf(s, moves[0], s1) && MovesOf(s1, moves[1..], s');
      MoveShrinks(s, moves[0], s1);
      AppliedLeaves(s, moves[0], s1);
      RoundsAreBounded(s1, moves[1..], s');
      Fewer(Waiting(s1), Waiting(s), if NewVictim(s.pending, moves[0]) then {moves[0].victim} else {});
    }
  }

  lemma Fewer(part: set<Client>, whole: set<Client>, gone: set<Client>)
    requires part <= whole && gone <= whole && part !! gone
    ensures |part| + |gone| <= |whole|
  {
    assert whole == part + gone + (whole - part - gone);
  }

  /** If no submission is given up on, every round has a new victim. */
  lemma {:induction false} AwaitedRoundsAreNew(pending: set<Client>, moves: seq<Move>)
    requires Awaited(pending, moves)
    ensures Rounds(moves) == NewVictims(pending, moves)
    decreases |moves|
  {
    if moves != [] {
      AwaitedRoundsAreNew(PendingAfter(pending, moves[0]), moves[1..]);
    }
  }

  /** A detector that waits for its aborts makes at most as many rounds as clients waited at first. */
  lemma AwaitedRoundsAreBounded(s: Detection, moves: seq<Move>, s': Detection)
    requires TableInv(s.table) && MovesOf(s, moves, s') && Awaited(s.pending, moves)
    ensures Rounds(moves) <= |s.table.waitFor|
  {
    hide TableInv, MovesOf;
    RoundsAreBounded(s, moves, s');
    AwaitedRoundsAreNew(s.pending, moves);
    Fewer(Waiting(s), s.table.waitFor.Keys, {});
  }

  lemma {:induction false} SomeOrder(s: set<Resource>) returns (order: seq<Resource>)
    ensures Enumerates(order, s)
  {
    if s == {} {
      order := [];
    } else {
      var r :| r in s;
      order := SomeOrder(s - {r});
      order := order + [r];
    }
  }

  lemma {:induction false} SomeYoungest(ages: map<Client, int>, cycle: seq<Client>) returns (victim: Client)
    requires cycle != []
    ensures IsYoungest(ages, cycle, victim)
  {
    if |cycle| == 1 {
      victim := cycle[0];
    } else {
      victim := SomeYoungest(ages, cycle[1..]);
      assert forall c | c in cycle :: c == cycle[0] || c in cycle[1..];
      victim := if AgeOf(ages, victim) < AgeOf(ages, cycle[0]) then cycle[0] else victim;
    }
  }

  /** While there is a deadlock, the detector has a round to make, and its abort can be applied. */
  lemma DeadlockHasRound(s: Detection) returns (found: Move, s1: Detection, s': Detection)
    requires HasCycle(s.table.waitFor)
    ensures found.Detect? && MoveOf(s, found, s1) && MoveOf(s1, Apply(found.victim), s')
  {
    var t := s.table;
    var w :| IsClosedWalk(t.waitFor, w);
    var cycle := ClosedWalkHasCycle(t.waitFor, w);
    var victim := SomeYoungest(t.ages, cycle);
    var order := SomeOrder(HeldBy(t.clientLocks, victim));
    var (t', reply) := ReleasedAll(t, victim, order);
    assert StepOf(t, Abort(victim), order, 0, t', reply);
    found := Detect(cycle, victim);
    s1 := s.(pending := s.pending + {victim});
    s' := Detection(t', s1.pending - {victim});
  }

  lemma VictimLeaves(s: Detection, found: Move, s1: Detection, s': Detection)
    requires TableInv(s.table) && found.Detect? && MoveOf(s, found, s1) && MoveOf(s1, Apply(found.victim), s')
    ensures TableInv(s'.table) && |s'.table.waitFor| < |s.table.waitFor|
    ensures s1.pending == s.pending + {found.victim} && s'.pending == s1.pending - {found.victim}
  {
    hide TableInv, TableMove;
    MoveShrinks(s, found, s1);
    MoveShrinks(s1, Apply(found.victim), s');
    Fewer(s'.table.waitFor.Keys, s.table.waitFor.Keys, {found.victim});
  }

  /** Detecting and aborting in turn leads from every table to one without a deadlock. */
  lemma {:induction false} DeadlocksAreCleared(s: Detection) returns (moves: seq<Move>, s': Detection)
    requires TableInv(s.table)
    ensures MovesOf(s, moves, s') && !HasCycle(s'.table.waitFor)
    ensures |moves| <= 2 * |s.table.waitFor| && forall m | m in moves :: !m.Other?
    ensures s.pending == {} ==> Awaited(s.pending, moves)
    decreases |s.table.waitFor|
  {
    hide TableInv, MoveOf, HasCycle;
    if HasCycle(s.table.waitFor) {
      var found, s1, s2 := DeadlockHasRound(s);
      VictimLeaves(s, found, s1, s2);
      var rest;
      rest, s' := DeadlocksAreCleared(s2);
      var last := [Apply(found.victim)] + rest;
      moves := [found] + last;
      assert moves[1..] == last && last[1..] == rest;
      assert MovesOf(s1, last, s');
      assert s.pending == {} ==> s1.pending == {found.victim} && s2.pending == {};
    } else {
      moves, s' := [], s;
    }
  }
}
