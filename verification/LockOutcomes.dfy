/** What each lock command does to holders, queues and the wait-for graph, and how long a granted lock lasts. */
module LockOutcomes {
  import opened LockCommands
  import opened LockTable
  import opened LockTheorems

  /** Nobody holds the lock, or everybody holds it shared and it is asked for shared. */
  predicate Fits(holders: map<Client, LockMode>, mode: LockMode) {
    holders == map[] || (mode == Shared && forall d | d in holders :: holders[d] == Shared)
  }

  lemma FitsIsGrants(s: LockState, mode: LockMode)
    ensures Fits(s.holders, mode) <==> s.Grants(mode)
  {
  }

  ghost predicate SameEdges(t: Table, t': Table) {
    forall d :: WaitsFor(t'.waitFor, d) == WaitsFor(t.waitFor, d)
  }

  // ---------- asking ----------

  /** The client now holds the lock in this mode; nothing else has changed. */
  ghost predicate Given(s: LockState, c: Client, mode: LockMode, s': LockState) {
    && s'.waiters == s.waiters
    && c in s'.holders && s'.holders[c] == mode
    && forall d | d != c :: (d in s'.holders <==> d in s.holders) && (d in s.holders ==> s'.holders[d] == s.holders[d])
  }

  /** The client waits, as the last one unless it waited before; nothing else has changed. */
  ghost predicate Queued(s: LockState, c: Client, mode: LockMode, s': LockState) {
    && s'.holders == s.holders && Waits(s'.waiters, c)
    && s'.waiters == if Waits(s.waiters, c) then s.waiters else s.waiters + [Waiter(c, mode)]
  }

  lemma LastWaits(waiters: seq<Waiter>, w: Waiter)
    ensures Waits(waiters + [w], w.client)
  {
    assert (waiters + [w])[|waiters|] == w;
  }

  lemma EdgesAre(graph: map<Client, set<Client>>, c: Client, others: set<Client>, d: Client)
    ensures WaitsFor(WithEdges(graph, c, others), d) == WaitsFor(graph, d) + if d == c then others else {}
  {
  }

  /** A request is granted exactly if its mode fits, and then in that mode; otherwise the client queues and waits for every holder. */
  lemma AcquireOutcome(t: Table, c: Client, r: Resource, mode: LockMode, order: seq<Resource>, now: int, t': Table, reply: Reply)
    requires StepOf(t, Acquire(c, r, mode), order, now, t', reply)
    ensures reply == Granted(Fits(LockOf(t, r).holders, mode))
    ensures forall q | q != r :: LockOf(t', q) == LockOf(t, q)
    ensures Fits(LockOf(t, r).holders, mode) ==> Given(LockOf(t, r), c, mode, LockOf(t', r)) && SameEdges(t, t')
    ensures !Fits(LockOf(t, r).holders, mode) ==>
              && Queued(LockOf(t, r), c, mode, LockOf(t', r))
              && WaitsFor(t'.waitFor, c) == WaitsFor(t.waitFor, c) + (LockOf(t, r).holders.Keys - {c})
              && forall d | d != c :: WaitsFor(t'.waitFor, d) == WaitsFor(t.waitFor, d)
    ensures t'.ages == if c in t.ages then t.ages else t.ages[c := now]
  {
    hide Fits, LockState.Grants, WithEdges, WaitsFor, Waits;
    FitsIsGrants(LockOf(t, r), mode);
    forall d ensures WaitsFor(WithEdges(t.waitFor, c, LockOf(t, r).holders.Keys - {c}), d)
                  == WaitsFor(t.waitFor, d) + if d == c then LockOf(t, r).holders.Keys - {c} else {} {
      EdgesAre(t.waitFor, c, LockOf(t, r).holders.Keys - {c}, d);
    }
    LastWaits(LockOf(t, r).waiters, Waiter(c, mode));
  }

  // ---------- releasing ----------

  /** The client has let go, and the first k waiters have come in, one exclusive or all shared, each in the mode it asked for. */
  ghost predicate PassedOn(s: LockState, c: Client, k: nat, s': LockState) {
    && k <= |s.waiters| && s'.waiters == s.waiters[k..]
    && (k > 0 ==> Fits(s.holders - {c}, s.waiters[0].mode))
    && (k > 1 ==> forall i | 0 <= i < k :: s.waiters[i].mode == Shared)
    && (forall d :: d in s'.holders <==> (d in s.holders && d != c) || Waits(s.waiters[..k], d))
    && (forall i | 0 <= i < k :: s.waiters[i].client in s'.holders && s'.holders[s.waiters[i].client] == s.waiters[i].mode)
    && (forall d | d in s.holders && d != c && !Waits(s.waiters[..k], d) :: d in s'.holders && s'.holders[d] == s.holders[d])
  }

  /** As many waiters as fit have come in from the front. */
  ghost predicate HandedOn(s: LockState, c: Client, s': LockState) {
    && (exists k :: PassedOn(s, c, k, s'))
    && (s'.waiters != [] ==> !Fits(s'.holders, s'.waiters[0].mode))
  }

  lemma {:induction false} AdmittedModes(holders: map<Client, LockMode>, admitted: seq<Waiter>)
    requires forall i, j | 0 <= i < j < |admitted| :: admitted[i].client != admitted[j].client
    ensures forall i | 0 <= i < |admitted| ::
      admitted[i].client in WithHolders(holders, admitted) && WithHolders(holders, admitted)[admitted[i].client] == admitted[i].mode
    ensures forall d | d in holders && !Waits(admitted, d) ::
      d in WithHolders(holders, admitted) && WithHolders(holders, admitted)[d] == holders[d]
    decreases |admitted|
  {
    if admitted != [] {
      var first := admitted[0];
      AdmittedModes(holders[first.client := first.mode], admitted[1..]);
      forall d ensures Waits(admitted, d) <==> d == first.client || Waits(admitted[1..], d) {
        WaitsSplit(admitted, d);
      }
      assert forall i | 1 <= i < |admitted| :: admitted[i] == admitted[1..][i - 1];
    }
  }

  lemma AdmittedFit(s: LockState)
    ensures Admitted(s) > 0 ==> Fits(s.holders, s.waiters[0].mode)
    ensures Admitted(s) > 1 ==> forall i | 0 <= i < Admitted(s) :: s.waiters[i].mode == Shared
  {
    hide Fits, LockState.Grants;
    FitsIsGrants(s, Shared);
    if s.waiters != [] { FitsIsGrants(s, s.waiters[0].mode); FreeFits(s, s.waiters[0].mode); }
  }

  lemma FreeFits(s: LockState, mode: LockMode)
    ensures !s.Held() ==> Fits(s.holders, mode)
  {
  }

  lemma PromotedPassesOn(s: LockState, c: Client)
    requires LockInv(s)
    ensures HandedOn(s, c, WithoutHolder(s, c))
  {
    hide Admitted, Fits, LockState.Grants;
    var s1 := s.(holders := s.holders - {c});
    var k := Admitted(s1);
    WithHoldersKeys(s1.holders, s.waiters[..k]);
    AdmittedModes(s1.holders, s.waiters[..k]);
    PromotedInv(s1);
    AdmittedFit(s1);
    var s' := WithoutHolder(s, c);
    forall i | 0 <= i < k ensures s.waiters[i].client in s'.holders && s'.holders[s.waiters[i].client] == s.waiters[i].mode {
      assert s.waiters[..k][i] == s.waiters[i];
    }
    assert PassedOn(s, c, k, s');
    if s'.waiters != [] { FitsIsGrants(s', s'.waiters[0].mode); }
  }

  /** The client neither waits nor is waited for any more; all other edges, and all other ages, are as they were. */
  ghost predicate LeftGraph(t: Table, c: Client, t': Table) {
    && WaitsFor(t'.waitFor, c) == {}
    && (forall d | d != c :: WaitsFor(t'.waitFor, d) == WaitsFor(t.waitFor, d) - {c})
    && t'.ages == t.ages - {c}
  }

  lemma WithoutLeaves(graph: map<Client, set<Client>>, c: Client, d: Client)
    ensures WaitsFor(WithoutClient(graph, c), d) == if d == c then {} else WaitsFor(graph, d) - {c}
  {
  }

  /**
   * A release lets the front of the queue in. If the client was the last holder it leaves
   * the wait-for graph; if others hold on, or it held nothing, graph and ages stay.
   */
  lemma ReleaseOutcome(t: Table, c: Client, r: Resource, order: seq<Resource>, now: int, t': Table, reply: Reply)
    requires TableInv(t) && StepOf(t, Release(c, r), order, now, t', reply)
    ensures reply == Granted(Holds(t, c, r))
    ensures !Holds(t, c, r) ==> t' == t
    ensures Holds(t, c, r) ==> HandedOn(LockOf(t, r), c, LockOf(t', r))
    ensures forall q | q != r :: LockOf(t', q) == LockOf(t, q)
    ensures Holds(t, c, r) && LockOf(t, r).holders.Keys == {c} ==> LeftGraph(t, c, t')
    ensures Holds(t, c, r) && LockOf(t, r).holders.Keys != {c} ==> SameEdges(t, t') && t'.ages == t.ages
  {
    hide LockInv, Promoted, HandedOn, WithLocks, WithoutClient;
    if Holds(t, c, r) {
      PromotedPassesOn(t.locks[r], c);
      LastHolder(t.locks[r].holders, c);
      forall d ensures WaitsFor(WithoutClient(t.waitFor, c), d) == if d == c then {} else WaitsFor(t.waitFor, d) - {c} {
        WithoutLeaves(t.waitFor, c, d);
      }
    }
  }

  lemma LastHolder(holders: map<Client, LockMode>, c: Client)
    requires c in holders
    ensures holders - {c} == map[] <==> holders.Keys == {c}
  {
    var rest := holders - {c};
    assert rest.Keys == holders.Keys - {c};
    assert rest == map[] <==> rest.Keys == {};
    assert holders.Keys == rest.Keys + {c};
  }

  /** A release of everything, or an abort: every lock the client held is handed on, and it leaves the wait-for graph. */
  lemma ReleaseAllOutcome(t: Table, command: Command, order: seq<Resource>, now: int, t': Table, reply: Reply)
    requires TableInv(t) && (command.ReleaseAll? || command.Abort?) && StepOf(t, command, order, now, t', reply)
    ensures reply == Count(|HeldBy(t.clientLocks, command.client)|)
    ensures forall r | Holds(t, command.client, r) :: HandedOn(LockOf(t, r), command.client, LockOf(t', r))
    ensures forall r | !Holds(t, command.client, r) :: LockOf(t', r) == LockOf(t, r)
    ensures LeftGraph(t, command.client, t')
  {
    hide LockInv, WithoutHolder, HandedOn, WithoutClient, ReleasedAll, WaitsFor;
    var c := command.client;
    ReleaseAllIs(t, c, order);
    forall r | Holds(t, c, r) ensures HandedOn(LockOf(t, r), c, LockOf(t', r)) {
      PromotedPassesOn(t.locks[r], c);
    }
    forall d ensures WaitsFor(t'.waitFor, d) == if d == c then {} else WaitsFor(t.waitFor, d) - {c} {
      WithoutLeaves(t.waitFor, c, d);
    }
  }

  // ---------- how long a lock lasts ----------

  /** The client gives up the resource, or is made to. */
  predicate Frees(command: Command, c: Client, r: Resource) {
    command == Release(c, r) || command == ReleaseAll(c) || command == Abort(c)
  }

  predicate HoldsAs(t: Table, c: Client, r: Resource, mode: LockMode) {
    Holds(t, c, r) && t.locks[r].holders[c] == mode
  }

  /** Whoever keeps a lock while it is handed on keeps it in its mode. */
  lemma HandedOnKeeps(s: LockState, d: Client, s': LockState, c: Client)
    requires HandedOn(s, d, s') && c in s.holders && c != d
    ensures c in s'.holders && s'.holders[c] == s.holders[c]
  {
    var k: nat :| PassedOn(s, d, k, s');
    assert c in s.holders - {d};
    if Waits(s.waiters[..k], c) {
      var i :| 0 <= i < k && s.waiters[..k][i].client == c;
      assert s.waiters[i].client == c && s.waiters[i].mode == Shared;
    }
  }

  lemma HoldsAsIs(t: Table, c: Client, r: Resource, mode: LockMode)
    ensures HoldsAs(t, c, r, mode) <==> c in LockOf(t, r).holders && LockOf(t, r).holders[c] == mode
  {
  }

  lemma AskingKeeps(s: LockState, d: Client, asked: LockMode, s': LockState, c: Client)
    requires c in s.holders
    requires if Fits(s.holders, asked) then Given(s, d, asked, s') else Queued(s, d, asked, s')
    ensures c in s'.holders && s'.holders[c] == s.holders[c]
  {
  }

  /** No command but the holder's own takes a lock away, or changes its mode. */
  lemma HoldStays(t: Table, command: Command, order: seq<Resource>, now: int, t': Table, reply: Reply,
                  c: Client, r: Resource, mode: LockMode)
    requires TableInv(t) && HoldsAs(t, c, r, mode) && !Frees(command, c, r) && StepOf(t, command, order, now, t', reply)
    ensures HoldsAs(t', c, r, mode)
  {
    hide TableInv, StepOf, HandedOn, Given, Queued, Fits, LeftGraph, SameEdges, LockOf, HoldsAs, Holds, WaitsFor, Waits;
    HoldsAsIs(t, c, r, mode);
    HoldsAsIs(t', c, r, mode);
    match command {
      case Acquire(d, q, asked) =>
        AcquireOutcome(t, d, q, asked, order, now, t', reply);
        if q == r { AskingKeeps(LockOf(t, r), d, asked, LockOf(t', r), c); }
      case Release(d, q) =>
        ReleaseOutcome(t, d, q, order, now, t', reply);
        if q == r && Holds(t, d, r) { HandedOnKeeps(LockOf(t, r), d, LockOf(t', r), c); }
      case ReleaseAll(d) =>
        ReleaseAllOutcome(t, command, order, now, t', reply);
        if Holds(t, d, r) { HandedOnKeeps(LockOf(t, r), d, LockOf(t', r), c); }
      case Abort(d) =>
        ReleaseAllOutcome(t, command, order, now, t', reply);
        if Holds(t, d, r) { HandedOnKeeps(LockOf(t, r), d, LockOf(t', r), c); }
      case Unknown =>
        UnknownStays(t, order, now, t', reply);
    }
  }

  lemma UnknownStays(t: Table, order: seq<Resource>, now: int, t': Table, reply: Reply)
    requires StepOf(t, Unknown, order, now, t', reply)
    ensures t' == t
  {
  }

  lemma GrantHolds(t: Table, c: Client, r: Resource, mode: LockMode, order: seq<Resource>, now: int, t': Table, reply: Reply)
    requires StepOf(t, Acquire(c, r, mode), order, now, t', reply) && reply == Granted(true)
    ensures HoldsAs(t', c, r, mode)
  {
    hide StepOf, Fits, Queued;
    AcquireOutcome(t, c, r, mode, order, now, t', reply);
  }

  /** After any command sequence: who was granted a lock holds it, in the mode it asked for, until it frees it. */
  lemma {:induction false} GrantedIsHeld(commands: seq<Command>, t: Table, replies: seq<Reply>, i: nat, c: Client, r: Resource, mode: LockMode)
    requires Follows(commands, t, replies) && i < |commands| == |replies|
    requires commands[i] == Acquire(c, r, mode) && replies[i] == Granted(true)
    requires forall j | i < j < |commands| :: !Frees(commands[j], c, r)
    ensures HoldsAs(t, c, r, mode)
    decreases |commands|
  {
    hide StepOf, TableInv, HoldsAs;
    var t0, order, now :| Follows(Front(commands), t0, Front(replies)) && StepOf(t0, Last(commands), order, now, t, Last(replies));
    if i == |commands| - 1 {
      GrantHolds(t0, c, r, mode, order, now, t, Last(replies));
    } else {
      FollowsInv(Front(commands), t0, Front(replies));
      GrantedIsHeld(Front(commands), t0, Front(replies), i, c, r, mode);
      HoldStays(t0, Last(commands), order, now, t, Last(replies), c, r, mode);
    }
  }

  /** An exclusive lock that was granted excludes every other holder until it is freed. */
  lemma ExclusiveIsAlone(commands: seq<Command>, t: Table, replies: seq<Reply>, i: nat, c: Client, r: Resource)
    requires Follows(commands, t, replies) && i < |commands| == |replies|
    requires commands[i] == Acquire(c, r, Exclusive) && replies[i] == Granted(true)
    requires forall j | i < j < |commands| :: !Frees(commands[j], c, r)
    ensures r in t.locks && t.locks[r].holders == map[c := Exclusive]
  {
    hide Follows;
    GrantedIsHeld(commands, t, replies, i, c, r, Exclusive);
    FollowsInv(commands, t, replies);
    assert LockInv(t.locks[r]);
  }
}
