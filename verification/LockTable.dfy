/**
 * The lock table that every node applies the replicated commands to, as a value:
 * holders and waiters of each resource, the reverse index of clients, and the
 * edges and ages of the deadlock detector.
 */
module LockTable {
  import opened LockCommands

  datatype Waiter = Waiter(client: Client, mode: LockMode)

  datatype LockState = LockState(holders: map<Client, LockMode>, waiters: seq<Waiter>) {
    predicate Held() {
      holders != map[]
    }

    /** Exclusive as soon as one holder is; meaningful only when held. */
    function Mode(): LockMode {
      if exists c :: c in holders && holders[c] == Exclusive then Exclusive else Shared
    }

    /** A request of this mode is granted at once. */
    predicate Grants(mode: LockMode) {
      !Held() || (mode == Shared && Mode() == Shared)
    }
  }

  const FREE := LockState(map[], [])

  /** Times are kept only as the age of a client's first request; leases are left out. */
  datatype Table = Table(
    locks: map<Resource, LockState>,
    clientLocks: map<Client, set<Resource>>,
    waitFor: map<Client, set<Client>>,
    ages: map<Client, int>)

  const EMPTY := Table(map[], map[], map[], map[])

  function LockOf(t: Table, r: Resource): LockState {
    if r in t.locks then t.locks[r] else FREE
  }

  function HeldBy(index: map<Client, set<Resource>>, c: Client): set<Resource> {
    if c in index then index[c] else {}
  }

  function WaitsFor(graph: map<Client, set<Client>>, c: Client): set<Client> {
    if c in graph then graph[c] else {}
  }

  predicate Waits(waiters: seq<Waiter>, c: Client) {
    exists i :: 0 <= i < |waiters| && waiters[i].client == c
  }

  // ---------- promotion ----------

  /** How many waiters at the front can be let in together. */
  function Admitted(s: LockState): (k: nat)
    ensures k <= |s.waiters|
  {
    if s.waiters == [] then 0
    else if !s.Held() && s.waiters[0].mode == Exclusive then 1
    else if s.Grants(Shared) then SharedRun(s.waiters)
    else 0
  }

  /** Length of the run of shared requests at the front. */
  function SharedRun(waiters: seq<Waiter>): (k: nat)
    ensures k <= |waiters|
    ensures forall i | 0 <= i < k :: waiters[i].mode == Shared
    ensures k < |waiters| ==> waiters[k].mode == Exclusive
  {
    if waiters == [] || waiters[0].mode.Exclusive? then 0
    else
      assert waiters[0].mode.Shared?;
      var k := SharedRun(waiters[1..]);
      assert forall i | 1 <= i < k + 1 :: waiters[i] == waiters[1..][i - 1] && waiters[1..][i - 1].mode == Shared;
      k + 1
  }

  function WithHolders(holders: map<Client, LockMode>, admitted: seq<Waiter>): map<Client, LockMode>
    decreases |admitted|
  {
    if admitted == [] then holders
    else WithHolders(holders[admitted[0].client := admitted[0].mode], admitted[1..])
  }

  function WithLocks(index: map<Client, set<Resource>>, admitted: seq<Waiter>, r: Resource): map<Client, set<Resource>>
    decreases |admitted|
  {
    if admitted == [] then index
    else
      var c := admitted[0].client;
      WithLocks(index[c := HeldBy(index, c) + {r}], admitted[1..], r)
  }

  /** The waiters that fit move in; the rest keep waiting. */
  function Promoted(s: LockState): LockState {
    var k := Admitted(s);
    LockState(WithHolders(s.holders, s.waiters[..k]), s.waiters[k..])
  }

  // ---------- the commands ----------

  /** Drops the client as a waiter and as somebody waited for; no empty entries remain. */
  function WithoutClient(graph: map<Client, set<Client>>, c: Client): map<Client, set<Client>> {
    map w | w in graph && w != c && graph[w] - {c} != {} :: graph[w] - {c}
  }

  /** Edges from the client to each of the others. */
  function WithEdges(graph: map<Client, set<Client>>, c: Client, others: set<Client>): map<Client, set<Client>> {
    if others == {} then graph else graph[c := WaitsFor(graph, c) + others]
  }

  function Aged(ages: map<Client, int>, c: Client, now: int): map<Client, int> {
    if c in ages then ages else ages[c := now]
  }

  datatype Reply = Granted(ok: bool) | Count(count: nat) | Nothing

  function Acquired(t: Table, c: Client, r: Resource, mode: LockMode, now: int): (Table, Reply) {
    var s := LockOf(t, r);
    var t1 := t.(locks := t.locks[r := s], ages := Aged(t.ages, c, now));
    if s.Grants(mode) then
      (t1.(locks := t.locks[r := s.(holders := s.holders[c := mode])],
           clientLocks := t.clientLocks[c := HeldBy(t.clientLocks, c) + {r}]),
       Granted(true))
    else
      var waitFor := WithEdges(t.waitFor, c, s.holders.Keys - {c});
      var waiters := if Waits(s.waiters, c) then s.waiters else s.waiters + [Waiter(c, mode)];
      (t1.(locks := t.locks[r := s.(waiters := waiters)], waitFor := waitFor), Granted(false))
  }

  predicate Holds(t: Table, c: Client, r: Resource) {
    r in t.locks && c in t.locks[r].holders
  }

  function Released(t: Table, c: Client, r: Resource): Table
    requires Holds(t, c, r)
  {
    var s := t.locks[r].(holders := t.locks[r].holders - {c});
    var admitted := s.waiters[..Admitted(s)];
    var left := t.clientLocks[c := HeldBy(t.clientLocks, c) - {r}];
    Table(t.locks[r := Promoted(s)],
          WithLocks(left, admitted, r),
          if s.Held() then t.waitFor else WithoutClient(t.waitFor, c),
          if s.Held() then t.ages else t.ages - {c})
  }

  function ReleasedOne(t: Table, c: Client, r: Resource): (Table, bool) {
    if Holds(t, c, r) then (Released(t, c, r), true) else (t, false)
  }

  /** Releasing resource after resource in the given order, counting the successes. */
  function ReleasedInOrder(t: Table, c: Client, order: seq<Resource>): (Table, nat)
    decreases |order|
  {
    if order == [] then (t, 0)
    else
      var (t1, ok) := ReleasedOne(t, c, order[0]);
      var (t2, n) := ReleasedInOrder(t1, c, order[1..]);
      (t2, if ok then n + 1 else n)
  }

  function ReleasedAll(t: Table, c: Client, order: seq<Resource>): (Table, Reply) {
    var (t1, n) := ReleasedInOrder(t, c, order);
    (t1.(waitFor := WithoutClient(t1.waitFor, c), ages := t1.ages - {c}), Count(n))
  }

  /** A set visited in some order, every member once. */
  ghost predicate Enumerates(order: seq<Resource>, s: set<Resource>) {
    && (forall r :: r in order <==> r in s)
    && (forall i, j | 0 <= i < j < |order| :: order[i] != order[j])
  }

  /** One command; `order` is how this replica happens to walk the client's set, `now` its clock. */
  function Applied(t: Table, command: Command, order: seq<Resource>, now: int): (Table, Reply) {
    match command
    case Acquire(c, r, mode) => Acquired(t, c, r, mode, now)
    case Release(c, r) => var (t1, ok) := ReleasedOne(t, c, r); (t1, Granted(ok))
    case ReleaseAll(c) => ReleasedAll(t, c, order)
    case Abort(c) => ReleasedAll(t, c, order)
    case Unknown => (t, Nothing)
  }

  ghost predicate ValidOrder(t: Table, command: Command, order: seq<Resource>) {
    (command.ReleaseAll? || command.Abort?) ==> Enumerates(order, HeldBy(t.clientLocks, command.client))
  }

  /** The command may take the table to this one, with this reply. */
  ghost predicate StepOf(t: Table, command: Command, order: seq<Resource>, now: int, t': Table, reply: Reply) {
    ValidOrder(t, command, order) && Applied(t, command, order, now) == (t', reply)
  }

  // ---------- the invariant ----------

  /** An exclusive holder is alone; nobody waits twice; whoever waits first cannot be let in. */
  ghost predicate LockInv(s: LockState) {
    && (forall c | c in s.holders && s.holders[c] == Exclusive :: s.holders.Keys == {c})
    && (forall i, j | 0 <= i < j < |s.waiters| :: s.waiters[i].client != s.waiters[j].client)
    && (s.waiters != [] ==> !s.Grants(s.waiters[0].mode))
  }

  ghost predicate TableInv(t: Table) {
    && (forall r | r in t.locks :: LockInv(t.locks[r]))
    && (forall c, r :: r in HeldBy(t.clientLocks, c) <==> Holds(t, c, r))
  }

  lemma WithHoldersKeys(holders: map<Client, LockMode>, admitted: seq<Waiter>)
    ensures forall c :: c in WithHolders(holders, admitted) <==> c in holders || Waits(admitted, c)
    decreases |admitted|
  {
    if admitted != [] {
      var first := admitted[0];
      var holders1 := holders[first.client := first.mode];
      WithHoldersKeys(holders1, admitted[1..]);
      forall c ensures Waits(admitted, c) <==> c == first.client || Waits(admitted[1..], c) {
        WaitsSplit(admitted, c);
      }
    }
  }

  lemma WaitsSplit(waiters: seq<Waiter>, c: Client)
    requires waiters != []
    ensures Waits(waiters, c) <==> c == waiters[0].client || Waits(waiters[1..], c)
  {
  }

  lemma WithHoldersShared(holders: map<Client, LockMode>, admitted: seq<Waiter>)
    requires forall c | c in holders :: holders[c] == Shared
    requires forall i | 0 <= i < |admitted| :: admitted[i].mode == Shared
    ensures forall c | c in WithHolders(holders, admitted) :: WithHolders(holders, admitted)[c] == Shared
    decreases |admitted|
  {
  }

  lemma WithLocksIndex(index: map<Client, set<Resource>>, admitted: seq<Waiter>, r: Resource)
    ensures forall c, q :: q in HeldBy(WithLocks(index, admitted, r), c) <==>
      q in HeldBy(index, c) || (q == r && Waits(admitted, c))
    decreases |admitted|
  {
    if admitted != [] {
      var first := admitted[0].client;
      var index1 := index[first := HeldBy(index, first) + {r}];
      WithLocksIndex(index1, admitted[1..], r);
      forall c ensures Waits(admitted, c) <==> c == first || Waits(admitted[1..], c) {
        WaitsSplit(admitted, c);
      }
    }
  }

  /** Promotion is as generous as possible: after it the first waiter left cannot be let in. */
  lemma PromotedInv(s: LockState)
    requires forall c | c in s.holders && s.holders[c] == Exclusive :: s.holders.Keys == {c}
    requires forall i, j | 0 <= i < j < |s.waiters| :: s.waiters[i].client != s.waiters[j].client
    ensures LockInv(Promoted(s))
  {
    var k := Admitted(s);
    WithHoldersKeys(s.holders, s.waiters[..k]);
    if s.waiters != [] && !s.Held() && s.waiters[0].mode == Exclusive {
      var w := s.waiters[0];
      assert s.waiters[..1] == [w] && [w][1..] == [];
      assert WithHolders(s.holders, [w]) == map[w.client := Exclusive];
      assert Promoted(s).holders[w.client] == Exclusive;
    } else if s.waiters != [] && s.Grants(Shared) {
      assert forall c | c in s.holders :: s.holders[c] == Shared;
      WithHoldersShared(s.holders, s.waiters[..k]);
      if k == 0 { assert s.waiters[..0] == []; } else { assert Waits(s.waiters[..k], s.waiters[0].client); }
    } else {
      assert s.waiters[..0] == [];
    }
  }

  lemma GrantedLockInv(s: LockState, c: Client, mode: LockMode)
    requires LockInv(s) && s.Grants(mode)
    ensures LockInv(s.(holders := s.holders[c := mode]))
  {
  }

  lemma QueuedLockInv(s: LockState, c: Client, mode: LockMode)
    requires LockInv(s) && !s.Grants(mode) && !Waits(s.waiters, c)
    ensures LockInv(s.(waiters := s.waiters + [Waiter(c, mode)]))
  {
  }

  lemma AcquiredInv(t: Table, c: Client, r: Resource, mode: LockMode, now: int)
    requires TableInv(t)
    ensures TableInv(Acquired(t, c, r, mode, now).0)
  {
    hide LockInv;
    var s := LockOf(t, r);
    var t' := Acquired(t, c, r, mode, now).0;
    assert LockInv(FREE) by { EmptyLockInv(); }
    if s.Grants(mode) {
      GrantedLockInv(s, c, mode);
    } else if !Waits(s.waiters, c) {
      QueuedLockInv(s, c, mode);
    }
    forall d, q ensures q in HeldBy(t'.clientLocks, d) <==> Holds(t', d, q) {
      assert q in HeldBy(t.clientLocks, d) <==> Holds(t, d, q);
    }
  }

  lemma EmptyLockInv()
    ensures LockInv(FREE)
  {
  }

  lemma ReleasedInv(t: Table, c: Client, r: Resource)
    requires TableInv(t) && Holds(t, c, r)
    ensures TableInv(Released(t, c, r))
  {
    var s := t.locks[r].(holders := t.locks[r].holders - {c});
    var admitted := s.waiters[..Admitted(s)];
    var t' := Released(t, c, r);
    assert LockInv(t.locks[r]);
    PromotedInv(s);
    WithHoldersKeys(s.holders, admitted);
    WithLocksIndex(t.clientLocks[c := HeldBy(t.clientLocks, c) - {r}], admitted, r);
    forall d, q ensures q in HeldBy(t'.clientLocks, d) <==> Holds(t', d, q) {
      assert q in HeldBy(t.clientLocks, d) <==> Holds(t, d, q);
    }
  }

  lemma ReleasedInOrderInv(t: Table, c: Client, order: seq<Resource>)
    requires TableInv(t)
    ensures TableInv(ReleasedInOrder(t, c, order).0)
    decreases |order|
  {
    if order != [] {
      if Holds(t, c, order[0]) { ReleasedInv(t, c, order[0]); }
      ReleasedInOrderInv(ReleasedOne(t, c, order[0]).0, c, order[1..]);
    }
  }

  /** Every command keeps the invariant, in whatever order the replica walks the client's set. */
  lemma AppliedInv(t: Table, command: Command, order: seq<Resource>, now: int)
    requires TableInv(t)
    ensures TableInv(Applied(t, command, order, now).0)
  {
    match command
    case Acquire(c, r, mode) => AcquiredInv(t, c, r, mode, now);
    case Release(c, r) => if Holds(t, c, r) { ReleasedInv(t, c, r); }
    case ReleaseAll(c) => ReleasedInOrderInv(t, c, order);
    case Abort(c) => ReleasedInOrderInv(t, c, order);
    case Unknown =>
  }
}
