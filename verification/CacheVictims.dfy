/** Whom a cache node evicts, in terms of what has been asked of it over a whole run. */
module CacheVictims {
  import opened Quorums
  import opened CachePolicy
  import opened CacheStates
  import opened CacheTheorems

  // ---------- calls in a row ----------

  function Replayed(p: Policy, calls: seq<Call>): Policy
    decreases |calls|
  {
    if calls == [] then p else Replayed(Called(p, calls[0]), calls[1..])
  }

  /** Only known keys are accessed and only new ones inserted. */
  ghost predicate ProperCall(p: Policy, call: Call) {
    (call.Access? ==> Knows(p, call.k)) && (call.Insert? ==> !Knows(p, call.k))
  }

  ghost predicate ProperCalls(p: Policy, calls: seq<Call>)
    decreases |calls|
  {
    calls != [] ==> ProperCall(p, calls[0]) && ProperCalls(Called(p, calls[0]), calls[1..])
  }

  lemma {:induction false} ReplayOn(p: Policy, a: seq<Call>, b: seq<Call>)
    requires ProperCalls(p, a) && ProperCalls(Replayed(p, a), b)
    ensures ProperCalls(p, a + b) && Replayed(p, a + b) == Replayed(Replayed(p, a), b)
    decreases |a|
  {
    hide Called, ProperCall;
    if a == [] {
      assert a + b == b;
    } else {
      ReplayOn(Called(p, a[0]), a[1..], b);
      assert (a + b)[1..] == a[1..] + b;
    }
  }

  lemma OneCall(p: Policy, call: Call)
    requires ProperCall(p, call)
    ensures ProperCalls(p, [call]) && Replayed(p, [call]) == Called(p, call)
  {
    assert [call][1..] == [];
  }

  /** What has been replayed is what the policy's own history says. */
  lemma {:induction false} HistoryOf(empty: Policy, calls: seq<Call>, more: seq<Call>)
    requires Disciplined(empty, calls) && ProperCalls(PolicyAfter(empty, calls), more)
    ensures Disciplined(empty, calls + more) && PolicyAfter(empty, calls + more) == Replayed(PolicyAfter(empty, calls), more)
    decreases |more|
  {
    hide Called;
    if more == [] {
      assert calls + more == calls;
    } else {
      var next := calls + [more[0]];
      assert next[..|calls|] == calls;
      HistoryOf(empty, next, more[1..]);
      assert next + more[1..] == calls + more;
    }
  }

  // ---------- the calls of one operation ----------

  function RoomCalls(s: CacheState): seq<Call>
    decreases Size(s.policy)
  {
    if |s.lines| < s.maxSize then []
    else
      match Victim(s.policy)
      case None => []
      case Some(k) =>
        EvictedShrinks(s.policy);
        [Evict] + RoomCalls(s.(lines := s.lines - {k}, policy := Evicted(s.policy)))
  }

  function HitCalls(s: CacheState, k: Key): seq<Call> {
    if HasCopy(s, k) then [Access(k)] else []
  }

  function EntryCalls(s: CacheState, k: Key): seq<Call> {
    RoomCalls(s) + [Insert(k)]
  }

  function WriteCalls(s: CacheState, k: Key): seq<Call> {
    if k in s.lines then [Access(k)] else EntryCalls(s, k)
  }

  function InvalidationCalls(s: CacheState, k: Key): seq<Call> {
    if k in s.lines then [Remove(k)] else []
  }

  /** What an operation makes node m tell its policy: a use, an arrival, a removal, or evictions. */
  function OpCalls(c: Caches, op: Op, m: NodeId): seq<Call>
    requires m in c
  {
    match op
    case Get(n, k, from) =>
      if m != n then [] else if HasCopy(c[m], k) then HitCalls(c[m], k) else if from.None? then [] else EntryCalls(c[m], k)
    case Put(n, k, _) => if m == n then WriteCalls(c[m], k) else InvalidationCalls(c[m], k)
    case Delete(n, k) => if m == n then [Remove(k)] else InvalidationCalls(c[m], k)
  }

  lemma {:induction false} RoomReplayed(s: CacheState)
    ensures ProperCalls(s.policy, RoomCalls(s)) && Replayed(s.policy, RoomCalls(s)) == WithRoom(s).policy
    decreases Size(s.policy)
  {
    if |s.lines| >= s.maxSize && Victim(s.policy).Some? {
      EvictedShrinks(s.policy);
      var s1 := s.(lines := s.lines - {Victim(s.policy).value}, policy := Evicted(s.policy));
      RoomReplayed(s1);
      assert ([Evict] + RoomCalls(s1))[1..] == RoomCalls(s1);
    }
  }

  lemma EntryReplayed(s: CacheState, k: Key)
    requires NodeInv(s) && k !in s.lines
    ensures ProperCalls(s.policy, EntryCalls(s, k)) && Replayed(s.policy, EntryCalls(s, k)) == Inserted(WithRoom(s).policy, k)
  {
    hide Knows, WithRoom, RoomCalls, ProperCalls, Replayed;
    RoomIs(s);
    RoomReplayed(s);
    OneCall(WithRoom(s).policy, Insert(k));
    ReplayOn(s.policy, RoomCalls(s), [Insert(k)]);
  }

  lemma NoCalls(p: Policy)
    ensures ProperCalls(p, []) && Replayed(p, []) == p
  {
  }

  lemma OpReplayed(c: Caches, last: map<Key, Value>, op: Op, m: NodeId)
    requires CachesInv(c, last) && OpEnabled(c, op) && m in c
    ensures ProperCalls(c[m].policy, OpCalls(c, op, m)) && m in Done(c, op)
    ensures Replayed(c[m].policy, OpCalls(c, op, m)) == Done(c, op)[m].policy
  {
    hide Knows, ProperCalls, Replayed, WithRoom, EntryCalls, LinesInv;
    var s := c[m];
    NoCalls(s.policy);
    LineIsCopy(c, last, m, op.key);
    NoLine(c, m, op.key);
    OneCall(s.policy, Remove(op.key));
    if op.key in s.lines {
      OneCall(s.policy, Access(op.key));
    } else {
      EntryReplayed(s, op.key);
    }
  }

  // ---------- runs ----------

  /** Everything node m has told its policy over a run. */
  function RunCalls(c: Caches, ops: seq<Op>, m: NodeId): seq<Call>
    requires Enabled(c, ops) && m in c
    decreases |ops|
  {
    if ops == [] then []
    else OpCalls(c, ops[0], m) + if m in Done(c, ops[0]) then RunCalls(Done(c, ops[0]), ops[1..], m) else []
  }

  lemma {:induction false} RunReplayed(c: Caches, last: map<Key, Value>, ops: seq<Op>, m: NodeId)
    requires CachesInv(c, last) && Enabled(c, ops) && m in c
    ensures m in After(c, ops) && ProperCalls(c[m].policy, RunCalls(c, ops, m))
    ensures Replayed(c[m].policy, RunCalls(c, ops, m)) == After(c, ops)[m].policy
    decreases |ops|
  {
    hide CachesInv, Done, OpCalls, ProperCalls, Replayed, OpEnabled, LastPut;
    NoCalls(c[m].policy);
    if ops != [] {
      var c1 := Done(c, ops[0]);
      OpReplayed(c, last, ops[0], m);
      OpKeeps(c, last, ops[0]);
      RunReplayed(c1, LastPut(last, ops[0]), ops[1..], m);
      ReplayOn(c[m].policy, OpCalls(c, ops[0], m), RunCalls(c1, ops[1..], m));
    }
  }

  /**
   * After any run, the line a node would evict next is, with LRU, the cached key whose
   * last insert or access in that run is oldest; with LFU, the cached key used least in
   * that run since it came in.
   */
  lemma VictimAfterRun(c: Caches, ops: seq<Op>, m: NodeId, k: Key)
    requires InitialCaches(c) && Enabled(c, ops) && m in c
    requires m in After(c, ops) && k in After(c, ops)[m].lines
    ensures var calls := RunCalls(c, ops, m); var s := After(c, ops)[m]; var v := Victim(s.policy);
            && s.policy == PolicyAfter(c[m].policy, calls)
            && v.Some? && v.value in s.lines
            && (c[m].policy.LRU? && k != v.value ==> LastUse(calls, v.value) < LastUse(calls, k))
            && (c[m].policy.LFU? ==> UseCount(LFU([]), calls, v.value) <= UseCount(LFU([]), calls, k))
  {
    hide CachesInv, After, Enabled, RunCalls, ProperCalls, Replayed, PolicyAfter, Disciplined, LastUse, UseCount, Victim, Knows, LastAfter;
    var empty, calls := c[m].policy, RunCalls(c, ops, m);
    InitialHolds(c);
    RunReplayed(c, map[], ops, m);
    NothingCalled(empty);
    HistoryOf(empty, [], calls);
    assert [] + calls == calls;
    var s := After(c, ops)[m];
    PoliciesAgree(c, ops, m, k);
    EvictedIs(s.policy);
    if empty.LRU? {
      LruVictimIsOldest(calls, k);
    } else {
      LfuVictimIsLeastUsed(calls, k);
    }
    PoliciesAgree(c, ops, m, Victim(s.policy).value);
  }

  lemma NothingCalled(empty: Policy)
    ensures Disciplined(empty, []) && PolicyAfter(empty, []) == empty
  {
  }
}
