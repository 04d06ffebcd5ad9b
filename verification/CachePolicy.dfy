/** The two eviction policies: who goes first, and why. */
module CachePolicy {
  import opened Options
  import opened OrderedDicts

  type Key = nat

  /** Keys from the least to the most recently used, or use counts in order of insertion. */
  datatype Policy = LRU(order: seq<Key>) | LFU(counts: Dict<Key, nat>)

  function Without(order: seq<Key>, k: Key): seq<Key> {
    if order == [] then []
    else
      var rest := Without(order[1..], k);
      if order[0] == k then rest else [order[0]] + rest
  }

  function Accessed(p: Policy, k: Key): Policy {
    match p
    case LRU(order) => if k in order then LRU(Without(order, k) + [k]) else p
    case LFU(counts) => LFU(Put(counts, k, (if Has(counts, k) then Lookup(counts, k) else 0) + 1))
  }

  function Inserted(p: Policy, k: Key): Policy {
    match p
    case LRU(order) => LRU(Without(order, k) + [k])
    case LFU(counts) => if Has(counts, k) then p else LFU(Put(counts, k, 1))
  }

  function Removed(p: Policy, k: Key): Policy {
    match p
    case LRU(order) => LRU(Without(order, k))
    case LFU(counts) => LFU(Dropped(counts, k))
  }

  /** The first entry with the smallest count. */
  function Least(counts: Dict<Key, nat>): (i: nat)
    requires counts != []
    ensures i < |counts|
    ensures forall j | 0 <= j < |counts| :: counts[i].1 <= counts[j].1
    ensures forall j | 0 <= j < i :: counts[i].1 < counts[j].1
  {
    if |counts| == 1 then 0
    else
      var front := counts[..|counts| - 1];
      var i := Least(front);
      assert forall j | 0 <= j < |front| :: counts[j] == front[j];
      if counts[|counts| - 1].1 < counts[i].1 then |counts| - 1 else i
  }

  function Victim(p: Policy): Option<Key> {
    match p
    case LRU(order) => if order == [] then None else Some(order[0])
    case LFU(counts) => if counts == [] then None else Some(counts[Least(counts)].0)
  }

  function Evicted(p: Policy): Policy {
    match p
    case LRU(order) => if order == [] then p else LRU(order[1..])
    case LFU(counts) => if counts == [] then p else LFU(Dropped(counts, counts[Least(counts)].0))
  }

  // ---------- the keys of a policy ----------

  ghost predicate Knows(p: Policy, k: Key) {
    match p
    case LRU(order) => k in order
    case LFU(counts) => Has(counts, k)
  }

  function Size(p: Policy): nat {
    match p
    case LRU(order) => |order|
    case LFU(counts) => |counts|
  }

  ghost predicate PolicyInv(p: Policy) {
    match p
    case LRU(order) => Distinct(order)
    case LFU(counts) => Proper(counts)
  }

  ghost predicate Distinct(order: seq<Key>) {
    forall i, j | 0 <= i < j < |order| :: order[i] != order[j]
  }

  lemma {:induction false} WithoutKeeps(order: seq<Key>, k: Key, x: Key)
    ensures x in Without(order, k) <==> x in order && x != k
  {
    if order != [] {
      WithoutKeeps(order[1..], k, x);
      assert order == [order[0]] + order[1..];
    }
  }

  lemma {:induction false} WithoutIs(order: seq<Key>, k: Key)
    requires Distinct(order)
    ensures Distinct(Without(order, k))
    ensures forall x :: x in Without(order, k) <==> x in order && x != k
  {
    forall x ensures x in Without(order, k) <==> x in order && x != k {
      WithoutKeeps(order, k, x);
    }
    if order != [] {
      WithoutIs(order[1..], k);
      assert order[0] !in order[1..];
      assert order[0] !in Without(order[1..], k);
    }
  }

  lemma MovedToEnd(order: seq<Key>, k: Key)
    requires Distinct(order)
    ensures Distinct(Without(order, k) + [k])
    ensures forall x :: x in Without(order, k) + [k] <==> x in order || x == k
  {
    WithoutIs(order, k);
    assert k !in Without(order, k);
  }

  lemma AccessedIs(p: Policy, k: Key)
    requires PolicyInv(p) && Knows(p, k)
    ensures PolicyInv(Accessed(p, k)) && forall x :: Knows(Accessed(p, k), x) <==> Knows(p, x)
  {
    hide Put;
    match p {
      case LRU(order) => MovedToEnd(order, k);
      case LFU(counts) => PutIs(counts, k, Lookup(counts, k) + 1);
    }
  }

  lemma InsertedIs(p: Policy, k: Key)
    requires PolicyInv(p)
    ensures PolicyInv(Inserted(p, k)) && forall x :: Knows(Inserted(p, k), x) <==> Knows(p, x) || x == k
  {
    hide Put;
    match p {
      case LRU(order) => MovedToEnd(order, k);
      case LFU(counts) => PutIs(counts, k, 1);
    }
  }

  lemma RemovedIs(p: Policy, k: Key)
    requires PolicyInv(p)
    ensures PolicyInv(Removed(p, k)) && forall x :: Knows(Removed(p, k), x) <==> Knows(p, x) && x != k
  {
    hide Dropped;
    match p {
      case LRU(order) => WithoutIs(order, k);
      case LFU(counts) => DroppedIs(counts, k);
    }
  }

  /** There is a victim exactly when a key is known; it is one of them and leaves. */
  lemma EvictedIs(p: Policy)
    requires PolicyInv(p)
    ensures Victim(p).None? <==> forall x :: !Knows(p, x)
    ensures Victim(p).None? ==> Evicted(p) == p
    ensures Victim(p).Some? ==> PolicyInv(Evicted(p)) && Size(Evicted(p)) == Size(p) - 1 && Knows(p, Victim(p).value)
    ensures Victim(p).Some? ==> forall x :: Knows(Evicted(p), x) <==> Knows(p, x) && x != Victim(p).value
  {
    hide Dropped;
    match p {
      case LRU(order) =>
        if order != [] {
          assert Knows(p, order[0]);
          assert order == [order[0]] + order[1..];
        }
      case LFU(counts) =>
        if counts != [] {
          assert Knows(p, counts[Least(counts)].0);
          DroppedIs(counts, counts[Least(counts)].0);
        }
    }
  }

  // ---------- what the victim is ----------

  datatype Call = Access(k: Key) | Insert(k: Key) | Remove(k: Key) | Evict

  function Called(p: Policy, call: Call): Policy {
    match call
    case Access(k) => Accessed(p, k)
    case Insert(k) => Inserted(p, k)
    case Remove(k) => Removed(p, k)
    case Evict => Evicted(p)
  }

  /** The policy after these calls, made on an empty one. */
  function PolicyAfter(empty: Policy, calls: seq<Call>): (p: Policy)
    ensures p.LRU? <==> empty.LRU?
  {
    if calls == [] then empty else Called(PolicyAfter(empty, calls[..|calls| - 1]), calls[|calls| - 1])
  }

  predicate Uses(call: Call, k: Key) {
    (call.Access? || call.Insert?) && call.k == k
  }

  /** When the key was last inserted or accessed, counted in calls; 0 if never. */
  function LastUse(calls: seq<Call>, k: Key): nat {
    if calls == [] then 0 else if Uses(calls[|calls| - 1], k) then |calls| else LastUse(calls[..|calls| - 1], k)
  }

  /** How often the key has been inserted or accessed since it last left the policy. */
  function UseCount(empty: Policy, calls: seq<Call>, k: Key): nat {
    if calls == [] then 0
    else
      var front, call := calls[..|calls| - 1], calls[|calls| - 1];
      if call == Remove(k) || (call == Evict && Victim(PolicyAfter(empty, front)) == Some(k)) then 0
      else UseCount(empty, front, k) + if Uses(call, k) then 1 else 0
  }

  /** As the cache calls it: only known keys are accessed, only new ones inserted. */
  ghost predicate Disciplined(empty: Policy, calls: seq<Call>) {
    calls != [] ==>
      var front, call := calls[..|calls| - 1], calls[|calls| - 1];
      && Disciplined(empty, front)
      && (call.Access? ==> Knows(PolicyAfter(empty, front), call.k))
      && (call.Insert? ==> !Knows(PolicyAfter(empty, front), call.k))
  }

  lemma {:induction false} LastUseBound(calls: seq<Call>, k: Key)
    ensures LastUse(calls, k) <= |calls|
  {
    if calls != [] {
      LastUseBound(calls[..|calls| - 1], k);
    }
  }

  /** The list is in order of last use. */
  ghost predicate ByLastUse(calls: seq<Call>, order: seq<Key>) {
    forall i, j | 0 <= i < j < |order| :: LastUse(calls, order[i]) < LastUse(calls, order[j])
  }

  lemma {:induction false} WithoutByLastUse(calls: seq<Call>, order: seq<Key>, k: Key)
    requires ByLastUse(calls, order)
    ensures ByLastUse(calls, Without(order, k))
    ensures forall x | x in Without(order, k) :: x in order && x != k
  {
    hide ByLastUse;
    if order == [] {
    } else {
      var first, rest := order[0], order[1..];
      assert order == [first] + rest;
      HeadByLastUse(calls, first, rest);
      WithoutByLastUse(calls, rest, k);
      HeadByLastUse(calls, first, Without(rest, k));
    }
  }

  /** In order of last use means: the first before all others, and those in order. */
  lemma HeadByLastUse(calls: seq<Call>, first: Key, rest: seq<Key>)
    ensures ByLastUse(calls, [first] + rest)
       <==> ByLastUse(calls, rest) && forall x | x in rest :: LastUse(calls, first) < LastUse(calls, x)
  {
    hide ByLastUse, LastUse;
    if ByLastUse(calls, [first] + rest) {
      SplitByLastUse(calls, first, rest);
    }
    if ByLastUse(calls, rest) && forall x | x in rest :: LastUse(calls, first) < LastUse(calls, x) {
      JoinByLastUse(calls, first, rest);
    }
  }

  lemma SplitByLastUse(calls: seq<Call>, first: Key, rest: seq<Key>)
    requires ByLastUse(calls, [first] + rest)
    ensures ByLastUse(calls, rest) && forall x | x in rest :: LastUse(calls, first) < LastUse(calls, x)
  {
    hide ByLastUse, LastUse;
    var order := [first] + rest;
    forall i, j | 0 <= i < j < |rest| ensures LastUse(calls, rest[i]) < LastUse(calls, rest[j]) {
      InOrder(calls, order, i + 1, j + 1);
    }
    IsByLastUse(calls, rest);
    forall j | 0 <= j < |rest| ensures LastUse(calls, first) < LastUse(calls, rest[j]) {
      InOrder(calls, order, 0, j + 1);
    }
  }

  lemma InOrder(calls: seq<Call>, order: seq<Key>, i: nat, j: nat)
    requires ByLastUse(calls, order) && i < j < |order|
    ensures LastUse(calls, order[i]) < LastUse(calls, order[j])
  {
  }

  lemma IsByLastUse(calls: seq<Call>, order: seq<Key>)
    requires forall i, j | 0 <= i < j < |order| :: LastUse(calls, order[i]) < LastUse(calls, order[j])
    ensures ByLastUse(calls, order)
  {
  }

  lemma JoinByLastUse(calls: seq<Call>, first: Key, rest: seq<Key>)
    requires ByLastUse(calls, rest) && forall x | x in rest :: LastUse(calls, first) < LastUse(calls, x)
    ensures ByLastUse(calls, [first] + rest)
  {
    hide ByLastUse, LastUse;
    var order := [first] + rest;
    forall i, j | 0 <= i < j < |order| ensures LastUse(calls, order[i]) < LastUse(calls, order[j]) {
      assert order[j] == rest[j - 1] && rest[j - 1] in rest;
      if i > 0 {
        InOrder(calls, rest, i - 1, j - 1);
      }
    }
    IsByLastUse(calls, order);
  }

  lemma NextByLastUse(calls: seq<Call>, call: Call, order: seq<Key>)
    requires ByLastUse(calls, order) && forall x | x in order :: !Uses(call, x)
    ensures ByLastUse(calls + [call], order)
    ensures (call.Access? || call.Insert?) ==> ByLastUse(calls + [call], order + [call.k])
  {
    var calls' := calls + [call];
    assert calls'[..|calls|] == calls;
    forall i | 0 <= i < |order| ensures LastUse(calls', order[i]) == LastUse(calls, order[i]) <= |calls| {
      LastUseBound(calls, order[i]);
    }
  }

  /** LRU: the keys stand in order of last use, so the victim's last use is the oldest. */
  lemma {:induction false} LruOrder(calls: seq<Call>)
    ensures PolicyAfter(LRU([]), calls).LRU? && ByLastUse(calls, PolicyAfter(LRU([]), calls).order)
  {
    hide ByLastUse;
    if calls != [] {
      var front, call := calls[..|calls| - 1], calls[|calls| - 1];
      assert front + [call] == calls;
      LruOrder(front);
      var order := PolicyAfter(LRU([]), front).order;
      match call {
        case Access(k) =>
          WithoutByLastUse(front, order, k);
          NextByLastUse(front, call, if k in order then Without(order, k) else order);
        case Insert(k) =>
          WithoutByLastUse(front, order, k);
          NextByLastUse(front, call, Without(order, k));
        case Remove(k) =>
          WithoutByLastUse(front, order, k);
          NextByLastUse(front, call, Without(order, k));
        case Evict =>
          TailByLastUse(front, order);
          NextByLastUse(front, call, if order == [] then order else order[1..]);
      }
    } else {
      NoneByLastUse(calls);
    }
  }

  lemma NoneByLastUse(calls: seq<Call>)
    ensures ByLastUse(calls, [])
  {
  }

  lemma TailByLastUse(calls: seq<Call>, order: seq<Key>)
    requires ByLastUse(calls, order)
    ensures order != [] ==> ByLastUse(calls, order[1..])
  {
  }

  lemma LruVictimIsOldest(calls: seq<Call>, k: Key)
    requires Knows(PolicyAfter(LRU([]), calls), k)
    ensures var v := Victim(PolicyAfter(LRU([]), calls)); v.Some? && (k != v.value ==> LastUse(calls, v.value) < LastUse(calls, k))
  {
    LruOrder(calls);
  }

  /** LFU: a key's count is its uses since it last entered. */
  lemma {:induction false} LfuCounts(calls: seq<Call>, k: Key)
    requires Disciplined(LFU([]), calls)
    ensures var p := PolicyAfter(LFU([]), calls);
            && p.LFU? && PolicyInv(p)
            && UseCount(LFU([]), calls, k) == if Has(p.counts, k) then Lookup(p.counts, k) else 0
  {
    hide Put, Dropped, Lookup;
    if calls != [] {
      var front, call := calls[..|calls| - 1], calls[|calls| - 1];
      LfuCounts(front, k);
      LfuCall(PolicyAfter(LFU([]), front), call, k);
    }
  }

  function CountIn(counts: Dict<Key, nat>, k: Key): nat {
    if Has(counts, k) then Lookup(counts, k) else 0
  }

  lemma LfuCall(p: Policy, call: Call, k: Key)
    requires p.LFU? && PolicyInv(p) && (call.Access? ==> Knows(p, call.k)) && (call.Insert? ==> !Knows(p, call.k))
    ensures PolicyInv(Called(p, call)) && Called(p, call).LFU?
    ensures CountIn(Called(p, call).counts, k) ==
            if call == Remove(k) || (call == Evict && Victim(p) == Some(k)) then 0
            else CountIn(p.counts, k) + if Uses(call, k) then 1 else 0
  {
    match call {
      case Access(x) => CountAfterPut(p.counts, x, CountIn(p.counts, x) + 1, k);
      case Insert(x) => CountAfterPut(p.counts, x, 1, k);
      case Remove(x) => CountAfterDrop(p.counts, x, k);
      case Evict =>
        if p.counts != [] {
          CountAfterDrop(p.counts, p.counts[Least(p.counts)].0, k);
        }
    }
  }

  /** A known key's count is in its entry, and in no other entry of the key. */
  lemma CountAt(d: Dict<Key, nat>, k: Key)
    requires Proper(d)
    ensures Has(d, k) ==> (k, CountIn(d, k)) in d
    ensures forall n | (k, n) in d :: Has(d, k) && n == CountIn(d, k)
  {
  }

  lemma CountAfterPut(d: Dict<Key, nat>, x: Key, n: nat, k: Key)
    requires Proper(d)
    ensures Proper(Put(d, x, n)) && CountIn(Put(d, x, n), k) == if k == x then n else CountIn(d, k)
  {
    hide Put, Position;
    PutIs(d, x, n);
    CountAt(d, k);
    CountAt(Put(d, x, n), k);
  }

  lemma CountAfterDrop(d: Dict<Key, nat>, x: Key, k: Key)
    requires Proper(d)
    ensures Proper(Dropped(d, x)) && CountIn(Dropped(d, x), k) == if k == x then 0 else CountIn(d, k)
  {
    hide Dropped, Position;
    DroppedIs(d, x);
    CountAt(d, k);
    CountAt(Dropped(d, x), k);
  }

  lemma LfuVictimIsLeastUsed(calls: seq<Call>, k: Key)
    requires Disciplined(LFU([]), calls) && Knows(PolicyAfter(LFU([]), calls), k)
    ensures var v := Victim(PolicyAfter(LFU([]), calls));
            v.Some? && UseCount(LFU([]), calls, v.value) <= UseCount(LFU([]), calls, k)
  {
    hide PolicyAfter, UseCount;
    var counts := PolicyAfter(LFU([]), calls).counts;
    LfuCounts(calls, k);
    var v := counts[Least(counts)].0;
    LfuCounts(calls, v);
    assert counts[Position(counts, v)].0 == v;
  }
}
