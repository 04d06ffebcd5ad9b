/** Whose copy is modified: the last writer's, until somebody else asks for the key. */
module CacheOwners {
  import opened Options
  import opened Quorums
  import opened CachePolicy
  import opened CacheStates
  import opened CacheTheorems

  /** Who has put the key last, with no node having asked its peers for it since. */
  function OwnerAfter(c: Caches, ops: seq<Op>, k: Key, owner: Option<NodeId>): Option<NodeId>
    requires Enabled(c, ops)
    decreases |ops|
  {
    if ops == [] then owner else OwnerAfter(Done(c, ops[0]), ops[1..], k, OwnerNext(c, ops[0], k, owner))
  }

  function OwnerNext(c: Caches, op: Op, k: Key, owner: Option<NodeId>): Option<NodeId>
    requires OpEnabled(c, op)
  {
    if op.key != k then owner
    else
      match op
      case Put(n, _, _) => Some(n)
      case Delete(_, _) => None
      case Get(n, _, _) => if HasCopy(c[n], k) then owner else None
  }

  ghost predicate Owned(c: Caches, k: Key, owner: Option<NodeId>) {
    forall n | n in c && k in c[n].lines :: c[n].lines[k].state == Modified <==> owner == Some(n)
  }

  /** A put leaves the writer with the only line of the key, modified, one version above the line it had. */
  lemma PutOutcome(c: Caches, last: map<Key, Value>, n: NodeId, k: Key, v: Value)
    requires CachesInv(c, last) && n in c
    ensures Column(PutOn(c, n, k, v), k) == map[n := Line(v, Modified, if k in c[n].lines then c[n].lines[k].version + 1 else 1)]
  {
    hide CachesInv, WithRoom, Inserted, Accessed, Removed;
  }

  /** A fetch is answered exactly from a valid copy, with its value and version, as shared unless the copy was exclusive; the copy is shared then. */
  lemma AnswerOutcome(s: CacheState, k: Key)
    ensures var (s', found) := Answered(s, k);
            && (found.Some? <==> k in s.lines && s.lines[k].state != Invalid)
            && s'.policy == s.policy && s'.lines.Keys == s.lines.Keys && Part(s'.lines - {k}, s.lines)
            && (found.Some? ==>
                  && found.value == Response(s.lines[k].value, s.lines[k].version, s.lines[k].state != Exclusive)
                  && s'.lines[k] == s.lines[k].(state := Shared))
  {
  }

  /** What a read that missed leaves: every copy shared. */
  lemma MissOutcome(c: Caches, last: map<Key, Value>, n: NodeId, k: Key, from: Option<NodeId>)
    requires CachesInv(c, last) && n in c && Responds(c, n, k, from) && !HasCopy(c[n], k)
    ensures var c' := GetOn(c, n, k, from).0;
            forall m | m in c' && k in c'[m].lines :: c'[m].lines[k].state == Shared
  {
    hide NodeInv, LinesInv, Filled;
    LineIsCopy(c, last, n, k);
    FetchedColumn(c, last, n, k);
    var shared := Fetched(c, n, k);
    forall m | m in shared && k in shared[m].lines ensures shared[m].lines[k].state == Shared {
      NoLine(shared, m, k);
      ColumnAt(shared, m, k);
    }
    if from.Some? {
      LineIsCopy(c, last, from.value, k);
      FilledIs(c[n], k, Answered(c[from.value], k).1.value);
    }
  }

  lemma OwnerKept(c: Caches, last: map<Key, Value>, op: Op, k: Key, owner: Option<NodeId>)
    requires CachesInv(c, last) && OpEnabled(c, op) && Owned(c, k, owner)
    ensures Owned(Done(c, op), k, OwnerNext(c, op, k, owner))
  {
    hide NodeInv, LinesInv, Filled, WithRoom;
    match op {
      case Put(n, j, v) =>
        if j == k {
          PutOutcome(c, last, n, k, v);
          OnlyWriter(PutOn(c, n, k, v), n, k);
        } else {
          PutElsewhere(c, last, n, j, v);
          OwnedPart(c, PutOn(c, n, j, v), j, k, owner);
        }
      case Delete(n, j) =>
      case Get(n, j, from) =>
        if j == k {
          if !HasCopy(c[n], k) { MissOutcome(c, last, n, k, from); }
        } else {
          GetElsewhere(c, last, n, j, from);
          OwnedPart(c, GetOn(c, n, j, from).0, j, k, owner);
        }
    }
  }

  lemma OnlyWriter(c: Caches, n: NodeId, k: Key)
    requires Column(c, k).Keys == {n} && Column(c, k)[n].state == Modified
    ensures Owned(c, k, Some(n))
  {
    forall m | m in c && k in c[m].lines ensures m == n && c[m].lines[k].state == Modified {
      assert m in Column(c, k);
    }
  }

  /** Lines of other keys may go but do not change, so their owner stays. */
  lemma OwnedPart(c: Caches, c': Caches, j: Key, k: Key, owner: Option<NodeId>)
    requires Owned(c, k, owner) && OnlyTouches(c, c', j) && j != k
    ensures Owned(c', k, owner)
  {
    forall n | n in c' && k in c'[n].lines ensures c'[n].lines[k].state == Modified <==> owner == Some(n) {
      assert k in c'[n].lines - {j};
    }
  }

  lemma PutElsewhere(c: Caches, last: map<Key, Value>, n: NodeId, j: Key, v: Value)
    requires CachesInv(c, last) && n in c
    ensures OnlyTouches(c, PutOn(c, n, j, v), j)
  {
    hide NodeInv, LinesInv, Written;
    WrittenIs(c[n], j, v);
  }

  lemma GetElsewhere(c: Caches, last: map<Key, Value>, n: NodeId, j: Key, from: Option<NodeId>)
    requires CachesInv(c, last) && n in c && Responds(c, n, j, from)
    ensures OnlyTouches(c, GetOn(c, n, j, from).0, j)
  {
    hide NodeInv, LinesInv, Filled;
    LineIsCopy(c, last, n, j);
    if !HasCopy(c[n], j) && from.Some? {
      FilledIs(c[n], j, Answered(c[from.value], j).1.value);
    }
  }

  /** After any run a line is modified exactly if its node put the key last and no other node has asked for it since. */
  lemma {:induction false} ModifiedIsOwned(c: Caches, last: map<Key, Value>, ops: seq<Op>, k: Key, owner: Option<NodeId>)
    requires CachesInv(c, last) && Owned(c, k, owner) && Enabled(c, ops)
    ensures Owned(After(c, ops), k, OwnerAfter(c, ops, k, owner))
    decreases |ops|
  {
    hide CachesInv, Owned, OwnerNext, Done, OpEnabled, LastPut;
    if ops != [] {
      OpKeeps(c, last, ops[0]);
      OwnerKept(c, last, ops[0], k, owner);
      ModifiedIsOwned(Done(c, ops[0]), LastPut(last, ops[0]), ops[1..], k, OwnerNext(c, ops[0], k, owner));
    }
  }
}
