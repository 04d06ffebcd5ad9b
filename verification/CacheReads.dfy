/** What a node sends, and which of several reads of one key on one node the answer of a peer reaches. */
module CacheReads {
  import opened Options
  import opened Quorums
  import opened CachePolicy
  import opened CacheStates
  import opened CacheMessages

  /** One message to each peer, about this key. */
  lemma SentToEach(self: NodeId, peers: seq<NodeId>, k: Key, p: Packet)
    ensures p in Fetches(self, peers, k) <==> p.Fetch? && p.src == self && p.dst in peers && p.key == k
    ensures p in Invalidations(self, peers, k) <==> p.Invalidate? && p.src == self && p.dst in peers && p.key == k
    ensures |Fetches(self, peers, k)| == |Invalidations(self, peers, k)| == |peers|
  {
    if p.dst in peers {
      var i :| 0 <= i < |peers| && peers[i] == p.dst;
      assert Fetches(self, peers, k)[i] == Fetch(self, p.dst, k);
      assert Invalidations(self, peers, k)[i] == Invalidate(self, p.dst, k);
    }
  }

  /** A node whose peers are all the others sends exactly what the machine of messages puts into their queues. */
  lemma SentIsQueued(s: Net, n: NodeId, peers: seq<NodeId>, k: Key, v: Value, to: NodeId, p: Packet)
    requires n in s.members && n in s.queues && to in s.queues && forall q :: q in peers <==> q in s.queues && q != n
    ensures p in Toward(s, Write(n, k, v), to) <==> p in Invalidations(n, peers, k) && p.dst == to
    ensures p in Toward(s, Erase(n, k), to) <==> p in Invalidations(n, peers, k) && p.dst == to
    ensures p in Toward(s, Begin(n, k), to) <==> p in Fetches(n, peers, k) && p.dst == to && !HasCopy(s.members[n].cache, k)
  {
    hide HasCopy, Fetches, Invalidations;
    SentToEach(n, peers, k, p);
  }

  /** Every future that waits or has its answer was given out before, under its own key. */
  ghost predicate Given(m: Member) {
    && (forall k | k in m.pending :: m.pending[k].key == k && m.pending[k].number < m.next)
    && (forall f | f in m.results :: f.number < m.next)
  }

  lemma StepGives(s: Net, step: Step, n: NodeId)
    requires CanStep(s, step) && n in s.members && Given(s.members[n])
    ensures n in Stepped(s, step).members && Given(Stepped(s, step).members[n])
  {
    hide WithRoom, Inserted, Accessed, Removed;
  }

  lemma {:induction false} RunGives(s: Net, steps: seq<Step>, n: NodeId)
    requires Runs(s, steps) && n in s.members && Given(s.members[n])
    ensures n in Reached(s, steps).members && Given(Reached(s, steps).members[n])
    decreases |steps|
  {
    hide Given, Stepped, CanStep;
    if steps != [] {
      StepGives(s, steps[0], n);
      RunGives(Stepped(s, steps[0]), steps[1..], n);
    }
  }

  /**
   * In every reachable state: a read that misses and is answered next returns the answer and
   * caches it; an earlier read of the key that still waited gets nothing; later answers are dropped.
   */
  lemma LatestReadIsAnswered(s: Net, steps: seq<Step>, n: NodeId, k: Key, r: Response, later: Response)
    requires Runs(s, steps) && n in s.members && Given(s.members[n])
    requires n in Reached(s, steps).members && !HasCopy(Reached(s, steps).members[n].cache, k)
    ensures var m := Reached(s, steps).members[n];
            var m1 := Began(m, k).0; var m2 := Replied(m1, k, r); var (m3, found) := Ended(m2, Future(k, m.next));
            && Began(m, k).1 == None
            && found == Some(r.value) && k in m3.cache.lines && m3.cache.lines[k].value == r.value
            && m3.cache.lines[k].version == r.version && m3.cache.lines[k].state == (if r.shared then Shared else Exclusive)
            && Replied(m2, k, later) == m2
            && (k in m.pending && m.pending[k] !in m.results ==> Ended(m2, m.pending[k]).1 == None)
  {
    hide Runs, Reached, WithRoom, Inserted;
    RunGives(s, steps, n);
  }
}
