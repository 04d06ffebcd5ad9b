/**
 * Whole operations are runs of the cluster, message by message, in which nothing else
 * happens meanwhile; and what may happen when something does.
 */
module CacheOperations {
  import opened Options
  import opened Quorums
  import opened CachePolicy
  import opened CacheStates
  import opened CacheTheorems
  import opened CacheMessages

  // ---------- runs in a row ----------

  ghost predicate Leads(s: Net, steps: seq<Step>, s': Net) {
    Runs(s, steps) && Reached(s, steps) == s'
  }

  lemma NoStep(s: Net)
    ensures Leads(s, [], s)
  {
  }

  lemma OneStep(s: Net, step: Step)
    requires CanStep(s, step)
    ensures Leads(s, [step], Stepped(s, step))
  {
    var s1 := Stepped(s, step);
    hide Stepped;
    assert [step][1..] == [];
    assert Runs(s1, []) && Reached(s1, []) == s1;
  }

  lemma {:induction false} Joined(s: Net, a: seq<Step>, s1: Net, b: seq<Step>, s2: Net)
    requires Leads(s, a, s1) && Leads(s1, b, s2)
    ensures Leads(s, a + b, s2)
    decreases |a|
  {
    hide Stepped, CanStep;
    if a == [] {
      assert a + b == b;
    } else {
      assert (a + b)[1..] == a[1..] + b;
      Joined(Stepped(s, a[0]), a[1..], s1, b, s2);
    }
  }

  /** A run goes on by one step. */
  lemma Then(s: Net, steps: seq<Step>, s1: Net, step: Step) returns (steps': seq<Step>)
    requires Leads(s, steps, s1) && CanStep(s1, step)
    ensures steps' == steps + [step] && Leads(s, steps', Stepped(s1, step))
  {
    hide Stepped, CanStep, Leads;
    OneStep(s1, step);
    Joined(s, steps, s1, [step], Stepped(s1, step));
    steps' := steps + [step];
  }

  // ---------- nothing under way ----------

  ghost predicate Quiet(s: Net) {
    && s.queues.Keys == s.members.Keys
    && (forall n | n in s.queues :: s.queues[n] == [])
    && (forall n | n in s.members :: s.members[n].pending == map[] && s.members[n].results == map[])
  }

  function WithCache(s: Net, n: NodeId, cache: CacheState): map<NodeId, Member>
    requires n in s.members
  {
    s.members[n := s.members[n].(cache := cache)]
  }

  // ---------- writes and deletes ----------

  /** The queues while these nodes have an invalidation to handle and nobody has anything else. */
  function Invalidating(all: set<NodeId>, n: NodeId, k: Key, todo: set<NodeId>): map<NodeId, seq<Packet>> {
    map m | m in all :: if m in todo then [Invalidate(n, m, k)] else []
  }

  lemma InvalidateOne(s: Net, n: NodeId, k: Key, todo: set<NodeId>, m: NodeId)
    requires m in todo && todo <= s.members.Keys && s.queues == Invalidating(s.members.Keys, n, k, todo)
    ensures CanStep(s, Handle(m))
    ensures Stepped(s, Handle(m)) ==
            Net(WithCache(s, m, Invalidated(s.members[m].cache, k)), Invalidating(s.members.Keys, n, k, todo - {m}), s.last)
  {
    hide Invalidated;
    var s1 := Stepped(s, Handle(m));
    QueuesAre(s, Handle(m), Invalidating(s.members.Keys, n, k, todo - {m}));
    assert s1.members == WithCache(s, m, Invalidated(s.members[m].cache, k));
  }

  lemma {:induction false} InvalidateAll(s: Net, n: NodeId, k: Key, todo: set<NodeId>) returns (steps: seq<Step>, s': Net)
    requires todo <= s.members.Keys && s.queues == Invalidating(s.members.Keys, n, k, todo)
    ensures Leads(s, steps, s') && s'.queues == Invalidating(s.members.Keys, n, k, {}) && s'.last == s.last
    ensures s'.members.Keys == s.members.Keys
    ensures forall m | m in s.members ::
              s'.members[m] == if m in todo then s.members[m].(cache := Invalidated(s.members[m].cache, k)) else s.members[m]
    decreases |todo|
  {
    hide Invalidated, Leads, Stepped, CanStep;
    if todo == {} {
      steps, s' := [], s;
      NoStep(s);
    } else {
      var m :| m in todo;
      InvalidateOne(s, n, k, todo, m);
      var s1 := Stepped(s, Handle(m));
      OneStep(s, Handle(m));
      var rest;
      rest, s' := InvalidateAll(s1, n, k, todo - {m});
      Joined(s, [Handle(m)], s1, rest, s');
      steps := [Handle(m)] + rest;
    }
  }

  lemma WriteOne(s: Net, step: Step)
    requires Quiet(s) && CanStep(s, step) && (step.Write? || step.Erase?)
    ensures var s1 := Stepped(s, step);
            && s1.members == s.members[step.node := MemberAfter(s, step)]
            && s1.members.Keys == s.members.Keys
            && s1.queues == Invalidating(s.members.Keys, step.node, step.key, s.members.Keys - {step.node})
            && MemberAfter(s, step) == s.members[step.node].(cache := MemberAfter(s, step).cache)
  {
    hide Written, Erased;
    var s1 := Stepped(s, step);
    forall x | x in s.queues ensures s1.queues[x] == Toward(s, step, x) {
      assert Waiting(s, step, x) == [];
    }
  }

  /** A put or delete whose invalidations are all handled before anything else happens. */
  lemma WholeWrite(s: Net, step: Step) returns (steps: seq<Step>, s': Net)
    requires Quiet(s) && CanStep(s, step) && (step.Write? || step.Erase?)
    ensures Leads(s, steps, s') && Quiet(s') && s'.last == LastFor(s.last, step)
    ensures s'.members.Keys == s.members.Keys
    ensures forall m | m in s.members ::
              s'.members[m].cache == if m == step.node then MemberAfter(s, step).cache else Invalidated(s.members[m].cache, step.key)
  {
    hide Invalidated, MemberAfter, Leads, LastFor;
    var n := step.node;
    WriteOne(s, step);
    var s1 := Stepped(s, step);
    OneStep(s, step);
    var rest;
    rest, s' := InvalidateAll(s1, n, step.key, s.members.Keys - {n});
    Joined(s, [step], s1, rest, s');
    steps := [step] + rest;
  }

  // ---------- reads ----------

  predicate Replies(q: seq<Packet>, k: Key) {
    forall p | p in q :: p.Reply? && p.key == k
  }

  /** The queues while these nodes have a fetch of n to handle, and n has some answers. */
  function Fetching(all: set<NodeId>, n: NodeId, k: Key, todo: set<NodeId>, answers: seq<Packet>): map<NodeId, seq<Packet>> {
    map m | m in all :: if m == n then answers else if m in todo then [Fetch(n, m, k)] else []
  }

  function AnswerOf(s: CacheState, m: NodeId, n: NodeId, k: Key): seq<Packet> {
    if HasCopy(s, k) then [Reply(m, n, k, Answered(s, k).1.value)] else []
  }

  lemma FetchOne(s: Net, n: NodeId, k: Key, todo: set<NodeId>, answers: seq<Packet>, m: NodeId)
    requires n in s.members && m in todo && todo <= s.members.Keys - {n}
    requires s.queues == Fetching(s.members.Keys, n, k, todo, answers)
    ensures CanStep(s, Handle(m))
    ensures Stepped(s, Handle(m)) ==
            Net(WithCache(s, m, Answered(s.members[m].cache, k).0),
                Fetching(s.members.Keys, n, k, todo - {m}, answers + AnswerOf(s.members[m].cache, m, n, k)), s.last)
  {
    var s1, answer := Stepped(s, Handle(m)), AnswerOf(s.members[m].cache, m, n, k);
    var queues := Fetching(s.members.Keys, n, k, todo - {m}, answers + answer);
    forall x | x in s.queues ensures s1.queues[x] == queues[x] {
      assert Toward(s, Handle(m), x) == if x == n then answer else [];
      if x != n {
        assert s1.queues[x] == Waiting(s, Handle(m), x);
      }
    }
    assert s1.queues == queues;
    assert s1.members == WithCache(s, m, Answered(s.members[m].cache, k).0);
  }

  lemma {:induction false} FetchAll(s: Net, n: NodeId, k: Key, todo: set<NodeId>, answers: seq<Packet>)
    returns (steps: seq<Step>, s': Net, more: seq<Packet>)
    requires n in s.members && todo <= s.members.Keys - {n}
    requires s.queues == Fetching(s.members.Keys, n, k, todo, answers)
    ensures Leads(s, steps, s') && s'.queues == Fetching(s.members.Keys, n, k, {}, answers + more) && s'.last == s.last
    ensures s'.members.Keys == s.members.Keys
    ensures forall m | m in s.members ::
              s'.members[m] == if m in todo then s.members[m].(cache := Answered(s.members[m].cache, k).0) else s.members[m]
    ensures Replies(more, k) && ((forall m | m in todo :: !HasCopy(s.members[m].cache, k)) ==> more == [])
    decreases |todo|
  {
    hide Answered, HasCopy, Leads, Stepped, CanStep, Fetching;
    if todo == {} {
      steps, s', more := [], s, [];
      assert answers + more == answers;
      NoStep(s);
    } else {
      var m :| m in todo;
      FetchOne(s, n, k, todo, answers, m);
      var s1 := Stepped(s, Handle(m));
      OneStep(s, Handle(m));
      var rest, last;
      var first := AnswerOf(s.members[m].cache, m, n, k);
      assert s1.members.Keys == s.members.Keys;
      rest, s', last := FetchAll(s1, n, k, todo - {m}, answers + first);
      Joined(s, [Handle(m)], s1, rest, s');
      steps, more := [Handle(m)] + rest, first + last;
      assert answers + first + last == answers + more;
    }
  }

  lemma IgnoreOne(s: Net, n: NodeId, k: Key, q: seq<Packet>)
    requires n in s.members && s.queues == Fetching(s.members.Keys, n, k, {}, q) && k !in s.members[n].pending
    requires q != [] && q[0].Reply? && q[0].key == k
    ensures Stepped(s, Handle(n)) == s.(queues := Fetching(s.members.Keys, n, k, {}, q[1..]))
  {
    ReplyOne(s, n, k, q);
    assert s.members[n := s.members[n]] == s.members;
  }

  lemma ReplyOne(s: Net, n: NodeId, k: Key, q: seq<Packet>)
    requires n in s.members && s.queues == Fetching(s.members.Keys, n, k, {}, q)
    requires q != [] && q[0].Reply? && q[0].key == k
    ensures CanStep(s, Handle(n))
    ensures Stepped(s, Handle(n)) ==
            Net(s.members[n := Replied(s.members[n], k, q[0].response)], Fetching(s.members.Keys, n, k, {}, q[1..]), s.last)
  {
    hide Replied, Toward;
    ReplyIsSilent(s, n);
    QueuesAre(s, Handle(n), Fetching(s.members.Keys, n, k, {}, q[1..]));
  }

  lemma ReplyIsSilent(s: Net, n: NodeId)
    requires CanStep(s, Handle(n)) && s.queues[n][0].Reply?
    ensures forall x :: Toward(s, Handle(n), x) == []
  {
  }

  lemma QueuesAre(s: Net, step: Step, queues: map<NodeId, seq<Packet>>)
    requires CanStep(s, step) && queues.Keys == s.queues.Keys
    requires forall x | x in s.queues :: Toward(s, step, x) == [] && queues[x] == Waiting(s, step, x)
    ensures Stepped(s, step).queues == queues
  {
    hide MemberAfter, Toward, Waiting;
    forall x | x in s.queues ensures Stepped(s, step).queues[x] == queues[x] {
      assert Waiting(s, step, x) + [] == Waiting(s, step, x);
    }
  }

  /** Answers that nobody waits for any more change nothing. */
  lemma {:induction false} IgnoreAll(s: Net, n: NodeId, k: Key, q: seq<Packet>) returns (steps: seq<Step>, s': Net)
    requires n in s.members && s.queues == Fetching(s.members.Keys, n, k, {}, q) && Replies(q, k) && k !in s.members[n].pending
    ensures Leads(s, steps, s') && s' == s.(queues := Fetching(s.members.Keys, n, k, {}, []))
    decreases |q|
  {
    hide Leads;
    if q == [] {
      steps, s' := [], s;
      NoStep(s);
    } else {
      assert q[0] in q;
      var s1 := Stepped(s, Handle(n));
      IgnoreOne(s, n, k, q);
      OneStep(s, Handle(n));
      var rest;
      rest, s' := IgnoreAll(s1, n, k, q[1..]);
      Joined(s, [Handle(n)], s1, rest, s');
      steps := [Handle(n)] + rest;
    }
  }

  /** A miss leaves the node waiting and a fetch with everybody else. */
  lemma MissOne(s: Net, n: NodeId, k: Key)
    requires Quiet(s) && n in s.members && !HasCopy(s.members[n].cache, k)
    ensures CanStep(s, Begin(n, k))
    ensures Stepped(s, Begin(n, k)) ==
            Net(s.members[n := Began(s.members[n], k).0],
                Fetching(s.members.Keys, n, k, s.members.Keys - {n}, []), s.last)
  {
    var s1 := Stepped(s, Begin(n, k));
    forall x | x in s.queues ensures s1.queues[x] == Toward(s, Begin(n, k), x) {
      assert Waiting(s, Begin(n, k), x) == [];
    }
  }

  /** Where a miss has led when every fetch has been handled. */
  ghost predicate Asked(s: Net, s': Net, n: NodeId, k: Key, answers: seq<Packet>)
    requires n in s.members
  {
    && s'.queues == Fetching(s'.members.Keys, n, k, {}, answers) && s'.last == s.last
    && s'.members.Keys == s.members.Keys && s'.members[n] == Began(s.members[n], k).0
    && forall m | m in s.members && m != n :: s'.members[m] == s.members[m].(cache := Answered(s.members[m].cache, k).0)
  }

  predicate LeadBy(answers: seq<Packet>, s: Net, n: NodeId, k: Key, from: Option<NodeId>)
    requires n in s.members && Responds(CachesOf(s), n, k, from)
  {
    match from
    case None => answers == []
    case Some(p) => answers != [] && answers[0] == Reply(p, n, k, Answered(s.members[p].cache, k).1.value)
  }

  /** The fetches are handled, the one of the node that answers first before the others. */
  lemma AskAll(s: Net, n: NodeId, k: Key, from: Option<NodeId>) returns (steps: seq<Step>, s': Net, answers: seq<Packet>)
    requires Quiet(s) && n in s.members && !HasCopy(s.members[n].cache, k) && Responds(CachesOf(s), n, k, from)
    ensures Leads(s, steps, s') && Asked(s, s', n, k, answers)
    ensures Replies(answers, k) && LeadBy(answers, s, n, k, from)
  {
    hide Leads, Answered, Stepped, Fetching, Began, CanStep;
    var others := s.members.Keys - {n};
    MissOne(s, n, k);
    var s1 := Stepped(s, Begin(n, k));
    OneStep(s, Begin(n, k));
    assert s1.members.Keys == s.members.Keys;
    if from.None? {
      NobodyHas(s, n, k);
      var rest;
      rest, s', answers := FetchAll(s1, n, k, others, []);
      Joined(s, [Begin(n, k)], s1, rest, s');
      steps := [Begin(n, k)] + rest;
      assert [] + answers == answers;
    } else {
      var p := from.value;
      var first := AnswerOf(s.members[p].cache, p, n, k);
      FetchOne(s1, n, k, others, [], p);
      var s2 := Stepped(s1, Handle(p));
      steps := Then(s, [Begin(n, k)], s1, Handle(p));
      assert s2.members.Keys == s.members.Keys;
      assert [] + first == first;
      var rest, more;
      rest, s', more := FetchAll(s2, n, k, others - {p}, first);
      Joined(s, steps, s2, rest, s');
      steps, answers := steps + rest, first + more;
    }
  }

  lemma NobodyHas(s: Net, n: NodeId, k: Key)
    requires Responds(CachesOf(s), n, k, None)
    ensures forall m | m in s.members && m != n :: !HasCopy(s.members[m].cache, k)
  {
    forall m | m in s.members && m != n ensures !HasCopy(s.members[m].cache, k) {
      assert m in CachesOf(s);
    }
  }

  /** What a miss has done when it is over, with this cache where it was made. */
  ghost predicate MissDone(s: Net, s': Net, n: NodeId, k: Key, cache: CacheState)
    requires n in s.members
  {
    && Quiet(s') && s'.last == s.last && s'.members.Keys == s.members.Keys && s'.members[n].cache == cache
    && forall m | m in s.members && m != n :: s'.members[m].cache == Answered(s.members[m].cache, k).0
  }

  /** The last step of a read that missed. */
  lemma EndRead(s: Net, s1: Net, n: NodeId, k: Key, f: Future) returns (s': Net)
    requires n in s.members && s1.queues == Fetching(s1.members.Keys, n, k, {}, []) && s1.last == s.last
    requires s1.members.Keys == s.members.Keys && Quiet(s)
    requires forall m | m in s.members && m != n :: s1.members[m] == s.members[m].(cache := Answered(s.members[m].cache, k).0)
    requires Ended(s1.members[n], f).0.pending == map[] && Ended(s1.members[n], f).0.results == map[]
    ensures CanStep(s1, End(n, f)) && s' == Stepped(s1, End(n, f))
    ensures MissDone(s, s', n, k, Ended(s1.members[n], f).0.cache)
  {
    hide Ended, Answered;
    s' := Stepped(s1, End(n, f));
    QueuesAre(s1, End(n, f), Fetching(s1.members.Keys, n, k, {}, []));
  }

  lemma GiveUp(s: Net, s1: Net, n: NodeId, k: Key) returns (steps: seq<Step>, s': Net)
    requires Quiet(s) && n in s.members && !HasCopy(s.members[n].cache, k) && Asked(s, s1, n, k, [])
    ensures Leads(s1, steps, s') && MissDone(s, s', n, k, s.members[n].cache)
  {
    hide Leads, HasCopy, Answered, Fetching, MissDone;
    var f := Future(k, s.members[n].next);
    s' := EndRead(s, s1, n, k, f);
    OneStep(s1, End(n, f));
    steps := [End(n, f)];
  }

  lemma TakeAnswer(s: Net, s1: Net, n: NodeId, k: Key, p: NodeId, answers: seq<Packet>, r: Response)
    returns (steps: seq<Step>, s': Net)
    requires Quiet(s) && n in s.members && !HasCopy(s.members[n].cache, k) && Asked(s, s1, n, k, answers)
    requires Replies(answers, k) && answers != [] && answers[0] == Reply(p, n, k, r)
    ensures Leads(s1, steps, s') && MissDone(s, s', n, k, Filled(s.members[n].cache, k, r))
  {
    hide Leads, HasCopy, Answered, Fetching, MissDone, Filled;
    var f := Future(k, s.members[n].next);
    ReplyOne(s1, n, k, answers);
    var s2 := Stepped(s1, Handle(n));
    OneStep(s1, Handle(n));
    assert s2.members.Keys == s.members.Keys;
    var rest, s3;
    rest, s3 := IgnoreAll(s2, n, k, answers[1..]);
    Joined(s1, [Handle(n)], s2, rest, s3);
    s' := EndRead(s, s3, n, k, f);
    steps := Then(s1, [Handle(n)] + rest, s3, End(n, f));
  }

  lemma HasAnswer(s: Net, p: NodeId, k: Key)
    requires p in s.members && HasCopy(s.members[p].cache, k)
    ensures Answered(s.members[p].cache, k).1.Some?
  {
  }

  lemma WholeHit(s: Net, n: NodeId, k: Key) returns (steps: seq<Step>, s': Net)
    requires Quiet(s) && n in s.members && HasCopy(s.members[n].cache, k)
    ensures Leads(s, steps, s') && Quiet(s') && s'.last == s.last
    ensures CachesOf(s') == CachesOf(s)[n := Hit(s.members[n].cache, k).0]
  {
    hide Leads, Accessed;
    s' := Stepped(s, Begin(n, k));
    OneStep(s, Begin(n, k));
    steps := [Begin(n, k)];
    QueuesAre(s, Begin(n, k), s.queues);
  }

  /** A read whose messages are all handled before anything else happens. */
  lemma WholeRead(s: Net, n: NodeId, k: Key, from: Option<NodeId>) returns (steps: seq<Step>, s': Net)
    requires Quiet(s) && n in s.members && Responds(CachesOf(s), n, k, from)
    ensures Leads(s, steps, s') && Quiet(s') && s'.last == s.last
    ensures CachesOf(s') == GetOn(CachesOf(s), n, k, from).0
  {
    hide Leads, Answered, Filled, Asked, Accessed, Replies;
    if HasCopy(s.members[n].cache, k) {
      steps, s' := WholeHit(s, n, k);
    } else {
      var s1, answers, rest;
      steps, s1, answers := AskAll(s, n, k, from);
      if from.None? {
        rest, s' := GiveUp(s, s1, n, k);
      } else {
        HasAnswer(s, from.value, k);
        var r := Answered(s.members[from.value].cache, k).1.value;
        rest, s' := TakeAnswer(s, s1, n, k, from.value, answers, r);
      }
      Joined(s, steps, s1, rest, s');
      steps := steps + rest;
    }
  }

  /** What an operation does as a whole is what it does message by message when it is left alone. */
  lemma OperationIsRun(s: Net, op: Op) returns (steps: seq<Step>, s': Net)
    requires Quiet(s) && OpEnabled(CachesOf(s), op)
    ensures Leads(s, steps, s') && Quiet(s') && s'.last == LastPut(s.last, op)
    ensures CachesOf(s') == Done(CachesOf(s), op)
  {
    hide Leads, GetOn, Written, Erased, Invalidated, Quiet, Responds;
    match op {
      case Get(n, k, from) => steps, s' := WholeRead(s, n, k, from);
      case Put(n, k, v) =>
        QuietCanStep(s, Write(n, k, v));
        steps, s' := WholeWrite(s, Write(n, k, v));
      case Delete(n, k) =>
        QuietCanStep(s, Erase(n, k));
        steps, s' := WholeWrite(s, Erase(n, k));
    }
  }

  lemma QuietCanStep(s: Net, step: Step)
    requires Quiet(s) && step.node in s.members && !step.Handle? && !step.Lose?
    ensures CanStep(s, step)
  {
  }

  /** So is a row of operations, and its results hold of the program between them. */
  lemma {:induction false} OperationsAreRun(s: Net, ops: seq<Op>) returns (steps: seq<Step>, s': Net)
    requires Quiet(s) && Enabled(CachesOf(s), ops)
    ensures Leads(s, steps, s') && Quiet(s') && s'.last == LastAfter(s.last, ops)
    ensures CachesOf(s') == After(CachesOf(s), ops)
    decreases |ops|
  {
    hide Leads, Quiet, CachesOf, Done, OpEnabled, LastPut;
    if ops == [] {
      steps, s' := [], s;
      NoStep(s);
    } else {
      var s1, rest;
      steps, s1 := OperationIsRun(s, ops[0]);
      rest, s' := OperationsAreRun(s1, ops[1..]);
      Joined(s, steps, s1, rest, s');
      steps := steps + rest;
    }
  }
}
