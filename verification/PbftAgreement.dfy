/** Agreement among correct PBFT replicas, whatever the faulty ones send under their own names. */
module PbftAgreement {
  import opened Quorums
  import opened PbftReplica

  /** Correct replicas and the network; faulty replicas have no state of their own. */
  datatype Cluster = Cluster(correct: map<NodeId, Replica>, network: set<Message>)

  datatype Action =
    | Submit(replica: NodeId, request: Request)
    | Deliver(message: Message)
    | Forge(message: Message)

  function Ids(config: Config): set<NodeId> {
    set p | p in config.all
  }

  /** A faulty replica sends anything to anyone, under its own id. */
  predicate Enabled(config: Config, c: Cluster, a: Action) {
    match a
    case Submit(v, _) => v in c.correct
    case Deliver(m) => m in c.network && m.dst in c.correct
    case Forge(m) => m.src in Ids(config) && m.src !in c.correct
  }

  function Install(c: Cluster, out: Outcome): Cluster {
    Cluster(c.correct[out.replica.id := out.replica], c.network + (set m | m in out.sent))
  }

  function Perform(config: Config, hash: Hash, c: Cluster, a: Action): Cluster
    requires config.all != [] && Enabled(config, c, a)
  {
    match a
    case Submit(v, request) => Install(c, Submitted(config, hash, c.correct[v], request))
    case Deliver(m) => Install(c, OnMessage(config, hash, c.correct[m.dst], m))
    case Forge(m) => c.(network := c.network + {m})
  }

  ghost predicate Initial(config: Config, c: Cluster) {
    && c.correct.Keys <= Ids(config)
    && (forall v | v in c.correct :: c.correct[v] == Replica(v, 0, map[], {}, []))
    && c.network == {}
  }

  ghost predicate Runs(config: Config, hash: Hash, c: Cluster, actions: seq<Action>)
    requires config.all != []
    decreases |actions|
  {
    actions == [] || (Enabled(config, c, actions[0]) && Runs(config, hash, Perform(config, hash, c, actions[0]), actions[1..]))
  }

  function After(config: Config, hash: Hash, c: Cluster, actions: seq<Action>): Cluster
    requires config.all != [] && Runs(config, hash, c, actions)
    decreases |actions|
  {
    if actions == [] then c else After(config, hash, Perform(config, hash, c, actions[0]), actions[1..])
  }

  /** A correct replica's entry for the number has this digest. */
  predicate Logged(c: Cluster, v: NodeId, s: nat, digest: Digest) {
    v in c.correct && s in c.correct[v].log && c.correct[v].log[s].digest == digest
  }

  /** A commit from a correct replica counts only where both have the same digest. */
  ghost predicate EntryInv(config: Config, hash: Hash, c: Cluster, v: NodeId, s: nat)
    requires v in c.correct && s in c.correct[v].log && config.all != []
  {
    var entry := c.correct[v].log[s];
    && entry.digest == hash(entry.request)
    && entry.commits <= Ids(config)
    && (forall u | u in entry.commits && u in c.correct :: Logged(c, u, s, entry.digest))
    && (entry.committed ==> |entry.commits| >= 2 * config.F() + 1)
  }

  ghost predicate ExecutedInv(r: Replica) {
    && (forall i | 0 <= i < |r.executed| ::
          var (s, request) := r.executed[i];
          s in r.applied && s in r.log && r.log[s].committed && r.log[s].request == request)
    && (forall i, j | 0 <= i < j < |r.executed| :: r.executed[i].0 != r.executed[j].0)
  }

  ghost predicate ReplicaInv(config: Config, hash: Hash, c: Cluster, v: NodeId)
    requires v in c.correct && config.all != []
  {
    var r := c.correct[v];
    && r.id == v
    && (forall s | s in r.log :: EntryInv(config, hash, c, v, s))
    && ExecutedInv(r)
    && (v == config.Primary() ==> forall s | s in r.log :: s <= r.seqNum)
  }

  ghost predicate MessageInv(config: Config, c: Cluster, m: Message) {
    && m.src in Ids(config)
    && (m.src in c.correct ==> m.dst != m.src)
    && (m.src in c.correct && m.Commit? ==> Logged(c, m.src, m.seqNum, m.digest))
  }

  ghost predicate Inv(config: Config, hash: Hash, c: Cluster)
    requires config.all != []
  {
    && c.correct.Keys <= Ids(config)
    && (forall v | v in c.correct :: ReplicaInv(config, hash, c, v))
    && (forall m | m in c.network :: MessageInv(config, c, m))
  }

  /** The digest of a correct replica's entry never changes, nor does its request. */
  ghost predicate LogKept(r: Replica, r': Replica) {
    forall s | s in r.log :: s in r'.log && r'.log[s].digest == r.log[s].digest && r'.log[s].request == r.log[s].request
  }

  /** No correct replica's log has forgotten or changed a digest or request. */
  ghost predicate LogsKept(c: Cluster, c': Cluster) {
    c'.correct.Keys == c.correct.Keys && forall v | v in c.correct :: LogKept(c.correct[v], c'.correct[v])
  }

  /** What one step of replica v owes: its log keeps its digests, and its entries, executions and messages are in order. */
  ghost predicate Sound(config: Config, hash: Hash, c: Cluster, v: NodeId, out: Outcome)
    requires v in c.correct && config.all != []
  {
    && out.replica.id == v
    && LogKept(c.correct[v], out.replica)
    && ReplicaInv(config, hash, Install(c, out), v)
    && (forall m | m in out.sent :: MessageInv(config, Install(c, out), m))
  }

  lemma SoundKeepsInv(config: Config, hash: Hash, c: Cluster, v: NodeId, out: Outcome)
    requires config.all != [] && v in c.correct && Inv(config, hash, c) && Sound(config, hash, c, v, out)
    ensures Inv(config, hash, Install(c, out)) && LogsKept(c, Install(c, out))
  {
    var c' := Install(c, out);
    forall w | w in c'.correct ensures ReplicaInv(config, hash, c', w) {
      if w != v {
        assert ReplicaInv(config, hash, c, w);
        forall s | s in c'.correct[w].log ensures EntryInv(config, hash, c', w, s) {
          assert EntryInv(config, hash, c, w, s);
        }
      }
    }
    forall m | m in c'.network ensures MessageInv(config, c', m) {
      if m in c.network { assert MessageInv(config, c, m); }
    }
  }

  function Touched(r: Replica, s: nat, entry: Entry): Replica {
    r.(log := r.log[s := entry])
  }

  /** Putting an entry in place: a new one without commits, or an old one that gained votes. */
  ghost predicate FitsIn(config: Config, hash: Hash, c: Cluster, r: Replica, s: nat, entry: Entry)
    requires config.all != []
  {
    && entry.digest == hash(entry.request)
    && entry.commits <= Ids(config)
    && (entry.committed ==> |entry.commits| >= 2 * config.F() + 1)
    && (forall u | u in entry.commits && u in c.correct && u != r.id :: Logged(c, u, s, entry.digest))
    && (s in r.log ==> entry.digest == r.log[s].digest && entry.request == r.log[s].request
                       && (r.log[s].committed ==> entry.committed))
    && (s !in r.log ==> r.id != config.Primary())
  }

  lemma TouchedSound(config: Config, hash: Hash, c: Cluster, v: NodeId, s: nat, entry: Entry, sent: seq<Message>)
    requires config.all != [] && v in c.correct && Inv(config, hash, c)
    requires FitsIn(config, hash, c, c.correct[v], s, entry)
    ensures LogKept(c.correct[v], Touched(c.correct[v], s, entry))
    ensures ReplicaInv(config, hash, Install(c, Outcome(Touched(c.correct[v], s, entry), sent)), v)
  {
    var r := c.correct[v];
    var c' := Install(c, Outcome(Touched(r, s, entry), sent));
    assert ReplicaInv(config, hash, c, v);
    forall k | k in c'.correct[v].log ensures EntryInv(config, hash, c', v, k) {
      if k in r.log { assert EntryInv(config, hash, c, v, k); }
    }
  }

  lemma SubmitSound(config: Config, hash: Hash, c: Cluster, v: NodeId, request: Request)
    requires config.all != [] && v in c.correct && Inv(config, hash, c)
    ensures Sound(config, hash, c, v, Submitted(config, hash, c.correct[v], request))
  {
    var out := Submitted(config, hash, c.correct[v], request);
    var c' := Install(c, out);
    assert ReplicaInv(config, hash, c, v);
    forall s | s in out.replica.log ensures EntryInv(config, hash, c', v, s) {
      if s in c.correct[v].log { assert EntryInv(config, hash, c, v, s); }
    }
  }

  /** A handler that does nothing. */
  lemma IdleSound(config: Config, hash: Hash, c: Cluster, v: NodeId)
    requires config.all != [] && v in c.correct && Inv(config, hash, c)
    ensures Sound(config, hash, c, v, Outcome(c.correct[v], []))
  {
    assert ReplicaInv(config, hash, c, v);
    assert Install(c, Outcome(c.correct[v], [])) == c;
  }

  lemma PrePrepareSound(config: Config, hash: Hash, c: Cluster, m: Message)
    requires config.all != [] && Inv(config, hash, c) && Enabled(config, c, Deliver(m)) && m.PrePrepare?
    ensures Sound(config, hash, c, m.dst, OnPrePrepare(config, hash, c.correct[m.dst], m))
  {
    hide Inv, FitsIn, ReplicaInv, LogKept;
    var r := c.correct[m.dst];
    if m.view != config.view || m.src != config.Primary() || m.digest != hash(m.request) {
      IdleSound(config, hash, c, m.dst);
    } else {
      var old_ := if m.seqNum in r.log then r.log[m.seqNum] else Entry(m.request, m.digest, false, {}, {}, false);
      var entry := old_.(prePrepared := true, prepares := old_.prepares + {r.id});
      PrePrepareFits(config, hash, c, m, entry);
      TouchedSound(config, hash, c, m.dst, m.seqNum, entry, Prepares(config, r.id, m.seqNum, m.digest));
    }
  }

  lemma PrePrepareFits(config: Config, hash: Hash, c: Cluster, m: Message, entry: Entry)
    requires config.all != [] && Inv(config, hash, c) && Enabled(config, c, Deliver(m)) && m.PrePrepare?
    requires m.src == config.Primary() && m.digest == hash(m.request)
    requires var r := c.correct[m.dst];
             var old_ := if m.seqNum in r.log then r.log[m.seqNum] else Entry(m.request, m.digest, false, {}, {}, false);
             entry == old_.(prePrepared := true, prepares := old_.prepares + {r.id})
    ensures FitsIn(config, hash, c, c.correct[m.dst], m.seqNum, entry) && c.correct[m.dst].id == m.dst
    ensures m.dst in Ids(config)
  {
    assert ReplicaInv(config, hash, c, m.dst) && MessageInv(config, c, m);
    if m.seqNum in c.correct[m.dst].log { assert EntryInv(config, hash, c, m.dst, m.seqNum); }
  }

  /** An entry of the log with more prepares and one more commit, for the same digest, fits in its place. */
  lemma MoreVotesFit(config: Config, hash: Hash, c: Cluster, v: NodeId, s: nat, u: NodeId, entry: Entry)
    requires config.all != [] && Inv(config, hash, c) && v in c.correct && s in c.correct[v].log
    requires var before := c.correct[v].log[s];
             && entry == before.(prepares := entry.prepares, commits := entry.commits, committed := entry.committed)
             && before.commits <= entry.commits <= before.commits + {u}
             && (before.committed ==> entry.committed)
             && (entry.committed && !before.committed ==> |entry.commits| >= 2 * config.F() + 1)
    requires u in Ids(config) && (u in c.correct && u != v ==> Logged(c, u, s, entry.digest))
    ensures FitsIn(config, hash, c, c.correct[v], s, entry) && c.correct[v].id == v
  {
    assert ReplicaInv(config, hash, c, v);
    assert EntryInv(config, hash, c, v, s);
    SubsetSize(c.correct[v].log[s].commits, entry.commits);
  }

  lemma PrepareSound(config: Config, hash: Hash, c: Cluster, m: Message)
    requires config.all != [] && Inv(config, hash, c) && Enabled(config, c, Deliver(m)) && m.Prepare?
    ensures Sound(config, hash, c, m.dst, OnPrepare(config, c.correct[m.dst], m))
  {
    hide Inv, FitsIn, ReplicaInv;
    var r := c.correct[m.dst];
    if !Matches(r, m) {
      IdleSound(config, hash, c, m.dst);
    } else {
      var out := OnPrepare(config, r, m);
      var entry := out.replica.log[m.seqNum];
      CorrectIsMember(config, hash, c, m.dst);
      MoreVotesFit(config, hash, c, m.dst, m.seqNum, m.dst, entry);
      TouchedSound(config, hash, c, m.dst, m.seqNum, entry, out.sent);
      assert out.replica == Touched(r, m.seqNum, entry);
    }
  }

  lemma CorrectIsMember(config: Config, hash: Hash, c: Cluster, v: NodeId)
    requires config.all != [] && Inv(config, hash, c) && v in c.correct
    ensures v in Ids(config) && c.correct[v].id == v
  {
  }

  lemma CommitSound(config: Config, hash: Hash, c: Cluster, m: Message)
    requires config.all != [] && Inv(config, hash, c) && Enabled(config, c, Deliver(m)) && m.Commit?
    ensures Sound(config, hash, c, m.dst, OnCommit(config, c.correct[m.dst], m))
  {
    hide Inv, FitsIn, ReplicaInv;
    var r := c.correct[m.dst];
    if !Matches(r, m) {
      IdleSound(config, hash, c, m.dst);
    } else {
      var out := OnCommit(config, r, m);
      var entry := out.replica.log[m.seqNum];
      SenderLogged(config, hash, c, m);
      MoreVotesFit(config, hash, c, m.dst, m.seqNum, m.src, entry);
      TouchedSound(config, hash, c, m.dst, m.seqNum, entry, []);
      AppliedSound(config, hash, c, m.dst, m.seqNum, entry, out.replica);
    }
  }

  lemma SenderLogged(config: Config, hash: Hash, c: Cluster, m: Message)
    requires config.all != [] && Inv(config, hash, c) && m in c.network && m.Commit?
    ensures m.src in Ids(config) && (m.src in c.correct ==> Logged(c, m.src, m.seqNum, m.digest))
  {
  }

  /** Executing a committed entry, or leaving it at its votes. */
  lemma AppliedSound(config: Config, hash: Hash, c: Cluster, v: NodeId, s: nat, entry: Entry, r': Replica)
    requires config.all != [] && v in c.correct
    requires ReplicaInv(config, hash, Install(c, Outcome(Touched(c.correct[v], s, entry), [])), v) && c.correct[v].id == v
    requires r' == Touched(c.correct[v], s, entry)
      || (entry.committed && r' == Applied(Touched(c.correct[v], s, entry), s))
    ensures ReplicaInv(config, hash, Install(c, Outcome(r', [])), v)
  {
    var c1, c' := Install(c, Outcome(Touched(c.correct[v], s, entry), [])), Install(c, Outcome(r', []));
    forall k | k in c'.correct[v].log ensures EntryInv(config, hash, c', v, k) {
      assert EntryInv(config, hash, c1, v, k);
    }
    assert ExecutedInv(r');
  }

  lemma PerformInv(config: Config, hash: Hash, c: Cluster, a: Action)
    requires config.all != [] && Inv(config, hash, c) && Enabled(config, c, a)
    ensures Inv(config, hash, Perform(config, hash, c, a)) && LogsKept(c, Perform(config, hash, c, a))
  {
    match a
    case Submit(v, request) =>
      SubmitSound(config, hash, c, v, request);
      SoundKeepsInv(config, hash, c, v, Submitted(config, hash, c.correct[v], request));
    case Deliver(m) =>
      if m.PrePrepare? { PrePrepareSound(config, hash, c, m); }
      else if m.Prepare? { PrepareSound(config, hash, c, m); }
      else { CommitSound(config, hash, c, m); }
      SoundKeepsInv(config, hash, c, m.dst, OnMessage(config, hash, c.correct[m.dst], m));
    case Forge(m) =>
      ForgeInv(config, hash, c, m);
  }

  lemma ForgeInv(config: Config, hash: Hash, c: Cluster, m: Message)
    requires config.all != [] && Inv(config, hash, c) && Enabled(config, c, Forge(m))
    ensures Inv(config, hash, Perform(config, hash, c, Forge(m))) && LogsKept(c, Perform(config, hash, c, Forge(m)))
  {
    var c' := Perform(config, hash, c, Forge(m));
    forall v | v in c'.correct ensures ReplicaInv(config, hash, c', v) {
      assert ReplicaInv(config, hash, c, v);
      forall s | s in c'.correct[v].log ensures EntryInv(config, hash, c', v, s) {
        assert EntryInv(config, hash, c, v, s);
      }
    }
    forall k | k in c'.network ensures MessageInv(config, c', k) {
      if k in c.network { assert MessageInv(config, c, k); }
    }
  }

  lemma {:induction false} RunInv(config: Config, hash: Hash, c: Cluster, actions: seq<Action>)
    requires config.all != [] && Inv(config, hash, c) && Runs(config, hash, c, actions)
    ensures Inv(config, hash, After(config, hash, c, actions)) && LogsKept(c, After(config, hash, c, actions))
    decreases |actions|
  {
    hide Inv, Perform, LogsKept;
    if actions != [] {
      var c1 := Perform(config, hash, c, actions[0]);
      PerformInv(config, hash, c, actions[0]);
      RunInv(config, hash, c1, actions[1..]);
      KeptInARow(c, c1, After(config, hash, c1, actions[1..]));
    } else {
      KeptAtOnce(c);
    }
  }

  lemma KeptInARow(c: Cluster, c1: Cluster, c2: Cluster)
    requires LogsKept(c, c1) && LogsKept(c1, c2)
    ensures LogsKept(c, c2)
  {
  }

  lemma KeptAtOnce(c: Cluster)
    ensures LogsKept(c, c)
  {
  }

  // ---------- quorums ----------

  lemma IntersectionSize(ids: set<NodeId>, a: set<NodeId>, b: set<NodeId>)
    requires a <= ids && b <= ids
    ensures |a| + |b| <= |ids| + |a * b|
  {
    SubsetSize(a + b, ids);
    assert |a + b| + |a * b| == |a| + |b|;
  }

  /** Two commit quorums out of 3f + 1 replicas share a correct one. */
  lemma CorrectInBoth(ids: set<NodeId>, f: nat, a: set<NodeId>, b: set<NodeId>, correct: set<NodeId>) returns (u: NodeId)
    requires |ids| == 3 * f + 1 && a <= ids && b <= ids && correct <= ids
    requires |a| >= 2 * f + 1 && |b| >= 2 * f + 1 && |ids - correct| <= f
    ensures u in a && u in b && u in correct
  {
    IntersectionSize(ids, a, b);
    var both := a * b;
    var faulty := ids - correct;
    if both * correct == {} {
      assert both <= faulty;
      SubsetSize(both, faulty);
    }
    u :| u in both * correct;
  }

  // ---------- agreement ----------

  ghost predicate Injective(hash: Hash) {
    forall a, b | hash(a) == hash(b) :: a == b
  }

  lemma CommittedAgree(config: Config, hash: Hash, c: Cluster, v: NodeId, w: NodeId, s: nat)
    requires config.all != [] && Inv(config, hash, c) && Injective(hash)
    requires |Ids(config)| == |config.all| == 3 * config.F() + 1 && |Ids(config) - c.correct.Keys| <= config.F()
    requires v in c.correct && s in c.correct[v].log && c.correct[v].log[s].committed
    requires w in c.correct && s in c.correct[w].log && c.correct[w].log[s].committed
    ensures c.correct[v].log[s].request == c.correct[w].log[s].request
  {
    assert ReplicaInv(config, hash, c, v) && ReplicaInv(config, hash, c, w);
    assert EntryInv(config, hash, c, v, s) && EntryInv(config, hash, c, w, s);
    var u := CorrectInBoth(Ids(config), config.F(), c.correct[v].log[s].commits, c.correct[w].log[s].commits, c.correct.Keys);
    assert Logged(c, u, s, c.correct[v].log[s].digest) && Logged(c, u, s, c.correct[w].log[s].digest);
  }

  // ---------- a correct primary ----------

  /** Whatever anybody has logged, and whatever the primary has proposed, is the primary's own request for the number. */
  ghost predicate PrimaryInv(config: Config, c: Cluster)
    requires config.all != [] && config.Primary() in c.correct
  {
    var theirs := c.correct[config.Primary()].log;
    && (forall v, s | v in c.correct && s in c.correct[v].log :: s in theirs && c.correct[v].log[s].request == theirs[s].request)
    && (forall m | m in c.network && m.PrePrepare? && m.src == config.Primary() ::
          m.seqNum in theirs && m.request == theirs[m.seqNum].request)
  }

  /** A message makes a replica log a new number only if it is the primary's proposal, and then with its request. */
  ghost predicate LogsOnlyProposals(config: Config, r: Replica, m: Message, out: Outcome)
    requires config.all != []
  {
    && out.replica.id == r.id
    && (forall k | k in out.sent :: !k.PrePrepare?)
    && (forall s | s in r.log :: s in out.replica.log && out.replica.log[s].request == r.log[s].request)
    && (forall s | s in out.replica.log && s !in r.log ::
          m.PrePrepare? && m.src == config.Primary() && s == m.seqNum && out.replica.log[s].request == m.request)
  }

  lemma HandlersLogProposals(config: Config, hash: Hash, r: Replica, m: Message)
    requires config.all != []
    ensures LogsOnlyProposals(config, r, m, OnMessage(config, hash, r, m))
  {
    hide Others;
    match m {
      case PrePrepare(_, _, _, _, _, _) =>
        assert forall k | k in Prepares(config, r.id, m.seqNum, m.digest) :: k.Prepare?;
      case Prepare(_, _, _, _, _) =>
        assert forall k | k in Commits(config, r.id, m.seqNum, m.digest) :: k.Commit?;
      case Commit(_, _, _, _, _) =>
    }
  }

  lemma MessageKeepsPrimary(config: Config, c: Cluster, m: Message, out: Outcome)
    requires config.all != [] && config.Primary() in c.correct && PrimaryInv(config, c)
    requires m in c.network && m.dst in c.correct && c.correct[m.dst].id == m.dst
    requires LogsOnlyProposals(config, c.correct[m.dst], m, out)
    ensures config.Primary() in Install(c, out).correct && PrimaryInv(config, Install(c, out))
  {
  }

  lemma ProposalKeepsPrimary(config: Config, hash: Hash, c: Cluster, v: NodeId, request: Request)
    requires config.all != [] && config.Primary() in c.correct && PrimaryInv(config, c)
    requires v in c.correct && c.correct[v].id == v
    requires forall s | s in c.correct[config.Primary()].log :: s <= c.correct[config.Primary()].seqNum
    ensures var c' := Install(c, Submitted(config, hash, c.correct[v], request));
            config.Primary() in c'.correct && PrimaryInv(config, c')
  {
    hide Others;
    var c' := Install(c, Submitted(config, hash, c.correct[v], request));
    if v != config.Primary() {
      assert c'.correct == c.correct && c'.network == c.network;
    } else {
      var s := c.correct[v].seqNum + 1;
      assert forall w | w in c.correct :: s !in c.correct[w].log;
      assert forall k | k in PrePrepares(config, v, s, hash(request), request) :: k.PrePrepare? ==> k.seqNum == s && k.request == request;
    }
  }

  lemma PrimaryKept(config: Config, hash: Hash, c: Cluster, a: Action)
    requires config.all != [] && Inv(config, hash, c) && Enabled(config, c, a)
    requires config.Primary() in c.correct && PrimaryInv(config, c)
    ensures config.Primary() in Perform(config, hash, c, a).correct && PrimaryInv(config, Perform(config, hash, c, a))
  {
    hide EntryInv, ExecutedInv, OnMessage, Submitted, PrimaryInv, MessageInv;
    assert ReplicaInv(config, hash, c, config.Primary());
    match a {
      case Submit(v, request) =>
        assert ReplicaInv(config, hash, c, v);
        ProposalKeepsPrimary(config, hash, c, v, request);
      case Deliver(m) =>
        assert ReplicaInv(config, hash, c, m.dst);
        HandlersLogProposals(config, hash, c.correct[m.dst], m);
        MessageKeepsPrimary(config, c, m, OnMessage(config, hash, c.correct[m.dst], m));
      case Forge(m) => ForgeKeepsPrimary(config, c, m);
    }
  }

  lemma ForgeKeepsPrimary(config: Config, c: Cluster, m: Message)
    requires config.all != [] && config.Primary() in c.correct && PrimaryInv(config, c) && m.src !in c.correct
    ensures PrimaryInv(config, c.(network := c.network + {m}))
  {
  }

  lemma {:induction false} PrimaryRules(config: Config, hash: Hash, c: Cluster, actions: seq<Action>)
    requires config.all != [] && Inv(config, hash, c) && Runs(config, hash, c, actions)
    requires config.Primary() in c.correct && PrimaryInv(config, c)
    ensures config.Primary() in After(config, hash, c, actions).correct && PrimaryInv(config, After(config, hash, c, actions))
    decreases |actions|
  {
    hide Inv, Perform, PrimaryInv;
    if actions != [] {
      PerformInv(config, hash, c, actions[0]);
      PrimaryKept(config, hash, c, actions[0]);
      PrimaryRules(config, hash, Perform(config, hash, c, actions[0]), actions[1..]);
    }
  }

  // ---------- the theorem ----------

  /** The cluster sizes for which the program's f and quorums are enough. */
  predicate SafeSize(n: nat) {
    n % 3 == 1 || n <= 3
  }

  /** A cluster of a safe size with at most f faulty replicas, all under different ids. */
  predicate Withstands(config: Config, c: Cluster)
    requires config.all != []
  {
    SafeSize(|config.all|) && |Ids(config)| == |config.all| && |Ids(config) - c.correct.Keys| <= config.F()
  }

  /**
   * At a safe size and with at most f faulty replicas, or at any size with any number
   * of faulty replicas as long as the primary is not one of them: two correct replicas
   * that execute under one sequence number execute the same request, each only once.
   */
  lemma Agreement(config: Config, hash: Hash, c: Cluster, actions: seq<Action>, v: NodeId, w: NodeId, i: nat, j: nat)
    requires config.all != [] && Initial(config, c) && Runs(config, hash, c, actions)
    requires config.Primary() in c.correct || (Injective(hash) && Withstands(config, c))
    requires v in After(config, hash, c, actions).correct && i < |After(config, hash, c, actions).correct[v].executed|
    requires w in After(config, hash, c, actions).correct && j < |After(config, hash, c, actions).correct[w].executed|
    requires After(config, hash, c, actions).correct[v].executed[i].0 == After(config, hash, c, actions).correct[w].executed[j].0
    ensures After(config, hash, c, actions).correct[v].executed[i] == After(config, hash, c, actions).correct[w].executed[j]
    ensures v == w ==> i == j
  {
    hide Perform, MessageInv, ReplicaInv, Runs, After, PrimaryInv, Ids, SafeSize;
    var c' := After(config, hash, c, actions);
    InitialInv(config, hash, c);
    RunInv(config, hash, c, actions);
    if v == w {
      OnceEach(config, hash, c', v, i, j);
    }
    if config.Primary() !in c.correct {
      SomebodyIsFaulty(config, c);
      ExecutedAgree(config, hash, c', v, w, i, j);
    } else {
      InitialPrimary(config, c);
      PrimaryRules(config, hash, c, actions);
      ExecutedAsProposed(config, hash, c', v, w, i, j);
    }
  }

  lemma InitialInv(config: Config, hash: Hash, c: Cluster)
    requires config.all != [] && Initial(config, c)
    ensures Inv(config, hash, c)
  {
  }

  lemma InitialPrimary(config: Config, c: Cluster)
    requires config.all != [] && Initial(config, c) && config.Primary() in c.correct
    ensures PrimaryInv(config, c)
  {
  }

  /** With a faulty primary f is at least one, so a safe size is one more than a multiple of three. */
  lemma SomebodyIsFaulty(config: Config, c: Cluster)
    requires config.all != [] && config.Primary() !in c.correct && Withstands(config, c)
    ensures |config.all| == 3 * config.F() + 1
  {
    var faulty := Ids(config) - c.correct.Keys;
    assert config.Primary() in faulty;
    assert faulty == {config.Primary()} + (faulty - {config.Primary()});
    ThreeOrFewer(|config.all|);
  }

  lemma ThreeOrFewer(n: nat)
    requires 0 < n && SafeSize(n)
    ensures (n - 1) / 3 >= 1 ==> n == 3 * ((n - 1) / 3) + 1
  {
  }

  lemma OnceEach(config: Config, hash: Hash, c: Cluster, v: NodeId, i: nat, j: nat)
    requires config.all != [] && Inv(config, hash, c) && v in c.correct
    requires i < |c.correct[v].executed| && j < |c.correct[v].executed|
    ensures c.correct[v].executed[i].0 == c.correct[v].executed[j].0 ==> i == j
  {
    hide EntryInv, MessageInv;
    assert ReplicaInv(config, hash, c, v);
  }

  /** What has been executed is what the log holds under that number, committed. */
  lemma ExecutedIs(config: Config, hash: Hash, c: Cluster, v: NodeId, i: nat)
    requires config.all != [] && Inv(config, hash, c) && v in c.correct && i < |c.correct[v].executed|
    ensures var (s, request) := c.correct[v].executed[i];
            s in c.correct[v].log && c.correct[v].log[s].committed && c.correct[v].log[s].request == request
  {
    hide EntryInv, MessageInv;
    assert ReplicaInv(config, hash, c, v);
  }

  lemma ExecutedAsProposed(config: Config, hash: Hash, c: Cluster, v: NodeId, w: NodeId, i: nat, j: nat)
    requires config.all != [] && Inv(config, hash, c) && config.Primary() in c.correct && PrimaryInv(config, c)
    requires v in c.correct && i < |c.correct[v].executed| && w in c.correct && j < |c.correct[w].executed|
    requires c.correct[v].executed[i].0 == c.correct[w].executed[j].0
    ensures c.correct[v].executed[i] == c.correct[w].executed[j]
  {
    hide Inv;
    ExecutedIs(config, hash, c, v, i);
    ExecutedIs(config, hash, c, w, j);
    var s := c.correct[v].executed[i].0;
    var theirs := c.correct[config.Primary()].log;
    assert s in c.correct[v].log && s in c.correct[w].log;
    assert c.correct[v].log[s].request == theirs[s].request && c.correct[w].log[s].request == theirs[s].request;
    assert c.correct[v].executed[i].1 == c.correct[w].executed[j].1;
  }

  lemma ExecutedAgree(config: Config, hash: Hash, c: Cluster, v: NodeId, w: NodeId, i: nat, j: nat)
    requires config.all != [] && Inv(config, hash, c) && Injective(hash)
    requires |Ids(config)| == |config.all| == 3 * config.F() + 1 && |Ids(config) - c.correct.Keys| <= config.F()
    requires v in c.correct && i < |c.correct[v].executed| && w in c.correct && j < |c.correct[w].executed|
    requires c.correct[v].executed[i].0 == c.correct[w].executed[j].0
    ensures c.correct[v].executed[i] == c.correct[w].executed[j]
  {
    hide Inv, Ids, Injective;
    ExecutedIs(config, hash, c, v, i);
    ExecutedIs(config, hash, c, w, j);
    CommittedAgree(config, hash, c, v, w, c.correct[v].executed[i].0);
  }
}
