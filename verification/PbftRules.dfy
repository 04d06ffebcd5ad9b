/** What one message does to a correct replica, told on the cluster: when a proposal is taken and when a replica commits. */
module PbftRules {
  import opened Quorums
  import opened PbftReplica
  import opened PbftAgreement
  import opened PbftRounds

  /** The primary's own proposal for this view, under the digest of its request. */
  predicate IsProposal(config: Config, hash: Hash, m: Message)
    requires config.all != []
  {
    m.PrePrepare? && m.view == config.view && m.src == config.Primary() && m.digest == hash(m.request)
  }

  /** Any other proposal changes nothing. */
  lemma OtherProposalsAreIgnored(config: Config, hash: Hash, c: Cluster, m: Message)
    requires config.all != [] && Inv(config, hash, c) && Enabled(config, c, Deliver(m)) && m.PrePrepare?
    requires !IsProposal(config, hash, m)
    ensures Perform(config, hash, c, Deliver(m)) == c
  {
    OwnId(config, hash, c, m.dst);
    assert c.correct[m.dst := c.correct[m.dst]] == c.correct;
  }

  lemma OwnId(config: Config, hash: Hash, c: Cluster, v: NodeId)
    requires config.all != [] && Inv(config, hash, c) && v in c.correct
    ensures c.correct[v].id == v
  {
    hide EntryInv, ExecutedInv, MessageInv;
    assert ReplicaInv(config, hash, c, v);
  }

  /** Only the entry of this number may have changed. */
  ghost predicate OnlyEntry(r: Replica, r': Replica, s: nat) {
    && r'.id == r.id && r'.seqNum == r.seqNum && r'.applied == r.applied && r'.executed == r.executed
    && s in r'.log && r'.log.Keys == r.log.Keys + {s}
    && forall k | k in r.log && k != s :: r'.log[k] == r.log[k]
  }

  /** The primary's proposal is logged, unless the number is taken, and the replica's prepare goes to everybody else. */
  lemma ProposalOutcome(config: Config, hash: Hash, c: Cluster, m: Message)
    requires config.all != [] && Inv(config, hash, c) && Enabled(config, c, Deliver(m)) && IsProposal(config, hash, m)
    ensures m.dst in Perform(config, hash, c, Deliver(m)).correct
    ensures var r, r' := c.correct[m.dst], Perform(config, hash, c, Deliver(m)).correct[m.dst]; var s := m.seqNum;
            && OnlyEntry(r, r', s) && r'.log[s].prePrepared
            && (s !in r.log ==> r'.log[s] == Entry(m.request, m.digest, true, {m.dst}, {}, false))
            && (s in r.log ==> r'.log[s] == r.log[s].(prePrepared := true, prepares := r.log[s].prepares + {m.dst}))
    ensures forall y | y in Ids(config) && y != m.dst ::
              Prepare(m.dst, y, config.view, m.seqNum, m.digest) in Perform(config, hash, c, Deliver(m)).network
  {
    hide Prepares, Ids, Inv;
    OwnId(config, hash, c, m.dst);
    assert {} + {m.dst} == {m.dst};
    forall y | y in Ids(config) && y != m.dst
      ensures Prepare(m.dst, y, config.view, m.seqNum, m.digest) in Prepares(config, m.dst, m.seqNum, m.digest) {
      GoesTo(config, m.dst, y, m.seqNum, m.digest);
    }
  }

  lemma GoesTo(config: Config, x: NodeId, y: NodeId, s: nat, digest: Digest)
    requires y in Ids(config) && y != x
    ensures Prepare(x, y, config.view, s, digest) in Prepares(config, x, s, digest)
    ensures Commit(x, y, config.view, s, digest) in Commits(config, x, s, digest)
  {
    OthersHas(config.all, x, y);
    var i :| 0 <= i < |config.Peers(x)| && config.Peers(x)[i] == y;
    assert Prepares(config, x, s, digest)[i] == Prepare(x, y, config.view, s, digest);
    assert Commits(config, x, s, digest)[i] == Commit(x, y, config.view, s, digest);
  }

  /**
   * A prepare counts where the digest is the replica's own. The replica adds its commit and
   * sends it to everybody else exactly when it has the proposal and 2f prepares, and the sender's
   * commit is not in yet.
   */
  lemma PrepareOutcome(config: Config, hash: Hash, c: Cluster, m: Message)
    requires config.all != [] && Inv(config, hash, c) && Enabled(config, c, Deliver(m)) && m.Prepare?
    requires Logged(c, m.dst, m.seqNum, m.digest)
    ensures m.dst in Perform(config, hash, c, Deliver(m)).correct
    ensures var r, c' := c.correct[m.dst], Perform(config, hash, c, Deliver(m)); var s := m.seqNum;
            var entry := r.log[s];
            var commits := entry.prePrepared && |entry.prepares + {m.src}| >= 2 * config.F() && m.src !in entry.commits;
            && OnlyEntry(r, c'.correct[m.dst], s)
            && c'.correct[m.dst].log[s] == entry.(prepares := entry.prepares + {m.src},
                                                  commits := if commits then entry.commits + {m.dst} else entry.commits)
            && (if commits then forall y | y in Ids(config) && y != m.dst :: Commit(m.dst, y, config.view, s, m.digest) in c'.network
                else c'.network == c.network)
  {
    hide Commits, Ids, Inv;
    OwnId(config, hash, c, m.dst);
    forall y | y in Ids(config) && y != m.dst
      ensures Commit(m.dst, y, config.view, m.seqNum, m.digest) in Commits(config, m.dst, m.seqNum, m.digest) {
      GoesTo(config, m.dst, y, m.seqNum, m.digest);
    }
  }

  /** A prepare or commit under another digest, or for a number not logged, changes nothing. */
  lemma OtherVotesAreIgnored(config: Config, hash: Hash, c: Cluster, m: Message)
    requires config.all != [] && Inv(config, hash, c) && Enabled(config, c, Deliver(m)) && !m.PrePrepare?
    requires !Logged(c, m.dst, m.seqNum, m.digest)
    ensures Perform(config, hash, c, Deliver(m)) == c
  {
    OwnId(config, hash, c, m.dst);
    assert c.correct[m.dst := c.correct[m.dst]] == c.correct;
  }
}
