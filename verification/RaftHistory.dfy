/**
 * The history of a Raft run that the safety argument talks about, and the
 * invariant it satisfies. An entry is identified by its term and index.
 */
module RaftHistory {
  import opened Quorums
  import opened RaftTypes
  import opened RaftHandlers

  datatype Ballot = Ballot(node: NodeId, term: nat)

  /** A vote, with the voter's log at the time it voted. */
  datatype VoteRecord = VoteRecord(candidate: NodeId, log: Log)

  /** Who led a term, who elected it, and its log: frozen once it steps down. */
  datatype Leadership = Leadership(id: NodeId, voters: set<NodeId>, log: Log)

  datatype EntryId = EntryId(term: nat, index: nat)

  datatype History = History(
    terms: map<NodeId, nat>,             // current term of every node
    candidacies: map<Ballot, Log>,       // a candidate's log when it stood
    votes: map<Ballot, VoteRecord>,      // one vote for each node and term
    leaders: map<nat, Leadership>,       // one leader for each term
    acks: map<Ballot, nat>,              // length of the term leader's log a node acknowledged
    commits: set<EntryId>)               // entries a leader of their own term committed

  function Term(h: History, v: NodeId): nat {
    if v in h.terms then h.terms[v] else 0
  }

  function Ack(h: History, v: NodeId, t: nat): nat {
    if Ballot(v, t) in h.acks then h.acks[Ballot(v, t)] else 0
  }

  function LeaderLog(h: History, t: nat): Log {
    if t in h.leaders then h.leaders[t].log else []
  }

  predicate Has(log: Log, t: nat, i: nat) {
    i < |log| && log[i].term == t
  }

  predicate Agree(a: Log, b: Log, n: nat) {
    n <= |a| && n <= |b| && a[..n] == b[..n]
  }

  /** Entries sit at their index, terms start at 1, never decrease and stay within the bound. */
  ghost predicate WellFormed(log: Log, maxTerm: nat) {
    && (forall i | 0 <= i < |log| :: log[i].index == i && 1 <= log[i].term <= maxTerm)
    && (forall i, j | 0 <= i <= j < |log| :: log[i].term <= log[j].term)
  }

  /** Log matching in its strong form: up to any entry, the log is the log of that entry's leader. */
  ghost predicate Good(h: History, log: Log) {
    forall i | 0 <= i < |log| :: Agree(log, LeaderLog(h, log[i].term), i + 1)
  }

  ghost predicate LaterLeadersHave(h: History, t: nat, i: nat, upTo: nat) {
    forall u | t < u <= upTo && u in h.leaders :: Has(LeaderLog(h, u), t, i)
  }

  /** What v acknowledged in earlier terms is in the log unless a leader since lacked it. */
  ghost predicate Retains(h: History, v: NodeId, upTo: nat, log: Log) {
    forall t: nat, i: nat | t < upTo && i < Ack(h, v, t) && Has(LeaderLog(h, t), t, i) && LaterLeadersHave(h, t, i, upTo) ::
      Has(log, t, i)
  }

  ghost predicate Supports(h: History, q: set<NodeId>, t: nat, i: nat) {
    forall v | v in q :: Ack(h, v, t) > i || Term(h, v) <= t
  }

  /** A majority has acknowledged the entry of term t at i, or still may. */
  ghost predicate Choosable(h: History, t: nat, i: nat) {
    && Has(LeaderLog(h, t), t, i)
    && exists q :: IsQuorum(h.terms.Keys, q) && Supports(h, q, t, i)
  }

  ghost predicate VoteOk(h: History, b: Ballot)
    requires b in h.votes
  {
    var record := h.votes[b];
    var stood := Ballot(record.candidate, b.term);
    && b.node in h.terms
    && b.term <= Term(h, b.node)
    && stood in h.candidacies
    && UpToDate(LastTerm(h.candidacies[stood]), LastIndex(h.candidacies[stood]), record.log)
    && WellFormed(record.log, b.term)
    && Good(h, record.log)
    && Retains(h, b.node, b.term, record.log)
  }

  ghost predicate CandidacyOk(h: History, b: Ballot) {
    b.node in h.terms && 1 <= b.term <= Term(h, b.node)
  }

  predicate VotedFor(h: History, v: NodeId, t: nat, candidate: NodeId) {
    Ballot(v, t) in h.votes && h.votes[Ballot(v, t)].candidate == candidate
  }

  ghost predicate LeaderOk(h: History, t: nat)
    requires t in h.leaders
  {
    && IsQuorum(h.terms.Keys, h.leaders[t].voters)
    && (forall v | v in h.leaders[t].voters :: VotedFor(h, v, t, h.leaders[t].id))
    && Ballot(h.leaders[t].id, t) in h.candidacies
    && WellFormed(h.leaders[t].log, t)
    && Good(h, h.leaders[t].log)
  }

  ghost predicate AckOk(h: History, b: Ballot)
    requires b in h.acks
  {
    && b.node in h.terms
    && b.term <= Term(h, b.node)
    && b.term in h.leaders
    && h.acks[b] <= |LeaderLog(h, b.term)|
  }

  /** Leader completeness: an entry that may be chosen is in the log of every later leader. */
  ghost predicate Complete(h: History) {
    forall t: nat, i: nat, u: nat {:trigger Choosable(h, t, i), LeaderLog(h, u)} |
      t < u && u in h.leaders && Choosable(h, t, i) :: Has(LeaderLog(h, u), t, i)
  }

  ghost predicate HistoryInv(h: History) {
    && (forall b | b in h.votes :: VoteOk(h, b))
    && (forall b | b in h.candidacies :: CandidacyOk(h, b))
    && (forall t | t in h.leaders :: LeaderOk(h, t))
    && (forall b | b in h.acks :: AckOk(h, b))
    && Complete(h)
  }

  /** A leader's log grows only at its end, and only by entries of its own term. */
  ghost predicate Grows(before: Log, after: Log, t: nat) {
    && |before| <= |after|
    && after[..|before|] == before
    && (forall i | |before| <= i < |after| :: after[i].term == t)
  }

  ghost predicate TermsRise(h: History, h': History, a: NodeId) {
    && h'.terms.Keys == h.terms.Keys
    && (forall v | v in h.terms :: Term(h, v) <= Term(h', v) && (v != a ==> Term(h', v) == Term(h, v)))
  }

  ghost predicate BallotsKept(h: History, h': History, a: NodeId) {
    && (forall b | b in h.candidacies :: b in h'.candidacies && h'.candidacies[b] == h.candidacies[b])
    && (forall b | b in h.votes :: b in h'.votes && h'.votes[b] == h.votes[b])
    && (forall b | b in h'.votes :: b in h.votes || b.node == a)
  }

  /** Past leaders stay; only a's own leadership may gain entries; a new leader is a. */
  ghost predicate LeadersKept(h: History, h': History, a: NodeId) {
    && (forall t | t in h.leaders ::
          && t in h'.leaders
          && h'.leaders[t].id == h.leaders[t].id
          && h'.leaders[t].voters == h.leaders[t].voters
          && Grows(LeaderLog(h, t), LeaderLog(h', t), t)
          && (h.leaders[t].id != a ==> LeaderLog(h', t) == LeaderLog(h, t)))
    && (forall t | t in h'.leaders :: t in h.leaders || h'.leaders[t].id == a)
  }

  /** Acknowledgements grow, and only those of a for its present term or later. */
  ghost predicate AcksRise(h: History, h': History, a: NodeId) {
    && (forall b | b in h.acks :: b in h'.acks)
    && (forall v, t :: Ack(h, v, t) <= Ack(h', v, t))
    && (forall v, t | Ack(h, v, t) != Ack(h', v, t) :: v == a && Term(h, a) <= t)
  }

  /** How one step of node a may change the history. */
  ghost predicate Evolves(h: History, h': History, a: NodeId) {
    && TermsRise(h, h', a)
    && BallotsKept(h, h', a)
    && LeadersKept(h, h', a)
    && AcksRise(h, h', a)
    && h.commits <= h'.commits
  }

  lemma AgreeAt(a: Log, b: Log, n: nat, i: nat)
    requires Agree(a, b, n) && i < n
    ensures a[i] == b[i]
  {
  }

  lemma AgreeShorter(a: Log, b: Log, n: nat, m: nat)
    requires Agree(a, b, n) && m <= n
    ensures Agree(a, b, m)
  {
  }

  lemma AgreeTransitive(a: Log, b: Log, c: Log, n: nat)
    requires Agree(a, b, n) && Agree(b, c, n)
    ensures Agree(a, c, n)
  {
  }

  /** Two good logs with the same term at an index are equal up to it. */
  lemma LogMatching(h: History, a: Log, b: Log, i: nat)
    requires Good(h, a) && Good(h, b)
    requires i < |a| && i < |b| && a[i].term == b[i].term
    ensures Agree(a, b, i + 1)
  {
  }

  lemma GrowsKeepsAgreement(log: Log, before: Log, after: Log, t: nat, n: nat)
    requires Agree(log, before, n) && Grows(before, after, t)
    ensures Agree(log, after, n)
  {
  }

  lemma GrowsTransitive(a: Log, b: Log, c: Log, t: nat)
    requires Grows(a, b, t) && Grows(b, c, t)
    ensures Grows(a, c, t)
  {
  }

  lemma EvolvesTransitive(h0: History, h1: History, h2: History, a: NodeId)
    requires Evolves(h0, h1, a) && Evolves(h1, h2, a) && a in h0.terms
    ensures Evolves(h0, h2, a)
  {
    forall t | t in h0.leaders ensures Grows(LeaderLog(h0, t), LeaderLog(h2, t), t) {
      GrowsTransitive(LeaderLog(h0, t), LeaderLog(h1, t), LeaderLog(h2, t), t);
    }
    assert BallotsKept(h0, h2, a);
    assert LeadersKept(h0, h2, a);
    assert AcksRise(h0, h2, a);
  }

  lemma GoodEvolves(h: History, h': History, a: NodeId, log: Log)
    requires Evolves(h, h', a) && Good(h, log)
    ensures Good(h', log)
  {
    forall i | 0 <= i < |log|
      ensures Agree(log, LeaderLog(h', log[i].term), i + 1)
    {
      var t := log[i].term;
      assert Agree(log, LeaderLog(h, t), i + 1);
      assert t in h.leaders;
      GrowsKeepsAgreement(log, LeaderLog(h, t), LeaderLog(h', t), t, i + 1);
    }
  }

  /** A leader's log gains no entry of an earlier term. */
  lemma HasEvolves(h: History, h': History, a: NodeId, u: nat, t: nat, i: nat)
    requires Evolves(h, h', a) && u in h.leaders
    ensures Has(LeaderLog(h, u), t, i) ==> Has(LeaderLog(h', u), t, i)
    ensures (t != u || i < |LeaderLog(h, u)|) && Has(LeaderLog(h', u), t, i) ==> Has(LeaderLog(h, u), t, i)
  {
    var before, after := LeaderLog(h, u), LeaderLog(h', u);
    assert Grows(before, after, u);
    if i < |before| {
      assert after[i] == after[..|before|][i] == before[i];
    }
  }

  lemma LaterLeadersHaveEvolves(h: History, h': History, a: NodeId, t: nat, i: nat, upTo: nat)
    requires Evolves(h, h', a) && LaterLeadersHave(h', t, i, upTo)
    ensures LaterLeadersHave(h, t, i, upTo)
  {
    forall u | t < u <= upTo && u in h.leaders
      ensures Has(LeaderLog(h, u), t, i)
    {
      HasEvolves(h, h', a, u, t, i);
    }
  }

  lemma RetainsEvolves(h: History, h': History, a: NodeId, v: NodeId, upTo: nat, log: Log)
    requires HistoryInv(h) && Evolves(h, h', a)
    requires upTo <= Term(h, v) && Retains(h, v, upTo, log)
    ensures Retains(h', v, upTo, log)
  {
    forall t: nat, i: nat | t < upTo && i < Ack(h', v, t) && Has(LeaderLog(h', t), t, i) && LaterLeadersHave(h', t, i, upTo)
      ensures Has(log, t, i)
    {
      assert Ack(h', v, t) == Ack(h, v, t);
      assert Ballot(v, t) in h.acks && AckOk(h, Ballot(v, t));
      HasEvolves(h, h', a, t, t, i);
      LaterLeadersHaveEvolves(h, h', a, t, i, upTo);
    }
  }

  lemma VoteOkEvolves(h: History, h': History, a: NodeId, b: Ballot)
    requires HistoryInv(h) && Evolves(h, h', a) && b in h.votes
    ensures VoteOk(h', b)
  {
    assert VoteOk(h, b);
    var log := h.votes[b].log;
    GoodEvolves(h, h', a, log);
    RetainsEvolves(h, h', a, b.node, b.term, log);
  }

  lemma LeaderOkEvolves(h: History, h': History, a: NodeId, t: nat)
    requires HistoryInv(h) && Evolves(h, h', a) && t in h.leaders && LeaderLog(h', t) == LeaderLog(h, t)
    ensures LeaderOk(h', t)
  {
    assert LeaderOk(h, t);
    GoodEvolves(h, h', a, h.leaders[t].log);
    forall v | v in h'.leaders[t].voters
      ensures VotedFor(h', v, t, h'.leaders[t].id)
    {
      assert VotedFor(h, v, t, h.leaders[t].id);
    }
  }

  /** Nothing becomes choosable later that was not choosable before. */
  lemma ChoosableEvolves(h: History, h': History, a: NodeId, t: nat, i: nat)
    requires Evolves(h, h', a) && Choosable(h', t, i) && Has(LeaderLog(h, t), t, i)
    ensures Choosable(h, t, i)
  {
  }

  /** What a step adds, judged in the new history. */
  ghost predicate NewItemsOk(h: History, h': History) {
    && (forall b | b in h'.votes && b !in h.votes :: VoteOk(h', b))
    && (forall b | b in h'.candidacies && b !in h.candidacies :: CandidacyOk(h', b))
    && (forall t | t in h'.leaders && (t !in h.leaders || LeaderLog(h', t) != LeaderLog(h, t)) :: LeaderOk(h', t))
    && (forall b | b in h'.acks && Ack(h', b.node, b.term) != Ack(h, b.node, b.term) :: AckOk(h', b))
    && (forall b | b in h'.acks && b !in h.acks :: AckOk(h', b))
    && NewlyComplete(h, h')
  }

  /** Leader completeness for new leaders and for new entries. */
  ghost predicate NewlyComplete(h: History, h': History) {
    forall t: nat, i: nat, u: nat {:trigger Choosable(h', t, i), LeaderLog(h', u)} |
      t < u && u in h'.leaders && Choosable(h', t, i)
      && (u !in h.leaders || !Has(LeaderLog(h, t), t, i)) :: Has(LeaderLog(h', u), t, i)
  }

  lemma CompleteEvolvesAt(h: History, h': History, a: NodeId, t: nat, i: nat, u: nat)
    requires Complete(h) && Evolves(h, h', a) && NewlyComplete(h, h')
    requires t < u && u in h'.leaders && Choosable(h', t, i)
    ensures Has(LeaderLog(h', u), t, i)
  {
    if u in h.leaders && Has(LeaderLog(h, t), t, i) {
      ChoosableEvolves(h, h', a, t, i);
      assert Has(LeaderLog(h, u), t, i);
      HasEvolves(h, h', a, u, t, i);
    }
  }

  lemma CompleteEvolves(h: History, h': History, a: NodeId)
    requires Complete(h) && Evolves(h, h', a) && NewlyComplete(h, h')
    ensures Complete(h')
  {
    forall t: nat, i: nat, u: nat | t < u && u in h'.leaders && Choosable(h', t, i)
      ensures Has(LeaderLog(h', u), t, i)
    {
      CompleteEvolvesAt(h, h', a, t, i, u);
    }
  }

  lemma HistoryEvolves(h: History, h': History, a: NodeId)
    requires HistoryInv(h) && Evolves(h, h', a) && NewItemsOk(h, h')
    ensures HistoryInv(h')
  {
    forall b | b in h'.votes ensures VoteOk(h', b) {
      if b in h.votes { VoteOkEvolves(h, h', a, b); }
    }
    forall b | b in h'.candidacies ensures CandidacyOk(h', b) {
      if b in h.candidacies { assert CandidacyOk(h, b); }
    }
    forall t | t in h'.leaders ensures LeaderOk(h', t) {
      if t in h.leaders && LeaderLog(h', t) == LeaderLog(h, t) { LeaderOkEvolves(h, h', a, t); }
    }
    forall b | b in h'.acks ensures AckOk(h', b) {
      if b in h.acks && Ack(h', b.node, b.term) == Ack(h, b.node, b.term) {
        assert AckOk(h, b);
        assert Grows(LeaderLog(h, b.term), LeaderLog(h', b.term), b.term);
      }
    }
    CompleteEvolves(h, h', a);
  }
}
