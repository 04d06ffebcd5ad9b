/** The log merge of an AppendEntries request, in closed form. */
module RaftLog {
  import opened RaftTypes

  /** Position in the batch of the first entry the log does not already hold in its place. */
  function FirstNew(log: Log, at: nat, entries: Log): (k: nat)
    requires at <= |log|
    ensures k <= |entries|
    ensures at + k <= |log|
    ensures forall i | 0 <= i < k :: log[at + i].term == entries[i].term
    ensures k < |entries| && at + k < |log| ==> log[at + k].term != entries[k].term
    decreases |entries|
  {
    if entries == [] || at == |log| || log[at].term != entries[0].term then 0
    else
      var k := FirstNew(log, at + 1, entries[1..]);
      assert forall i | 0 < i < k + 1 :: log[at + i].term == entries[i].term by {
        assert forall i | 0 < i < k + 1 :: log[at + i] == log[at + 1 + (i - 1)] && entries[i] == entries[1..][i - 1];
      }
      k + 1
  }

  /** Keep everything when the batch is already there; otherwise cut at the first difference and append the rest. */
  function Merged(log: Log, at: nat, entries: Log): (merged: Log)
    requires at <= |log|
    ensures at + |entries| <= |merged|
  {
    var k := FirstNew(log, at, entries);
    if k == |entries| then log else log[..at + k] + entries[k..]
  }

  /** The batch is in place afterwards, up to commands of entries that were there before with the same term. */
  lemma MergedTerms(log: Log, at: nat, entries: Log)
    requires at <= |log|
    ensures forall i | 0 <= i < at :: Merged(log, at, entries)[i] == log[i]
    ensures forall i | 0 <= i < |entries| :: Merged(log, at, entries)[at + i].term == entries[i].term
  {
  }

  /** Delivering the same batch again changes nothing. */
  lemma MergeIsIdempotent(log: Log, at: nat, entries: Log)
    requires at <= |log|
    ensures at <= |Merged(log, at, entries)|
    ensures Merged(Merged(log, at, entries), at, entries) == Merged(log, at, entries)
  {
  }

  /** A batch whose terms all match leaves the log alone; any other batch becomes its new tail. */
  lemma MergeOutcome(log: Log, at: nat, entries: Log)
    requires at <= |log|
    ensures (at + |entries| <= |log| && forall i | 0 <= i < |entries| :: log[at + i].term == entries[i].term)
        <==> Merged(log, at, entries) == log && at + |entries| <= |log|
    ensures Merged(log, at, entries) == log || |Merged(log, at, entries)| == at + |entries|
  {
  }

  /** Whatever prefix of a reference log is held before a merge with a piece of that log is held after it. */
  lemma MergeKeepsAgreement(log: Log, at: nat, entries: Log, reference: Log, n: nat)
    requires at <= |log| && at + |entries| <= |reference|
    requires entries == reference[at..at + |entries|]
    requires n <= |log| && n <= |reference| && log[..n] == reference[..n]
    ensures n <= |Merged(log, at, entries)|
    ensures Merged(log, at, entries)[..n] == reference[..n]
  {
  }
}
