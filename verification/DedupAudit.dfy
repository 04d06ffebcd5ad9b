/** The audit log tells the whole table: every commit in order, who made it, and which events were kept. */
module DedupAudit {
  import opened DedupStates
  import opened DedupTheorems

  /** The first row with its key. */
  predicate IsFirst(audit: seq<AuditRow>, i: nat)
    requires i < |audit|
  {
    forall j | 0 <= j < i :: audit[j].key != audit[i].key
  }

  /** The keys of the rows that were new, in order. */
  function NewKeys(audit: seq<AuditRow>): seq<Key> {
    if audit == [] then []
    else
      var front, row := NewKeys(audit[..|audit| - 1]), audit[|audit| - 1];
      if row.isNew then front + [row.key] else front
  }

  /** Row i of the log is about commit i: it was new exactly if no earlier one had its key, and then its event is the one kept. */
  ghost predicate RowTells(s: System, i: nat)
    requires i < |s.store.audit| == |s.commits|
  {
    var row := s.store.audit[i];
    && s.commits[i] < |s.stream.entries| && row.key == KeyOf(s.stream.entries[s.commits[i]])
    && (row.isNew <==> IsFirst(s.store.audit, i))
    && row.key in s.store.rows
    && (row.isNew ==> s.store.rows[row.key] == s.stream.entries[s.commits[i]])
  }

  ghost predicate Logged(audit: seq<AuditRow>, k: Key) {
    exists i :: 0 <= i < |audit| && audit[i].key == k
  }

  /** The log tells the table. */
  ghost predicate AuditTells(s: System) {
    && |s.store.audit| == |s.commits|
    && (forall i | 0 <= i < |s.commits| :: RowTells(s, i))
    && (forall k | k in s.store.rows :: Logged(s.store.audit, k))
    && s.store.order == NewKeys(s.store.audit)
    && s.store.unique == |NewKeys(s.store.audit)| && s.store.unique + s.store.duplicate == |s.store.audit|
  }

  /** The table and the commits are the same, but for the received counter; the stream may have grown. */
  ghost predicate SameTable(s: System, t: System) {
    && t.store == s.store.(received := t.store.received) && t.commits == s.commits && s.stream.entries <= t.stream.entries
  }

  lemma TellsStill(s: System, t: System)
    requires AuditTells(s) && SameTable(s, t)
    ensures AuditTells(t)
  {
    forall i | 0 <= i < |t.commits| ensures RowTells(t, i) {
      assert RowTells(s, i);
    }
  }

  /** A commit of this entry by this worker: one more row in the log, and the key's event if the key is new. */
  ghost predicate Commits(s: System, id: MsgId, w: WorkerId, t: System)
    requires id < |s.stream.entries|
  {
    var ev := s.stream.entries[id];
    && t.commits == s.commits + [id] && t.stream.entries == s.stream.entries
    && t.store.audit == s.store.audit + [AuditRow(KeyOf(ev), KeyOf(ev) !in s.store.rows, w)]
    && t.store.rows == (if KeyOf(ev) in s.store.rows then s.store.rows else s.store.rows[KeyOf(ev) := ev])
    && t.store.order == (if KeyOf(ev) in s.store.rows then s.store.order else s.store.order + [KeyOf(ev)])
    && t.store.unique == s.store.unique + (if KeyOf(ev) in s.store.rows then 0 else 1)
    && t.store.duplicate == s.store.duplicate + (if KeyOf(ev) in s.store.rows then 1 else 0)
  }

  lemma NewKeysNext(audit: seq<AuditRow>, row: AuditRow)
    ensures NewKeys(audit + [row]) == if row.isNew then NewKeys(audit) + [row.key] else NewKeys(audit)
  {
    assert (audit + [row])[..|audit|] == audit;
  }

  /** Whether a key has a row in the table can be read off the log. */
  lemma StoredIsLogged(s: System, k: Key)
    requires AuditTells(s)
    ensures k in s.store.rows <==> Logged(s.store.audit, k)
  {
    if Logged(s.store.audit, k) {
      var i :| 0 <= i < |s.store.audit| && s.store.audit[i].key == k;
      assert RowTells(s, i);
    }
  }

  lemma OldRowTells(s: System, id: MsgId, w: WorkerId, t: System, i: nat)
    requires AuditTells(s) && id < |s.stream.entries| && Commits(s, id, w, t) && i < |s.commits|
    ensures |t.store.audit| == |t.commits| && i < |t.commits| && RowTells(t, i)
  {
    assert RowTells(s, i);
    assert forall j | 0 <= j <= i :: t.store.audit[j] == s.store.audit[j];
    assert IsFirst(t.store.audit, i) <==> IsFirst(s.store.audit, i);
  }

  lemma CommitTells(s: System, id: MsgId, w: WorkerId, t: System)
    requires AuditTells(s) && id < |s.stream.entries| && Commits(s, id, w, t)
    ensures AuditTells(t)
  {
    hide RowTells;
    var k, n := KeyOf(s.stream.entries[id]), |s.commits|;
    StoredIsLogged(s, k);
    NewKeysNext(s.store.audit, t.store.audit[n]);
    forall i | 0 <= i < |t.commits| ensures RowTells(t, i) {
      if i < n { OldRowTells(s, id, w, t, i); } else { LastRowTells(s, id, w, t); }
    }
    forall j | j in t.store.rows ensures Logged(t.store.audit, j) {
      LoggedLonger(s.store.audit, t.store.audit[n], j);
      if j != k { StoredIsLogged(s, j); }
    }
  }

  lemma LoggedLonger(audit: seq<AuditRow>, row: AuditRow, k: Key)
    ensures Logged(audit, k) || k == row.key ==> Logged(audit + [row], k)
  {
    if Logged(audit, k) {
      var i :| 0 <= i < |audit| && audit[i].key == k;
      assert (audit + [row])[i].key == k;
    }
    assert (audit + [row])[|audit|] == row;
  }

  lemma LastRowTells(s: System, id: MsgId, w: WorkerId, t: System)
    requires AuditTells(s) && id < |s.stream.entries| && Commits(s, id, w, t)
    ensures |t.store.audit| == |t.commits| == |s.commits| + 1 && RowTells(t, |s.commits|)
  {
    hide RowTells;
    var k, n := KeyOf(s.stream.entries[id]), |s.commits|;
    StoredIsLogged(s, k);
    FirstIsUnlogged(s.store.audit, t.store.audit[n]);
    LastRow(s, id, w, t);
  }

  lemma FirstIsUnlogged(audit: seq<AuditRow>, row: AuditRow)
    ensures IsFirst(audit + [row], |audit|) <==> !Logged(audit, row.key)
  {
    forall j | 0 <= j < |audit| ensures (audit + [row])[j] == audit[j] {
    }
  }

  lemma LastRow(s: System, id: MsgId, w: WorkerId, t: System)
    requires |s.store.audit| == |s.commits| && id < |s.stream.entries| && Commits(s, id, w, t)
    requires KeyOf(s.stream.entries[id]) in s.store.rows <==> Logged(s.store.audit, KeyOf(s.stream.entries[id]))
    requires IsFirst(t.store.audit, |s.commits|) <==> !Logged(s.store.audit, KeyOf(s.stream.entries[id]))
    ensures RowTells(t, |s.commits|)
  {
  }

  // ---------- steps ----------

  /** The entry the step commits, if it commits one. */
  function CommittedBy(s: System, step: Step): (id: seq<MsgId>)
    requires Enabled(s, step)
  {
    match step
    case ProcessClaim(w) => s.workers[w].phase.todo[..1]
    case ProcessNext(w) => s.workers[w].phase.todo[..1]
    case SkipNext(w, committed) => if committed then s.workers[w].phase.todo[..1] else []
    case Raise(w, committed) => if committed then s.workers[w].phase.todo[..1] else []
    case _ => []
  }

  /** A step commits one entry under its worker's name, or leaves the table as it is. */
  lemma StepCommits(s: System, step: Step)
    requires Enabled(s, step)
    ensures var t := Performed(s, step);
            if CommittedBy(s, step) == [] then SameTable(s, t)
            else CommittedBy(s, step)[0] < |s.stream.entries| && Commits(s, CommittedBy(s, step)[0], step.w, t)
  {
  }

  lemma StepTells(s: System, step: Step)
    requires Enabled(s, step) && AuditTells(s)
    ensures AuditTells(Performed(s, step))
  {
    hide AuditTells, Performed, Enabled, Commits, SameTable;
    StepCommits(s, step);
    if CommittedBy(s, step) == [] {
      TellsStill(s, Performed(s, step));
    } else {
      CommitTells(s, CommittedBy(s, step)[0], step.w, Performed(s, step));
    }
  }

  /**
   * After any run the audit log has one row for every commit, in order; a row is marked new
   * exactly if no earlier one has its key; the table holds the events of the new rows and
   * numbers them in that order; and the two counters count the new rows and the others.
   */
  lemma {:induction false} AuditTellsAll(s: System, steps: seq<Step>)
    requires Runs(s, steps) && AuditTells(s)
    ensures AuditTells(After(s, steps))
    decreases |steps|
  {
    hide AuditTells, Performed, Enabled;
    if steps != [] {
      StepTells(s, steps[0]);
      AuditTellsAll(Performed(s, steps[0]), steps[1..]);
    }
  }

  lemma FreshTells(s: System)
    requires Fresh(s)
    ensures AuditTells(s)
  {
  }
}
