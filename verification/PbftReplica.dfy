/**
 * One PBFT replica in the normal case: its handlers as functions of its state,
 * and the class that runs them in place. The view never changes.
 */
module PbftReplica {
  import opened Quorums

  type Digest = nat

  /** Who asks for what; the timestamp is part of the operation here. */
  datatype Request = Request(id: nat, client: nat, operation: nat)

  /** compute_digest, left uninterpreted. */
  type Hash = Request -> Digest

  datatype Entry = Entry(request: Request, digest: Digest, prePrepared: bool,
                         prepares: set<NodeId>, commits: set<NodeId>, committed: bool)

  /** The sorted list of all replicas, and the view. */
  datatype Config = Config(all: seq<NodeId>, view: nat) {
    function F(): nat
      requires all != []
    {
      (|all| - 1) / 3
    }

    function Primary(): NodeId
      requires all != []
    {
      all[view % |all|]
    }

    function Peers(id: NodeId): seq<NodeId> {
      Others(all, id)
    }
  }

  function Others(all: seq<NodeId>, id: NodeId): (others: seq<NodeId>)
    ensures forall p | p in others :: p in all && p != id
  {
    if all == [] then []
    else if all[0] == id then Others(all[1..], id)
    else [all[0]] + Others(all[1..], id)
  }

  /** `executed` lists the calls of the apply callback: sequence number and request. */
  datatype Replica = Replica(id: NodeId, seqNum: nat, log: map<nat, Entry>, applied: set<nat>,
                             executed: seq<(nat, Request)>)

  datatype Message =
    | PrePrepare(src: NodeId, dst: NodeId, view: nat, seqNum: nat, digest: Digest, request: Request)
    | Prepare(src: NodeId, dst: NodeId, view: nat, seqNum: nat, digest: Digest)
    | Commit(src: NodeId, dst: NodeId, view: nat, seqNum: nat, digest: Digest)

  datatype Outcome = Outcome(replica: Replica, sent: seq<Message>)

  function PrePrepares(c: Config, id: NodeId, seqNum: nat, digest: Digest, request: Request): seq<Message> {
    var peers := c.Peers(id);
    seq(|peers|, i requires 0 <= i < |peers| => PrePrepare(id, peers[i], c.view, seqNum, digest, request))
  }

  function Prepares(c: Config, id: NodeId, seqNum: nat, digest: Digest): seq<Message> {
    var peers := c.Peers(id);
    seq(|peers|, i requires 0 <= i < |peers| => Prepare(id, peers[i], c.view, seqNum, digest))
  }

  function Commits(c: Config, id: NodeId, seqNum: nat, digest: Digest): seq<Message> {
    var peers := c.Peers(id);
    seq(|peers|, i requires 0 <= i < |peers| => Commit(id, peers[i], c.view, seqNum, digest))
  }

  function Submitted(c: Config, hash: Hash, r: Replica, request: Request): Outcome
    requires c.all != []
  {
    if r.id != c.Primary() then Outcome(r, [])
    else
      var s := r.seqNum + 1;
      Outcome(r.(seqNum := s, log := r.log[s := Entry(request, hash(request), true, {}, {}, false)]),
              PrePrepares(c, r.id, s, hash(request), request))
  }

  function OnPrePrepare(c: Config, hash: Hash, r: Replica, m: Message): Outcome
    requires m.PrePrepare? && c.all != []
  {
    if m.view != c.view || m.src != c.Primary() || m.digest != hash(m.request) then Outcome(r, [])
    else
      var entry := if m.seqNum in r.log then r.log[m.seqNum]
                   else Entry(m.request, m.digest, false, {}, {}, false);
      Outcome(r.(log := r.log[m.seqNum := entry.(prePrepared := true, prepares := entry.prepares + {r.id})]),
              Prepares(c, r.id, m.seqNum, m.digest))
  }

  /** The message is about a request this replica has in its log under the same digest. */
  predicate Matches(r: Replica, m: Message) {
    m.seqNum in r.log && r.log[m.seqNum].digest == m.digest
  }

  function OnPrepare(c: Config, r: Replica, m: Message): Outcome
    requires m.Prepare? && c.all != []
  {
    if !Matches(r, m) then Outcome(r, [])
    else
      var old_ := r.log[m.seqNum];
      var entry := old_.(prepares := old_.prepares + {m.src});
      if entry.prePrepared && |entry.prepares| >= 2 * c.F() && m.src !in entry.commits then
        Outcome(r.(log := r.log[m.seqNum := entry.(commits := entry.commits + {r.id})]),
                Commits(c, r.id, m.seqNum, m.digest))
      else
        Outcome(r.(log := r.log[m.seqNum := entry]), [])
  }

  /** Executes an entry unless its number has been executed before. */
  function Applied(r: Replica, s: nat): Replica
    requires s in r.log
  {
    if s in r.applied then r
    else r.(applied := r.applied + {s}, executed := r.executed + [(s, r.log[s].request)])
  }

  function OnCommit(c: Config, r: Replica, m: Message): Outcome
    requires m.Commit? && c.all != []
  {
    if !Matches(r, m) then Outcome(r, [])
    else
      var entry := r.log[m.seqNum].(commits := r.log[m.seqNum].commits + {m.src});
      if |entry.commits| >= 2 * c.F() + 1 && !entry.committed then
        Outcome(Applied(r.(log := r.log[m.seqNum := entry.(committed := true)]), m.seqNum), [])
      else
        Outcome(r.(log := r.log[m.seqNum := entry]), [])
  }

  function OnMessage(c: Config, hash: Hash, r: Replica, m: Message): Outcome
    requires c.all != []
  {
    match m
    case PrePrepare(_, _, _, _, _, _) => OnPrePrepare(c, hash, r, m)
    case Prepare(_, _, _, _, _) => OnPrepare(c, r, m)
    case Commit(_, _, _, _, _) => OnCommit(c, r, m)
  }

  class PbftNode {
    const config: Config
    const hash: Hash
    const id: NodeId
    var seqNum: nat
    var log: map<nat, Entry>
    var applied: set<nat>
    var executed: seq<(nat, Request)>

    ghost function State(): Replica
      reads this
    {
      Replica(id, seqNum, log, applied, executed)
    }

    constructor (config: Config, hash: Hash, id: NodeId)
      ensures this.config == config && this.hash == hash
      ensures State() == Replica(id, 0, map[], {}, [])
    {
      this.config, this.hash, this.id := config, hash, id;
      seqNum, log, applied, executed := 0, map[], {}, [];
    }

    method Submit(request: Request) returns (sent: seq<Message>)
      requires config.all != []
      modifies this
      ensures Outcome(State(), sent) == Submitted(config, hash, old(State()), request)
    {
      sent := [];
      if id != config.Primary() {
        return;
      }
      seqNum := seqNum + 1;
      var digest := hash(request);
      log := log[seqNum := Entry(request, digest, true, {}, {}, false)];
      var peers := config.Peers(id);
      for k := 0 to |peers|
        invariant sent == PrePrepares(config, id, seqNum, digest, request)[..k]
      {
        sent := sent + [PrePrepare(id, peers[k], config.view, seqNum, digest, request)];
      }
    }

    method HandlePrePrepare(m: Message) returns (sent: seq<Message>)
      requires m.PrePrepare? && config.all != []
      modifies this
      ensures Outcome(State(), sent) == OnPrePrepare(config, hash, old(State()), m)
    {
      sent := [];
      if m.view != config.view || m.src != config.Primary() || m.digest != hash(m.request) {
        return;
      }
      if m.seqNum !in log {
        log := log[m.seqNum := Entry(m.request, m.digest, false, {}, {}, false)];
      }
      log := log[m.seqNum := log[m.seqNum].(prePrepared := true)];
      var peers := config.Peers(id);
      for k := 0 to |peers|
        invariant sent == Prepares(config, id, m.seqNum, m.digest)[..k]
      {
        sent := sent + [Prepare(id, peers[k], config.view, m.seqNum, m.digest)];
      }
      log := log[m.seqNum := log[m.seqNum].(prepares := log[m.seqNum].prepares + {id})];
    }

    method HandlePrepare(m: Message) returns (sent: seq<Message>)
      requires m.Prepare? && config.all != []
      modifies this
      ensures Outcome(State(), sent) == OnPrepare(config, old(State()), m)
    {
      sent := [];
      if m.seqNum !in log || log[m.seqNum].digest != m.digest {
        return;
      }
      log := log[m.seqNum := log[m.seqNum].(prepares := log[m.seqNum].prepares + {m.src})];
      var entry := log[m.seqNum];
      if entry.prePrepared && |entry.prepares| >= 2 * config.F() && m.src !in entry.commits {
        var peers := config.Peers(id);
        for k := 0 to |peers|
          invariant sent == Commits(config, id, m.seqNum, m.digest)[..k]
        {
          sent := sent + [Commit(id, peers[k], config.view, m.seqNum, m.digest)];
        }
        log := log[m.seqNum := entry.(commits := entry.commits + {id})];
      }
    }

    method HandleCommit(m: Message)
      requires m.Commit? && config.all != []
      modifies this
      ensures Outcome(State(), []) == OnCommit(config, old(State()), m)
    {
      if m.seqNum !in log || log[m.seqNum].digest != m.digest {
        return;
      }
      log := log[m.seqNum := log[m.seqNum].(commits := log[m.seqNum].commits + {m.src})];
      if |log[m.seqNum].commits| >= 2 * config.F() + 1 && !log[m.seqNum].committed {
        log := log[m.seqNum := log[m.seqNum].(committed := true)];
        Apply(m.seqNum);
      }
    }

    method Apply(s: nat)
      requires s in log
      modifies this
      ensures State() == Applied(old(State()), s)
    {
      if s in applied {
        return;
      }
      applied := applied + {s};
      executed := executed + [(s, log[s].request)];
    }
  }
}
