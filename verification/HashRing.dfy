/** The consistent hash ring: every node sits at several points, and a key walks clockwise from its own hash. */
module HashRing {
  import opened RingOrder
  import opened Options
  import opened Quorums

  type Hash = string -> int

  /** Sorts after every node name whose characters come before it. */
  const SENTINEL := "\U{FF}"

  function Decimal(n: nat): string {
    var digit := "0123456789"[n % 10..n % 10 + 1];
    if n < 10 then digit else Decimal(n / 10) + digit
  }

  function Label(id: Id, i: nat): string {
    id + ":vn" + Decimal(i)
  }

  function PointsOf(hash: Hash, count: nat, id: Id): seq<Point> {
    seq(count, i requires 0 <= i < count => Point(hash(Label(id, i)), id))
  }

  // ---------- membership ----------

  function AllInserted(ring: seq<Point>, points: seq<Point>): seq<Point>
    decreases |points|
  {
    if points == [] then ring else AllInserted(Inserted(ring, points[0]), points[1..])
  }

  /** The ring with one node's points filtered out. */
  function Without(ring: seq<Point>, id: Id): seq<Point> {
    if ring == [] then []
    else
      var rest := Without(ring[1..], id);
      if ring[0].node == id then rest else [ring[0]] + rest
  }

  datatype Change = Add(id: Id) | Remove(id: Id)

  /** The nodes after some changes, made in this order on an empty ring. */
  function Members(changes: seq<Change>): set<Id> {
    if changes == [] then {}
    else
      var before := Members(changes[..|changes| - 1]);
      match changes[|changes| - 1]
      case Add(id) => before + {id}
      case Remove(id) => before - {id}
  }

  /** What a change does to the points, given the nodes before it. */
  function RingChanged(hash: Hash, count: nat, nodes: set<Id>, ring: seq<Point>, change: Change): seq<Point> {
    match change
    case Add(id) => if id in nodes then ring else AllInserted(ring, PointsOf(hash, count, id))
    case Remove(id) => if id in nodes then Without(ring, id) else ring
  }

  function RingAfter(hash: Hash, count: nat, changes: seq<Change>): seq<Point> {
    if changes == [] then []
    else
      var before := changes[..|changes| - 1];
      RingChanged(hash, count, Members(before), RingAfter(hash, count, before), changes[|changes| - 1])
  }

  /** Sorted, and exactly the points of these nodes, each as often as the node has it. */
  ghost predicate IsRing(hash: Hash, count: nat, nodes: set<Id>, ring: seq<Point>) {
    && Sorted(ring)
    && forall p :: multiset(ring)[p] == if p.node in nodes then multiset(PointsOf(hash, count, p.node))[p] else 0
  }

  lemma {:induction false} AllInsertedIs(ring: seq<Point>, points: seq<Point>)
    requires Sorted(ring)
    ensures Sorted(AllInserted(ring, points)) && multiset(AllInserted(ring, points)) == multiset(ring) + multiset(points)
    decreases |points|
  {
    if points != [] {
      InsertedIs(ring, points[0]);
      AllInsertedIs(Inserted(ring, points[0]), points[1..]);
      assert points == [points[0]] + points[1..];
    }
  }

  lemma {:induction false} WithoutCounts(ring: seq<Point>, id: Id, p: Point)
    ensures multiset(Without(ring, id))[p] == if p.node == id then 0 else multiset(ring)[p]
  {
    if ring != [] {
      WithoutCounts(ring[1..], id, p);
      MultisetOfTail(ring);
      assert ring[0] in multiset(ring);
    }
  }

  lemma WithoutKeeps(ring: seq<Point>, id: Id, p: Point)
    ensures p in Without(ring, id) <==> p in ring && p.node != id
  {
  }

  lemma {:induction false} WithoutIsSorted(ring: seq<Point>, id: Id)
    requires Sorted(ring)
    ensures Sorted(Without(ring, id))
  {
    hide Before;
    if ring != [] {
      WithoutIsSorted(ring[1..], id);
      var rest := Without(ring[1..], id);
      forall j | 0 <= j < |rest| ensures !Before(rest[j], ring[0]) {
        WithoutKeeps(ring[1..], id, rest[j]);
      }
    }
  }

  lemma NoOtherPoints(hash: Hash, count: nat, id: Id, p: Point)
    requires p.node != id
    ensures multiset(PointsOf(hash, count, id))[p] == 0
  {
  }

  lemma ChangeKeepsRing(hash: Hash, count: nat, nodes: set<Id>, ring: seq<Point>, change: Change)
    requires IsRing(hash, count, nodes, ring)
    ensures IsRing(hash, count, if change.Add? then nodes + {change.id} else nodes - {change.id},
                   RingChanged(hash, count, nodes, ring, change))
  {
    hide PointsOf;
    match change {
      case Add(id) =>
        if id !in nodes {
          AllInsertedIs(ring, PointsOf(hash, count, id));
          forall p: Point | p.node != id ensures multiset(PointsOf(hash, count, id))[p] == 0 {
            NoOtherPoints(hash, count, id, p);
          }
        } else {
          assert nodes + {id} == nodes;
        }
      case Remove(id) =>
        WithoutIsSorted(ring, id);
        forall p ensures multiset(Without(ring, id))[p] == if p.node == id then 0 else multiset(ring)[p] {
          WithoutCounts(ring, id, p);
        }
        if id !in nodes {
          assert nodes - {id} == nodes;
        }
    }
  }

  lemma {:induction false} RingAfterIs(hash: Hash, count: nat, changes: seq<Change>)
    ensures IsRing(hash, count, Members(changes), RingAfter(hash, count, changes))
    decreases |changes|
  {
    hide RingChanged;
    if changes != [] {
      var before := changes[..|changes| - 1];
      RingAfterIs(hash, count, before);
      ChangeKeepsRing(hash, count, Members(before), RingAfter(hash, count, before), changes[|changes| - 1]);
    }
  }

  lemma SameNodesSameRing(hash: Hash, count: nat, nodes: set<Id>, a: seq<Point>, b: seq<Point>)
    requires IsRing(hash, count, nodes, a) && IsRing(hash, count, nodes, b)
    ensures a == b
  {
    assert forall p :: multiset(a)[p] == multiset(b)[p];
    assert multiset(a) == multiset(b);
    SortedIsUnique(a, b);
  }

  /** Placement is a function of membership: the history of the ring does not matter. */
  lemma PlacementIsMembership(hash: Hash, count: nat, one: seq<Change>, other: seq<Change>)
    requires Members(one) == Members(other)
    ensures RingAfter(hash, count, one) == RingAfter(hash, count, other)
  {
    RingAfterIs(hash, count, one);
    RingAfterIs(hash, count, other);
    SameNodesSameRing(hash, count, Members(one), RingAfter(hash, count, one), RingAfter(hash, count, other));
  }

  // ---------- the walk ----------

  function Ids(ring: seq<Point>): (ids: seq<Id>)
    ensures |ids| == |ring|
  {
    seq(|ring|, i requires 0 <= i < |ring| => ring[i].node)
  }

  /** Where a key with this hash enters the ring. */
  function Start(ring: seq<Point>, h: int): nat {
    UpperBound(ring, Point(h, SENTINEL))
  }

  /** All points, in the order a key with this hash meets them. */
  function Clockwise(ring: seq<Point>, h: int): seq<Point> {
    ring[Start(ring, h)..] + ring[..Start(ring, h)]
  }

  /** Every name once, where it first appears. */
  function Distinct(ids: seq<Id>): seq<Id> {
    if ids == [] then []
    else
      var d := Distinct(ids[..|ids| - 1]);
      if ids[|ids| - 1] in d then d else d + [ids[|ids| - 1]]
  }

  lemma {:induction false} DistinctIs(ids: seq<Id>)
    ensures forall x :: x in Distinct(ids) <==> x in ids
    ensures forall i, j | 0 <= i < j < |Distinct(ids)| :: Distinct(ids)[i] != Distinct(ids)[j]
  {
    if ids != [] {
      DistinctIs(ids[..|ids| - 1]);
      assert ids == ids[..|ids| - 1] + [ids[|ids| - 1]];
    }
  }

  function Take<T>(s: seq<T>, n: int): seq<T> {
    if n <= 0 then [] else if n <= |s| then s[..n] else s
  }

  /** The nodes responsible for a key with this hash: the primary, then the replicas. */
  function Replicas(ring: seq<Point>, h: int, n: int): seq<Id> {
    Take(Distinct(Ids(Clockwise(ring, h))), n)
  }

  /** The first node a key with this hash meets. */
  function Primary(ring: seq<Point>, h: int): Option<Id> {
    if ring == [] then None else Some(Clockwise(ring, h)[0].node)
  }

  lemma PointsAreOfNodes(hash: Hash, count: nat, nodes: set<Id>, ring: seq<Point>, p: Point)
    requires IsRing(hash, count, nodes, ring) && p in ring
    ensures p.node in nodes && count > 0
  {
  }

  lemma NodesHavePoints(hash: Hash, count: nat, nodes: set<Id>, ring: seq<Point>, x: Id)
    requires IsRing(hash, count, nodes, ring) && count > 0 && x in nodes
    ensures exists i :: 0 <= i < |ring| && ring[i].node == x
  {
    var p := PointsOf(hash, count, x)[0];
    assert p in PointsOf(hash, count, x);
    assert p in multiset(ring);
  }

  /** Every node of the ring is met, and nobody else. */
  lemma ClockwiseMeets(hash: Hash, count: nat, nodes: set<Id>, ring: seq<Point>, h: int, x: Id)
    requires IsRing(hash, count, nodes, ring) && ring != []
    ensures x in Ids(Clockwise(ring, h)) <==> x in nodes
  {
    hide IsRing, PointsOf, UpperBound;
    var around, k := Clockwise(ring, h), Start(ring, h);
    PointsAreOfNodes(hash, count, nodes, ring, ring[0]);
    if x in nodes {
      NodesHavePoints(hash, count, nodes, ring, x);
      var i :| 0 <= i < |ring| && ring[i].node == x;
      var j := if i < k then i + (|ring| - k) else i - k;
      assert around[j] == ring[i] && Ids(around)[j] == x;
    }
    if x in Ids(around) {
      var j :| 0 <= j < |around| && around[j].node == x;
      var i := if j < |ring| - k then j + k else j - (|ring| - k);
      assert around[j] == ring[i];
      PointsAreOfNodes(hash, count, nodes, ring, ring[i]);
    }
  }

  lemma {:induction false} DistinctPrefix(ids: seq<Id>, k: nat)
    requires k <= |ids|
    ensures |Distinct(ids[..k])| <= |Distinct(ids)| && Distinct(ids[..k]) == Distinct(ids)[..|Distinct(ids[..k])|]
    decreases |ids|
  {
    if k < |ids| {
      var front := ids[..|ids| - 1];
      DistinctPrefix(front, k);
      assert front[..k] == ids[..k];
    } else {
      assert ids[..k] == ids;
    }
  }

  lemma DistinctStep(ids: seq<Id>, k: nat)
    requires k < |ids|
    ensures Distinct(ids[..k + 1]) == if ids[k] in Distinct(ids[..k]) then Distinct(ids[..k]) else Distinct(ids[..k]) + [ids[k]]
  {
    assert ids[..k + 1][..k] == ids[..k];
  }

  /** Once every node has been met, walking on adds nothing. */
  lemma DistinctComplete(ids: seq<Id>, k: nat, nodes: set<Id>)
    requires k <= |ids| && (forall x :: x in ids <==> x in nodes) && |Distinct(ids[..k])| >= |nodes|
    ensures Distinct(ids[..k]) == Distinct(ids)
  {
    DistinctPrefix(ids, k);
    DistinctIs(ids);
    DistinctSize(Distinct(ids), nodes);
  }

  class ConsistentHashRing {
    const hash: Hash
    const virtualNodes: nat
    var ring: seq<Point>
    var nodes: set<Id>

    ghost predicate Valid()
      reads this
    {
      IsRing(hash, virtualNodes, nodes, ring)
    }

    constructor (hash: Hash, virtualNodes: nat)
      ensures Valid() && this.hash == hash && this.virtualNodes == virtualNodes
      ensures nodes == {} && ring == []
    {
      this.hash, this.virtualNodes := hash, virtualNodes;
      ring, nodes := [], {};
    }

    method AddNode(id: Id)
      requires Valid()
      modifies this
      ensures Valid() && nodes == old(nodes) + {id}
      ensures ring == RingChanged(hash, virtualNodes, old(nodes), old(ring), Add(id))
    {
      hide IsRing, PointsOf;
      ChangeKeepsRing(hash, virtualNodes, nodes, ring, Add(id));
      if id in nodes {
        assert nodes + {id} == nodes;
        return;
      }
      RingIsSorted();
      nodes := nodes + {id};
      ghost var points := PointsOf(hash, virtualNodes, id);
      PointsOfAt(hash, virtualNodes, id);
      var i := 0;
      while i < virtualNodes
        invariant i <= virtualNodes && |points| == virtualNodes && nodes == old(nodes) + {id}
        invariant Sorted(ring) && AllInserted(ring, points[i..]) == AllInserted(old(ring), points)
      {
        var p := Point(hash(Label(id, i)), id);
        var k := BisectRight(ring, p);
        InsertedIs(ring, p);
        assert points[i..][0] == p && points[i..][1..] == points[i + 1..];
        ring := ring[..k] + [p] + ring[k..];
        i := i + 1;
      }
    }

    lemma RingIsSorted()
      requires Valid()
      ensures Sorted(ring)
    {
    }

    method RemoveNode(id: Id)
      requires Valid()
      modifies this
      ensures Valid() && nodes == old(nodes) - {id}
      ensures ring == RingChanged(hash, virtualNodes, old(nodes), old(ring), Remove(id))
    {
      ChangeKeepsRing(hash, virtualNodes, nodes, ring, Remove(id));
      if id !in nodes {
        assert nodes - {id} == nodes;
        return;
      }
      nodes := nodes - {id};
      ring := Without(ring, id);
    }

    method GetNode(key: string) returns (node: Option<Id>)
      requires Valid()
      ensures node == Primary(ring, hash(key))
    {
      if ring == [] {
        return None;
      }
      var k := BisectRight(ring, Point(hash(key), SENTINEL));
      if k == |ring| {
        k := 0;
      }
      return Some(ring[k].node);
    }

    method GetNNodes(key: string, n: int) returns (result: seq<Id>)
      requires Valid()
      ensures result == Replicas(ring, hash(key), n)
    {
      hide IsRing, Clockwise, Ids, Distinct, Take, UpperBound, Before, Walked;
      result := [];
      if ring == [] {
        NoReplicas(hash(key), n);
        return;
      }
      RingIsSorted();
      var k := BisectRight(ring, Point(hash(key), SENTINEL));
      ghost var ids := Ids(Clockwise(ring, hash(key)));
      ClockwiseAt(ring, hash(key), 0);
      forall x ensures x in ids <==> x in nodes {
        ClockwiseMeets(hash, virtualNodes, nodes, ring, hash(key), x);
      }
      var seen: set<Id> := {};
      var i := k;
      ghost var steps := 0;
      WalkBegins(ids);
      while |result| < n && |seen| < |nodes|
        invariant steps <= |ring| == |ids| && Walked(ids, steps, result, seen)
        invariant if k + steps <= |ring| then i == k + steps else i == k + steps - |ring|
        invariant steps == |ring| ==> k == 0
        invariant |result| <= if n < 0 then 0 else n
        decreases |ring| - steps
      {
        if steps == |ring| {
          FullTurn(ids, result, seen, nodes);
        }
        if i >= |ring| {
          i := 0;
        }
        ClockwiseAt(ring, hash(key), steps);
        var id := ring[i].node;
        WalkedStep(ids, steps, result, seen);
        if id !in seen {
          seen := seen + {id};
          result := result + [id];
        }
        i := i + 1;
        steps := steps + 1;
        if i == k && result != [] {
          break;
        }
      }
      WalkDone(ids, steps, result, seen, nodes, n);
    }
  }

  /** What the walk has found after some steps: the distinct names so far, also kept as a set. */
  ghost predicate Walked(ids: seq<Id>, steps: nat, result: seq<Id>, seen: set<Id>) {
    steps <= |ids| && result == Distinct(ids[..steps]) && (forall x :: x in result <==> x in seen) && |result| == |seen|
  }

  lemma NoReplicas(h: int, n: int)
    ensures Replicas([], h, n) == []
  {
  }

  lemma WalkBegins(ids: seq<Id>)
    ensures Walked(ids, 0, [], {})
  {
  }

  lemma WalkedStep(ids: seq<Id>, steps: nat, result: seq<Id>, seen: set<Id>)
    requires Walked(ids, steps, result, seen) && steps < |ids|
    ensures ids[steps] in seen ==> Walked(ids, steps + 1, result, seen)
    ensures ids[steps] !in seen ==> Walked(ids, steps + 1, result + [ids[steps]], seen + {ids[steps]})
  {
    DistinctStep(ids, steps);
  }

  /** The walk may stop with n nodes, with all nodes, or after one full turn. */
  lemma WalkDone(ids: seq<Id>, steps: nat, result: seq<Id>, seen: set<Id>, nodes: set<Id>, n: int)
    requires Walked(ids, steps, result, seen) && (forall x :: x in ids <==> x in nodes) && |result| <= (if n < 0 then 0 else n)
    requires steps == |ids| || |result| >= n || |seen| >= |nodes|
    ensures result == Take(Distinct(ids), n)
  {
    DistinctPrefix(ids, steps);
    if steps == |ids| {
      assert ids[..steps] == ids;
    } else if |result| < n {
      DistinctComplete(ids, steps, nodes);
    }
  }

  /** After one full turn every node has been seen. */
  lemma FullTurn(ids: seq<Id>, result: seq<Id>, seen: set<Id>, nodes: set<Id>)
    requires Walked(ids, |ids|, result, seen) && (forall x :: x in ids <==> x in nodes)
    ensures |seen| == |nodes|
  {
    assert ids[..|ids|] == ids;
    DistinctIs(ids);
    DistinctSize(Distinct(ids), nodes);
  }

  lemma PointsOfAt(hash: Hash, count: nat, id: Id)
    ensures |PointsOf(hash, count, id)| == count
    ensures forall i | 0 <= i < count :: PointsOf(hash, count, id)[i] == Point(hash(Label(id, i)), id)
    ensures PointsOf(hash, count, id)[0..] == PointsOf(hash, count, id) && PointsOf(hash, count, id)[count..] == []
  {
  }

  lemma ClockwiseAt(ring: seq<Point>, h: int, steps: nat)
    requires steps < |ring|
    ensures var k := Start(ring, h);
            && |Ids(Clockwise(ring, h))| == |ring|
            && Ids(Clockwise(ring, h))[steps] == ring[if k + steps < |ring| then k + steps else k + steps - |ring|].node
  {
  }
}
