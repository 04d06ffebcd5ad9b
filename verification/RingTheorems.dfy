/** What the ring promises: the replica walk, and how little of it changes with the membership. */
module RingTheorems {
  import opened Options
  import opened Quorums
  import opened RingOrder
  import opened HashRing

  // ---------- names under removal ----------

  function Drop(ids: seq<Id>, b: Id): seq<Id> {
    if ids == [] then []
    else
      var d := Drop(ids[..|ids| - 1], b);
      if ids[|ids| - 1] == b then d else d + [ids[|ids| - 1]]
  }

  lemma {:induction false} DropMembers(ids: seq<Id>, b: Id, x: Id)
    ensures x in Drop(ids, b) <==> x in ids && x != b
  {
    if ids != [] {
      DropMembers(ids[..|ids| - 1], b, x);
      assert ids == ids[..|ids| - 1] + [ids[|ids| - 1]];
    }
  }

  lemma {:induction false} DropOfConcat(a: seq<Id>, c: seq<Id>, b: Id)
    ensures Drop(a + c, b) == Drop(a, b) + Drop(c, b)
  {
    if c == [] {
      assert a + c == a;
    } else {
      DropOfConcat(a, c[..|c| - 1], b);
      assert (a + c)[..|a + c| - 1] == a + c[..|c| - 1];
    }
  }

  lemma {:induction false} NothingToDrop(ids: seq<Id>, b: Id)
    requires b !in ids
    ensures Drop(ids, b) == ids
  {
    if ids != [] {
      NothingToDrop(ids[..|ids| - 1], b);
      assert ids == ids[..|ids| - 1] + [ids[|ids| - 1]];
    }
  }

  /** Dropping a name first or last makes no difference to the distinct names. */
  lemma {:induction false} DistinctOfDrop(ids: seq<Id>, b: Id)
    ensures Distinct(Drop(ids, b)) == Drop(Distinct(ids), b)
  {
    if ids != [] {
      var front, last := ids[..|ids| - 1], ids[|ids| - 1];
      DistinctOfDrop(front, b);
      DropMembers(Distinct(front), b, last);
      var kept := Drop(front, b);
      assert (kept + [last])[..|kept|] == kept;
      assert (Distinct(front) + [last])[..|Distinct(front)|] == Distinct(front);
    }
  }

  lemma {:induction false} DropOfPoints(ring: seq<Point>, b: Id)
    ensures Ids(Without(ring, b)) == Drop(Ids(ring), b)
  {
    if ring != [] {
      DropOfPoints(ring[1..], b);
      assert Ids(ring) == [ring[0].node] + Ids(ring[1..]);
      assert [ring[0].node][..0] == [];
      DropOfConcat([ring[0].node], Ids(ring[1..]), b);
    }
  }

  lemma {:induction false} WithoutOfConcat(a: seq<Point>, c: seq<Point>, b: Id)
    ensures Without(a + c, b) == Without(a, b) + Without(c, b)
  {
    if a == [] {
      assert a + c == c;
    } else {
      WithoutOfConcat(a[1..], c, b);
      assert (a + c)[1..] == a[1..] + c;
    }
  }

  lemma WithoutBefore(ring: seq<Point>, b: Id, p: Point)
    ensures (forall q | q in ring :: Before(p, q)) ==> forall i | 0 <= i < |Without(ring, b)| :: Before(p, Without(ring, b)[i])
    ensures (forall q | q in ring :: !Before(p, q)) ==> forall i | 0 <= i < |Without(ring, b)| :: !Before(p, Without(ring, b)[i])
  {
  }

  /** Without a node the key enters the ring just where it did, counting only what is left. */
  lemma StartOfWithout(ring: seq<Point>, h: int, b: Id)
    requires Sorted(ring)
    ensures var k := Start(ring, h);
            && Without(ring, b) == Without(ring[..k], b) + Without(ring[k..], b)
            && Start(Without(ring, b), h) == |Without(ring[..k], b)|
  {
    hide Before, Without;
    var p, k := Point(h, SENTINEL), Start(ring, h);
    assert ring == ring[..k] + ring[k..];
    WithoutOfConcat(ring[..k], ring[k..], b);
    forall i | k <= i < |ring| ensures Before(p, ring[i]) {
      AfterUpperBound(ring, p, i);
    }
    WithoutBefore(ring[..k], b, p);
    WithoutBefore(ring[k..], b, p);
    UpperBoundOfSplit(Without(ring[..k], b), Without(ring[k..], b), p);
  }

  /** Taking a node out of the ring takes it out of every key's walk and leaves the rest in place. */
  lemma ClockwiseOfWithout(ring: seq<Point>, h: int, b: Id)
    requires Sorted(ring)
    ensures Clockwise(Without(ring, b), h) == Without(Clockwise(ring, h), b)
  {
    hide Sorted, Without, UpperBound;
    var k := Start(ring, h);
    StartOfWithout(ring, h, b);
    WithoutOfConcat(ring[k..], ring[..k], b);
  }

  lemma DropFromDistinct(d: seq<Id>, b: Id, n: nat)
    requires forall i, j | 0 <= i < j < |d| :: d[i] != d[j]
    ensures Take(Drop(d, b), n) == Take(Drop(Take(d, n + 1), b), n)
  {
    hide Drop;
    var first := Take(d, n + 1);
    if i :| 0 <= i < |d| && d[i] == b {
      DropAt(d, b, i);
      if i <= n {
        DropAt(first, b, i);
      } else {
        NothingToDrop(first, b);
      }
    } else {
      NothingToDrop(d, b);
      NothingToDrop(first, b);
    }
  }

  /** Dropping the one occurrence of a name. */
  lemma DropAt(d: seq<Id>, b: Id, i: nat)
    requires i < |d| && d[i] == b && forall j | 0 <= j < |d| && j != i :: d[j] != b
    ensures Drop(d, b) == d[..i] + d[i + 1..]
  {
    assert d == d[..i] + ([b] + d[i + 1..]);
    DropOfConcat(d[..i], [b] + d[i + 1..], b);
    DropOfConcat([b], d[i + 1..], b);
    assert [b][..0] == [];
    NothingToDrop(d[..i], b);
    NothingToDrop(d[i + 1..], b);
  }

  // ---------- the theorems ----------

  /** The walk finds min(n, number of nodes) nodes of the ring, all different, the primary first. */
  lemma ReplicasAre(hash: Hash, count: nat, nodes: set<Id>, ring: seq<Point>, h: int, n: int)
    requires IsRing(hash, count, nodes, ring) && count > 0
    ensures var r := Replicas(ring, h, n);
            && |r| == (if n < 0 then 0 else if n < |nodes| then n else |nodes|)
            && (forall i | 0 <= i < |r| :: r[i] in nodes)
            && (forall i, j | 0 <= i < j < |r| :: r[i] != r[j])
            && (r != [] ==> Primary(ring, h) == Some(r[0]))
            && (n >= |nodes| ==> forall x :: x in r <==> x in nodes)
  {
    hide PointsOf, UpperBound;
    var ids := Ids(Clockwise(ring, h));
    forall x ensures x in ids <==> x in nodes {
      if ring == [] {
        if x in nodes {
          NodesHavePoints(hash, count, nodes, ring, x);
        }
      } else {
        ClockwiseMeets(hash, count, nodes, ring, h, x);
      }
    }
    hide IsRing;
    DistinctIs(ids);
    DistinctSize(Distinct(ids), nodes);
    if ids != [] {
      DistinctPrefix(ids, 1);
      assert ids[..1] == [ids[0]];
      assert Distinct([ids[0]]) == [ids[0]];
    }
  }

  /**
   * Minimal disruption: without node b a key's n nodes are its n + 1 nodes of before
   * with b struck out, cut to n.
   */
  lemma RemovalDisruptsOnlyItsKeys(hash: Hash, count: nat, nodes: set<Id>, ring: seq<Point>, h: int, n: nat, b: Id)
    requires IsRing(hash, count, nodes, ring)
    ensures Replicas(RingChanged(hash, count, nodes, ring, Remove(b)), h, n) == Take(Drop(Replicas(ring, h, n + 1), b), n)
  {
    hide PointsOf, Without, Drop, Distinct, Ids;
    var ids := Ids(Clockwise(ring, h));
    DistinctIs(ids);
    DropFromDistinct(Distinct(ids), b, n);
    if b in nodes {
      ClockwiseOfWithout(ring, h, b);
      DropOfPoints(Clockwise(ring, h), b);
      DistinctOfDrop(ids, b);
    } else {
      NamesAreNodes(hash, count, nodes, ring, h, b);
      NothingToDrop(Distinct(ids), b);
    }
  }

  lemma NamesAreNodes(hash: Hash, count: nat, nodes: set<Id>, ring: seq<Point>, h: int, b: Id)
    requires IsRing(hash, count, nodes, ring) && b !in nodes
    ensures b !in Ids(Clockwise(ring, h))
  {
  }

  /** Adding a node and taking it out again gives the ring of before. */
  lemma AdditionUndone(hash: Hash, count: nat, nodes: set<Id>, ring: seq<Point>, x: Id)
    requires IsRing(hash, count, nodes, ring) && x !in nodes
    ensures var bigger := RingChanged(hash, count, nodes, ring, Add(x));
            && IsRing(hash, count, nodes + {x}, bigger)
            && RingChanged(hash, count, nodes + {x}, bigger, Remove(x)) == ring
  {
    hide IsRing, RingChanged;
    var bigger := RingChanged(hash, count, nodes, ring, Add(x));
    ChangeKeepsRing(hash, count, nodes, ring, Add(x));
    ChangeKeepsRing(hash, count, nodes + {x}, bigger, Remove(x));
    assert nodes + {x} - {x} == nodes;
    SameNodesSameRing(hash, count, nodes, ring, RingChanged(hash, count, nodes + {x}, bigger, Remove(x)));
  }

  /** A new node takes keys over and nothing else: every replica list without it is a piece of the old one. */
  lemma AdditionMovesKeysOnlyToIt(hash: Hash, count: nat, nodes: set<Id>, ring: seq<Point>, h: int, n: nat, x: Id)
    requires IsRing(hash, count, nodes, ring) && x !in nodes
    ensures var bigger := RingChanged(hash, count, nodes, ring, Add(x));
            && Replicas(ring, h, n) == Take(Drop(Replicas(bigger, h, n + 1), x), n)
            && (Primary(bigger, h) == Primary(ring, h) || Primary(bigger, h) == Some(x))
  {
    hide IsRing, RingChanged, Clockwise;
    var bigger := RingChanged(hash, count, nodes, ring, Add(x));
    AdditionUndone(hash, count, nodes, ring, x);
    RemovalDisruptsOnlyItsKeys(hash, count, nodes + {x}, bigger, h, n, x);
    PrimaryWithout(hash, count, nodes + {x}, bigger, h, x);
  }

  lemma PrimaryWithout(hash: Hash, count: nat, nodes: set<Id>, ring: seq<Point>, h: int, x: Id)
    requires IsRing(hash, count, nodes, ring) && x in nodes
    ensures Primary(ring, h) == Primary(RingChanged(hash, count, nodes, ring, Remove(x)), h) || Primary(ring, h) == Some(x)
  {
    ClockwiseOfWithout(ring, h, x);
  }

  // ---------- first appearance ----------

  function FirstAt(ids: seq<Id>, x: Id): nat {
    if ids == [] || ids[0] == x then 0 else 1 + FirstAt(ids[1..], x)
  }

  lemma {:induction false} FirstAtIs(ids: seq<Id>, x: Id)
    requires x in ids
    ensures FirstAt(ids, x) < |ids| && ids[FirstAt(ids, x)] == x && x !in ids[..FirstAt(ids, x)]
  {
    if ids[0] != x {
      FirstAtIs(ids[1..], x);
    }
  }

  lemma {:induction false} FirstAtInFront(front: seq<Id>, last: Id, x: Id)
    requires x in front + [last]
    ensures x in front ==> FirstAt(front + [last], x) == FirstAt(front, x)
    ensures x !in front ==> FirstAt(front + [last], x) == |front|
  {
    if front != [] && front[0] != x {
      assert (front + [last])[1..] == front[1..] + [last];
      FirstAtInFront(front[1..], last, x);
    }
  }

  /** The distinct names stand in the order in which they first appear on the ring. */
  lemma {:induction false} DistinctInOrder(ids: seq<Id>, i: nat, j: nat)
    requires i < j < |Distinct(ids)|
    ensures FirstAt(ids, Distinct(ids)[i]) < FirstAt(ids, Distinct(ids)[j])
    decreases |ids|
  {
    var front, last := ids[..|ids| - 1], ids[|ids| - 1];
    var d := Distinct(front);
    assert ids == front + [last];
    DistinctIs(front);
    FirstAtInFront(front, last, Distinct(ids)[i]);
    FirstAtInFront(front, last, Distinct(ids)[j]);
    assert Distinct(ids)[i] == d[i];
    if j < |d| {
      DistinctInOrder(front, i, j);
    } else {
      FirstAtIs(front, d[i]);
    }
  }

  /** With every name below the sentinel a key enters the ring at the first point with a larger hash. */
  lemma StartIsFirstLargerHash(ring: seq<Point>, h: int, i: nat)
    requires Sorted(ring) && i < |ring| && Less(ring[i].node, SENTINEL)
    ensures ring[i].hash > h <==> i >= Start(ring, h)
  {
  }

  // ---------- the nodes of the queue service ----------

  /** A queue node adds its peers and then itself, in the order it happens to know them. */
  function Joining(order: seq<Id>): (changes: seq<Change>)
    ensures |changes| == |order|
  {
    seq(|order|, i requires 0 <= i < |order| => Add(order[i]))
  }

  lemma {:induction false} MembersJoining(order: seq<Id>)
    ensures Members(Joining(order)) == set x | x in order
  {
    if order != [] {
      var front := order[..|order| - 1];
      MembersJoining(front);
      assert Joining(order)[..|order| - 1] == Joining(front);
      assert order == front + [order[|order| - 1]];
    }
  }

  /** Nodes that know the same cluster agree on the primary and the replicas of every key. */
  lemma NodesAgreeOnPlacement(hash: Hash, count: nat, mine: seq<Id>, yours: seq<Id>, h: int, n: int)
    requires forall x :: x in mine <==> x in yours
    ensures var a, b := RingAfter(hash, count, Joining(mine)), RingAfter(hash, count, Joining(yours));
            Primary(a, h) == Primary(b, h) && Replicas(a, h, n) == Replicas(b, h, n)
  {
    MembersJoining(mine);
    MembersJoining(yours);
    PlacementIsMembership(hash, count, Joining(mine), Joining(yours));
  }

  // ---------- where the points are ----------

  /** The number a string of decimal digits stands for. */
  function Numeral(s: string): int {
    if s == [] then 0 else 10 * Numeral(s[..|s| - 1]) + DigitOf(s[|s| - 1])
  }

  function DigitOf(c: char): int {
    c as int - '0' as int
  }

  lemma DigitIs(d: nat)
    requires d < 10
    ensures DigitOf("0123456789"[d]) == d
  {
  }

  lemma DecimalStep(n: nat)
    ensures Decimal(n) == (if n < 10 then [] else Decimal(n / 10)) + ["0123456789"[n % 10]]
  {
    assert "0123456789"[n % 10..n % 10 + 1] == ["0123456789"[n % 10]];
  }

  lemma NumeralStep(front: string, c: char)
    ensures Numeral(front + [c]) == 10 * Numeral(front) + DigitOf(c)
  {
    assert (front + [c])[..|front|] == front;
  }

  lemma {:induction false} DecimalStandsFor(n: nat)
    ensures Numeral(Decimal(n)) == n
    decreases n
  {
    hide Decimal, Numeral, DigitOf;
    DecimalStep(n);
    DigitIs(n % 10);
    if n >= 10 {
      DecimalStandsFor(n / 10);
      NumeralStep(Decimal(n / 10), "0123456789"[n % 10]);
    } else {
      NumeralStep([], "0123456789"[n % 10]);
      NothingIsZero();
    }
  }

  lemma NothingIsZero()
    ensures Numeral([]) == 0
  {
  }

  predicate AtVirtualNode(hash: Hash, count: nat, p: Point, k: nat) {
    k < count && p.hash == hash(p.node + ":vn" + Decimal(k))
  }

  lemma PointsOfHas(hash: Hash, count: nat, p: Point)
    ensures p in PointsOf(hash, count, p.node) <==> exists k: nat :: AtVirtualNode(hash, count, p, k)
  {
    hide Decimal, PointsOf;
    var points := PointsOf(hash, count, p.node);
    PointsOfAt(hash, count, p.node);
    if k: nat :| AtVirtualNode(hash, count, p, k) {
      assert points[k] == p;
    }
    if p in points {
      var k: nat :| k < |points| && points[k] == p;
      assert AtVirtualNode(hash, count, p, k);
    }
  }

  /** A ring has a point for every virtual node of every node, at the hash of the node's name with that virtual node's own number, and no other. */
  lemma PointsAreVirtualNodes(hash: Hash, count: nat, nodes: set<Id>, ring: seq<Point>, p: Point, i: nat, j: nat)
    requires IsRing(hash, count, nodes, ring)
    ensures p in ring <==> p.node in nodes && exists k: nat :: AtVirtualNode(hash, count, p, k)
    ensures Decimal(i) == Decimal(j) ==> i == j
  {
    hide Decimal, Sorted, PointsOf, AtVirtualNode;
    DecimalStandsFor(i);
    DecimalStandsFor(j);
    assert p in ring <==> multiset(ring)[p] > 0;
    PointsOfHas(hash, count, p);
    assert p in PointsOf(hash, count, p.node) <==> multiset(PointsOf(hash, count, p.node))[p] > 0;
  }
}
