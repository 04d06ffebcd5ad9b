/** The order in which a hash ring keeps its points: by hash, then by node name as strings compare. */
module RingOrder {
  type Id = string

  datatype Point = Point(hash: int, node: Id)

  /** Character by character; a proper prefix comes first. */
  predicate Less(a: string, b: string) {
    b != [] && (a == [] || a[0] < b[0] || (a[0] == b[0] && Less(a[1..], b[1..])))
  }

  lemma {:induction false} LessIsTotal(a: string, b: string)
    ensures Less(a, b) || a == b || Less(b, a)
    ensures !(Less(a, b) && Less(b, a)) && !Less(a, a)
  {
    if a != [] && b != [] {
      LessIsTotal(a[1..], b[1..]);
      LessIsTotal(a[1..], a[1..]);
      assert a == [a[0]] + a[1..] && b == [b[0]] + b[1..];
    } else if a != [] {
      LessIsTotal(a[1..], a[1..]);
    }
  }

  lemma {:induction false} LessIsTransitive(a: string, b: string, c: string)
    requires Less(a, b) && Less(b, c)
    ensures Less(a, c)
  {
    if a != [] && a[0] == b[0] == c[0] {
      LessIsTransitive(a[1..], b[1..], c[1..]);
    }
  }

  predicate Before(p: Point, q: Point) {
    p.hash < q.hash || (p.hash == q.hash && Less(p.node, q.node))
  }

  lemma BeforeIsTotal(p: Point, q: Point)
    ensures Before(p, q) || p == q || Before(q, p)
    ensures !(Before(p, q) && Before(q, p)) && !Before(p, p)
  {
    LessIsTotal(p.node, q.node);
    LessIsTotal(p.node, p.node);
  }

  lemma BeforeIsTransitive(p: Point, q: Point, r: Point)
    requires Before(p, q) && !Before(r, q)
    ensures Before(p, r)
  {
    BeforeIsTotal(q, r);
    if p.hash == q.hash == r.hash && q != r {
      LessIsTransitive(p.node, q.node, r.node);
    }
  }

  predicate Sorted(ring: seq<Point>) {
    forall i, j | 0 <= i < j < |ring| :: !Before(ring[j], ring[i])
  }

  /** Nothing in a sorted ring comes before its first point. */
  lemma FirstIsLeast(ring: seq<Point>, p: Point)
    requires Sorted(ring) && p in ring
    ensures !Before(p, ring[0])
  {
    BeforeIsTotal(p, p);
  }

  lemma MultisetOfTail(s: seq<Point>)
    requires s != []
    ensures multiset(s[1..]) == multiset(s) - multiset{s[0]}
  {
    assert s == [s[0]] + s[1..];
  }

  /** A sorted ring is determined by which points it has, and how often. */
  lemma {:induction false} SortedIsUnique(a: seq<Point>, b: seq<Point>)
    requires Sorted(a) && Sorted(b) && multiset(a) == multiset(b)
    ensures a == b
  {
    hide Before;
    assert |a| == |multiset(a)| == |multiset(b)| == |b|;
    if a != [] {
      assert a[0] in multiset(b) && b[0] in multiset(a);
      FirstIsLeast(a, b[0]);
      FirstIsLeast(b, a[0]);
      BeforeIsTotal(a[0], b[0]);
      MultisetOfTail(a);
      MultisetOfTail(b);
      SortedIsUnique(a[1..], b[1..]);
      assert a == [a[0]] + a[1..] && b == [b[0]] + b[1..];
    }
  }

  // ---------- where a point goes ----------

  /** The index of the first point after p. */
  function UpperBound(ring: seq<Point>, p: Point): (k: nat)
    ensures k <= |ring|
    ensures forall i | 0 <= i < k :: !Before(p, ring[i])
    ensures k < |ring| ==> Before(p, ring[k])
  {
    if ring == [] || Before(p, ring[0]) then 0
    else
      var k := UpperBound(ring[1..], p);
      assert forall i | 1 <= i < k + 1 :: ring[i] == ring[1..][i - 1] && !Before(p, ring[1..][i - 1]);
      k + 1
  }

  lemma AfterUpperBound(ring: seq<Point>, p: Point, i: nat)
    requires Sorted(ring) && UpperBound(ring, p) <= i < |ring|
    ensures Before(p, ring[i])
  {
    var k := UpperBound(ring, p);
    BeforeIsTotal(ring[k], ring[k]);
    BeforeIsTransitive(p, ring[k], ring[i]);
  }

  /** Points that are not after p, followed by points that are. */
  lemma UpperBoundOfSplit(a: seq<Point>, b: seq<Point>, p: Point)
    requires (forall i | 0 <= i < |a| :: !Before(p, a[i])) && (forall i | 0 <= i < |b| :: Before(p, b[i]))
    ensures UpperBound(a + b, p) == |a|
  {
    assert forall i | 0 <= i < |a| :: (a + b)[i] == a[i];
    assert b != [] ==> (a + b)[|a|] == b[0];
  }

  function Inserted(ring: seq<Point>, p: Point): seq<Point> {
    var k := UpperBound(ring, p);
    ring[..k] + [p] + ring[k..]
  }

  lemma InsertedIs(ring: seq<Point>, p: Point)
    requires Sorted(ring)
    ensures Sorted(Inserted(ring, p)) && multiset(Inserted(ring, p)) == multiset(ring) + multiset{p}
  {
    hide Before, Sorted, Inserted;
    InsertedIsSorted(ring, p);
    InsertedCounts(ring, p);
  }

  lemma InsertedIsSorted(ring: seq<Point>, p: Point)
    requires Sorted(ring)
    ensures Sorted(Inserted(ring, p))
  {
    hide Before;
    var k, r := UpperBound(ring, p), Inserted(ring, p);
    forall j | k <= j < |ring| ensures !Before(ring[j], p) {
      AfterUpperBound(ring, p, j);
      BeforeIsTotal(p, ring[j]);
    }
    forall i, j | 0 <= i < j < |r| ensures !Before(r[j], r[i]) {
      assert r[i] == if i < k then ring[i] else if i == k then p else ring[i - 1];
      assert r[j] == if j < k then ring[j] else if j == k then p else ring[j - 1];
    }
  }

  lemma InsertedCounts(ring: seq<Point>, p: Point)
    ensures multiset(Inserted(ring, p)) == multiset(ring) + multiset{p}
  {
    var k := UpperBound(ring, p);
    assert ring == ring[..k] + ring[k..];
  }

  /** The program's binary search. */
  method BisectRight(ring: seq<Point>, p: Point) returns (k: nat)
    requires Sorted(ring)
    ensures k == UpperBound(ring, p)
  {
    var hi: nat;
    k, hi := 0, |ring|;
    while k < hi
      invariant k <= hi <= |ring|
      invariant k <= UpperBound(ring, p) <= hi
    {
      var mid := (k + hi) / 2;
      if Before(p, ring[mid]) {
        hi := mid;
      } else {
        if UpperBound(ring, p) <= mid {
          AfterUpperBound(ring, p, mid);
        }
        k := mid + 1;
      }
    }
  }
}
