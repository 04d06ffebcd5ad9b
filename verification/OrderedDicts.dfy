/** Dictionaries that remember the order in which their keys were first inserted. */
module OrderedDicts {
  type Dict<K, V> = seq<(K, V)>

  predicate Proper<K(==), V>(d: Dict<K, V>) {
    forall i, j | 0 <= i < j < |d| :: d[i].0 != d[j].0
  }

  predicate Has<K(==), V>(d: Dict<K, V>, k: K) {
    exists i :: 0 <= i < |d| && d[i].0 == k
  }

  /** Where the key stands; the length if it is not there. */
  function Position<K(==), V>(d: Dict<K, V>, k: K): (i: nat)
    ensures i <= |d|
    ensures i < |d| ==> d[i].0 == k
    ensures i < |d| <==> Has(d, k)
    ensures forall j | 0 <= j < i :: d[j].0 != k
  {
    if d == [] then 0
    else if d[0].0 == k then 0
    else
      var i := Position(d[1..], k);
      assert forall j | 1 <= j < |d| :: d[j] == d[1..][j - 1];
      assert i < |d[1..]| ==> d[i + 1].0 == k;
      assert Has(d, k) ==> Has(d[1..], k) by {
        if Has(d, k) {
          var j :| 0 <= j < |d| && d[j].0 == k;
          assert d[1..][j - 1].0 == k;
        }
      }
      i + 1
  }

  function Lookup<K(==), V>(d: Dict<K, V>, k: K): V
    requires Has(d, k)
  {
    d[Position(d, k)].1
  }

  /** A new key goes to the end, a known one keeps its place. */
  function Put<K(==), V>(d: Dict<K, V>, k: K, v: V): Dict<K, V> {
    var i := Position(d, k);
    if i < |d| then d[i := (k, v)] else d + [(k, v)]
  }

  function Dropped<K(==), V>(d: Dict<K, V>, k: K): Dict<K, V> {
    var i := Position(d, k);
    if i < |d| then d[..i] + d[i + 1..] else d
  }

  lemma PutIs<K, V>(d: Dict<K, V>, k: K, v: V)
    requires Proper(d)
    ensures Proper(Put(d, k, v))
    ensures forall x :: Has(Put(d, k, v), x) <==> Has(d, x) || x == k
    ensures |Put(d, k, v)| == if Has(d, k) then |d| else |d| + 1
    ensures forall e :: e in Put(d, k, v) <==> e == (k, v) || (e in d && e.0 != k)
  {
    var d', i := Put(d, k, v), Position(d, k);
    assert d'[i] == (k, v);
    assert forall j | 0 <= j < |d| && j != i :: d'[j] == d[j];
    forall x ensures Has(d', x) <==> Has(d, x) || x == k {
      if Has(d, x) {
        var j :| 0 <= j < |d| && d[j].0 == x;
        assert d'[j].0 == x;
      }
    }
  }

  lemma DroppedIs<K, V>(d: Dict<K, V>, k: K)
    requires Proper(d)
    ensures Proper(Dropped(d, k))
    ensures forall x :: Has(Dropped(d, k), x) <==> Has(d, x) && x != k
    ensures |Dropped(d, k)| == if Has(d, k) then |d| - 1 else |d|
    ensures forall e :: e in Dropped(d, k) <==> e in d && e.0 != k
  {
    var d', i := Dropped(d, k), Position(d, k);
    if i < |d| {
      assert forall j | 0 <= j < i :: d'[j] == d[j];
      assert forall j | i < j < |d| :: d'[j - 1] == d[j];
      forall x ensures Has(d', x) <==> Has(d, x) && x != k {
        if Has(d, x) && x != k {
          var j :| 0 <= j < |d| && d[j].0 == x;
          assert d'[if j < i then j else j - 1].0 == x;
        }
      }
    }
  }
}
