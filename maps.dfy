/** Finite maps keyed by integers: a fixed choice of key and the sum of the values. */
module Maps {

  /** Some key of a non-empty map; the same key every time for the same map. */
  ghost function PickKey<V>(m: map<int, V>): (k: int)
    requires m != map[]
    ensures k in m
  {
    assert exists k :: k in m by {
      if forall k :: k !in m {
        assert false;
      }
    }
    var k :| k in m; k
  }

  /** The sum of all values of the map, in no particular key order. */
  ghost function SumValues(m: map<int, int>): int
    decreases |m|
  {
    if m == map[] then 0
    else
      var k := PickKey(m);
      m[k] + SumValues(m - {k})
  }

  /** The sum does not depend on which key is taken out first. */
  lemma {:induction false} SumValuesRemove(m: map<int, int>, k: int)
    requires k in m
    ensures SumValues(m) == m[k] + SumValues(m - {k})
    decreases |m|
  {
    var j := PickKey(m);
    if j != k {
      SumValuesRemove(m - {j}, k);
      SumValuesRemove(m - {k}, j);
      assert m - {j} - {k} == m - {k} - {j};
    }
  }

  /** Adding one to the value of a key (or inserting it with value one) adds one to the sum. */
  lemma SumValuesIncrement(m: map<int, int>, k: int)
    ensures SumValues(m[k := if k in m then m[k] + 1 else 1]) == SumValues(m) + 1
  {
    var m' := m[k := if k in m then m[k] + 1 else 1];
    SumValuesRemove(m', k);
    if k in m {
      SumValuesRemove(m, k);
      assert m' - {k} == m - {k};
    } else {
      assert m' - {k} == m;
    }
  }

  /** f applied to every entry of the map, listed in an arbitrary but fixed key order. */
  ghost function MapList<V, W>(m: map<int, V>, f: (int, V) -> W): seq<W>
    decreases |m|
  {
    if m == map[] then []
    else
      var k := PickKey(m);
      [f(k, m[k])] + MapList(m - {k}, f)
  }

  /** Which key is listed first does not change the multiset of the list. */
  lemma {:induction false} MapListRemove<V, W>(m: map<int, V>, f: (int, V) -> W, k: int)
    requires k in m
    ensures multiset(MapList(m, f)) == multiset{f(k, m[k])} + multiset(MapList(m - {k}, f))
    decreases |m|
  {
    var j := PickKey(m);
    if j != k {
      var mj, mk := m - {j}, m - {k};
      assert mj[k] == m[k] && mk[j] == m[j];
      assert mj - {k} == mk - {j};
      var both := multiset(MapList(mj - {k}, f));
      MapListRemove(mj, f, k);
      MapListRemove(mk, f, j);
      assert MapList(m, f) == [f(j, m[j])] + MapList(mj, f);
      calc {
        multiset(MapList(m, f));
        multiset{f(j, m[j])} + multiset(MapList(mj, f));
        multiset{f(j, m[j])} + (multiset{f(k, m[k])} + both);
        multiset{f(k, m[k])} + (multiset{f(j, m[j])} + both);
        multiset{f(k, m[k])} + multiset(MapList(mk, f));
      }
    }
  }

  /** The list has one element per key, and its elements are exactly the images of the entries. */
  lemma {:induction false} MapListOfKeys<V, W>(m: map<int, V>, f: (int, V) -> W)
    ensures |MapList(m, f)| == |m|
    ensures forall k :: k in m ==> f(k, m[k]) in MapList(m, f)
    ensures forall e :: e in MapList(m, f) ==> exists k :: k in m && e == f(k, m[k])
    decreases |m|
  {
    if m != map[] {
      var j := PickKey(m);
      var rest := m - {j};
      MapListOfKeys(rest, f);
      forall k | k in m
        ensures f(k, m[k]) in MapList(m, f)
      {
        if k != j {
          assert k in rest && f(k, rest[k]) in MapList(rest, f);
        }
      }
      forall e | e in MapList(m, f)
        ensures exists k :: k in m && e == f(k, m[k])
      {
        if e != f(j, m[j]) {
          assert e in MapList(rest, f);
          var k :| k in rest && e == f(k, rest[k]);
          assert k in m && e == f(k, m[k]);
        }
      }
    }
  }
}
