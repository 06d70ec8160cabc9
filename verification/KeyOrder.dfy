/** std::map's iteration order: the keys from least to greatest. */
module KeyOrder {

  type Order<!K> = (K, K) -> bool

  ghost predicate StrictTotal<K(!new)>(less: Order<K>) {
    && (forall a :: !less(a, a))
    && (forall a, b :: less(a, b) || a == b || less(b, a))
    && (forall a, b, c :: less(a, b) && less(b, c) ==> less(a, c))
  }

  predicate Least<K(==)>(less: Order<K>, keys: set<K>, k: K) {
    k in keys && forall j :: j in keys && j != k ==> less(k, j)
  }

  lemma {:induction false} LeastExists<K(!new)>(less: Order<K>, keys: set<K>)
    requires StrictTotal(less) && keys != {}
    ensures exists k :: Least(less, keys, k)
    decreases |keys|
  {
    var a :| a in keys;
    var rest := keys - {a};
    if rest == {} {
      assert forall j :: j in keys ==> j == a || j in rest;
      assert Least(less, keys, a);
    } else {
      LeastExists(less, rest);
      var b :| Least(less, rest, b);
      assert forall j :: j in keys ==> j == a || j in rest;
      assert Least(less, keys, if less(a, b) then a else b);
    }
  }

  ghost function LeastOf<K(!new)>(less: Order<K>, keys: set<K>): (k: K)
    requires StrictTotal(less) && keys != {}
    ensures Least(less, keys, k)
  {
    LeastExists(less, keys);
    var k :| Least(less, keys, k);
    k
  }

  lemma LeastIsUnique<K(!new)>(less: Order<K>, keys: set<K>, j: K, k: K)
    requires StrictTotal(less) && Least(less, keys, j) && Least(less, keys, k)
    ensures j == k
  {
    assert !less(j, j) && (j != k ==> less(j, k) && less(k, j));
  }

  /** The keys in increasing order. */
  ghost function Sorted<K(!new)>(less: Order<K>, keys: set<K>): (s: seq<K>)
    requires StrictTotal(less)
    ensures |s| == |keys| && forall k :: k in s <==> k in keys
    decreases |keys|
  {
    if keys == {} then [] else [LeastOf(less, keys)] + Sorted(less, keys - {LeastOf(less, keys)})
  }

  lemma SortedStep<K(!new)>(less: Order<K>, keys: set<K>, k: K)
    requires StrictTotal(less) && Least(less, keys, k)
    ensures Sorted(less, keys) == [k] + Sorted(less, keys - {k})
  {
    LeastIsUnique(less, keys, k, LeastOf(less, keys));
  }

  /** No key comes twice. */
  lemma {:induction false} SortedHasNoRepeats<K(!new)>(less: Order<K>, keys: set<K>)
    requires StrictTotal(less)
    ensures forall i, j :: 0 <= i < j < |keys| ==> Sorted(less, keys)[i] != Sorted(less, keys)[j]
    decreases |keys|
  {
    if keys != {} {
      var s := Sorted(less, keys);
      SortedHasNoRepeats(less, keys - {s[0]});
      assert s == [s[0]] + s[1..] && s[1..] == Sorted(less, keys - {s[0]});
      assert s[0] !in s[1..];
      forall i, j | 0 <= i < j < |keys| ensures s[i] != s[j] {
        assert s[j] == s[1..][j - 1];
        if i > 0 { assert s[i] == s[1..][i - 1]; }
      }
    }
  }

  /** Iterating over the map's keys. */
  method SortedKeys<K(!new,==)>(less: Order<K>, keys: set<K>) returns (s: seq<K>)
    requires StrictTotal(less)
    ensures s == Sorted(less, keys)
  {
    s := [];
    var rest := keys;
    while rest != {}
      invariant Sorted(less, keys) == s + Sorted(less, rest)
      decreases |rest|
    {
      LeastExists(less, rest);
      var k :| k in rest && forall j :: j in rest && j != k ==> less(k, j);
      SortedStep(less, rest, k);
      s, rest := s + [k], rest - {k};
    }
  }
}
