/** When the order of insertions does not matter. */
module Convergence {
  import opened Sequences
  import opened FlatMap

  ghost predicate OnlyInserts<K, V>(ops: seq<Op<K, V>>) {
    forall j :: 0 <= j < |ops| ==> ops[j].Insert?
  }

  /** On distinct values, `prefers` is a strict total order. How it answers on two equal
      values is irrelevant: replacing a value by itself changes nothing. */
  ghost predicate TotalOnDistinct<V(!new)>(prefers: (V, V) -> bool) {
    && (forall a, b :: a != b ==> (prefers(a, b) <==> !prefers(b, a)))
    && (forall a, b, c :: a != c && prefers(a, b) && prefers(b, c) ==> prefers(a, c))
  }

  /** `v` is the value key `k` started with, or one inserted for it. */
  ghost predicate Offered<K, V>(m: map<K, V>, ops: seq<Op<K, V>>, k: K, v: V) {
    Get(m, k) == Some(v) || Insert(k, v) in ops
  }

  ghost predicate Best<K, V(!new)>(prefers: (V, V) -> bool, m: map<K, V>, ops: seq<Op<K, V>>, k: K, v: V) {
    && Offered(m, ops, k, v)
    && forall w :: Offered(m, ops, k, w) ==> w == v || prefers(v, w)
  }

  /** `held` is the most preferred value offered to `k`, or nothing if none was offered. */
  ghost predicate HoldsBest<K, V(!new)>(
      prefers: (V, V) -> bool, m: map<K, V>, ops: seq<Op<K, V>>, k: K, held: Option<V>)
  {
    match held
    case None => forall v :: !Offered(m, ops, k, v)
    case Some(v) => Best(prefers, m, ops, k, v)
  }

  lemma {:induction false} InsertsKeepBest<K, V(!new)>(prefers: (V, V) -> bool, m: map<K, V>, ops: seq<Op<K, V>>, k: K)
    requires TotalOnDistinct(prefers) && OnlyInserts(ops)
    ensures HoldsBest(prefers, m, ops, k, Get(ApplyAll(prefers, m, ops), k))
  {
    if ops != [] {
      var init, last := ops[..|ops| - 1], ops[|ops| - 1];
      InsertsKeepBest(prefers, m, init, k);
      assert ops == init + [last];
      assert forall v :: Offered(m, ops, k, v) <==> Offered(m, init, k, v) || last == Insert(k, v);
    }
  }

  lemma {:induction false} HoldsBestUnique<K, V(!new)>(
      prefers: (V, V) -> bool, m: map<K, V>, a: seq<Op<K, V>>, b: seq<Op<K, V>>, k: K, x: Option<V>, y: Option<V>)
    requires TotalOnDistinct(prefers)
    requires forall v :: Offered(m, a, k, v) <==> Offered(m, b, k, v)
    requires HoldsBest(prefers, m, a, k, x) && HoldsBest(prefers, m, b, k, y)
    ensures x == y
  {
    assert x.Some? ==> Offered(m, b, k, x.value);
    assert y.Some? ==> Offered(m, a, k, y.value);
  }

  /** Permuting and repeating insertions changes nothing: only which ones occur matters. */
  lemma {:induction false} SameInsertsSameMap<K(!new), V(!new)>(
      prefers: (V, V) -> bool, m: map<K, V>, a: seq<Op<K, V>>, b: seq<Op<K, V>>)
    requires TotalOnDistinct(prefers) && OnlyInserts(a) && OnlyInserts(b)
    requires forall op :: op in a <==> op in b
    ensures ApplyAll(prefers, m, a) == ApplyAll(prefers, m, b)
  {
    forall k ensures Get(ApplyAll(prefers, m, a), k) == Get(ApplyAll(prefers, m, b), k) {
      InsertsKeepBest(prefers, m, a, k);
      InsertsKeepBest(prefers, m, b, k);
      HoldsBestUnique(prefers, m, a, b, k, Get(ApplyAll(prefers, m, a), k), Get(ApplyAll(prefers, m, b), k));
    }
    SameEntries(ApplyAll(prefers, m, a), ApplyAll(prefers, m, b));
  }

  // ---------------------------------------------------------------- and only then

  /** Two permutations of a list of insertions always end in the same map. */
  ghost predicate OrderFree<K(!new), V(!new)>(prefers: (V, V) -> bool) {
    forall m: map<K, V>, a: seq<Op<K, V>>, b: seq<Op<K, V>> ::
      OnlyInserts(a) && OnlyInserts(b) && multiset(a) == multiset(b)
      ==> ApplyAll(prefers, m, a) == ApplyAll(prefers, m, b)
  }

  lemma {:induction false} InsertTwo<K, V>(prefers: (V, V) -> bool, k: K, x: V, y: V)
    ensures ApplyAll(prefers, map[], [Insert(k, x), Insert(k, y)]) == map[k := if prefers(y, x) then y else x]
  {
    var ops := [Insert(k, x), Insert(k, y)];
    assert ops[..1] == [Insert(k, x)] && ops[..1][..0] == [];
    assert ApplyAll(prefers, map[], ops[..1]) == map[k := x];
  }

  lemma {:induction false} InsertThree<K, V>(prefers: (V, V) -> bool, k: K, x: V, y: V, z: V)
    ensures var first := if prefers(y, x) then y else x;
            ApplyAll(prefers, map[], [Insert(k, x), Insert(k, y), Insert(k, z)])
            == map[k := if prefers(z, first) then z else first]
  {
    InsertTwo(prefers, k, x, y);
    assert [Insert(k, x), Insert(k, y), Insert(k, z)][..2] == [Insert(k, x), Insert(k, y)];
  }

  lemma {:induction false} OrderFreeIsAntisymmetric<K(!new), V(!new)>(prefers: (V, V) -> bool, k: K, a: V, b: V)
    requires OrderFree<K, V>(prefers) && a != b
    ensures prefers(a, b) <==> !prefers(b, a)
  {
    var ab, ba := [Insert(k, a), Insert(k, b)], [Insert(k, b), Insert(k, a)];
    assert ApplyAll(prefers, map[], ab) == ApplyAll(prefers, map[], ba);
    InsertTwo(prefers, k, a, b);
    InsertTwo(prefers, k, b, a);
    assert map[k := if prefers(b, a) then b else a][k] == map[k := if prefers(a, b) then a else b][k];
  }

  lemma {:induction false} OrderFreeIsTransitive<K(!new), V(!new)>(prefers: (V, V) -> bool, k: K, a: V, b: V, c: V)
    requires OrderFree<K, V>(prefers) && a != c && prefers(a, b) && prefers(b, c)
    ensures prefers(a, c)
  {
    if a != b && b != c {
      OrderFreeIsAntisymmetric(prefers, k, a, b);
      OrderFreeIsAntisymmetric(prefers, k, b, c);
      OrderFreeIsAntisymmetric(prefers, k, a, c);
      var abc, bca := [Insert(k, a), Insert(k, b), Insert(k, c)], [Insert(k, b), Insert(k, c), Insert(k, a)];
      assert ApplyAll(prefers, map[], abc) == ApplyAll(prefers, map[], bca);
      InsertThree(prefers, k, a, b, c);
      InsertThree(prefers, k, b, c, a);
      assert map[k := if prefers(c, a) then c else a][k] == map[k := a][k];
    }
  }

  /** The exact condition on `Compare`: insertion order is irrelevant for every map and every
      list if and only if `Compare` is a strict total order on distinct values. */
  lemma {:induction false} OrderFreeExactly<K(!new), V(!new)>(prefers: (V, V) -> bool, k: K)
    ensures OrderFree<K, V>(prefers) <==> TotalOnDistinct(prefers)
  {
    if OrderFree<K, V>(prefers) {
      forall a, b | a != b ensures prefers(a, b) <==> !prefers(b, a) {
        OrderFreeIsAntisymmetric(prefers, k, a, b);
      }
      forall a, b, c | a != c && prefers(a, b) && prefers(b, c) ensures prefers(a, c) {
        OrderFreeIsTransitive(prefers, k, a, b, c);
      }
    }
    if TotalOnDistinct(prefers) {
      forall m: map<K, V>, a: seq<Op<K, V>>, b: seq<Op<K, V>>
        | OnlyInserts(a) && OnlyInserts(b) && multiset(a) == multiset(b)
        ensures ApplyAll(prefers, m, a) == ApplyAll(prefers, m, b)
      {
        assert forall op :: op in a <==> op in multiset(a);
        assert forall op :: op in b <==> op in multiset(b);
        SameInsertsSameMap(prefers, m, a, b);
      }
    }
  }

  /** The comparator of concurrent_map/test.cpp. */
  predicate SameValue<V(==)>(a: V, b: V) {
    a == b
  }

  /** With it the first insertion of a key wins, so order matters as soon as two values exist. */
  lemma {:induction false} SameValueIsOrderSensitive<K(!new), V(!new)>(k: K, a: V, b: V)
    requires a != b
    ensures !OrderFree<K, V>(SameValue)
  {
    OrderFreeExactly<K, V>(SameValue, k);
    assert !SameValue(a, b) && !SameValue(b, a);
  }
}
