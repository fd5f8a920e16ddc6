/** The meaning of the sharded map: one flat map, the three single-key operations, and
    what may and may not be reordered without changing the result. */
module FlatMap {
  import opened Sequences

  datatype Op<K, V> = Insert(key: K, value: V) | Update(key: K, value: V) | Remove(key: K)

  function Get<K, V>(m: map<K, V>, k: K): Option<V> {
    if k in m then Some(m[k]) else None
  }

  /** An insertion is accepted: the key is new, or its value loses to the new one. */
  predicate Accepts<K, V>(prefers: (V, V) -> bool, m: map<K, V>, k: K, v: V) {
    k !in m || prefers(v, m[k])
  }

  /** `prefers(new, old)` is the map's `Compare`: a present value is replaced only when it holds. */
  function Apply<K, V>(prefers: (V, V) -> bool, m: map<K, V>, op: Op<K, V>): map<K, V> {
    match op
    case Insert(k, v) => if Accepts(prefers, m, k, v) then m[k := v] else m
    case Update(k, v) => if k in m && Accepts(prefers, m, k, v) then m[k := v] else m
    case Remove(k) => m - {k}
  }

  function ApplyAll<K, V>(prefers: (V, V) -> bool, m: map<K, V>, ops: seq<Op<K, V>>): map<K, V> {
    if ops == [] then m
    else Apply(prefers, ApplyAll(prefers, m, ops[..|ops| - 1]), ops[|ops| - 1])
  }

  /** What the call returns: whether the operation was accepted. A removal always says yes. */
  function Answer<K, V>(prefers: (V, V) -> bool, m: map<K, V>, op: Op<K, V>): bool {
    match op
    case Insert(k, v) => Accepts(prefers, m, k, v)
    case Update(k, v) => k in m && Accepts(prefers, m, k, v)
    case Remove(_) => true
  }

  /** What each operation returns when they are applied in order. */
  function Answers<K, V>(prefers: (V, V) -> bool, m: map<K, V>, ops: seq<Op<K, V>>): seq<bool> {
    if ops == [] then []
    else
      var init, last := ops[..|ops| - 1], ops[|ops| - 1];
      Answers(prefers, m, init) + [Answer(prefers, ApplyAll(prefers, m, init), last)]
  }

  lemma {:induction false} ApplyAllConcat<K, V>(
      prefers: (V, V) -> bool, m: map<K, V>, a: seq<Op<K, V>>, b: seq<Op<K, V>>)
    ensures ApplyAll(prefers, m, a + b) == ApplyAll(prefers, ApplyAll(prefers, m, a), b)
  {
    if b == [] {
      assert a + b == a;
    } else {
      var n := |b| - 1;
      assert (a + b)[..|a + b| - 1] == a + b[..n];
      ApplyAllConcat(prefers, m, a, b[..n]);
    }
  }

  /** The operations of `ops` on key `k`, in order. */
  function ForKey<K(==), V>(ops: seq<Op<K, V>>, k: K): seq<Op<K, V>> {
    if ops == [] then []
    else
      var last := ops[|ops| - 1];
      ForKey(ops[..|ops| - 1], k) + if last.key == k then [last] else []
  }

  lemma {:induction false} ForKeyConcat<K, V>(a: seq<Op<K, V>>, b: seq<Op<K, V>>, k: K)
    ensures ForKey(a + b, k) == ForKey(a, k) + ForKey(b, k)
  {
    if b == [] {
      assert a + b == a;
    } else {
      var n := |b| - 1;
      assert (a + b)[..|a + b| - 1] == a + b[..n];
      ForKeyConcat(a, b[..n], k);
    }
  }

  /** A key's fate depends only on its own entry and its own operations. */
  lemma {:induction false} KeyLocality<K, V>(
      prefers: (V, V) -> bool, m: map<K, V>, m': map<K, V>, ops: seq<Op<K, V>>, k: K)
    requires Get(m, k) == Get(m', k)
    ensures Get(ApplyAll(prefers, m, ops), k) == Get(ApplyAll(prefers, m', ForKey(ops, k)), k)
  {
    if ops != [] {
      var n := |ops| - 1;
      KeyLocality(prefers, m, m', ops[..n], k);
      if ops[n].key == k {
        var mine := ForKey(ops[..n], k);
        assert (mine + [ops[n]])[..|mine|] == mine;
      } else {
        assert ForKey(ops, k) == ForKey(ops[..n], k);
      }
    }
  }

  lemma {:induction false} SameEntries<K(!new), V>(m: map<K, V>, m': map<K, V>)
    requires forall k :: Get(m, k) == Get(m', k)
    ensures m == m'
  {
    forall k ensures k in m <==> k in m' {
      assert Get(m, k) == Get(m', k);
    }
    forall k | k in m ensures m[k] == m'[k] {
      assert Get(m, k) == Get(m', k);
    }
  }

  /** Any reordering that keeps each key's own operations in order has the same meaning. */
  lemma {:induction false} ReorderingKeepsMeaning<K(!new), V>(
      prefers: (V, V) -> bool, m: map<K, V>, a: seq<Op<K, V>>, b: seq<Op<K, V>>)
    requires forall k :: ForKey(a, k) == ForKey(b, k)
    ensures ApplyAll(prefers, m, a) == ApplyAll(prefers, m, b)
  {
    forall k ensures Get(ApplyAll(prefers, m, a), k) == Get(ApplyAll(prefers, m, b), k) {
      KeyLocality(prefers, m, m, a, k);
      KeyLocality(prefers, m, m, b, k);
      assert ForKey(a, k) == ForKey(b, k);
    }
    SameEntries(ApplyAll(prefers, m, a), ApplyAll(prefers, m, b));
  }

  // ---------------------------------------------------------------- key by key

  /** What the operations in a list make of key `k`, which holds `held` at first: an insertion takes
      the key if it is free, an update never does, both replace a value that loses to theirs, and a
      removal frees the key. */
  function Becomes<K(==), V>(prefers: (V, V) -> bool, held: Option<V>, ops: seq<Op<K, V>>, k: K): Option<V> {
    if ops == [] then held
    else
      var now := Becomes(prefers, held, ops[..|ops| - 1], k);
      match ops[|ops| - 1]
      case Insert(key, v) => if key == k && (now.None? || prefers(v, now.value)) then Some(v) else now
      case Update(key, v) => if key == k && now.Some? && prefers(v, now.value) then Some(v) else now
      case Remove(key) => if key == k then None else now
  }

  /** One operation, seen through lookups: what it does to its key, that it leaves every other key
      alone, and what it returns. */
  lemma {:induction false} OperationMeans<K, V>(prefers: (V, V) -> bool, m: map<K, V>, key: K, v: V, k: K)
    ensures Get(Apply(prefers, m, Insert(key, v)), key)
         == if key !in m || prefers(v, m[key]) then Some(v) else Some(m[key])
    ensures Get(Apply(prefers, m, Update(key, v)), key)
         == if key !in m then None else if prefers(v, m[key]) then Some(v) else Some(m[key])
    ensures Get(Apply(prefers, m, Remove(key)), key) == None
    ensures k != key ==>
      && Get(Apply(prefers, m, Insert(key, v)), k) == Get(m, k)
      && Get(Apply(prefers, m, Update(key, v)), k) == Get(m, k)
      && Get(Apply(prefers, m, Remove(key)), k) == Get(m, k)
    ensures Answer(prefers, m, Insert(key, v)) <==> key !in m || prefers(v, m[key])
    ensures Answer(prefers, m, Update(key, v)) <==> key in m && prefers(v, m[key])
    ensures Answer(prefers, m, Remove(key))
  {
  }

  /** A list of operations does to every key what they make of it one after the other, and each
      returns whether it was accepted there. */
  lemma {:induction false} ListMeans<K, V>(prefers: (V, V) -> bool, m: map<K, V>, ops: seq<Op<K, V>>, k: K)
    ensures Get(ApplyAll(prefers, m, ops), k) == Becomes(prefers, Get(m, k), ops, k)
    ensures |Answers(prefers, m, ops)| == |ops|
    ensures forall i :: 0 <= i < |ops| && ops[i].key == k ==>
      var now := Becomes(prefers, Get(m, k), ops[..i], k);
      Answers(prefers, m, ops)[i] ==
        match ops[i]
        case Insert(_, v) => now.None? || prefers(v, now.value)
        case Update(_, v) => now.Some? && prefers(v, now.value)
        case Remove(_) => true
  {
    if ops != [] {
      var init, last := ops[..|ops| - 1], ops[|ops| - 1];
      ListMeans(prefers, m, init, k);
      assert forall i :: 0 <= i < |init| ==> ops[..i] == init[..i];
      assert ops[..|init|] == init;
    }
  }

  /** The values a list of pairs offers to key `k`, in order. */
  function ValuesFor<K(==), V>(list: seq<(K, V)>, k: K): seq<V> {
    if list == [] then []
    else
      var last := list[|list| - 1];
      ValuesFor(list[..|list| - 1], k) + if last.0 == k then [last.1] else []
  }

  /** What is held after `vs` compete, one after the other, for the place of `held`. */
  function Winner<V>(prefers: (V, V) -> bool, held: V, vs: seq<V>): V {
    if vs == [] then held
    else
      var now := Winner(prefers, held, vs[..|vs| - 1]);
      if prefers(vs[|vs| - 1], now) then vs[|vs| - 1] else now
  }

  function Inserts<K, V>(list: seq<(K, V)>): seq<Op<K, V>> {
    seq(|list|, i requires 0 <= i < |list| => Insert(list[i].0, list[i].1))
  }

  function Updates<K, V>(list: seq<(K, V)>): seq<Op<K, V>> {
    seq(|list|, i requires 0 <= i < |list| => Update(list[i].0, list[i].1))
  }

  function Removes<K, V>(list: seq<K>): seq<Op<K, V>> {
    seq(|list|, i requires 0 <= i < |list| => Remove(list[i]))
  }

  lemma {:induction false} WinnerAppend<V>(prefers: (V, V) -> bool, held: V, vs: seq<V>, v: V)
    ensures Winner(prefers, held, vs + [v])
         == if prefers(v, Winner(prefers, held, vs)) then v else Winner(prefers, held, vs)
  {
    assert (vs + [v])[..|vs|] == vs;
  }

  /** A batch of updates adds no key and leaves in each the winner of its value and those listed. */
  lemma {:induction false} UpdatesMean<K, V>(prefers: (V, V) -> bool, m: map<K, V>, list: seq<(K, V)>, k: K)
    ensures Get(ApplyAll(prefers, m, Updates(list)), k)
         == if k in m then Some(Winner(prefers, m[k], ValuesFor(list, k))) else None
  {
    if list != [] {
      var init, last := list[..|list| - 1], list[|list| - 1];
      UpdatesMean(prefers, m, init, k);
      assert Updates(list)[..|init|] == Updates(init);
      if last.0 == k && k in m {
        WinnerAppend(prefers, m[k], ValuesFor(init, k), last.1);
      }
      assert last.0 != k ==> ValuesFor(list, k) == ValuesFor(init, k);
    }
  }

  /** So does a batch of insertions, in which a key that is free first takes the first value listed. */
  lemma {:induction false} InsertsMean<K, V>(prefers: (V, V) -> bool, m: map<K, V>, list: seq<(K, V)>, k: K)
    ensures Get(ApplyAll(prefers, m, Inserts(list)), k)
         == if k in m then Some(Winner(prefers, m[k], ValuesFor(list, k)))
            else if ValuesFor(list, k) == [] then None
            else Some(Winner(prefers, ValuesFor(list, k)[0], ValuesFor(list, k)[1..]))
  {
    if list != [] {
      var init, last := list[..|list| - 1], list[|list| - 1];
      InsertsMean(prefers, m, init, k);
      assert Inserts(list)[..|init|] == Inserts(init);
      var vs := ValuesFor(init, k);
      if last.0 == k {
        if k in m {
          WinnerAppend(prefers, m[k], vs, last.1);
        } else if vs != [] {
          WinnerAppend(prefers, vs[0], vs[1..], last.1);
          assert (vs + [last.1])[1..] == vs[1..] + [last.1];
        } else {
          assert ([last.1])[1..] == [] && ValuesFor(list, k) == [last.1];
        }
      } else {
        assert ValuesFor(list, k) == vs;
      }
    }
  }

  /** A batch of removals removes exactly the keys listed. */
  lemma {:induction false} RemovesMean<K, V>(prefers: (V, V) -> bool, m: map<K, V>, list: seq<K>, k: K)
    ensures Get(ApplyAll(prefers, m, Removes(list)), k) == if k in list then None else Get(m, k)
  {
    if list != [] {
      var init := list[..|list| - 1];
      RemovesMean(prefers, m, init, k);
      assert Removes<K, V>(list)[..|init|] == Removes(init);
      assert list == init + [list[|list| - 1]];
    }
  }

  // ---------------------------------------------------------------- shards

  /** The bucket selector of a map with `n` buckets: `hash(key) % n`. The lemmas below hold
      for any selector `home`. */
  function Home<K(!new)>(hash: K -> nat, n: nat): (home: K -> nat)
    requires n > 0
    ensures forall k :: home(k) == hash(k) % n && home(k) < n
  {
    k => hash(k) % n
  }

  /** Every key lives only in its home bucket. */
  ghost predicate Placed<K(!new), V>(home: K -> nat, shards: seq<map<K, V>>) {
    forall i, k :: 0 <= i < |shards| && k in shards[i] ==> home(k) == i
  }

  function Flat<K, V>(shards: seq<map<K, V>>): map<K, V> {
    if shards == [] then map[] else Flat(shards[..|shards| - 1]) + shards[|shards| - 1]
  }

  lemma {:induction false} FlatLookup<K, V>(shards: seq<map<K, V>>, home: nat, k: K)
    requires forall i :: 0 <= i < |shards| && i != home ==> k !in shards[i]
    ensures Get(Flat(shards), k) == if home < |shards| then Get(shards[home], k) else None
  {
    if shards != [] {
      var n := |shards| - 1;
      FlatLookup(shards[..n], home, k);
    }
  }

  /** Looking a key up in its own bucket is looking it up in the flat map. */
  lemma {:induction false} BucketHoldsKey<K(!new), V>(home: K -> nat, shards: seq<map<K, V>>, k: K)
    requires Placed(home, shards) && home(k) < |shards|
    ensures Get(Flat(shards), k) == Get(shards[home(k)], k)
  {
    FlatLookup(shards, home(k), k);
  }

  ghost predicate AllHome<K, V>(home: K -> nat, ops: seq<Op<K, V>>, bucket: nat)
  {
    forall j :: 0 <= j < |ops| ==> home(ops[j].key) == bucket
  }

  lemma {:induction false} KeysTouched<K, V>(prefers: (V, V) -> bool, m: map<K, V>, ops: seq<Op<K, V>>, k: K)
    requires k in ApplyAll(prefers, m, ops)
    ensures k in m || exists j :: 0 <= j < |ops| && ops[j].key == k
  {
    if ops != [] && ops[|ops| - 1].key != k {
      KeysTouched(prefers, m, ops[..|ops| - 1], k);
    }
  }

  lemma {:induction false} NotForKey<K, V>(ops: seq<Op<K, V>>, k: K)
    requires forall j :: 0 <= j < |ops| ==> ops[j].key != k
    ensures ForKey(ops, k) == []
  {
    if ops != [] {
      NotForKey(ops[..|ops| - 1], k);
    }
  }

  /** One bucket-locked section: applying operations homed at bucket `b` to that bucket
      alone is applying them to the flat map. */
  lemma {:induction false} SectionRefinesFlat<K(!new), V>(
      prefers: (V, V) -> bool, home: K -> nat, shards: seq<map<K, V>>, b: nat, ops: seq<Op<K, V>>)
    requires Placed(home, shards) && b < |shards| && AllHome(home, ops, b)
    ensures Placed(home, shards[b := ApplyAll(prefers, shards[b], ops)])
    ensures Flat(shards[b := ApplyAll(prefers, shards[b], ops)]) == ApplyAll(prefers, Flat(shards), ops)
  {
    var after := ApplyAll(prefers, shards[b], ops);
    var shards' := shards[b := after];
    forall i, k | 0 <= i < |shards'| && k in shards'[i] ensures home(k) == i {
      if i == b {
        KeysTouched(prefers, shards[b], ops, k);
      }
    }
    assert Placed(home, shards');
    forall k ensures Get(Flat(shards'), k) == Get(ApplyAll(prefers, Flat(shards), ops), k) {
      FlatLookup(shards, home(k), k);
      FlatLookup(shards', home(k), k);
      KeyLocality(prefers, Flat(shards), Flat(shards), ops, k);
      if home(k) == b {
        KeyLocality(prefers, shards[b], Flat(shards), ops, k);
      } else {
        NotForKey(ops, k);
      }
    }
    SameEntries(Flat(shards'), ApplyAll(prefers, Flat(shards), ops));
  }

  lemma {:induction false} AnswersConcat<K, V>(
      prefers: (V, V) -> bool, m: map<K, V>, a: seq<Op<K, V>>, b: seq<Op<K, V>>)
    ensures Answers(prefers, m, a + b) == Answers(prefers, m, a) + Answers(prefers, ApplyAll(prefers, m, a), b)
  {
    if b == [] {
      assert a + b == a;
    } else {
      var init := b[..|b| - 1];
      assert (a + b)[..|a + b| - 1] == a + init;
      AnswersConcat(prefers, m, a, init);
      ApplyAllConcat(prefers, m, a, init);
    }
  }

  /** Operations return the same on maps that agree on their keys. */
  lemma {:induction false} SameAnswers<K, V>(prefers: (V, V) -> bool, m: map<K, V>, m': map<K, V>, ops: seq<Op<K, V>>)
    requires forall j :: 0 <= j < |ops| ==> Get(m, ops[j].key) == Get(m', ops[j].key)
    ensures Answers(prefers, m, ops) == Answers(prefers, m', ops)
  {
    if ops != [] {
      var init, last := ops[..|ops| - 1], ops[|ops| - 1];
      SameAnswers(prefers, m, m', init);
      KeyLocality(prefers, m, m', init, last.key);
      KeyLocality(prefers, m', m', init, last.key);
      var a, b := ApplyAll(prefers, m, init), ApplyAll(prefers, m', init);
      assert Get(a, last.key) == Get(b, last.key);
    }
  }

  /** A section returns on its bucket what it would return on the flat map. */
  lemma {:induction false} SectionAnswersFlat<K(!new), V>(
      prefers: (V, V) -> bool, home: K -> nat, shards: seq<map<K, V>>, b: nat, ops: seq<Op<K, V>>)
    requires Placed(home, shards) && b < |shards| && AllHome(home, ops, b)
    ensures Answers(prefers, shards[b], ops) == Answers(prefers, Flat(shards), ops)
  {
    forall j | 0 <= j < |ops| ensures Get(shards[b], ops[j].key) == Get(Flat(shards), ops[j].key) {
      BucketHoldsKey(home, shards, ops[j].key);
    }
    SameAnswers(prefers, shards[b], Flat(shards), ops);
  }

  // ---------------------------------------------------------------- batches

  /** The operations of a batch that go to bucket `b`, in list order. */
  function ForBucket<K, V>(home: K -> nat, ops: seq<Op<K, V>>, b: nat): seq<Op<K, V>>
  {
    if ops == [] then []
    else
      var last := ops[|ops| - 1];
      ForBucket(home, ops[..|ops| - 1], b) + if home(last.key) == b then [last] else []
  }

  lemma {:induction false} ForBucketIsHome<K, V>(home: K -> nat, ops: seq<Op<K, V>>, b: nat)
    ensures AllHome(home, ForBucket(home, ops, b), b)
    ensures forall op :: op in ForBucket(home, ops, b) ==> op in ops
  {
    if ops != [] {
      ForBucketIsHome(home, ops[..|ops| - 1], b);
      assert ops == ops[..|ops| - 1] + [ops[|ops| - 1]];
    }
  }

  lemma {:induction false} SplitIsStable<K, V>(home: K -> nat, ops: seq<Op<K, V>>, b: nat, k: K)
    ensures ForKey(ForBucket(home, ops, b), k) == if home(k) == b then ForKey(ops, k) else []
  {
    if ops != [] {
      var init, last := ops[..|ops| - 1], ops[|ops| - 1];
      SplitIsStable(home, init, b, k);
      ForKeyConcat(ForBucket(home, init, b), if home(last.key) == b then [last] else [], k);
    }
  }

  /** Regrouping a batch and running it bucket by bucket means running it in its original order. */
  lemma {:induction false} BatchMeansSequentialOrder<K(!new), V>(
      prefers: (V, V) -> bool, home: K -> nat, before: seq<map<K, V>>, after: seq<map<K, V>>, ops: seq<Op<K, V>>)
    requires Placed(home, before) && |after| == |before|
    requires forall k :: home(k) < |before|
    requires forall b :: 0 <= b < |before| ==> after[b] == ApplyAll(prefers, before[b], ForBucket(home, ops, b))
    ensures Placed(home, after) && Flat(after) == ApplyAll(prefers, Flat(before), ops)
  {
    forall b, k | 0 <= b < |after| && k in after[b] ensures home(k) == b {
      ForBucketIsHome(home, ops, b);
      KeysTouched(prefers, before[b], ForBucket(home, ops, b), k);
    }
    forall k ensures Get(Flat(after), k) == Get(ApplyAll(prefers, Flat(before), ops), k) {
      var b := home(k);
      BucketHoldsKey(home, before, k);
      BucketHoldsKey(home, after, k);
      KeyLocality(prefers, before[b], before[b], ForBucket(home, ops, b), k);
      SplitIsStable(home, ops, b, k);
      KeyLocality(prefers, Flat(before), before[b], ops, k);
    }
    SameEntries(Flat(after), ApplyAll(prefers, Flat(before), ops));
  }

  // ---------------------------------------------------------------- whole-map reads

  /** `list` names every entry of `m` exactly once. */
  ghost predicate Enumerates<K, V>(list: seq<(K, V)>, m: map<K, V>) {
    && (forall i, j :: 0 <= i < j < |list| ==> list[i].0 != list[j].0)
    && (forall i :: 0 <= i < |list| ==> Get(m, list[i].0) == Some(list[i].1))
    && (forall k :: k in m ==> (k, m[k]) in list)
  }

  /** The order of keys that `std::map` iterates in. */
  ghost predicate KeyOrder<K(!new)>(less: (K, K) -> bool) {
    && (forall k :: !less(k, k))
    && (forall a, b :: a != b ==> less(a, b) || less(b, a))
    && (forall a, b, c :: less(a, b) && less(b, c) ==> less(a, c))
  }

  /** `list` goes bucket by bucket and, in each, from the smallest key up. */
  ghost predicate Listed<K, V>(less: (K, K) -> bool, home: K -> nat, list: seq<(K, V)>) {
    forall i, j :: 0 <= i < j < |list| ==>
      home(list[i].0) < home(list[j].0) || (home(list[i].0) == home(list[j].0) && less(list[i].0, list[j].0))
  }

  lemma {:induction false} SmallestKey<K(!new)>(less: (K, K) -> bool, keys: set<K>) returns (k: K)
    requires KeyOrder(less) && keys != {}
    ensures k in keys && forall other :: other in keys ==> other == k || less(k, other)
  {
    k :| k in keys;
    if keys != {k} {
      var best := SmallestKey(less, keys - {k});
      if less(best, k) {
        k := best;
      }
    }
  }

  lemma {:induction false} FlatExtends<K(!new), V>(home: K -> nat, seen: seq<map<K, V>>)
    requires 0 < |seen|
    requires Placed(home, seen)
    ensures Flat(seen[..|seen| - 1]).Keys !! seen[|seen| - 1].Keys
    ensures Flat(seen).Keys == Flat(seen[..|seen| - 1]).Keys + seen[|seen| - 1].Keys
  {
    var b := |seen| - 1;
    forall k | k in seen[b] ensures k !in Flat(seen[..b]) {
      forall i | 0 <= i < b ensures k !in seen[..b][i] {
        assert home(k) == b && seen[..b][i] == seen[i];
      }
      FlatLookup(seen[..b], b, k);
    }
  }

  /** Listing the buckets one after the other lists the flat map. */
  lemma {:induction false} ListingExtends<K(!new), V>(
      home: K -> nat, seen: seq<map<K, V>>, list: seq<(K, V)>, more: seq<(K, V)>)
    requires 0 < |seen|
    requires Placed(home, seen)
    requires Enumerates(list, Flat(seen[..|seen| - 1])) && Enumerates(more, seen[|seen| - 1])
    ensures Enumerates(list + more, Flat(seen))
  {
    FlatExtends(home, seen);
    var earlier, last, all := Flat(seen[..|seen| - 1]), seen[|seen| - 1], list + more;
    forall i | 0 <= i < |all| ensures Get(Flat(seen), all[i].0) == Some(all[i].1) {
      if i < |list| {
        assert Get(earlier, list[i].0) == Some(list[i].1);
      } else {
        assert Get(last, more[i - |list|].0) == Some(more[i - |list|].1);
      }
    }
    forall i, j | 0 <= i < j < |all| ensures all[i].0 != all[j].0 {
      if i < |list| <= j {
        assert Get(earlier, list[i].0) == Some(list[i].1);
        assert Get(last, more[j - |list|].0) == Some(more[j - |list|].1);
      }
    }
    forall k | k in Flat(seen) ensures (k, Flat(seen)[k]) in all {
      if k in last {
        assert (k, last[k]) in more;
      } else {
        assert (k, earlier[k]) in list;
      }
    }
  }

  lemma {:induction false} ListingStaysInOrder<K, V>(
      less: (K, K) -> bool, home: K -> nat, list: seq<(K, V)>, more: seq<(K, V)>, b: nat, m: map<K, V>)
    requires Listed(less, home, list) && forall i :: 0 <= i < |list| ==> home(list[i].0) < b
    requires Enumerates(more, m) && forall k :: k in m ==> home(k) == b
    requires forall i, j :: 0 <= i < j < |more| ==> less(more[i].0, more[j].0)
    ensures Listed(less, home, list + more) && forall i :: 0 <= i < |list + more| ==> home((list + more)[i].0) <= b
  {
    forall i | 0 <= i < |more| ensures home(more[i].0) == b {
      assert Get(m, more[i].0) == Some(more[i].1);
    }
  }

  /** A listing of the buckets before `b`, in iteration order. */
  ghost predicate ListsFirst<K(!new), V>(
      less: (K, K) -> bool, home: K -> nat, shards: seq<map<K, V>>, b: nat, list: seq<(K, V)>)
    requires b <= |shards|
  {
    && Enumerates(list, Flat(shards[..b])) && Listed(less, home, list)
    && forall i :: 0 <= i < |list| ==> home(list[i].0) < b
  }

  lemma {:induction false} ListsOneMore<K(!new), V>(
      less: (K, K) -> bool, home: K -> nat, shards: seq<map<K, V>>, b: nat, list: seq<(K, V)>, more: seq<(K, V)>)
    requires Placed(home, shards) && b < |shards| && ListsFirst(less, home, shards, b, list)
    requires Enumerates(more, shards[b]) && forall i, j :: 0 <= i < j < |more| ==> less(more[i].0, more[j].0)
    ensures ListsFirst(less, home, shards, b + 1, list + more)
  {
    var seen := shards[..b + 1];
    assert seen[..b] == shards[..b];
    ListingExtends(home, seen, list, more);
    ListingStaysInOrder(less, home, list, more, b, shards[b]);
  }

  function TotalSize<K, V>(seen: seq<map<K, V>>): nat {
    if seen == [] then 0 else TotalSize(seen[..|seen| - 1]) + |seen[|seen| - 1]|
  }

  lemma {:induction false} TotalSizeIsFlatSize<K(!new), V>(home: K -> nat, seen: seq<map<K, V>>)
    requires Placed(home, seen)
    ensures TotalSize(seen) == |Flat(seen)|
  {
    if seen != [] {
      TotalSizeIsFlatSize(home, seen[..|seen| - 1]);
      FlatExtends(home, seen);
      assert |Flat(seen).Keys| == |Flat(seen[..|seen| - 1]).Keys| + |seen[|seen| - 1].Keys|;
    }
  }
}
