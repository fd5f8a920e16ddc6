/** The buckets and the map built from them, updated in place, each method proved against
    the flat map of `FlatMap`. One call runs alone here; `MapSteps` interleaves them. */
module ConcurrentMaps {
  import opened Sequences
  import opened FlatMap

  class ConcurrentBucket<K(==, !new), V> {
    const prefers: (V, V) -> bool
    const less: (K, K) -> bool        // the key order of `map_`
    var map_: map<K, V>

    constructor (prefers: (V, V) -> bool, less: (K, K) -> bool)
      ensures map_ == map[] && this.prefers == prefers && this.less == less
    {
      this.prefers := prefers;
      this.less := less;
      map_ := map[];
    }

    method Lookup(key: K) returns (found: Option<V>)
      ensures found == Get(map_, key)
    {
      found := None;
      if key in map_ {
        found := Some(map_[key]);
      }
    }

    method Size() returns (n: nat)
      ensures n == |map_|
    {
      n := |map_|;
    }

    method Clear()
      modifies this
      ensures map_ == map[]
    {
      map_ := map[];
    }

    method InsertWithoutLock(key: K, value: V) returns (ret: bool)
      modifies this
      ensures map_ == Apply(prefers, old(map_), Insert(key, value))
      ensures ret <==> key !in old(map_) || prefers(value, old(map_)[key])
      ensures map_ == if ret then old(map_)[key := value] else old(map_)
    {
      ret := false;
      if key !in map_ {
        map_ := map_[key := value];
        ret := true;
      } else if prefers(value, map_[key]) {
        map_ := map_ - {key};
        map_ := map_[key := value];
        ret := true;
      }
    }

    method UpdateWithoutLock(key: K, value: V) returns (ret: bool)
      modifies this
      ensures map_ == Apply(prefers, old(map_), Update(key, value))
      ensures ret <==> key in old(map_) && prefers(value, old(map_)[key])
      ensures map_ == if ret then old(map_)[key := value] else old(map_)
    {
      ret := false;
      if key in map_ {
        if prefers(value, map_[key]) {
          map_ := map_ - {key};
          map_ := map_[key := value];
          ret := true;
        }
      }
    }

    method RemoveWithoutLock(key: K)
      modifies this
      ensures map_ == Apply(prefers, old(map_), Remove(key))
      ensures map_ == old(map_) - {key}
    {
      if key in map_ {
        map_ := map_ - {key};
      }
    }

    /** The shared loop of the three per-bucket batch methods. */
    method RunBatch(ops: seq<Op<K, V>>)
      modifies this
      ensures map_ == ApplyAll(prefers, old(map_), ops)
    {
      for i := 0 to |ops|
        invariant map_ == ApplyAll(prefers, old(map_), ops[..i])
      {
        match ops[i] {
          case Insert(k, v) => var _ := InsertWithoutLock(k, v);
          case Update(k, v) => var _ := UpdateWithoutLock(k, v);
          case Remove(k) => RemoveWithoutLock(k);
        }
        assert ops[..i + 1][..i] == ops[..i];
      }
      assert ops[..|ops|] == ops;
    }

    /** Appends every entry of the bucket to `list`, each once, from the smallest key up. */
    method GetAllKey(list: seq<(K, V)>) returns (out: seq<(K, V)>)
      requires KeyOrder(less)
      ensures |list| <= |out| && out[..|list|] == list
      ensures Enumerates(out[|list|..], map_)
      ensures forall i, j :: |list| <= i < j < |out| ==> less(out[i].0, out[j].0)
    {
      out := list;
      ghost var more: seq<(K, V)> := [];
      var rest := map_.Keys;
      while rest != {}
        invariant rest <= map_.Keys && out == list + more
        invariant forall i, j :: 0 <= i < j < |more| ==> less(more[i].0, more[j].0)
        invariant forall i :: 0 <= i < |more| ==> more[i].0 !in rest && Get(map_, more[i].0) == Some(more[i].1)
        invariant forall i, k :: 0 <= i < |more| && k in rest ==> less(more[i].0, k)
        invariant forall k :: k in map_ && k !in rest ==> (k, map_[k]) in more
        decreases rest
      {
        ghost var smallest := SmallestKey(less, rest);
        var k :| k in rest && forall other :: other in rest ==> other == k || less(k, other);
        out := out + [(k, map_[k])];
        more := more + [(k, map_[k])];
        rest := rest - {k};
      }
      assert out[|list|..] == more;
    }
  }

  class ConcurrentMap<K(==, !new), V> {
    const buckets: seq<ConcurrentBucket<K, V>>
    const hash: K -> nat
    const prefers: (V, V) -> bool
    const less: (K, K) -> bool

    ghost function HomeOf(): K -> nat {
      if |buckets| == 0 then hash else Home(hash, |buckets|)
    }

    ghost function Shards(): (s: seq<map<K, V>>)
      reads buckets
      ensures |s| == |buckets| && forall i :: 0 <= i < |s| ==> s[i] == buckets[i].map_
    {
      seq(|buckets|, i requires 0 <= i < |buckets| reads buckets => buckets[i].map_)
    }

    /** What the whole map means. */
    ghost function Contents(): map<K, V>
      reads buckets
    {
      Flat(Shards())
    }

    ghost predicate Wired() {
      && KeyOrder(less)
      && (forall i, j :: 0 <= i < j < |buckets| ==> buckets[i] != buckets[j])
      && (forall i :: 0 <= i < |buckets| ==> buckets[i].prefers == prefers && buckets[i].less == less)
    }

    ghost predicate Valid()
      reads buckets
    {
      Wired() && Placed(HomeOf(), Shards())
    }

    /** Without buckets only the whole-map reads, `Clear` and empty batches have a defined outcome:
        a keyed call takes the hash modulo zero. */
    constructor (bucketNums: nat, hash: K -> nat, prefers: (V, V) -> bool, less: (K, K) -> bool)
      requires KeyOrder(less)
      ensures Valid() && Contents() == map[]
      ensures |buckets| == bucketNums && this.hash == hash && this.prefers == prefers && this.less == less
      ensures forall b :: b in buckets ==> fresh(b)
    {
      var made: seq<ConcurrentBucket<K, V>> := [];
      for i := 0 to bucketNums
        invariant |made| == i
        invariant forall j :: 0 <= j < i ==> fresh(made[j]) && made[j].map_ == map[]
        invariant forall j :: 0 <= j < i ==> made[j].prefers == prefers && made[j].less == less
        invariant forall j, k :: 0 <= j < k < i ==> made[j] != made[k]
      {
        var b := new ConcurrentBucket<K, V>(prefers, less);
        made := made + [b];
      }
      this.buckets := made;
      this.hash := hash;
      this.prefers := prefers;
      this.less := less;
      new;
      assert forall k :: k !in Contents() by {
        forall k ensures k !in Contents() {
          FlatLookup(Shards(), 0, k);
          assert Get(Flat(Shards()), k) == None;
        }
      }
    }

    method BucketOf(key: K) returns (b: ConcurrentBucket<K, V>, ghost i: nat)
      requires Valid() && |buckets| > 0
      ensures i == HomeOf()(key) && b == buckets[i]
      ensures Get(Contents(), key) == Get(b.map_, key)
    {
      var index := hash(key) % |buckets|;
      b := buckets[index];
      i := index;
      BucketHoldsKey(HomeOf(), Shards(), key);
    }

    /** After one bucket ran `ops`, all homed there, the whole map has run `ops`. */
    lemma AfterSection(before: seq<map<K, V>>, i: nat, ops: seq<Op<K, V>>)
      requires Wired() && |before| == |buckets| && Placed(HomeOf(), before)
      requires i < |buckets| && AllHome(HomeOf(), ops, i)
      requires forall j :: 0 <= j < |buckets| ==>
        buckets[j].map_ == if j == i then ApplyAll(prefers, before[i], ops) else before[j]
      ensures Valid() && Contents() == ApplyAll(prefers, Flat(before), ops)
    {
      assert Shards() == before[i := ApplyAll(prefers, before[i], ops)];
      SectionRefinesFlat(prefers, HomeOf(), before, i, ops);
    }

    method LookUp(key: K) returns (found: Option<V>)
      requires Valid() && |buckets| > 0
      ensures found == Get(Contents(), key)
    {
      var b, _ := BucketOf(key);
      found := b.Lookup(key);
    }

    method Contain(key: K) returns (found: bool)
      requires Valid() && |buckets| > 0
      ensures found <==> key in Contents()
    {
      var b, _ := BucketOf(key);
      var v := b.Lookup(key);
      found := v.Some?;
    }

    method Insert(key: K, value: V) returns (ret: bool)
      requires Valid() && |buckets| > 0
      modifies buckets
      ensures Valid() && Contents() == Apply(prefers, old(Contents()), FlatMap.Insert(key, value))
      ensures ret <==> key !in old(Contents()) || prefers(value, old(Contents())[key])
      ensures Contents() == if ret then old(Contents())[key := value] else old(Contents())
    {
      var b, i := BucketOf(key);
      ghost var before, op := Shards(), FlatMap.Insert(key, value);
      ApplyOne(b.map_, op);
      ApplyOne(Contents(), op);
      ret := b.InsertWithoutLock(key, value);
      AfterSection(before, i, [op]);
    }

    method Update(key: K, value: V) returns (ret: bool)
      requires Valid() && |buckets| > 0
      modifies buckets
      ensures Valid() && Contents() == Apply(prefers, old(Contents()), FlatMap.Update(key, value))
      ensures ret <==> key in old(Contents()) && prefers(value, old(Contents())[key])
      ensures Contents() == if ret then old(Contents())[key := value] else old(Contents())
    {
      var b, i := BucketOf(key);
      ghost var before, op := Shards(), FlatMap.Update(key, value);
      ApplyOne(b.map_, op);
      ApplyOne(Contents(), op);
      ret := b.UpdateWithoutLock(key, value);
      AfterSection(before, i, [op]);
    }

    method Delete(key: K) returns (ret: bool)
      requires Valid() && |buckets| > 0
      modifies buckets
      ensures Valid() && Contents() == Apply(prefers, old(Contents()), FlatMap.Remove(key))
      ensures key !in Contents() && forall k :: k != key ==> Get(Contents(), k) == Get(old(Contents()), k)
      ensures ret
    {
      var b, i := BucketOf(key);
      ghost var before, op := Shards(), FlatMap.Remove(key);
      ApplyOne(b.map_, op);
      ApplyOne(Contents(), op);
      b.RemoveWithoutLock(key);
      AfterSection(before, i, [op]);
      ret := true;
    }

    lemma ApplyOne(m: map<K, V>, op: Op<K, V>)
      ensures ApplyAll(prefers, m, [op]) == Apply(prefers, m, op)
    {
      assert [op][..0] == [];
      assert ApplyAll(prefers, m, [op][..0]) == m;
    }

    /** The first loop of the three batch methods: `push_back` into per-bucket lists. */
    method Regroup(ops: seq<Op<K, V>>) returns (lists: array<seq<Op<K, V>>>)
      requires Valid() && (ops == [] || |buckets| > 0)
      ensures fresh(lists) && lists.Length == |buckets|
      ensures forall b :: 0 <= b < |buckets| ==> lists[b] == ForBucket(HomeOf(), ops, b)
    {
      lists := new seq<Op<K, V>>[|buckets|](_ => []);
      for i := 0 to |ops|
        invariant forall b :: 0 <= b < |buckets| ==> lists[b] == ForBucket(HomeOf(), ops[..i], b)
      {
        var index := hash(ops[i].key) % |buckets|;
        lists[index] := lists[index] + [ops[i]];
        assert ops[..i + 1][..i] == ops[..i];
      }
      assert ops[..|ops|] == ops;
    }

    /** Both loops of the three batch methods: regroup, then run bucket after bucket. */
    method RunBatch(ops: seq<Op<K, V>>)
      requires Valid() && (ops == [] || |buckets| > 0)
      modifies buckets
      ensures Valid() && Contents() == ApplyAll(prefers, old(Contents()), ops)
    {
      var lists := Regroup(ops);
      ghost var before := Shards();
      for i := 0 to |buckets|
        invariant forall b :: 0 <= b < |buckets| ==> lists[b] == ForBucket(HomeOf(), ops, b)
        invariant forall b :: 0 <= b < |buckets| ==>
          buckets[b].map_ == if b < i then ApplyAll(prefers, before[b], ForBucket(HomeOf(), ops, b)) else before[b]
      {
        buckets[i].RunBatch(lists[i]);
      }
      if |buckets| > 0 {
        BatchMeansSequentialOrder(prefers, HomeOf(), before, Shards(), ops);
      } else {
        assert Shards() == before;
      }
    }

    method InsertKeyBatch(list: seq<(K, V)>)
      requires Valid() && (list == [] || |buckets| > 0)
      modifies buckets
      ensures Valid() && Contents() == ApplyAll(prefers, old(Contents()), Inserts(list))
      ensures forall k ::
        var held, vs := Get(old(Contents()), k), ValuesFor(list, k);
        Get(Contents(), k) ==
          if held.Some? then Some(Winner(prefers, held.value, vs))
          else if vs == [] then None
          else Some(Winner(prefers, vs[0], vs[1..]))
    {
      ghost var before := Contents();
      RunBatch(Inserts(list));
      forall k {
        InsertsMean(prefers, before, list, k);
      }
    }

    method UpdateKeyBatch(list: seq<(K, V)>)
      requires Valid() && (list == [] || |buckets| > 0)
      modifies buckets
      ensures Valid() && Contents() == ApplyAll(prefers, old(Contents()), Updates(list))
      ensures forall k ::
        var held := Get(old(Contents()), k);
        Get(Contents(), k) ==
          if held.Some? then Some(Winner(prefers, held.value, ValuesFor(list, k))) else None
    {
      ghost var before := Contents();
      RunBatch(Updates(list));
      forall k {
        UpdatesMean(prefers, before, list, k);
      }
    }

    method RemoveKeyBatch(list: seq<K>)
      requires Valid() && (list == [] || |buckets| > 0)
      modifies buckets
      ensures Valid() && Contents() == ApplyAll(prefers, old(Contents()), Removes(list))
      ensures forall k ::
        Get(Contents(), k) == if k in list then None else Get(old(Contents()), k)
    {
      ghost var before := Contents();
      RunBatch(Removes(list));
      forall k {
        RemovesMean(prefers, before, list, k);
      }
    }

    /** One turn of the loop of `GetAllKey`. */
    method ListBucket(i: nat, listed: seq<(K, V)>) returns (list: seq<(K, V)>)
      requires Valid() && i < |buckets| && ListsFirst(less, HomeOf(), Shards(), i, listed)
      ensures ListsFirst(less, HomeOf(), Shards(), i + 1, list)
    {
      list := buckets[i].GetAllKey(listed);
      ghost var more := list[|listed|..];
      assert list == listed + more;
      ListsOneMore(less, HomeOf(), Shards(), i, listed, more);
    }

    method GetAllKey() returns (list: seq<(K, V)>)
      requires Valid()
      ensures Enumerates(list, Contents()) && Listed(less, HomeOf(), list)
    {
      list := [];
      for i := 0 to |buckets|
        invariant ListsFirst(less, HomeOf(), Shards(), i, list)
      {
        list := ListBucket(i, list);
      }
      assert Shards()[..|buckets|] == Shards();
    }

    method Size() returns (total: nat)
      requires Valid()
      ensures total == |Contents()|
    {
      total := 0;
      for i := 0 to |buckets|
        invariant total == TotalSize(Shards()[..i])
      {
        var n := buckets[i].Size();
        total := total + n;
        assert Shards()[..i + 1][..i] == Shards()[..i];
      }
      assert Shards()[..|buckets|] == Shards();
      TotalSizeIsFlatSize(HomeOf(), Shards());
    }

    method Clear()
      requires Valid()
      modifies buckets
      ensures Valid() && Contents() == map[]
    {
      for i := 0 to |buckets|
        invariant Valid()
        invariant forall j :: 0 <= j < i ==> buckets[j].map_ == map[]
      {
        buckets[i].Clear();
      }
      forall k ensures k !in Contents() {
        FlatLookup(Shards(), 0, k);
        assert Get(Contents(), k) == None;
      }
    }
  }
}
