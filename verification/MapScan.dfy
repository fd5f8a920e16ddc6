/** `GetAllKey` and `Size` running while other callers write: the buckets are visited one at a
    time, each under its own lock, with any number of other steps in between. */
module MapScan {
  import opened Sequences
  import Runs
  import opened FlatMap
  import opened MapSteps

  /** A scan in progress: the order of keys, the world around it, what it saw in each bucket visited
      so far, and what it has made of that: the list of `GetAllKey`, the total of `Size`. */
  datatype Scan<!K, V> = Scan(
    less: (K, K) -> bool, world: World<K, V>, seen: seq<map<K, V>>, list: seq<(K, V)>, total: nat)

  /** `more` is what visiting the next bucket appends to the list. */
  datatype ScanMove<K, V> = Other(move: Move<K, V>) | Visit(more: seq<(K, V)>)

  /** `more` lists the entries of one bucket in key order, as `ConcurrentBucket.GetAllKey` does. */
  ghost predicate ListsBucket<K, V>(less: (K, K) -> bool, more: seq<(K, V)>, bucket: map<K, V>) {
    Enumerates(more, bucket) && forall i, j :: 0 <= i < j < |more| ==> less(more[i].0, more[j].0)
  }

  ghost predicate ScanEnabled<K, V>(sc: Scan<K, V>, m: ScanMove<K, V>) {
    match m
    case Other(move) => Enabled(sc.world, move)
    case Visit(more) => |sc.seen| < |sc.world.shards| && ListsBucket(sc.less, more, sc.world.shards[|sc.seen|])
  }

  ghost function ScanNext<K, V>(
      prefers: (V, V) -> bool, home: K -> nat, sc: Scan<K, V>, m: ScanMove<K, V>): Scan<K, V>
    requires ScanEnabled(sc, m)
  {
    match m
    case Other(move) => sc.(world := Next(prefers, home, sc.world, move))
    case Visit(more) =>
      var bucket := sc.world.shards[|sc.seen|];
      sc.(seen := sc.seen + [bucket], list := sc.list + more, total := sc.total + |bucket|)
  }

  ghost function ScanStep<K, V>(prefers: (V, V) -> bool, home: K -> nat)
      : (Scan<K, V>, ScanMove<K, V>) --> Scan<K, V>
  {
    (sc, m) requires ScanEnabled(sc, m) => ScanNext(prefers, home, sc, m)
  }

  ghost predicate ScanPossible<K, V>(
      prefers: (V, V) -> bool, home: K -> nat, sc: Scan<K, V>, moves: seq<ScanMove<K, V>>)
  {
    Runs.Possible(ScanEnabled, ScanStep(prefers, home), sc, moves)
  }

  ghost function ScanAfter<K, V>(
      prefers: (V, V) -> bool, home: K -> nat, sc: Scan<K, V>, moves: seq<ScanMove<K, V>>): Scan<K, V>
    requires ScanPossible(prefers, home, sc, moves)
  {
    Runs.After(ScanEnabled, ScanStep(prefers, home), sc, moves)
  }

  /** The buckets after the first `t` steps of the call. */
  ghost function ShardsAt<K, V>(
      prefers: (V, V) -> bool, home: K -> nat, sc: Scan<K, V>, moves: seq<ScanMove<K, V>>, t: nat): seq<map<K, V>>
    requires ScanPossible(prefers, home, sc, moves) && t <= |moves|
  {
    Runs.PrefixPossible(ScanEnabled, ScanStep(prefers, home), sc, moves, t);
    ScanAfter(prefers, home, sc, moves[..t]).world.shards
  }

  lemma {:induction false} ScanKeepsWellFormed<K(!new), V>(
      prefers: (V, V) -> bool, home: K -> nat, sc: Scan<K, V>, moves: seq<ScanMove<K, V>>)
    requires ScanPossible(prefers, home, sc, moves) && WellFormed(home, sc.world)
    ensures WellFormed(home, ScanAfter(prefers, home, sc, moves).world)
    ensures |ScanAfter(prefers, home, sc, moves).world.shards| == |sc.world.shards|
  {
    if moves != [] {
      var init, m := moves[..|moves| - 1], moves[|moves| - 1];
      ScanKeepsWellFormed(prefers, home, sc, init);
      if m.Other? {
        StepKeepsWellFormed(prefers, home, ScanAfter(prefers, home, sc, init).world, m.move);
      }
    }
  }

  /** Bucket `b` was read as it was after the first `t` steps. */
  ghost predicate ReadAt<K, V>(
      prefers: (V, V) -> bool, home: K -> nat, sc: Scan<K, V>, moves: seq<ScanMove<K, V>>, b: nat, t: nat)
    requires ScanPossible(prefers, home, sc, moves)
  {
    && t < |moves|
    && b < |ScanAfter(prefers, home, sc, moves).seen|
    && b < |ShardsAt(prefers, home, sc, moves, t)|
    && ScanAfter(prefers, home, sc, moves).seen[b] == ShardsAt(prefers, home, sc, moves, t)[b]
  }

  /** `times[b]` is when bucket `b` was visited: the visits are in order and read what was there. */
  ghost predicate VisitTimes<K, V>(
      prefers: (V, V) -> bool, home: K -> nat, sc: Scan<K, V>, moves: seq<ScanMove<K, V>>, times: seq<nat>)
    requires ScanPossible(prefers, home, sc, moves)
  {
    && |times| == |ScanAfter(prefers, home, sc, moves).seen|
    && (forall b :: 0 <= b < |times| ==> ReadAt(prefers, home, sc, moves, b, times[b]))
    && (forall a, b :: 0 <= a < b < |times| ==> times[a] < times[b])
  }

  lemma {:induction false} ShardsAtPrefix<K, V>(
      prefers: (V, V) -> bool, home: K -> nat, sc: Scan<K, V>, moves: seq<ScanMove<K, V>>, t: nat)
    requires ScanPossible(prefers, home, sc, moves) && t < |moves|
    ensures ShardsAt(prefers, home, sc, moves, t) == ShardsAt(prefers, home, sc, moves[..|moves| - 1], t)
  {
    assert moves[..|moves| - 1][..t] == moves[..t];
  }

  /** What was read stays read: one more step changes neither the reading nor its time. */
  lemma {:induction false} StillReadAt<K, V>(
      prefers: (V, V) -> bool, home: K -> nat, sc: Scan<K, V>, moves: seq<ScanMove<K, V>>, b: nat, t: nat)
    requires moves != [] && ScanPossible(prefers, home, sc, moves)
    requires ReadAt(prefers, home, sc, moves[..|moves| - 1], b, t)
    ensures ReadAt(prefers, home, sc, moves, b, t)
  {
    ShardsAtPrefix(prefers, home, sc, moves, t);
  }

  lemma {:induction false} VisitReadsNow<K, V>(
      prefers: (V, V) -> bool, home: K -> nat, sc: Scan<K, V>, moves: seq<ScanMove<K, V>>)
    requires moves != [] && ScanPossible(prefers, home, sc, moves) && moves[|moves| - 1].Visit?
    ensures |ScanAfter(prefers, home, sc, moves).seen| == |ScanAfter(prefers, home, sc, moves[..|moves| - 1]).seen| + 1
    ensures ReadAt(prefers, home, sc, moves, |ScanAfter(prefers, home, sc, moves).seen| - 1, |moves| - 1)
  {
    ShardsAtPrefix(prefers, home, sc, moves, |moves| - 1);
    assert moves[..|moves| - 1][..|moves| - 1] == moves[..|moves| - 1];
  }

  lemma {:induction false} VisitsHaveTimes<K(!new), V>(
      prefers: (V, V) -> bool, home: K -> nat, sc: Scan<K, V>, moves: seq<ScanMove<K, V>>) returns (times: seq<nat>)
    requires ScanPossible(prefers, home, sc, moves) && sc.seen == []
    ensures VisitTimes(prefers, home, sc, moves, times)
  {
    if moves == [] {
      times := [];
    } else {
      var init := moves[..|moves| - 1];
      var earlier := VisitsHaveTimes(prefers, home, sc, init);
      forall b | 0 <= b < |earlier| ensures ReadAt(prefers, home, sc, moves, b, earlier[b]) {
        StillReadAt(prefers, home, sc, moves, b, earlier[b]);
      }
      if moves[|moves| - 1].Visit? {
        VisitReadsNow(prefers, home, sc, moves);
        times := earlier + [|init|];
      } else {
        times := earlier;
      }
    }
  }

  /** A scan that has yet to visit its first bucket. */
  ghost predicate Starting<K(!new), V>(home: K -> nat, sc: Scan<K, V>) {
    WellFormed(home, sc.world) && sc.seen == [] && sc.list == [] && sc.total == 0
  }

  /** Whatever other callers do between the visits, the list is a listing of what was seen, bucket
      by bucket and in key order, and the total counts it. */
  ghost predicate ListsSeen<K(!new), V>(home: K -> nat, sc: Scan<K, V>) {
    && Placed(home, sc.seen) && ListsFirst(sc.less, home, sc.seen, |sc.seen|, sc.list)
    && sc.total == TotalSize(sc.seen)
  }

  lemma {:induction false} VisitListsSeen<K(!new), V>(
      home: K -> nat, sc: Scan<K, V>, more: seq<(K, V)>, sc': Scan<K, V>)
    requires WellFormed(home, sc.world) && ListsSeen(home, sc) && ScanEnabled(sc, Visit(more))
    requires sc'.less == sc.less && sc'.seen == sc.seen + [sc.world.shards[|sc.seen|]]
    requires sc'.list == sc.list + more && sc'.total == sc.total + |sc.world.shards[|sc.seen|]|
    ensures ListsSeen(home, sc')
  {
    var n := |sc.seen|;
    assert sc'.seen[..n] == sc.seen && sc.seen[..n] == sc.seen && sc'.seen[..n + 1] == sc'.seen;
    ListsOneMore(sc.less, home, sc'.seen, n, sc.list, more);
  }

  lemma {:induction false} ScanListsSeen<K(!new), V>(
      prefers: (V, V) -> bool, home: K -> nat, sc: Scan<K, V>, moves: seq<ScanMove<K, V>>)
    requires ScanPossible(prefers, home, sc, moves) && Starting(home, sc)
    ensures ListsSeen(home, ScanAfter(prefers, home, sc, moves))
    ensures ScanAfter(prefers, home, sc, moves).less == sc.less
  {
    if moves != [] {
      var init, m := moves[..|moves| - 1], moves[|moves| - 1];
      ScanListsSeen(prefers, home, sc, init);
      ScanKeepsWellFormed(prefers, home, sc, init);
      if m.Visit? {
        VisitListsSeen(home, ScanAfter(prefers, home, sc, init), m.more, ScanAfter(prefers, home, sc, moves));
      }
    }
  }

  lemma {:induction false} SmallestFirst<K(!new), V>(
      less: (K, K) -> bool, bucket: map<K, V>, k: K, rest: seq<(K, V)>)
    requires k in bucket && ListsBucket(less, rest, bucket - {k})
    requires forall other :: other in bucket ==> other == k || less(k, other)
    ensures ListsBucket(less, [(k, bucket[k])] + rest, bucket)
  {
    var others, all := bucket - {k}, [(k, bucket[k])] + rest;
    forall i | 0 <= i < |rest| ensures rest[i].0 != k && Get(bucket, rest[i].0) == Some(rest[i].1) {
      assert Get(others, rest[i].0) == Some(rest[i].1);
    }
    forall x | x in bucket ensures (x, bucket[x]) in all {
      if x != k {
        assert (x, others[x]) in rest;
      } else {
        assert all[0] == (k, bucket[k]);
      }
    }
  }

  /** The next visit is always possible: a bucket can be listed in key order. */
  lemma {:induction false} BucketCanBeListed<K(!new), V>(less: (K, K) -> bool, bucket: map<K, V>)
    returns (more: seq<(K, V)>)
    requires KeyOrder(less)
    ensures ListsBucket(less, more, bucket)
    decreases bucket.Keys
  {
    more := [];
    if bucket != map[] {
      var k := SmallestKey(less, bucket.Keys);
      assert (bucket - {k}).Keys == bucket.Keys - {k};
      var rest := BucketCanBeListed(less, bucket - {k});
      SmallestFirst(less, bucket, k, rest);
      more := [(k, bucket[k])] + rest;
    }
  }

  ghost predicate Complete<K, V>(prefers: (V, V) -> bool, home: K -> nat, sc: Scan<K, V>, moves: seq<ScanMove<K, V>>)
    requires ScanPossible(prefers, home, sc, moves)
  {
    |ScanAfter(prefers, home, sc, moves).seen| == |ScanAfter(prefers, home, sc, moves).world.shards|
  }

  /** What the flat map held for `k` after the first `t` steps of the call. */
  ghost function EntryAt<K, V>(
      prefers: (V, V) -> bool, home: K -> nat, sc: Scan<K, V>, moves: seq<ScanMove<K, V>>, t: nat, k: K): Option<V>
    requires ScanPossible(prefers, home, sc, moves) && t <= |moves|
  {
    Get(Flat(ShardsAt(prefers, home, sc, moves, t)), k)
  }

  /** The exact guarantee of a concurrent scan: there are visiting times, increasing from bucket
      to bucket, such that the scan reports for every key, present or absent, the flat map's entry
      at the time of the key's bucket. */
  lemma {:induction false} ScanReadsEachKeyAtOneMoment<K(!new), V>(
      prefers: (V, V) -> bool, home: K -> nat, sc: Scan<K, V>, moves: seq<ScanMove<K, V>>) returns (times: seq<nat>)
    requires ScanPossible(prefers, home, sc, moves) && Starting(home, sc)
    requires Complete(prefers, home, sc, moves)
    ensures |times| == |sc.world.shards|
    ensures forall b :: 0 <= b < |times| ==> times[b] < |moves|
    ensures forall a, b :: 0 <= a < b < |times| ==> times[a] < times[b]
    ensures forall k :: home(k) < |times|
    ensures forall k ::
      Get(Flat(ScanAfter(prefers, home, sc, moves).seen), k) == EntryAt(prefers, home, sc, moves, times[home(k)], k)
  {
    times := VisitsHaveTimes(prefers, home, sc, moves);
    ScanKeepsWellFormed(prefers, home, sc, moves);
    ScanListsSeen(prefers, home, sc, moves);
    var seen := ScanAfter(prefers, home, sc, moves).seen;
    forall k ensures Get(Flat(seen), k) == EntryAt(prefers, home, sc, moves, times[home(k)], k) {
      var t := times[home(k)];
      Runs.PrefixPossible(ScanEnabled, ScanStep(prefers, home), sc, moves, t);
      ScanKeepsWellFormed(prefers, home, sc, moves[..t]);
      BucketHoldsKey(home, seen, k);
      BucketHoldsKey(home, ShardsAt(prefers, home, sc, moves, t), k);
    }
  }

  ghost predicate PresentOnce<K, V>(
      prefers: (V, V) -> bool, home: K -> nat, sc: Scan<K, V>, moves: seq<ScanMove<K, V>>, k: K, v: V)
    requires ScanPossible(prefers, home, sc, moves)
  {
    exists t :: 0 <= t < |moves| && EntryAt(prefers, home, sc, moves, t, k) == Some(v)
  }

  /** Weak snapshot: the list a concurrent `GetAllKey` returns goes by bucket and by key and has no
      key twice, every pair on it was in the map at some moment of the call, and every pair present
      throughout the call is on it. */
  lemma {:induction false} GetAllKeyIsWeakSnapshot<K(!new), V(!new)>(
      prefers: (V, V) -> bool, home: K -> nat, sc: Scan<K, V>, moves: seq<ScanMove<K, V>>)
    requires ScanPossible(prefers, home, sc, moves) && Starting(home, sc) && Complete(prefers, home, sc, moves)
    ensures var list := ScanAfter(prefers, home, sc, moves).list;
            && Listed(sc.less, home, list)
            && (forall i, j :: 0 <= i < j < |list| ==> list[i].0 != list[j].0)
            && (forall i :: 0 <= i < |list| ==> PresentOnce(prefers, home, sc, moves, list[i].0, list[i].1))
            && forall k, v ::
                 (forall t :: 0 <= t < |moves| ==> EntryAt(prefers, home, sc, moves, t, k) == Some(v)) ==>
                 (k, v) in list
  {
    ScanListsSeen(prefers, home, sc, moves);
    var end := ScanAfter(prefers, home, sc, moves);
    assert end.seen[..|end.seen|] == end.seen;
    ListIsWeakSnapshot(prefers, home, sc, moves, end.list);
  }

  lemma {:induction false} ListIsWeakSnapshot<K(!new), V(!new)>(
      prefers: (V, V) -> bool, home: K -> nat, sc: Scan<K, V>, moves: seq<ScanMove<K, V>>, list: seq<(K, V)>)
    requires ScanPossible(prefers, home, sc, moves) && Starting(home, sc) && Complete(prefers, home, sc, moves)
    requires Enumerates(list, Flat(ScanAfter(prefers, home, sc, moves).seen))
    ensures forall i :: 0 <= i < |list| ==> PresentOnce(prefers, home, sc, moves, list[i].0, list[i].1)
    ensures forall k, v ::
      (forall t :: 0 <= t < |moves| ==> EntryAt(prefers, home, sc, moves, t, k) == Some(v)) ==> (k, v) in list
  {
    var seen := Flat(ScanAfter(prefers, home, sc, moves).seen);
    var times := ScanReadsEachKeyAtOneMoment(prefers, home, sc, moves);
    forall i | 0 <= i < |list| ensures PresentOnce(prefers, home, sc, moves, list[i].0, list[i].1) {
      assert Get(seen, list[i].0) == Some(list[i].1);
      assert EntryAt(prefers, home, sc, moves, times[home(list[i].0)], list[i].0) == Some(list[i].1);
    }
    forall k, v | forall t :: 0 <= t < |moves| ==> EntryAt(prefers, home, sc, moves, t, k) == Some(v)
      ensures (k, v) in list
    {
      assert EntryAt(prefers, home, sc, moves, times[home(k)], k) == Some(v);
      assert Get(seen, k) == Some(v);
    }
  }

  /** Keys present at some moment of the call. */
  ghost function EverPresent<K(!new), V>(
      prefers: (V, V) -> bool, home: K -> nat, sc: Scan<K, V>, moves: seq<ScanMove<K, V>>): set<K>
    requires ScanPossible(prefers, home, sc, moves)
  {
    set t, k | 0 <= t < |moves| && k in Flat(ShardsAt(prefers, home, sc, moves, t)) :: k
  }

  lemma {:induction false} SubsetSize<K>(a: set<K>, b: set<K>)
    requires a <= b
    ensures |a| <= |b|
  {
    assert b == a + (b - a);
  }

  /** The total a concurrent `Size` returns lies between the number of keys present throughout the
      call (any set `always` of such keys) and the number of keys present at some moment of it. */
  lemma {:induction false} ConcurrentSizeBounds<K(!new), V>(
      prefers: (V, V) -> bool, home: K -> nat, sc: Scan<K, V>, moves: seq<ScanMove<K, V>>, always: set<K>)
    requires ScanPossible(prefers, home, sc, moves) && Starting(home, sc)
    requires Complete(prefers, home, sc, moves)
    requires forall k, t :: k in always && 0 <= t < |moves| ==> EntryAt(prefers, home, sc, moves, t, k).Some?
    ensures var end := ScanAfter(prefers, home, sc, moves);
            && |always| <= end.total <= |EverPresent(prefers, home, sc, moves)|
            && end.total == |Flat(end.seen)|
  {
    var seen := ScanAfter(prefers, home, sc, moves).seen;
    var times := ScanReadsEachKeyAtOneMoment(prefers, home, sc, moves);
    ScanListsSeen(prefers, home, sc, moves);
    TotalSizeIsFlatSize(home, seen);
    forall k | k in always ensures k in Flat(seen) {
      assert EntryAt(prefers, home, sc, moves, times[home(k)], k).Some?;
      assert Get(Flat(seen), k).Some?;
    }
    SubsetSize(always, Flat(seen).Keys);
    forall k | k in Flat(seen) ensures k in EverPresent(prefers, home, sc, moves) {
      assert Get(Flat(seen), k).Some?;
      assert EntryAt(prefers, home, sc, moves, times[home(k)], k).Some?;
    }
    SubsetSize(Flat(seen).Keys, EverPresent(prefers, home, sc, moves));
  }
}
