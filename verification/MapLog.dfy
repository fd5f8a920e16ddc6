/** The history of a concurrent map: which client did which operation or wiped which bucket, and
    what doing all of it in order does to the flat map. */
module MapLog {
  import opened Sequences
  import opened FlatMap

  datatype Entry<K, V> = Did(client: nat, op: Op<K, V>) | Wiped(client: nat, bucket: nat)

  function Dids<K, V>(client: nat, ops: seq<Op<K, V>>): seq<Entry<K, V>> {
    seq(|ops|, i requires 0 <= i < |ops| => Did(client, ops[i]))
  }

  /** Wiping bucket `b` removes the keys homed there. */
  function Swept<K, V>(home: K -> nat, m: map<K, V>, b: nat): map<K, V> {
    map k | k in m && home(k) != b :: m[k]
  }

  /** One entry, done to the flat map, and what the call returns; a wipe returns nothing (`true`). */
  function Effect<K(==), V>(prefers: (V, V) -> bool, home: K -> nat, m: map<K, V>, e: Entry<K, V>): map<K, V> {
    match e
    case Did(_, op) => Apply(prefers, m, op)
    case Wiped(_, b) => Swept(home, m, b)
  }

  function Response<K, V>(prefers: (V, V) -> bool, m: map<K, V>, e: Entry<K, V>): bool {
    e.Did? ==> Answer(prefers, m, e.op)
  }

  /** The flat map after a log, and what each of its entries returned. */
  function Replay<K(==), V>(prefers: (V, V) -> bool, home: K -> nat, m: map<K, V>, log: seq<Entry<K, V>>): map<K, V> {
    if log == [] then m
    else Effect(prefers, home, Replay(prefers, home, m, log[..|log| - 1]), log[|log| - 1])
  }

  function Responses<K(==), V>(
      prefers: (V, V) -> bool, home: K -> nat, m: map<K, V>, log: seq<Entry<K, V>>): seq<bool>
  {
    if log == [] then []
    else
      var init, last := log[..|log| - 1], log[|log| - 1];
      Responses(prefers, home, m, init) + [Response(prefers, Replay(prefers, home, m, init), last)]
  }

  lemma {:induction false} ReplayConcat<K, V>(
      prefers: (V, V) -> bool, home: K -> nat, m: map<K, V>, a: seq<Entry<K, V>>, b: seq<Entry<K, V>>)
    ensures Replay(prefers, home, m, a + b) == Replay(prefers, home, Replay(prefers, home, m, a), b)
    ensures Responses(prefers, home, m, a + b)
         == Responses(prefers, home, m, a) + Responses(prefers, home, Replay(prefers, home, m, a), b)
  {
    if b == [] {
      assert a + b == a;
    } else {
      assert (a + b)[..|a + b| - 1] == a + b[..|b| - 1];
      ReplayConcat(prefers, home, m, a, b[..|b| - 1]);
    }
  }

  lemma {:induction false} ReplayDids<K, V>(
      prefers: (V, V) -> bool, home: K -> nat, m: map<K, V>, client: nat, ops: seq<Op<K, V>>)
    ensures Replay(prefers, home, m, Dids(client, ops)) == ApplyAll(prefers, m, ops)
    ensures Responses(prefers, home, m, Dids(client, ops)) == Answers(prefers, m, ops)
  {
    if ops != [] {
      var init := ops[..|ops| - 1];
      ReplayDids(prefers, home, m, client, init);
      assert Dids(client, ops)[..|ops| - 1] == Dids(client, init);
    }
  }

  lemma {:induction false} ReplayOne<K, V>(
      prefers: (V, V) -> bool, home: K -> nat, m: map<K, V>, e: Entry<K, V>)
    ensures Replay(prefers, home, m, [e]) == Effect(prefers, home, m, e)
    ensures Responses(prefers, home, m, [e]) == [Response(prefers, m, e)]
  {
    assert [e][..0] == [];
    assert Replay(prefers, home, m, [e][..0]) == m && Responses(prefers, home, m, [e][..0]) == [];
  }

  /** Emptying one bucket wipes the keys homed there from the flat map. */
  lemma {:induction false} WipeRefinesFlat<K(!new), V>(home: K -> nat, shards: seq<map<K, V>>, b: nat)
    requires Placed(home, shards) && b < |shards|
    ensures Placed(home, shards[b := map[]]) && Flat(shards[b := map[]]) == Swept(home, Flat(shards), b)
  {
    var after := shards[b := map[]];
    forall k ensures Get(Flat(after), k) == Get(Swept(home, Flat(shards), b), k) {
      FlatLookup(shards, home(k), k);
      FlatLookup(after, home(k), k);
    }
    SameEntries(Flat(after), Swept(home, Flat(shards), b));
  }

  // ---------------------------------------------------------------- key by key

  /** What a log makes of key `k`, which holds `held` at first, by the rules of the calls alone. */
  function LogMakes<K(==), V>(
      prefers: (V, V) -> bool, home: K -> nat, held: Option<V>, log: seq<Entry<K, V>>, k: K): Option<V>
  {
    if log == [] then held
    else
      var now := LogMakes(prefers, home, held, log[..|log| - 1], k);
      match log[|log| - 1]
      case Did(_, Insert(key, v)) => if key == k && (now.None? || prefers(v, now.value)) then Some(v) else now
      case Did(_, Update(key, v)) => if key == k && now.Some? && prefers(v, now.value) then Some(v) else now
      case Did(_, Remove(key)) => if key == k then None else now
      case Wiped(_, b) => if home(k) == b then None else now
  }

  /** What an operation on a key that holds `now` returns. */
  predicate Accepted<K, V>(prefers: (V, V) -> bool, now: Option<V>, op: Op<K, V>) {
    match op
    case Insert(_, v) => now.None? || prefers(v, now.value)
    case Update(_, v) => now.Some? && prefers(v, now.value)
    case Remove(_) => true
  }

  /** Replaying a log does to every key what the log makes of it, and each operation returns whether
      it was accepted there. */
  lemma {:induction false} LogDecidesEachKey<K, V>(
      prefers: (V, V) -> bool, home: K -> nat, m: map<K, V>, log: seq<Entry<K, V>>, k: K)
    ensures Get(Replay(prefers, home, m, log), k) == LogMakes(prefers, home, Get(m, k), log, k)
    ensures |Responses(prefers, home, m, log)| == |log|
    ensures forall i :: 0 <= i < |log| && log[i].Did? && log[i].op.key == k ==>
      Responses(prefers, home, m, log)[i]
      == Accepted(prefers, LogMakes(prefers, home, Get(m, k), log[..i], k), log[i].op)
  {
    if log != [] {
      var init := log[..|log| - 1];
      LogDecidesEachKey(prefers, home, m, init, k);
      assert forall i :: 0 <= i < |init| ==> log[..i] == init[..i];
    }
  }

  // ---------------------------------------------------------------- removals and preference

  ghost predicate Transitive<V(!new)>(prefers: (V, V) -> bool) {
    forall a, b, c :: prefers(a, b) && prefers(b, c) ==> prefers(a, c)
  }

  /** What a later read may return after an earlier one returned `earlier`. */
  predicate Advances<V(==)>(prefers: (V, V) -> bool, earlier: Option<V>, later: Option<V>) {
    earlier.Some? ==> later.Some? && (later.value == earlier.value || prefers(later.value, earlier.value))
  }

  /** The entry may take a key away. */
  predicate TakesAway<K, V>(e: Entry<K, V>) {
    e.Wiped? || e.op.Remove?
  }

  predicate Removing<K, V>(log: seq<Entry<K, V>>) {
    exists j :: 0 <= j < |log| && TakesAway(log[j])
  }

  lemma {:induction false} ReplayAdvances<K, V(!new)>(
      prefers: (V, V) -> bool, home: K -> nat, m: map<K, V>, log: seq<Entry<K, V>>, k: K)
    requires Transitive(prefers) && !Removing(log)
    ensures Advances(prefers, Get(m, k), Get(Replay(prefers, home, m, log), k))
  {
    if log != [] {
      assert !TakesAway(log[|log| - 1]);
      ReplayAdvances(prefers, home, m, log[..|log| - 1], k);
    }
  }
}
