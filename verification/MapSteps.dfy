/** Concurrent callers of the sharded map. Each section run under one bucket's lock is one
    atomic step; a call is the list of sections it runs; any interleaving is allowed. */
module MapSteps {
  import opened Sequences
  import Runs
  import opened FlatMap
  import opened MapLog

  datatype Section<K, V> = Write(bucket: nat, ops: seq<Op<K, V>>) | Peek(bucket: nat, key: K) | Wipe(bucket: nat)

  datatype Call<K, V> = Single(op: Op<K, V>) | LookUp(key: K) | Batch(ops: seq<Op<K, V>>) | ClearAll

  /** A `LookUp` that ran after the first `at` entries of the log and returned `found`. */
  datatype Reading<K, V> = Reading(at: nat, key: K, found: Option<V>)

  /** The critical sections of a call on a map with `n` buckets, in the order it runs them. */
  function Program<K, V>(home: K -> nat, n: nat, call: Call<K, V>): seq<Section<K, V>> {
    match call
    case Single(op) => [Write(home(op.key), [op])]
    case LookUp(key) => [Peek(home(key), key)]
    case Batch(ops) => seq(n, b requires 0 <= b < n => Write(b, ForBucket(home, ops, b)))
    case ClearAll => seq(n, b requires 0 <= b < n => Wipe(b))
  }

  /** What a call is to do, in the order it was asked for. */
  function CallEntries<K, V>(client: nat, n: nat, call: Call<K, V>): seq<Entry<K, V>> {
    match call
    case Single(op) => [Did(client, op)]
    case LookUp(_) => []
    case Batch(ops) => Dids(client, ops)
    case ClearAll => seq(n, b requires 0 <= b < n => Wiped(client, b))
  }

  /** `clients[c]` is what client `c` still has to run of its current call; `issued` and `log`
      are the histories of what was called for and of what was carried out, `answers` what each
      entry of the latter returned, and `readings` what the lookups returned. */
  datatype World<K, V> = World(
    shards: seq<map<K, V>>, clients: seq<seq<Section<K, V>>>, issued: seq<Entry<K, V>>,
    log: seq<Entry<K, V>>, answers: seq<bool>, readings: seq<Reading<K, V>>)

  datatype Move<K, V> = Issue(client: nat, call: Call<K, V>) | Run(client: nat)

  predicate Enabled<K, V>(w: World<K, V>, m: Move<K, V>) {
    m.client < |w.clients| && if m.Issue? then w.clients[m.client] == [] else w.clients[m.client] != []
  }

  predicate SectionFits<K, V>(n: nat, s: Section<K, V>) {
    s.bucket < n
  }

  function RunSection<K, V>(prefers: (V, V) -> bool, shards: seq<map<K, V>>, s: Section<K, V>): (r: seq<map<K, V>>)
    ensures |r| == |shards|
  {
    if !SectionFits(|shards|, s) then shards
    else
      match s
      case Write(b, ops) => shards[b := ApplyAll(prefers, shards[b], ops)]
      case Peek(_, _) => shards
      case Wipe(b) => shards[b := map[]]
  }

  function SectionOps<K, V>(s: Section<K, V>): seq<Op<K, V>> {
    if s.Write? then s.ops else []
  }

  /** What a section run by `client` carries out. */
  function SectionEntries<K, V>(client: nat, s: Section<K, V>): seq<Entry<K, V>> {
    match s
    case Write(_, ops) => Dids(client, ops)
    case Peek(_, _) => []
    case Wipe(b) => [Wiped(client, b)]
  }

  /** What the operations, respectively the lookup, of a section return. */
  function SectionAnswers<K, V>(prefers: (V, V) -> bool, shards: seq<map<K, V>>, s: Section<K, V>): seq<bool> {
    if !SectionFits(|shards|, s) then []
    else
      match s
      case Write(b, ops) => Answers(prefers, shards[b], ops)
      case Peek(_, _) => []
      case Wipe(_) => [true]
  }

  function SectionReadings<K, V>(shards: seq<map<K, V>>, s: Section<K, V>, at: nat): seq<Reading<K, V>> {
    if s.Peek? && SectionFits(|shards|, s) then [Reading(at, s.key, Get(shards[s.bucket], s.key))] else []
  }

  function Next<K(==), V(==)>(prefers: (V, V) -> bool, home: K -> nat, w: World<K, V>, m: Move<K, V>): World<K, V>
    requires Enabled(w, m)
  {
    match m
    case Issue(c, call) =>
      w.(clients := w.clients[c := Program(home, |w.shards|, call)],
         issued := w.issued + CallEntries(c, |w.shards|, call))
    case Run(c) =>
      var s := w.clients[c][0];
      w.(shards := RunSection(prefers, w.shards, s), clients := w.clients[c := w.clients[c][1..]],
         log := w.log + SectionEntries(c, s), answers := w.answers + SectionAnswers(prefers, w.shards, s),
         readings := w.readings + SectionReadings(w.shards, s, |w.log|))
  }

  ghost function Step<K, V>(prefers: (V, V) -> bool, home: K -> nat): (World<K, V>, Move<K, V>) --> World<K, V> {
    (w, m) requires Enabled(w, m) => Next(prefers, home, w, m)
  }

  ghost predicate Possible<K, V>(prefers: (V, V) -> bool, home: K -> nat, w: World<K, V>, moves: seq<Move<K, V>>) {
    Runs.Possible(Enabled, Step(prefers, home), w, moves)
  }

  /** The world after a run. */
  ghost function After<K, V>(
      prefers: (V, V) -> bool, home: K -> nat, w: World<K, V>, moves: seq<Move<K, V>>): World<K, V>
    requires Possible(prefers, home, w, moves)
  {
    Runs.After(Enabled, Step(prefers, home), w, moves)
  }

  // ---------------------------------------------------------------- what every step keeps

  ghost predicate SectionOk<K, V>(home: K -> nat, n: nat, s: Section<K, V>) {
    SectionFits(n, s) && AllHome(home, SectionOps(s), s.bucket) && (s.Peek? ==> s.bucket == home(s.key))
  }

  ghost predicate WellFormed<K(!new), V>(home: K -> nat, w: World<K, V>) {
    && (forall k :: home(k) < |w.shards|)
    && Placed(home, w.shards)
    && forall c, i :: 0 <= c < |w.clients| && 0 <= i < |w.clients[c]| ==> SectionOk(home, |w.shards|, w.clients[c][i])
  }

  lemma {:induction false} ProgramOk<K(!new), V>(home: K -> nat, n: nat, call: Call<K, V>)
    requires forall k :: home(k) < n
    ensures forall i :: 0 <= i < |Program(home, n, call)| ==> SectionOk(home, n, Program(home, n, call)[i])
  {
    if call.Batch? {
      forall b | 0 <= b < n ensures SectionOk(home, n, Program(home, n, call)[b]) {
        ForBucketIsHome(home, call.ops, b);
      }
    }
  }

  /** What a step carries out. */
  function Carried<K, V>(w: World<K, V>, m: Move<K, V>): seq<Entry<K, V>>
    requires Enabled(w, m)
  {
    if m.Run? then SectionEntries(m.client, w.clients[m.client][0]) else []
  }

  /** Every step keeps every key in its home bucket and does what it carries out to the flat map. */
  lemma {:induction false} StepKeepsWellFormed<K(!new), V>(
      prefers: (V, V) -> bool, home: K -> nat, w: World<K, V>, m: Move<K, V>)
    requires WellFormed(home, w) && Enabled(w, m)
    ensures WellFormed(home, Next(prefers, home, w, m))
    ensures Flat(Next(prefers, home, w, m).shards) == Replay(prefers, home, Flat(w.shards), Carried(w, m))
    ensures Next(prefers, home, w, m).log == w.log + Carried(w, m)
  {
    var w' := Next(prefers, home, w, m);
    if m.Issue? {
      ProgramOk(home, |w.shards|, m.call);
    } else {
      var s := w.clients[m.client][0];
      assert SectionOk(home, |w.shards|, s);
      assert forall i :: 0 <= i < |w'.clients[m.client]| ==> w'.clients[m.client][i] == w.clients[m.client][i + 1];
      if s.Write? {
        SectionRefinesFlat(prefers, home, w.shards, s.bucket, s.ops);
        ReplayDids(prefers, home, Flat(w.shards), m.client, s.ops);
      } else if s.Wipe? {
        WipeRefinesFlat(home, w.shards, s.bucket);
        ReplayOne(prefers, home, Flat(w.shards), Wiped(m.client, s.bucket));
      }
    }
  }

  lemma {:induction false} RunKeepsWellFormed<K(!new), V>(
      prefers: (V, V) -> bool, home: K -> nat, w: World<K, V>, moves: seq<Move<K, V>>)
    requires WellFormed(home, w) && Possible(prefers, home, w, moves)
    ensures WellFormed(home, After(prefers, home, w, moves)) && |After(prefers, home, w, moves).shards| == |w.shards|
  {
    if moves != [] {
      var init := moves[..|moves| - 1];
      RunKeepsWellFormed(prefers, home, w, init);
      StepKeepsWellFormed(prefers, home, After(prefers, home, w, init), moves[|moves| - 1]);
    }
  }

  /** What a run from `w` to `w'` has added to the log. */
  function Since<K, V>(w: World<K, V>, w': World<K, V>): seq<Entry<K, V>>
    requires |w.log| <= |w'.log|
  {
    w'.log[|w.log|..]
  }

  /** The flat map of `w'` is that of `w` with what was logged in between. */
  ghost predicate IsItsLog<K, V>(prefers: (V, V) -> bool, home: K -> nat, w: World<K, V>, w': World<K, V>) {
    && |w.log| <= |w'.log| && w'.log == w.log + Since(w, w')
    && Flat(w'.shards) == Replay(prefers, home, Flat(w.shards), Since(w, w'))
  }

  lemma {:induction false} LogGrows<K, V>(
      prefers: (V, V) -> bool, home: K -> nat, w: World<K, V>, w': World<K, V>, w'': World<K, V>,
      more: seq<Entry<K, V>>)
    requires IsItsLog(prefers, home, w, w') && w''.log == w'.log + more
    requires Flat(w''.shards) == Replay(prefers, home, Flat(w'.shards), more)
    ensures IsItsLog(prefers, home, w, w'') && Since(w, w'') == Since(w, w') + more
  {
    var so := Since(w, w');
    Associate(w.log, so, more);
    ReplayConcat(prefers, home, Flat(w.shards), so, more);
  }

  /** Any interleaving of any calls has done to the flat map exactly what it added to the log, in
      log order. */
  lemma {:induction false} RunIsItsLog<K(!new), V>(
      prefers: (V, V) -> bool, home: K -> nat, w: World<K, V>, moves: seq<Move<K, V>>)
    requires WellFormed(home, w) && Possible(prefers, home, w, moves)
    ensures IsItsLog(prefers, home, w, After(prefers, home, w, moves))
  {
    if moves != [] {
      var init, m := moves[..|moves| - 1], moves[|moves| - 1];
      var before := After(prefers, home, w, init);
      RunIsItsLog(prefers, home, w, init);
      RunKeepsWellFormed(prefers, home, w, init);
      StepKeepsWellFormed(prefers, home, before, m);
      LogGrows(prefers, home, w, before, After(prefers, home, w, moves), Carried(before, m));
    }
  }

  // ---------------------------------------------------------------- monotonic reads

  ghost predicate NoRemovalPending<K, V>(w: World<K, V>) {
    forall c, i :: 0 <= c < |w.clients| && 0 <= i < |w.clients[c]| ==> !Removing(SectionEntries(c, w.clients[c][i]))
  }

  /** A move that starts a call which may take a key away. */
  predicate StartsRemoval<K, V>(m: Move<K, V>) {
    m.Issue? && (m.call.ClearAll? || Removing(CallEntries(m.client, 0, m.call)))
  }

  lemma {:induction false} ProgramStaysRemovalFree<K(!new), V>(
      home: K -> nat, n: nat, client: nat, call: Call<K, V>)
    requires !call.ClearAll? && !Removing(CallEntries(client, 0, call))
    ensures forall i :: 0 <= i < |Program(home, n, call)| ==>
      !Removing(SectionEntries(client, Program(home, n, call)[i]))
  {
    match call {
      case Single(op) => assert !TakesAway(CallEntries(client, 0, call)[0]);
      case LookUp(_) =>
      case Batch(ops) =>
        forall b | 0 <= b < n ensures !Removing(Dids(client, ForBucket(home, ops, b))) {
          ForBucketIsHome(home, ops, b);
          var part := ForBucket(home, ops, b);
          forall j | 0 <= j < |part| ensures !part[j].Remove? {
            assert part[j] in part;
            var i :| 0 <= i < |ops| && ops[i] == part[j];
            assert !TakesAway(Dids(client, ops)[i]);
          }
        }
    }
  }

  lemma {:induction false} StepKeepsNoRemoval<K(!new), V>(
      prefers: (V, V) -> bool, home: K -> nat, w: World<K, V>, m: Move<K, V>)
    requires NoRemovalPending(w) && Enabled(w, m) && !StartsRemoval(m)
    ensures NoRemovalPending(Next(prefers, home, w, m)) && !Removing(Carried(w, m))
  {
    var w' := Next(prefers, home, w, m);
    if m.Issue? {
      ProgramStaysRemovalFree(home, |w.shards|, m.client, m.call);
    } else {
      assert forall i :: 0 <= i < |w'.clients[m.client]| ==> w'.clients[m.client][i] == w.clients[m.client][i + 1];
    }
  }

  lemma {:induction false} NothingRemovedSince<K(!new), V>(
      prefers: (V, V) -> bool, home: K -> nat, w: World<K, V>, moves: seq<Move<K, V>>)
    requires WellFormed(home, w) && NoRemovalPending(w) && Possible(prefers, home, w, moves)
    requires forall i :: 0 <= i < |moves| ==> !StartsRemoval(moves[i])
    ensures var w' := After(prefers, home, w, moves);
            NoRemovalPending(w') && |w.log| <= |w'.log| && !Removing(Since(w, w'))
  {
    if moves != [] {
      var init, m := moves[..|moves| - 1], moves[|moves| - 1];
      NothingRemovedSince(prefers, home, w, init);
      var before, after := After(prefers, home, w, init), After(prefers, home, w, moves);
      StepKeepsNoRemoval(prefers, home, before, m);
      var log, more := Since(w, before), Carried(before, m);
      forall j | 0 <= j < |log + more| ensures !TakesAway((log + more)[j]) {
        assert if j < |log| then !TakesAway(log[j]) else !TakesAway(more[j - |log|]);
      }
      assert after.log == before.log + more;
      assert Since(w, after) == log + more;
    }
  }

  /** Over any concurrent run without removals, updates included, the entry of a key only advances
      to values preferred to it, and a key once present stays present. */
  lemma {:induction false} MonotonicReads<K(!new), V(!new)>(
      prefers: (V, V) -> bool, home: K -> nat, w: World<K, V>, moves: seq<Move<K, V>>, k: K)
    requires Transitive(prefers) && WellFormed(home, w) && NoRemovalPending(w) && Possible(prefers, home, w, moves)
    requires forall i :: 0 <= i < |moves| ==> !StartsRemoval(moves[i])
    ensures Advances(prefers, Get(Flat(w.shards), k), Get(Flat(After(prefers, home, w, moves).shards), k))
  {
    RunIsItsLog(prefers, home, w, moves);
    NothingRemovedSince(prefers, home, w, moves);
    ReplayAdvances(prefers, home, Flat(w.shards), Since(w, After(prefers, home, w, moves)), k);
  }
}
