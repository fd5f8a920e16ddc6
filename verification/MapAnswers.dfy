/** What concurrent callers of the sharded map get back: every call returns what the flat map
    returns at the call's place in the log of what was carried out. */
module MapAnswers {
  import opened Sequences
  import opened FlatMap
  import opened MapLog
  import opened MapSteps
  import opened MapOrder

  /** A reading of the flat map that `m` became after the reading's place in `log`. */
  predicate ReadsLog<K(==), V(==)>(
      prefers: (V, V) -> bool, home: K -> nat, m: map<K, V>, log: seq<Entry<K, V>>, r: Reading<K, V>)
  {
    r.at <= |log| && r.found == Get(Replay(prefers, home, m, log[..r.at]), r.key)
  }

  ghost predicate AnswersFlat<K, V>(prefers: (V, V) -> bool, home: K -> nat, m: map<K, V>, w: World<K, V>) {
    && w.answers == Responses(prefers, home, m, w.log)
    && (forall i :: 0 <= i < |w.readings| ==> ReadsLog(prefers, home, m, w.log, w.readings[i]))
    && (forall i, j :: 0 <= i < j < |w.readings| ==> w.readings[i].at <= w.readings[j].at)
  }

  lemma {:induction false} StillReadsLog<K, V>(
      prefers: (V, V) -> bool, home: K -> nat, m: map<K, V>, log: seq<Entry<K, V>>, more: seq<Entry<K, V>>,
      r: Reading<K, V>)
    requires ReadsLog(prefers, home, m, log, r)
    ensures ReadsLog(prefers, home, m, log + more, r)
  {
    assert (log + more)[..r.at] == log[..r.at];
  }

  /** A section returns what doing its entries to the flat map returns. */
  lemma {:induction false} SectionAnswersAsLog<K(!new), V>(
      prefers: (V, V) -> bool, home: K -> nat, shards: seq<map<K, V>>, client: nat, s: Section<K, V>, at: nat)
    requires Placed(home, shards) && SectionOk(home, |shards|, s)
    ensures SectionAnswers(prefers, shards, s) == Responses(prefers, home, Flat(shards), SectionEntries(client, s))
    ensures SectionReadings(shards, s, at) == if s.Peek? then [Reading(at, s.key, Get(Flat(shards), s.key))] else []
  {
    match s {
      case Write(b, ops) =>
        SectionAnswersFlat(prefers, home, shards, b, ops);
        ReplayDids(prefers, home, Flat(shards), client, ops);
      case Peek(_, key) => BucketHoldsKey(home, shards, key);
      case Wipe(b) => ReplayOne(prefers, home, Flat(shards), Wiped(client, b));
    }
  }

  lemma {:induction false} StepAnswersFlat<K(!new), V>(
      prefers: (V, V) -> bool, home: K -> nat, m: map<K, V>, w: World<K, V>, move: Move<K, V>)
    requires WellFormed(home, w) && Enabled(w, move) && AnswersFlat(prefers, home, m, w)
    requires Flat(w.shards) == Replay(prefers, home, m, w.log)
    ensures AnswersFlat(prefers, home, m, Next(prefers, home, w, move))
  {
    if move.Run? {
      var s, w' := w.clients[move.client][0], Next(prefers, home, w, move);
      assert SectionOk(home, |w.shards|, s);
      SectionAnswersAsLog(prefers, home, w.shards, move.client, s, |w.log|);
      ReplayConcat(prefers, home, m, w.log, Carried(w, move));
      forall i | 0 <= i < |w.readings| ensures ReadsLog(prefers, home, m, w'.log, w.readings[i]) {
        StillReadsLog(prefers, home, m, w.log, Carried(w, move), w.readings[i]);
      }
      assert (w.log + Carried(w, move))[..|w.log|] == w.log;
    }
  }

  /** In any interleaving of any calls, every `Insert`, `Update` and `Delete` (the operations of
      batches too) returns what the flat map returns when the log is replayed in order, and every
      `LookUp` finds what the flat map holds at its place in the log; lookups stand in the log in
      the order they were made. */
  lemma {:induction false} CallsReturnWhatTheFlatMapReturns<K(!new), V>(
      prefers: (V, V) -> bool, home: K -> nat, w: World<K, V>, moves: seq<Move<K, V>>)
    requires WellFormed(home, w) && Possible(prefers, home, w, moves)
    requires w.log == [] && w.answers == [] && w.readings == []
    ensures AnswersFlat(prefers, home, Flat(w.shards), After(prefers, home, w, moves))
  {
    if moves != [] {
      var init := moves[..|moves| - 1];
      var before := After(prefers, home, w, init);
      CallsReturnWhatTheFlatMapReturns(prefers, home, w, init);
      RunKeepsWellFormed(prefers, home, w, init);
      RunIsItsLog(prefers, home, w, init);
      assert Since(w, before) == before.log;
      StepAnswersFlat(prefers, home, Flat(w.shards), before, moves[|moves| - 1]);
    }
  }

  /** Key by key: the key ends as the log makes of it, each operation on it returns whether it was
      accepted there, and each `LookUp` of it finds what the log had made of it by then. */
  lemma {:induction false} RunDecidesEachKey<K(!new), V>(
      prefers: (V, V) -> bool, home: K -> nat, w: World<K, V>, moves: seq<Move<K, V>>, k: K)
    requires Fresh(home, w) && Possible(prefers, home, w, moves)
    ensures var w', held := After(prefers, home, w, moves), Get(Flat(w.shards), k);
            && Get(Flat(w'.shards), k) == LogMakes(prefers, home, held, w'.log, k)
            && |w'.answers| == |w'.log|
            && (forall i :: 0 <= i < |w'.log| && w'.log[i].Did? && w'.log[i].op.key == k ==>
                  w'.answers[i] == Accepted(prefers, LogMakes(prefers, home, held, w'.log[..i], k), w'.log[i].op))
            && (forall i :: 0 <= i < |w'.readings| && w'.readings[i].key == k ==>
                  w'.readings[i].at <= |w'.log|
                  && w'.readings[i].found == LogMakes(prefers, home, held, w'.log[..w'.readings[i].at], k))
  {
    var w', m := After(prefers, home, w, moves), Flat(w.shards);
    RunIsItsLog(prefers, home, w, moves);
    assert Since(w, w') == w'.log;
    CallsReturnWhatTheFlatMapReturns(prefers, home, w, moves);
    LogDecidesEachKey(prefers, home, m, w'.log, k);
    forall i | 0 <= i < |w'.readings| && w'.readings[i].key == k
      ensures w'.readings[i].at <= |w'.log|
      ensures w'.readings[i].found == LogMakes(prefers, home, Get(m, k), w'.log[..w'.readings[i].at], k)
    {
      assert ReadsLog(prefers, home, m, w'.log, w'.readings[i]);
      LogDecidesEachKey(prefers, home, m, w'.log[..w'.readings[i].at], k);
    }
  }

  // ---------------------------------------------------------------- every lookup is answered

  function ReadsKey<K(==), V>(k: K): Reading<K, V> -> int { (r: Reading<K, V>) => if r.key == k then 1 else 0 }
  function PeeksAt<K(==), V>(k: K): Section<K, V> -> int {
    (s: Section<K, V>) => if s.Peek? && s.key == k then 1 else 0
  }
  function PeeksOf<K(==), V>(k: K): seq<Section<K, V>> -> int {
    (sections: seq<Section<K, V>>) => Sum(sections, PeeksAt(k))
  }
  function LooksUp<K(==), V>(k: K): Move<K, V> -> int {
    (m: Move<K, V>) => if m.Issue? && m.call == LookUp(k) then 1 else 0
  }

  lemma {:induction false} HeadPeek<K, V>(sections: seq<Section<K, V>>, k: K)
    requires sections != []
    ensures Sum(sections, PeeksAt(k)) == PeeksAt(k)(sections[0]) + Sum(sections[1..], PeeksAt(k))
  {
    assert sections == [sections[0]] + sections[1..];
    SumConcat([sections[0]], sections[1..], PeeksAt(k));
    assert [sections[0]] == [] + [sections[0]];
    SumAppend([], sections[0], PeeksAt(k));
  }

  lemma {:induction false} ProgramPeeks<K(!new), V>(home: K -> nat, n: nat, call: Call<K, V>, k: K)
    ensures Sum(Program(home, n, call), PeeksAt(k)) == if call == LookUp(k) then 1 else 0
  {
    if call.LookUp? {
      assert Program(home, n, call) == [] + [Peek(home(call.key), call.key)];
      SumAppend([], Peek(home(call.key), call.key), PeeksAt<K, V>(k));
    } else {
      SumBounds(Program(home, n, call), PeeksAt(k), 0);
    }
  }

  lemma {:induction false} StepKeepsLookUps<K(!new), V>(
      prefers: (V, V) -> bool, home: K -> nat, w: World<K, V>, m: Move<K, V>, k: K)
    requires WellFormed(home, w) && Enabled(w, m)
    ensures var w' := Next(prefers, home, w, m);
            Sum(w'.readings, ReadsKey(k)) + Sum(w'.clients, PeeksOf(k)) ==
              Sum(w.readings, ReadsKey(k)) + Sum(w.clients, PeeksOf(k)) + LooksUp(k)(m)
  {
    var w' := Next(prefers, home, w, m);
    SumUpdate(w.clients, m.client, w'.clients[m.client], PeeksOf(k));
    if m.Issue? {
      ProgramPeeks(home, |w.shards|, m.call, k);
    } else {
      var s := w.clients[m.client][0];
      HeadPeek(w.clients[m.client], k);
      assert SectionOk(home, |w.shards|, s);
      if s.Peek? {
        SumAppend(w.readings, Reading(|w.log|, s.key, Get(w.shards[s.bucket], s.key)), ReadsKey(k));
      } else {
        assert w'.readings == w.readings;
      }
    }
  }

  /** Every `LookUp` called for has returned one reading of its key or is still to run. */
  lemma {:induction false} EveryLookUpIsAnswered<K(!new), V>(
      prefers: (V, V) -> bool, home: K -> nat, w: World<K, V>, moves: seq<Move<K, V>>, k: K)
    requires Fresh(home, w) && Possible(prefers, home, w, moves)
    ensures var w' := After(prefers, home, w, moves);
            Sum(w'.readings, ReadsKey(k)) + Sum(w'.clients, PeeksOf(k)) == Sum(moves, LooksUp(k))
    ensures Idle(After(prefers, home, w, moves)) ==>
      Sum(After(prefers, home, w, moves).readings, ReadsKey(k)) == Sum(moves, LooksUp(k))
  {
    LookUpsCounted(prefers, home, w, moves, k);
    SumBounds(w.clients, PeeksOf<K, V>(k), 0);
    if Idle(After(prefers, home, w, moves)) {
      SumBounds(After(prefers, home, w, moves).clients, PeeksOf<K, V>(k), 0);
    }
  }

  lemma {:induction false} LookUpsCounted<K(!new), V>(
      prefers: (V, V) -> bool, home: K -> nat, w: World<K, V>, moves: seq<Move<K, V>>, k: K)
    requires WellFormed(home, w) && Possible(prefers, home, w, moves)
    ensures var w' := After(prefers, home, w, moves);
            Sum(w'.readings, ReadsKey(k)) + Sum(w'.clients, PeeksOf(k)) ==
              Sum(w.readings, ReadsKey(k)) + Sum(w.clients, PeeksOf(k)) + Sum(moves, LooksUp(k))
  {
    if moves != [] {
      var init := moves[..|moves| - 1];
      LookUpsCounted(prefers, home, w, init, k);
      RunKeepsWellFormed(prefers, home, w, init);
      StepKeepsLookUps(prefers, home, After(prefers, home, w, init), moves[|moves| - 1], k);
    }
  }

  // ---------------------------------------------------------------- monotonic reads, as returned

  lemma {:induction false} LaterReadingAdvances<K, V(!new)>(
      prefers: (V, V) -> bool, home: K -> nat, m: map<K, V>, log: seq<Entry<K, V>>, a: Reading<K, V>, b: Reading<K, V>)
    requires Transitive(prefers) && !Removing(log)
    requires ReadsLog(prefers, home, m, log, a) && ReadsLog(prefers, home, m, log, b)
    requires a.key == b.key && a.at <= b.at
    ensures Advances(prefers, a.found, b.found)
  {
    var between := log[a.at..b.at];
    assert log[..b.at] == log[..a.at] + between;
    ReplayConcat(prefers, home, m, log[..a.at], between);
    forall j | 0 <= j < |between| ensures !TakesAway(between[j]) {
      assert !TakesAway(log[a.at + j]);
    }
    ReplayAdvances(prefers, home, Replay(prefers, home, m, log[..a.at]), between, a.key);
  }

  /** Over any concurrent run without removals, what a `LookUp` returns is what an earlier `LookUp`
      of the same key returned or something preferred to it, and a key once found stays found. */
  lemma {:induction false} LookUpsAreMonotonic<K(!new), V(!new)>(
      prefers: (V, V) -> bool, home: K -> nat, w: World<K, V>, moves: seq<Move<K, V>>, i: nat, j: nat)
    requires Transitive(prefers) && Fresh(home, w) && Possible(prefers, home, w, moves)
    requires forall i :: 0 <= i < |moves| ==> !StartsRemoval(moves[i])
    requires i < j < |After(prefers, home, w, moves).readings|
    requires var readings := After(prefers, home, w, moves).readings; readings[i].key == readings[j].key
    ensures var readings := After(prefers, home, w, moves).readings;
            Advances(prefers, readings[i].found, readings[j].found)
  {
    var w' := After(prefers, home, w, moves);
    CallsReturnWhatTheFlatMapReturns(prefers, home, w, moves);
    NothingRemovedSince(prefers, home, w, moves);
    assert Since(w, w') == w'.log;
    LaterReadingAdvances(prefers, home, Flat(w.shards), w'.log, w'.readings[i], w'.readings[j]);
  }
}
