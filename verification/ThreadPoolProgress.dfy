/** What the thread pool is for: while running, every submitted task gets finished whatever the
    scheduler does; after `stop`, the workers leave and every `join` returns. */
module ThreadPoolProgress {
  import opened Sequences
  import Runs
  import opened ThreadPoolSteps
  import opened ThreadPoolSafety

  // ---------------------------------------------------------------- no deadlock while running

  /** Steps of the pool itself: not a new call, a spurious wakeup, or `stop`. */
  predicate Internal(m: Move) {
    m.EnterRun? || m.FinishInline? || m.CheckRunning? || m.EnterTake? || m.FinishTask?
  }

  ghost predicate AtRest(s: Pool) {
    forall m :: Internal(m) ==> !Enabled(s, m)
  }

  predicate AllDone(s: Pool) {
    && s.queue == []
    && (forall p :: 0 <= p < |s.producers| ==> s.producers[p].Outside?)
    && (forall w :: 0 <= w < |s.workers| ==> s.workers[w].Sleeping?)
  }

  lemma {:induction false} SomeWorkerChoice(ws: seq<Worker>) returns (woken: Option<nat>)
    ensures WorkerChoice(ws, woken)
  {
    if i :| 0 <= i < |ws| && ws[i].Sleeping? {
      woken := Some(i);
    } else {
      woken := None;
    }
  }

  lemma {:induction false} SomeProducerChoice(ps: seq<Producer>) returns (woken: Option<nat>)
    ensures ProducerChoice(ps, woken)
  {
    if i :| 0 <= i < |ps| && ps[i].Blocked? {
      woken := Some(i);
    } else {
      woken := None;
    }
  }

  /** At rest every worker sleeps and every producer is outside `run` or blocked in it. */
  lemma {:induction false} RestingPhases(s: Pool)
    requires Inv(s) && s.running && AtRest(s)
    ensures forall w :: 0 <= w < |s.workers| ==> s.workers[w].Sleeping?
    ensures forall p :: 0 <= p < |s.producers| ==> s.producers[p].Outside? || s.producers[p].Blocked?
  {
    forall w | 0 <= w < |s.workers| ensures s.workers[w].Sleeping? {
      var woken := SomeProducerChoice(s.producers);
      if s.queue == [] || s.limit == 0 {
        woken := None;
      }
      assert !Enabled(s, CheckRunning(w)) && !Enabled(s, FinishTask(w)) && !Enabled(s, EnterTake(w, woken));
    }
    forall p | 0 <= p < |s.producers| ensures s.producers[p].Outside? || s.producers[p].Blocked? {
      var woken := SomeWorkerChoice(s.workers);
      if s.workers == [] || IsFull(s) {
        woken := None;
      }
      assert !Enabled(s, FinishInline(p)) && !Enabled(s, EnterRun(p, woken));
    }
  }

  lemma {:induction false} RestingPoolIsDone(s: Pool)
    requires Inv(s) && s.running && AtRest(s)
    ensures AllDone(s)
  {
    RestingPhases(s);
    SumBounds(s.workers, WokenWorker, 0);
    SumBounds(s.producers, RetryingProducer, 0);
    if s.workers != [] {
      assert s.workers[0].Sleeping?;
    }
    assert s.queue == [];
    forall p | 0 <= p < |s.producers| ensures s.producers[p].Outside? {
      assert s.producers[p].Blocked? ==> s.limit > 0;
    }
  }

  /** No deadlock: a running pool comes to rest exactly when nobody waits and nothing is queued. */
  lemma {:induction false} RestsExactlyWhenDone(s: Pool)
    requires Reachable(s) && s.running
    ensures AtRest(s) <==> AllDone(s)
  {
    ReachableKeepsInv(s);
    if AtRest(s) {
      RestingPoolIsDone(s);
    }
  }

  /** Hence at rest every submitted task has been finished, as often as it was submitted. */
  lemma {:induction false} AtRestEverythingIsFinished(s: Pool, t: Task)
    requires Reachable(s) && s.running && AtRest(s)
    ensures multiset(s.finished)[t] == multiset(s.submitted)[t]
  {
    RestsExactlyWhenDone(s);
    ReachableKeepsInv(s);
    SumBounds(s.workers, WorkerHolds(t), 0);
    SumBounds(s.producers, ProducerHolds(t), 0);
    assert ExactlyOnePlace(s, t);
  }

  // ---------------------------------------------------------------- and rest is reached

  function WorkerWeight(w: Worker): int {
    match w
    case Looping => 2
    case Taking => 1
    case Sleeping => 0
    case Woken => 1
    case Working(_) => 3
    case Exited => 0
  }

  function ProducerWeight(p: Producer): int {
    match p
    case Outside => 0
    case Inline(_) => 1
    case Calling(_) => 7
    case Blocked(_) => 6
    case Retrying(_) => 7
  }

  function Measure(s: Pool): int {
    Sum(s.workers, WorkerWeight) + Sum(s.producers, ProducerWeight) + 4 * |s.queue|
  }

  function Internals(m: Move): int { if Internal(m) then 1 else 0 }
  function Submits(m: Move): int { if m.Submit? then 1 else 0 }
  function Spurious(m: Move): int { if m.SpuriousWorker? || m.SpuriousProducer? then 1 else 0 }

  lemma {:induction false} MeasureIsNatural(s: Pool)
    ensures Measure(s) >= 0
  {
    SumBounds(s.workers, WorkerWeight, 3);
    SumBounds(s.producers, ProducerWeight, 7);
  }

  /** Each internal step of a running pool uses up measure; a call or a spurious wakeup adds little. */
  lemma {:induction false} StepDescends(s: Pool, m: Move)
    requires s.running && Enabled(s, m) && !m.Stop?
    ensures Next(s, m).running
    ensures Measure(Next(s, m)) + Internals(m) <= Measure(s) + 7 * Submits(m) + Spurious(m)
  {
    var s' := Next(s, m);
    if m.EnterRun? {
      SumUpdate(s.producers, m.p, s'.producers[m.p], ProducerWeight);
      if m.woken.Some? {
        SumUpdate(s.workers, m.woken.value, Woken, WorkerWeight);
      }
    } else if m.EnterTake? {
      SumUpdate(s.workers, m.w, s'.workers[m.w], WorkerWeight);
      if m.woken.Some? {
        SumUpdate(s.producers, m.woken.value, s'.producers[m.woken.value], ProducerWeight);
      }
    } else if m.Submit? || m.FinishInline? || m.SpuriousProducer? {
      SumUpdate(s.producers, m.p, s'.producers[m.p], ProducerWeight);
    } else {
      SumUpdate(s.workers, m.w, s'.workers[m.w], WorkerWeight);
    }
  }

  lemma {:induction false} RunDescends(s: Pool, moves: seq<Move>)
    requires s.running && Possible(s, moves) && Stop !in moves
    ensures After(s, moves).running
    ensures Measure(After(s, moves)) + Sum(moves, Internals)
         <= Measure(s) + 7 * Sum(moves, Submits) + Sum(moves, Spurious)
  {
    if moves != [] {
      var init, m := moves[..|moves| - 1], moves[|moves| - 1];
      assert m in moves;
      RunDescends(s, init);
      StepDescends(After(s, init), m);
    }
  }

  /** However they are scheduled, `n` workers and any number of producers take at most
      `2n + 7 * calls + spurious wakeups` internal steps, and a run that can take no more of them
      has finished every task submitted to it. */
  lemma {:induction false} EverySubmittedTaskIsFinished(limit: nat, n: nat, producers: nat, moves: seq<Move>)
    requires Possible(Started(limit, n, producers), moves) && Stop !in moves
    ensures Sum(moves, Internals) <= 2 * n + 7 * Sum(moves, Submits) + Sum(moves, Spurious)
    ensures var s := After(Started(limit, n, producers), moves);
            AtRest(s) ==> AllDone(s) && forall t :: multiset(s.finished)[t] == multiset(s.submitted)[t]
  {
    var start := Started(limit, n, producers);
    RunDescends(start, moves);
    MeasureIsNatural(After(start, moves));
    SumBounds(start.workers, WorkerWeight, 2);
    SumBounds(start.producers, ProducerWeight, 0);
    var s := After(start, moves);
    if AtRest(s) {
      RestsExactlyWhenDone(s);
      forall t ensures multiset(s.finished)[t] == multiset(s.submitted)[t] {
        AtRestEverythingIsFinished(s, t);
      }
    }
  }

  // ---------------------------------------------------------------- stop terminates

  function StopWeight(w: Worker): int {
    match w
    case Exited => 0
    case Looping => 1
    case Working(_) => 2
    case _ => 3
  }

  function StopMeasure(s: Pool): int {
    Sum(s.workers, StopWeight) + |s.workers| - s.joined
  }

  lemma {:induction false} StopMeasureIsNatural(s: Pool)
    requires OnlyNeededPhases(s)
    ensures StopMeasure(s) >= 0
  {
    SumBounds(s.workers, StopWeight, 3);
  }

  /** Steps of the workers, and of `stop` joining them. */
  predicate WindsDown(m: Move) {
    m.CheckRunning? || m.EnterTake? || m.FinishTask? || m.Join?
  }

  function WindDowns(m: Move): int { if WindsDown(m) then 1 else 0 }

  lemma {:induction false} StoppedStepDescends(s: Pool, m: Move)
    requires Inv(s) && !s.running && Enabled(s, m)
    ensures !Next(s, m).running && |Next(s, m).workers| == |s.workers|
    ensures StopMeasure(Next(s, m)) + WindDowns(m) <= StopMeasure(s)
  {
    var s' := Next(s, m);
    if m.CheckRunning? || m.EnterTake? || m.FinishTask? || m.SpuriousWorker? {
      SumUpdate(s.workers, m.w, s'.workers[m.w], StopWeight);
    }
  }

  lemma {:induction false} StoppedRunDescends(s: Pool, moves: seq<Move>)
    requires Inv(s) && !s.running && Possible(s, moves)
    ensures !After(s, moves).running && Inv(After(s, moves)) && |After(s, moves).workers| == |s.workers|
    ensures StopMeasure(After(s, moves)) + Sum(moves, WindDowns) <= StopMeasure(s)
  {
    if moves != [] {
      var init, m := moves[..|moves| - 1], moves[|moves| - 1];
      StoppedRunDescends(s, init);
      StoppedStepDescends(After(s, init), m);
      StepKeepsInv(After(s, init), m);
    }
  }

  lemma {:induction false} StoppedRunStaysAwake(s: Pool, moves: seq<Move>)
    requires Inv(s) && !s.running && Possible(s, moves)
    ensures !After(s, moves).running && StoppedMeansAwake(After(s, moves))
  {
    StoppedRunDescends(s, moves);
  }

  ghost predicate WoundDown(s: Pool) {
    forall m :: WindsDown(m) ==> !Enabled(s, m)
  }

  lemma {:induction false} WoundDownMeansJoined(s: Pool)
    requires Inv(s) && !s.running && WoundDown(s)
    ensures s.joined == |s.workers| && forall w :: 0 <= w < |s.workers| ==> s.workers[w].Exited?
  {
    forall w | 0 <= w < |s.workers| ensures s.workers[w].Exited? {
      var woken := SomeProducerChoice(s.producers);
      if s.queue == [] || s.limit == 0 {
        woken := None;
      }
      assert !Enabled(s, CheckRunning(w)) && !Enabled(s, FinishTask(w)) && !Enabled(s, EnterTake(w, woken));
    }
    assert !Enabled(s, Join);
  }

  /** After `stop` no worker sleeps again; at most `4 * |workers|` more worker and join steps can
      happen, whatever producers do meanwhile; and when none is left, every worker has exited and
      every `join` has returned. */
  lemma {:induction false} StopTerminates(s: Pool, moves: seq<Move>)
    requires Reachable(s) && !s.running && Possible(s, moves)
    ensures |After(s, moves).workers| == |s.workers|
    ensures forall w :: 0 <= w < |s.workers| ==> !After(s, moves).workers[w].Sleeping?
    ensures Sum(moves, WindDowns) <= 4 * |s.workers|
    ensures WoundDown(After(s, moves)) ==>
      After(s, moves).joined == |s.workers| && forall w :: 0 <= w < |s.workers| ==> After(s, moves).workers[w].Exited?
  {
    ReachableKeepsInv(s);
    StoppedRunDescends(s, moves);
    SumBounds(s.workers, StopWeight, 3);
    SumBounds(After(s, moves).workers, StopWeight, 3);
    if WoundDown(After(s, moves)) {
      WoundDownMeansJoined(After(s, moves));
    }
  }

  // ---------------------------------------------------------------- what stop leaves undone

  function Takes(w: nat): Move -> int { (m: Move) => if m.EnterTake? && m.w == w then 1 else 0 }

  predicate MayTake(s: Pool, w: nat) {
    w < |s.workers| && (s.workers[w].Taking? || s.workers[w].Woken?)
  }

  lemma {:induction false} StoppedStepTakesOnce(s: Pool, m: Move, w: nat)
    requires StoppedMeansAwake(s) && !s.running && Enabled(s, m)
    ensures Takes(w)(m) + (if MayTake(Next(s, m), w) then 1 else 0) <= (if MayTake(s, w) then 1 else 0)
  {
  }

  /** After `stop` each worker enters `take` at most once more, and only if it was already on its
      way in: so it begins at most one further task. */
  lemma {:induction false} EachWorkerTakesAtMostOnce(s: Pool, moves: seq<Move>, w: nat)
    requires Inv(s) && !s.running && Possible(s, moves)
    ensures Sum(moves, Takes(w)) + (if MayTake(After(s, moves), w) then 1 else 0) <= (if MayTake(s, w) then 1 else 0)
  {
    if moves != [] {
      var init, m := moves[..|moves| - 1], moves[|moves| - 1];
      EachWorkerTakesAtMostOnce(s, init, w);
      StoppedRunDescends(s, init);
      StoppedStepTakesOnce(After(s, init), m, w);
    }
  }

  function InTake(w: Worker): int { if w.Taking? || w.Woken? then 1 else 0 }

  lemma {:induction false} StepTakesFront(s: Pool, m: Move) returns (begun: seq<Task>, late: seq<Task>)
    requires Enabled(s, m)
    ensures Next(s, m).taken == s.taken + begun
    ensures begun + Next(s, m).queue == s.queue + late
  {
    begun := if m.EnterTake? && s.queue != [] then [s.queue[0]] else [];
    late := if m.EnterRun? && Next(s, m).queue != s.queue then [s.producers[m.p].task] else [];
  }

  lemma {:induction false} StoppedStepSpendsBudget(s: Pool, m: Move)
    requires StoppedMeansAwake(s) && !s.running && Enabled(s, m)
    ensures |Next(s, m).taken| + Sum(Next(s, m).workers, InTake) <= |s.taken| + Sum(s.workers, InTake)
  {
    var s' := Next(s, m);
    if m.CheckRunning? || m.EnterTake? || m.FinishTask? || m.SpuriousWorker? {
      SumUpdate(s.workers, m.w, s'.workers[m.w], InTake);
    }
  }

  lemma {:induction false} StoppedRunSpendsBudget(s: Pool, moves: seq<Move>)
    requires Inv(s) && !s.running && Possible(s, moves)
    ensures |After(s, moves).taken| + Sum(After(s, moves).workers, InTake) <= |s.taken| + Sum(s.workers, InTake)
  {
    if moves != [] {
      StoppedRunSpendsBudget(s, moves[..|moves| - 1]);
      StoppedRunStaysAwake(s, moves[..|moves| - 1]);
      StoppedStepSpendsBudget(After(s, moves[..|moves| - 1]), moves[|moves| - 1]);
    }
  }

  lemma {:induction false} Splice<T>(
      q: seq<T>, b0: seq<T>, l0: seq<T>, mid: seq<T>, b1: seq<T>, l1: seq<T>, end: seq<T>)
    requires b0 + mid == q + l0 && b1 + end == mid + l1
    ensures (b0 + b1) + end == q + (l0 + l1)
  {
    calc {
      (b0 + b1) + end;
      b0 + (b1 + end);
      (b0 + mid) + l1;
      q + (l0 + l1);
    }
  }

  lemma {:induction false} TakenFromFront(s: Pool, moves: seq<Move>) returns (begun: seq<Task>, late: seq<Task>)
    requires Possible(s, moves)
    ensures After(s, moves).taken == s.taken + begun
    ensures begun + After(s, moves).queue == s.queue + late
  {
    if moves == [] {
      begun, late := [], [];
    } else {
      var mid, m := After(s, moves[..|moves| - 1]), moves[|moves| - 1];
      var begun0, late0 := TakenFromFront(s, moves[..|moves| - 1]);
      var begun1, late1 := StepTakesFront(mid, m);
      begun, late := begun0 + begun1, late0 + late1;
      Splice(s.queue, begun0, late0, mid.queue, begun1, late1, After(s, moves).queue);
    }
  }

  /** The tasks begun after `stop` are the front of the queue, at most one per worker that was
      inside `take`; the rest stay queued, ahead of anything still pushed. */
  lemma {:induction false} TakenAfterStop(s: Pool, moves: seq<Move>) returns (begun: seq<Task>, late: seq<Task>)
    requires Reachable(s) && !s.running && Possible(s, moves)
    ensures After(s, moves).taken == s.taken + begun
    ensures begun + After(s, moves).queue == s.queue + late
    ensures |begun| <= Sum(s.workers, InTake) <= |s.workers|
  {
    ReachableKeepsInv(s);
    begun, late := TakenFromFront(s, moves);
    StoppedRunSpendsBudget(s, moves);
    SumBounds(s.workers, InTake, 1);
    SumBounds(After(s, moves).workers, InTake, 1);
  }

  predicate Waiting(p: Producer) {
    p.Calling? || p.Blocked? || p.Retrying?
  }
}
