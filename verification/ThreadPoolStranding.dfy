/** Which producers `stop` leaves inside `run`. Nobody signals `notFull_` once the workers are gone,
    so a call gets out only if the queue still has room for its task: how many stay behind is
    computed exactly, and the two conditions under which none does, whatever the schedule or for a
    lucky one, are proved exact. */
module ThreadPoolStranding {
  import opened Sequences
  import Runs
  import opened ThreadPoolSteps
  import opened ThreadPoolSafety
  import opened ThreadPoolProgress

  function WaitingOne(p: Producer): int { if Waiting(p) then 1 else 0 }

  /** How many producers are inside `run`, and how many workers are on their way into `take`. */
  function Waiters(s: Pool): int { Sum(s.producers, WaitingOne) }
  function Takers(s: Pool): int { Sum(s.workers, InTake) }

  function Min(a: int, b: int): int { if a <= b then a else b }
  function Max(a: int, b: int): int { if a <= b then b else a }

  predicate Stopped(s: Pool) {
    !s.running && s.workers != []
  }

  predicate AllOut(s: Pool) {
    forall p :: 0 <= p < |s.producers| ==> s.producers[p].Outside?
  }

  // ---------------------------------------------------------------- how many stay behind

  /** One step of a stopped pool: a call inside `run` becomes a queued task, a queued task a taken
      one, and a worker in `take` takes a task if there is one. */
  lemma {:induction false} StoppedStepConserves(s: Pool, m: Move)
    requires Inv(s) && Stopped(s) && Enabled(s, m)
    ensures Stopped(Next(s, m)) && Next(s, m).limit == s.limit
    ensures var s' := Next(s, m);
            && |s'.queue| + Waiters(s') + |s'.taken| == |s.queue| + Waiters(s) + |s.taken| + Submits(m)
            && |s'.taken| + Takers(s') <= |s.taken| + Takers(s)
            && |s'.taken| + Min(Takers(s'), |s'.queue|) >= |s.taken| + Min(Takers(s), |s.queue|)
  {
    var s' := Next(s, m);
    if m.Submit? || m.EnterRun? || m.FinishInline? || m.SpuriousProducer? {
      SumUpdate(s.producers, m.p, s'.producers[m.p], WaitingOne);
    } else if m.EnterTake? {
      SumBounds(s'.workers, InTake, 1);
      SumUpdate(s.workers, m.w, s'.workers[m.w], InTake);
      if m.woken.Some? {
        SumUpdate(s.producers, m.woken.value, s'.producers[m.woken.value], WaitingOne);
      }
    } else if !m.Join? {
      SumUpdate(s.workers, m.w, s'.workers[m.w], InTake);
    }
  }

  lemma {:induction false} StoppedRunConserves(s: Pool, moves: seq<Move>)
    requires Inv(s) && Stopped(s) && Possible(s, moves)
    ensures Inv(After(s, moves)) && Stopped(After(s, moves)) && After(s, moves).limit == s.limit
    ensures var s' := After(s, moves);
            && |s'.queue| + Waiters(s') + |s'.taken| == |s.queue| + Waiters(s) + |s.taken| + Sum(moves, Submits)
            && |s'.taken| + Takers(s') <= |s.taken| + Takers(s)
            && |s'.taken| + Min(Takers(s'), |s'.queue|) >= |s.taken| + Min(Takers(s), |s.queue|)
  {
    if moves != [] {
      var init, m := moves[..|moves| - 1], moves[|moves| - 1];
      StoppedRunConserves(s, init);
      StoppedStepConserves(After(s, init), m);
      StepKeepsInv(After(s, init), m);
    }
  }

  /** A stopped pool at rest: the workers are gone, and whoever is inside `run` sleeps on a full queue. */
  lemma {:induction false} StoppedRest(s: Pool)
    requires Inv(s) && Stopped(s) && AtRest(s)
    ensures forall w :: 0 <= w < |s.workers| ==> s.workers[w].Exited?
    ensures Takers(s) == 0 && Waiters(s) >= 0 && (AllOut(s) <==> Waiters(s) == 0)
    ensures Waiters(s) > 0 ==> s.limit > 0 && |s.queue| == s.limit
  {
    forall w | 0 <= w < |s.workers| ensures s.workers[w].Exited? {
      var woken := SomeProducerChoice(s.producers);
      if s.queue == [] || s.limit == 0 {
        woken := None;
      }
      assert !Enabled(s, CheckRunning(w)) && !Enabled(s, FinishTask(w)) && !Enabled(s, EnterTake(w, woken));
    }
    forall p | 0 <= p < |s.producers| ensures s.producers[p].Outside? || s.producers[p].Blocked? {
      var woken := SomeWorkerChoice(s.workers);
      if IsFull(s) {
        woken := None;
      }
      assert !Enabled(s, EnterRun(p, woken));
    }
    SumBounds(s.workers, InTake, 0);
    SumBounds(s.producers, RetryingProducer, 0);
    OutMeansNoWaiters(s);
  }

  lemma {:induction false} OutMeansNoWaiters(s: Pool)
    requires OnlyNeededPhases(s) && s.workers != []
    ensures Waiters(s) >= 0 && (AllOut(s) <==> Waiters(s) == 0)
    ensures Waiters(s) > 0 ==> exists p :: 0 <= p < |s.producers| && Waiting(s.producers[p])
  {
    SumBounds(s.producers, WaitingOne, 1);
    if forall p :: 0 <= p < |s.producers| ==> !Waiting(s.producers[p]) {
      SumBounds(s.producers, WaitingOne, 0);
    } else {
      var p :| 0 <= p < |s.producers| && Waiting(s.producers[p]);
      assert WaitingOne(s.producers[p]) == 1;
    }
  }

  /** However a stopped pool comes to rest, spurious wakeups and further calls included: the workers
      that were in `take` took a task each, or none if the queue ran dry, and the calls left inside
      `run` are exactly those for whose tasks the bound leaves no room. */
  lemma {:induction false} LeftBehindExactly(s: Pool, moves: seq<Move>)
    requires Reachable(s) && Stopped(s) && Possible(s, moves) && AtRest(After(s, moves))
    ensures var s' := After(s, moves);
            var begun := |s'.taken| - |s.taken|;
            && Min(Takers(s), |s.queue|) <= begun <= Takers(s)
            && (AllOut(s') <==> Waiters(s') == 0)
            && Waiters(s') == if s.limit == 0 then 0
                              else Max(0, |s.queue| + Waiters(s) + Sum(moves, Submits) - begun - s.limit)
  {
    ReachableKeepsInv(s);
    StoppedRunConserves(s, moves);
    StoppedRest(After(s, moves));
  }

  /** The free slots cover the calls inside `run`. */
  predicate Fits(s: Pool) {
    s.limit == 0 || |s.queue| + Waiters(s) <= s.limit
  }

  predicate NoCalls(moves: seq<Move>) {
    forall i :: 0 <= i < |moves| ==> !moves[i].Submit?
  }

  /** Once the workers are gone, the calls inside `run` get out if and only if they fit: at rest they
      are all out if they do, and after every run some call is still inside if they do not. */
  lemma {:induction false} OutExactlyIfTheyFit(s: Pool, moves: seq<Move>)
    requires Reachable(s) && Stopped(s) && Possible(s, moves) && NoCalls(moves)
    requires forall w :: 0 <= w < |s.workers| ==> s.workers[w].Exited?
    ensures AtRest(After(s, moves)) ==> (AllOut(After(s, moves)) <==> Fits(s))
    ensures !Fits(s) ==>
      var s' := After(s, moves); exists p :: 0 <= p < |s'.producers| && Waiting(s'.producers[p])
  {
    ReachableKeepsInv(s);
    StoppedRunConserves(s, moves);
    SumBounds(s.workers, InTake, 0);
    SumBounds(After(s, moves).workers, InTake, 1);
    SumBounds(moves, Submits, 0);
    OutMeansNoWaiters(After(s, moves));
    if AtRest(After(s, moves)) {
      StoppedRest(After(s, moves));
    }
  }

  // ---------------------------------------------------------------- rest is reached

  function WaitWeight(p: Producer): int {
    match p
    case Outside => 0
    case Inline(_) => 1
    case Blocked(_) => 1
    case _ => 2
  }

  function RestMeasure(s: Pool): int {
    2 * Sum(s.workers, StopWeight) + Sum(s.producers, WaitWeight)
  }

  lemma {:induction false} RestMeasureIsNatural(s: Pool)
    ensures RestMeasure(s) >= 0
  {
    SumBounds(s.workers, StopWeight, 3);
    SumBounds(s.producers, WaitWeight, 2);
  }

  lemma {:induction false} StoppedInternalDescends(s: Pool, m: Move)
    requires Inv(s) && Stopped(s) && Enabled(s, m)
    ensures RestMeasure(Next(s, m)) + Internals(m) <= RestMeasure(s) + 2 * Submits(m) + Spurious(m)
  {
    var s' := Next(s, m);
    if m.Submit? || m.EnterRun? || m.FinishInline? || m.SpuriousProducer? {
      SumUpdate(s.producers, m.p, s'.producers[m.p], WaitWeight);
    } else if m.EnterTake? {
      SumUpdate(s.workers, m.w, s'.workers[m.w], StopWeight);
      if m.woken.Some? {
        SumUpdate(s.producers, m.woken.value, s'.producers[m.woken.value], WaitWeight);
      }
    } else if !m.Join? {
      SumUpdate(s.workers, m.w, s'.workers[m.w], StopWeight);
    }
  }

  lemma {:induction false} RestMeasureDescends(s: Pool, moves: seq<Move>)
    requires Inv(s) && Stopped(s) && Possible(s, moves)
    ensures RestMeasure(After(s, moves)) + Sum(moves, Internals)
         <= RestMeasure(s) + 2 * Sum(moves, Submits) + Sum(moves, Spurious)
  {
    if moves != [] {
      var init, m := moves[..|moves| - 1], moves[|moves| - 1];
      RestMeasureDescends(s, init);
      StoppedRunConserves(s, init);
      StoppedInternalDescends(After(s, init), m);
    }
  }

  /** A stopped pool comes to rest: its own steps are bounded, whatever the schedule. */
  lemma {:induction false} StoppedPoolComesToRest(s: Pool, moves: seq<Move>)
    requires Reachable(s) && Stopped(s) && Possible(s, moves)
    ensures Sum(moves, Internals)
         <= 6 * |s.workers| + 2 * |s.producers| + 2 * Sum(moves, Submits) + Sum(moves, Spurious)
  {
    ReachableKeepsInv(s);
    RestMeasureDescends(s, moves);
    RestMeasureIsNatural(After(s, moves));
    SumBounds(s.workers, StopWeight, 3);
    SumBounds(s.producers, WaitWeight, 2);
  }

  // ---------------------------------------------------------------- two schedules

  ghost predicate Leads(s: Pool, moves: seq<Move>, t: Pool) {
    Runs.Leads(Enabled, Next, s, moves, t)
  }

  lemma {:induction false} Prepend(s: Pool, m: Move, rest: seq<Move>, t: Pool) returns (moves: seq<Move>)
    requires Enabled(s, m) && Internal(m) && Leads(Next(s, m), rest, t) && NoCalls(rest)
    ensures Leads(s, moves, t) && NoCalls(moves)
  {
    var first := Runs.OneMore(Enabled, Next, s, [], s, m);
    Runs.Chain(Enabled, Next, s, first, Next(s, m), rest, t);
    moves := first + rest;
  }

  /** A step of a worker that has not exited, if there is one. */
  lemma {:induction false} SomeWorkerStep(s: Pool, w: nat) returns (m: Move)
    requires w < |s.workers| && !s.workers[w].Exited? && !s.workers[w].Sleeping?
    ensures Enabled(s, m) && Internal(m) && !m.EnterRun? && !m.FinishInline? && m.w == w
  {
    match s.workers[w] {
      case Looping => m := CheckRunning(w);
      case Working(_) => m := FinishTask(w);
      case _ =>
        var woken := SomeProducerChoice(s.producers);
        m := EnterTake(w, if s.queue == [] || s.limit == 0 then None else woken);
    }
  }

  lemma {:induction false} SomeProducerStep(s: Pool, p: nat) returns (m: Move)
    requires p < |s.producers| && (s.producers[p].Calling? || s.producers[p].Retrying?)
    ensures Enabled(s, m) && m.EnterRun? && m.p == p
  {
    var woken := SomeWorkerChoice(s.workers);
    m := EnterRun(p, if s.workers == [] || IsFull(s) then None else woken);
  }

  predicate Moving(p: Producer) {
    p.Calling? || p.Retrying?
  }

  lemma {:induction false} NobodyCanMove(s: Pool)
    requires Inv(s) && Stopped(s)
    requires forall w :: 0 <= w < |s.workers| ==> s.workers[w].Exited?
    requires forall p :: 0 <= p < |s.producers| ==> !Moving(s.producers[p])
    ensures AtRest(s)
  {
  }

  /** Every internal step brings rest nearer. */
  lemma {:induction false} InternalStep(s: Pool, m: Move)
    requires Inv(s) && Stopped(s) && Enabled(s, m) && Internal(m)
    ensures Inv(Next(s, m)) && Stopped(Next(s, m)) && 0 <= RestMeasure(Next(s, m)) < RestMeasure(s)
  {
    StoppedInternalDescends(s, m);
    RestMeasureIsNatural(Next(s, m));
    StoppedStepConserves(s, m);
    StepKeepsInv(s, m);
  }

  /** A worker's step settles what the workers in `take` and the queue owe each other. */
  lemma {:induction false} WorkerStepSettles(s: Pool, m: Move)
    requires Stopped(s) && Enabled(s, m) && (m.CheckRunning? || m.EnterTake? || m.FinishTask?)
    ensures |Next(s, m).taken| + Min(Takers(Next(s, m)), |Next(s, m).queue|) == |s.taken| + Min(Takers(s), |s.queue|)
    ensures s.queue != [] ==> |Next(s, m).queue| - Takers(Next(s, m)) == |s.queue| - Takers(s)
    ensures s.queue == [] ==> Next(s, m).queue == [] && Takers(Next(s, m)) >= 0
  {
    SumUpdate(s.workers, m.w, Next(s, m).workers[m.w], InTake);
    SumBounds(Next(s, m).workers, InTake, 1);
  }

  lemma {:induction false} LateCallTakesNothing(s: Pool, m: Move)
    requires Enabled(s, m) && m.EnterRun? && forall w :: 0 <= w < |s.workers| ==> s.workers[w].Exited?
    ensures |Next(s, m).taken| + Min(Takers(Next(s, m)), |Next(s, m).queue|) == |s.taken| + Min(Takers(s), |s.queue|)
  {
    SumBounds(s.workers, InTake, 0);
    SumBounds(Next(s, m).workers, InTake, 0);
  }

  /** The schedule that lets as few calls out as any: the workers leave before any producer moves. */
  lemma {:induction false} WorkersFirst(s: Pool) returns (moves: seq<Move>, t: Pool)
    requires Inv(s) && Stopped(s)
    ensures Leads(s, moves, t) && NoCalls(moves) && AtRest(t)
    ensures |t.taken| == |s.taken| + Min(Takers(s), |s.queue|)
    decreases RestMeasure(s)
  {
    RestMeasureIsNatural(s);
    var m: Move;
    if w: nat :| w < |s.workers| && !s.workers[w].Exited? {
      m := SomeWorkerStep(s, w);
      WorkerStepSettles(s, m);
    } else if p: nat :| p < |s.producers| && Moving(s.producers[p]) {
      m := SomeProducerStep(s, p);
      LateCallTakesNothing(s, m);
    } else {
      SumBounds(s.workers, InTake, 0);
      NobodyCanMove(s);
      return [], s;
    }
    InternalStep(s, m);
    var rest;
    rest, t := WorkersFirst(Next(s, m));
    moves := Prepend(s, m, rest, t);
  }

  /** Room for all: the bound covers the queued tasks and the calls inside `run`, less one for each
      worker in `take`. */
  predicate MayFit(s: Pool) {
    s.limit == 0 || |s.queue| + Waiters(s) <= s.limit + Takers(s)
  }

  /** While nobody can move but somebody is inside `run`, the queue is full: no worker takes in vain. */
  lemma {:induction false} QueueFeedsTakers(s: Pool)
    requires Inv(s) && Stopped(s)
    requires forall p :: 0 <= p < |s.producers| ==> !Moving(s.producers[p])
    ensures Waiters(s) >= 0
    ensures Waiters(s) > 0 ==> s.limit > 0 && |s.queue| == s.limit
  {
    OutMeansNoWaiters(s);
    SumBounds(s.producers, RetryingProducer, 0);
  }

  lemma {:induction false} WorkerStepKeepsRoom(s: Pool, m: Move)
    requires Inv(s) && Stopped(s) && MayFit(s)
    requires Enabled(s, m) && (m.CheckRunning? || m.EnterTake? || m.FinishTask?)
    requires forall p :: 0 <= p < |s.producers| ==> !Moving(s.producers[p])
    ensures MayFit(Next(s, m))
  {
    QueueFeedsTakers(s);
    WorkerStepSettles(s, m);
    StoppedStepConserves(s, m);
  }

  /** The schedule that lets as many calls out as any: a producer moves whenever one can, a worker
      only when none can. */
  lemma {:induction false} ProducersFirst(s: Pool) returns (moves: seq<Move>, t: Pool)
    requires Inv(s) && Stopped(s) && MayFit(s)
    ensures Leads(s, moves, t) && NoCalls(moves) && AtRest(t) && AllOut(t)
    decreases RestMeasure(s)
  {
    RestMeasureIsNatural(s);
    var m: Move;
    if p: nat :| p < |s.producers| && Moving(s.producers[p]) {
      m := SomeProducerStep(s, p);
      StoppedStepConserves(s, m);
    } else if w: nat :| w < |s.workers| && !s.workers[w].Exited? {
      m := SomeWorkerStep(s, w);
      WorkerStepKeepsRoom(s, m);
    } else {
      SumBounds(s.workers, InTake, 0);
      NobodyCanMove(s);
      StoppedRest(s);
      return [], s;
    }
    InternalStep(s, m);
    var rest;
    rest, t := ProducersFirst(Next(s, m));
    moves := Prepend(s, m, rest, t);
  }

  // ---------------------------------------------------------------- when stop strands nobody

  /** Under every schedule without further calls, a stopped pool that has come to rest has let
      every call out. */
  ghost predicate AlwaysLetsOut(s: Pool) {
    forall moves :: Possible(s, moves) && NoCalls(moves) && AtRest(After(s, moves)) ==> AllOut(After(s, moves))
  }

  /** Some schedule without further calls lets every call out. */
  ghost predicate MayLetOut(s: Pool) {
    exists moves :: Possible(s, moves) && NoCalls(moves) && AllOut(After(s, moves))
  }

  /** Room for all even if a worker wastes its turn whenever the queue is empty. */
  predicate MustFit(s: Pool) {
    s.limit == 0 || Max(0, |s.queue| - Takers(s)) + Waiters(s) <= s.limit
  }

  lemma {:induction false} RestExactly(s: Pool, moves: seq<Move>)
    requires Reachable(s) && Stopped(s) && Possible(s, moves) && NoCalls(moves) && AtRest(After(s, moves))
    ensures MustFit(s) ==> AllOut(After(s, moves))
    ensures |After(s, moves).taken| == |s.taken| + Min(Takers(s), |s.queue|) && AllOut(After(s, moves)) ==> MustFit(s)
  {
    LeftBehindExactly(s, moves);
    SumBounds(moves, Submits, 0);
  }

  /** `stop` strands nobody, whatever the schedule, if and only if the tasks that stay queued when
      every worker in `take` has taken one leave room for every call inside `run`. */
  lemma {:induction false} NobodyIsStrandedExactly(s: Pool)
    requires Reachable(s) && Stopped(s)
    ensures AlwaysLetsOut(s) <==> MustFit(s)
  {
    ReachableKeepsInv(s);
    forall moves | Possible(s, moves) && NoCalls(moves) && AtRest(After(s, moves))
      ensures MustFit(s) ==> AllOut(After(s, moves))
    {
      RestExactly(s, moves);
    }
    var moves, t := WorkersFirst(s);
    RestExactly(s, moves);
    assert AlwaysLetsOut(s) ==> AllOut(After(s, moves));
  }

  /** Some schedule strands nobody if and only if the bound covers the queued tasks and the calls
      inside `run`, less one for each worker in `take`. */
  lemma {:induction false} SomeScheduleStrandsNobodyExactly(s: Pool)
    requires Reachable(s) && Stopped(s)
    ensures MayLetOut(s) <==> MayFit(s)
  {
    ReachableKeepsInv(s);
    if MayLetOut(s) {
      var moves :| Possible(s, moves) && NoCalls(moves) && AllOut(After(s, moves));
      StoppedRunConserves(s, moves);
      SumBounds(moves, Submits, 0);
      SumBounds(After(s, moves).workers, InTake, 1);
      OutMeansNoWaiters(After(s, moves));
    }
    if MayFit(s) {
      var moves, t := ProducersFirst(s);
      assert Possible(s, moves) && After(s, moves) == t;
    }
  }

  // ---------------------------------------------------------------- a reachable example

  /** `stop` never signals `notFull_`: once the workers are gone and the queue is full, no producer
      inside `run` ever gets out of it, spurious wakeups or not. */
  lemma {:induction false} FullStoppedPoolStrandsProducers(s: Pool, moves: seq<Move>)
    requires IsFull(s) && s.workers != [] && !s.running && Possible(s, moves)
    requires forall w :: 0 <= w < |s.workers| ==> s.workers[w].Exited?
    ensures After(s, moves).queue == s.queue && After(s, moves).workers == s.workers
    ensures !After(s, moves).running && After(s, moves).limit == s.limit
    ensures |After(s, moves).producers| == |s.producers|
    ensures forall p :: 0 <= p < |s.producers| && Waiting(s.producers[p]) ==>
      Waiting(After(s, moves).producers[p]) && After(s, moves).producers[p].task == s.producers[p].task
  {
    if moves != [] {
      var init, m := moves[..|moves| - 1], moves[|moves| - 1];
      FullStoppedPoolStrandsProducers(s, init);
      assert After(s, moves) == Next(After(s, init), m);
    }
  }

  /** And such a state is reachable: one worker, room for one task, two producers. The worker reads
      `running_` only after `stop`, so the first task stays queued and the second call never returns. */
  lemma {:induction false} StopCanStrandAProducer() returns (s: Pool)
    ensures Reachable(s) && !s.running && s.joined == |s.workers| == 1 && s.workers[0].Exited?
    ensures IsFull(s) && |s.producers| == 2 && s.producers[1] == Blocked(11)
  {
    var s0 := Started(1, 1, 2);
    var s1 := Next(s0, Submit(0, 10));
    var s2 := Next(s1, EnterRun(0, None));
    var s3 := Next(s2, Submit(1, 11));
    var s4 := Next(s3, EnterRun(1, None));
    var s5 := Next(s4, Stop);
    var s6 := Next(s5, CheckRunning(0));
    s := Next(s6, Join);
    var moves := Runs.OneMore(Enabled, Next, s0, [], s0, Submit(0, 10));
    moves := Runs.OneMore(Enabled, Next, s0, moves, s1, EnterRun(0, None));
    moves := Runs.OneMore(Enabled, Next, s0, moves, s2, Submit(1, 11));
    moves := Runs.OneMore(Enabled, Next, s0, moves, s3, EnterRun(1, None));
    moves := Runs.OneMore(Enabled, Next, s0, moves, s4, Stop);
    moves := Runs.OneMore(Enabled, Next, s0, moves, s5, CheckRunning(0));
    moves := Runs.OneMore(Enabled, Next, s0, moves, s6, Join);
    assert Possible(Started(1, 1, 2), moves) && s == After(Started(1, 1, 2), moves);
  }
}
