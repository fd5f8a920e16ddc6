/** What every step of the thread pool keeps, hence what holds in every reachable state. */
module ThreadPoolSafety {
  import opened Sequences
  import opened ThreadPoolSteps

  // ---------------------------------------------------------------- no lost wakeup

  /** A worker may change phase, and the queue its length, as long as nobody falls asleep over a
      task and no task appears without a worker woken for it. */
  lemma {:induction false} WorkerMayMove(ws: seq<Worker>, w: nat, x: Worker, queued: int, queued': int)
    requires WorkCovered(ws, queued) && w < |ws|
    requires queued' <= 0 || (!x.Sleeping? && queued' - queued <= WokenWorker(x) - WokenWorker(ws[w]))
    ensures WorkCovered(ws[w := x], queued')
  {
    SumUpdate(ws, w, x, WokenWorker);
    SumBounds(ws[w := x], WokenWorker, 1);
    var moved := ws[w := x];
    if queued' > 0 && exists i :: 0 <= i < |moved| && moved[i].Sleeping? {
      var i :| 0 <= i < |moved| && moved[i].Sleeping?;
      assert ws[i].Sleeping?;
    }
  }

  lemma {:induction false} ProducerMayMove(ps: seq<Producer>, p: nat, x: Producer, free: int, free': int)
    requires RoomCovered(ps, free) && p < |ps|
    requires free' <= 0 || (!x.Blocked? && free' - free <= RetryingProducer(x) - RetryingProducer(ps[p]))
    ensures RoomCovered(ps[p := x], free')
  {
    SumUpdate(ps, p, x, RetryingProducer);
    SumBounds(ps[p := x], RetryingProducer, 1);
    var moved := ps[p := x];
    if free' > 0 && exists i :: 0 <= i < |moved| && moved[i].Blocked? {
      var i :| 0 <= i < |moved| && moved[i].Blocked?;
      assert ps[i].Blocked?;
    }
  }

  lemma {:induction false} StepKeepsWork(s: Pool, m: Move)
    requires WorkCovered(s.workers, |s.queue|) && Enabled(s, m)
    ensures WorkCovered(Next(s, m).workers, |Next(s, m).queue|)
  {
    var s' := Next(s, m);
    match m {
      case EnterRun(_, woken) =>
        if woken.Some? {
          WorkerMayMove(s.workers, woken.value, Woken, |s.queue|, |s'.queue|);
        }
      case CheckRunning(w) => WorkerMayMove(s.workers, w, s'.workers[w], |s.queue|, |s'.queue|);
      case EnterTake(w, _) => WorkerMayMove(s.workers, w, s'.workers[w], |s.queue|, |s'.queue|);
      case FinishTask(w) => WorkerMayMove(s.workers, w, Looping, |s.queue|, |s'.queue|);
      case SpuriousWorker(w) => WorkerMayMove(s.workers, w, Woken, |s.queue|, |s'.queue|);
      case _ =>
    }
  }

  lemma {:induction false} StepKeepsRoom(s: Pool, m: Move)
    requires s.limit > 0 && RoomCovered(s.producers, s.limit - |s.queue|) && OnlyNeededPhases(s) && Enabled(s, m)
    ensures RoomCovered(Next(s, m).producers, s.limit - |Next(s, m).queue|)
  {
    var s' := Next(s, m);
    var free, free' := s.limit - |s.queue|, s.limit - |s'.queue|;
    match m {
      case EnterTake(_, woken) =>
        if woken.Some? {
          ProducerMayMove(s.producers, woken.value, s'.producers[woken.value], free, free');
        }
      case Submit(p, t) => ProducerMayMove(s.producers, p, Calling(t), free, free');
      case EnterRun(p, _) => ProducerMayMove(s.producers, p, s'.producers[p], free, free');
      case FinishInline(p) => ProducerMayMove(s.producers, p, Outside, free, free');
      case SpuriousProducer(p) => ProducerMayMove(s.producers, p, s'.producers[p], free, free');
      case _ =>
    }
  }

  // ---------------------------------------------------------------- phases, bound, order

  lemma {:induction false} StepKeepsBoundAndOrder(s: Pool, m: Move)
    requires Bounded(s) && Fifo(s) && Enabled(s, m)
    ensures Bounded(Next(s, m)) && Fifo(Next(s, m))
  {
  }

  lemma {:induction false} StepKeepsAwake(s: Pool, m: Move)
    requires StoppedMeansAwake(s) && Enabled(s, m)
    ensures StoppedMeansAwake(Next(s, m))
  {
  }

  lemma {:induction false} StepKeepsPhases(s: Pool, m: Move)
    requires OnlyNeededPhases(s) && Enabled(s, m)
    ensures OnlyNeededPhases(Next(s, m))
  {
    var s' := Next(s, m);
    forall w | 0 <= w < s'.joined ensures s'.workers[w].Exited? {
      assert w < s.joined ==> s.workers[w].Exited?;
    }
  }

  // ---------------------------------------------------------------- exactly one place

  lemma {:induction false} HeadCount(q: seq<Task>, t: Task)
    requires q != []
    ensures multiset(q)[t] == multiset(q[1..])[t] + if q[0] == t then 1 else 0
  {
    assert q == [q[0]] + q[1..];
  }

  lemma {:induction false} RunKeepsPlaces(s: Pool, p: nat, woken: Option<nat>, t: Task)
    requires ExactlyOnePlace(s, t) && TakenOnce(s, t) && Enabled(s, EnterRun(p, woken))
    ensures ExactlyOnePlace(Next(s, EnterRun(p, woken)), t) && TakenOnce(Next(s, EnterRun(p, woken)), t)
  {
    SumUpdate(s.producers, p, Next(s, EnterRun(p, woken)).producers[p], ProducerHolds(t));
    if woken.Some? {
      SumUpdate(s.workers, woken.value, Woken, WorkerHolds(t));
    }
  }

  lemma {:induction false} PopKeepsPlaces(s: Pool, w: nat, woken: Option<nat>, t: Task)
    requires ExactlyOnePlace(s, t) && TakenOnce(s, t) && Enabled(s, EnterTake(w, woken)) && s.queue != []
    ensures ExactlyOnePlace(Next(s, EnterTake(w, woken)), t) && TakenOnce(Next(s, EnterTake(w, woken)), t)
  {
    HeadCount(s.queue, t);
    SumUpdate(s.workers, w, Working(s.queue[0]), WorkerHolds(t));
    if woken.Some? {
      SumUpdate(s.producers, woken.value, Retrying(s.producers[woken.value].task), ProducerHolds(t));
    }
  }

  lemma {:induction false} ProducerMovesKeepPlaces(s: Pool, m: Move, t: Task)
    requires ExactlyOnePlace(s, t) && TakenOnce(s, t) && OnlyNeededPhases(s) && Enabled(s, m)
    requires m.Submit? || m.FinishInline? || m.SpuriousProducer?
    ensures ExactlyOnePlace(Next(s, m), t) && TakenOnce(Next(s, m), t)
  {
    SumUpdate(s.producers, m.p, Next(s, m).producers[m.p], ProducerHolds(t));
  }

  lemma {:induction false} WorkerMovesKeepPlaces(s: Pool, m: Move, t: Task)
    requires ExactlyOnePlace(s, t) && TakenOnce(s, t) && Enabled(s, m)
    requires m.CheckRunning? || m.FinishTask? || m.SpuriousWorker? || (m.EnterTake? && s.queue == [])
    ensures ExactlyOnePlace(Next(s, m), t) && TakenOnce(Next(s, m), t)
  {
    SumUpdate(s.workers, m.w, Next(s, m).workers[m.w], WorkerHolds(t));
  }

  lemma {:induction false} StepKeepsPlaces(s: Pool, m: Move, t: Task)
    requires ExactlyOnePlace(s, t) && TakenOnce(s, t) && OnlyNeededPhases(s) && Enabled(s, m)
    ensures ExactlyOnePlace(Next(s, m), t) && TakenOnce(Next(s, m), t)
  {
    if m.EnterRun? {
      RunKeepsPlaces(s, m.p, m.woken, t);
    } else if m.EnterTake? && s.queue != [] {
      PopKeepsPlaces(s, m.w, m.woken, t);
    } else if m.Submit? || m.FinishInline? || m.SpuriousProducer? {
      ProducerMovesKeepPlaces(s, m, t);
    } else if !m.Stop? && !m.Join? {
      WorkerMovesKeepPlaces(s, m, t);
    } else {
      SumPointwise(s.workers, Next(s, m).workers, WorkerHolds(t));
      SumPointwise(Next(s, m).workers, s.workers, WorkerHolds(t));
    }
  }

  // ---------------------------------------------------------------- every reachable state

  lemma {:induction false} StepKeepsInv(s: Pool, m: Move)
    requires Inv(s) && Enabled(s, m)
    ensures Inv(Next(s, m))
  {
    StepKeepsWork(s, m);
    if s.limit > 0 {
      StepKeepsRoom(s, m);
    }
    StepKeepsBoundAndOrder(s, m);
    StepKeepsAwake(s, m);
    StepKeepsPhases(s, m);
    forall t ensures ExactlyOnePlace(Next(s, m), t) && TakenOnce(Next(s, m), t) {
      StepKeepsPlaces(s, m, t);
    }
  }

  lemma {:induction false} RunKeepsInv(s: Pool, moves: seq<Move>)
    requires Inv(s) && Possible(s, moves)
    ensures Inv(After(s, moves))
  {
    if moves != [] {
      RunKeepsInv(s, moves[..|moves| - 1]);
      StepKeepsInv(After(s, moves[..|moves| - 1]), moves[|moves| - 1]);
    }
  }

  /** In every reachable state no wakeup is lost, the bound holds, tasks leave in the order they
      came, and every submitted task is in exactly one place. */
  lemma {:induction false} ReachableKeepsInv(s: Pool)
    requires Reachable(s)
    ensures Inv(s)
  {
    var limit, n, k, moves :| Possible(Started(limit, n, k), moves) && s == After(Started(limit, n, k), moves);
    var start := Started(limit, n, k);
    forall t ensures ExactlyOnePlace(start, t) && TakenOnce(start, t) {
      SumBounds(start.workers, WorkerHolds(t), 0);
      SumBounds(start.producers, ProducerHolds(t), 0);
    }
    RunKeepsInv(start, moves);
  }

  /** No task is taken, or finished, more often than it was submitted. */
  lemma {:induction false} NothingTakenTwice(s: Pool, t: Task)
    requires Reachable(s)
    ensures s.workers != [] ==> multiset(s.finished)[t] <= multiset(s.taken)[t] <= multiset(s.submitted)[t]
    ensures multiset(s.finished)[t] <= multiset(s.submitted)[t]
  {
    ReachableKeepsInv(s);
    SumBounds(s.workers, WorkerHolds(t), 1);
    SumBounds(s.producers, ProducerHolds(t), 1);
    assert ExactlyOnePlace(s, t) && TakenOnce(s, t);
  }
}
