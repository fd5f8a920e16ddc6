/** That the monitor gets on: the dispatcher comes to rest having delivered what was kept, and `Stop`
    always returns. */
module ProcMonitorProgress {
  import opened Sequences
  import opened ProcMonitorSteps
  import opened ProcMonitorProofs

  // ---------------------------------------------------------------- everything is delivered

  /** Steps of the dispatcher's own, spurious wakeups aside. */
  predicate Dispatches(m: Move) {
    m.Lock? || m.Wake? || m.Deliver? || m.FinishBatch?
  }

  function DispatcherSteps(m: Move): int { if Dispatches(m) then 1 else 0 }
  function Pushes(m: Move): int { if m.Push? then 1 else 0 }

  /** Other steps that may set the dispatcher going: a spurious wakeup, `Start`, the notification of `Stop`. */
  function Stirs(m: Move): int { if m.Spurious? || m.Start? || m.NotifyAll? then 1 else 0 }

  /** What the dispatcher can still do unless it is set going again. */
  function Load(s: Monitor): nat {
    3 * |s.queue| +
    match s.dispatcher
    case AtLock => 1
    case Notified => 3
    case Delivering(batch) => |batch| + 2
    case _ => 0
  }

  lemma {:induction false} DispatcherStepDescends(s: Monitor, m: Move)
    requires Inv(s) && Enabled(s, m)
    ensures Load(Next(s, m)) + DispatcherSteps(m) <= Load(s) + 6 * Pushes(m) + 3 * Stirs(m)
  {
  }

  lemma {:induction false} DispatcherRunDescends(s: Monitor, moves: seq<Move>)
    requires Inv(s) && Possible(s, moves)
    ensures Load(After(s, moves)) + Sum(moves, DispatcherSteps)
         <= Load(s) + 6 * Sum(moves, Pushes) + 3 * Sum(moves, Stirs)
    ensures |After(s, moves).accepted| == |s.accepted| + Sum(moves, Pushes)
  {
    if moves != [] {
      var init, m := moves[..|moves| - 1], moves[|moves| - 1];
      DispatcherRunDescends(s, init);
      RunKeepsInv(s, init);
      DispatcherStepDescends(After(s, init), m);
    }
  }

  /** The dispatcher has no step of its own. */
  ghost predicate DispatcherRests(s: Monitor) {
    forall m :: Dispatches(m) ==> !Enabled(s, m)
  }

  /** A started monitor nobody is stopping: the dispatcher rests exactly when it waits, and then every
      accepted event has been swapped out and all that was kept of each swap is delivered. */
  lemma {:induction false} RestsExactlyWhenDelivered(s: Monitor)
    requires Reachable(s) && s.controller.On?
    ensures DispatcherRests(s) <==> s.dispatcher.Waiting?
    ensures s.dispatcher.Waiting? ==>
      && s.queue == [] && s.accepted == AllOf(s.chunks) && s.delivered == KeptOf(s.chunks)
      && (s.delivered == s.accepted <==> forall i :: 0 <= i < |s.chunks| ==> |s.chunks[i]| <= QUEUE_MAX + 1)
  {
    ReachableKeepsInv(s);
    if DispatcherRests(s) {
      RestingDispatcherWaits(s);
    }
    if s.dispatcher.Waiting? {
      assert |Kept(s.sinceSwap)| == 0 && s.sinceSwap == [];
      KeptShorter(s.chunks);
    }
  }

  lemma {:induction false} RestingDispatcherWaits(s: Monitor)
    requires Inv(s) && s.controller.On? && DispatcherRests(s)
    ensures s.dispatcher.Waiting?
  {
    assert !Enabled(s, Lock) && !Enabled(s, Wake) && !Enabled(s, Deliver) && !Enabled(s, FinishBatch);
  }

  /** However the threads are scheduled, the dispatcher takes at most six steps per event accepted
      and three per start, stop and spurious wakeup; and a started monitor in which it can take no
      more has delivered every accepted event that no overflow dropped. */
  lemma {:induction false} EveryKeptEventIsDelivered(moves: seq<Move>)
    requires Possible(INITIAL, moves)
    ensures var s := After(INITIAL, moves);
            && Sum(moves, DispatcherSteps) <= 6 * |s.accepted| + 3 * Sum(moves, Stirs)
            && (s.controller.On? && DispatcherRests(s) ==>
                  s.accepted == AllOf(s.chunks) && s.delivered == KeptOf(s.chunks))
  {
    var s := After(INITIAL, moves);
    DispatcherRunDescends(INITIAL, moves);
    assert Reachable(s);
    if s.controller.On? {
      RestsExactlyWhenDelivered(s);
    }
  }

  // ---------------------------------------------------------------- Stop returns

  predicate Stopping(s: Monitor) {
    s.controller.JoinProducer? || s.controller.Notify? || s.controller.JoinDispatcher?
  }

  function ProducerWork(p: Producer): nat {
    match p
    case Polling => 1
    case Receiving => 4
    case Pushing(_) => 3
    case _ => 0
  }

  function DispatcherWork(d: Dispatcher, queued: nat): nat {
    match d
    case AtLock => 1
    case Waiting => queued + 4
    case Notified => queued + 3
    case Delivering(batch) => |batch| + 2
    case _ => 0
  }

  function ControllerWork(c: Controller): nat {
    match c
    case JoinProducer => 3
    case Notify => 2
    case JoinDispatcher => 1
    case _ => 0
  }

  /** An upper bound on the steps left until `Stop` returns. */
  function StopWork(s: Monitor): nat {
    ProducerWork(s.producer) + DispatcherWork(s.dispatcher, |s.queue|) + ControllerWork(s.controller)
  }

  lemma {:induction false} StopStepDescends(s: Monitor, m: Move)
    requires Phases(s) && Stopping(s) && Enabled(s, m)
    ensures StopWork(Next(s, m)) < StopWork(s)
    ensures !m.DispatcherJoined? ==> Stopping(Next(s, m))
  {
  }

  /** Until `Stop` has joined both threads, some step is possible. */
  lemma {:induction false} StopNeverStuck(s: Monitor) returns (m: Move)
    requires Inv(s) && Stopping(s)
    ensures Enabled(s, m)
  {
    if s.controller.Notify? {
      m := NotifyAll;
    } else if s.controller.JoinProducer? {
      m := match s.producer
        case Polling => Poll
        case Receiving => Receive(Failed)
        case Pushing(_) => Push
        case _ => ProducerJoined;
    } else {
      m := match s.dispatcher
        case AtLock => Lock
        case Notified => Wake
        case Delivering(batch) => if batch == [] then FinishBatch else Deliver
        case _ => DispatcherJoined;
    }
  }

  /** Once `Stop` has set the flag, every schedule, spurious wakeups and further events included,
      reaches the end of `Stop` within `StopWork` steps, and none gets stuck on the way. */
  lemma {:induction false} StopReturns(s: Monitor, moves: seq<Move>)
    requires Reachable(s) && Stopping(s) && Possible(s, moves)
    ensures DispatcherJoined !in moves ==>
      Stopping(After(s, moves)) && |moves| + StopWork(After(s, moves)) <= StopWork(s)
    ensures |moves| >= StopWork(s) ==> DispatcherJoined in moves
    ensures DispatcherJoined !in moves ==> exists m :: Enabled(After(s, moves), m)
  {
    ReachableKeepsInv(s);
    if moves != [] {
      var init, m := moves[..|moves| - 1], moves[|moves| - 1];
      assert moves == init + [m];
      StopReturns(s, init);
      RunKeepsInv(s, init);
      if DispatcherJoined !in init {
        StopStepDescends(After(s, init), m);
      }
    }
    RunKeepsInv(s, moves);
    if DispatcherJoined !in moves {
      var m := StopNeverStuck(After(s, moves));
    }
  }
}
