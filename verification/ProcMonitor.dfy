/** The process-event monitor as a transition system: a producer thread filling a drop-oldest queue,
    a dispatcher thread that swaps the whole queue out and delivers it, and the thread that calls
    `Start` and `Stop`. Each critical section, and each unlocked read or write of `StopThreads_`,
    is one step. The events the socket yields are arbitrary. */
module ProcMonitorSteps {
  import Runs

  type Event = nat

  /** `kProcEvQueueMaxSize` */
  const QUEUE_MAX: nat := 8 * 1024

  datatype Producer =
    | NoProducer
    | Polling             // at `while (StopThreads_ == false)`
    | Receiving           // inside `recv`
    | Pushing(ev: Event)  // accepted an event, waiting for the queue's mutex
    | ProducerExited

  datatype Dispatcher =
    | NoDispatcher
    | AtLock              // at the top of the loop, waiting for the queue's mutex
    | Waiting             // in the predicate-free `wait`
    | Notified            // taken off the condition variable, waiting for the mutex
    | Delivering(batch: seq<Event>)
    | DispatcherExited

  datatype Controller =
    | Off                 // `Started_` is false
    | On
    | JoinProducer        // `Stop` has set `StopThreads_`
    | Notify              // the producer is joined, `notify_all` not yet issued
    | JoinDispatcher      // `notify_all` issued

  /** `chunks` is the history of what was accepted between swaps, one chunk a swap, and
      `sinceSwap` what was accepted since the last one. */
  datatype Monitor = Monitor(
    stopThreads: bool, queue: seq<Event>, producer: Producer, dispatcher: Dispatcher, controller: Controller,
    accepted: seq<Event>, delivered: seq<Event>, chunks: seq<seq<Event>>, sinceSwap: seq<Event>)

  datatype Received = Accepted(ev: Event) | Ignored | Failed

  datatype Move =
    | Start
    | Poll
    | Receive(got: Received)
    | Push
    | Lock
    | Spurious
    | Wake
    | Deliver
    | FinishBatch
    | BeginStop
    | ProducerJoined
    | NotifyAll
    | DispatcherJoined

  predicate Enabled(s: Monitor, m: Move) {
    match m
    case Start => s.controller.Off?
    case Poll => s.producer.Polling?
    case Receive(_) => s.producer.Receiving?
    case Push => s.producer.Pushing?
    case Lock => s.dispatcher.AtLock?
    case Spurious => s.dispatcher.Waiting?
    case Wake => s.dispatcher.Notified?
    case Deliver => s.dispatcher.Delivering? && s.dispatcher.batch != []
    case FinishBatch => s.dispatcher.Delivering? && s.dispatcher.batch == []
    case BeginStop => s.controller.On?
    case ProducerJoined => s.controller.JoinProducer? && s.producer.ProducerExited?
    case NotifyAll => s.controller.Notify?
    case DispatcherJoined => s.controller.JoinDispatcher? && s.dispatcher.DispatcherExited?
  }

  function Roused(d: Dispatcher): Dispatcher {
    if d.Waiting? then Notified else d
  }

  /** Drop the oldest event if the queue is over-full, then append. */
  function Enqueued(queue: seq<Event>, ev: Event): seq<Event> {
    (if |queue| > QUEUE_MAX then queue[1..] else queue) + [ev]
  }

  function SwapOut(s: Monitor): Monitor {
    s.(dispatcher := Delivering(s.queue), queue := [], chunks := s.chunks + [s.sinceSwap], sinceSwap := [])
  }

  function Next(s: Monitor, m: Move): Monitor
    requires Enabled(s, m)
  {
    match m
    case Start => s.(producer := Polling, dispatcher := AtLock, controller := On)
    case Poll => s.(producer := if s.stopThreads then ProducerExited else Receiving)
    case Receive(Accepted(ev)) => s.(producer := Pushing(ev))
    case Receive(Ignored) => s.(producer := Polling)
    case Receive(Failed) => s.(producer := ProducerExited)
    case Push =>
      var ev := s.producer.ev;
      s.(queue := Enqueued(s.queue, ev), producer := Polling, dispatcher := Roused(s.dispatcher),
         accepted := s.accepted + [ev], sinceSwap := s.sinceSwap + [ev])
    case Lock =>
      if s.stopThreads then s.(dispatcher := DispatcherExited)
      else if |s.queue| > 0 then SwapOut(s)
      else s.(dispatcher := Waiting)
    case Spurious => s.(dispatcher := Notified)
    case Wake => SwapOut(s)
    case Deliver =>
      s.(dispatcher := Delivering(s.dispatcher.batch[1..]), delivered := s.delivered + [s.dispatcher.batch[0]])
    case FinishBatch => s.(dispatcher := AtLock)
    case BeginStop => s.(stopThreads := true, controller := JoinProducer)
    case ProducerJoined => s.(producer := NoProducer, controller := Notify)
    case NotifyAll => s.(dispatcher := Roused(s.dispatcher), controller := JoinDispatcher)
    case DispatcherJoined => s.(dispatcher := NoDispatcher, stopThreads := false, controller := Off)
  }

  const INITIAL := Monitor(false, [], NoProducer, NoDispatcher, Off, [], [], [], [])

  ghost predicate Possible(s: Monitor, moves: seq<Move>) {
    Runs.Possible(Enabled, Next, s, moves)
  }

  ghost function After(s: Monitor, moves: seq<Move>): Monitor
    requires Possible(s, moves)
  {
    Runs.After(Enabled, Next, s, moves)
  }

  ghost predicate Reachable(s: Monitor) {
    exists moves :: Possible(INITIAL, moves) && s == After(INITIAL, moves)
  }

  // ---------------------------------------------------------------- the invariant

  function LastOf(s: seq<Event>, n: nat): (r: seq<Event>)
    ensures |r| == if |s| <= n then |s| else n
  {
    if |s| <= n then s else s[|s| - n..]
  }

  /** What survives of a run of accepted events: the newest `QUEUE_MAX + 1`. */
  function Kept(chunk: seq<Event>): seq<Event> {
    LastOf(chunk, QUEUE_MAX + 1)
  }

  function AllOf(chunks: seq<seq<Event>>): seq<Event> {
    if chunks == [] then [] else AllOf(chunks[..|chunks| - 1]) + chunks[|chunks| - 1]
  }

  function KeptOf(chunks: seq<seq<Event>>): seq<Event> {
    if chunks == [] then [] else KeptOf(chunks[..|chunks| - 1]) + Kept(chunks[|chunks| - 1])
  }

  function InHand(d: Dispatcher): seq<Event> {
    if d.Delivering? then d.batch else []
  }

  /** The queue is the newest `QUEUE_MAX + 1` events accepted since the last swap, every batch was
      that for its swap, and what is delivered or in hand is those batches in order. */
  predicate ExactDelivery(s: Monitor) {
    && s.queue == Kept(s.sinceSwap)
    && s.accepted == AllOf(s.chunks) + s.sinceSwap
    && s.delivered + InHand(s.dispatcher) == KeptOf(s.chunks)
  }

  /** A dispatcher asleep has nothing to do: the queue is empty and `Stop` has yet to notify. */
  predicate NoMissedWakeup(s: Monitor) {
    s.dispatcher.Waiting? ==> s.queue == [] && !s.controller.JoinDispatcher?
  }

  predicate Phases(s: Monitor) {
    && (s.stopThreads <==> s.controller.JoinProducer? || s.controller.Notify? || s.controller.JoinDispatcher?)
    && (s.producer.NoProducer? <==> s.controller.Off? || s.controller.Notify? || s.controller.JoinDispatcher?)
    && (s.dispatcher.NoDispatcher? <==> s.controller.Off?)
    && (s.dispatcher.DispatcherExited? ==> s.stopThreads)
  }

  predicate Inv(s: Monitor) {
    ExactDelivery(s) && NoMissedWakeup(s) && Phases(s)
  }
}

/** What holds in every reachable state of the monitor. */
module ProcMonitorProofs {
  import opened ProcMonitorSteps

  lemma {:induction false} StepKeepsPhases(s: Monitor, m: Move)
    requires NoMissedWakeup(s) && Phases(s) && Enabled(s, m)
    ensures NoMissedWakeup(Next(s, m)) && Phases(Next(s, m))
  {
  }

  /** A swap closes a chunk: the batch is what was kept of it. */
  lemma {:induction false} SwapKeepsDelivery(s: Monitor)
    requires ExactDelivery(s) && InHand(s.dispatcher) == []
    ensures ExactDelivery(SwapOut(s))
  {
    var chunks := s.chunks + [s.sinceSwap];
    assert chunks[..|chunks| - 1] == s.chunks;
    assert s.delivered == KeptOf(s.chunks);
  }

  lemma {:induction false} PushKeepsDelivery(s: Monitor)
    requires ExactDelivery(s) && Enabled(s, Push)
    ensures ExactDelivery(Next(s, Push))
  {
    var ev := s.producer.ev;
    assert Enqueued(Kept(s.sinceSwap), ev) == Kept(s.sinceSwap + [ev]);
    assert (AllOf(s.chunks) + s.sinceSwap) + [ev] == AllOf(s.chunks) + (s.sinceSwap + [ev]);
  }

  lemma {:induction false} DeliverKeepsDelivery(s: Monitor)
    requires ExactDelivery(s) && Enabled(s, Deliver)
    ensures ExactDelivery(Next(s, Deliver))
  {
    var batch := s.dispatcher.batch;
    assert (s.delivered + [batch[0]]) + batch[1..] == s.delivered + batch;
  }

  lemma {:induction false} StepKeepsDelivery(s: Monitor, m: Move)
    requires ExactDelivery(s) && Phases(s) && Enabled(s, m)
    ensures ExactDelivery(Next(s, m))
  {
    if m.Push? {
      PushKeepsDelivery(s);
    } else if m.Deliver? {
      DeliverKeepsDelivery(s);
    } else if m.Lock? || m.Wake? {
      SwapKeepsDelivery(s);
    }
  }

  /** The monitor once the first `k` events of the batch in hand are delivered. */
  function Delivered(s: Monitor, k: nat): Monitor
    requires s.dispatcher.Delivering? && k <= |s.dispatcher.batch|
  {
    var batch := s.dispatcher.batch;
    s.(dispatcher := Delivering(batch[k..]), delivered := s.delivered + batch[..k])
  }

  lemma {:induction false} DeliveredSome(s: Monitor, k: nat)
    requires s.dispatcher.Delivering? && k <= |s.dispatcher.batch|
    ensures k == 0 ==> Delivered(s, k) == s
    ensures k < |s.dispatcher.batch| ==>
      Delivered(s, k).dispatcher.batch[0] == s.dispatcher.batch[k] &&
      Next(Delivered(s, k), Deliver) == Delivered(s, k + 1)
    ensures k == |s.dispatcher.batch| ==>
      Delivered(s, k) == s.(dispatcher := Delivering([]), delivered := s.delivered + s.dispatcher.batch)
    ensures Delivered(s, k).dispatcher.batch == [] <==> k == |s.dispatcher.batch|
  {
    var batch := s.dispatcher.batch;
    if k < |batch| {
      assert batch[..k + 1] == batch[..k] + [batch[k]];
      assert s.delivered + batch[..k + 1] == (s.delivered + batch[..k]) + [batch[k]];
    }
  }

  lemma {:induction false} RunKeepsInv(s: Monitor, moves: seq<Move>)
    requires Inv(s) && Possible(s, moves)
    ensures Inv(After(s, moves))
  {
    if moves != [] {
      var init, m := moves[..|moves| - 1], moves[|moves| - 1];
      RunKeepsInv(s, init);
      StepKeepsPhases(After(s, init), m);
      StepKeepsDelivery(After(s, init), m);
    }
  }

  /** Across any runs of `Start` and `Stop`: exact drop-oldest delivery and no missed wakeup. */
  lemma {:induction false} ReachableKeepsInv(s: Monitor)
    requires Reachable(s)
    ensures Inv(s)
    ensures |s.queue| <= QUEUE_MAX + 1
  {
    var moves :| Possible(INITIAL, moves) && s == After(INITIAL, moves);
    RunKeepsInv(INITIAL, moves);
  }

  // ---------------------------------------------------------------- order and loss

  /** `a` is `b` with some elements left out: `at` says where each element of `a` stands in `b`. */
  ghost predicate Embeds(a: seq<Event>, b: seq<Event>, at: seq<nat>) {
    && |at| == |a|
    && (forall i :: 0 <= i < |at| ==> at[i] < |b| && b[at[i]] == a[i])
    && (forall i, j :: 0 <= i < j < |at| ==> at[i] < at[j])
  }

  lemma {:induction false} EmbedConcat(
      a: seq<Event>, b: seq<Event>, c: seq<Event>, d: seq<Event>, at: seq<nat>, at': seq<nat>)
      returns (all: seq<nat>)
    requires Embeds(a, b, at) && Embeds(c, d, at')
    ensures Embeds(a + c, b + d, all)
  {
    all := at + seq(|at'|, i requires 0 <= i < |at'| => |b| + at'[i]);
  }

  lemma {:induction false} KeptEmbeds(chunk: seq<Event>) returns (at: seq<nat>)
    ensures Embeds(Kept(chunk), chunk, at)
  {
    var skipped := |chunk| - |Kept(chunk)|;
    at := seq(|Kept(chunk)|, i requires 0 <= i < |Kept(chunk)| => skipped + i);
  }

  lemma {:induction false} KeptOfEmbeds(chunks: seq<seq<Event>>) returns (at: seq<nat>)
    ensures Embeds(KeptOf(chunks), AllOf(chunks), at)
  {
    if chunks == [] {
      at := [];
    } else {
      var init, last := chunks[..|chunks| - 1], chunks[|chunks| - 1];
      var earlier := KeptOfEmbeds(init);
      var here := KeptEmbeds(last);
      at := EmbedConcat(KeptOf(init), AllOf(init), Kept(last), last, earlier, here);
    }
  }

  /** Delivered events, then the dispatcher's batch, then the queue, are the accepted events with
      some left out and the rest in order: nothing invented, doubled or reordered. */
  lemma {:induction false} DeliveryIsSubsequence(s: Monitor) returns (at: seq<nat>)
    requires Reachable(s)
    ensures Embeds(s.delivered + InHand(s.dispatcher) + s.queue, s.accepted, at)
  {
    ReachableKeepsInv(s);
    var earlier := KeptOfEmbeds(s.chunks);
    var here := KeptEmbeds(s.sinceSwap);
    at := EmbedConcat(KeptOf(s.chunks), AllOf(s.chunks), Kept(s.sinceSwap), s.sinceSwap, earlier, here);
  }

  lemma {:induction false} KeptShorter(chunks: seq<seq<Event>>)
    ensures |KeptOf(chunks)| <= |AllOf(chunks)|
    ensures |KeptOf(chunks)| == |AllOf(chunks)| <==> forall i :: 0 <= i < |chunks| ==> |chunks[i]| <= QUEUE_MAX + 1
    ensures (forall i :: 0 <= i < |chunks| ==> |chunks[i]| <= QUEUE_MAX + 1) ==> KeptOf(chunks) == AllOf(chunks)
  {
    if chunks != [] {
      var init := chunks[..|chunks| - 1];
      KeptShorter(init);
      assert chunks == init + [chunks[|chunks| - 1]];
      assert (forall i :: 0 <= i < |chunks| ==> |chunks[i]| <= QUEUE_MAX + 1) <==>
        (forall i :: 0 <= i < |init| ==> |init[i]| <= QUEUE_MAX + 1) && |chunks[|chunks| - 1]| <= QUEUE_MAX + 1;
    }
  }

  /** Events are lost exactly when more than `QUEUE_MAX + 1` of them come between two swaps. */
  lemma {:induction false} LostExactlyOnOverflow(s: Monitor)
    requires Reachable(s)
    ensures s.delivered + InHand(s.dispatcher) + s.queue == s.accepted <==>
      |s.sinceSwap| <= QUEUE_MAX + 1 && forall i :: 0 <= i < |s.chunks| ==> |s.chunks[i]| <= QUEUE_MAX + 1
  {
    ReachableKeepsInv(s);
    KeptShorter(s.chunks);
  }
}
