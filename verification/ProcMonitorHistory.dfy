/** What the histories of the monitor record: the loss and delivery theorems restated for the events
    the socket yielded, taken from the moves alone, and for what the dispatcher is seen to do. */
module ProcMonitorHistory {
  import opened Sequences
  import Runs
  import opened ProcMonitorSteps
  import opened ProcMonitorProofs
  import opened ProcMonitorProgress

  /** The events of interest that `recv` returned, in order. */
  function Heard(moves: seq<Move>): seq<Event> {
    if moves == [] then []
    else
      Heard(moves[..|moves| - 1]) +
      match moves[|moves| - 1]
      case Receive(Accepted(ev)) => [ev]
      case _ => []
  }

  /** The event the producer is about to push. */
  function InProducerHand(p: Producer): seq<Event> {
    if p.Pushing? then [p.ev] else []
  }

  /** The event that leaves the dispatcher's batch in a step. */
  function HandsOut(before: Monitor, m: Move): seq<Event> {
    if m.Deliver? && before.dispatcher.Delivering? && before.dispatcher.batch != [] then [before.dispatcher.batch[0]]
    else []
  }

  ghost function HandedOut(moves: seq<Move>): seq<Event>
    requires Possible(INITIAL, moves)
  {
    if moves == [] then []
    else
      var init := moves[..|moves| - 1];
      HandedOut(init) + HandsOut(After(INITIAL, init), moves[|moves| - 1])
  }

  /** The step gives the dispatcher a new batch. */
  predicate Swaps(m: Move, after: Monitor) {
    (m.Lock? || m.Wake?) && after.dispatcher.Delivering?
  }

  /** The event that the step takes from the producer's hand. */
  function Pushed(before: Monitor, m: Move): seq<Event> {
    if m.Push? then InProducerHand(before.producer) else []
  }

  /** What was pushed since the last swap of a run, and what between its earlier swaps. */
  ghost function SinceLastSwap(moves: seq<Move>): seq<Event>
    requires Possible(INITIAL, moves)
  {
    if moves == [] then []
    else
      var init, m := moves[..|moves| - 1], moves[|moves| - 1];
      if Swaps(m, After(INITIAL, moves)) then [] else SinceLastSwap(init) + Pushed(After(INITIAL, init), m)
  }

  ghost function BetweenSwaps(moves: seq<Move>): seq<seq<Event>>
    requires Possible(INITIAL, moves)
  {
    if moves == [] then []
    else
      var init, m := moves[..|moves| - 1], moves[|moves| - 1];
      BetweenSwaps(init) + if Swaps(m, After(INITIAL, moves)) then [SinceLastSwap(init)] else []
  }

  lemma {:induction false} StepRecords(s: Monitor, m: Move)
    requires Phases(s) && Enabled(s, m)
    ensures Next(s, m).delivered == s.delivered + HandsOut(s, m)
    ensures Next(s, m).accepted == s.accepted + Pushed(s, m)
    ensures Next(s, m).sinceSwap == if Swaps(m, Next(s, m)) then [] else s.sinceSwap + Pushed(s, m)
    ensures Next(s, m).chunks == s.chunks + if Swaps(m, Next(s, m)) then [s.sinceSwap] else []
  {
  }

  lemma {:induction false} StepHears(s: Monitor, m: Move)
    requires Phases(s) && Enabled(s, m)
    ensures Next(s, m).accepted + InProducerHand(Next(s, m).producer) ==
      s.accepted + InProducerHand(s.producer) +
      match m case Receive(Accepted(ev)) => [ev] case _ => []
    ensures m == Receive(Ignored) ==> Next(s, m).producer.Polling?
    ensures m == Receive(Failed) ==> Next(s, m).producer.ProducerExited?
  {
  }

  /** The recorded histories are what was heard, pushed, swapped out and handed out. */
  lemma {:induction false} HistoriesAreTrue(moves: seq<Move>)
    requires Possible(INITIAL, moves)
    ensures var s := After(INITIAL, moves);
            && s.accepted + InProducerHand(s.producer) == Heard(moves)
            && s.delivered == HandedOut(moves)
            && s.sinceSwap == SinceLastSwap(moves) && s.chunks == BetweenSwaps(moves)
  {
    if moves != [] {
      var init, m := moves[..|moves| - 1], moves[|moves| - 1];
      HistoriesAreTrue(init);
      RunKeepsInv(INITIAL, init);
      StepRecords(After(INITIAL, init), m);
      StepHears(After(INITIAL, init), m);
      assert After(INITIAL, moves) == Next(After(INITIAL, init), m);
    }
  }

  /** No interval between two swaps of the run, or since the last, brought more than the queue holds. */
  ghost predicate NeverOverflowed(moves: seq<Move>)
    requires Possible(INITIAL, moves)
  {
    && |SinceLastSwap(moves)| <= 8193
    && forall i :: 0 <= i < |BetweenSwaps(moves)| ==> |BetweenSwaps(moves)[i]| <= 8193
  }

  /** Everything heard is delivered, in hand or queued, in the order it was heard, if and only if no
      interval between two swaps overflowed; and always what is left of it is in order. */
  lemma {:induction false} HeardIsKeptExactly(moves: seq<Move>) returns (at: seq<nat>)
    requires Possible(INITIAL, moves)
    ensures var s := After(INITIAL, moves);
            var kept := HandedOut(moves) + InHand(s.dispatcher) + s.queue + InProducerHand(s.producer);
            Embeds(kept, Heard(moves), at) && (kept == Heard(moves) <==> NeverOverflowed(moves))
  {
    var s := After(INITIAL, moves);
    assert Reachable(s);
    HistoriesAreTrue(moves);
    LostExactlyOnOverflow(s);
    var earlier := DeliveryIsSubsequence(s);
    var hand := InProducerHand(s.producer);
    var here := seq(|hand|, i => i);
    assert Embeds(hand, hand, here);
    at := EmbedConcat(s.delivered + InHand(s.dispatcher) + s.queue, s.accepted, hand, hand, earlier, here);
    SuffixCancels(s.delivered + InHand(s.dispatcher) + s.queue, s.accepted, hand);
  }

  lemma {:induction false} SuffixCancels<T>(a: seq<T>, b: seq<T>, c: seq<T>)
    ensures a + c == b + c <==> a == b
  {
    if a + c == b + c {
      assert |a| == |b|;
      assert a == (a + c)[..|a|] && b == (b + c)[..|b|];
    }
  }

  /** When a started monitor's dispatcher can take no more steps, and the producer has nothing in
      hand, what was handed out is what was kept of each interval between swaps, and the intervals
      make up all that was heard; if none overflowed, everything heard has been delivered. */
  lemma {:induction false} EverythingHeardIsDelivered(moves: seq<Move>)
    requires Possible(INITIAL, moves)
    requires var s := After(INITIAL, moves); s.controller.On? && DispatcherRests(s) && !s.producer.Pushing?
    ensures Heard(moves) == AllOf(BetweenSwaps(moves)) && HandedOut(moves) == KeptOf(BetweenSwaps(moves))
    ensures HandedOut(moves) == Heard(moves) <==> NeverOverflowed(moves)
  {
    var s := After(INITIAL, moves);
    assert Reachable(s);
    HistoriesAreTrue(moves);
    RestsExactlyWhenDelivered(s);
    ReachableKeepsInv(s);
    assert Kept(s.sinceSwap) == [] && s.sinceSwap == [];
  }

  // ---------------------------------------------------------------- the producer keeps listening

  /** The producer leaves only when it was told to stop or `recv` failed. */
  lemma {:induction false} ProducerStays(moves: seq<Move>)
    requires Possible(INITIAL, moves) && Receive(Failed) !in moves
    ensures After(INITIAL, moves).producer.ProducerExited? ==> After(INITIAL, moves).stopThreads
  {
    if moves != [] {
      var init, m := moves[..|moves| - 1], moves[|moves| - 1];
      assert m in moves;
      ProducerStays(init);
      RunKeepsInv(INITIAL, init);
      assert After(INITIAL, moves) == Next(After(INITIAL, init), m);
    }
  }

  /** What `recv` yields to a listening producer is the next to be pushed, and the newest in the queue. */
  lemma {:induction false} WhatIsHeardIsQueued(s: Monitor, ev: Event)
    requires s.producer.Receiving?
    ensures Enabled(s, Receive(Accepted(ev))) && Enabled(Next(s, Receive(Accepted(ev))), Push)
    ensures var queue := Next(Next(s, Receive(Accepted(ev))), Push).queue; queue != [] && queue[|queue| - 1] == ev
  {
  }

  /** From every state of a started monitor whose producer has not failed, at most two steps of the
      producer bring it back to `recv`. */
  lemma {:induction false} ProducerListensAgain(moves: seq<Move>) returns (more: seq<Move>, t: Monitor)
    requires Possible(INITIAL, moves) && Receive(Failed) !in moves && After(INITIAL, moves).controller.On?
    ensures |more| <= 2 && forall m :: m in more ==> m == Poll || m == Push
    ensures Runs.Leads(Enabled, Next, After(INITIAL, moves), more, t) && t.producer.Receiving?
  {
    RunKeepsInv(INITIAL, moves);
    ProducerStays(moves);
    more, t := ComesBack(After(INITIAL, moves));
  }

  lemma {:induction false} ComesBack(s: Monitor) returns (more: seq<Move>, t: Monitor)
    requires Phases(s) && s.controller.On? && !s.producer.ProducerExited?
    ensures |more| <= 2 && forall m :: m in more ==> m == Poll || m == Push
    ensures Runs.Leads(Enabled, Next, s, more, t) && t.producer.Receiving?
  {
    more, t := [], s;
    if t.producer.Pushing? {
      more := Runs.OneMore(Enabled, Next, s, more, t, Push);
      t := Next(t, Push);
    }
    if t.producer.Polling? {
      more := Runs.OneMore(Enabled, Next, s, more, t, Poll);
      t := Next(t, Poll);
    }
  }
}
