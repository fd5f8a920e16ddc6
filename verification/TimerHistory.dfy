/** The timer session seen from the calls: when each event was asked for, with which delay, and what
    the clock read when it was posted, taken from the moves alone; what a `ClearDelayedEvent` and an
    insertion do for good; and that ticks are a second apart. */
module TimerHistory {
  import opened Sequences
  import opened DelayTable
  import opened TimerSteps

  /** What the clock reads after a run that began at `clock`. */
  function ClockAfter(clock: nat, moves: seq<Move>): nat {
    if moves == [] then clock
    else
      ClockAfter(clock, moves[..|moves| - 1]) +
      match moves[|moves| - 1]
      case Pass(units) => units
      case _ => 0
  }

  /** One call of `PostDelayedEvent`: what the clock read, and the delay in seconds. */
  datatype Request = Request(at: nat, delay: nat)

  function Requests(clock: nat, moves: seq<Move>): seq<Request> {
    if moves == [] then []
    else
      var init := moves[..|moves| - 1];
      Requests(clock, init) +
      match moves[|moves| - 1]
      case Call(_, delay) => [Request(ClockAfter(clock, init), delay)]
      case _ => []
  }

  /** `e` carries the data of its request. */
  predicate Genuine(e: Event, requests: seq<Request>) {
    e.id < |requests| && requests[e.id] == Request(e.at, e.delay)
  }

  ghost predicate AllGenuine(s: Timer, requests: seq<Request>) {
    && s.submitted == |requests|
    && (forall c :: 0 <= c < |s.adding| && s.adding[c].Some? ==> Genuine(s.adding[c].value, requests))
    && (forall i :: 0 <= i < |s.pending| ==> Genuine(s.pending[i].event, requests))
    && (forall i :: 0 <= i < |s.posted| ==> Genuine(s.posted[i].event, requests))
    && (forall i :: 0 <= i < |s.cleared| ==> Genuine(s.cleared[i].event, requests))
  }

  lemma {:induction false} StillGenuine(s: Timer, requests: seq<Request>, more: Request)
    requires AllGenuine(s, requests)
    ensures AllGenuine(s.(submitted := s.submitted + 1), requests + [more])
  {
  }

  lemma {:induction false} ScanKeepsGenuine(s: Timer, j: nat, requests: seq<Request>)
    requires TableIsPending(s) && Enabled(s, Scan(j)) && AllGenuine(s, requests)
    ensures AllGenuine(Next(s, Scan(j)), requests)
  {
    var batch := TickPostsExactlyTheDue(s, j);
    FilterBounds(s.pending, s.callbacks[j].now);
    var s' := Next(s, Scan(j));
    forall i | 0 <= i < |s'.pending| ensures Genuine(s'.pending[i].event, requests) {
      assert s'.pending[i] in s'.pending;
      assert s'.pending[i] in s.pending;
    }
    forall i | 0 <= i < |batch| ensures Genuine(batch[i].event, requests) {
      assert batch[i] in batch;
      assert batch[i] in s.pending;
    }
  }

  lemma {:induction false} StepKeepsGenuine(s: Timer, m: Move, requests: seq<Request>)
    requires TableIsPending(s) && Enabled(s, m) && AllGenuine(s, requests)
    ensures AllGenuine(Next(s, m), requests + match m case Call(_, delay) => [Request(s.clock, delay)] case _ => [])
  {
    if m.Scan? {
      ScanKeepsGenuine(s, m.j, requests);
      assert requests + [] == requests;
    } else if m.Call? {
      StillGenuine(s, requests, Request(s.clock, m.delay));
    } else {
      assert requests + [] == requests;
    }
  }

  /** Over a session, every event anywhere is one that was asked for, with the time and the delay of
      its call, and the clock has moved by what passed. */
  lemma {:induction false} EventsAreAsRequested(threads: nat, clock: nat, moves: seq<Move>)
    requires Possible(Started(threads, clock), moves)
    ensures After(Started(threads, clock), moves).clock == ClockAfter(clock, moves)
    ensures AllGenuine(After(Started(threads, clock), moves), Requests(clock, moves))
  {
    if moves != [] {
      var init, m := moves[..|moves| - 1], moves[|moves| - 1];
      var before := After(Started(threads, clock), init);
      EventsAreAsRequested(threads, clock, init);
      assert Reachable(before);
      ReachableKeepsInv(before);
      StepKeepsGenuine(before, m, Requests(clock, init));
      assert After(Started(threads, clock), moves) == Next(before, m);
    }
  }

  /** What is posted stays posted, and what a step posts it posts at no clock below the time of its
      call plus its delay. */
  lemma {:induction false} NeverPostedEarly(threads: nat, clock: nat, moves: seq<Move>)
    requires moves != [] && Possible(Started(threads, clock), moves)
    ensures var init := moves[..|moves| - 1];
            var before, after := After(Started(threads, clock), init), After(Started(threads, clock), moves);
            && |before.posted| <= |after.posted| && after.posted[..|before.posted|] == before.posted
            && forall i :: |before.posted| <= i < |after.posted| ==>
                 var id := after.posted[i].event.id;
                 && id < |Requests(clock, moves)|
                 && Requests(clock, moves)[id].at + Requests(clock, moves)[id].delay * 1_000_000_000
                    <= ClockAfter(clock, init)
  {
    var init, m := moves[..|moves| - 1], moves[|moves| - 1];
    var before, after := After(Started(threads, clock), init), After(Started(threads, clock), moves);
    EventsAreAsRequested(threads, clock, init);
    EventsAreAsRequested(threads, clock, moves);
    assert Reachable(after);
    ReachableKeepsInv(after);
    PostsAtTheClock(before, m);
    assert after == Next(before, m);
  }

  lemma {:induction false} PostsAtTheClock(s: Timer, m: Move)
    requires Enabled(s, m)
    ensures var after := Next(s, m);
            && |s.posted| <= |after.posted| && after.posted[..|s.posted|] == s.posted
            && forall i :: |s.posted| <= i < |after.posted| ==> after.posted[i].at == s.clock
  {
  }

  // ---------------------------------------------------------------- inserted, cleared

  /** Once its insertion is done, an event that nobody clears has been posted if and only if some tick
      has scanned since with a clock reading at or past the time of its call plus its delay. */
  lemma {:induction false} InsertedIsPostedInTime(s: Timer, c: nat, rest: seq<Move>)
    requires Reachable(s) && c < |s.adding| && s.adding[c].Some?
    requires Possible(Next(s, Insert(c)), rest) && Clear !in rest
    ensures var e, start := s.adding[c].value, Next(s, Insert(c));
            WasPosted(After(start, rest), e) <==> ScannedPast(start, rest, e.at + e.delay * 1_000_000_000)
  {
    var e, start := s.adding[c].value, Next(s, Insert(c));
    ReachableKeepsInv(s);
    StepKeepsInv(s, Insert(c));
    assert start.pending[|s.pending|] == Itemized(e);
    assert Itemized(e) in start.pending;
    PostedByFirstTickThatCan(start, rest, e);
    RunKeepsInv(start, rest);
    if WasPosted(After(start, rest), e) {
      PostedIsNotPending(After(start, rest), e);
    }
  }

  lemma {:induction false} ClearedStays(s: Timer, moves: seq<Move>)
    requires Possible(s, moves)
    ensures |s.cleared| <= |After(s, moves).cleared| && After(s, moves).cleared[..|s.cleared|] == s.cleared
  {
    if moves != [] {
      var init, m := moves[..|moves| - 1], moves[|moves| - 1];
      ClearedStays(s, init);
      assert After(s, moves) == Next(After(s, init), m);
    }
  }

  /** An event pending at a `ClearDelayedEvent` is never posted. */
  lemma {:induction false} ClearedIsNeverPosted(s: Timer, x: Item<Event>, rest: seq<Move>)
    requires Reachable(s) && x in s.pending && Possible(Next(s, Clear), rest)
    ensures Next(s, Clear).pending == [] && !WasPosted(After(Next(s, Clear), rest), x.event)
  {
    var start := Next(s, Clear);
    var end, id := After(start, rest), x.event.id;
    ReachableKeepsInv(s);
    StepKeepsInv(s, Clear);
    RunKeepsInv(start, rest);
    ClearedStays(start, rest);
    var i :| 0 <= i < |s.pending| && s.pending[i] == x;
    assert end.cleared[..|start.cleared|][|s.cleared| + i] == x;
    assert end.cleared[|s.cleared| + i] == x;
    assert OnePlace(end, id);
    SumBounds(end.adding, AddingIs(id), 1);
    SumBounds(end.pending, ItemIs(id), 1);
    SumBounds(end.cleared, ItemIs(id), 1);
    assert ItemIs(id)(x) == 1;
    UncountedIsUnposted(end, x.event);
  }

  lemma {:induction false} UncountedIsUnposted(s: Timer, e: Event)
    ensures Sum(s.posted, PostedIs(e.id)) >= 0
    ensures Sum(s.posted, PostedIs(e.id)) == 0 ==> !WasPosted(s, e)
  {
    SumBounds(s.posted, PostedIs(e.id), 1);
    forall p | 0 <= p < |s.posted| ensures s.posted[p].event == e ==> Sum(s.posted, PostedIs(e.id)) >= 1 {
      assert PostedIs(e.id)(s.posted[p]) <= Sum(s.posted, PostedIs(e.id));
    }
  }

  /** Only a `ClearDelayedEvent` clears: without one, every event asked for is being inserted, pending
      or posted. */
  lemma {:induction false} OnlyClearClears(s: Timer, moves: seq<Move>)
    requires Possible(s, moves) && Clear !in moves
    ensures After(s, moves).cleared == s.cleared
  {
    if moves != [] {
      var init, m := moves[..|moves| - 1], moves[|moves| - 1];
      assert m in moves;
      OnlyClearClears(s, init);
      assert After(s, moves) == Next(After(s, init), m);
    }
  }

  // ---------------------------------------------------------------- a second apart

  /** A tick in wait until `expiry`. */
  ghost predicate WaitsUntil(s: Timer, expiry: nat) {
    s.waits == [expiry] && forall j :: 0 <= j < |s.callbacks| ==> s.callbacks[j].Returning?
  }

  lemma {:induction false} NoTickBefore(s: Timer, expiry: nat, moves: seq<Move>)
    requires WaitsUntil(s, expiry) && Possible(s, moves)
    ensures s.clock <= After(s, moves).clock
    ensures After(s, moves).clock < expiry ==>
      WaitsUntil(After(s, moves), expiry) && forall m :: m in moves ==> !m.Fire? && !m.Scan?
  {
    if moves != [] {
      var init, m := moves[..|moves| - 1], moves[|moves| - 1];
      NoTickBefore(s, expiry, init);
      assert moves == init + [m];
      assert After(s, moves) == Next(After(s, init), m);
    }
  }

  /** Ticks are a second apart: after the timer is re-armed, and after `Start`, no tick begins or scans
      until a second has passed. */
  lemma {:induction false} TicksAreASecondApart(s: Timer, j: nat, moves: seq<Move>)
    requires Reachable(s) && Enabled(s, Rearm(j)) && Possible(Next(s, Rearm(j)), moves)
    requires After(Next(s, Rearm(j)), moves).clock < s.clock + 1_000_000_000
    ensures forall m :: m in moves ==> !m.Fire? && !m.Scan?
  {
    ReachableKeepsInv(s);
    StepKeepsOneTick(s, Rearm(j));
    var armed := Next(s, Rearm(j));
    SumBounds(armed.callbacks, Active, 1);
    forall i | 0 <= i < |armed.callbacks| ensures armed.callbacks[i].Returning? {
      assert Active(armed.callbacks[i]) <= 0;
    }
    NoTickBefore(armed, s.clock + SECOND, moves);
  }

  lemma {:induction false} FirstTickAfterASecond(threads: nat, clock: nat, moves: seq<Move>)
    requires Possible(Started(threads, clock), moves) && After(Started(threads, clock), moves).clock < clock + SECOND
    ensures forall m :: m in moves ==> !m.Fire? && !m.Scan?
  {
    NoTickBefore(Started(threads, clock), clock + SECOND, moves);
  }
}
