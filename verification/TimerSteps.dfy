/** One running session of the timer: threads submitting delayed events and clearing them, a clock
    that never goes back, and the tick: an `async_wait` that expires starts a callback, which reads
    the clock, then scans under the lock, then re-arms the timer, then returns. */
module TimerSteps {
  import opened Sequences
  import opened DelayTable
  import Runs

  /** Clock units in a second. */
  const SECOND: nat := 1_000_000_000

  /** A submitted event: a number of its own, when `PostDelayedEvent` read the clock, and the delay. */
  datatype Event = Event(id: nat, at: nat, delay: nat)

  function Deadline(e: Event): nat {
    e.at + e.delay * SECOND
  }

  function Itemized(e: Event): Item<Event> {
    Item(Deadline(e), e)
  }

  datatype Posted = Posted(event: Event, at: nat)

  /** A started `CheckDelayedEventCallback`: before its scan, before re-arming, or past it. */
  datatype Callback = Scanning(now: nat) | Rearming | Returning

  /** `waits` are the expiries of the outstanding `async_wait`s and `callbacks` the callbacks that
      have started and not returned, any number of either. `adding[c]` is the event thread `c` has
      computed a deadline for and not yet inserted.
      `pending`, `posted` and `cleared` are histories; `tab` is `delay_eventtab_`. */
  datatype Timer = Timer(
    clock: nat, tab: seq<Entry<Event>>, waits: seq<nat>, callbacks: seq<Callback>, adding: seq<Option<Event>>,
    submitted: nat, pending: seq<Item<Event>>, posted: seq<Posted>, cleared: seq<Item<Event>>)

  datatype Move =
    | Pass(units: nat)
    | Call(c: nat, delay: nat)
    | Insert(c: nat)
    | Clear
    | Fire(i: nat)
    | Scan(j: nat)
    | Rearm(j: nat)
    | Return(j: nat)

  predicate Enabled(s: Timer, m: Move) {
    match m
    case Pass(_) => true
    case Call(c, _) => c < |s.adding| && s.adding[c].None?
    case Insert(c) => c < |s.adding| && s.adding[c].Some?
    case Clear => true
    case Fire(i) => i < |s.waits| && s.clock >= s.waits[i]
    case Scan(j) => j < |s.callbacks| && s.callbacks[j].Scanning?
    case Rearm(j) => j < |s.callbacks| && s.callbacks[j].Rearming?
    case Return(j) => j < |s.callbacks| && s.callbacks[j].Returning?
  }

  function PostAll(items: seq<Item<Event>>, at: nat): (r: seq<Posted>)
    ensures |r| == |items| && forall i :: 0 <= i < |r| ==> r[i] == Posted(items[i].event, at)
  {
    seq(|items|, i requires 0 <= i < |items| => Posted(items[i].event, at))
  }

  function Drop<T>(a: seq<T>, i: nat): seq<T>
    requires i < |a|
  {
    a[..i] + a[i + 1..]
  }

  function Next(s: Timer, m: Move): Timer
    requires Enabled(s, m)
  {
    match m
    case Pass(units) => s.(clock := s.clock + units)
    case Call(c, delay) =>
      s.(adding := s.adding[c := Some(Event(s.submitted, s.clock, delay))], submitted := s.submitted + 1)
    case Insert(c) =>
      var item := Itemized(s.adding[c].value);
      s.(adding := s.adding[c := None], tab := Add(s.tab, item), pending := s.pending + [item])
    case Clear => s.(tab := [], pending := [], cleared := s.cleared + s.pending)
    case Fire(i) => s.(waits := Drop(s.waits, i), callbacks := s.callbacks + [Scanning(s.clock)])
    case Scan(j) =>
      var now := s.callbacks[j].now;
      s.(tab := Rest(s.tab, now), posted := s.posted + PostAll(Flatten(Due(s.tab, now)), s.clock),
         pending := UndueItems(s.pending, now), callbacks := s.callbacks[j := Rearming])
    case Rearm(j) => s.(waits := s.waits + [s.clock + SECOND], callbacks := s.callbacks[j := Returning])
    case Return(j) => s.(callbacks := Drop(s.callbacks, j))
  }

  /** Just after `Start`. */
  function Started(threads: nat, clock: nat): Timer {
    Timer(clock, [], [clock + SECOND], [], seq(threads, _ => None), 0, [], [], [])
  }

  ghost predicate Possible(s: Timer, moves: seq<Move>) {
    Runs.Possible(Enabled, Next, s, moves)
  }

  ghost function After(s: Timer, moves: seq<Move>): Timer
    requires Possible(s, moves)
  {
    Runs.After(Enabled, Next, s, moves)
  }

  ghost predicate Reachable(s: Timer) {
    exists threads, clock, moves ::
      Possible(Started(threads, clock), moves) && s == After(Started(threads, clock), moves)
  }

  // ---------------------------------------------------------------- the invariant

  function AddingIs(id: nat): Option<Event> -> int {
    (o: Option<Event>) => if o.Some? && o.value.id == id then 1 else 0
  }
  function ItemIs(id: nat): Item<Event> -> int { (x: Item<Event>) => if x.event.id == id then 1 else 0 }
  function PostedIs(id: nat): Posted -> int { (p: Posted) => if p.event.id == id then 1 else 0 }

  /** Submission number `id` stands in exactly one place: with its thread, pending, posted or cleared. */
  predicate OnePlace(s: Timer, id: nat) {
    Sum(s.adding, AddingIs(id)) + Sum(s.pending, ItemIs(id)) + Sum(s.posted, PostedIs(id)) + Sum(s.cleared, ItemIs(id))
    == if id < s.submitted then 1 else 0
  }

  predicate NeverEarly(s: Timer) {
    && (forall p :: 0 <= p < |s.posted| ==> Deadline(s.posted[p].event) <= s.posted[p].at <= s.clock)
    && (forall j :: 0 <= j < |s.callbacks| && s.callbacks[j].Scanning? ==> s.callbacks[j].now <= s.clock)
  }

  predicate TableIsPending(s: Timer) {
    s.tab == Table(s.pending) && forall i :: 0 <= i < |s.pending| ==> s.pending[i] == Itemized(s.pending[i].event)
  }

  /** A wait expires within a second. */
  predicate TickIsNear(s: Timer) {
    forall i :: 0 <= i < |s.waits| ==> s.waits[i] <= s.clock + SECOND
  }

  /** 1 for a callback that has yet to re-arm the timer. */
  function Active(c: Callback): int { if c.Returning? then 0 else 1 }

  /** Either one wait is outstanding or one callback has yet to re-arm, never both or two of them. */
  predicate OneTick(s: Timer) {
    |s.waits| + Sum(s.callbacks, Active) == 1
  }

  ghost predicate Inv(s: Timer) {
    TableIsPending(s) && NeverEarly(s) && TickIsNear(s) && OneTick(s) && forall id :: OnePlace(s, id)
  }

  // ---------------------------------------------------------------- scanning

  lemma {:induction false} SumItems(deadline: nat, events: seq<Event>, e: Event, f: Item<Event> -> int)
    ensures Sum(Items(deadline, events + [e]), f) == Sum(Items(deadline, events), f) + f(Item(deadline, e))
  {
    var all := Items(deadline, events + [e]);
    assert all[..|all| - 1] == Items(deadline, events);
  }

  lemma {:induction false} SumAdd(tab: seq<Entry<Event>>, item: Item<Event>, f: Item<Event> -> int)
    ensures Sum(Flatten(Add(tab, item)), f) == Sum(Flatten(tab), f) + f(item)
  {
    var added := Add(tab, item);
    SumConcat(Items(added[0].deadline, added[0].events), Flatten(added[1..]), f);
    if tab == [] || item.deadline < tab[0].deadline {
      assert added[1..] == tab;
      SumItems(item.deadline, [], item.event, f);
      assert [] + [item.event] == [item.event] && Items<Event>(item.deadline, []) == [];
    } else {
      SumConcat(Items(tab[0].deadline, tab[0].events), Flatten(tab[1..]), f);
      if item.deadline == tab[0].deadline {
        assert added[1..] == tab[1..];
        SumItems(item.deadline, tab[0].events, item.event, f);
      } else {
        assert added[1..] == Add(tab[1..], item);
        SumAdd(tab[1..], item, f);
      }
    }
  }

  lemma {:induction false} SumTable(items: seq<Item<Event>>, f: Item<Event> -> int)
    ensures Sum(Flatten(Table(items)), f) == Sum(items, f)
  {
    if items != [] {
      SumTable(items[..|items| - 1], f);
      SumAdd(Table(items[..|items| - 1]), items[|items| - 1], f);
    }
  }

  lemma {:induction false} SumSplit(items: seq<Item<Event>>, now: nat, f: Item<Event> -> int)
    ensures Sum(items, f) == Sum(DueItems(items, now), f) + Sum(UndueItems(items, now), f)
  {
    if items != [] {
      var init, last := items[..|items| - 1], items[|items| - 1];
      SumSplit(init, now, f);
      if last.deadline <= now {
        assert DueItems(items, now)[..|DueItems(items, now)| - 1] == DueItems(init, now);
        assert UndueItems(items, now) == UndueItems(init, now);
      } else {
        assert UndueItems(items, now)[..|UndueItems(items, now)| - 1] == UndueItems(init, now);
        assert DueItems(items, now) == DueItems(init, now);
      }
    }
  }

  lemma {:induction false} SumPosted(items: seq<Item<Event>>, at: nat, id: nat)
    ensures Sum(PostAll(items, at), PostedIs(id)) == Sum(items, ItemIs(id))
  {
    if items != [] {
      SumPosted(items[..|items| - 1], at, id);
      assert PostAll(items, at)[..|items| - 1] == PostAll(items[..|items| - 1], at);
    }
  }

  /** One tick posts exactly the pending events whose deadline its reading of the clock has reached,
      by deadline and then by insertion, and leaves exactly the others. */
  lemma {:induction false} TickPostsExactlyTheDue(s: Timer, j: nat) returns (batch: seq<Item<Event>>)
    requires TableIsPending(s) && Enabled(s, Scan(j))
    ensures Next(s, Scan(j)).posted == s.posted + PostAll(batch, s.clock)
    ensures StableSort(batch, DueItems(s.pending, s.callbacks[j].now))
    ensures TableIsPending(Next(s, Scan(j))) && Next(s, Scan(j)).pending == UndueItems(s.pending, s.callbacks[j].now)
    ensures forall x :: x in batch ==> x in s.pending && x.deadline <= s.callbacks[j].now
    ensures forall x :: x in s.pending ==> (x in batch <==> x.deadline <= s.callbacks[j].now)
    ensures forall x :: x in s.pending ==> (x in Next(s, Scan(j)).pending <==> s.callbacks[j].now < x.deadline)
  {
    batch := Flatten(Due(s.tab, s.callbacks[j].now));
    ScanTakesDueInOrder(s.pending, s.callbacks[j].now);
    FilterBounds(s.pending, s.callbacks[j].now);
    var due, undue := DueItems(s.pending, s.callbacks[j].now), UndueItems(s.pending, s.callbacks[j].now);
    forall i | 0 <= i < |undue| ensures undue[i] == Itemized(undue[i].event) {
      assert undue[i] in undue;
    }
    forall x ensures x in batch <==> x in due {
      AtMember(batch, x);
      AtMember(due, x);
      assert At(batch, x.deadline) == At(due, x.deadline);
    }
  }

  lemma {:induction false} AtMember(items: seq<Item<Event>>, x: Item<Event>)
    ensures x in At(items, x.deadline) <==> x in items
  {
    if items != [] {
      AtMember(items[..|items| - 1], x);
      assert items == items[..|items| - 1] + [items[|items| - 1]];
    }
  }

  lemma {:induction false} ScanKeepsPlace(s: Timer, j: nat, id: nat)
    requires TableIsPending(s) && OnePlace(s, id) && Enabled(s, Scan(j))
    ensures OnePlace(Next(s, Scan(j)), id)
  {
    var now := s.callbacks[j].now;
    var batch := Flatten(Due(s.tab, now));
    ScanIsFilter(s.pending, now);
    SumTable(DueItems(s.pending, now), ItemIs(id));
    SumSplit(s.pending, now, ItemIs(id));
    SumPosted(batch, s.clock, id);
    SumConcat(s.posted, PostAll(batch, s.clock), PostedIs(id));
  }

  lemma {:induction false} StepKeepsPlace(s: Timer, m: Move, id: nat)
    requires TableIsPending(s) && OnePlace(s, id) && Enabled(s, m)
    ensures OnePlace(Next(s, m), id)
  {
    var s' := Next(s, m);
    if m.Scan? {
      ScanKeepsPlace(s, m.j, id);
    } else if m.Clear? {
      SumConcat(s.cleared, s.pending, ItemIs(id));
    } else if m.Call? || m.Insert? {
      SumUpdate(s.adding, m.c, s'.adding[m.c], AddingIs(id));
    }
  }

  lemma {:induction false} StepKeepsTable(s: Timer, m: Move)
    requires TableIsPending(s) && Enabled(s, m)
    ensures TableIsPending(Next(s, m))
  {
    if m.Scan? {
      var batch := TickPostsExactlyTheDue(s, m.j);
    } else if m.Insert? {
      var longer := Next(s, m).pending;
      assert longer[..|longer| - 1] == s.pending;
    }
  }

  lemma {:induction false} StepNeverEarly(s: Timer, m: Move)
    requires TableIsPending(s) && NeverEarly(s) && Enabled(s, m)
    ensures NeverEarly(Next(s, m))
  {
    if m.Scan? {
      var batch := TickPostsExactlyTheDue(s, m.j);
      forall i | 0 <= i < |batch| ensures Deadline(batch[i].event) <= s.clock {
        assert batch[i] in batch;
        assert batch[i] in s.pending;
      }
    }
  }

  lemma {:induction false} SumDrop<T>(a: seq<T>, i: nat, f: T -> int)
    requires i < |a|
    ensures Sum(Drop(a, i), f) == Sum(a, f) - f(a[i])
  {
    SumConcat(a[..i], a[i + 1..], f);
    SumConcat(a[..i + 1], a[i + 1..], f);
    assert a[..i + 1][..i] == a[..i] && a == a[..i + 1] + a[i + 1..];
  }

  /** At most one tick is in flight: every step keeps the waits outstanding and the callbacks yet to
      re-arm at one in all, since only re-arming adds a wait and it is the callback's last act.
      Hence re-arming finds no wait to cancel. */
  lemma {:induction false} StepKeepsOneTick(s: Timer, m: Move)
    requires OneTick(s) && TickIsNear(s) && Enabled(s, m)
    ensures OneTick(Next(s, m)) && TickIsNear(Next(s, m))
    ensures m.Rearm? ==> s.waits == []
  {
    SumBounds(s.callbacks, Active, 1);
    if m.Fire? {
      SumAppend(s.callbacks, Scanning(s.clock), Active);
    } else if m.Scan? {
      SumUpdate(s.callbacks, m.j, Rearming, Active);
    } else if m.Rearm? {
      SumUpdate(s.callbacks, m.j, Returning, Active);
    } else if m.Return? {
      SumDrop(s.callbacks, m.j, Active);
    }
  }

  lemma {:induction false} StepKeepsInv(s: Timer, m: Move)
    requires Inv(s) && Enabled(s, m)
    ensures Inv(Next(s, m))
  {
    StepKeepsTable(s, m);
    StepNeverEarly(s, m);
    StepKeepsOneTick(s, m);
    forall id ensures OnePlace(Next(s, m), id) {
      StepKeepsPlace(s, m, id);
    }
  }

  lemma {:induction false} RunKeepsInv(s: Timer, moves: seq<Move>)
    requires Inv(s) && Possible(s, moves)
    ensures Inv(After(s, moves))
  {
    if moves != [] {
      var init, m := moves[..|moves| - 1], moves[|moves| - 1];
      RunKeepsInv(s, init);
      StepKeepsInv(After(s, init), m);
      assert After(s, moves) == Next(After(s, init), m);
    }
  }

  /** In every reachable state of a session each submitted event is in exactly one place, and none
      was posted before its deadline. */
  lemma {:induction false} ReachableKeepsInv(s: Timer)
    requires Reachable(s)
    ensures Inv(s)
  {
    var threads, clock, moves :| Possible(Started(threads, clock), moves) && s == After(Started(threads, clock), moves);
    forall id ensures OnePlace(Started(threads, clock), id) {
      SumBounds(Started(threads, clock).adding, AddingIs(id), 0);
    }
    RunKeepsInv(Started(threads, clock), moves);
  }

  // ---------------------------------------------------------------- the first tick that can

  predicate WasPosted(s: Timer, e: Event) {
    exists p :: 0 <= p < |s.posted| && s.posted[p].event == e
  }

  predicate ScansPast(s: Timer, m: Move, deadline: nat)
    requires Enabled(s, m)
  {
    m.Scan? && deadline <= s.callbacks[m.j].now
  }

  /** Some tick of the run scanned having read a clock at or past `deadline`. */
  ghost predicate ScannedPast(s: Timer, moves: seq<Move>, deadline: nat)
    requires Possible(s, moves)
  {
    moves != [] &&
    var init, m := moves[..|moves| - 1], moves[|moves| - 1];
    ScannedPast(s, init, deadline) || ScansPast(After(s, init), m, deadline)
  }

  /** An inserted event that nobody clears stays pending until the first tick that scans having
      read a clock at or past its deadline, and that tick posts it. */
  lemma {:induction false} PostedByFirstTickThatCan(s: Timer, moves: seq<Move>, e: Event)
    requires Inv(s) && Itemized(e) in s.pending && Possible(s, moves) && Clear !in moves
    ensures Itemized(e) in After(s, moves).pending <==> !ScannedPast(s, moves, Deadline(e))
    ensures ScannedPast(s, moves, Deadline(e)) ==> WasPosted(After(s, moves), e)
  {
    if moves != [] {
      var init, m := moves[..|moves| - 1], moves[|moves| - 1];
      assert moves == init + [m];
      PostedByFirstTickThatCan(s, init, e);
      RunKeepsInv(s, init);
      StepMovesEvent(After(s, init), m, e);
      RunKeepsInv(s, moves);
      if WasPosted(After(s, moves), e) {
        PostedIsNotPending(After(s, moves), e);
      }
    }
  }

  lemma {:induction false} StillPosted(s: Timer, m: Move, e: Event)
    requires Enabled(s, m) && WasPosted(s, e)
    ensures WasPosted(Next(s, m), e)
  {
    var p :| 0 <= p < |s.posted| && s.posted[p].event == e;
    assert Next(s, m).posted[p].event == e;
  }

  /** A scan moves a pending event from the table to the executor, or leaves it where it is. */
  lemma {:induction false} ScanMovesEvent(s: Timer, j: nat, e: Event)
    requires TableIsPending(s) && Enabled(s, Scan(j)) && Itemized(e) in s.pending
    ensures Itemized(e) in Next(s, Scan(j)).pending <==> s.callbacks[j].now < Deadline(e)
    ensures Deadline(e) <= s.callbacks[j].now ==> WasPosted(Next(s, Scan(j)), e)
  {
    var batch := TickPostsExactlyTheDue(s, j);
    if Deadline(e) <= s.callbacks[j].now {
      var i :| 0 <= i < |batch| && batch[i] == Itemized(e);
      assert Next(s, Scan(j)).posted[|s.posted| + i].event == e;
    }
  }

  lemma {:induction false} StepMovesEvent(s: Timer, m: Move, e: Event)
    requires TableIsPending(s) && Enabled(s, m) && !m.Clear?
    ensures Itemized(e) in s.pending && !ScansPast(s, m, Deadline(e)) ==> Itemized(e) in Next(s, m).pending
    ensures Itemized(e) in s.pending && ScansPast(s, m, Deadline(e)) ==>
      Itemized(e) !in Next(s, m).pending && WasPosted(Next(s, m), e)
    ensures WasPosted(s, e) ==> WasPosted(Next(s, m), e)
  {
    if WasPosted(s, e) {
      StillPosted(s, m, e);
    }
    if m.Scan? && Itemized(e) in s.pending {
      ScanMovesEvent(s, m.j, e);
    }
  }

  /** Nothing posted is still pending, so nothing is posted twice. */
  lemma {:induction false} PostedIsNotPending(s: Timer, e: Event)
    requires Inv(s) && WasPosted(s, e)
    ensures Itemized(e) !in s.pending
  {
    var p :| 0 <= p < |s.posted| && s.posted[p].event == e;
    assert OnePlace(s, e.id) && PostedIs(e.id)(s.posted[p]) == 1;
    SumBounds(s.adding, AddingIs(e.id), 1);
    SumBounds(s.pending, ItemIs(e.id), 1);
    SumBounds(s.posted, PostedIs(e.id), 1);
    SumBounds(s.cleared, ItemIs(e.id), 1);
    forall i | 0 <= i < |s.pending| ensures s.pending[i] != Itemized(e) {
      assert ItemIs(e.id)(s.pending[i]) <= 0;
    }
  }

  lemma {:induction false} ScanPosts(s: Timer, j: nat, x: Item<Event>)
    requires TableIsPending(s) && Enabled(s, Scan(j)) && x in s.pending && x.deadline <= s.callbacks[j].now
    ensures WasPosted(Next(s, Scan(j)), x.event)
  {
    var i :| 0 <= i < |s.pending| && s.pending[i] == x;
    ScanMovesEvent(s, j, x.event);
  }

  /** Scanning posts what is due and keeps the rest; re-arming puts a wait in place of the tick. */
  lemma {:induction false} FinishTick(s: Timer, j: nat) returns (moves: seq<Move>, t: Timer)
    requires Inv(s) && j < |s.callbacks| && !s.callbacks[j].Returning?
    ensures moves == (if s.callbacks[j].Scanning? then [Scan(j)] else []) + [Rearm(j)]
    ensures Runs.Leads(Enabled, Next, s, moves, t) && t.clock == s.clock && |t.waits| == |s.waits| + 1
    ensures KeepsOrPosts(s, t)
  {
    moves, t := [], s;
    if s.callbacks[j].Scanning? {
      t := Next(s, Scan(j));
      moves := Runs.OneMore(Enabled, Next, s, moves, s, Scan(j));
      forall x | x in s.pending ensures x in t.pending || (x.deadline <= s.clock && WasPosted(t, x.event)) {
        var i :| 0 <= i < |s.pending| && s.pending[i] == x;
        ScanMovesEvent(s, j, x.event);
      }
    }
    moves := Runs.OneMore(Enabled, Next, s, moves, t, Rearm(j));
    var rearmed := Next(t, Rearm(j));
    forall x | x in s.pending && WasPosted(t, x.event) ensures WasPosted(rearmed, x.event) {
      StillPosted(t, Rearm(j), x.event);
    }
    t := rearmed;
  }

  /** What was pending is still pending, or was due and has been posted. */
  ghost predicate KeepsOrPosts(s: Timer, t: Timer) {
    forall x :: x in s.pending ==> x in t.pending || (x.deadline <= s.clock && WasPosted(t, x.event))
  }

  /** What a second and a tick have done: the events due by then are posted, the others pending. */
  ghost predicate PostsByASecond(s: Timer, u: Timer) {
    && u.clock == s.clock + SECOND
    && (forall x :: x in s.pending ==> (x in u.pending <==> s.clock + SECOND < x.deadline))
    && (forall x :: x in s.pending && x.deadline <= s.clock + SECOND ==> WasPosted(u, x.event))
  }

  lemma {:induction false} ScanAfterASecond(s: Timer, scanning: Timer, j: nat)
    requires TableIsPending(scanning) && Enabled(scanning, Scan(j))
    requires scanning.pending == s.pending && scanning.posted == s.posted
    requires scanning.callbacks[j].now == scanning.clock == s.clock + SECOND
    ensures var t := Next(scanning, Scan(j));
            && PostsByASecond(s, t)
            && (forall e :: WasPosted(s, e) ==> WasPosted(t, e))
            && (forall x :: x in t.pending ==> x in s.pending)
  {
    var t := Next(scanning, Scan(j));
    var batch := TickPostsExactlyTheDue(scanning, j);
    FilterBounds(s.pending, s.clock + SECOND);
    forall x | x in s.pending && x.deadline <= s.clock + SECOND ensures WasPosted(t, x.event) {
      ScanPosts(scanning, j, x);
    }
    forall e | WasPosted(s, e) ensures WasPosted(t, e) {
      StillPosted(scanning, Scan(j), e);
    }
  }

  /** While a wait is outstanding, letting one second pass and then running its callback posts every
      pending event that is due by then. */
  lemma {:induction false} NextTickPosts(s: Timer) returns (moves: seq<Move>, t: Timer)
    requires Inv(s) && s.waits != []
    ensures moves == [Pass(SECOND), Fire(0), Scan(|s.callbacks|)] && Runs.Leads(Enabled, Next, s, moves, t)
    ensures PostsByASecond(s, t)
    ensures forall e :: WasPosted(s, e) ==> WasPosted(t, e)
    ensures forall x :: x in t.pending ==> x in s.pending
  {
    var j, later := |s.callbacks|, Next(s, Pass(SECOND));
    var scanning := Next(later, Fire(0));
    t := Next(scanning, Scan(j));
    moves := Runs.OneMore(Enabled, Next, s, [], s, Pass(SECOND));
    moves := Runs.OneMore(Enabled, Next, s, moves, later, Fire(0));
    moves := Runs.OneMore(Enabled, Next, s, moves, scanning, Scan(j));
    ScanAfterASecond(s, scanning, j);
  }

  lemma {:induction false} PendingOrPosted(s: Timer, t: Timer, u: Timer)
    requires KeepsOrPosts(s, t) && t.clock == s.clock && PostsByASecond(t, u)
    requires forall e :: WasPosted(t, e) ==> WasPosted(u, e)
    requires forall x :: x in u.pending ==> x in t.pending
    ensures PostsByASecond(s, u)
  {
    forall x | x in s.pending && x !in t.pending ensures x.deadline <= s.clock && WasPosted(u, x.event) {
      assert WasPosted(t, x.event);
    }
  }

  lemma {:induction false} TickInFlightFinishes(s: Timer) returns (moves: seq<Move>, t: Timer)
    requires Inv(s)
    ensures Runs.Leads(Enabled, Next, s, moves, t) && t.clock == s.clock && t.waits != [] && Inv(t)
    ensures KeepsOrPosts(s, t) && |moves| <= 2 && forall m :: m in moves ==> m.Scan? || m.Rearm?
  {
    moves, t := [], s;
    if s.waits == [] {
      var j := SomeActive(s);
      moves, t := FinishTick(s, j);
      RunKeepsInv(s, moves);
    }
  }

  /** A tick is never more than a second away: from every reachable state, finishing the tick in
      flight if there is one, letting one second pass and running the next tick posts every pending
      event that is due by then, and keeps the others pending. */
  lemma {:induction false} ASecondAwayFromPosting(s: Timer) returns (moves: seq<Move>)
    requires Reachable(s)
    ensures Possible(s, moves) && PostsByASecond(s, After(s, moves))
    ensures |moves| <= 5 && forall m :: m in moves ==> m == Pass(SECOND) || m.Fire? || m.Scan? || m.Rearm?
  {
    ReachableKeepsInv(s);
    var first, t := TickInFlightFinishes(s);
    var second, u := NextTickPosts(t);
    Runs.Chain(Enabled, Next, s, first, t, second, u);
    moves := first + second;
    PendingOrPosted(s, t, u);
  }

  lemma {:induction false} SomeActive(s: Timer) returns (j: nat)
    requires OneTick(s) && s.waits == []
    ensures j < |s.callbacks| && !s.callbacks[j].Returning?
  {
    if forall i :: 0 <= i < |s.callbacks| ==> s.callbacks[i].Returning? {
      SumBounds(s.callbacks, Active, 0);
    }
    j :| j < |s.callbacks| && !s.callbacks[j].Returning?;
  }
}
