/** The timer queue as the object the source has. The clock readings are parameters. */
module TimerTaskQueues {
  import opened DelayTable
  import T = TimerSteps

  /** The events of a table in scan order. */
  function Events<E>(tab: seq<Entry<E>>): seq<E> {
    if tab == [] then [] else Events(tab[..|tab| - 1]) + tab[|tab| - 1].events
  }

  function EventsOf<E>(items: seq<Item<E>>): seq<E> {
    seq(|items|, i requires 0 <= i < |items| => items[i].event)
  }

  lemma {:induction false} EventsConcat<E>(a: seq<Entry<E>>, b: seq<Entry<E>>)
    ensures Events(a + b) == Events(a) + Events(b)
  {
    if b == [] {
      assert a + b == a;
    } else {
      assert (a + b)[..|a + b| - 1] == a + b[..|b| - 1];
      EventsConcat(a, b[..|b| - 1]);
    }
  }

  lemma {:induction false} EventsAreFlattened<E>(tab: seq<Entry<E>>)
    ensures Events(tab) == EventsOf(Flatten(tab))
  {
    if tab != [] {
      EventsAreFlattened(tab[1..]);
      assert tab == [tab[0]] + tab[1..];
      EventsConcat([tab[0]], tab[1..]);
      assert [tab[0]][..0] == [];
      assert Events([tab[0]]) == tab[0].events;
    }
  }

  /** Where the walk of the map ends is where the event belongs. */
  lemma {:induction false} AddWhereFound<E>(tab: seq<Entry<E>>, item: Item<E>, i: nat)
    requires i < |tab| && tab[i].deadline == item.deadline
    requires forall j :: 0 <= j < i ==> tab[j].deadline < item.deadline
    ensures Add(tab, item) == tab[i := Entry(item.deadline, tab[i].events + [item.event])]
  {
    var entry := Entry(item.deadline, tab[i].events + [item.event]);
    if i > 0 {
      AddWhereFound(tab[1..], item, i - 1);
      assert tab[i := entry] == [tab[0]] + tab[1..][i - 1 := entry];
    } else {
      assert tab[0 := entry] == [entry] + tab[1..];
    }
  }

  lemma {:induction false} AddWhereMissing<E>(tab: seq<Entry<E>>, item: Item<E>, i: nat)
    requires i <= |tab| && (i < |tab| ==> item.deadline < tab[i].deadline)
    requires forall j :: 0 <= j < i ==> tab[j].deadline < item.deadline
    ensures Add(tab, item) == tab[..i] + [Entry(item.deadline, [item.event])] + tab[i..]
  {
    if i > 0 {
      AddWhereMissing(tab[1..], item, i - 1);
      assert [tab[0]] + tab[1..][..i - 1] == tab[..i];
      assert tab[1..][i - 1..] == tab[i..];
    } else {
      assert tab[..0] == [] && tab[0..] == tab;
    }
  }

  lemma {:induction false} EventsNext<E>(tab: seq<Entry<E>>, k: nat)
    requires k < |tab|
    ensures Events(tab[..k + 1]) == Events(tab[..k]) + tab[k].events
    ensures tab[k..][1..] == tab[k + 1..] && tab[k..][0] == tab[k]
  {
    assert tab[..k + 1][..k] == tab[..k];
  }

  /** Where the scan stops splits the table into what is due and the rest. */
  lemma {:induction false} SplitAtPosition<E>(tab: seq<Entry<E>>, now: nat, k: nat)
    requires k <= |tab| && forall j :: 0 <= j < k ==> tab[j].deadline <= now
    requires k < |tab| ==> now < tab[k].deadline
    ensures Due(tab, now) == tab[..k] && Rest(tab, now) == tab[k..]
  {
    if k > 0 {
      SplitAtPosition(tab[1..], now, k - 1);
      assert tab[1..][..k - 1] == tab[..k][1..] && tab[1..][k - 1..] == tab[k..];
    }
  }

  /** What a scan of the table of `items` posts is the due items, stably sorted by deadline. */
  lemma {:induction false} ScanPostsSorted<E>(items: seq<Item<E>>, now: nat) returns (batch: seq<Item<E>>)
    ensures StableSort(batch, DueItems(items, now)) && Events(Due(Table(items), now)) == EventsOf(batch)
    ensures Rest(Table(items), now) == Table(UndueItems(items, now))
  {
    batch := Flatten(Due(Table(items), now));
    ScanTakesDueInOrder(items, now);
    EventsAreFlattened(Due(Table(items), now));
  }

  class TimerTaskQueue<E> {
    var stoped_: bool
    var delay_eventtab_: seq<Entry<E>>
    var io_context_: seq<E>              // what was posted to the executor
    var timerArmedAt: nat                // expiry of `check_delayed_event_timer_`
    var waits: nat                       // how many `async_wait`s are outstanding
    var executorStopped: bool            // `io_context_.stopped()`
    var worker_threads_: nat             // how many threads run the executor
    ghost var pending: seq<Item<E>>      // the events in the table, in the order they were added

    ghost predicate Valid()
      reads this
    {
      delay_eventtab_ == Table(pending)
    }

    constructor ()
      ensures Valid() && stoped_ && pending == [] && io_context_ == [] && waits == 0
      ensures !executorStopped && worker_threads_ == 0
    {
      executorStopped, worker_threads_ := false, 0;
      stoped_, delay_eventtab_, io_context_, timerArmedAt, waits := true, [], [], 0, 0;
      pending := [];
    }

    method Start(threadNum: nat, now: nat)
      requires Valid()
      modifies this
      ensures Valid() && !stoped_ && pending == old(pending) && io_context_ == old(io_context_)
      ensures old(stoped_) ==> waits == old(waits) + 1 && timerArmedAt == now + 1_000_000_000
      ensures old(stoped_) ==> !executorStopped && worker_threads_ == old(worker_threads_) + threadNum
      ensures !old(stoped_) ==> waits == old(waits) && timerArmedAt == old(timerArmedAt)
      ensures !old(stoped_) ==> executorStopped == old(executorStopped) && worker_threads_ == old(worker_threads_)
    {
      if stoped_ {
        if executorStopped {
          executorStopped := false;
        }
        for i := 0 to threadNum
          invariant worker_threads_ == old(worker_threads_) + i && !executorStopped && stoped_ && waits == old(waits)
          invariant Valid() && pending == old(pending) && io_context_ == old(io_context_)
        {
          worker_threads_ := worker_threads_ + 1;
        }
        timerArmedAt, waits := now + T.SECOND, waits + 1;
        stoped_ := false;
      }
    }

    /** Cancelling the timer leaves its wait to complete with an error; the table is not touched. */
    method Stop()
      requires Valid()
      modifies this
      ensures Valid() && stoped_ && pending == old(pending) && io_context_ == old(io_context_)
      ensures waits == old(waits) && timerArmedAt == old(timerArmedAt)
      ensures !old(stoped_) ==> executorStopped && worker_threads_ == 0
      ensures old(stoped_) ==> executorStopped == old(executorStopped) && worker_threads_ == old(worker_threads_)
    {
      if !stoped_ {
        stoped_, executorStopped, worker_threads_ := true, true, 0;
      }
    }

    method PostEvent(event: E)
      modifies this`io_context_
      ensures io_context_ == if stoped_ then old(io_context_) else old(io_context_) + [event]
    {
      if !stoped_ {
        io_context_ := io_context_ + [event];
      }
    }

    /** The walk that finds `timeout`, or where it belongs, in the map. */
    method FindDeadline(timeout: nat) returns (i: nat)
      ensures i <= |delay_eventtab_| && forall j :: 0 <= j < i ==> delay_eventtab_[j].deadline < timeout
      ensures i < |delay_eventtab_| ==> timeout <= delay_eventtab_[i].deadline
    {
      i := 0;
      while i < |delay_eventtab_| && delay_eventtab_[i].deadline < timeout
        invariant i <= |delay_eventtab_| && forall j :: 0 <= j < i ==> delay_eventtab_[j].deadline < timeout
      {
        i := i + 1;
      }
    }

    /** `delay_eventtab_[timeout].push_back(event)` */
    method PushBack(timeout: nat, event: E)
      requires Valid()
      modifies this`delay_eventtab_, this`pending
      ensures Valid() && pending == old(pending) + [Item(timeout, event)]
    {
      var tab := delay_eventtab_;
      TableOrdered(pending);
      pending := pending + [Item(timeout, event)];
      assert pending[..|pending| - 1] == old(pending);
      var i := FindDeadline(timeout);
      if i < |tab| && tab[i].deadline == timeout {
        AddWhereFound(tab, Item(timeout, event), i);
        delay_eventtab_ := tab[i := Entry(timeout, tab[i].events + [event])];
      } else {
        AddWhereMissing(tab, Item(timeout, event), i);
        delay_eventtab_ := tab[..i] + [Entry(timeout, [event])] + tab[i..];
      }
    }

    method PostDelayedEvent(delaySeconds: nat, event: E, now: nat)
      requires Valid()
      modifies this`delay_eventtab_, this`pending
      ensures Valid()
      ensures pending ==
        if stoped_ then old(pending) else old(pending) + [Item(now + delaySeconds * 1_000_000_000, event)]
    {
      if !stoped_ {
        var timeout := now + delaySeconds * T.SECOND;
        PushBack(timeout, event);
      }
    }

    method PostEach(events: seq<E>)
      modifies this`io_context_
      ensures io_context_ == if stoped_ then old(io_context_) else old(io_context_) + events
    {
      for i := 0 to |events|
        invariant io_context_ == if stoped_ then old(io_context_) else old(io_context_) + events[..i]
      {
        PostEvent(events[i]);
      }
      assert events[..|events|] == events;
    }

    method ClearDelayedEvent()
      modifies this`delay_eventtab_, this`pending
      ensures Valid() && pending == []
    {
      delay_eventtab_, pending := [], [];
    }

    /** The scan of the tick: post and erase from the front, stop at the first undue entry. What it
        takes, `batch`, is the due events stably sorted by deadline; they are lost on a stopped
        queue, where `PostEvent` ignores them. */
    method DrainDue(now: nat) returns (ghost batch: seq<Item<E>>)
      requires Valid()
      modifies this`delay_eventtab_, this`io_context_, this`pending
      ensures Valid() && pending == UndueItems(old(pending), now)
      ensures StableSort(batch, DueItems(old(pending), now))
      ensures io_context_ == if stoped_ then old(io_context_) else old(io_context_) + EventsOf(batch)
    {
      ghost var tab := delay_eventtab_;
      ghost var k := 0;
      while |delay_eventtab_| > 0
        invariant 0 <= k <= |tab| && delay_eventtab_ == tab[k..] && pending == old(pending)
        invariant forall j :: 0 <= j < k ==> tab[j].deadline <= now
        invariant io_context_ == if stoped_ then old(io_context_) else old(io_context_) + Events(tab[..k])
        decreases |delay_eventtab_|
      {
        if now >= delay_eventtab_[0].deadline {
          EventsNext(tab, k);
          assert (old(io_context_) + Events(tab[..k])) + tab[k].events == old(io_context_) + Events(tab[..k + 1]);
          PostEach(delay_eventtab_[0].events);
          delay_eventtab_ := delay_eventtab_[1..];
          k := k + 1;
        } else {
          break;
        }
      }
      SplitAtPosition(tab, now, k);
      batch := ScanPostsSorted(pending, now);
      pending := UndueItems(pending, now);
    }

    /** The tick. On an error (a cancelled wait) it only clears the table; otherwise it scans and
        re-arms the timer. */
    method CheckDelayedEventCallback(error: bool, now: nat, later: nat) returns (ghost batch: seq<Item<E>>)
      requires Valid() && waits > 0
      modifies this
      ensures Valid() && stoped_ == old(stoped_)
      ensures executorStopped == old(executorStopped) && worker_threads_ == old(worker_threads_)
      ensures error ==> batch == [] && pending == [] && waits == old(waits) - 1
      ensures !error ==> pending == UndueItems(old(pending), now)
      ensures !error ==> StableSort(batch, DueItems(old(pending), now))
      ensures !error ==> waits == old(waits) && timerArmedAt == later + T.SECOND
      ensures io_context_ == if stoped_ then old(io_context_) else old(io_context_) + EventsOf(batch)
    {
      waits := waits - 1;
      if error {
        batch := [];
        ClearDelayedEvent();
        return;
      }
      batch := DrainDue(now);
      timerArmedAt, waits := later + T.SECOND, waits + 1;
    }
  }
}
