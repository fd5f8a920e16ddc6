/** The delayed-event table: a map from deadline to the list of events due then, kept in deadline
    order, and the early-exit scan that drains it. */
module DelayTable {

  datatype Item<T> = Item(deadline: nat, event: T)

  /** One map entry: a deadline and its events in the order they were added. */
  datatype Entry<T> = Entry(deadline: nat, events: seq<T>)

  /** What `std::map` guarantees of its iteration order. */
  predicate Ordered<T>(tab: seq<Entry<T>>) {
    forall i, j :: 0 <= i < j < |tab| ==> tab[i].deadline < tab[j].deadline
  }

  /** `delay_eventtab_[deadline].push_back(event)`. */
  function Add<T>(tab: seq<Entry<T>>, item: Item<T>): seq<Entry<T>> {
    if tab == [] || item.deadline < tab[0].deadline then [Entry(item.deadline, [item.event])] + tab
    else if item.deadline == tab[0].deadline then [Entry(item.deadline, tab[0].events + [item.event])] + tab[1..]
    else [tab[0]] + Add(tab[1..], item)
  }

  /** The table after adding `items` one after the other. */
  function Table<T>(items: seq<Item<T>>): seq<Entry<T>> {
    if items == [] then [] else Add(Table(items[..|items| - 1]), items[|items| - 1])
  }

  /** The entries the scan takes: from the front, stopping at the first that is not due. */
  function Due<T>(tab: seq<Entry<T>>, now: nat): seq<Entry<T>> {
    if tab == [] || now < tab[0].deadline then [] else [tab[0]] + Due(tab[1..], now)
  }

  function Rest<T>(tab: seq<Entry<T>>, now: nat): seq<Entry<T>> {
    if tab == [] || now < tab[0].deadline then tab else Rest(tab[1..], now)
  }

  function Items<T>(deadline: nat, events: seq<T>): seq<Item<T>> {
    seq(|events|, i requires 0 <= i < |events| => Item(deadline, events[i]))
  }

  /** All events in the order a scan reaches them. */
  function Flatten<T>(tab: seq<Entry<T>>): seq<Item<T>> {
    if tab == [] then [] else Items(tab[0].deadline, tab[0].events) + Flatten(tab[1..])
  }

  // ---------------------------------------------------------------- the simple filter

  function DueItems<T>(items: seq<Item<T>>, now: nat): seq<Item<T>> {
    if items == [] then []
    else DueItems(items[..|items| - 1], now) + if items[|items| - 1].deadline <= now then [items[|items| - 1]] else []
  }

  function UndueItems<T>(items: seq<Item<T>>, now: nat): seq<Item<T>> {
    if items == [] then []
    else UndueItems(items[..|items| - 1], now) + if items[|items| - 1].deadline <= now then [] else [items[|items| - 1]]
  }

  lemma {:induction false} AddKeepsOrder<T>(tab: seq<Entry<T>>, item: Item<T>)
    requires Ordered(tab)
    ensures Ordered(Add(tab, item))
    ensures forall i :: 0 <= i < |Add(tab, item)| ==>
      Add(tab, item)[i].deadline == item.deadline ||
      exists j :: 0 <= j < |tab| && Add(tab, item)[i].deadline == tab[j].deadline
  {
    if tab != [] && item.deadline > tab[0].deadline {
      AddKeepsOrder(tab[1..], item);
      var more := Add(tab[1..], item);
      forall i | 0 <= i < |more|
        ensures more[i].deadline == item.deadline || exists j :: 0 < j < |tab| && more[i].deadline == tab[j].deadline
      {
        if more[i].deadline != item.deadline {
          var j :| 0 <= j < |tab[1..]| && more[i].deadline == tab[1..][j].deadline;
          assert more[i].deadline == tab[j + 1].deadline;
        }
      }
    }
  }

  lemma {:induction false} TableOrdered<T>(items: seq<Item<T>>)
    ensures Ordered(Table(items))
  {
    if items != [] {
      TableOrdered(items[..|items| - 1]);
      AddKeepsOrder(Table(items[..|items| - 1]), items[|items| - 1]);
    }
  }

  /** Adding an event and splitting at `now` commute. */
  lemma {:induction false} SplitAfterAdd<T>(tab: seq<Entry<T>>, item: Item<T>, now: nat)
    requires Ordered(tab)
    ensures Due(Add(tab, item), now) == if item.deadline <= now then Add(Due(tab, now), item) else Due(tab, now)
    ensures Rest(Add(tab, item), now) == if item.deadline <= now then Rest(tab, now) else Add(Rest(tab, now), item)
  {
    if tab != [] && item.deadline > tab[0].deadline {
      SplitAfterAdd(tab[1..], item, now);
      if now < tab[0].deadline {
        assert Add(tab, item)[0] == tab[0];
      } else {
        assert Add(tab, item)[1..] == Add(tab[1..], item);
        assert Due(tab, now)[1..] == Due(tab[1..], now);
      }
    } else {
      var added := Add(tab, item);
      if tab != [] {
        assert added[1..] == if item.deadline == tab[0].deadline then tab[1..] else tab;
        if item.deadline <= now && now < tab[0].deadline {
          assert Due(added, now) == [added[0]] + Due(tab, now);
        }
      } else {
        assert added[1..] == [];
      }
    }
  }

  /** The early-exit scan is the simple filter: it takes exactly the events with deadline at most
      `now` and leaves exactly the table the others alone would have built. */
  lemma {:induction false} ScanIsFilter<T>(items: seq<Item<T>>, now: nat)
    ensures Due(Table(items), now) == Table(DueItems(items, now))
    ensures Rest(Table(items), now) == Table(UndueItems(items, now))
  {
    if items != [] {
      var init, last := items[..|items| - 1], items[|items| - 1];
      ScanIsFilter(init, now);
      TableOrdered(init);
      SplitAfterAdd(Table(init), last, now);
      if last.deadline <= now {
        assert DueItems(items, now)[..|DueItems(items, now)| - 1] == DueItems(init, now);
        assert UndueItems(items, now) == UndueItems(init, now);
      } else {
        assert UndueItems(items, now)[..|UndueItems(items, now)| - 1] == UndueItems(init, now);
        assert DueItems(items, now) == DueItems(init, now);
      }
    }
  }

  // ---------------------------------------------------------------- the order of posting

  /** The events of `items` due at `deadline`, in order. */
  function At<T>(items: seq<Item<T>>, deadline: nat): seq<Item<T>> {
    if items == [] then []
    else
      var last := items[|items| - 1];
      At(items[..|items| - 1], deadline) + if last.deadline == deadline then [last] else []
  }

  lemma {:induction false} AtConcat<T>(a: seq<Item<T>>, b: seq<Item<T>>, deadline: nat)
    ensures At(a + b, deadline) == At(a, deadline) + At(b, deadline)
  {
    if b == [] {
      assert a + b == a;
    } else {
      assert (a + b)[..|a + b| - 1] == a + b[..|b| - 1];
      AtConcat(a, b[..|b| - 1], deadline);
    }
  }

  lemma {:induction false} AtUniform<T>(items: seq<Item<T>>, d: nat, deadline: nat)
    requires forall i :: 0 <= i < |items| ==> items[i].deadline == d
    ensures At(items, deadline) == if d == deadline then items else []
  {
    if items != [] {
      AtUniform(items[..|items| - 1], d, deadline);
    }
  }

  /** `sorted` is `items` stably sorted by deadline: deadlines never decrease, and the events of
      each deadline are the same in the same order. */
  ghost predicate StableSort<T>(sorted: seq<Item<T>>, items: seq<Item<T>>) {
    && (forall i, j :: 0 <= i < j < |sorted| ==> sorted[i].deadline <= sorted[j].deadline)
    && forall d :: At(sorted, d) == At(items, d)
  }

  lemma {:induction false} FlattenAtLeast<T>(tab: seq<Entry<T>>, lo: nat)
    requires forall i :: 0 <= i < |tab| ==> lo <= tab[i].deadline
    ensures forall i :: 0 <= i < |Flatten(tab)| ==> lo <= Flatten(tab)[i].deadline
  {
    if tab != [] {
      FlattenAtLeast(tab[1..], lo);
    }
  }

  lemma {:induction false} FlattenSorted<T>(tab: seq<Entry<T>>)
    requires Ordered(tab)
    ensures forall i, j :: 0 <= i < j < |Flatten(tab)| ==> Flatten(tab)[i].deadline <= Flatten(tab)[j].deadline
  {
    if tab != [] {
      FlattenSorted(tab[1..]);
      FlattenAtLeast(tab[1..], tab[0].deadline);
    }
  }

  /** The first entry holds all there is at its deadline. */
  lemma {:induction false} FlattenAtHead<T>(tab: seq<Entry<T>>, d: nat)
    requires tab != []
    ensures At(Flatten(tab), d) ==
      (if tab[0].deadline == d then Items(d, tab[0].events) else []) + At(Flatten(tab[1..]), d)
  {
    var front := Items(tab[0].deadline, tab[0].events);
    AtConcat(front, Flatten(tab[1..]), d);
    AtUniform(front, tab[0].deadline, d);
  }

  lemma {:induction false} NothingAtBelow<T>(tab: seq<Entry<T>>, d: nat)
    requires forall i :: 0 <= i < |tab| ==> d < tab[i].deadline
    ensures At(Flatten(tab), d) == []
  {
    if tab != [] {
      NothingAtBelow(tab[1..], d);
      FlattenAtHead(tab, d);
    }
  }

  lemma {:induction false} AddAtFront<T>(tab: seq<Entry<T>>, item: Item<T>, d: nat)
    requires Ordered(tab) && (tab == [] || item.deadline < tab[0].deadline)
    ensures At(Flatten(Add(tab, item)), d) == At(Flatten(tab), d) + if item.deadline == d then [item] else []
  {
    var added := Add(tab, item);
    FlattenAtHead(added, d);
    assert added[1..] == tab && Items(item.deadline, [item.event]) == [item];
    if item.deadline == d {
      NothingAtBelow(tab, d);
    }
  }

  lemma {:induction false} AddAtSame<T>(tab: seq<Entry<T>>, item: Item<T>, d: nat)
    requires Ordered(tab) && tab != [] && item.deadline == tab[0].deadline
    ensures At(Flatten(Add(tab, item)), d) == At(Flatten(tab), d) + if item.deadline == d then [item] else []
  {
    var added := Add(tab, item);
    FlattenAtHead(added, d);
    FlattenAtHead(tab, d);
    assert added[1..] == tab[1..];
    if item.deadline == d {
      NothingAtBelow(tab[1..], d);
      assert Items(d, tab[0].events + [item.event]) == Items(d, tab[0].events) + [item];
    }
  }

  lemma {:induction false} AddAt<T>(tab: seq<Entry<T>>, item: Item<T>, d: nat)
    requires Ordered(tab)
    ensures At(Flatten(Add(tab, item)), d) == At(Flatten(tab), d) + if item.deadline == d then [item] else []
  {
    if tab == [] || item.deadline < tab[0].deadline {
      AddAtFront(tab, item, d);
    } else if item.deadline == tab[0].deadline {
      AddAtSame(tab, item, d);
    } else {
      var added := Add(tab, item);
      AddAt(tab[1..], item, d);
      FlattenAtHead(added, d);
      FlattenAtHead(tab, d);
      assert added[1..] == Add(tab[1..], item);
    }
  }

  lemma {:induction false} TableAt<T>(items: seq<Item<T>>, d: nat)
    ensures At(Flatten(Table(items)), d) == At(items, d)
  {
    if items != [] {
      var init := items[..|items| - 1];
      TableAt(init, d);
      TableOrdered(init);
      AddAt(Table(init), items[|items| - 1], d);
    }
  }

  /** The table lists its events sorted by deadline and then by the order they were added. */
  lemma {:induction false} TableIsStableSort<T>(items: seq<Item<T>>)
    ensures StableSort(Flatten(Table(items)), items)
  {
    TableOrdered(items);
    FlattenSorted(Table(items));
    forall d ensures At(Flatten(Table(items)), d) == At(items, d) {
      TableAt(items, d);
    }
  }

  /** One scan at `now` of the table built from `items`: what it takes is the due items stably
      sorted by deadline, what it leaves is the table of the others. */
  lemma {:induction false} ScanTakesDueInOrder<T>(items: seq<Item<T>>, now: nat)
    ensures StableSort(Flatten(Due(Table(items), now)), DueItems(items, now))
    ensures Rest(Table(items), now) == Table(UndueItems(items, now))
    ensures forall i :: 0 <= i < |DueItems(items, now)| ==> DueItems(items, now)[i].deadline <= now
    ensures forall i :: 0 <= i < |UndueItems(items, now)| ==> now < UndueItems(items, now)[i].deadline
  {
    ScanIsFilter(items, now);
    TableIsStableSort(DueItems(items, now));
    FilterBounds(items, now);
  }

  lemma {:induction false} FilterBounds<T>(items: seq<Item<T>>, now: nat)
    ensures forall i :: 0 <= i < |DueItems(items, now)| ==> DueItems(items, now)[i].deadline <= now
    ensures forall i :: 0 <= i < |UndueItems(items, now)| ==> now < UndueItems(items, now)[i].deadline
    ensures forall x :: x in items ==> x in DueItems(items, now) || x in UndueItems(items, now)
    ensures forall x :: x in DueItems(items, now) || x in UndueItems(items, now) ==> x in items
  {
    if items != [] {
      FilterBounds(items[..|items| - 1], now);
      assert items == items[..|items| - 1] + [items[|items| - 1]];
    }
  }
}
