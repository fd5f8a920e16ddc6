/** The monitor's callback list: identifiers from a 64-bit counter, registration and removal under
    the callbacks' mutex, and the delivery of one event to every registered callback. */
module CallbackRegistry {
  import opened Sequences
  import ProcMonitorSteps
  import Runs

  type Event = ProcMonitorSteps.Event

  /** `fn` is `None` for an empty `std::function`. */
  datatype Callback = Callback(fn: Option<nat>, context: nat, id: nat)

  datatype Invocation = Invocation(id: nat, fn: nat, context: nat, ev: Event)

  /** `nextId_` is a `uint64_t`. */
  const ID_LIMIT: nat := 0x1_0000_0000_0000_0000

  /** `adding[c]` is the identifier thread `c` has drawn but not yet put in the list; `generated`
      counts the identifiers drawn and `log` records the calls made. */
  datatype Registry = Registry(
    nextId: nat, callbacks: seq<Callback>, adding: seq<Option<nat>>, generated: nat, log: seq<Invocation>)

  datatype Move =
    | GenerateId(c: nat)
    | Append(c: nat, fn: Option<nat>, context: nat)
    | Remove(id: nat)
    | Dispatch(ev: Event)

  predicate Enabled(s: Registry, m: Move) {
    match m
    case GenerateId(c) => c < |s.adding| && s.adding[c].None?
    case Append(c, _, _) => c < |s.adding| && s.adding[c].Some?
    case Remove(_) => true
    case Dispatch(_) => true
  }

  function Without(cs: seq<Callback>, id: nat): seq<Callback> {
    if cs == [] then []
    else Without(cs[..|cs| - 1], id) + if cs[|cs| - 1].id == id then [] else [cs[|cs| - 1]]
  }

  /** The calls `forEachCallback` makes: the list in order, empty functions skipped. */
  function Invocations(cs: seq<Callback>, ev: Event): seq<Invocation> {
    if cs == [] then []
    else
      var cb := cs[|cs| - 1];
      Invocations(cs[..|cs| - 1], ev) + if cb.fn.Some? then [Invocation(cb.id, cb.fn.value, cb.context, ev)] else []
  }

  /** The calls made for a batch of events. */
  function BatchInvocations(cs: seq<Callback>, batch: seq<Event>): seq<Invocation> {
    if batch == [] then []
    else BatchInvocations(cs, batch[..|batch| - 1]) + Invocations(cs, batch[|batch| - 1])
  }

  function Next(s: Registry, m: Move): Registry
    requires Enabled(s, m)
  {
    match m
    case GenerateId(c) =>
      s.(nextId := (s.nextId + 1) % ID_LIMIT, adding := s.adding[c := Some(s.nextId)], generated := s.generated + 1)
    case Append(c, fn, context) =>
      s.(callbacks := s.callbacks + [Callback(fn, context, s.adding[c].value)], adding := s.adding[c := None])
    case Remove(id) => s.(callbacks := Without(s.callbacks, id))
    case Dispatch(ev) => s.(log := s.log + Invocations(s.callbacks, ev))
  }

  /** The registry once the first `k` events of a batch are dispatched. */
  function Dispatched(s: Registry, batch: seq<Event>, k: nat): Registry
    requires k <= |batch|
  {
    s.(log := s.log + BatchInvocations(s.callbacks, batch[..k]))
  }

  lemma {:induction false} DispatchedSome(s: Registry, batch: seq<Event>, k: nat)
    requires k <= |batch|
    ensures k == 0 ==> Dispatched(s, batch, k) == s
    ensures k < |batch| ==> Next(Dispatched(s, batch, k), Dispatch(batch[k])) == Dispatched(s, batch, k + 1)
    ensures k == |batch| ==> Dispatched(s, batch, k) == s.(log := s.log + BatchInvocations(s.callbacks, batch))
  {
    if k < |batch| {
      assert batch[..k + 1][..k] == batch[..k];
    } else {
      assert batch[..k] == batch;
    }
  }

  ghost predicate Possible(s: Registry, moves: seq<Move>) {
    Runs.Possible(Enabled, Next, s, moves)
  }

  ghost function After(s: Registry, moves: seq<Move>): Registry
    requires Possible(s, moves)
  {
    Runs.After(Enabled, Next, s, moves)
  }

  function Empty(threads: nat): Registry {
    Registry(1, [], seq(threads, _ => None), 0, [])
  }

  // ---------------------------------------------------------------- identifiers

  /** The identifier of registration number `j`, counting from 0. */
  function IdOf(j: nat): nat {
    (1 + j) % ID_LIMIT
  }

  lemma {:induction false} IdOfDistinctExactly(n: nat)
    ensures (forall i, j :: 0 <= i < j < n ==> IdOf(i) != IdOf(j)) <==> n <= ID_LIMIT
  {
    if n > ID_LIMIT {
      assert IdOf(0) == IdOf(ID_LIMIT);
    }
  }

  /** The identifiers `generateId` returns over a run, by any thread, in order. */
  ghost function Drawn(s: Registry, moves: seq<Move>): seq<nat>
    requires Possible(s, moves)
  {
    if moves == [] then []
    else
      var init, m := moves[..|moves| - 1], moves[|moves| - 1];
      Drawn(s, init) + if m.GenerateId? then [After(s, init).nextId] else []
  }

  /** The counter hands out its values one after the other, whatever else happens in between. */
  lemma {:induction false} DrawnInOrder(s: Registry, moves: seq<Move>)
    requires s.nextId == IdOf(s.generated) && Possible(s, moves)
    ensures After(s, moves).nextId == IdOf(After(s, moves).generated)
    ensures After(s, moves).generated == s.generated + |Drawn(s, moves)|
    ensures forall j :: 0 <= j < |Drawn(s, moves)| ==> Drawn(s, moves)[j] == IdOf(s.generated + j)
  {
    if moves != [] {
      DrawnInOrder(s, moves[..|moves| - 1]);
    }
  }

  /** The identifiers returned over a run from the empty registry are pairwise distinct if and only
      if at most 2^64 were drawn. */
  lemma {:induction false} IdsDistinctExactly(threads: nat, moves: seq<Move>)
    requires Possible(Empty(threads), moves)
    ensures var drawn := Drawn(Empty(threads), moves);
            (forall i, j :: 0 <= i < j < |drawn| ==> drawn[i] != drawn[j]) <==> |drawn| <= 0x1_0000_0000_0000_0000
  {
    var drawn := Drawn(Empty(threads), moves);
    DrawnInOrder(Empty(threads), moves);
    IdOfDistinctExactly(|drawn|);
    assert |drawn| > ID_LIMIT ==> drawn[0] == IdOf(0) && drawn[ID_LIMIT] == IdOf(ID_LIMIT);
  }

  /** The first registration number that gets `id`. */
  function Ordinal(id: nat): int {
    if id == 0 then ID_LIMIT - 1 else id - 1
  }

  predicate Used(s: Registry, id: nat) {
    Ordinal(id) < s.generated
  }

  predicate Held(s: Registry, id: nat) {
    Some(id) in s.adding
  }

  /** While at most 2^64 identifiers were drawn, those in the list and those being added are all
      different, and all drawn before. */
  predicate DistinctIds(s: Registry) {
    && s.nextId == IdOf(s.generated)
    && (forall i :: 0 <= i < |s.callbacks| ==> Used(s, s.callbacks[i].id) && !Held(s, s.callbacks[i].id))
    && (forall c :: 0 <= c < |s.adding| && s.adding[c].Some? ==> Used(s, s.adding[c].value))
    && (forall i, j :: 0 <= i < j < |s.callbacks| ==> s.callbacks[i].id != s.callbacks[j].id)
    && (forall c, d :: 0 <= c < d < |s.adding| && s.adding[c].Some? ==> s.adding[c] != s.adding[d])
  }

  predicate Inv(s: Registry) {
    s.generated <= ID_LIMIT ==> DistinctIds(s)
  }

  lemma {:induction false} WithoutKeepsTheRest(cs: seq<Callback>, id: nat)
    ensures forall cb :: cb in Without(cs, id) <==> cb in cs && cb.id != id
    ensures (forall i, j :: 0 <= i < j < |cs| ==> cs[i].id != cs[j].id) ==>
      forall i, j :: 0 <= i < j < |Without(cs, id)| ==> Without(cs, id)[i].id != Without(cs, id)[j].id
  {
    if cs != [] {
      var init, last := cs[..|cs| - 1], cs[|cs| - 1];
      WithoutKeepsTheRest(init, id);
      assert cs == init + [last];
      var rest := Without(init, id);
      forall i | 0 <= i < |rest| ensures rest[i] in init {
        assert rest[i] in rest;
      }
    }
  }

  lemma {:induction false} GenerateKeepsIds(s: Registry, c: nat)
    requires DistinctIds(s) && Enabled(s, GenerateId(c)) && s.generated < ID_LIMIT
    ensures DistinctIds(Next(s, GenerateId(c)))
  {
    var s' := Next(s, GenerateId(c));
    assert Ordinal(s.nextId) == s.generated;
    forall i | 0 <= i < |s'.callbacks| ensures !Held(s', s'.callbacks[i].id) {
      assert Used(s, s.callbacks[i].id);
      assert forall d :: 0 <= d < |s'.adding| ==> s'.adding[d] == if d == c then Some(s.nextId) else s.adding[d];
    }
  }

  lemma {:induction false} AppendKeepsIds(s: Registry, m: Move)
    requires DistinctIds(s) && Enabled(s, m) && m.Append?
    ensures DistinctIds(Next(s, m))
  {
    var s' := Next(s, m);
    assert forall d :: 0 <= d < |s'.adding| ==> s'.adding[d] == if d == m.c then None else s.adding[d];
    forall i | 0 <= i < |s'.callbacks| ensures !Held(s', s'.callbacks[i].id) {
      if i < |s.callbacks| {
        assert !Held(s, s.callbacks[i].id);
      }
    }
    assert Held(s, s.adding[m.c].value);
  }

  lemma {:induction false} RemoveKeepsIds(s: Registry, id: nat)
    requires DistinctIds(s)
    ensures DistinctIds(Next(s, Remove(id)))
  {
    WithoutKeepsTheRest(s.callbacks, id);
    var s' := Next(s, Remove(id));
    forall i | 0 <= i < |s'.callbacks| ensures Used(s', s'.callbacks[i].id) && !Held(s', s'.callbacks[i].id) {
      assert s'.callbacks[i] in s'.callbacks;
    }
  }

  lemma {:induction false} StepKeepsInv(s: Registry, m: Move)
    requires Inv(s) && Enabled(s, m)
    ensures Inv(Next(s, m))
  {
    if Next(s, m).generated <= ID_LIMIT {
      match m {
        case GenerateId(c) => GenerateKeepsIds(s, c);
        case Append(_, _, _) => AppendKeepsIds(s, m);
        case Remove(id) => RemoveKeepsIds(s, id);
        case Dispatch(_) =>
      }
    }
  }

  lemma {:induction false} RunKeepsInv(s: Registry, moves: seq<Move>)
    requires Inv(s) && Possible(s, moves)
    ensures Inv(After(s, moves)) && After(s, moves).generated >= s.generated
  {
    if moves != [] {
      RunKeepsInv(s, moves[..|moves| - 1]);
      StepKeepsInv(After(s, moves[..|moves| - 1]), moves[|moves| - 1]);
    }
  }

  lemma {:induction false} EmptyKeepsInv(threads: nat)
    ensures Inv(Empty(threads))
  {
  }

  // ---------------------------------------------------------------- delivery

  function IsFor(id: nat): Invocation -> int { (v: Invocation) => if v.id == id then 1 else 0 }

  /** `id` is in the list, with a callback that is not empty. */
  predicate Listening(cs: seq<Callback>, id: nat) {
    exists i :: 0 <= i < |cs| && cs[i].id == id && cs[i].fn.Some?
  }

  lemma {:induction false} ListeningLast(cs: seq<Callback>, id: nat)
    requires cs != []
    ensures Listening(cs, id) <==>
      Listening(cs[..|cs| - 1], id) || (cs[|cs| - 1].id == id && cs[|cs| - 1].fn.Some?)
  {
    var init := cs[..|cs| - 1];
    if Listening(init, id) {
      var i :| 0 <= i < |init| && init[i].id == id && init[i].fn.Some?;
      assert cs[i] == init[i];
    }
    if Listening(cs, id) {
      var i :| 0 <= i < |cs| && cs[i].id == id && cs[i].fn.Some?;
      assert i < |init| ==> init[i] == cs[i];
    }
  }

  lemma {:induction false} SumOne(v: Invocation, id: nat)
    ensures Sum([v], IsFor(id)) == if v.id == id then 1 else 0
  {
    assert [v][..0] == [];
    assert Sum([v][..0], IsFor(id)) == 0;
  }

  /** One event reaches every listening registration exactly once and nobody else. */
  lemma {:induction false} DispatchReachesEachOnce(cs: seq<Callback>, ev: Event, id: nat)
    requires forall i, j :: 0 <= i < j < |cs| ==> cs[i].id != cs[j].id
    ensures Sum(Invocations(cs, ev), IsFor(id)) == if Listening(cs, id) then 1 else 0
  {
    if cs != [] {
      var init, last := cs[..|cs| - 1], cs[|cs| - 1];
      DispatchReachesEachOnce(init, ev, id);
      ListeningLast(cs, id);
      if last.fn.Some? {
        var v := Invocation(last.id, last.fn.value, last.context, ev);
        SumOne(v, id);
        SumConcat(Invocations(init, ev), [v], IsFor(id));
      } else {
        assert Invocations(cs, ev) == Invocations(init, ev);
      }
    }
  }

  /** Delivery follows the list: what is registered earlier is called earlier. */
  lemma {:induction false} DispatchFollowsTheList(cs: seq<Callback>, later: seq<Callback>, ev: Event)
    ensures Invocations(cs + later, ev) == Invocations(cs, ev) + Invocations(later, ev)
  {
    if later == [] {
      assert cs + later == cs;
    } else {
      assert (cs + later)[..|cs + later| - 1] == cs + later[..|later| - 1];
      DispatchFollowsTheList(cs, later[..|later| - 1], ev);
    }
  }

  /** How many events of a run were dispatched while `id` was listening. */
  ghost function Owed(s: Registry, moves: seq<Move>, id: nat): nat
    requires Possible(s, moves)
  {
    if moves == [] then 0
    else
      var init, m := moves[..|moves| - 1], moves[|moves| - 1];
      Owed(s, init, id) + if m.Dispatch? && Listening(After(s, init).callbacks, id) then 1 else 0
  }

  /** Over any run a registration is invoked exactly once for each event dispatched while it was
      in the list, and never otherwise. */
  lemma {:induction false} InvokedExactlyWhileRegistered(s: Registry, moves: seq<Move>, id: nat)
    requires Inv(s) && Possible(s, moves) && After(s, moves).generated <= ID_LIMIT
    ensures Sum(After(s, moves).log, IsFor(id)) == Sum(s.log, IsFor(id)) + Owed(s, moves, id)
  {
    if moves != [] {
      var init, m := moves[..|moves| - 1], moves[|moves| - 1];
      InvokedExactlyWhileRegistered(s, init, id);
      RunKeepsInv(s, init);
      if m.Dispatch? {
        var before := After(s, init);
        DispatchReachesEachOnce(before.callbacks, m.ev, id);
        SumConcat(before.log, Invocations(before.callbacks, m.ev), IsFor(id));
      }
    }
  }

  // ---------------------------------------------------------------- removal

  predicate Gone(s: Registry, id: nat) {
    Used(s, id) && !Held(s, id) && forall i :: 0 <= i < |s.callbacks| ==> s.callbacks[i].id != id
  }

  lemma {:induction false} StepKeepsGone(s: Registry, m: Move, id: nat)
    requires Inv(s) && Gone(s, id) && Enabled(s, m) && Next(s, m).generated <= ID_LIMIT
    ensures Gone(Next(s, m), id)
  {
    var s' := Next(s, m);
    if m.Remove? {
      WithoutKeepsTheRest(s.callbacks, m.id);
      forall i | 0 <= i < |s'.callbacks| ensures s'.callbacks[i].id != id {
        assert s'.callbacks[i] in s'.callbacks;
      }
    } else if m.GenerateId? {
      assert Ordinal(s.nextId) == s.generated;
      assert forall d :: 0 <= d < |s'.adding| ==> s'.adding[d] == if d == m.c then Some(s.nextId) else s.adding[d];
    } else if m.Append? {
      assert Held(s, s.adding[m.c].value);
      assert forall d :: 0 <= d < |s'.adding| ==> s'.adding[d] == if d == m.c then None else s.adding[d];
    }
  }

  lemma {:induction false} RunKeepsGone(s: Registry, moves: seq<Move>, id: nat)
    requires Inv(s) && Gone(s, id) && Possible(s, moves) && After(s, moves).generated <= ID_LIMIT
    ensures Gone(After(s, moves), id) && Owed(s, moves, id) == 0
  {
    if moves != [] {
      var init, m := moves[..|moves| - 1], moves[|moves| - 1];
      RunKeepsGone(s, init, id);
      RunKeepsInv(s, init);
      StepKeepsGone(After(s, init), m, id);
    }
  }

  /** After `RemoveProcEvCallback(id)` returns, for an identifier whose `AddProcEvCallback` had
      returned, that registration is never invoked again, and all others are still in the list. */
  lemma {:induction false} RemovedNeverInvokedAgain(s: Registry, id: nat, moves: seq<Move>)
    requires Inv(s) && Used(s, id) && !Held(s, id)
    requires Possible(Next(s, Remove(id)), moves) && After(Next(s, Remove(id)), moves).generated <= ID_LIMIT
    ensures Sum(After(Next(s, Remove(id)), moves).log, IsFor(id)) == Sum(s.log, IsFor(id))
    ensures forall cb :: cb in Next(s, Remove(id)).callbacks <==> cb in s.callbacks && cb.id != id
  {
    var s' := Next(s, Remove(id));
    WithoutKeepsTheRest(s.callbacks, id);
    StepKeepsInv(s, Remove(id));
    RunKeepsInv(s', moves);
    forall i | 0 <= i < |s'.callbacks| ensures s'.callbacks[i].id != id {
      assert s'.callbacks[i] in s'.callbacks;
    }
    RunKeepsGone(s', moves, id);
    InvokedExactlyWhileRegistered(s', moves, id);
  }
}
