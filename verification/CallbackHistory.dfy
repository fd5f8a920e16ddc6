/** What callbacks are called with: for each event the registrations in the list, in order, each
    with its own function and context and with the event; over runs, from the calls of
    `AddProcEvCallback` and `RemoveProcEvCallback` and the events dispatched. */
module CallbackHistory {
  import opened Sequences
  import opened CallbackRegistry

  // ---------------------------------------------------------------- one event

  /** `v` calls registration `cb` with event `ev`. */
  predicate Calls(v: Invocation, cb: Callback, ev: Event) {
    cb.fn == Some(v.fn) && cb.id == v.id && cb.context == v.context && v.ev == ev
  }

  /** A call is made if and only if some registration in the list, its function not empty, is called
      with its own function, context and identifier and with the event. */
  lemma {:induction false} InvocationsMean(cs: seq<Callback>, ev: Event, v: Invocation)
    ensures v in Invocations(cs, ev) <==>
      exists i ::
        0 <= i < |cs| && cs[i].fn == Some(v.fn) && cs[i].id == v.id && cs[i].context == v.context && v.ev == ev
  {
    if cs != [] {
      var init, last := cs[..|cs| - 1], cs[|cs| - 1];
      InvocationsMean(init, ev, v);
      assert cs == init + [last];
      if Calls(v, last, ev) {
        assert cs[|cs| - 1] == last;
      }
      if i :| 0 <= i < |init| && Calls(v, init[i], ev) {
        assert cs[i] == init[i];
      }
    }
  }

  /** The calls are made in list order: each registration's own call stands where the number of
      earlier registrations with a function says. */
  lemma {:induction false} InvocationsInOrder(cs: seq<Callback>, ev: Event, i: nat)
    requires i < |cs| && cs[i].fn.Some?
    ensures var at := |Invocations(cs[..i], ev)|;
            at < |Invocations(cs, ev)| && Calls(Invocations(cs, ev)[at], cs[i], ev)
  {
    assert cs == cs[..i + 1] + cs[i + 1..] && cs[..i + 1][..i] == cs[..i];
    DispatchFollowsTheList(cs[..i + 1], cs[i + 1..], ev);
  }

  lemma {:induction false} EarlierIsCalledEarlier(cs: seq<Callback>, ev: Event, i: nat, j: nat)
    requires i < j < |cs| && cs[i].fn.Some? && cs[j].fn.Some?
    ensures exists p, q ::
      && 0 <= p < q < |Invocations(cs, ev)|
      && Calls(Invocations(cs, ev)[p], cs[i], ev) && Calls(Invocations(cs, ev)[q], cs[j], ev)
  {
    InvocationsInOrder(cs, ev, i);
    InvocationsInOrder(cs, ev, j);
    InvocationsInOrder(cs[..j], ev, i);
    assert cs[..j][..i] == cs[..i];
  }

  /** No call is made twice over: one call for each registration with a function. */
  function Functions(cb: Callback): int { if cb.fn.Some? then 1 else 0 }

  lemma {:induction false} InvocationCount(cs: seq<Callback>, ev: Event)
    ensures |Invocations(cs, ev)| == Sum(cs, Functions)
  {
    if cs != [] {
      InvocationCount(cs[..|cs| - 1], ev);
    }
  }

  // ---------------------------------------------------------------- runs

  /** The function and the context given to the `AddProcEvCallback` that got `id`, while that
      registration stands: nothing before it, nor after `RemoveProcEvCallback(id)`. */
  ghost function Standing(s: Registry, moves: seq<Move>, id: nat): Option<(Option<nat>, nat)>
    requires Possible(s, moves)
  {
    if moves == [] then None
    else
      var init, m := moves[..|moves| - 1], moves[|moves| - 1];
      match m
      case Append(c, fn, context) =>
        if c < |After(s, init).adding| && After(s, init).adding[c] == Some(id) then Some((fn, context))
        else Standing(s, init, id)
      case Remove(removed) => if removed == id then None else Standing(s, init, id)
      case _ => Standing(s, init, id)
  }

  /** The calls owed to `id` over a run: for each event dispatched while it stands with a function. */
  ghost function OwedCalls(s: Registry, moves: seq<Move>, id: nat): seq<Invocation>
    requires Possible(s, moves)
  {
    if moves == [] then []
    else
      var init, m := moves[..|moves| - 1], moves[|moves| - 1];
      var standing := Standing(s, init, id);
      OwedCalls(s, init, id) +
      if m.Dispatch? && standing.Some? && standing.value.0.Some?
      then [Invocation(id, standing.value.0.value, standing.value.1, m.ev)]
      else []
  }

  function CallsOf(log: seq<Invocation>, id: nat): seq<Invocation> {
    if log == [] then []
    else
      var last := log[|log| - 1];
      CallsOf(log[..|log| - 1], id) + if last.id == id then [last] else []
  }

  lemma {:induction false} CallsOfConcat(a: seq<Invocation>, b: seq<Invocation>, id: nat)
    ensures CallsOf(a + b, id) == CallsOf(a, id) + CallsOf(b, id)
  {
    if b == [] {
      assert a + b == a;
    } else {
      assert (a + b)[..|a + b| - 1] == a + b[..|b| - 1];
      CallsOfConcat(a, b[..|b| - 1], id);
    }
  }

  /** `id` is in the list with what it was registered with, if it stands, and not at all otherwise. */
  predicate ListedAs(cs: seq<Callback>, id: nat, standing: Option<(Option<nat>, nat)>) {
    match standing
    case None => forall i :: 0 <= i < |cs| ==> cs[i].id != id
    case Some((fn, context)) =>
      && (exists i :: 0 <= i < |cs| && cs[i].id == id)
      && (forall i :: 0 <= i < |cs| && cs[i].id == id ==> cs[i] == Callback(fn, context, id))
  }

  lemma {:induction false} CallsOfOne(v: Invocation, id: nat)
    ensures CallsOf([v], id) == if v.id == id then [v] else []
  {
    assert [v][..0] == [];
    assert CallsOf([v][..0], id) == [];
  }

  lemma {:induction false} CallsOfNone(cs: seq<Callback>, ev: Event, id: nat)
    requires forall i :: 0 <= i < |cs| ==> cs[i].id != id
    ensures CallsOf(Invocations(cs, ev), id) == []
  {
    if cs != [] {
      var init, last := cs[..|cs| - 1], cs[|cs| - 1];
      CallsOfNone(init, ev, id);
      if last.fn.Some? {
        var v := Invocation(last.id, last.fn.value, last.context, ev);
        CallsOfConcat(Invocations(init, ev), [v], id);
        CallsOfOne(v, id);
      } else {
        assert Invocations(cs, ev) == Invocations(init, ev);
      }
    }
  }

  /** One event calls the registration under `id`, if it is listed with a function, once. */
  lemma {:induction false} CallsOfListed(cs: seq<Callback>, ev: Event, id: nat, i: nat)
    requires i < |cs| && cs[i].id == id && forall a, b :: 0 <= a < b < |cs| ==> cs[a].id != cs[b].id
    ensures CallsOf(Invocations(cs, ev), id)
         == if cs[i].fn.Some? then [Invocation(id, cs[i].fn.value, cs[i].context, ev)] else []
  {
    var earlier, later := cs[..i], cs[i + 1..];
    assert cs == earlier + ([cs[i]] + later);
    DispatchFollowsTheList(earlier, [cs[i]] + later, ev);
    DispatchFollowsTheList([cs[i]], later, ev);
    CallsOfNone(earlier, ev, id);
    CallsOfNone(later, ev, id);
    var here := Invocations([cs[i]], ev);
    assert [cs[i]][..0] == [] && Invocations([cs[i]][..0], ev) == [];
    CallsOfConcat(Invocations(earlier, ev), here + Invocations(later, ev), id);
    CallsOfConcat(here, Invocations(later, ev), id);
    if cs[i].fn.Some? {
      CallsOfOne(here[0], id);
    }
  }

  lemma {:induction false} StepKeepsListed(s: Registry, m: Move, id: nat, standing: Option<(Option<nat>, nat)>)
    requires Inv(s) && Enabled(s, m) && s.generated <= ID_LIMIT && ListedAs(s.callbacks, id, standing)
    ensures ListedAs(Next(s, m).callbacks, id,
      match m
      case Append(c, fn, context) => if s.adding[c] == Some(id) then Some((fn, context)) else standing
      case Remove(removed) => if removed == id then None else standing
      case _ => standing)
  {
    if m.Remove? {
      WithoutKeepsTheRest(s.callbacks, m.id);
      RemoveKeepsListed(s.callbacks, Without(s.callbacks, m.id), id, m.id, standing);
    } else if m.Append? {
      AppendKeepsListed(s, m, id, standing);
    }
  }

  lemma {:induction false} AppendKeepsListed(s: Registry, m: Move, id: nat, standing: Option<(Option<nat>, nat)>)
    requires DistinctIds(s) && Enabled(s, m) && m.Append? && ListedAs(s.callbacks, id, standing)
    ensures ListedAs(Next(s, m).callbacks, id,
      if s.adding[m.c] == Some(id) then Some((m.fn, m.context)) else standing)
  {
    var cs, cs' := s.callbacks, Next(s, m).callbacks;
    assert Held(s, s.adding[m.c].value);
    assert cs'[|cs|].id == s.adding[m.c].value;
    assert forall i :: 0 <= i < |cs| ==> cs'[i] == cs[i] && cs[i].id != s.adding[m.c].value;
    if s.adding[m.c] != Some(id) && standing.Some? {
      var i :| 0 <= i < |cs| && cs[i].id == id;
      assert cs'[i].id == id;
    }
  }

  lemma {:induction false} RemoveKeepsListed(
      cs: seq<Callback>, rest: seq<Callback>, id: nat, removed: nat, standing: Option<(Option<nat>, nat)>)
    requires forall cb :: cb in rest <==> cb in cs && cb.id != removed
    requires ListedAs(cs, id, standing)
    ensures ListedAs(rest, id, if removed == id then None else standing)
  {
    forall i | 0 <= i < |rest| ensures rest[i] in cs && rest[i].id != removed {
      assert rest[i] in rest;
    }
    if removed != id && standing.Some? {
      var i :| 0 <= i < |cs| && cs[i].id == id;
      assert cs[i] in rest;
    }
  }

  lemma {:induction false} ListedAsStanding(threads: nat, moves: seq<Move>, id: nat)
    requires Possible(Empty(threads), moves) && After(Empty(threads), moves).generated <= ID_LIMIT
    ensures Inv(After(Empty(threads), moves))
    ensures ListedAs(After(Empty(threads), moves).callbacks, id, Standing(Empty(threads), moves, id))
  {
    EmptyKeepsInv(threads);
    RunKeepsInv(Empty(threads), moves);
    if moves != [] {
      var init, m := moves[..|moves| - 1], moves[|moves| - 1];
      var before := After(Empty(threads), init);
      RunKeepsInv(Empty(threads), init);
      assert After(Empty(threads), moves) == Next(before, m);
      ListedAsStanding(threads, init, id);
      StepKeepsListed(before, m, id, Standing(Empty(threads), init, id));
    }
  }

  /** Over any run, with at most 2^64 identifiers drawn, the calls made under an identifier are
      exactly these: for each event dispatched after its `AddProcEvCallback` and before its removal,
      in order, one call of the function registered then, with the context registered then and the
      event. */
  lemma {:induction false} CalledExactlyAsRegistered(threads: nat, moves: seq<Move>, id: nat)
    requires Possible(Empty(threads), moves) && After(Empty(threads), moves).generated <= ID_LIMIT
    ensures CallsOf(After(Empty(threads), moves).log, id) == OwedCalls(Empty(threads), moves, id)
  {
    if moves != [] {
      var init, m := moves[..|moves| - 1], moves[|moves| - 1];
      var before := After(Empty(threads), init);
      EmptyKeepsInv(threads);
      RunKeepsInv(Empty(threads), init);
      assert After(Empty(threads), moves) == Next(before, m);
      CalledExactlyAsRegistered(threads, init, id);
      if m.Dispatch? {
        ListedAsStanding(threads, init, id);
        DispatchCalls(before.callbacks, m.ev, id, Standing(Empty(threads), init, id));
        CallsOfConcat(before.log, Invocations(before.callbacks, m.ev), id);
      }
    }
  }

  lemma {:induction false} DispatchCalls(
      cs: seq<Callback>, ev: Event, id: nat, standing: Option<(Option<nat>, nat)>)
    requires ListedAs(cs, id, standing) && forall a, b :: 0 <= a < b < |cs| ==> cs[a].id != cs[b].id
    ensures CallsOf(Invocations(cs, ev), id) ==
      if standing.Some? && standing.value.0.Some?
      then [Invocation(id, standing.value.0.value, standing.value.1, ev)]
      else []
  {
    if standing.Some? {
      var i :| 0 <= i < |cs| && cs[i].id == id;
      CallsOfListed(cs, ev, id, i);
    } else {
      CallsOfNone(cs, ev, id);
    }
  }
}
