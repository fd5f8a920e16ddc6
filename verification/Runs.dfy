/** Runs of a transition system: sequences of moves, each one enabled where it is made. */
module Runs {

  ghost predicate Possible<S, M>(enabled: (S, M) -> bool, next: (S, M) --> S, s: S, moves: seq<M>)
    decreases moves, 0
  {
    moves == [] ||
    var init, m := moves[..|moves| - 1], moves[|moves| - 1];
    && Possible(enabled, next, s, init)
    && enabled(After(enabled, next, s, init), m)
    && next.requires(After(enabled, next, s, init), m)
  }

  ghost function After<S, M>(enabled: (S, M) -> bool, next: (S, M) --> S, s: S, moves: seq<M>): S
    requires Possible(enabled, next, s, moves)
    decreases moves, 1
  {
    if moves == [] then s else next(After(enabled, next, s, moves[..|moves| - 1]), moves[|moves| - 1])
  }

  /** `moves` can be made from `s` and end in `t`. */
  ghost predicate Leads<S, M>(enabled: (S, M) -> bool, next: (S, M) --> S, s: S, moves: seq<M>, t: S) {
    Possible(enabled, next, s, moves) && After(enabled, next, s, moves) == t
  }

  lemma {:induction false} OneMore<S, M>(
      enabled: (S, M) -> bool, next: (S, M) --> S, s: S, moves: seq<M>, t: S, m: M) returns (longer: seq<M>)
    requires Leads(enabled, next, s, moves, t) && enabled(t, m) && next.requires(t, m)
    ensures longer == moves + [m] && Leads(enabled, next, s, longer, next(t, m))
  {
    longer := moves + [m];
    assert longer[..|longer| - 1] == moves;
  }

  lemma {:induction false} PrefixPossible<S, M>(
      enabled: (S, M) -> bool, next: (S, M) --> S, s: S, moves: seq<M>, t: nat)
    requires Possible(enabled, next, s, moves) && t <= |moves|
    ensures Possible(enabled, next, s, moves[..t])
  {
    if t == |moves| {
      assert moves[..t] == moves;
    } else {
      var init := moves[..|moves| - 1];
      PrefixPossible(enabled, next, s, init, t);
      assert init[..t] == moves[..t];
    }
  }

  lemma {:induction false} Chain<S, M>(
      enabled: (S, M) -> bool, next: (S, M) --> S, s: S, a: seq<M>, t: S, b: seq<M>, u: S)
    requires Leads(enabled, next, s, a, t) && Leads(enabled, next, t, b, u)
    ensures Leads(enabled, next, s, a + b, u)
  {
    if b == [] {
      assert a + b == a;
    } else {
      assert (a + b)[..|a + b| - 1] == a + b[..|b| - 1];
      Chain(enabled, next, s, a, t, b[..|b| - 1], After(enabled, next, t, b[..|b| - 1]));
    }
  }
}
