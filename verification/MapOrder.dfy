/** What concurrent callers of the sharded map can rely on about order: in every bucket, and so for
    every key, each client's work is carried out in the order it was asked for, each piece once. For
    insertions that is more than the final map depends on: it converges. */
module MapOrder {
  import opened Sequences
  import opened FlatMap
  import opened Convergence
  import opened MapLog
  import opened MapSteps

  function Place<K, V>(home: K -> nat, e: Entry<K, V>): nat {
    match e
    case Did(_, op) => home(op.key)
    case Wiped(_, b) => b
  }

  /** Client `c`'s entries at bucket `b`, in order. */
  function Mine<K, V>(home: K -> nat, log: seq<Entry<K, V>>, c: nat, b: nat): seq<Entry<K, V>> {
    if log == [] then []
    else
      var last := log[|log| - 1];
      Mine(home, log[..|log| - 1], c, b) + if last.client == c && Place(home, last) == b then [last] else []
  }

  lemma {:induction false} MineConcat<K, V>(
      home: K -> nat, x: seq<Entry<K, V>>, y: seq<Entry<K, V>>, c: nat, b: nat)
    ensures Mine(home, x + y, c, b) == Mine(home, x, c, b) + Mine(home, y, c, b)
  {
    if y == [] {
      assert x + y == x;
    } else {
      assert (x + y)[..|x + y| - 1] == x + y[..|y| - 1];
      MineConcat(home, x, y[..|y| - 1], c, b);
    }
  }

  lemma {:induction false} NothingMine<K, V>(home: K -> nat, log: seq<Entry<K, V>>, c: nat, b: nat)
    requires forall i :: 0 <= i < |log| ==> log[i].client != c || Place(home, log[i]) != b
    ensures Mine(home, log, c, b) == []
  {
    if log != [] {
      NothingMine(home, log[..|log| - 1], c, b);
    }
  }

  lemma {:induction false} AllMine<K, V>(home: K -> nat, log: seq<Entry<K, V>>, c: nat, b: nat)
    requires forall i :: 0 <= i < |log| ==> log[i].client == c && Place(home, log[i]) == b
    ensures Mine(home, log, c, b) == log
  {
    if log != [] {
      AllMine(home, log[..|log| - 1], c, b);
    }
  }

  /** What the sections a client still has to run will carry out. */
  function ToCome<K, V>(c: nat, sections: seq<Section<K, V>>): seq<Entry<K, V>> {
    if sections == [] then [] else SectionEntries(c, sections[0]) + ToCome(c, sections[1..])
  }

  // ---------------------------------------------------------------- one call

  lemma {:induction false} DidsMine<K, V>(home: K -> nat, c: nat, ops: seq<Op<K, V>>, b: nat)
    ensures Mine(home, Dids(c, ops), c, b) == Dids(c, ForBucket(home, ops, b))
  {
    if ops != [] {
      DidsMine(home, c, ops[..|ops| - 1], b);
      assert Dids(c, ops)[..|ops| - 1] == Dids(c, ops[..|ops| - 1]);
    }
  }

  lemma {:induction false} WipesMine<K, V>(home: K -> nat, n: nat, c: nat, b: nat)
    ensures Mine(home, CallEntries(c, n, Call<K, V>.ClearAll), c, b) == if b < n then [Wiped(c, b)] else []
  {
    if n > 0 {
      var all := CallEntries(c, n, Call<K, V>.ClearAll);
      assert all[..n - 1] == CallEntries(c, n - 1, Call<K, V>.ClearAll);
      WipesMine<K, V>(home, n - 1, c, b);
    }
  }

  /** All a section carries out is at its bucket. */
  ghost predicate StaysInBucket<K, V>(home: K -> nat, c: nat, s: Section<K, V>) {
    forall i :: 0 <= i < |SectionEntries(c, s)| ==> Place(home, SectionEntries(c, s)[i]) == s.bucket
  }

  /** Of sections on consecutive buckets, only the one on bucket `b` carries out anything there. */
  lemma {:induction false} SectionsMine<K, V>(home: K -> nat, c: nat, sections: seq<Section<K, V>>, first: nat, b: nat)
    requires forall i :: 0 <= i < |sections| ==>
      StaysInBucket(home, c, sections[i]) && sections[i].bucket == first + i
    ensures Mine(home, ToCome(c, sections), c, b) ==
      if first <= b < first + |sections| then SectionEntries(c, sections[b - first]) else []
  {
    if sections != [] {
      var here, rest := SectionEntries(c, sections[0]), sections[1..];
      SectionsMine(home, c, rest, first + 1, b);
      MineConcat(home, here, ToCome(c, rest), c, b);
      assert StaysInBucket(home, c, sections[0]);
      if b == first {
        AllMine(home, here, c, b);
      } else {
        NothingMine(home, here, c, b);
      }
    }
  }

  lemma {:induction false} ProgramStaysInBuckets<K(!new), V>(home: K -> nat, n: nat, call: Call<K, V>, c: nat)
    requires forall k :: home(k) < n
    ensures forall i :: 0 <= i < |Program(home, n, call)| ==> StaysInBucket(home, c, Program(home, n, call)[i])
  {
    ProgramOk(home, n, call);
    var sections := Program(home, n, call);
    forall i | 0 <= i < |sections| ensures StaysInBucket(home, c, sections[i]) {
      assert SectionOk(home, n, sections[i]);
    }
  }

  lemma {:induction false} SingleMine<K, V>(home: K -> nat, op: Op<K, V>, c: nat, b: nat)
    ensures Dids(c, [op]) == [Did(c, op)]
    ensures Mine(home, [Did(c, op)], c, b) == if home(op.key) == b then [Did(c, op)] else []
  {
    if home(op.key) == b {
      AllMine(home, [Did(c, op)], c, b);
    } else {
      NothingMine(home, [Did(c, op)], c, b);
    }
  }

  lemma {:induction false} BatchMine<K, V>(home: K -> nat, n: nat, ops: seq<Op<K, V>>, c: nat, b: nat)
    requires forall k :: home(k) < n
    ensures Mine(home, CallEntries(c, n, Batch(ops)), c, b) == if b < n then Dids(c, ForBucket(home, ops, b)) else []
  {
    DidsMine(home, c, ops, b);
    if b >= n {
      NothingMine(home, Dids(c, ops), c, b);
    }
  }

  /** Client `c`'s share of a call at bucket `b`: its operations homed there, in order. */
  function Share<K, V>(home: K -> nat, n: nat, call: Call<K, V>, c: nat, b: nat): seq<Entry<K, V>> {
    match call
    case Single(op) => if home(op.key) == b then Dids(c, [op]) else []
    case LookUp(_) => []
    case Batch(ops) => if b < n then Dids(c, ForBucket(home, ops, b)) else []
    case ClearAll => if b < n then [Wiped(c, b)] else []
  }

  lemma {:induction false} ShareIsTheSection<K, V>(
      home: K -> nat, c: nat, sections: seq<Section<K, V>>, first: nat, b: nat, share: seq<Entry<K, V>>)
    requires forall i :: 0 <= i < |sections| ==>
      StaysInBucket(home, c, sections[i]) && sections[i].bucket == first + i
    requires share == if first <= b < first + |sections| then SectionEntries(c, sections[b - first]) else []
    ensures Mine(home, ToCome(c, sections), c, b) == share
  {
    SectionsMine(home, c, sections, first, b);
  }

  /** The first bucket a call visits. */
  function First<K, V>(home: K -> nat, call: Call<K, V>): nat {
    match call
    case Single(op) => home(op.key)
    case LookUp(key) => home(key)
    case _ => 0
  }

  /** A call visits consecutive buckets and does its share in each. */
  lemma {:induction false} ProgramSections<K, V>(home: K -> nat, n: nat, call: Call<K, V>, c: nat, b: nat)
    ensures var sections, first := Program(home, n, call), First(home, call);
            && (forall i :: 0 <= i < |sections| ==> sections[i].bucket == first + i)
            && Share(home, n, call, c, b) ==
               if first <= b < first + |sections| then SectionEntries(c, sections[b - first]) else []
  {
  }

  /** What the program of a call carries out at a bucket is the call's share there. */
  lemma {:induction false} ProgramMine<K(!new), V>(home: K -> nat, n: nat, call: Call<K, V>, c: nat, b: nat)
    requires forall k :: home(k) < n
    ensures Mine(home, ToCome(c, Program(home, n, call)), c, b) == Share(home, n, call, c, b)
  {
    ProgramStaysInBuckets(home, n, call, c);
    ProgramSections(home, n, call, c, b);
    ShareIsTheSection(home, c, Program(home, n, call), First(home, call), b, Share(home, n, call, c, b));
  }

  /** And so is what the call was asked to do. */
  lemma {:induction false} CallMine<K(!new), V>(home: K -> nat, n: nat, call: Call<K, V>, c: nat, b: nat)
    requires forall k :: home(k) < n
    ensures Mine(home, CallEntries(c, n, call), c, b) == Share(home, n, call, c, b)
  {
    match call {
      case Single(op) => SingleMine(home, op, c, b);
      case LookUp(_) =>
      case Batch(ops) => BatchMine(home, n, ops, c, b);
      case ClearAll => WipesMine<K, V>(home, n, c, b);
    }
  }

  // ---------------------------------------------------------------- every run

  ghost predicate Idle<K, V>(w: World<K, V>) {
    forall c :: 0 <= c < |w.clients| ==> w.clients[c] == []
  }

  /** A starting point: nobody is inside a call and nothing has been recorded. */
  ghost predicate Fresh<K(!new), V>(home: K -> nat, w: World<K, V>) {
    && WellFormed(home, w) && Idle(w)
    && w.issued == [] && w.log == [] && w.answers == [] && w.readings == []
  }

  /** What is still to come for a client. */
  function Pending<K, V>(w: World<K, V>, c: nat): seq<Entry<K, V>> {
    if c < |w.clients| then ToCome(c, w.clients[c]) else []
  }

  /** At bucket `b`, what client `c` asked for is what was done for it, then what is to come. */
  ghost predicate InOrder<K, V>(home: K -> nat, w: World<K, V>, c: nat, b: nat) {
    Mine(home, w.issued, c, b)
    == Mine(home, w.log, c, b) + Mine(home, Pending(w, c), c, b)
  }

  lemma {:induction false} IssuingKeepsOrder<K(!new), V>(
      home: K -> nat, w: World<K, V>, w': World<K, V>, client: nat, sections: seq<Section<K, V>>,
      more: seq<Entry<K, V>>, c: nat, b: nat)
    requires InOrder(home, w, c, b) && client < |w.clients| && w.clients[client] == []
    requires w'.issued == w.issued + more && w'.log == w.log && w'.clients == w.clients[client := sections]
    requires Mine(home, more, c, b) == if c == client then Mine(home, ToCome(c, sections), c, b) else []
    ensures InOrder(home, w', c, b)
  {
    MineConcat(home, w.issued, more, c, b);
    if c == client {
      assert ToCome(c, w.clients[c]) == [] && Mine(home, w.issued, c, b) == Mine(home, w.log, c, b);
    } else {
      assert Mine(home, w'.issued, c, b) == Mine(home, w.issued, c, b);
    }
  }

  lemma {:induction false} IssueKeepsOrder<K(!new), V>(
      prefers: (V, V) -> bool, home: K -> nat, w: World<K, V>, m: Move<K, V>, c: nat, b: nat)
    requires WellFormed(home, w) && Enabled(w, m) && m.Issue? && InOrder(home, w, c, b)
    ensures InOrder(home, Next(prefers, home, w, m), c, b)
  {
    var n := |w.shards|;
    var sections, more := Program(home, n, m.call), CallEntries(m.client, n, m.call);
    if c == m.client {
      ProgramMine(home, n, m.call, c, b);
      CallMine(home, n, m.call, c, b);
    } else {
      NothingMine(home, more, c, b);
    }
    IssuingKeepsOrder(home, w, Next(prefers, home, w, m), m.client, sections, more, c, b);
  }

  /** `here` moves from what is to come to what is done. */
  lemma {:induction false} MineMoves<K, V>(
      home: K -> nat, log: seq<Entry<K, V>>, here: seq<Entry<K, V>>, rest: seq<Entry<K, V>>, c: nat, b: nat)
    ensures Mine(home, log, c, b) + Mine(home, here + rest, c, b)
         == Mine(home, log + here, c, b) + Mine(home, rest, c, b)
  {
    MineConcat(home, log, here, c, b);
    MineConcat(home, here, rest, c, b);
    Associate(Mine(home, log, c, b), Mine(home, here, c, b), Mine(home, rest, c, b));
  }

  lemma {:induction false} OwnSectionKeepsOrder<K, V>(
      home: K -> nat, w: World<K, V>, w': World<K, V>, c: nat, b: nat, here: seq<Entry<K, V>>, rest: seq<Entry<K, V>>)
    requires InOrder(home, w, c, b)
    requires Pending(w, c) == here + rest && Pending(w', c) == rest
    requires w'.issued == w.issued && w'.log == w.log + here
    ensures InOrder(home, w', c, b)
  {
    MineMoves(home, w.log, here, rest, c, b);
  }

  lemma {:induction false} OtherSectionKeepsOrder<K, V>(
      home: K -> nat, w: World<K, V>, w': World<K, V>, c: nat, b: nat, here: seq<Entry<K, V>>)
    requires InOrder(home, w, c, b)
    requires Pending(w', c) == Pending(w, c) && forall i :: 0 <= i < |here| ==> here[i].client != c
    requires w'.issued == w.issued && w'.log == w.log + here
    ensures InOrder(home, w', c, b)
  {
    MineConcat(home, w.log, here, c, b);
    NothingMine(home, here, c, b);
    assert Mine(home, w'.log, c, b) == Mine(home, w.log, c, b);
  }

  lemma {:induction false} RunningKeepsOrder<K, V>(
      home: K -> nat, w: World<K, V>, w': World<K, V>, client: nat, c: nat, b: nat)
    requires InOrder(home, w, c, b) && client < |w.clients| && w.clients[client] != []
    requires w'.issued == w.issued && w'.log == w.log + SectionEntries(client, w.clients[client][0])
    requires w'.clients == w.clients[client := w.clients[client][1..]]
    ensures InOrder(home, w', c, b)
  {
    var here := SectionEntries(client, w.clients[client][0]);
    if c == client {
      OwnSectionKeepsOrder(home, w, w', c, b, here, ToCome(c, w.clients[c][1..]));
    } else {
      OtherSectionKeepsOrder(home, w, w', c, b, here);
    }
  }

  /** In any interleaving and at every bucket, what is done for a client, followed by what is to
      come, is what the client asked for, in the order it asked: batches and wipes included. */
  lemma {:induction false} ClientOrderKept<K(!new), V>(
      prefers: (V, V) -> bool, home: K -> nat, w: World<K, V>, moves: seq<Move<K, V>>, c: nat, b: nat)
    requires WellFormed(home, w) && Possible(prefers, home, w, moves) && InOrder(home, w, c, b)
    ensures InOrder(home, After(prefers, home, w, moves), c, b)
  {
    if moves != [] {
      var init := moves[..|moves| - 1];
      ClientOrderKept(prefers, home, w, init, c, b);
      RunKeepsWellFormed(prefers, home, w, init);
      var before, m := After(prefers, home, w, init), moves[|moves| - 1];
      if m.Issue? {
        IssueKeepsOrder(prefers, home, before, m, c, b);
      } else {
        RunningKeepsOrder(home, before, After(prefers, home, w, moves), m.client, c, b);
      }
    }
  }

  /** The entries on key `k`; every entry of a wipe concerns it. */
  function OnKey<K(==), V>(log: seq<Entry<K, V>>, k: K): seq<Entry<K, V>> {
    if log == [] then []
    else
      var last := log[|log| - 1];
      OnKey(log[..|log| - 1], k) + if last.Wiped? || last.op.key == k then [last] else []
  }

  lemma {:induction false} OnKeyConcat<K, V>(x: seq<Entry<K, V>>, y: seq<Entry<K, V>>, k: K)
    ensures OnKey(x + y, k) == OnKey(x, k) + OnKey(y, k)
  {
    if y == [] {
      assert x + y == x;
    } else {
      assert (x + y)[..|x + y| - 1] == x + y[..|y| - 1];
      OnKeyConcat(x, y[..|y| - 1], k);
    }
  }

  /** A client's work on one key: its operations on the key and its wipes of the key's bucket. */
  function OnKeyBy<K(==), V>(home: K -> nat, log: seq<Entry<K, V>>, c: nat, k: K): seq<Entry<K, V>> {
    OnKey(Mine(home, log, c, home(k)), k)
  }

  /** What client `c` asks for on key `k` over a run, from its calls alone: single operations on the
      key, a batch's operations on it in list order, a wipe of its bucket for a `Clear`. */
  function AskedFor<K(==), V>(home: K -> nat, moves: seq<Move<K, V>>, c: nat, k: K): seq<Entry<K, V>> {
    if moves == [] then []
    else
      AskedFor(home, moves[..|moves| - 1], c, k) +
      match moves[|moves| - 1]
      case Issue(client, Single(op)) => if client == c && op.key == k then [Did(c, op)] else []
      case Issue(client, Batch(ops)) => if client == c then Dids(c, ForKey(ops, k)) else []
      case Issue(client, ClearAll) => if client == c then [Wiped(c, home(k))] else []
      case _ => []
  }

  lemma {:induction false} OnKeyDids<K, V>(c: nat, ops: seq<Op<K, V>>, k: K)
    ensures OnKey(Dids(c, ops), k) == Dids(c, ForKey(ops, k))
  {
    if ops != [] {
      OnKeyDids(c, ops[..|ops| - 1], k);
      assert Dids(c, ops)[..|ops| - 1] == Dids(c, ops[..|ops| - 1]);
    }
  }

  lemma {:induction false} OnKeyOne<K, V>(e: Entry<K, V>, k: K)
    ensures OnKey([e], k) == if e.Wiped? || e.op.key == k then [e] else []
  {
    assert [e][..0] == [];
    assert OnKey([e][..0], k) == [];
  }

  /** A call's share at a key's bucket, narrowed to the key, is what the call asks for on the key. */
  lemma {:induction false} ShareOnKey<K(!new), V>(home: K -> nat, n: nat, call: Call<K, V>, c: nat, k: K)
    requires forall k :: home(k) < n
    ensures OnKey(Share(home, n, call, c, home(k)), k) ==
      match call
      case Single(op) => if op.key == k then [Did(c, op)] else []
      case LookUp(_) => []
      case Batch(ops) => Dids(c, ForKey(ops, k))
      case ClearAll => [Wiped(c, home(k))]
  {
    match call {
      case Single(op) =>
        OnKeyOne(Did(c, op), k);
        assert Dids(c, [op]) == [Did(c, op)];
      case LookUp(_) =>
      case Batch(ops) =>
        OnKeyDids(c, ForBucket(home, ops, home(k)), k);
        SplitIsStable(home, ops, home(k), k);
      case ClearAll => OnKeyOne<K, V>(Wiped(c, home(k)), k);
    }
  }

  lemma {:induction false} NothingAsked<K(!new), V>(home: K -> nat, n: nat, m: Move<K, V>, c: nat, k: K)
    requires m.Issue? && m.client != c && forall k :: home(k) < n
    ensures OnKeyBy(home, CallEntries(m.client, n, m.call), c, k) == []
  {
    NothingMine(home, CallEntries(m.client, n, m.call), c, home(k));
  }

  lemma {:induction false} IssuedIsAskedFor<K(!new), V>(
      prefers: (V, V) -> bool, home: K -> nat, w: World<K, V>, moves: seq<Move<K, V>>, c: nat, k: K)
    requires WellFormed(home, w) && w.issued == [] && Possible(prefers, home, w, moves)
    ensures OnKeyBy(home, After(prefers, home, w, moves).issued, c, k) == AskedFor(home, moves, c, k)
  {
    if moves != [] {
      var init, m := moves[..|moves| - 1], moves[|moves| - 1];
      var before := After(prefers, home, w, init);
      IssuedIsAskedFor(prefers, home, w, init, c, k);
      RunKeepsWellFormed(prefers, home, w, init);
      if m.Issue? {
        AskingAddsShare(home, before.issued, |before.shards|, m, c, k);
        ShareOnKey(home, |before.shards|, m.call, c, k);
      }
    }
  }

  lemma {:induction false} AskingAddsShare<K(!new), V>(
      home: K -> nat, issued: seq<Entry<K, V>>, n: nat, m: Move<K, V>, c: nat, k: K)
    requires m.Issue? && forall k :: home(k) < n
    ensures OnKeyBy(home, issued + CallEntries(m.client, n, m.call), c, k) ==
      OnKeyBy(home, issued, c, k) +
      if m.client != c then [] else OnKey(Share(home, n, m.call, c, home(k)), k)
  {
    var more := CallEntries(m.client, n, m.call);
    MineConcat(home, issued, more, c, home(k));
    OnKeyConcat(Mine(home, issued, c, home(k)), Mine(home, more, c, home(k)), k);
    if m.client == c {
      CallMine(home, n, m.call, c, home(k));
    } else {
      NothingAsked(home, n, m, c, k);
    }
  }

  /** So too for every key: in any interleaving, what is done for a client on the key, followed by
      what is to come, is what its calls ask for on the key, in the order of the calls. */
  lemma {:induction false} ClientKeyOrderKept<K(!new), V>(
      prefers: (V, V) -> bool, home: K -> nat, w: World<K, V>, moves: seq<Move<K, V>>, c: nat, k: K)
    requires Fresh(home, w) && Possible(prefers, home, w, moves)
    ensures var w' := After(prefers, home, w, moves);
            AskedFor(home, moves, c, k) == OnKeyBy(home, w'.log, c, k) + OnKeyBy(home, Pending(w', c), c, k)
  {
    var w', b := After(prefers, home, w, moves), home(k);
    IssuedIsAskedFor(prefers, home, w, moves, c, k);
    ClientOrderKept(prefers, home, w, moves, c, b);
    OnKeyConcat(Mine(home, w'.log, c, b), Mine(home, Pending(w', c), c, b), k);
  }

  // ---------------------------------------------------------------- each piece once

  lemma {:induction false} LastCount<T>(s: seq<T>, e: T)
    requires s != []
    ensures multiset(s)[e] == multiset(s[..|s| - 1])[e] + if s[|s| - 1] == e then 1 else 0
  {
    assert s == s[..|s| - 1] + [s[|s| - 1]];
  }

  lemma {:induction false} MineCount<K, V>(home: K -> nat, log: seq<Entry<K, V>>, e: Entry<K, V>)
    ensures multiset(Mine(home, log, e.client, Place(home, e)))[e] == multiset(log)[e]
  {
    if log != [] {
      var mine := Mine(home, log, e.client, Place(home, e));
      MineCount(home, log[..|log| - 1], e);
      LastCount(log, e);
      if log[|log| - 1].client == e.client && Place(home, log[|log| - 1]) == Place(home, e) {
        LastCount(mine, e);
        assert mine[..|mine| - 1] == Mine(home, log[..|log| - 1], e.client, Place(home, e));
      } else {
        assert mine == Mine(home, log[..|log| - 1], e.client, Place(home, e));
      }
    }
  }

  /** Everything asked for is carried out once or still to come: nothing is lost or doubled. */
  lemma {:induction false} IssuedIsLoggedOrPending<K(!new), V>(
      prefers: (V, V) -> bool, home: K -> nat, w: World<K, V>, moves: seq<Move<K, V>>, e: Entry<K, V>)
    requires Fresh(home, w) && Possible(prefers, home, w, moves)
    ensures var w' := After(prefers, home, w, moves);
            multiset(w'.issued)[e] == multiset(w'.log)[e] + multiset(Pending(w', e.client))[e]
  {
    var w' := After(prefers, home, w, moves);
    ClientOrderKept(prefers, home, w, moves, e.client, Place(home, e));
    MineCount(home, w'.issued, e);
    MineCount(home, w'.log, e);
    MineCount(home, Pending(w', e.client), e);
  }

  // ---------------------------------------------------------------- convergence

  /** Every entry is an insertion. */
  ghost predicate Inserting<K, V>(log: seq<Entry<K, V>>) {
    forall i :: 0 <= i < |log| ==> log[i].Did? && log[i].op.Insert?
  }

  function OpsOf<K, V>(log: seq<Entry<K, V>>): seq<Op<K, V>> {
    if log == [] then []
    else
      var last := log[|log| - 1];
      OpsOf(log[..|log| - 1]) + if last.Did? then [last.op] else []
  }

  lemma {:induction false} InsertingOps<K, V>(
      prefers: (V, V) -> bool, home: K -> nat, m: map<K, V>, log: seq<Entry<K, V>>)
    requires Inserting(log)
    ensures Replay(prefers, home, m, log) == ApplyAll(prefers, m, OpsOf(log)) && OnlyInserts(OpsOf(log))
  {
    if log != [] {
      InsertingOps(prefers, home, m, log[..|log| - 1]);
      var ops := OpsOf(log);
      assert ops == OpsOf(log[..|log| - 1]) + [log[|log| - 1].op];
      assert ops[..|ops| - 1] == OpsOf(log[..|log| - 1]);
    }
  }

  lemma {:induction false} InOpsOf<K, V>(log: seq<Entry<K, V>>, op: Op<K, V>)
    ensures op in OpsOf(log) <==> exists i :: 0 <= i < |log| && log[i].Did? && log[i].op == op
  {
    if log != [] {
      var init := log[..|log| - 1];
      InOpsOf(init, op);
      assert forall i :: 0 <= i < |init| ==> init[i] == log[i];
    }
  }

  lemma {:induction false} SettledRun<K(!new), V(!new)>(
      prefers: (V, V) -> bool, home: K -> nat, w: World<K, V>, moves: seq<Move<K, V>>)
    requires Fresh(home, w) && Possible(prefers, home, w, moves) && Idle(After(prefers, home, w, moves))
    requires Inserting(After(prefers, home, w, moves).issued)
    ensures var w' := After(prefers, home, w, moves);
            && OnlyInserts(OpsOf(w'.issued)) && OnlyInserts(OpsOf(w'.log))
            && Flat(w'.shards) == ApplyAll(prefers, Flat(w.shards), OpsOf(w'.log))
            && (forall op :: op in OpsOf(w'.issued) <==> op in OpsOf(w'.log))
  {
    var w' := After(prefers, home, w, moves);
    forall e ensures e in w'.issued <==> e in w'.log {
      IssuedIsLoggedOrPending(prefers, home, w, moves, e);
      assert e in w'.issued <==> e in multiset(w'.issued);
      assert e in w'.log <==> e in multiset(w'.log);
    }
    forall i | 0 <= i < |w'.log| ensures w'.log[i].Did? && w'.log[i].op.Insert? {
      assert w'.log[i] in w'.issued;
    }
    RunIsItsLog(prefers, home, w, moves);
    InsertingOps(prefers, home, Flat(w.shards), w'.issued);
    InsertingOps(prefers, home, Flat(w.shards), w'.log);
    forall op ensures op in OpsOf(w'.issued) <==> op in OpsOf(w'.log) {
      SameOps(w'.issued, w'.log, op);
    }
  }

  lemma {:induction false} SameOps<K, V>(a: seq<Entry<K, V>>, b: seq<Entry<K, V>>, op: Op<K, V>)
    requires forall e :: e in a <==> e in b
    ensures op in OpsOf(a) <==> op in OpsOf(b)
  {
    InOpsOf(a, op);
    InOpsOf(b, op);
    forall i | 0 <= i < |a| ensures a[i] in b {
      assert a[i] in a;
    }
    forall i | 0 <= i < |b| ensures b[i] in a {
      assert b[i] in b;
    }
  }

  /** Any interleaving of any number of `Insert` and `InsertKeyBatch` calls that has come to rest
      holds, for every key, the most preferred of the key's first value and all values inserted. */
  lemma {:induction false} ConcurrentInsertsHoldBest<K(!new), V(!new)>(
      prefers: (V, V) -> bool, home: K -> nat, w: World<K, V>, moves: seq<Move<K, V>>, k: K)
    requires TotalOnDistinct(prefers) && Fresh(home, w) && Possible(prefers, home, w, moves)
    requires var w' := After(prefers, home, w, moves); Idle(w') && Inserting(w'.issued)
    ensures var w' := After(prefers, home, w, moves);
            HoldsBest(prefers, Flat(w.shards), OpsOf(w'.issued), k, Get(Flat(w'.shards), k))
  {
    var w' := After(prefers, home, w, moves);
    SettledRun(prefers, home, w, moves);
    InsertsKeepBest(prefers, Flat(w.shards), OpsOf(w'.issued), k);
    SameInsertsSameMap(prefers, Flat(w.shards), OpsOf(w'.issued), OpsOf(w'.log));
  }

  /** Two such runs, with whatever numbers of clients, buckets and interleavings, end in the same
      flat map as soon as they started from the same one and inserted the same pairs. */
  lemma {:induction false} ConcurrentInsertsConverge<K(!new), V(!new)>(
      prefers: (V, V) -> bool, home1: K -> nat, home2: K -> nat,
      w1: World<K, V>, moves1: seq<Move<K, V>>, w2: World<K, V>, moves2: seq<Move<K, V>>)
    requires TotalOnDistinct(prefers) && Flat(w1.shards) == Flat(w2.shards)
    requires Fresh(home1, w1) && Possible(prefers, home1, w1, moves1)
    requires Fresh(home2, w2) && Possible(prefers, home2, w2, moves2)
    requires var e1, e2 := After(prefers, home1, w1, moves1), After(prefers, home2, w2, moves2);
             && Idle(e1) && Idle(e2) && Inserting(e1.issued) && Inserting(e2.issued)
             && forall op :: op in OpsOf(e1.issued) <==> op in OpsOf(e2.issued)
    ensures Flat(After(prefers, home1, w1, moves1).shards) == Flat(After(prefers, home2, w2, moves2).shards)
  {
    var e1, e2 := After(prefers, home1, w1, moves1), After(prefers, home2, w2, moves2);
    SettledRun(prefers, home1, w1, moves1);
    SettledRun(prefers, home2, w2, moves2);
    SameInsertsSameMap(prefers, Flat(w1.shards), OpsOf(e1.log), OpsOf(e2.log));
  }
}
