/** What the histories of the thread pool record: everything the other modules say of tasks
    submitted, queued, taken and finished is here tied to the calls of `run` and to what the threads
    are seen to hold before and after each step. */
module ThreadPoolHistory {
  import opened Sequences
  import opened ThreadPoolSteps
  import opened ThreadPoolSafety
  import opened ThreadPoolProgress

  /** The tasks passed to `run`, in the order of the calls. */
  function CalledWith(moves: seq<Move>): seq<Task> {
    if moves == [] then []
    else
      var last := moves[|moves| - 1];
      CalledWith(moves[..|moves| - 1]) + if last.Submit? then [last.task] else []
  }

  /** The task a producer, respectively a worker, has in hand. */
  function Carried(p: Producer): Option<Task> { if p.Outside? then None else Some(p.task) }
  function InHand(w: Worker): Option<Task> { if w.Working? then Some(w.task) else None }

  function ToSeq(o: Option<Task>): seq<Task> { if o.Some? then [o.value] else [] }

  /** The task with which a producer leaves `run` in a step on a pool with workers. */
  function Hands(before: Pool, m: Move, after: Pool): seq<Task> {
    if m.EnterRun? && m.p < |before.producers| && m.p < |after.producers| && after.producers[m.p].Outside?
    then ToSeq(Carried(before.producers[m.p]))
    else []
  }

  /** The task with which a worker comes out of `take` in a step. */
  function ComesOut(m: Move, after: Pool): seq<Task> {
    if m.EnterTake? && m.w < |after.workers| then ToSeq(InHand(after.workers[m.w])) else []
  }

  /** The task that returns in a step, run by a worker or inline. */
  function Executes(before: Pool, m: Move): seq<Task> {
    match m
    case FinishTask(w) => if w < |before.workers| then ToSeq(InHand(before.workers[w])) else []
    case FinishInline(p) => if p < |before.producers| then ToSeq(Carried(before.producers[p])) else []
    case _ => []
  }

  /** All of these over a run, in order. */
  ghost function HandedOver(s: Pool, moves: seq<Move>): seq<Task>
    requires Possible(s, moves)
  {
    if moves == [] then []
    else
      var init := moves[..|moves| - 1];
      HandedOver(s, init) + Hands(After(s, init), moves[|moves| - 1], After(s, moves))
  }

  ghost function CameOutWith(s: Pool, moves: seq<Move>): seq<Task>
    requires Possible(s, moves)
  {
    if moves == [] then []
    else CameOutWith(s, moves[..|moves| - 1]) + ComesOut(moves[|moves| - 1], After(s, moves))
  }

  ghost function Executed(s: Pool, moves: seq<Move>): seq<Task>
    requires Possible(s, moves)
  {
    if moves == [] then []
    else
      var init := moves[..|moves| - 1];
      Executed(s, init) + Executes(After(s, init), moves[|moves| - 1])
  }

  /** A step changes neither the bound nor the numbers of threads, and a call puts its task in the
      caller's hands. */
  lemma {:induction false} StepKeepsShape(s: Pool, m: Move)
    requires Enabled(s, m)
    ensures Next(s, m).limit == s.limit
    ensures |Next(s, m).workers| == |s.workers| && |Next(s, m).producers| == |s.producers|
    ensures m.Submit? ==> Next(s, m).producers == s.producers[m.p := Calling(m.task)]
    ensures !m.EnterRun? && !m.EnterTake? ==> Next(s, m).queue == s.queue
    ensures m.Stop? || m.Join? || m.CheckRunning? || m.FinishTask? || m.SpuriousWorker? ==>
      Next(s, m).producers == s.producers
    ensures Next(s, m).running <==> s.running && !m.Stop?
  {
  }

  lemma {:induction false} RunKeepsShape(s: Pool, moves: seq<Move>)
    requires Possible(s, moves)
    ensures After(s, moves).limit == s.limit
    ensures |After(s, moves).workers| == |s.workers| && |After(s, moves).producers| == |s.producers|
  {
    if moves != [] {
      var init := moves[..|moves| - 1];
      RunKeepsShape(s, init);
      StepKeepsShape(After(s, init), moves[|moves| - 1]);
    }
  }

  lemma {:induction false} StepRecords(s: Pool, m: Move)
    requires Enabled(s, m)
    ensures Next(s, m).submitted == s.submitted + if m.Submit? then [m.task] else []
    ensures Next(s, m).pushed == s.pushed + Hands(s, m, Next(s, m))
    ensures Next(s, m).taken == s.taken + ComesOut(m, Next(s, m))
    ensures Next(s, m).finished == s.finished + Executes(s, m)
  {
  }

  /** The recorded histories are what was called, handed over, taken and executed. */
  lemma {:induction false} HistoriesAreTrue(s: Pool, moves: seq<Move>)
    requires s.submitted == s.pushed == s.taken == s.finished == [] && Possible(s, moves)
    ensures After(s, moves).submitted == CalledWith(moves)
    ensures After(s, moves).pushed == HandedOver(s, moves)
    ensures After(s, moves).taken == CameOutWith(s, moves)
    ensures After(s, moves).finished == Executed(s, moves)
  {
    if moves != [] {
      var init, m := moves[..|moves| - 1], moves[|moves| - 1];
      HistoriesAreTrue(s, init);
      StepRecords(After(s, init), m);
      assert After(s, moves) == Next(After(s, init), m);
    }
  }

  /** First in, first out: tasks come out of `take` in the order in which `run` handed them over,
      and those not yet out are the queue. */
  lemma {:induction false} FirstInFirstOut(limit: nat, n: nat, producers: nat, moves: seq<Move>)
    requires Possible(Started(limit, n, producers), moves)
    ensures var start := Started(limit, n, producers);
            HandedOver(start, moves) == CameOutWith(start, moves) + After(start, moves).queue
    ensures limit > 0 ==> |After(Started(limit, n, producers), moves).queue| <= limit
  {
    var start := Started(limit, n, producers);
    assert Reachable(After(start, moves));
    ReachableKeepsInv(After(start, moves));
    HistoriesAreTrue(start, moves);
    RunKeepsShape(start, moves);
  }

  function CallsOf(t: Task): Move -> int { (m: Move) => if m.Submit? && m.task == t then 1 else 0 }

  lemma {:induction false} CalledCount(moves: seq<Move>, t: Task)
    ensures multiset(CalledWith(moves))[t] == Sum(moves, CallsOf(t))
  {
    if moves != [] {
      CalledCount(moves[..|moves| - 1], t);
    }
  }

  /** What the pool is for, from the calls alone: a running pool at rest has executed each task as
      often as `run` was called with it, and nothing else; and it never executes a task more often. */
  lemma {:induction false} EveryCallIsExecuted(limit: nat, n: nat, producers: nat, moves: seq<Move>, t: Task)
    requires Possible(Started(limit, n, producers), moves)
    ensures var start := Started(limit, n, producers);
            && multiset(Executed(start, moves))[t] <= Sum(moves, CallsOf(t))
            && (Stop !in moves && AtRest(After(start, moves)) ==>
                  multiset(Executed(start, moves))[t] == Sum(moves, CallsOf(t)))
  {
    var start := Started(limit, n, producers);
    var s := After(start, moves);
    assert Reachable(s);
    HistoriesAreTrue(start, moves);
    CalledCount(moves, t);
    NothingTakenTwice(s, t);
    if Stop !in moves && AtRest(s) {
      RunDescends(start, moves);
      AtRestEverythingIsFinished(s, t);
    }
  }
}
