/** The bounded blocking thread pool as a transition system: one mutex, the condition variables
    `notEmpty_` and `notFull_`, any number of workers and of producers. Each critical section,
    up to its end or to the point where it sleeps, is one step. A sleeper may wake spuriously,
    and `notify_one` may pick any sleeper. */
module ThreadPoolSteps {
  import opened Sequences
  import Runs

  type Task = nat

  datatype Worker =
    | Looping           // about to read `running_` at the top of `runInThread`
    | Taking            // inside `take`, waiting for the mutex, never slept yet
    | Sleeping          // waiting on `notEmpty_`
    | Woken             // taken off `notEmpty_`, waiting for the mutex
    | Working(task: Task)
    | Exited

  datatype Producer =
    | Outside           // not inside `run`
    | Inline(task: Task)   // running the task itself: the pool has no threads
    | Calling(task: Task)  // inside `run`, waiting for the mutex, never slept yet
    | Blocked(task: Task)  // waiting on `notFull_`
    | Retrying(task: Task) // taken off `notFull_`, waiting for the mutex

  /** `limit` is `maxQueueSize_` (0 for unbounded). `joined` counts the workers `stop` has joined.
      The last four fields are histories. */
  datatype Pool = Pool(
    running: bool, limit: nat, queue: seq<Task>, workers: seq<Worker>, producers: seq<Producer>, joined: nat,
    submitted: seq<Task>, pushed: seq<Task>, taken: seq<Task>, finished: seq<Task>)

  /** `woken` is the sleeper that a `notify_one` of the step picks, if there is one. */
  datatype Move =
    | Submit(p: nat, task: Task)
    | EnterRun(p: nat, woken: Option<nat>)
    | FinishInline(p: nat)
    | CheckRunning(w: nat)
    | EnterTake(w: nat, woken: Option<nat>)
    | FinishTask(w: nat)
    | SpuriousWorker(w: nat)
    | SpuriousProducer(p: nat)
    | Stop
    | Join

  predicate IsFull(s: Pool) {
    s.limit > 0 && |s.queue| >= s.limit
  }

  /** `notify_one` wakes one of the sleepers when there are any, and nobody otherwise. */
  predicate WorkerChoice(ws: seq<Worker>, woken: Option<nat>) {
    match woken
    case Some(i) => i < |ws| && ws[i].Sleeping?
    case None => forall i :: 0 <= i < |ws| ==> !ws[i].Sleeping?
  }

  predicate ProducerChoice(ps: seq<Producer>, woken: Option<nat>) {
    match woken
    case Some(i) => i < |ps| && ps[i].Blocked?
    case None => forall i :: 0 <= i < |ps| ==> !ps[i].Blocked?
  }

  function WakeWorker(ws: seq<Worker>, woken: Option<nat>): seq<Worker>
    requires WorkerChoice(ws, woken)
  {
    if woken.Some? then ws[woken.value := Woken] else ws
  }

  function WakeProducer(ps: seq<Producer>, woken: Option<nat>): seq<Producer>
    requires ProducerChoice(ps, woken)
  {
    if woken.Some? then ps[woken.value := Retrying(ps[woken.value].task)] else ps
  }

  function Roused(w: Worker): Worker {
    if w.Sleeping? then Woken else w
  }

  function WakeAll(ws: seq<Worker>): (r: seq<Worker>)
    ensures |r| == |ws| && forall i :: 0 <= i < |ws| ==> r[i] == Roused(ws[i])
  {
    seq(|ws|, i requires 0 <= i < |ws| => Roused(ws[i]))
  }

  predicate Enabled(s: Pool, m: Move) {
    match m
    case Submit(p, _) => p < |s.producers| && s.producers[p].Outside?
    case EnterRun(p, woken) =>
      && p < |s.producers| && (s.producers[p].Calling? || s.producers[p].Retrying?)
      && if s.workers == [] || IsFull(s) then woken == None else WorkerChoice(s.workers, woken)
    case FinishInline(p) => p < |s.producers| && s.producers[p].Inline?
    case CheckRunning(w) => w < |s.workers| && s.workers[w].Looping?
    case EnterTake(w, woken) =>
      && w < |s.workers| && (s.workers[w].Taking? || s.workers[w].Woken?)
      && if s.queue == [] || s.limit == 0 then woken == None else ProducerChoice(s.producers, woken)
    case FinishTask(w) => w < |s.workers| && s.workers[w].Working?
    case SpuriousWorker(w) => w < |s.workers| && s.workers[w].Sleeping?
    case SpuriousProducer(p) => p < |s.producers| && s.producers[p].Blocked?
    case Stop => s.running
    case Join => !s.running && s.joined < |s.workers| && s.workers[s.joined].Exited?
  }

  function Next(s: Pool, m: Move): Pool
    requires Enabled(s, m)
  {
    match m
    case Submit(p, t) => s.(producers := s.producers[p := Calling(t)], submitted := s.submitted + [t])
    case EnterRun(p, woken) =>
      var t := s.producers[p].task;
      if s.workers == [] then s.(producers := s.producers[p := Inline(t)])
      else if IsFull(s) then s.(producers := s.producers[p := Blocked(t)])
      else s.(queue := s.queue + [t], pushed := s.pushed + [t],
              workers := WakeWorker(s.workers, woken), producers := s.producers[p := Outside])
    case FinishInline(p) =>
      s.(producers := s.producers[p := Outside], finished := s.finished + [s.producers[p].task])
    case CheckRunning(w) => s.(workers := s.workers[w := if s.running then Taking else Exited])
    case EnterTake(w, woken) =>
      if s.queue == [] && s.running then s.(workers := s.workers[w := Sleeping])
      else if s.queue == [] then s.(workers := s.workers[w := Looping])
      else
        var t := s.queue[0];
        s.(queue := s.queue[1..], taken := s.taken + [t], workers := s.workers[w := Working(t)],
           producers := if s.limit > 0 then WakeProducer(s.producers, woken) else s.producers)
    case FinishTask(w) => s.(workers := s.workers[w := Looping], finished := s.finished + [s.workers[w].task])
    case SpuriousWorker(w) => s.(workers := s.workers[w := Woken])
    case SpuriousProducer(p) => s.(producers := s.producers[p := Retrying(s.producers[p].task)])
    case Stop => s.(running := false, workers := WakeAll(s.workers))
    case Join => s.(joined := s.joined + 1)
  }

  /** The pool when `start(workers)` has returned and before any `run`. */
  function Started(limit: nat, workers: nat, producers: nat): Pool {
    Pool(true, limit, [], seq(workers, _ => Looping), seq(producers, _ => Outside), 0, [], [], [], [])
  }

  /** A pool that was never started or used. */
  function Unstarted(limit: nat, producers: nat): Pool {
    Started(limit, 0, producers).(running := false)
  }

  ghost predicate Possible(s: Pool, moves: seq<Move>) {
    Runs.Possible(Enabled, Next, s, moves)
  }

  ghost function After(s: Pool, moves: seq<Move>): Pool
    requires Possible(s, moves)
  {
    Runs.After(Enabled, Next, s, moves)
  }

  ghost predicate Reachable(s: Pool) {
    exists limit, n, k, moves ::
      Possible(Started(limit, n, k), moves) && s == After(Started(limit, n, k), moves)
  }

  // ---------------------------------------------------------------- the invariant

  function WokenWorker(w: Worker): int { if w.Woken? then 1 else 0 }
  function RetryingProducer(p: Producer): int { if p.Retrying? then 1 else 0 }

  /** 1 for a worker, respectively a producer, that has task `t` in hand. */
  function WorkerHolds(t: Task): Worker -> int { w => if w == Working(t) then 1 else 0 }
  function ProducerHolds(t: Task): Producer -> int { (p: Producer) => if !p.Outside? && p.task == t then 1 else 0 }

  /** Either no worker sleeps on `notEmpty_` or each of the `queued` tasks has its own woken worker. */
  predicate WorkCovered(ws: seq<Worker>, queued: int) {
    (exists i :: 0 <= i < |ws| && ws[i].Sleeping?) ==> queued <= Sum(ws, WokenWorker)
  }

  /** Either no producer sleeps on `notFull_` or each of the `free` slots has its own woken producer. */
  predicate RoomCovered(ps: seq<Producer>, free: int) {
    (exists i :: 0 <= i < |ps| && ps[i].Blocked?) ==> free <= Sum(ps, RetryingProducer)
  }

  predicate NoLostWakeup(s: Pool) {
    && WorkCovered(s.workers, |s.queue|)
    && (s.limit > 0 ==> RoomCovered(s.producers, s.limit - |s.queue|))
  }

  predicate Bounded(s: Pool) {
    s.limit > 0 ==> |s.queue| <= s.limit
  }

  predicate StoppedMeansAwake(s: Pool) {
    !s.running ==> forall w :: 0 <= w < |s.workers| ==> !s.workers[w].Sleeping?
  }

  /** Producers block only on a bounded pool with workers and run tasks themselves only on a pool without
      workers; workers exit only after `stop`, and `stop` joins them in order once they have. */
  predicate OnlyNeededPhases(s: Pool) {
    && (s.limit == 0 || s.workers == [] ==>
          forall p :: 0 <= p < |s.producers| ==> !s.producers[p].Blocked? && !s.producers[p].Retrying?)
    && (s.workers == [] ==> s.queue == [])
    && (s.workers != [] ==> forall p :: 0 <= p < |s.producers| ==> !s.producers[p].Inline?)
    && (s.running ==> forall w :: 0 <= w < |s.workers| ==> !s.workers[w].Exited?)
    && s.joined <= |s.workers|
    && (forall w :: 0 <= w < s.joined ==> s.workers[w].Exited?)
  }

  predicate Fifo(s: Pool) {
    s.pushed == s.taken + s.queue
  }

  /** However often `t` was submitted, that many copies of it are with a producer (waiting or run
      inline), queued, held by a worker, or finished: a task submitted once is in one place. */
  ghost predicate ExactlyOnePlace(s: Pool, t: Task) {
    multiset(s.submitted)[t] ==
    Sum(s.producers, ProducerHolds(t)) + multiset(s.queue)[t] + Sum(s.workers, WorkerHolds(t)) + multiset(s.finished)[t]
  }

  /** A pool with workers has taken exactly the tasks now held by a worker or finished. */
  ghost predicate TakenOnce(s: Pool, t: Task) {
    s.workers != [] ==> multiset(s.taken)[t] == Sum(s.workers, WorkerHolds(t)) + multiset(s.finished)[t]
  }

  ghost predicate Inv(s: Pool) {
    && NoLostWakeup(s) && Bounded(s) && StoppedMeansAwake(s) && OnlyNeededPhases(s) && Fifo(s)
    && forall t :: ExactlyOnePlace(s, t) && TakenOnce(s, t)
  }
}
