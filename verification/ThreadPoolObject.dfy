/** The thread pool as the object the source has, its fields updated in place. Each method is one
    critical section (or one unlocked read) and is proved to be a step of `ThreadPoolSteps`. */
module ThreadPools {
  import opened Sequences
  import opened ThreadPoolSteps
  import Runs
  import ThreadPoolSafety
  import P = ThreadPoolProgress

  class ThreadPool {
    var running_: bool
    var maxQueueSize_: nat
    var queue_: seq<Task>
    var threads_: seq<Worker>       // where each worker thread is
    var callers: seq<Producer>      // where each thread that uses the pool is
    var joined: nat                 // how many threads `stop` has joined
    ghost var submitted: seq<Task>
    ghost var pushed: seq<Task>
    ghost var taken: seq<Task>
    ghost var finished: seq<Task>

    ghost function State(): Pool
      reads this
    {
      Pool(running_, maxQueueSize_, queue_, threads_, callers, joined, submitted, pushed, taken, finished)
    }

    ghost predicate Valid()
      reads this
    {
      Inv(State())
    }

    constructor (maxQueueSize: nat, callers: nat)
      ensures State() == Unstarted(maxQueueSize, callers)
    {
      running_, maxQueueSize_, queue_, threads_, joined := false, maxQueueSize, [], [], 0;
      this.callers := seq(callers, _ => Outside);
      submitted, pushed, taken, finished := [], [], [], [];
    }

    /** A pool that was stopped before keeps its old threads in `threads_`; one that was never used
        reaches the first state of the transition system. */
    method Start(numThreads: nat)
      modifies this
      ensures State() == old(State()).(running := true, workers := old(threads_) + seq(numThreads, _ => Looping))
      ensures old(State()) == Unstarted(old(maxQueueSize_), |old(callers)|) ==>
        State() == Started(old(maxQueueSize_), numThreads, |old(callers)|) && Valid()
    {
      ghost var before := threads_;
      running_ := true;
      for i := 0 to numThreads
        invariant threads_ == before + seq(i, _ => Looping)
        invariant running_ && State() == old(State()).(running := true, workers := threads_)
      {
        threads_ := threads_ + [Looping];
        assert seq(i + 1, _ => Looping) == seq(i, _ => Looping) + [Looping];
      }
      if old(State()) == Unstarted(old(maxQueueSize_), |old(callers)|) {
        var s := Started(maxQueueSize_, numThreads, |callers|);
        assert threads_ == seq(numThreads, _ => Looping) && State() == s;
        assert Possible(s, []) && s == After(s, []);
        ThreadPoolSafety.ReachableKeepsInv(s);
      }
    }

    method NotifyOneWorker() returns (woken: Option<nat>)
      modifies this`threads_
      ensures WorkerChoice(old(threads_), woken) && threads_ == WakeWorker(old(threads_), woken)
    {
      if i: nat :| i < |threads_| && threads_[i].Sleeping? {
        woken := Some(i);
        threads_ := threads_[i := Woken];
      } else {
        woken := None;
      }
    }

    method NotifyOneCaller() returns (woken: Option<nat>)
      modifies this`callers
      ensures ProducerChoice(old(callers), woken) && callers == WakeProducer(old(callers), woken)
    {
      if i: nat :| i < |callers| && callers[i].Blocked? {
        woken := Some(i);
        callers := callers[i := Retrying(callers[i].task)];
      } else {
        woken := None;
      }
    }

    /** A thread calls `run(task)`. */
    method Submit(p: nat, task: Task)
      requires Valid() && p < |callers| && callers[p].Outside?
      modifies this
      ensures Valid() && State() == Next(old(State()), Move.Submit(p, task))
      ensures callers == old(callers)[p := Calling(task)]
    {
      ThreadPoolSafety.StepKeepsInv(State(), Move.Submit(p, task));
      callers := callers[p := Calling(task)];
      submitted := submitted + [task];
    }

    /** `run`, from taking the mutex (or waking with it) to sleeping again or returning. */
    method Run(p: nat) returns (woken: Option<nat>)
      requires Valid() && p < |callers| && (callers[p].Calling? || callers[p].Retrying?)
      modifies this
      ensures Enabled(old(State()), EnterRun(p, woken))
      ensures Valid() && State() == Next(old(State()), EnterRun(p, woken))
    {
      ghost var before := State();
      var task := callers[p].task;
      woken := None;
      if |threads_| == 0 {
        callers := callers[p := Inline(task)];
      } else if maxQueueSize_ > 0 && |queue_| >= maxQueueSize_ {
        callers := callers[p := Blocked(task)];
      } else {
        queue_ := queue_ + [task];
        pushed := pushed + [task];
        woken := NotifyOneWorker();
        callers := callers[p := Outside];
      }
      ThreadPoolSafety.StepKeepsInv(before, EnterRun(p, woken));
    }

    /** The unlocked test of `while (running_)` in `runInThread`. */
    method CheckRunning(w: nat)
      requires Valid() && w < |threads_| && threads_[w].Looping?
      modifies this
      ensures Valid() && State() == Next(old(State()), Move.CheckRunning(w))
    {
      ThreadPoolSafety.StepKeepsInv(State(), Move.CheckRunning(w));
      threads_ := threads_[w := if running_ then Taking else Exited];
    }

    /** `take`, from taking the mutex (or waking with it) to sleeping again or returning. */
    method Take(w: nat) returns (woken: Option<nat>)
      requires Valid() && w < |threads_| && (threads_[w].Taking? || threads_[w].Woken?)
      modifies this
      ensures Enabled(old(State()), EnterTake(w, woken))
      ensures Valid() && State() == Next(old(State()), EnterTake(w, woken))
    {
      ghost var before := State();
      woken := None;
      if |queue_| == 0 && running_ {
        threads_ := threads_[w := Sleeping];
      } else {
        if |queue_| != 0 {
          var task := queue_[0];
          queue_ := queue_[1..];
          taken := taken + [task];
          threads_ := threads_[w := Working(task)];
          if maxQueueSize_ > 0 {
            woken := NotifyOneCaller();
          }
        } else {
          threads_ := threads_[w := Looping];
        }
      }
      ThreadPoolSafety.StepKeepsInv(before, EnterTake(w, woken));
    }

    /** `task()` returns in a worker. */
    method FinishTask(w: nat)
      requires Valid() && w < |threads_| && threads_[w].Working?
      modifies this
      ensures Valid() && State() == Next(old(State()), Move.FinishTask(w))
    {
      ThreadPoolSafety.StepKeepsInv(State(), Move.FinishTask(w));
      finished := finished + [threads_[w].task];
      threads_ := threads_[w := Looping];
    }

    /** One turn of the loop in `runInThread` that nobody interrupts: leave if the pool is stopped,
        sleep if nothing is queued, otherwise take the oldest task, let one blocked caller go on, and
        finish the task. */
    method RunInThreadTurn(w: nat) returns (woken: Option<nat>)
      requires Valid() && w < |threads_| && threads_[w].Looping?
      modifies this
      ensures Valid()
      ensures !old(running_) ==> State() == old(State()).(workers := old(threads_)[w := Exited])
      ensures old(running_) && old(queue_) == [] ==> State() == old(State()).(workers := old(threads_)[w := Sleeping])
      ensures old(running_) && old(queue_) != [] ==>
        && (maxQueueSize_ > 0 ==> ProducerChoice(old(callers), woken))
        && State() == old(State()).(
             queue := old(queue_)[1..], taken := old(taken) + [old(queue_)[0]],
             finished := old(finished) + [old(queue_)[0]],
             producers := if maxQueueSize_ > 0 then WakeProducer(old(callers), woken) else old(callers))
    {
      woken := None;
      CheckRunning(w);
      if threads_[w].Taking? {
        woken := Take(w);
        if threads_[w].Working? {
          FinishTask(w);
          assert threads_ == old(threads_);
        }
      }
    }

    /** The locked part of `stop`: clear the flag and `notify_all`. On a stopped pool there is
        nobody left to wake. */
    method Stop()
      requires Valid()
      modifies this
      ensures Valid() && State() == if old(running_) then Next(old(State()), Move.Stop) else old(State())
    {
      if running_ {
        ThreadPoolSafety.StepKeepsInv(State(), Move.Stop);
      }
      running_ := false;
      var i := 0;
      while i < |threads_|
        invariant i <= |threads_| == |old(threads_)|
        invariant forall w :: 0 <= w < |threads_| ==>
          threads_[w] == if w < i then Roused(old(threads_)[w]) else old(threads_)[w]
        invariant State() == old(State()).(running := false, workers := threads_)
      {
        if threads_[i].Sleeping? {
          threads_ := threads_[i := Woken];
        }
        i := i + 1;
      }
      assert threads_ == WakeAll(old(threads_));
      assert !old(running_) ==> threads_ == old(threads_);
    }

    /** One `join` of `stop`'s loop returns. */
    method Join()
      requires Valid() && !running_ && joined < |threads_| && threads_[joined].Exited?
      modifies this
      ensures Valid() && State() == Next(old(State()), Move.Join)
    {
      ThreadPoolSafety.StepKeepsInv(State(), Move.Join);
      joined := joined + 1;
    }

    /** Whatever thread `w` does next. */
    method WorkerStep(w: nat) returns (ghost m: Move)
      requires Valid() && w < |threads_| && !threads_[w].Exited? && !threads_[w].Sleeping?
      modifies this
      ensures Enabled(old(State()), m) && P.WindsDown(m)
      ensures Valid() && State() == Next(old(State()), m)
    {
      if threads_[w].Looping? {
        m := Move.CheckRunning(w);
        CheckRunning(w);
      } else if threads_[w].Working? {
        m := Move.FinishTask(w);
        FinishTask(w);
      } else {
        var woken := Take(w);
        m := EnterTake(w, woken);
      }
    }

    /** The loop of `stop`: while it waits in `join` the threads run, thread `schedule(i) % n` (if it
        has anything left to do) in turn `i`. Whatever the schedule, the loop ends, with every thread
        exited and joined; `moves` is the run it went through. */
    method JoinAll(schedule: nat -> nat) returns (ghost moves: seq<Move>)
      requires Valid() && !running_
      modifies this
      ensures Possible(old(State()), moves) && State() == After(old(State()), moves)
      ensures Valid() && !running_ && joined == |threads_| == |old(threads_)|
      ensures forall w :: 0 <= w < |threads_| ==> threads_[w].Exited?
    {
      ghost var start := State();
      moves := [];
      var i := 0;
      while joined < |threads_|
        invariant Valid() && !running_ && |threads_| == |start.workers|
        invariant Runs.Leads(Enabled, Next, start, moves, State())
        decreases P.StopMeasure(State())
      {
        ghost var before := State();
        ghost var m;
        var w := schedule(i) % |threads_|;
        if !threads_[w].Exited? {
          m := WorkerStep(w);
        } else if threads_[joined].Exited? {
          m := Move.Join;
          Join();
        } else {
          m := WorkerStep(joined);
        }
        i := i + 1;
        P.StoppedStepDescends(before, m);
        P.StopMeasureIsNatural(State());
        moves := Runs.OneMore(Enabled, Next, start, moves, before, m);
      }
    }

    /** `task()` returns in a producer of a pool without threads. */
    method FinishInline(p: nat)
      requires Valid() && p < |callers| && callers[p].Inline?
      modifies this
      ensures Valid() && State() == Next(old(State()), Move.FinishInline(p))
    {
      ThreadPoolSafety.StepKeepsInv(State(), Move.FinishInline(p));
      finished := finished + [callers[p].task];
      callers := callers[p := Outside];
    }
  }
}
