/** The process-event monitor as the object the source has. Each method is one critical section,
    or one unlocked access to `StopThreads_`, and is proved to be a step of `ProcMonitorSteps`,
    of `CallbackRegistry`, or of both. */
module NetlinkProcMons {
  import opened Sequences
  import M = ProcMonitorSteps
  import P = ProcMonitorProofs
  import R = CallbackRegistry

  type Event = M.Event

  class NetlinkProcMon {
    var StopThreads_: bool
    var ProcEvQueue_: seq<Event>
    var producer: M.Producer       // where the thread `ProcEvProducerThread_` is
    var dispatcher: M.Dispatcher   // where the thread `CallbackDispatchThread_` is
    var controller: M.Controller   // where the thread that calls `Start` and `Stop` is; `Started_` is `!Off?`
    var nextId_: nat
    var ProcEv_Callbacks_: seq<R.Callback>
    var adding: seq<Option<nat>>
    ghost var accepted: seq<Event>
    ghost var delivered: seq<Event>
    ghost var chunks: seq<seq<Event>>
    ghost var sinceSwap: seq<Event>
    ghost var generated: nat
    var log: seq<R.Invocation>     // the calls made to callbacks

    ghost function Mon(): M.Monitor
      reads this
    {
      M.Monitor(StopThreads_, ProcEvQueue_, producer, dispatcher, controller, accepted, delivered, chunks, sinceSwap)
    }

    ghost function Reg(): R.Registry
      reads this
    {
      R.Registry(nextId_, ProcEv_Callbacks_, adding, generated, log)
    }

    ghost predicate Valid()
      reads this
    {
      M.Inv(Mon()) && R.Inv(Reg())
    }

    constructor (threads: nat)
      ensures Valid() && Mon() == M.INITIAL && Reg() == R.Empty(threads)
    {
      StopThreads_, ProcEvQueue_ := false, [];
      producer, dispatcher, controller := M.NoProducer, M.NoDispatcher, M.Off;
      nextId_, ProcEv_Callbacks_, adding := 1, [], seq(threads, _ => None);
      accepted, delivered, chunks, sinceSwap := [], [], [], [];
      generated, log := 0, [];
      new;
      R.EmptyKeepsInv(threads);
    }

    lemma StepKeepsMon(before: M.Monitor, m: M.Move)
      requires M.Inv(before) && M.Enabled(before, m)
      ensures M.Inv(M.Next(before, m))
    {
      P.StepKeepsPhases(before, m);
      P.StepKeepsDelivery(before, m);
    }

    /** `connected` and `subscribed` are what the calls on the socket return. A started monitor is
        left alone, one that another thread is stopping included. */
    method Start(connected: int, subscribed: int) returns (ret: int)
      requires Valid()
      modifies this
      ensures Valid() && Reg() == old(Reg())
      ensures ret == if !old(controller).Off? || (connected == 0 && subscribed == 0) then 0 else -1
      ensures Mon() == if old(controller).Off? && ret == 0 then M.Next(old(Mon()), M.Start) else old(Mon())
    {
      if !controller.Off? {
        return 0;
      }
      if connected != 0 {
        return -1;
      }
      if subscribed != 0 {
        return -1;
      }
      StepKeepsMon(Mon(), M.Start);
      producer, dispatcher, controller := M.Polling, M.AtLock, M.On;
      ret := 0;
    }

    /** The unlocked test of `while (StopThreads_ == false)` in `procEvRecvImpl`. */
    method Poll()
      requires Valid() && producer.Polling?
      modifies this
      ensures Valid() && Mon() == M.Next(old(Mon()), M.Poll) && Reg() == old(Reg())
      ensures producer == if StopThreads_ then M.ProducerExited else M.Receiving
    {
      StepKeepsMon(Mon(), M.Poll);
      producer := if StopThreads_ == false then M.Receiving else M.ProducerExited;
    }

    /** `recv` returns: an event of interest, something to ignore, or a shutdown or error. */
    method Received(got: M.Received)
      requires Valid() && producer.Receiving?
      modifies this
      ensures Valid() && Mon() == M.Next(old(Mon()), M.Receive(got)) && Reg() == old(Reg())
      ensures got.Accepted? ==> producer == M.Pushing(got.ev)
      ensures got.Ignored? ==> producer == M.Polling
      ensures producer.ProducerExited? <==> got.Failed?
    {
      StepKeepsMon(Mon(), M.Receive(got));
      match got {
        case Accepted(ev) => producer := M.Pushing(ev);
        case Ignored => producer := M.Polling;
        case Failed => producer := M.ProducerExited;
      }
    }

    method Enqueue(ev: Event)
      modifies this`ProcEvQueue_
      ensures ProcEvQueue_ == M.Enqueued(old(ProcEvQueue_), ev)
    {
      if |ProcEvQueue_| > M.QUEUE_MAX {
        ProcEvQueue_ := ProcEvQueue_[1..];
      }
      ProcEvQueue_ := ProcEvQueue_ + [ev];
    }

    /** The locked part of `procEvRecvImpl`: drop the oldest if over-full, push, notify. */
    method PushEvent()
      requires Valid() && producer.Pushing?
      modifies this
      ensures Valid() && Mon() == M.Next(old(Mon()), M.Push) && Reg() == old(Reg())
    {
      ghost var mon := Mon();
      var ev := producer.ev;
      Enqueue(ev);
      accepted, sinceSwap := accepted + [ev], sinceSwap + [ev];
      NotifyAllDispatchers();
      producer := M.Polling;
      assert Mon() == M.Next(mon, M.Push);
      StepKeepsMon(mon, M.Push);
    }

    method NotifyAllDispatchers()
      modifies this`dispatcher
      ensures dispatcher == M.Roused(old(dispatcher))
    {
      if dispatcher.Waiting? {
        dispatcher := M.Notified;
      }
    }

    /** `ProcEvQueue_.swap(tempEvQueue)` with an empty `tempEvQueue`. */
    method Swap()
      modifies this
      ensures Mon() == M.SwapOut(old(Mon())) && Reg() == old(Reg())
    {
      chunks, sinceSwap := chunks + [sinceSwap], [];
      dispatcher := M.Delivering(ProcEvQueue_);
      ProcEvQueue_ := [];
    }

    /** `procEvDispatcherImpl`, from taking the mutex to leaving it or starting to wait. */
    method LockSection()
      requires Valid() && dispatcher.AtLock?
      modifies this
      ensures Valid() && Mon() == M.Next(old(Mon()), M.Lock) && Reg() == old(Reg())
    {
      StepKeepsMon(Mon(), M.Lock);
      if StopThreads_ {
        dispatcher := M.DispatcherExited;
      } else if |ProcEvQueue_| > 0 {
        Swap();
      } else {
        dispatcher := M.Waiting;
      }
    }

    /** What follows `wait`: no test, just the swap. */
    method WakeSection()
      requires Valid() && dispatcher.Notified?
      modifies this
      ensures Valid() && Mon() == M.Next(old(Mon()), M.Wake) && Reg() == old(Reg())
    {
      StepKeepsMon(Mon(), M.Wake);
      Swap();
    }

    /** `forEachCallback`. */
    method ForEachCallback(ev: Event)
      modifies this`log
      ensures log == old(log) + R.Invocations(ProcEv_Callbacks_, ev)
    {
      for i := 0 to |ProcEv_Callbacks_|
        invariant log == old(log) + R.Invocations(ProcEv_Callbacks_[..i], ev)
      {
        var element := ProcEv_Callbacks_[i];
        if element.fn.Some? {
          log := log + [R.Invocation(element.id, element.fn.value, element.context, ev)];
        }
        assert ProcEv_Callbacks_[..i + 1][..i] == ProcEv_Callbacks_[..i];
      }
      assert ProcEv_Callbacks_[..|ProcEv_Callbacks_|] == ProcEv_Callbacks_;
    }

    /** One turn of the delivery loop: the event leaves the batch and reaches the callbacks. */
    method DeliverNext()
      requires Valid() && dispatcher.Delivering? && dispatcher.batch != []
      modifies this
      ensures Valid() && Mon() == M.Next(old(Mon()), M.Deliver)
      ensures Reg() == R.Next(old(Reg()), R.Dispatch(old(dispatcher).batch[0]))
    {
      ghost var mon, reg := Mon(), Reg();
      var ev := dispatcher.batch[0];
      dispatcher := M.Delivering(dispatcher.batch[1..]);
      ForEachCallback(ev);
      delivered := delivered + [ev];
      assert Mon() == M.Next(mon, M.Deliver);
      assert Reg() == R.Next(reg, R.Dispatch(ev));
      StepKeepsMon(mon, M.Deliver);
      R.StepKeepsInv(reg, R.Dispatch(ev));
    }

    /** The whole delivery loop, no callback being registered or removed meanwhile: every event of
        the batch, in order, reaches every registered callback. */
    method DeliverBatch()
      requires Valid() && dispatcher.Delivering?
      modifies this
      ensures Valid()
      ensures Mon() == old(Mon()).(dispatcher := M.AtLock, delivered := old(delivered) + old(dispatcher).batch)
      ensures Reg() == old(Reg()).(log := old(log) + R.BatchInvocations(ProcEv_Callbacks_, old(dispatcher).batch))
    {
      ghost var mon, reg, k := Mon(), Reg(), 0;
      P.DeliveredSome(mon, 0);
      R.DispatchedSome(reg, mon.dispatcher.batch, 0);
      while dispatcher.batch != []
        invariant Valid() && 0 <= k <= |mon.dispatcher.batch|
        invariant Mon() == P.Delivered(mon, k) && Reg() == R.Dispatched(reg, mon.dispatcher.batch, k)
        decreases |mon.dispatcher.batch| - k
      {
        P.DeliveredSome(mon, k);
        R.DispatchedSome(reg, mon.dispatcher.batch, k);
        DeliverNext();
        k := k + 1;
      }
      P.DeliveredSome(mon, k);
      R.DispatchedSome(reg, mon.dispatcher.batch, k);
      FinishBatch();
    }

    /** The batch is empty: back to the top of the loop. */
    method FinishBatch()
      requires Valid() && dispatcher == M.Delivering([])
      modifies this
      ensures Valid() && Mon() == M.Next(old(Mon()), M.FinishBatch) && Reg() == old(Reg())
    {
      StepKeepsMon(Mon(), M.FinishBatch);
      dispatcher := M.AtLock;
    }

    /** The unlocked store at the start of `Stop`. */
    method BeginStop()
      requires Valid() && controller.On?
      modifies this
      ensures Valid() && Mon() == M.Next(old(Mon()), M.BeginStop) && Reg() == old(Reg())
    {
      StepKeepsMon(Mon(), M.BeginStop);
      StopThreads_ := true;
      controller := M.JoinProducer;
    }

    /** `ProcEvProducerThread_.join()` returns. */
    method ProducerJoined()
      requires Valid() && controller.JoinProducer? && producer.ProducerExited?
      modifies this
      ensures Valid() && Mon() == M.Next(old(Mon()), M.ProducerJoined) && Reg() == old(Reg())
    {
      StepKeepsMon(Mon(), M.ProducerJoined);
      producer, controller := M.NoProducer, M.Notify;
    }

    /** The locked `notify_all` of `Stop`. */
    method NotifySection()
      requires Valid() && controller.Notify?
      modifies this
      ensures Valid() && Mon() == M.Next(old(Mon()), M.NotifyAll) && Reg() == old(Reg())
    {
      StepKeepsMon(Mon(), M.NotifyAll);
      NotifyAllDispatchers();
      controller := M.JoinDispatcher;
    }

    /** The end of `Stop`, once the dispatcher is joined. */
    method EndStop()
      requires Valid() && controller.JoinDispatcher? && dispatcher.DispatcherExited?
      modifies this
      ensures Valid() && Mon() == M.Next(old(Mon()), M.DispatcherJoined) && Reg() == old(Reg())
    {
      StepKeepsMon(Mon(), M.DispatcherJoined);
      dispatcher := M.NoDispatcher;
      StopThreads_ := false;
      controller := M.Off;
    }

    /** `IdGenerator::generateId`, an atomic fetch-and-add on a 64-bit counter. */
    method GenerateId(c: nat) returns (id: nat)
      requires Valid() && c < |adding| && adding[c].None?
      modifies this
      ensures Valid() && Reg() == R.Next(old(Reg()), R.GenerateId(c)) && Mon() == old(Mon())
      ensures id == old(nextId_) && adding[c] == Some(id)
    {
      R.StepKeepsInv(Reg(), R.GenerateId(c));
      id := nextId_;
      nextId_ := (nextId_ + 1) % R.ID_LIMIT;
      adding := adding[c := Some(id)];
      generated := generated + 1;
    }

    /** The locked part of `AddProcEvCallback`, which returns the identifier drawn before. */
    method AppendCallback(c: nat, fn: Option<nat>, context: nat) returns (id: nat)
      requires Valid() && c < |adding| && adding[c].Some?
      modifies this
      ensures Valid() && Reg() == R.Next(old(Reg()), R.Append(c, fn, context)) && Mon() == old(Mon())
      ensures Some(id) == old(adding)[c]
    {
      R.StepKeepsInv(Reg(), R.Append(c, fn, context));
      id := adding[c].value;
      ProcEv_Callbacks_ := ProcEv_Callbacks_ + [R.Callback(fn, context, id)];
      adding := adding[c := None];
    }

    /** `AddProcEvCallback`, uninterrupted: it returns the identifier the new last registration has. */
    method AddProcEvCallback(c: nat, fn: Option<nat>, context: nat) returns (id: nat)
      requires Valid() && c < |adding| && adding[c].None?
      modifies this
      ensures Valid() && Mon() == old(Mon()) && id == old(nextId_)
      ensures Reg() == old(Reg()).(
          callbacks := old(ProcEv_Callbacks_) + [R.Callback(fn, context, id)],
          nextId := (id + 1) % R.ID_LIMIT, generated := old(generated) + 1)
    {
      id := GenerateId(c);
      id := AppendCallback(c, fn, context);
      assert adding == old(adding);
    }

    method RemoveProcEvCallback(id: nat)
      requires Valid()
      modifies this
      ensures Valid() && Reg() == R.Next(old(Reg()), R.Remove(id)) && Mon() == old(Mon())
    {
      R.StepKeepsInv(Reg(), R.Remove(id));
      var kept: seq<R.Callback> := [];
      for i := 0 to |ProcEv_Callbacks_|
        invariant ProcEv_Callbacks_ == old(ProcEv_Callbacks_)
        invariant kept == R.Without(ProcEv_Callbacks_[..i], id)
      {
        if ProcEv_Callbacks_[i].id != id {
          kept := kept + [ProcEv_Callbacks_[i]];
        }
        assert ProcEv_Callbacks_[..i + 1][..i] == ProcEv_Callbacks_[..i];
      }
      assert ProcEv_Callbacks_[..|ProcEv_Callbacks_|] == ProcEv_Callbacks_;
      ProcEv_Callbacks_ := kept;
    }
  }
}
