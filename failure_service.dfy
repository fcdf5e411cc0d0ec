/** The failure handling service: a managed background task that consumes
    batches from the submission queue, hands each to the handlers the policy
    of FailureDispatch picks, isolates handler faults, acknowledges flagged
    processing failures, and drains the queue on shutdown.
    The consumer runs sequentially here; the calls it makes to handlers and to
    the acknowledger are recorded in ghost logs. */
module FailureService {
  import opened Wrappers
  import opened Failures
  import opened FailureDispatch
  import opened FailureQueue

  /** `n` polls, each with timeout `t`. */
  function Repeat(t: nat, n: nat): (r: seq<nat>)
    ensures |r| == n && forall i :: 0 <= i < n ==> r[i] == t
  {
    if n == 0 then [] else Repeat(t, n - 1) + [t]
  }

  /** One more poll extends the log of polls by one entry. */
  lemma RepeatStep(log: seq<nat>, t: nat, n: nat)
    ensures (log + Repeat(t, n)) + [t] == log + Repeat(t, n + 1)
  {
    assert Repeat(t, n + 1) == Repeat(t, n) + [t];
    assert (log + Repeat(t, n)) + [t] == log + (Repeat(t, n) + [t]);
  }

  /** The lifecycle of the managed service; the transitions are one-way. */
  datatype ServiceState = New | Starting | Running | Stopping | Terminated

  class FailureHandlingService {
    const fallback: Handler
    const customs: seq<Handler>
    const queue: FailureSubmissionQueue
    /** The configured `failureHandlingShutdownAwait`, in milliseconds. */
    const shutdownAwaitMillis: nat
    var state: ServiceState

    /** Every `handle` call made so far, in order. */
    ghost var calls: seq<HandlerCall>
    /** Every list handed to the acknowledger so far, in order. */
    ghost var acks: seq<seq<Failure>>
    /** The timeout of every poll the shutdown drain made, in order. */
    ghost var drainPolls: seq<nat>

    /** Starting and Stopping are passed through within one operation and are
        never observed between operations of the sequential model. */
    ghost predicate Valid()
      reads this, queue
    {
      queue.Valid() && state != Starting && state != Stopping
    }

    constructor (fallback: Handler, customs: seq<Handler>, queue: FailureSubmissionQueue,
                 shutdownAwaitMillis: nat)
      requires queue.Valid()
      ensures Valid() && state == New
      ensures this.fallback == fallback && this.customs == customs && this.queue == queue
      ensures this.shutdownAwaitMillis == shutdownAwaitMillis
      ensures calls == [] && acks == [] && drainPolls == []
    {
      this.fallback := fallback;
      this.customs := customs;
      this.queue := queue;
      this.shutdownAwaitMillis := shutdownAwaitMillis;
      state := New;
      calls := [];
      acks := [];
      drainPolls := [];
    }

    /** `startAsync` plus `awaitRunning`: NEW goes through STARTING to
        RUNNING; in any other state the start is refused and nothing
        changes. */
    method Start() returns (ok: bool)
      requires Valid()
      modifies this`state
      ensures Valid()
      ensures ok == (old(state) == New)
      ensures state == (if ok then Running else old(state))
    {
      ok := state == New;
      if ok {
        state := Starting;
        state := Running;
      }
    }

    /** Handles one consumed batch: every picked handler is called, a handler
        that throws is logged and skipped, and afterwards the flagged
        processing failures are acknowledged in one call. */
    method HandleBatch(b: FailureBatch)
      modifies this`calls, this`acks
      ensures calls == old(calls) + DispatchCalls(customs, fallback, b)
      ensures acks == old(acks) + AckCalls(b)
    {
      var rest := ResolveHandlers(customs, fallback, b);
      while rest != []
        invariant calls + Calls(rest, b) == old(calls) + DispatchCalls(customs, fallback, b)
        invariant acks == old(acks)
      {
        // The call is wrapped: a handler that throws is logged and the loop
        // goes on with the remaining handlers.
        var outcome := rest[0].handle(b);
        calls := calls + [HandlerCall(rest[0].name, b, outcome)];
        rest := rest[1..];
      }
      var flagged := AckFilter(b.failures);
      if flagged != [] {
        acks := acks + [flagged];
      }
    }

    /** One turn of the steady-state loop: take the oldest batch and handle it. */
    method ConsumeNext()
      requires Valid() && state == Running && queue.batches != []
      modifies this`calls, this`acks, queue
      ensures Valid() && state == Running
      ensures queue.batches == old(queue.batches)[1..]
      ensures calls == old(calls) + DispatchCalls(customs, fallback, old(queue.batches)[0])
      ensures acks == old(acks) + AckCalls(old(queue.batches)[0])
    {
      var b := queue.ConsumeBlocking();
      HandleBatch(b);
    }

    /** The steady-state loop, run until the queue is empty: every queued
        batch is consumed, in submission order, and handled exactly once. */
    method RunUntilIdle()
      requires Valid() && state == Running
      modifies this`calls, this`acks, queue
      ensures Valid() && state == Running && queue.batches == []
      ensures calls == old(calls) + RunCalls(customs, fallback, old(queue.batches))
      ensures acks == old(acks) + RunAcks(old(queue.batches))
    {
      ghost var pending, calls0, acks0 := queue.batches, calls, acks;
      var size := queue.QueueSize();
      while size != 0
        invariant Valid() && state == Running
        invariant size == |queue.batches|
        invariant calls + RunCalls(customs, fallback, queue.batches) ==
                  calls0 + RunCalls(customs, fallback, pending)
        invariant acks + RunAcks(queue.batches) == acks0 + RunAcks(pending)
        decreases |queue.batches|
      {
        ghost var before := queue.batches;
        ghost var callsBefore, acksBefore := calls, acks;
        ConsumeNext();
        RunStep(customs, fallback, before, callsBefore, acksBefore);
        size := queue.QueueSize();
      }
    }

    /** `stopAsync` plus `awaitTerminated`. A running service goes to
        STOPPING and drains: it polls the queue with the configured timeout
        until a poll yields no batch, handling each batch it gets exactly as
        in the steady state, and then terminates. A service that never
        started terminates without draining; a terminated one stays so. */
    method Stop()
      requires Valid()
      modifies this`state, this`calls, this`acks, this`drainPolls, queue
      ensures Valid() && state == Terminated
      ensures old(state) == Running ==>
                && queue.batches == []
                && drainPolls == old(drainPolls) + Repeat(shutdownAwaitMillis, |old(queue.batches)| + 1)
                && calls == old(calls) + RunCalls(customs, fallback, old(queue.batches))
                && acks == old(acks) + RunAcks(old(queue.batches))
      ensures old(state) != Running ==>
                && queue.batches == old(queue.batches)
                && drainPolls == old(drainPolls) && calls == old(calls) && acks == old(acks)
    {
      if state != Running {
        state := Terminated;
        return;
      }
      state := Stopping;
      ghost var pending, calls0, acks0, polls0 := queue.batches, calls, acks, drainPolls;
      while true
        invariant queue.Valid() && state == Stopping
        invariant |queue.batches| <= |pending|
        invariant drainPolls == polls0 + Repeat(shutdownAwaitMillis, |pending| - |queue.batches|)
        invariant calls + RunCalls(customs, fallback, queue.batches) ==
                  calls0 + RunCalls(customs, fallback, pending)
        invariant acks + RunAcks(queue.batches) == acks0 + RunAcks(pending)
        decreases |queue.batches|
      {
        ghost var before := queue.batches;
        ghost var callsBefore, acksBefore := calls, acks;
        var next := queue.ConsumeBlockingWithTimeout(shutdownAwaitMillis);
        drainPolls := drainPolls + [shutdownAwaitMillis];
        RepeatStep(polls0, shutdownAwaitMillis, |pending| - |before|);
        if next.None? {
          break;
        }
        HandleBatch(next.value);
        RunStep(customs, fallback, before, callsBefore, acksBefore);
      }
      state := Terminated;
    }
  }

  /** The shutdown scenario: one batch pending, only a fallback that supports
      it. Stopping polls twice (the batch, then nothing), calls the fallback
      once with the batch, and terminates. */
  method ShutdownDrainsPendingBatch(fallback: Handler, b: FailureBatch, capacity: nat)
      returns (service: FailureHandlingService)
    requires Suitable(fallback, b) && 0 < capacity
    ensures service.state == Terminated && service.drainPolls == [300, 300]
    ensures service.calls == [HandlerCall(fallback.name, b, fallback.handle(b))]
  {
    var queue := new FailureSubmissionQueue(capacity);
    service := new FailureHandlingService(fallback, [], queue, 300);
    var started := service.Start();
    queue.SubmitBlocking(b);
    service.Stop();
    FallbackOnly([], fallback, b);
    assert [b][1..] == [];
  }
}
