/** The bounded FIFO buffer between failure producers and the single consumer
    of the failure handling service. Blocking is modelled sequentially: a
    blocking submit may only happen when there is room, and a timed consume
    that finds the buffer empty reports "no batch". */
module FailureQueue {
  import opened Wrappers
  import opened Failures

  class FailureSubmissionQueue {
    /** The configured `failureHandlingQueueCapacity`. */
    const capacity: nat
    /** The queued batches, oldest first. */
    var batches: seq<FailureBatch>

    ghost predicate Valid()
      reads this
    {
      0 < capacity && |batches| <= capacity
    }

    /** The configuration value is a positive integer. */
    constructor (capacity: nat)
      requires 0 < capacity
      ensures Valid() && this.capacity == capacity && batches == []
    {
      this.capacity := capacity;
      batches := [];
    }

    /** Enqueues the batch; the caller would block while the buffer is full. */
    method SubmitBlocking(b: FailureBatch)
      requires Valid() && |batches| < capacity
      modifies this
      ensures Valid() && batches == old(batches) + [b]
    {
      batches := batches + [b];
    }

    /** Removes and returns the oldest batch, or `None` when nothing arrived
        within the timeout (nothing can arrive while the single sequential
        consumer waits, so this is the empty case). */
    method ConsumeBlockingWithTimeout(timeoutMillis: nat) returns (r: Option<FailureBatch>)
      requires Valid()
      modifies this
      ensures Valid()
      ensures old(batches) == [] ==> r == None && batches == []
      ensures old(batches) != [] ==> r == Some(old(batches)[0]) && batches == old(batches)[1..]
    {
      if batches == [] {
        r := None;
      } else {
        r := Some(batches[0]);
        batches := batches[1..];
      }
    }

    /** Removes and returns the oldest batch; the caller would block while the
        buffer is empty. */
    method ConsumeBlocking() returns (b: FailureBatch)
      requires Valid() && batches != []
      modifies this
      ensures Valid() && b == old(batches)[0] && batches == old(batches)[1..]
    {
      b := batches[0];
      batches := batches[1..];
    }

    /** The current number of queued batches. */
    method QueueSize() returns (n: nat)
      ensures n == |batches|
    {
      n := |batches|;
    }
  }

  /** Batches come out in the order they went in: two batches submitted to
      an empty queue are consumed in submission order and leave it empty. */
  method FifoClient(q: FailureSubmissionQueue, b1: FailureBatch, b2: FailureBatch)
      returns (first: FailureBatch, second: FailureBatch)
    requires q.Valid() && q.batches == [] && 2 <= q.capacity
    modifies q
    ensures first == b1 && second == b2 && q.batches == []
  {
    q.SubmitBlocking(b1);
    q.SubmitBlocking(b2);
    first := q.ConsumeBlocking();
    second := q.ConsumeBlocking();
  }
}
