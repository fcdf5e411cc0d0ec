/** The failure taxonomy: single failure occurrences, grouped into batches
    that carry exactly one origin type. */
module Failures {

  /** The origin of a failure; every batch is tagged with one of these. */
  datatype FailureType = Indexing | Processing | Input

  /** One failure occurrence. The cause is the name of a member of the
      origin's closed cause enumeration (`MappingError`, `UNKNOWN`,
      `INPUT_PARSE`, ...); the timestamp is in milliseconds.
      A processing failure carries the id of the message it failed on and the
      producer's `acknowledge` flag; it is itself what the acknowledger is
      handed. */
  datatype Failure =
    | IndexingFailure(cause: string, message: string, details: string, timestamp: int,
                      targetIndex: string)
    | ProcessingFailure(cause: string, message: string, details: string, timestamp: int,
                        failedMessageId: string, acknowledge: bool)
    | InputFailure(cause: string, message: string, details: string, timestamp: int,
                   inputId: string)

  function TypeOf(f: Failure): FailureType {
    match f
    case IndexingFailure(_, _, _, _, _) => Indexing
    case ProcessingFailure(_, _, _, _, _, _) => Processing
    case InputFailure(_, _, _, _, _) => Input
  }

  /** An ordered group of failures handed to the handlers as one unit. */
  datatype FailureBatch = FailureBatch(kind: FailureType, failures: seq<Failure>)

  /** A batch is never mixed: its tag agrees with every element. */
  predicate Homogeneous(b: FailureBatch) {
    forall i :: 0 <= i < |b.failures| ==> TypeOf(b.failures[i]) == b.kind
  }

  /** The per-type factories tag the batch with the type of their elements. */
  function IndexingFailureBatch(fs: seq<Failure>): (b: FailureBatch)
    requires forall i :: 0 <= i < |fs| ==> fs[i].IndexingFailure?
    ensures Homogeneous(b) && b.kind == Indexing && b.failures == fs
  {
    FailureBatch(Indexing, fs)
  }

  function ProcessingFailureBatch(fs: seq<Failure>): (b: FailureBatch)
    requires forall i :: 0 <= i < |fs| ==> fs[i].ProcessingFailure?
    ensures Homogeneous(b) && b.kind == Processing && b.failures == fs
  {
    FailureBatch(Processing, fs)
  }

  function InputFailureBatch(fs: seq<Failure>): (b: FailureBatch)
    requires forall i :: 0 <= i < |fs| ==> fs[i].InputFailure?
    ensures Homogeneous(b) && b.kind == Input && b.failures == fs
  {
    FailureBatch(Input, fs)
  }
}
