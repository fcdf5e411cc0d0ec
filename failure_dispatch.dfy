/** The resolution-and-dispatch policy of the failure handling service and its
    acknowledgement rule, as pure functions of the handlers and the batch.
    The service class in FailureService is proved to produce exactly these
    handler calls and acknowledgements. */
module FailureDispatch {
  import opened Failures

  /** What one `handle` call did: returned normally or threw. */
  datatype HandleOutcome = Handled | Threw

  /** A failure handler: its configuration switch, the batches it claims and
      what `handle` does with each batch. The name identifies the handler in
      the call log. */
  datatype Handler = Handler(
    name: string,
    enabled: bool,
    supports: FailureBatch -> bool,
    handle: FailureBatch -> HandleOutcome)

  /** One recorded `handle` invocation. */
  datatype HandlerCall = HandlerCall(handler: string, batch: FailureBatch, outcome: HandleOutcome)

  /** A handler is considered for a batch only if it is enabled and supports it. */
  predicate Suitable(h: Handler, b: FailureBatch) {
    h.enabled && h.supports(b)
  }

  /** The enabled custom handlers that support the batch, in registry order. */
  function SuitableCustoms(customs: seq<Handler>, b: FailureBatch): seq<Handler>
  {
    if customs == [] then []
    else (if Suitable(customs[0], b) then [customs[0]] else []) + SuitableCustoms(customs[1..], b)
  }

  /** The handlers that receive the batch: every suitable custom handler;
      when there is none, the fallback if it is suitable; otherwise nobody. */
  function ResolveHandlers(customs: seq<Handler>, fallback: Handler, b: FailureBatch): seq<Handler>
  {
    var chosen := SuitableCustoms(customs, b);
    if chosen != [] then chosen
    else if Suitable(fallback, b) then [fallback]
    else []
  }

  /** The calls made when each of `hs` is handed the batch, in order. */
  function Calls(hs: seq<Handler>, b: FailureBatch): seq<HandlerCall>
  {
    if hs == [] then []
    else [HandlerCall(hs[0].name, b, hs[0].handle(b))] + Calls(hs[1..], b)
  }

  /** The handler calls for one consumed batch. */
  function DispatchCalls(customs: seq<Handler>, fallback: Handler, b: FailureBatch): seq<HandlerCall>
  {
    Calls(ResolveHandlers(customs, fallback, b), b)
  }

  /** The processing failures whose producer asked for acknowledgement, in
      batch order. */
  function AckFilter(fs: seq<Failure>): seq<Failure>
  {
    if fs == [] then []
    else (if fs[0].ProcessingFailure? && fs[0].acknowledge then [fs[0]] else []) + AckFilter(fs[1..])
  }

  /** The acknowledger calls for one consumed batch: one call with the flagged
      failures when there are any, none otherwise. */
  function AckCalls(b: FailureBatch): seq<seq<Failure>>
  {
    var flagged := AckFilter(b.failures);
    if flagged == [] then [] else [flagged]
  }

  /** The handler calls for a sequence of batches consumed one after another. */
  function RunCalls(customs: seq<Handler>, fallback: Handler, bs: seq<FailureBatch>): seq<HandlerCall>
  {
    if bs == [] then []
    else DispatchCalls(customs, fallback, bs[0]) + RunCalls(customs, fallback, bs[1..])
  }

  /** The acknowledger calls for a sequence of batches consumed one after another. */
  function RunAcks(bs: seq<FailureBatch>): seq<seq<Failure>>
  {
    if bs == [] then [] else AckCalls(bs[0]) + RunAcks(bs[1..])
  }

  /** How many of the handlers are named `n`. */
  function NameCount(hs: seq<Handler>, n: string): nat
  {
    if hs == [] then 0 else (if hs[0].name == n then 1 else 0) + NameCount(hs[1..], n)
  }

  /** How many of the calls went to the handler named `n`. */
  function CallCount(calls: seq<HandlerCall>, n: string): nat
  {
    if calls == [] then 0 else (if calls[0].handler == n then 1 else 0) + CallCount(calls[1..], n)
  }

  predicate DistinctNames(hs: seq<Handler>) {
    forall i, j :: 0 <= i < j < |hs| ==> hs[i].name != hs[j].name
  }

  // ---------------------------------------------------------------------
  // Lemmas about the building blocks
  // ---------------------------------------------------------------------

  /** No custom handler is picked exactly when none is suitable. */
  lemma {:induction false} SuitableCustomsEmpty(customs: seq<Handler>, b: FailureBatch)
    ensures SuitableCustoms(customs, b) == [] <==>
            forall i :: 0 <= i < |customs| ==> !Suitable(customs[i], b)
  {
    if customs != [] {
      SuitableCustomsEmpty(customs[1..], b);
      assert forall i :: 1 <= i < |customs| ==> customs[i] == customs[1..][i - 1];
    }
  }

  /** A picked custom handler named `n` exists exactly when a suitable custom
      handler is named `n`; with distinct names it is picked exactly once. */
  lemma {:induction false} SuitableCustomsCount(customs: seq<Handler>, b: FailureBatch, n: string)
    requires DistinctNames(customs)
    ensures NameCount(SuitableCustoms(customs, b), n) ==
            (if exists i :: 0 <= i < |customs| && customs[i].name == n && Suitable(customs[i], b) then 1 else 0)
  {
    if customs != [] {
      var tail := customs[1..];
      assert DistinctNames(tail) by {
        forall i, j | 0 <= i < j < |tail| ensures tail[i].name != tail[j].name {
          assert tail[i] == customs[i + 1] && tail[j] == customs[j + 1];
        }
      }
      SuitableCustomsCount(tail, b, n);
      var head := if Suitable(customs[0], b) then [customs[0]] else [];
      NameCountAppend(head, SuitableCustoms(tail, b), n);
      if customs[0].name == n {
        forall i | 0 <= i < |tail| ensures tail[i].name != n {
          assert tail[i] == customs[i + 1];
        }
      }
      if exists i :: 0 <= i < |tail| && tail[i].name == n && Suitable(tail[i], b) {
        var i :| 0 <= i < |tail| && tail[i].name == n && Suitable(tail[i], b);
        assert customs[i + 1] == tail[i];
      }
      if exists i :: 0 <= i < |customs| && customs[i].name == n && Suitable(customs[i], b) {
        var i :| 0 <= i < |customs| && customs[i].name == n && Suitable(customs[i], b);
        if i > 0 { assert tail[i - 1] == customs[i]; }
      }
    }
  }

  lemma {:induction false} NameCountAppend(a: seq<Handler>, c: seq<Handler>, n: string)
    ensures NameCount(a + c, n) == NameCount(a, n) + NameCount(c, n)
  {
    if a != [] {
      assert (a + c)[1..] == a[1..] + c;
      NameCountAppend(a[1..], c, n);
    } else {
      assert a + c == c;
    }
  }

  /** Each handler gets exactly one call per occurrence in `hs`, and every
      call carries the batch it was made with. */
  lemma {:induction false} CallsFaithful(hs: seq<Handler>, b: FailureBatch, n: string)
    ensures |Calls(hs, b)| == |hs|
    ensures CallCount(Calls(hs, b), n) == NameCount(hs, n)
    ensures forall k :: 0 <= k < |hs| ==>
              Calls(hs, b)[k] == HandlerCall(hs[k].name, b, hs[k].handle(b))
  {
    if hs != [] {
      CallsFaithful(hs[1..], b, n);
      var rest := Calls(hs[1..], b);
      assert Calls(hs, b) == [HandlerCall(hs[0].name, b, hs[0].handle(b))] + rest;
      assert Calls(hs, b)[1..] == rest;
      forall k | 1 <= k < |hs|
        ensures Calls(hs, b)[k] == HandlerCall(hs[k].name, b, hs[k].handle(b))
      {
        assert Calls(hs, b)[k] == rest[k - 1];
        assert hs[1..][k - 1] == hs[k];
      }
    }
  }

  /** The acknowledgement filter keeps exactly the flagged processing failures. */
  lemma {:induction false} AckFilterMembers(fs: seq<Failure>, f: Failure)
    ensures f in AckFilter(fs) <==> f in fs && f.ProcessingFailure? && f.acknowledge
  {
    if fs != [] {
      AckFilterMembers(fs[1..], f);
      assert fs == [fs[0]] + fs[1..];
    }
  }

  /** The acknowledgement filter keeps every flagged processing failure as
      often as the batch holds it, and nothing else: no failure is
      acknowledged twice. */
  lemma {:induction false} AckFilterCount(fs: seq<Failure>, g: Failure)
    ensures multiset(AckFilter(fs))[g] ==
              (if g.ProcessingFailure? && g.acknowledge then multiset(fs)[g] else 0)
  {
    if fs != [] {
      AckFilterCount(fs[1..], g);
      assert fs == [fs[0]] + fs[1..];
      assert multiset(fs) == multiset([fs[0]]) + multiset(fs[1..]);
    }
  }

  /** The filter keeps batch order: filtering two parts one after the other
      is filtering the whole. */
  lemma {:induction false} AckFilterAppend(fs: seq<Failure>, gs: seq<Failure>)
    ensures AckFilter(fs + gs) == AckFilter(fs) + AckFilter(gs)
  {
    if fs == [] {
      assert fs + gs == gs;
    } else {
      assert (fs + gs)[0] == fs[0];
      assert (fs + gs)[1..] == fs[1..] + gs;
      AckFilterAppend(fs[1..], gs);
    }
  }

  /** A batch without processing failures yields no flagged failure. */
  lemma {:induction false} AckFilterNoProcessing(fs: seq<Failure>)
    requires forall i :: 0 <= i < |fs| ==> !fs[i].ProcessingFailure?
    ensures AckFilter(fs) == []
  {
    if fs != [] {
      AckFilterNoProcessing(fs[1..]);
    }
  }

  /** Consuming batches one after another: the calls of a longer run are the
      calls of its first part followed by those of the rest. */
  lemma {:induction false} RunAppend(customs: seq<Handler>, fallback: Handler,
                                     bs: seq<FailureBatch>, cs: seq<FailureBatch>)
    ensures RunCalls(customs, fallback, bs + cs) ==
            RunCalls(customs, fallback, bs) + RunCalls(customs, fallback, cs)
    ensures RunAcks(bs + cs) == RunAcks(bs) + RunAcks(cs)
  {
    if bs != [] {
      assert (bs + cs)[0] == bs[0];
      assert (bs + cs)[1..] == bs[1..] + cs;
      RunAppend(customs, fallback, bs[1..], cs);
    } else {
      assert bs + cs == cs;
    }
  }

  /** Consuming the oldest batch of a run: a log that already holds that
      batch's calls, followed by the calls of the rest of the run, equals the
      log before it followed by the calls of the whole run. */
  lemma RunStep(customs: seq<Handler>, fallback: Handler, bs: seq<FailureBatch>,
                calls: seq<HandlerCall>, acks: seq<seq<Failure>>)
    requires bs != []
    ensures (calls + DispatchCalls(customs, fallback, bs[0])) + RunCalls(customs, fallback, bs[1..]) ==
            calls + RunCalls(customs, fallback, bs)
    ensures (acks + AckCalls(bs[0])) + RunAcks(bs[1..]) == acks + RunAcks(bs)
  {
    var d, r := DispatchCalls(customs, fallback, bs[0]), RunCalls(customs, fallback, bs[1..]);
    assert RunCalls(customs, fallback, bs) == d + r;
    Associative(calls, d, r);
    var a, ra := AckCalls(bs[0]), RunAcks(bs[1..]);
    assert RunAcks(bs) == a + ra;
    Associative(acks, a, ra);
  }

  /** A proof helper, not part of the model: concatenation regroups. */
  lemma Associative<T>(x: seq<T>, y: seq<T>, z: seq<T>)
    ensures (x + y) + z == x + (y + z)
  {
  }

  // ---------------------------------------------------------------------
  // The routing and acknowledgement guarantees
  // ---------------------------------------------------------------------

  /** No suitable custom handler, suitable fallback: the fallback alone is
      called, once, with the batch, and no custom handler is called. */
  lemma FallbackOnly(customs: seq<Handler>, fallback: Handler, b: FailureBatch)
    requires forall i :: 0 <= i < |customs| ==> !Suitable(customs[i], b)
    requires Suitable(fallback, b)
    ensures DispatchCalls(customs, fallback, b) == [HandlerCall(fallback.name, b, fallback.handle(b))]
    ensures forall i :: 0 <= i < |customs| && customs[i].name != fallback.name ==>
              CallCount(DispatchCalls(customs, fallback, b), customs[i].name) == 0
  {
    SuitableCustomsEmpty(customs, b);
    assert ResolveHandlers(customs, fallback, b) == [fallback];
    CallsFaithful([fallback], b, fallback.name);
  }

  /** Nobody suitable: no handler is called at all. */
  lemma Unroutable(customs: seq<Handler>, fallback: Handler, b: FailureBatch)
    requires forall i :: 0 <= i < |customs| ==> !Suitable(customs[i], b)
    requires !Suitable(fallback, b)
    ensures DispatchCalls(customs, fallback, b) == []
  {
    SuitableCustomsEmpty(customs, b);
  }

  /** Some suitable custom handler: every suitable custom handler is called
      exactly once, no unsuitable one is called, and the fallback is never
      called, even when it supports the batch too. */
  lemma CustomsOverrideFallback(customs: seq<Handler>, fallback: Handler, b: FailureBatch)
    requires DistinctNames(customs)
    requires forall i :: 0 <= i < |customs| ==> customs[i].name != fallback.name
    requires exists i :: 0 <= i < |customs| && Suitable(customs[i], b)
    ensures CallCount(DispatchCalls(customs, fallback, b), fallback.name) == 0
    ensures forall i :: 0 <= i < |customs| ==>
              CallCount(DispatchCalls(customs, fallback, b), customs[i].name) ==
              (if Suitable(customs[i], b) then 1 else 0)
  {
    SuitableCustomsEmpty(customs, b);
    var chosen := SuitableCustoms(customs, b);
    assert ResolveHandlers(customs, fallback, b) == chosen;
    CallsFaithful(chosen, b, fallback.name);
    SuitableCustomsCount(customs, b, fallback.name);
    forall i | 0 <= i < |customs|
      ensures CallCount(DispatchCalls(customs, fallback, b), customs[i].name) ==
              (if Suitable(customs[i], b) then 1 else 0)
    {
      CallsFaithful(chosen, b, customs[i].name);
      SuitableCustomsCount(customs, b, customs[i].name);
      if exists j :: 0 <= j < |customs| && customs[j].name == customs[i].name && Suitable(customs[j], b) {
        var j :| 0 <= j < |customs| && customs[j].name == customs[i].name && Suitable(customs[j], b);
        assert j == i;
      }
    }
  }

  /** Every call of a consumed batch went to a handler the policy picked:
      a suitable custom handler, or the suitable fallback when no custom
      handler is suitable. */
  lemma OnlyResolvedHandlersCalled(customs: seq<Handler>, fallback: Handler, b: FailureBatch, n: string)
    requires DistinctNames(customs)
    requires CallCount(DispatchCalls(customs, fallback, b), n) > 0
    ensures (exists i :: 0 <= i < |customs| && customs[i].name == n && Suitable(customs[i], b))
            || (n == fallback.name && Suitable(fallback, b) &&
                forall i :: 0 <= i < |customs| ==> !Suitable(customs[i], b))
  {
    SuitableCustomsEmpty(customs, b);
    var chosen := SuitableCustoms(customs, b);
    if chosen != [] {
      CallsFaithful(chosen, b, n);
      SuitableCustomsCount(customs, b, n);
    } else if Suitable(fallback, b) {
      CallsFaithful([fallback], b, n);
      assert NameCount([fallback], n) == (if fallback.name == n then 1 else 0);
    }
  }

  /** The handlers picked for a batch never depend on what earlier `handle`
      calls did: a handler that threw on one batch is still called for the
      next one. Here: no custom handlers, a fallback supporting both batches
      and throwing on the first. */
  lemma ThrowingHandlerStillCalled(fallback: Handler, b1: FailureBatch, b2: FailureBatch)
    requires Suitable(fallback, b1) && Suitable(fallback, b2)
    requires fallback.handle(b1) == Threw
    ensures RunCalls([], fallback, [b1, b2]) ==
            [HandlerCall(fallback.name, b1, Threw), HandlerCall(fallback.name, b2, fallback.handle(b2))]
  {
    FallbackOnly([], fallback, b1);
    FallbackOnly([], fallback, b2);
    assert [b1, b2][1..] == [b2];
    assert RunCalls([], fallback, [b2]) == DispatchCalls([], fallback, b2) + RunCalls([], fallback, []);
  }

  /** A processing batch with a flagged failure is acknowledged exactly once,
      with exactly the flagged failures. */
  lemma AckedOnceWithFlagged(b: FailureBatch, f: Failure)
    requires f in b.failures && f.ProcessingFailure? && f.acknowledge
    ensures |AckCalls(b)| == 1
    ensures forall g :: g in AckCalls(b)[0] <==> g in b.failures && g.ProcessingFailure? && g.acknowledge
    ensures forall g :: multiset(AckCalls(b)[0])[g] ==
              (if g.ProcessingFailure? && g.acknowledge then multiset(b.failures)[g] else 0)
    ensures b.failures == [f] ==> AckCalls(b) == [[f]]
  {
    AckFilterMembers(b.failures, f);
    forall g ensures g in AckFilter(b.failures) <==> g in b.failures && g.ProcessingFailure? && g.acknowledge {
      AckFilterMembers(b.failures, g);
    }
    forall g ensures multiset(AckFilter(b.failures))[g] ==
                     (if g.ProcessingFailure? && g.acknowledge then multiset(b.failures)[g] else 0) {
      AckFilterCount(b.failures, g);
    }
    if b.failures == [f] {
      assert b.failures[1..] == [];
      assert AckFilter(b.failures) == [f];
    }
  }

  /** Indexing and input batches are never acknowledged, whoever handled them. */
  lemma NoAckForIndexingOrInput(b: FailureBatch)
    requires Homogeneous(b) && b.kind != Processing
    ensures AckCalls(b) == []
  {
    forall i | 0 <= i < |b.failures| ensures !b.failures[i].ProcessingFailure? {
      assert TypeOf(b.failures[i]) == b.kind;
    }
    AckFilterNoProcessing(b.failures);
  }

  /** At most one acknowledger call per consumed batch, whoever handled it. */
  lemma {:induction false} AtMostOneAckPerBatch(bs: seq<FailureBatch>)
    ensures |RunAcks(bs)| <= |bs|
  {
    if bs != [] {
      AtMostOneAckPerBatch(bs[1..]);
    }
  }
}
