/**
 * `asyncWaterfallWithRetry`: runs a producer stage and then each later
 * stage on the previous stage's result, giving every stage up to three
 * tries and rejecting, with no reason, as soon as one stage fails three
 * times. The pause between tries is not modelled.
 *
 * A stage is an oracle from the try number (0, 1 or 2) to the outcome of
 * that try: `Some(v)` when the stage's promise resolves with `v`, `None`
 * when it rejects.
 */
module RetryWaterfall {
  import opened Wrappers

  /** Tries per stage: one first try and two retries. */
  const MaxAttempts: nat := 3

  /** The first stage: takes no input. */
  type Producer<V> = nat -> Option<V>

  /** A later stage: takes the previous stage's result. */
  type Step<!V> = (V, nat) -> Option<V>

  /** One invocation of a stage: stage 0 is the producer, stage `i + 1` is `rest[i]`. */
  datatype Call = Call(stage: nat, attempt: nat)

  /**
   * How the returned promise settles: resolved with a value or with
   * `undefined` (`Resolved(None)`), or rejected with no reason.
   */
  datatype Settled<V> = Resolved(value: Option<V>) | Rejected

  /** The first of the tries `from`, ..., `MaxAttempts - 1` of `tryAt` that succeeds, if any. */
  function FirstSuccessFrom<V>(tryAt: nat -> Option<V>, from: nat): Option<nat>
    decreases MaxAttempts - from
  {
    if from >= MaxAttempts then None
    else if tryAt(from).Some? then Some(from)
    else FirstSuccessFrom(tryAt, from + 1)
  }

  /** The try on which a stage first succeeds, if one of its three tries does. */
  function SuccessfulAttempt<V>(tryAt: nat -> Option<V>): Option<nat> {
    FirstSuccessFrom(tryAt, 0)
  }

  /** The result of a stage after its retries: that of its first successful try, or `None`. */
  function RunStage<V>(tryAt: nat -> Option<V>): Option<V> {
    match SuccessfulAttempt(tryAt)
    case Some(a) => tryAt(a)
    case None => None
  }

  /** How many times a stage is invoked: up to and including its first success, or all three tries. */
  function AttemptsMade<V>(tryAt: nat -> Option<V>): nat {
    match SuccessfulAttempt(tryAt)
    case Some(a) => a + 1
    case None => MaxAttempts
  }

  /** The tries of a later stage on a given input. */
  function StageTries<V>(step: Step<V>, input: V): nat -> Option<V> {
    (a: nat) => step(input, a)
  }

  /** The invocations `Call(stage, 0)`, ..., `Call(stage, n - 1)`. */
  function StageCalls(stage: nat, n: nat): (calls: seq<Call>)
    ensures |calls| == n
  {
    seq(n, (k: int) requires 0 <= k => Call(stage, k))
  }

  /** One more invocation of a stage extends its run of calls. */
  lemma StageCallsNext(stage: nat, n: nat)
    ensures StageCalls(stage, n) + [Call(stage, n)] == StageCalls(stage, n + 1)
  {
  }

  /**
   * Threads `v0` through the first `n` of `steps`, each with its retries;
   * `None` once one of them has failed three times.
   */
  function Pipeline<V>(v0: V, steps: seq<Step<V>>, n: nat): Option<V>
    requires n <= |steps|
  {
    if n == 0 then Some(v0)
    else match Pipeline(v0, steps, n - 1)
      case None => None
      case Some(x) => RunStage(StageTries(steps[n - 1], x))
  }

  /**
   * `before` followed by the invocations that `Pipeline(v0, steps, n)`
   * makes; `steps[i]` is stage `i + 1`.
   */
  function PipelineTrace<V>(before: seq<Call>, v0: V, steps: seq<Step<V>>, n: nat): seq<Call>
    requires n <= |steps|
  {
    if n == 0 then before
    else
      PipelineTrace(before, v0, steps, n - 1) +
        match Pipeline(v0, steps, n - 1)
        case None => []
        case Some(x) => StageCalls(n, AttemptsMade(StageTries(steps[n - 1], x)))
  }

  /**
   * What the waterfall settles to. As the code is written, the result is
   * the last value produced by a later stage, so with no later stage it
   * resolves with `undefined` even when the producer succeeds.
   */
  function Waterfall<V>(first: Producer<V>, rest: seq<Step<V>>): Settled<V> {
    match RunStage(first)
    case None => Rejected
    case Some(v0) =>
      match Pipeline(v0, rest, |rest|)
      case None => Rejected
      case Some(last) => Resolved(if rest == [] then None else Some(last))
  }

  /** Every stage invocation the waterfall makes, in order. */
  function WaterfallTrace<V>(first: Producer<V>, rest: seq<Step<V>>): seq<Call> {
    var producerCalls := StageCalls(0, AttemptsMade(first));
    match RunStage(first)
    case None => producerCalls
    case Some(v0) => PipelineTrace(producerCalls, v0, rest, |rest|)
  }

  /** `FirstSuccessFrom` finds the earliest successful try from `from` on, within the three. */
  lemma {:induction false} FirstSuccessFromIsEarliest<V>(tryAt: nat -> Option<V>, from: nat)
    decreases MaxAttempts - from
    ensures var a := FirstSuccessFrom(tryAt, from);
      && (a.Some? ==> from <= a.value < MaxAttempts && tryAt(a.value).Some?)
      && (forall b :: from <= b < MaxAttempts && (a.None? || b < a.value) ==> tryAt(b).None?)
  {
    if from < MaxAttempts && tryAt(from).None? {
      FirstSuccessFromIsEarliest(tryAt, from + 1);
    }
  }

  /**
   * Bounded retry: a stage is invoked at least once and at most three
   * times; it fails exactly when all three tries fail, and otherwise
   * yields its first successful try, which is also its last call.
   */
  lemma StageOutcome<V>(tryAt: nat -> Option<V>)
    ensures 1 <= AttemptsMade(tryAt) <= MaxAttempts
    ensures RunStage(tryAt).None? <==> forall b :: 0 <= b < MaxAttempts ==> tryAt(b).None?
    ensures RunStage(tryAt).None? ==> AttemptsMade(tryAt) == MaxAttempts
    ensures RunStage(tryAt).Some? ==>
      && RunStage(tryAt) == tryAt(AttemptsMade(tryAt) - 1)
      && forall b :: 0 <= b < AttemptsMade(tryAt) - 1 ==> tryAt(b).None?
  {
    FirstSuccessFromIsEarliest(tryAt, 0);
  }

  /**
   * A stage whose tries before `n` all failed and whose try `n` succeeds is
   * done after `n + 1` calls, with that try's result.
   */
  lemma SucceedsOnAttempt<V>(tryAt: nat -> Option<V>, n: nat)
    requires n < MaxAttempts
    requires SuccessfulAttempt(tryAt) == FirstSuccessFrom(tryAt, n)
    requires tryAt(n).Some?
    ensures RunStage(tryAt) == tryAt(n)
    ensures AttemptsMade(tryAt) == n + 1
  {
  }

  /** Once a step has failed, no later step runs: the result stays `None` and the trace does not grow. */
  lemma {:induction false} FailureStops<V>(before: seq<Call>, v0: V, steps: seq<Step<V>>, i: nat, j: nat)
    requires i <= j <= |steps|
    requires Pipeline(v0, steps, i) == None
    ensures Pipeline(v0, steps, j) == None
    ensures PipelineTrace(before, v0, steps, j) == PipelineTrace(before, v0, steps, i)
    decreases j
  {
    if j > i {
      FailureStops(before, v0, steps, i, j - 1);
      assert PipelineTrace(before, v0, steps, j) == PipelineTrace(before, v0, steps, j - 1) + [];
    }
  }

  /** The waterfall rejects after three calls when the producer fails three times. */
  lemma ProducerFails<V>(first: Producer<V>, rest: seq<Step<V>>)
    requires SuccessfulAttempt(first) == FirstSuccessFrom(first, MaxAttempts)
    ensures Waterfall(first, rest) == Rejected
    ensures WaterfallTrace(first, rest) == StageCalls(0, MaxAttempts)
  {
  }

  /** Step `i` succeeding on try `n` extends the pipeline's result and calls. */
  lemma StepSucceeds<V>(before: seq<Call>, v0: V, rest: seq<Step<V>>, i: nat, x: V, n: nat)
    requires i < |rest| && n < MaxAttempts
    requires Pipeline(v0, rest, i) == Some(x)
    requires SuccessfulAttempt(StageTries(rest[i], x)) == FirstSuccessFrom(StageTries(rest[i], x), n)
    requires rest[i](x, n).Some?
    ensures Pipeline(v0, rest, i + 1) == rest[i](x, n)
    ensures PipelineTrace(before, v0, rest, i + 1) == PipelineTrace(before, v0, rest, i) + StageCalls(i + 1, n + 1)
  {
    SucceedsOnAttempt(StageTries(rest[i], x), n);
  }

  /** Step `i` failing three times rejects the waterfall, with no call after its own. */
  lemma StepFails<V>(first: Producer<V>, rest: seq<Step<V>>, v0: V, i: nat, x: V)
    requires i < |rest|
    requires RunStage(first) == Some(v0)
    requires Pipeline(v0, rest, i) == Some(x)
    requires SuccessfulAttempt(StageTries(rest[i], x)) == FirstSuccessFrom(StageTries(rest[i], x), MaxAttempts)
    ensures Waterfall(first, rest) == Rejected
    ensures WaterfallTrace(first, rest) ==
      PipelineTrace(StageCalls(0, AttemptsMade(first)), v0, rest, i) + StageCalls(i + 1, MaxAttempts)
  {
    FailureStops(StageCalls(0, AttemptsMade(first)), v0, rest, i + 1, |rest|);
  }

  /** The waterfall's result and calls once every step has succeeded. */
  lemma AllSucceed<V>(first: Producer<V>, rest: seq<Step<V>>, v0: V, x: V)
    requires RunStage(first) == Some(v0)
    requires Pipeline(v0, rest, |rest|) == Some(x)
    ensures Waterfall(first, rest) == Resolved(if rest == [] then None else Some(x))
    ensures WaterfallTrace(first, rest) == PipelineTrace(StageCalls(0, AttemptsMade(first)), v0, rest, |rest|)
  {
  }

  /**
   * `fns` as the waterfall runs it, split into the producer `first` and the
   * later stages `rest`: one failure counter, reset to 0 before each stage,
   * and the result of the last later stage as the result.
   */
  method WaterfallWithRetry<V>(first: Producer<V>, rest: seq<Step<V>>) returns (r: Settled<V>, ghost calls: seq<Call>)
    ensures r == Waterfall(first, rest)
    ensures calls == WaterfallTrace(first, rest)
  {
    calls := [];
    var failureCounter := 0;
    var prevRes: Option<V> := None;
    while failureCounter < MaxAttempts
      invariant failureCounter < MaxAttempts
      invariant prevRes == None
      invariant SuccessfulAttempt(first) == FirstSuccessFrom(first, failureCounter)
      invariant calls == StageCalls(0, failureCounter)
    {
      StageCallsNext(0, failureCounter);
      calls := calls + [Call(0, failureCounter)];
      var out := first(failureCounter);
      if out.Some? {
        SucceedsOnAttempt(first, failureCounter);
        prevRes := out;
        failureCounter := 0;
        break;
      }
      failureCounter := failureCounter + 1;
      if failureCounter == MaxAttempts {
        ProducerFails(first, rest);
        return Rejected, calls;
      }
      // here the code waits 2000 ms before the next try
    }
    ghost var v0 := prevRes.value;
    ghost var producerCalls := calls;
    var currRes: Option<V> := None;
    for i := 0 to |rest|
      invariant failureCounter == 0
      invariant Pipeline(v0, rest, i) == prevRes && prevRes.Some?
      invariant currRes == if i == 0 then None else prevRes
      invariant producerCalls == StageCalls(0, AttemptsMade(first))
      invariant calls == PipelineTrace(producerCalls, v0, rest, i)
    {
      ghost var stageCalls := [];
      while failureCounter < MaxAttempts
        invariant failureCounter < MaxAttempts
        invariant SuccessfulAttempt(StageTries(rest[i], prevRes.value)) ==
          FirstSuccessFrom(StageTries(rest[i], prevRes.value), failureCounter)
        invariant stageCalls == StageCalls(i + 1, failureCounter)
      {
        StageCallsNext(i + 1, failureCounter);
        stageCalls := stageCalls + [Call(i + 1, failureCounter)];
        var out := rest[i](prevRes.value, failureCounter);
        if out.Some? {
          StepSucceeds(producerCalls, v0, rest, i, prevRes.value, failureCounter);
          currRes := out;
          break;
        }
        failureCounter := failureCounter + 1;
        if failureCounter == MaxAttempts {
          StepFails(first, rest, v0, i, prevRes.value);
          return Rejected, calls + stageCalls;
        }
        // here the code waits 2000 ms before the next try
      }
      calls := calls + stageCalls;
      failureCounter := 0;
      prevRes := currRes;
    }
    AllSucceed(first, rest, v0, prevRes.value);
    return Resolved(currRes), calls;
  }
}
