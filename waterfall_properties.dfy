/**
 * What the waterfall's calls look like: stages run in order, each one's
 * tries counted from 0 and never past the third, and nothing runs after a
 * stage that failed three times.
 */
module RetryWaterfallProperties {
  import opened Wrappers
  import opened RetryWaterfall

  /** `b` may follow `a`: the next try of the same stage, or the first try of the next stage. */
  predicate Follows(a: Call, b: Call) {
    || (b.stage == a.stage && b.attempt == a.attempt + 1)
    || (b.stage == a.stage + 1 && b.attempt == 0)
  }

  /**
   * A trace of the waterfall's shape: it opens with the producer's first
   * try, every try number is below three, and each call follows the one
   * before it.
   */
  predicate WellFormed(t: seq<Call>) {
    && (|t| > 0 ==> t[0] == Call(0, 0))
    && (forall k :: 0 <= k < |t| ==> t[k].attempt < MaxAttempts)
    && (forall k :: 0 < k < |t| ==> Follows(t[k - 1], t[k]))
  }

  /** No call in `t` is to a stage after that of its last call. */
  predicate EndsAtLatestStage(t: seq<Call>)
    requires |t| > 0
  {
    forall k :: 0 <= k < |t| ==> t[k].stage <= t[|t| - 1].stage
  }

  /** The calls of one stage: `Call(stage, 0)` up to `Call(stage, n - 1)`. */
  lemma StageCallsAt(stage: nat, n: nat)
    ensures |StageCalls(stage, n)| == n
    ensures forall k :: 0 <= k < n ==> StageCalls(stage, n)[k] == Call(stage, k)
  {
  }

  /** Appending the one to three calls of the next stage keeps a trace well formed. */
  lemma AppendStage(t: seq<Call>, n: nat)
    requires |t| > 0 && WellFormed(t) && EndsAtLatestStage(t)
    requires 1 <= n <= MaxAttempts
    ensures var u := t + StageCalls(t[|t| - 1].stage + 1, n);
      && WellFormed(u) && EndsAtLatestStage(u)
      && u[|u| - 1] == Call(t[|t| - 1].stage + 1, n - 1)
  {
    var s := t[|t| - 1].stage + 1;
    var u := t + StageCalls(s, n);
    StageCallsAt(s, n);
    assert forall k :: |t| <= k < |u| ==> u[k] == Call(s, k - |t|);
    assert forall k :: 0 < k < |u| ==> Follows(u[k - 1], u[k]) by {
      forall k | 0 < k < |u| ensures Follows(u[k - 1], u[k]) {
        if k < |t| {
          assert u[k - 1] == t[k - 1] && u[k] == t[k];
        } else if k == |t| {
          assert u[k - 1] == t[|t| - 1];
        }
      }
    }
  }

  /**
   * The calls the steps make after a well-formed `before` that ends with
   * the producer: well formed; ending with the last step when all steps
   * succeed, and with a third try when one fails.
   */
  lemma {:induction false} PipelineTraceShape<V>(before: seq<Call>, v0: V, steps: seq<Step<V>>, n: nat)
    requires n <= |steps|
    requires |before| > 0 && WellFormed(before) && EndsAtLatestStage(before) && before[|before| - 1].stage == 0
    ensures var t := PipelineTrace(before, v0, steps, n);
      && |t| > 0 && WellFormed(t) && EndsAtLatestStage(t)
      && (Pipeline(v0, steps, n).Some? ==> t[|t| - 1].stage == n)
      && (Pipeline(v0, steps, n).None? ==> t[|t| - 1].attempt == MaxAttempts - 1 && t[|t| - 1].stage <= n)
  {
    if n > 0 {
      PipelineTraceShape(before, v0, steps, n - 1);
      var t := PipelineTrace(before, v0, steps, n - 1);
      match Pipeline(v0, steps, n - 1)
      case None =>
        assert PipelineTrace(before, v0, steps, n) == t + [];
      case Some(x) =>
        var tries := StageTries(steps[n - 1], x);
        StageOutcome(tries);
        AppendStage(t, AttemptsMade(tries));
    }
  }

  /**
   * The waterfall's calls are well formed and never reach a stage after
   * the last one called. When it resolves, the last call is to the last
   * stage; when it rejects, the last call is the third try of the stage
   * that failed, and no later stage was ever called.
   */
  lemma WaterfallTraceShape<V>(first: Producer<V>, rest: seq<Step<V>>)
    ensures var t := WaterfallTrace(first, rest);
      && |t| > 0 && WellFormed(t) && EndsAtLatestStage(t)
      && t[|t| - 1].stage <= |rest|
      && (Waterfall(first, rest).Resolved? ==> t[|t| - 1].stage == |rest|)
      && (Waterfall(first, rest).Rejected? ==> t[|t| - 1].attempt == MaxAttempts - 1)
  {
    StageOutcome(first);
    var producerCalls := StageCalls(0, AttemptsMade(first));
    StageCallsAt(0, AttemptsMade(first));
    assert WellFormed(producerCalls) by {
      assert forall k :: 0 < k < |producerCalls| ==> Follows(producerCalls[k - 1], producerCalls[k]);
    }
    match RunStage(first)
    case None =>
    case Some(v0) =>
      PipelineTraceShape(producerCalls, v0, rest, |rest|);
  }

  /** A producer that resolves with `v` on every try. */
  function Constant<V>(v: V): Producer<V> {
    (a: nat) => Some(v)
  }

  /** With the producer alone, the waterfall resolves with `undefined`, not with the producer's value. */
  lemma ProducerAloneResolvesUndefined<V>(v: V)
    ensures Waterfall(Constant(v), []) == Resolved(None)
    ensures WaterfallTrace(Constant(v), []) == [Call(0, 0)]
  {
    assert FirstSuccessFrom(Constant(v), 0) == Some(0);
  }

  /** `() => 1`, `x => x + 1`, `x => x * 2`, the producer resolving on its third try: 4 after five calls. */
  lemma RetriedChainExample()
    ensures var first: Producer<int> := (a: nat) => if a < 2 then None else Some(1);
      var rest: seq<Step<int>> := [(x: int, a: nat) => Some(x + 1), (x: int, a: nat) => Some(x * 2)];
      && Waterfall(first, rest) == Resolved(Some(4))
      && WaterfallTrace(first, rest) == [Call(0, 0), Call(0, 1), Call(0, 2), Call(1, 0), Call(2, 0)]
  {
    var first: Producer<int> := (a: nat) => if a < 2 then None else Some(1);
    var rest: seq<Step<int>> := [(x: int, a: nat) => Some(x + 1), (x: int, a: nat) => Some(x * 2)];
    assert FirstSuccessFrom(first, 2) == Some(2);
    assert FirstSuccessFrom(first, 0) == Some(2);
    assert FirstSuccessFrom(StageTries(rest[0], 1), 0) == Some(0);
    assert Pipeline(1, rest, 1) == Some(2);
    assert FirstSuccessFrom(StageTries(rest[1], 2), 0) == Some(0);
    assert Pipeline(1, rest, 2) == Some(4);
    var before := StageCalls(0, 3);
    assert before == [Call(0, 0), Call(0, 1), Call(0, 2)];
    assert PipelineTrace(before, 1, rest, 1) == before + [Call(1, 0)];
  }

  /** A middle stage that always fails: rejection after its third try, and the last stage is never called. */
  lemma FailingStageExample()
    ensures var rest: seq<Step<int>> := [(x: int, a: nat) => None, (x: int, a: nat) => Some(x * 2)];
      && Waterfall(Constant(1), rest) == Rejected
      && WaterfallTrace(Constant(1), rest) == [Call(0, 0), Call(1, 0), Call(1, 1), Call(1, 2)]
  {
    var rest: seq<Step<int>> := [(x: int, a: nat) => None, (x: int, a: nat) => Some(x * 2)];
    assert FirstSuccessFrom(Constant(1), 0) == Some(0);
    var tries := StageTries(rest[0], 1);
    assert FirstSuccessFrom(tries, 2) == None;
    assert FirstSuccessFrom(tries, 0) == None;
    assert Pipeline(1, rest, 1) == None;
    var before := StageCalls(0, 1);
    assert before == [Call(0, 0)];
    assert StageCalls(1, 3) == [Call(1, 0), Call(1, 1), Call(1, 2)];
    assert PipelineTrace(before, 1, rest, 2) == PipelineTrace(before, 1, rest, 1) + [];
  }
}
