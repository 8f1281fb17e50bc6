# Promised store, memoizer, lazy wrappers and retry waterfall

A Dafny model of `part2/src/part2.ts`, a set of small asynchronous and lazy
utilities:

- **Promised store** (`makePromisedStore`): a key-value store whose `get`,
  `set` and `delete` return promises. A missing key makes `get` and `delete`
  reject with the sentinel `MISSING_KEY` (`"___MISSING___"`). The store is
  modelled as the class `Store.PromisedStore`. Its `map` field is private to
  the store. Each promise is modelled as the `Result` it settles to.
- **`getAll`**: one `get` per key, collected by `Promise.all`. `Store.All`
  models `Promise.all`: in input order, all or nothing, and the reason of the
  first rejection. `Store.GetAll` models `getAll` on top of it.
- **`asycMemo`**: the class `Memo.AsyncMemo` holds `f` and its own cache
  store. Two ghost logs record the parameters the memoized function was
  called with (`asked`) and the parameters `f` was run on (`invoked`). The
  class invariant ties both logs to the cache.
- **`lazyFilter` / `lazyMap`**: one pass over a finite generator, modelled as
  the sequence that pass yields.
- **`asyncWaterfallWithRetry`**: `RetryWaterfall.WaterfallWithRetry` keeps
  the source's loops: a `while` loop for the producer, then a `for` loop over
  the later stages, each with an inner `while` loop. One `failureCounter` is
  shared by all of them, as in the source. A stage is an oracle from the try
  number (0, 1 or 2) to `Some(value)` (the stage resolved) or `None` (it
  rejected). A ghost log `calls` records every stage invocation as
  `Call(stage, attempt)`. The method is proved equal to the specification
  functions `Waterfall` (how the promise settles) and `WaterfallTrace` (which
  calls are made). The lemmas in `RetryWaterfallProperties` state what those
  functions guarantee.

One behaviour of the code differs from what the waterfall is meant to do,
and the model follows the code. A waterfall with only the producer is meant
to resolve with the producer's result. The code returns `currRes`, and only the loop
over the later stages assigns it (`part2/src/part2.ts:100-119`). So such a
waterfall resolves with `undefined`. The model gives `Resolved(None)`, and
`ProducerAloneResolvesUndefined` states it.

## Model

| member | source | states |
|---|---|---|
| `Store.Lookup` | part2/src/part2.ts:16-22 | `get` on a map resolves exactly when the key is present, with its stored value; otherwise it rejects with `MISSING_KEY` |
| `Store.PromisedStore.constructor` | part2/src/part2.ts:13-14 | a new store starts with an empty map |
| `Store.PromisedStore.Get` | part2/src/part2.ts:16-23 | resolves with the stored value iff the key is present, else rejects with `MISSING_KEY`; the map is not changed |
| `Store.PromisedStore.Set` | part2/src/part2.ts:24-27 | the new map is the old one with `key` bound to `value`, inserted or overwritten |
| `Store.PromisedStore.Delete` | part2/src/part2.ts:28-30 | resolves iff the key was present, else rejects with `MISSING_KEY`; afterwards the key is absent and every other entry is unchanged |
| `Store.LookupAfterSet` | part2/src/part2.ts:16-27 | after `set(k, v)`, `get(k)` resolves with `v` and `get` of any other key reads as before |
| `Store.SetOverwrites` | part2/src/part2.ts:24-27 | a second `set` on a key replaces the first: the map is as if only the second had happened |
| `Store.LookupAfterDelete` | part2/src/part2.ts:16-30 | after `delete(k)`, `get(k)` rejects with `MISSING_KEY` and `get` of any other key reads as before |
| `Store.All` | part2/src/part2.ts:36-38 | resolves iff every input resolved, with all values in input order; otherwise rejects with the reason of the first rejected input and gives no partial result |
| `Store.GetAll` | part2/src/part2.ts:34-39 | resolves iff every key is present, with a list as long as `keys` whose element `i` is the stored value of `keys[i]`; otherwise rejects with `MISSING_KEY` |
| `Memo.OncePerDistinctParameter` | part2/src/part2.ts:43-57 | if `f` never ran twice on one parameter and ran on exactly the parameters asked, it ran once per distinct parameter |
| `Memo.AsyncMemo.constructor` | part2/src/part2.ts:43-44 | the memoized function starts with a fresh, empty cache, and nothing has been asked or run |
| `Memo.AsyncMemo.Call` | part2/src/part2.ts:45-55 | returns `f(param)`; a cached parameter is answered without running `f`, a new one runs `f` once and caches the result; the cache holds `f`'s result for exactly the parameters asked, and `f` has run once per distinct parameter |
| `Memo.CallTwice` | part2/src/part2.ts:45-55 | two calls on one parameter return the same value, `f(param)`, and `f` runs once |
| `Lazy.LazyFilter` | part2/src/part2.ts:61-71 | yields only elements that pass the filter, each passing element as often as in the input, and no element the input lacks |
| `Lazy.LazyFilterAppend` | part2/src/part2.ts:63-68 | filtering is one in-order pass: the output for `a + b` is the output for `a` followed by the output for `b` |
| `Lazy.LazyMap` | part2/src/part2.ts:73-81 | yields as many elements as the input, element `i` being `mapFn` of input element `i` |
| `RetryWaterfall.FirstSuccessFromIsEarliest` | part2/src/part2.ts:87-98 | the retry loop stops at the earliest successful try, and every try before it failed; none succeeds only if all tries up to the third fail |
| `RetryWaterfall.StageOutcome` | part2/src/part2.ts:107-115 | a stage is called one to three times; it fails iff all three tries fail, and then it was called three times; otherwise its result is that of its last call, and all earlier tries failed |
| `RetryWaterfall.SucceedsOnAttempt` | part2/src/part2.ts:89-91 | a stage whose earlier tries failed and whose try `n` succeeds yields that try's result after `n + 1` calls |
| `RetryWaterfall.FailureStops` | part2/src/part2.ts:112 | once a stage has failed three times, no later stage runs: the result stays a failure and no call is added |
| `RetryWaterfall.ProducerFails` | part2/src/part2.ts:93-94 | a producer that fails three times rejects the waterfall after exactly its three calls |
| `RetryWaterfall.StepFails` | part2/src/part2.ts:112 | a later stage that fails three times rejects the waterfall, and its third try is the last call made |
| `RetryWaterfall.WaterfallWithRetry` | part2/src/part2.ts:84-120 | the loops settle as `Waterfall` says and make exactly the calls `WaterfallTrace` lists |
| `RetryWaterfallProperties.PipelineTraceShape` | part2/src/part2.ts:102-118 | the later stages run in order, each with tries numbered from 0 and below 3; the last call is to the last stage when all succeed, and is a third try when one fails |
| `RetryWaterfallProperties.WaterfallTraceShape` | part2/src/part2.ts:85-118 | every try number is below 3, tries restart at 0 for each stage, stages are called in order, and no stage after the last one called is reached; on resolution the last stage was called; on rejection the last call was a third try |
| `RetryWaterfallProperties.ProducerAloneResolvesUndefined` | part2/src/part2.ts:100-119 | with only the producer, the waterfall resolves with `undefined` after one call, not with the producer's value |
| `RetryWaterfallProperties.RetriedChainExample` | part2/src/part2.ts:84-120 | `() => 1`, `x => x + 1`, `x => x * 2`, with the producer succeeding on its third try, resolves with 4 after five calls; each stage's result is the next stage's input |
| `RetryWaterfallProperties.FailingStageExample` | part2/src/part2.ts:107-115 | a stage that always fails causes a rejection after its three tries, and the stage after it is never called |

## Left out

- The 2000 ms pause between tries (`setTimeout`) is timing only. It is a comment in the loop.
- Promise scheduling is not modelled. Every call runs to completion before the next one starts. So the concurrent `get`s inside `Promise.all` are taken in input order.
- The memoizer race is not modelled. If two overlapping calls on one uncached parameter both miss the cache, `f` runs twice. Calls here are sequential, so this cannot happen.
- Generator mechanics are not modelled. `lazyFilter` and `lazyMap` call `genFn()` once, when they are created, so every use of the returned generator function shares one iterator, which a second pass finds already used up. Infinite generators are not modelled either. Only one pass over a finite sequence is modelled.
- Store.PromisedStore.Get: does not model JavaScript's `undefined` as a stored value. The code tests `value !== undefined`, so a key stored with `undefined` reads as missing. Here the value type has no `undefined`, so every stored key reads as present.
- Memo.AsyncMemo.Call: the code's `catch` takes any rejection from the cache, not only `MISSING_KEY`. The only rejection the store can give is `MISSING_KEY`, so the model catches just that one. `f` is a total, pure Dafny function, so an `f` that throws is not modelled.
- The stages of the waterfall are untyped (`any`) in the code. Here all stages share one value type `V`. The producer and the later stages are passed as `first` and `rest`, not as one tuple `fns`. So the loop's `first` flag, which skips `fns[0]`, becomes a loop over `rest`.
- The outcome of a stage depends only on its input and the try number. A stage whose outcome depends on other state, such as a global call counter, is covered only as far as that state can be written as a function of the try number.
