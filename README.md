# esx indexing core in Dafny

A model of the two parts of `esx index` that hold the logic: the adaptive
sampling throttle (`cmd/esx/throttle.go`) and the indexing pipeline rules
(`cmd/esx/index.go`).

The throttle keeps a FIFO window of the last `windowSize` batch durations. It
fits an ordinary least-squares line `y = m·x + b` over the points
`(i, samples[i])`. It turns the line's prediction one step past the window into
a backoff of `factor · pred² / limit`, clamped at zero. A worker is meant to
wait that long before each bulk call; as written, `Wait` hands the timer a
zero delay instead (see Findings). The model's worker runs behind either gate:
`Wait` as written, or the corrected `Gate`, which waits for the backoff. The
pipeline has three parts:

- a producer, which cuts the decoded document stream into numbered batches of
  `batchSize` documents;
- `indexBatch`, which builds one bulk action per document and classifies the
  reply;
- `indexWorker`, which passes the throttle's gate, indexes a batch, records every
  attempt's duration, and retries a failed batch at most `numRetries` times.

Everything runs one step at a time, and the collaborators are replaced by
inputs:

- the decoder is a sequence of documents followed by how the stream ends;
- the bulk endpoint is an oracle `call(j, r)` that gives the reply and the
  elapsed time for attempt `r` of the `j`-th batch taken;
- cancellation is an oracle: whether the worker sees the context cancelled
  when it selects on the `j`-th batch, and whether the producer sees it while
  the queue is full with batch `k`;
- the work queue is the sequence of batches the producer emits, and the
  worker's input is a sequence of batches.

Durations and times are Dafny `real` seconds.

Modules:

- `Wrappers`: `Option` and `Result`.
- `Regression`: sums, means and the least-squares line, with its algebra. It
  holds what `computeOLS` computes, stated as functions of the window.
- `Throttle`:
  - the `SamplingThrottle` class, with the fields `limit`, `windowSize`,
    `backoffFactor` and `samples`;
  - its options and constructor, `Collect`, `ComputeOLS`, `ComputeBackoff`,
    and `Wait` as written;
  - the corrected gate `Gate`;
  - `computeAvg`.
- `Documents`: JSON documents, `Batch`, and the bulk actions and replies.
  `StripReserved` and `IndexBatch` are the loops of `indexBatch`. `Requests`
  and `BatchOutcome` state what those loops compute.
- `Producer`:
  - the `producer` loop `RunProducer`;
  - the function `ProduceFrom`, which specifies it;
  - a closed form of `ProduceFrom` (the runs of `Chunks`, cut short at a
    cancellation or a decode error), proved equal to it.
- `Worker`:
  - the loops of `indexWorker` (`IndexWorker`, `RunWorker`, `IndexNext`,
    `IndexWithRetries`), behind the gate `PassGate`, which is `Wait` as
    written or the corrected `Gate`;
  - the functions `RunFrom` and `Retries`, which specify them, and the trace
    of events (`Gated(delay)` and `Tried(batch, attempt, outcome)`) they
    produce;
  - lemmas about that trace.

Three behaviours of the code that a reader might not expect; the model follows
the code in each:

- The code retries every error `indexBatch` returns. That includes the
  missing-ID error of upsert mode, which fails the same way on every retry,
  although only transport and per-document failures can succeed on a retry.
- The worker takes a batch from the queue before it selects between
  cancellation and the throttle. Cancellation is therefore seen with a batch
  in hand, and that batch is dropped.
- Every bulk call is meant to wait for the computed backoff (the warning at
  cmd/esx/throttle.go:106 and the comment at cmd/esx/index.go:104). As
  written, `Wait` always waits zero (see Findings). Both gates are modelled,
  and the worker can be run behind either.

## Model

| member | source | states |
|---|---|---|
| Throttle.ApplyOpts | cmd/esx/throttle.go:26-28 | the options applied one after another, first to last, each as `ApplyOpt` says; the partner lemmas are the three `Last*Wins` below |
| Throttle.SamplingThrottle.constructor | cmd/esx/throttle.go:19-30 | the fields start at limit 30 s, window 10, factor 1.0 with an empty window, then every option is applied in order |
| Throttle.SamplingThrottle.Apply | cmd/esx/throttle.go:32-48 | one option closure changes only its own field (`SetLimit`, `SetWindowSize`, `SetBackoffFactor`) and leaves the window as it was |
| Throttle.LastLimitWins | cmd/esx/throttle.go:26-28 | after the options the limit is the value of the last `SetLimit`, or the starting limit if there is none |
| Throttle.LastWindowSizeWins | cmd/esx/throttle.go:26-28 | the window size is the value of the last `SetWindowSize`, or the starting one if there is none |
| Throttle.LastBackoffFactorWins | cmd/esx/throttle.go:26-28 | the factor is the value of the last `SetBackoffFactor`, or the starting one if there is none |
| Throttle.CollectStep | cmd/esx/throttle.go:53-57 | the window after one `Collect`: without its oldest sample when it holds exactly `windowSize` samples, then with the duration appended; the partner lemmas are `CollectStepBounded`, `CollectStepTrailing` and `WindowHoldsLast` |
| Throttle.SamplingThrottle.Collect | cmd/esx/throttle.go:50-58 | the new window is the old one without its oldest sample if it was full, with the duration appended; the window bound `|samples| <= windowSize` is preserved |
| Throttle.CollectStepBounded | cmd/esx/throttle.go:53-57 | for a positive window size a window within the bound stays within it; a window that is not full is only appended to; a full one loses exactly its oldest sample; the new duration is last |
| Throttle.CollectStepTrailing | cmd/esx/throttle.go:53-57 | a window holding the last w values of a stream holds, after one more `Collect`, the last w values of the longer stream |
| Throttle.WindowHoldsLast | cmd/esx/throttle_test.go:76-80 | after collecting any sequence of durations into an empty window of size w >= 1, the window is the last w of them (all of them while fewer), oldest first |
| Throttle.ComputeAvg | cmd/esx/throttle.go:112-120 | the loop's running sum divided by the length is the mean of the values |
| Throttle.SamplingThrottle.ComputeOLS | cmd/esx/throttle.go:60-80 | not ready and (0, 0) while fewer than `windowSize` samples are held; otherwise ready, with the least-squares slope and intercept of the window; the window is not changed |
| Throttle.FitFromSums | cmd/esx/throttle.go:68-76 | the two accumulated sums over the centred indices give a positive denominator, and the quotient and `yavg - m·xavg` are the least-squares slope and intercept |
| Regression.Slope | cmd/esx/throttle.go:64-75 | the least-squares slope Σ(i - x̄)(y_i - ȳ) / Σ(i - x̄)² over the points (i, ys[i]), defined for at least two points; its partner lemmas are `LinearFit` and `FitResidualsSumToZero` |
| Regression.Intercept | cmd/esx/throttle.go:76 | the intercept ȳ - m·x̄ of the line of that slope through the mean point |
| Regression.SumIndices | cmd/esx/throttle.go:64-68 | the indices 0 .. n-1 sum to n(n-1)/2 |
| Regression.MeanIndices | cmd/esx/throttle.go:64-68 | so their mean `xavg` is (n-1)/2 |
| Regression.SqDevPositive | cmd/esx/throttle.go:70-75 | with at least two samples the denominator Σ(i - x̄)² is strictly positive, so the slope is defined |
| Regression.SinglePointDegenerate | cmd/esx/throttle.go:70-75 | with a single sample the denominator is 0, so a window size of 1 gives no fit |
| Regression.SqDevMonotone | cmd/esx/throttle.go:73 | the denominator never shrinks as terms are added |
| Regression.LinearFit | cmd/esx/throttle.go:60-78 | for exactly linear samples y_i = m·i + b the fitted slope is m and the intercept is b, exactly |
| Regression.FitDefinition | cmd/esx/throttle.go:70-75 | the slope is the cross sum over the positive square sum |
| Regression.MeanOnLine | cmd/esx/throttle.go:68-69 | the mean of linear samples lies on the line at the mean index |
| Regression.CrossOnLine | cmd/esx/throttle.go:70-74 | for linear samples the numerator is m times the denominator at every prefix |
| Regression.ResidualSumSplit | cmd/esx/throttle.go:76 | the sum of residuals of the first k samples is Σy - m·Σx - k·b |
| Regression.FitResidualsSumToZero | cmd/esx/throttle.go:75-76 | the residuals of the fitted line over the window sum to zero, because the line passes through (x̄, ȳ) |
| Regression.CentredLineResiduals | cmd/esx/throttle.go:76 | any slope with the intercept `yavg - m·xavg` has residuals summing to zero |
| Throttle.FitCollectedLine | cmd/esx/throttle_test.go:24-60 | a throttle with window `size` >= 2 that collects `size` durations on y = m·x + b reports a ready fit with exactly that slope and intercept |
| Throttle.SamplingThrottle.ComputeBackoff | cmd/esx/throttle.go:82-93 | the prediction is the line at x = `|samples|`, and the backoff is `Backoff` of that prediction |
| Throttle.Backoff | cmd/esx/throttle.go:87-91 | the backoff is never negative; it is positive exactly when factor·pred²/limit is, and then equals it |
| Throttle.BackoffAtZero | cmd/esx/throttle.go:85-91 | a zero prediction gives a zero backoff |
| Throttle.BackoffMonotone | cmd/esx/throttle.go:85-91 | for a positive limit and a non-negative factor the backoff does not decrease as \|pred\| grows |
| Throttle.GateDelay | cmd/esx/throttle.go:99-107 | the intended gate delay is never negative and is zero while the window is not full |
| Throttle.GateOnLinearWindow | cmd/esx/throttle.go:82-107 | on a full window of linear durations the delay is the backoff for m·W + b, the line one step past the window |
| Throttle.SamplingThrottle.Wait | cmd/esx/throttle.go:95-110 | as written, the delay handed to the timer is always 0, and the window is not changed |
| Throttle.ShadowedBackoffIsPositive | cmd/esx/throttle.go:99-109 | a window of two 1 s batches with the defaults has a computed backoff of 1/30 s, which `Wait` does not impose |
| Throttle.SamplingThrottle.Gate | cmd/esx/throttle.go:95-110 | the corrected gate: its delay is `GateDelay` of the window, which is the computed backoff once the window is full; the window is not changed |
| Documents.Stripped | cmd/esx/index.go:37-43 | the copy has exactly the original's keys that do not start with `_`, with the same values |
| Documents.StripReserved | cmd/esx/index.go:37-43 | the key-by-key copy loop builds `Stripped(doc)`; the original document is a value and is not changed |
| Documents.FirstMissing | cmd/esx/index.go:29-34 | the index of the first document whose ID field is absent or null: all before it have an ID |
| Documents.RequestFor | cmd/esx/index.go:44-63 | the bulk action for one document: in upsert mode an update-as-upsert with the formatted ID and the stripped copy; in index mode an index action with the stripped copy, carrying the document's string ID only when one is present |
| Documents.Requests | cmd/esx/index.go:29-65 | in upsert mode a document without ID fails the batch with the first such document; otherwise one request per document in order, with the stripped document, the formatted ID in upsert mode, and the string ID only when present in index mode |
| Documents.BatchOutcome | cmd/esx/index.go:20-84 | no error exactly when every request could be built and the reply lists no failures; a missing ID gives duration 0 before any call; otherwise the measured duration, with the per-document failures when there are any |
| Documents.IndexBatch | cmd/esx/index.go:20-84 | the loop returns `BatchOutcome`; the bulk call receives exactly the built requests, and is not made when a request could not be built |
| Producer.ChunksCount | cmd/esx/index.go:133-159 | D documents in batches of S >= 1 form D / S batches, plus one when D mod S > 0 |
| Producer.ChunkSizes | cmd/esx/index.go:133-159 | ⌈D/S⌉ batches, every one of S documents except the last, which has D mod S (or S when that is 0) |
| Producer.ChunkAt | cmd/esx/index.go:133-141 | batch i holds the documents i·S up to (i+1)·S, or to the end |
| Producer.ChunksNonEmpty | cmd/esx/index.go:134-159 | no batch is empty |
| Producer.ChunksFlatten | cmd/esx/index.go:133-159 | the batches concatenated in order are the input documents |
| Producer.ProduceFrom | cmd/esx/index.go:124-160 | the producer from batch ID k on: a full batch of `size` documents is handed over unless cancellation is seen; with fewer left, a decode error returns at once and end of input flushes a non-empty tail; its partner is the closed form of `ProduceClosedForm` |
| Producer.ProduceFromPrefix | cmd/esx/index.go:121-161 | whatever the producer emits is a prefix of the numbered batches, and the only error it returns is the decode error |
| Producer.ProduceClosedForm | cmd/esx/index.go:121-161 | the step-by-step producer equals its closed form |
| Producer.ProduceCompleteStream | cmd/esx/index.go:121-161 | with no cancellation while reading to the end, every batch is emitted with IDs 0, 1, 2, …, none empty, together the input in order |
| Producer.ProduceNoEmptyBatch | cmd/esx/index.go:134-159 | in every case no emitted batch is empty, and the i-th emitted batch has ID i |
| Producer.ProduceUnsized | cmd/esx/index.go:133-134 | a batch size below 1 never completes a batch, so all documents go into one flushed batch with ID 0 |
| Producer.ProduceDecodeError | cmd/esx/index.go:130-132 | a decode error is returned at once; exactly the D / S batches that filled up were emitted, and the partial batch is dropped |
| Producer.ProduceCancelled | cmd/esx/index.go:144-150 | cancellation seen while handing over full batch k returns no error and emits only the k batches before it |
| Producer.TwoHundredFiftyDocuments | cmd/esx/index.go:133-159 | 250 documents in batches of 100 are emitted as batches of 100, 100 and 50 |
| Producer.HandOver | cmd/esx/index.go:134-143 | handing over a full batch appends it to the emitted batches and starts the next ID |
| Producer.HandOverCancelled | cmd/esx/index.go:144-150 | cancellation seen at a full batch ends the producer with the batches emitted so far |
| Producer.EndOfInput | cmd/esx/index.go:127-132 | with fewer than S documents left the producer stops with the decode error, or flushes a non-empty tail |
| Producer.RunProducer | cmd/esx/index.go:118-161 | the producer loop returns and emits what `Produce` says |
| Worker.Retries | cmd/esx/index.go:95-112 | the retry loop from attempt `retry` on: attempt and collect the duration; stop on success; on failure pass the gate and retry while `retry < numRetries`, else give up with the error; its partners are the `Retries*` lemmas below |
| Worker.RunFrom | cmd/esx/index.go:89-115 | the worker loop from the j-th batch on: pass the gate, stop with no error on cancellation, stop with the error of a batch that used up its retries, or go on; no error once the queue is drained; its partners are the `RunFrom*` lemmas below |
| Worker.RetriesCount | cmd/esx/index.go:95-111 | a batch is attempted at least once and at most max(numRetries, 0) + 1 times, and exactly that often when it fails for good |
| Worker.RetriesNumbered | cmd/esx/index.go:95-101 | attempt i of a batch is numbered i and has the outcome of that call |
| Worker.RetriesStopAtSuccess | cmd/esx/index.go:99-111 | every attempt but the last failed, and the loop returns the last attempt's error, or none when it succeeded |
| Worker.RetriesCollect | cmd/esx/index.go:97-98 | the window after the retry loop is the old one with one `Collect` per attempt, in order |
| Worker.RetriesGated | cmd/esx/index.go:104-105 | every retry comes right after a pass through the gate |
| Worker.RetriesBounded | cmd/esx/index.go:100-101 | no attempt is numbered past max(numRetries, retry) |
| Worker.RetriesLast | cmd/esx/index.go:106-108 | a retry loop that gives up ends with its attempt numbered max(numRetries, retry), carrying the error returned |
| Worker.RunFromCollect | cmd/esx/index.go:89-113 | over all batches, the window is the old one with one `Collect` per attempt of any batch, success or failure, in order |
| Worker.RunFromGated | cmd/esx/index.go:90-105 | every attempt, first or retry, comes right after a pass through the gate |
| Worker.RunFromBounded | cmd/esx/index.go:95-108 | no attempt of any batch is numbered past max(numRetries, 0) |
| Worker.RunFromError | cmd/esx/index.go:106-108 | a worker that returns an error stops right after that batch's last attempt: no further batch is taken, and the attempt is numbered max(numRetries, 0) and carries the error returned |
| Worker.PassGate | cmd/esx/index.go:94 | one pass through the gate: `Wait` as written (delay 0) or the corrected `Gate` (`GateDelay` of the window), as the throttle model says |
| Worker.IndexWithRetries | cmd/esx/index.go:95-112 | the retry loop returns the error and appends the attempts and gate passes that `Retries` says, from the window before it |
| Worker.IndexNext | cmd/esx/index.go:89-113 | one turn of the outer loop: the gate, then a quiet stop on cancellation, a stop with the error of a batch that used up its retries, or on to the next batch, as `RunFrom` says |
| Worker.RunWorker | cmd/esx/index.go:86-116 | the worker loop returns, leaves the window and traces what `RunFrom` says for any throttle and bulk calls it is given a model of |
| Worker.IndexWorker | cmd/esx/index.go:86-116 | `indexWorker` behind either gate returns what `RunFrom` says; the window is the old one with every attempt's duration collected in order; every attempt follows a gate pass; no attempt is numbered past max(numRetries, 0) |

## Left out

- Concurrency: `doIndex` (cmd/esx/index.go:163-199). This covers the error group, the shared cancellation, the N workers sharing the throttle and the queue, and the throttle's mutex. The model runs one worker against one throttle, one step at a time.
- The `select` in `indexWorker` between `ctx.Done()` and the throttle timer is a race. It is modelled as the oracle `cancelled(j)`.
- The bounded queue and the producer's non-blocking send, polled every `queueFullWait`: the producer's output is the sequence of batches emitted. Whether cancellation wins while the queue is full with batch k is the oracle `cancelledAt(k)`. A batch is emitted when that oracle says no, so how long the queue stays full is not modelled.
- Timers, clocks and I/O: `time.After`, `time.Now`/`time.Since`, the per-call timeout, JSON decoding of standard input, the Elasticsearch bulk client, and logging. These become the gate's delay value, the oracle's elapsed time, and the input and output sequences.
- `float64` rounding and the `time.Duration` conversions. The model uses exact `real` arithmetic, in particular for the truncation of the backoff to whole nanoseconds at cmd/esx/throttle.go:90 and 92.
- The flag `indexPartial` read at cmd/esx/index.go:31 and 45 is not declared in the files of this model (cmd/esx/main.go declares `--index-action`, "index" or "update"). The model stands for its two values with `WriteMode`: `IndexMode` and `UpsertMode`.
- `SetHWM` (cmd/esx/index.go:170) is not defined in cmd/esx/throttle.go and is not part of this model.
- `cmd/esx/main.go`, `cmd/esx/scroll.go` and `cmd/esx/progress.go`: CLI flags, the scroll export and the progress bar.
- Throttle.SamplingThrottle.Collect: requires a non-zero window size. With window size 0, the source slices an empty slice at 1 and panics.
- Throttle.SamplingThrottle.ComputeOLS: requires that a full window has at least two samples. With a window size below 2, the source divides 0 by 0 and gets NaN, which `real` cannot represent.
- Throttle.GateDelay: same restriction as `ComputeOLS`, and it also requires a non-zero limit. A zero limit divides by zero in the source.
- Throttle.SamplingThrottle.ComputeBackoff: requires a non-zero limit. With a zero limit the source's `pred*pred/limit` is an infinity or NaN, which `real` cannot represent.
- Throttle.SamplingThrottle.Gate: requires a fit that is defined and a non-zero limit, as `ComputeOLS` and `ComputeBackoff` do. The NaN or infinite delay the corrected gate would compute otherwise is not modelled.
- Throttle.SamplingThrottle.Wait: in a state where its fit or backoff divides by zero (a full window of one sample, reachable with `--throttle-window-size 1`, or a zero limit), the model does not compute the NaN or infinity that the source stores in the shadowed variable. The delay, 0, is the same as the source's.
- Worker.IndexWorker: requires a non-zero window size, which `Collect` needs; behind the corrected gate also a window size of at least 2 and a non-zero limit. The NaN and infinity cases above are not modelled.
- Worker.IndexWorker: the ID requirement of `IndexBatch` holds for every batch.
- Documents.IndexBatch: requires that every present ID in index mode is a JSON string. Any other value panics in the source at the `docId.(string)` assertion (cmd/esx/index.go:61).
- Documents.Requests: the upsert ID is `fmt.Sprintf("%v", id)`, which is a parameter `format` of the model.
- Error messages are not modelled: they are formatted text. The model keeps the error kinds instead: missing ID with the document, transport error with message, failed documents.

## Findings

| source | as written | input that shows it | evidently intended | confidence | as-written member | corrected member |
|---|---|---|---|---|---|---|
| cmd/esx/throttle.go:99-109 | `pred, backoff := s.computeBackoff(m, b)` declares a new `backoff` inside the `if`. So `time.After(backoff)` receives the outer variable, which is always zero, and `Wait` never delays. | A throttle with window size 2, the default limit of 30 s and factor 1.0, after two 1 s batches. The computed backoff is 1/30 s, but `Wait` waits 0 s. | `Wait` waits for the computed backoff once the window is full. | high; not executed | Throttle.SamplingThrottle.Wait, Throttle.ShadowedBackoffIsPositive | Throttle.SamplingThrottle.Gate |
