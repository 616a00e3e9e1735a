/**
 * The index worker of cmd/esx/index.go (`indexWorker`): for each batch taken
 * from the queue it passes the throttle's gate, then indexes the batch,
 * recording every attempt's duration in the throttle and retrying a failed
 * batch at most `numRetries` times, passing the gate again before each retry.
 * The queue is the sequence of batches; the bulk call's reply for attempt r
 * of the j-th batch taken is the oracle `call(j, r)`; whether the worker sees
 * the context cancelled when it selects on the j-th batch is `cancelled(j)`.
 */
module Worker {
  import opened Wrappers
  import opened Documents
  import opened Throttle

  /** One thing the worker does that the model keeps track of. */
  datatype Event =
    | Gated(delay: real)
    | Tried(batchId: int, attempt: nat, outcome: Attempt)

  /**
   * The worker's inputs besides the throttle and the queue: the retry bound,
   * whether cancellation wins the select on the j-th batch, and what
   * `indexBatch` returns for attempt r of the j-th batch.
   */
  datatype Env = Env(numRetries: int, cancelled: nat -> bool, outcome: (nat, nat) -> Attempt)

  /** How batches are written: the mode, the ID field, the ID formatter and the bulk call's replies. */
  datatype Client = Client(mode: WriteMode, field: string, format: Json -> string, call: (nat, nat) -> BulkCall)

  /** The return value, the window of the throttle afterwards and the events, in order. */
  datatype Run = Run(err: Option<IndexError>, samples: seq<real>, trace: seq<Event>)

  /** The events `before`, followed by what the run goes on to do. */
  function Then(before: seq<Event>, r: Run): Run
  {
    Run(r.err, r.samples, before + r.trace)
  }

  /** The gate the worker passes: `SamplingThrottle.Wait` as written, or the corrected `SamplingThrottle.Gate`. */
  datatype Gating = AsWritten | Corrected

  /**
   * The throttle settings the worker can run with behind gate g: `Collect`
   * needs a non-zero window size, and the corrected gate a window that can
   * be fitted and a usable limit.
   */
  predicate Runnable(st: Settings, g: Gating)
  {
    st.windowSize != 0 && (g.Corrected? ==> st.windowSize >= 2 && st.limit != 0.0)
  }

  /**
   * What the worker's loops need of the throttle: the window after one
   * `Collect`, and the delay the gate imposes for a window.
   */
  datatype Throttling = Throttling(collect: (seq<real>, real) -> seq<real>, delay: seq<real> -> real)

  /** The throttle with the given settings behind gate g. */
  function ThrottlingOf(st: Settings, g: Gating): (th: Throttling)
    requires Runnable(st, g)
    ensures forall s, t :: th.collect(s, t) == CollectStep(s, st.windowSize, t)
    ensures g.AsWritten? ==> forall s :: th.delay(s) == 0.0
    ensures g.Corrected? ==> forall s :: th.delay(s) == GateDelay(s, st.windowSize, st.limit, st.backoffFactor)
  {
    Throttling((s, t) => CollectStep(s, st.windowSize, t),
               if g.AsWritten? then s => 0.0
               else s => if (|s| >= st.windowSize ==> |s| >= 2) && st.limit != 0.0
                         then GateDelay(s, st.windowSize, st.limit, st.backoffFactor) else 0.0)
  }

  /** The window after collecting ts, in order, starting from `samples`. */
  function Collected(th: Throttling, samples: seq<real>, ts: seq<real>): seq<real>
  {
    if ts == [] then samples
    else th.collect(Collected(th, samples, ts[..|ts| - 1]), ts[|ts| - 1])
  }

  /** For a real throttle this is `CollectAll`. */
  lemma {:induction false} CollectedIsCollectAll(st: Settings, g: Gating, samples: seq<real>, ts: seq<real>)
    requires Runnable(st, g)
    ensures Collected(ThrottlingOf(st, g), samples, ts) == CollectAll(samples, st.windowSize, ts)
  {
    if ts != [] {
      CollectedIsCollectAll(st, g, samples, ts[..|ts| - 1]);
    }
  }

  /** Every batch has IDs that `indexBatch` can use. */
  predicate AllUsable(batches: seq<Batch>, client: Client)
  {
    forall j :: 0 <= j < |batches| ==> IdsUsable(batches[j].docs, client.mode, client.field)
  }

  function Max(a: int, b: int): int
  {
    if a >= b then a else b
  }

  /** What `indexBatch` returns for attempt r of the j-th batch. */
  function OutcomesOf(batches: seq<Batch>, client: Client): (f: (nat, nat) -> Attempt)
    requires AllUsable(batches, client)
    ensures forall j: nat, r: nat :: j < |batches| ==>
              f(j, r) == BatchOutcome(batches[j], client.mode, client.field, client.format, client.call(j, r))
  {
    (j: nat, r: nat) => if j < |batches| then BatchOutcome(batches[j], client.mode, client.field, client.format, client.call(j, r))
              else Attempt(0.0, None)
  }

  /**
   * The inner retry loop from attempt `retry` on: attempt, record the
   * duration; on success stop, on failure retry behind the gate while
   * `retry < numRetries`, and otherwise give up with the error.
   */
  function Retries(th: Throttling, samples: seq<real>, batch: Batch, j: nat, env: Env, retry: nat): Run
    decreases if retry < env.numRetries then env.numRetries - retry else 0
  {
    var out := env.outcome(j, retry);
    var next := th.collect(samples, out.duration);
    var tried := [Tried(batch.id, retry, out)];
    if out.err.None? then Run(None, next, tried)
    else if retry < env.numRetries then
      Then(tried + [Gated(th.delay(next))], Retries(th, next, batch, j, env, retry + 1))
    else Run(out.err, next, tried)
  }

  /**
   * The outer loop from the j-th batch on: pass the gate, stop quietly on
   * cancellation, stop with the error of a batch that used up its retries,
   * and otherwise go on with the next batch.
   */
  function RunFrom(th: Throttling, samples: seq<real>, batches: seq<Batch>, env: Env, j: nat): Run
    requires j <= |batches|
    decreases |batches| - j
  {
    if j == |batches| then Run(None, samples, [])
    else
      var gate := [Gated(th.delay(samples))];
      if env.cancelled(j) then Run(None, samples, gate)
      else
        var b := Retries(th, samples, batches[j], j, env, 0);
        if b.err.Some? then Then(gate, b)
        else Then(gate + b.trace, RunFrom(th, b.samples, batches, env, j + 1))
  }

  // ---------------------------------------------------------------------------
  // Views of a trace

  /** The attempts in a trace, in order. */
  function Tries(t: seq<Event>): (r: seq<Event>)
    ensures forall i :: 0 <= i < |r| ==> r[i].Tried?
  {
    if t == [] then [] else (if t[0].Tried? then [t[0]] else []) + Tries(t[1..])
  }

  /** The durations handed to `Collect`, one per attempt, in order. */
  function Durations(t: seq<Event>): (r: seq<real>)
    ensures |r| == |Tries(t)|
  {
    if t == [] then [] else (if t[0].Tried? then [t[0].outcome.duration] else []) + Durations(t[1..])
  }

  /** Every attempt comes right after a pass through the gate. */
  ghost predicate EachTryGated(t: seq<Event>)
  {
    forall i :: 0 <= i < |t| && t[i].Tried? ==> i > 0 && t[i - 1].Gated?
  }

  lemma {:induction false} TriesAppend(a: seq<Event>, b: seq<Event>)
    ensures Tries(a + b) == Tries(a) + Tries(b)
    ensures Durations(a + b) == Durations(a) + Durations(b)
    decreases |a|
  {
    if a == [] {
      assert a + b == b;
    } else {
      TriesAppend(a[1..], b);
      assert (a + b)[0] == a[0];
      assert (a + b)[1..] == a[1..] + b;
      var h := if a[0].Tried? then [a[0]] else [];
      var hd := if a[0].Tried? then [a[0].outcome.duration] else [];
      assert Tries(a + b) == h + (Tries(a[1..]) + Tries(b));
      assert h + (Tries(a[1..]) + Tries(b)) == (h + Tries(a[1..])) + Tries(b);
      assert Durations(a + b) == hd + (Durations(a[1..]) + Durations(b));
      assert hd + (Durations(a[1..]) + Durations(b)) == (hd + Durations(a[1..])) + Durations(b);
    }
  }

  lemma {:induction false} CollectedAppend(th: Throttling, s: seq<real>, a: seq<real>, b: seq<real>)
    ensures Collected(th, s, a + b) == Collected(th, Collected(th, s, a), b)
    decreases |b|
  {
    if b == [] {
      assert a + b == a;
    } else {
      assert (a + b)[..|a + b| - 1] == a + b[..|b| - 1];
      assert (a + b)[|a + b| - 1] == b[|b| - 1];
      CollectedAppend(th, s, a, b[..|b| - 1]);
    }
  }

  lemma GatedAppend(a: seq<Event>, b: seq<Event>)
    requires EachTryGated(a) && EachTryGated(b)
    ensures EachTryGated(a + b)
  {
    forall i | 0 <= i < |a + b| && (a + b)[i].Tried?
      ensures i > 0 && (a + b)[i - 1].Gated?
    {
      if i >= |a| {
        assert (a + b)[i] == b[i - |a|];
        if i > |a| {
          assert (a + b)[i - 1] == b[i - 1 - |a|];
        }
      }
    }
  }

  // ---------------------------------------------------------------------------
  // The retry loop

  /** The attempts of the retry loop: the first one, then those of the retries. */
  lemma TriesOfRetries(th: Throttling, samples: seq<real>, batch: Batch, j: nat, env: Env, retry: nat)
    ensures var out := env.outcome(j, retry);
            var next := th.collect(samples, out.duration);
            Tries(Retries(th, samples, batch, j, env, retry).trace)
            == [Tried(batch.id, retry, out)]
               + if out.err.Some? && retry < env.numRetries then Tries(Retries(th, next, batch, j, env, retry + 1).trace)
                 else []
  {
    var out := env.outcome(j, retry);
    var next := th.collect(samples, out.duration);
    var tried := [Tried(batch.id, retry, out)];
    assert Tries(tried) == tried by {
      assert tried[1..] == [];
    }
    if out.err.Some? && retry < env.numRetries {
      var gate := [Gated(th.delay(next))];
      assert Tries(gate) == [] by {
        assert gate[1..] == [];
      }
      TriesAppend(tried, gate);
      TriesAppend(tried + gate, Retries(th, next, batch, j, env, retry + 1).trace);
    }
  }

  /**
   * The retry loop from attempt `retry` on makes at least one and at most
   * max(numRetries - retry, 0) + 1 attempts, and all of them when it gives up.
   */
  lemma {:induction false} RetriesCount(th: Throttling, samples: seq<real>, batch: Batch, j: nat, env: Env, retry: nat)
    ensures var r := Retries(th, samples, batch, j, env, retry);
            1 <= |Tries(r.trace)| <= Max(env.numRetries - retry, 0) + 1
            && (r.err.Some? ==> |Tries(r.trace)| == Max(env.numRetries - retry, 0) + 1)
    decreases if retry < env.numRetries then env.numRetries - retry else 0
  {
    var out := env.outcome(j, retry);
    TriesOfRetries(th, samples, batch, j, env, retry);
    if out.err.Some? && retry < env.numRetries {
      RetriesCount(th, th.collect(samples, out.duration), batch, j, env, retry + 1);
    }
  }

  /** Attempt i of the loop is numbered retry + i and has the outcome of that call. */
  lemma {:induction false} RetriesNumbered(th: Throttling, samples: seq<real>, batch: Batch, j: nat, env: Env, retry: nat)
    ensures var ts := Tries(Retries(th, samples, batch, j, env, retry).trace);
            forall i :: 0 <= i < |ts| ==> ts[i] == Tried(batch.id, retry + i, env.outcome(j, retry + i))
    decreases if retry < env.numRetries then env.numRetries - retry else 0
  {
    var out := env.outcome(j, retry);
    var next := th.collect(samples, out.duration);
    TriesOfRetries(th, samples, batch, j, env, retry);
    if out.err.Some? && retry < env.numRetries {
      RetriesNumbered(th, next, batch, j, env, retry + 1);
      var ts, ts' := Tries(Retries(th, samples, batch, j, env, retry).trace),
                     Tries(Retries(th, next, batch, j, env, retry + 1).trace);
      forall i | 0 < i < |ts|
        ensures ts[i] == Tried(batch.id, retry + i, env.outcome(j, retry + i))
      {
        assert ts[i] == ts'[i - 1];
      }
    }
  }

  /**
   * Retrying stops at the first success: every attempt but the last failed,
   * and the loop returns the last attempt's error, none when it succeeded.
   */
  lemma {:induction false} RetriesStopAtSuccess(th: Throttling, samples: seq<real>, batch: Batch, j: nat, env: Env,
                                                retry: nat)
    ensures var r := Retries(th, samples, batch, j, env, retry);
            var ts := Tries(r.trace);
            |ts| > 0 && (forall i :: 0 <= i < |ts| - 1 ==> ts[i].outcome.err.Some?)
            && r.err == ts[|ts| - 1].outcome.err
    decreases if retry < env.numRetries then env.numRetries - retry else 0
  {
    var out := env.outcome(j, retry);
    var next := th.collect(samples, out.duration);
    TriesOfRetries(th, samples, batch, j, env, retry);
    if out.err.Some? && retry < env.numRetries {
      RetriesStopAtSuccess(th, next, batch, j, env, retry + 1);
      var ts, ts' := Tries(Retries(th, samples, batch, j, env, retry).trace),
                     Tries(Retries(th, next, batch, j, env, retry + 1).trace);
      forall i | 0 < i < |ts| - 1
        ensures ts[i].outcome.err.Some?
      {
        assert ts[i] == ts'[i - 1];
      }
      assert ts[|ts| - 1] == ts'[|ts'| - 1];
    }
  }

  /** The window after the retry loop: one `Collect` per attempt, in order. */
  lemma {:induction false} RetriesCollect(th: Throttling, samples: seq<real>, batch: Batch, j: nat, env: Env, retry: nat)
    ensures Retries(th, samples, batch, j, env, retry).samples
         == Collected(th, samples, Durations(Retries(th, samples, batch, j, env, retry).trace))
    decreases if retry < env.numRetries then env.numRetries - retry else 0
  {
    var out := env.outcome(j, retry);
    var next := th.collect(samples, out.duration);
    var tried := [Tried(batch.id, retry, out)];
    assert Durations(tried) == [out.duration] by {
      assert tried[1..] == [];
    }
    assert Collected(th, samples, [out.duration]) == next by {
      assert [out.duration][..0] == [];
    }
    if out.err.Some? && retry < env.numRetries {
      var gate := [Gated(th.delay(next))];
      var rest := Retries(th, next, batch, j, env, retry + 1);
      assert Durations(gate) == [] by {
        assert gate[1..] == [];
      }
      RetriesCollect(th, next, batch, j, env, retry + 1);
      TriesAppend(tried, gate);
      TriesAppend(tried + gate, rest.trace);
      CollectedAppend(th, samples, [out.duration], Durations(rest.trace));
    }
  }

  /** Inside the retry loop every retry comes right after a pass through the gate. */
  lemma {:induction false} RetriesGated(th: Throttling, samples: seq<real>, batch: Batch, j: nat, env: Env, retry: nat,
                                        d: real)
    ensures EachTryGated([Gated(d)] + Retries(th, samples, batch, j, env, retry).trace)
    decreases if retry < env.numRetries then env.numRetries - retry else 0
  {
    var out := env.outcome(j, retry);
    var next := th.collect(samples, out.duration);
    var tried := [Tried(batch.id, retry, out)];
    assert EachTryGated([Gated(d)] + tried);
    if out.err.Some? && retry < env.numRetries {
      var gate := [Gated(th.delay(next))];
      var rest := Retries(th, next, batch, j, env, retry + 1);
      RetriesGated(th, next, batch, j, env, retry + 1, th.delay(next));
      GatedAppend([Gated(d)] + tried, gate + rest.trace);
      assert [Gated(d)] + (tried + gate + rest.trace) == ([Gated(d)] + tried) + (gate + rest.trace);
    }
  }

  // ---------------------------------------------------------------------------
  // The worker

  /** The window after the worker: one `Collect` per attempt of any batch, in order. */
  lemma {:induction false} RunFromCollect(th: Throttling, samples: seq<real>, batches: seq<Batch>, env: Env, j: nat)
    requires j <= |batches|
    ensures RunFrom(th, samples, batches, env, j).samples
         == Collected(th, samples, Durations(RunFrom(th, samples, batches, env, j).trace))
    decreases |batches| - j
  {
    if j < |batches| {
      if env.cancelled(j) {
        CancelledCollect(th, samples, batches, env, j);
      } else {
        var b := Retries(th, samples, batches[j], j, env, 0);
        if b.err.None? {
          RunFromCollect(th, b.samples, batches, env, j + 1);
          DoneCollect(th, samples, batches, env, j);
        } else {
          FailedCollect(th, samples, batches, env, j);
        }
      }
    }
  }

  /** Cancellation: a gate pass and no duration. */
  lemma CancelledCollect(th: Throttling, samples: seq<real>, batches: seq<Batch>, env: Env, j: nat)
    requires j < |batches| && env.cancelled(j)
    ensures RunFrom(th, samples, batches, env, j).samples
         == Collected(th, samples, Durations(RunFrom(th, samples, batches, env, j).trace))
  {
    CancelledStep(th, samples, batches, env, j);
    GatedCollect(th, samples, th.delay(samples), Run(None, samples, []));
  }

  /** A batch that used up its retries: its attempts' durations, and the run stops. */
  lemma FailedCollect(th: Throttling, samples: seq<real>, batches: seq<Batch>, env: Env, j: nat)
    requires j < |batches| && !env.cancelled(j) && Retries(th, samples, batches[j], j, env, 0).err.Some?
    ensures RunFrom(th, samples, batches, env, j).samples
         == Collected(th, samples, Durations(RunFrom(th, samples, batches, env, j).trace))
  {
    var b := Retries(th, samples, batches[j], j, env, 0);
    RetriesCollect(th, samples, batches[j], j, env, 0);
    FailedStep(th, samples, batches, env, j, b);
    GatedCollect(th, samples, th.delay(samples), b);
  }

  /** A batch that succeeded: its attempts' durations, then those of the rest of the run. */
  lemma DoneCollect(th: Throttling, samples: seq<real>, batches: seq<Batch>, env: Env, j: nat)
    requires j < |batches| && !env.cancelled(j) && Retries(th, samples, batches[j], j, env, 0).err.None?
    requires var next := Retries(th, samples, batches[j], j, env, 0).samples;
             RunFrom(th, next, batches, env, j + 1).samples
             == Collected(th, next, Durations(RunFrom(th, next, batches, env, j + 1).trace))
    ensures RunFrom(th, samples, batches, env, j).samples
         == Collected(th, samples, Durations(RunFrom(th, samples, batches, env, j).trace))
  {
    var b := Retries(th, samples, batches[j], j, env, 0);
    RetriesCollect(th, samples, batches[j], j, env, 0);
    DoneStep(th, samples, batches, env, j, b);
    GatedThenCollect(th, samples, th.delay(samples), b.trace, b.samples, RunFrom(th, b.samples, batches, env, j + 1));
  }

  /** A pass through the gate adds no duration. */
  lemma GatedDurations(d: real, t: seq<Event>)
    ensures Tries([Gated(d)] + t) == Tries(t)
    ensures Durations([Gated(d)] + t) == Durations(t)
  {
    assert ([Gated(d)] + t)[1..] == t;
  }

  lemma GatedCollect(th: Throttling, s: seq<real>, d: real, r: Run)
    requires r.samples == Collected(th, s, Durations(r.trace))
    ensures Then([Gated(d)], r).samples == Collected(th, s, Durations(Then([Gated(d)], r).trace))
  {
    GatedDurations(d, r.trace);
  }

  lemma GatedThenCollect(th: Throttling, s: seq<real>, d: real, t: seq<Event>, mid: seq<real>, r: Run)
    requires mid == Collected(th, s, Durations(t))
    requires r.samples == Collected(th, mid, Durations(r.trace))
    ensures Then([Gated(d)] + t, r).samples == Collected(th, s, Durations(Then([Gated(d)] + t, r).trace))
  {
    GatedDurations(d, t + r.trace);
    TriesAppend(t, r.trace);
    CollectedAppend(th, s, Durations(t), Durations(r.trace));
    assert [Gated(d)] + t + r.trace == [Gated(d)] + (t + r.trace);
  }

  /** Every attempt, first or retry, comes right after a pass through the gate. */
  lemma {:induction false} RunFromGated(th: Throttling, samples: seq<real>, batches: seq<Batch>, env: Env, j: nat)
    requires j <= |batches|
    ensures EachTryGated(RunFrom(th, samples, batches, env, j).trace)
    decreases |batches| - j
  {
    if j < |batches| {
      var d := th.delay(samples);
      if env.cancelled(j) {
        CancelledStep(th, samples, batches, env, j);
      } else {
        var b := Retries(th, samples, batches[j], j, env, 0);
        RetriesGated(th, samples, batches[j], j, env, 0, d);
        if b.err.None? {
          DoneStep(th, samples, batches, env, j, b);
          RunFromGated(th, b.samples, batches, env, j + 1);
          GatedAppend([Gated(d)] + b.trace, RunFrom(th, b.samples, batches, env, j + 1).trace);
        } else {
          FailedStep(th, samples, batches, env, j, b);
        }
      }
    }
  }

  /** No attempt in t is numbered past n. */
  ghost predicate AttemptsAtMost(t: seq<Event>, n: int)
  {
    forall i :: 0 <= i < |t| && t[i].Tried? ==> t[i].attempt <= n
  }

  lemma AttemptsAppend(a: seq<Event>, b: seq<Event>, n: int)
    requires AttemptsAtMost(a, n) && AttemptsAtMost(b, n)
    ensures AttemptsAtMost(a + b, n)
  {
    forall i | 0 <= i < |a + b| && (a + b)[i].Tried?
      ensures (a + b)[i].attempt <= n
    {
      if i >= |a| {
        assert (a + b)[i] == b[i - |a|];
      }
    }
  }

  /** The retry loop from attempt `retry` on numbers no attempt past max(numRetries, retry). */
  lemma {:induction false} RetriesBounded(th: Throttling, samples: seq<real>, batch: Batch, j: nat, env: Env, retry: nat)
    ensures AttemptsAtMost(Retries(th, samples, batch, j, env, retry).trace, Max(env.numRetries, retry))
    decreases if retry < env.numRetries then env.numRetries - retry else 0
  {
    var out := env.outcome(j, retry);
    var next := th.collect(samples, out.duration);
    if out.err.Some? && retry < env.numRetries {
      var head := [Tried(batch.id, retry, out), Gated(th.delay(next))];
      RetriesBounded(th, next, batch, j, env, retry + 1);
      AttemptsAppend(head, Retries(th, next, batch, j, env, retry + 1).trace, Max(env.numRetries, retry));
    }
  }

  /** No attempt of any batch is numbered past max(numRetries, 0). */
  lemma {:induction false} RunFromBounded(th: Throttling, samples: seq<real>, batches: seq<Batch>, env: Env, j: nat)
    requires j <= |batches|
    ensures AttemptsAtMost(RunFrom(th, samples, batches, env, j).trace, Max(env.numRetries, 0))
    decreases |batches| - j
  {
    if j < |batches| {
      var d := th.delay(samples);
      if env.cancelled(j) {
        CancelledStep(th, samples, batches, env, j);
      } else {
        var b := Retries(th, samples, batches[j], j, env, 0);
        RetriesBounded(th, samples, batches[j], j, env, 0);
        AttemptsAppend([Gated(d)], b.trace, Max(env.numRetries, 0));
        if b.err.None? {
          DoneStep(th, samples, batches, env, j, b);
          RunFromBounded(th, b.samples, batches, env, j + 1);
          AttemptsAppend([Gated(d)] + b.trace, RunFrom(th, b.samples, batches, env, j + 1).trace, Max(env.numRetries, 0));
        } else {
          FailedStep(th, samples, batches, env, j, b);
        }
      }
    }
  }

  /**
   * A worker that returns an error stops right after the attempt that
   * failed for the last time: that attempt is the last event, it is numbered
   * max(numRetries, 0), and its error is the one returned.
   */
  lemma {:induction false} RunFromError(th: Throttling, samples: seq<real>, batches: seq<Batch>, env: Env, j: nat)
    requires j <= |batches|
    requires RunFrom(th, samples, batches, env, j).err.Some?
    ensures var t := RunFrom(th, samples, batches, env, j).trace;
            |t| > 0 && t[|t| - 1].Tried? && t[|t| - 1].attempt == Max(env.numRetries, 0)
            && t[|t| - 1].outcome.err == RunFrom(th, samples, batches, env, j).err
    decreases |batches| - j
  {
    var d := th.delay(samples);
    var b := Retries(th, samples, batches[j], j, env, 0);
    if b.err.Some? {
      FailedStep(th, samples, batches, env, j, b);
      RetriesLast(th, samples, batches[j], j, env, 0);
      LastOfThen([Gated(d)], b.trace);
    } else {
      DoneStep(th, samples, batches, env, j, b);
      var rest := RunFrom(th, b.samples, batches, env, j + 1);
      RunFromError(th, b.samples, batches, env, j + 1);
      LastOfThen([Gated(d)] + b.trace, rest.trace);
    }
  }

  lemma LastOfThen(a: seq<Event>, b: seq<Event>)
    requires |b| > 0
    ensures |a + b| > 0 && (a + b)[|a + b| - 1] == b[|b| - 1]
  {
  }

  /** A retry loop that gives up ends with its attempt numbered max(numRetries, retry). */
  lemma {:induction false} RetriesLast(th: Throttling, samples: seq<real>, batch: Batch, j: nat, env: Env, retry: nat)
    requires Retries(th, samples, batch, j, env, retry).err.Some?
    ensures var t := Retries(th, samples, batch, j, env, retry).trace;
            |t| > 0 && t[|t| - 1].Tried? && t[|t| - 1].attempt == Max(env.numRetries, retry)
            && t[|t| - 1].outcome.err == Retries(th, samples, batch, j, env, retry).err
    decreases if retry < env.numRetries then env.numRetries - retry else 0
  {
    var out := env.outcome(j, retry);
    var next := th.collect(samples, out.duration);
    if retry < env.numRetries {
      var tried := [Tried(batch.id, retry, out), Gated(th.delay(next))];
      var rest := Retries(th, next, batch, j, env, retry + 1);
      RetriesLast(th, next, batch, j, env, retry + 1);
      assert (tried + rest.trace)[|tried + rest.trace| - 1] == rest.trace[|rest.trace| - 1];
    }
  }

  lemma CancelledStep(th: Throttling, samples: seq<real>, batches: seq<Batch>, env: Env, j: nat)
    requires j < |batches| && env.cancelled(j)
    ensures RunFrom(th, samples, batches, env, j) == Run(None, samples, [Gated(th.delay(samples))])
  {
  }

  lemma FailedStep(th: Throttling, samples: seq<real>, batches: seq<Batch>, env: Env, j: nat, b: Run)
    requires j < |batches| && !env.cancelled(j)
    requires b == Retries(th, samples, batches[j], j, env, 0) && b.err.Some?
    ensures RunFrom(th, samples, batches, env, j) == Then([Gated(th.delay(samples))], b)
  {
  }

  lemma DoneStep(th: Throttling, samples: seq<real>, batches: seq<Batch>, env: Env, j: nat, b: Run)
    requires j < |batches| && !env.cancelled(j)
    requires b == Retries(th, samples, batches[j], j, env, 0) && b.err.None?
    ensures RunFrom(th, samples, batches, env, j)
         == Then([Gated(th.delay(samples))] + b.trace, RunFrom(th, b.samples, batches, env, j + 1))
  {
  }

  lemma ThenThen(a: seq<Event>, b: seq<Event>, r: Run)
    ensures Then(a, Then(b, r)) == Then(a + b, r)
  {
    assert a + (b + r.trace) == (a + b) + r.trace;
  }

  /** One failed attempt with a retry left: record it, pass the gate, retry. */
  lemma RetryAgain(th: Throttling, samples: seq<real>, batch: Batch, j: nat, env: Env, retry: nat,
                   whole: Run, done: seq<Event>)
    requires whole == Then(done, Retries(th, samples, batch, j, env, retry))
    requires env.outcome(j, retry).err.Some? && retry < env.numRetries
    ensures var next := th.collect(samples, env.outcome(j, retry).duration);
            whole == Then(done + [Tried(batch.id, retry, env.outcome(j, retry)), Gated(th.delay(next))],
                          Retries(th, next, batch, j, env, retry + 1))
  {
    var next := th.collect(samples, env.outcome(j, retry).duration);
    ThenThen(done, [Tried(batch.id, retry, env.outcome(j, retry)), Gated(th.delay(next))],
             Retries(th, next, batch, j, env, retry + 1));
  }

  /** The last attempt of the loop: it succeeded, or no retry is left. */
  lemma RetryStop(th: Throttling, samples: seq<real>, batch: Batch, j: nat, env: Env, retry: nat,
                  whole: Run, done: seq<Event>)
    requires whole == Then(done, Retries(th, samples, batch, j, env, retry))
    requires env.outcome(j, retry).err.None? || retry >= env.numRetries
    ensures whole == Run(env.outcome(j, retry).err, th.collect(samples, env.outcome(j, retry).duration),
                         done + [Tried(batch.id, retry, env.outcome(j, retry))])
  {
  }

  /** th behaves as a throttle with settings st behind gate g: it collects and gates as `SamplingThrottle` does. */
  ghost predicate Models(th: Throttling, st: Settings, g: Gating)
  {
    Runnable(st, g)
    && (forall s, t :: th.collect(s, t) == CollectStep(s, st.windowSize, t))
    && (g.AsWritten? ==> forall s :: th.delay(s) == 0.0)
    && (g.Corrected? ==> forall s :: th.delay(s) == GateDelay(s, st.windowSize, st.limit, st.backoffFactor))
  }

  /** One pass through the throttle's gate g; the delay is what th says for the current window. */
  method PassGate(throttle: SamplingThrottle, g: Gating, ghost th: Throttling) returns (delay: real)
    requires Models(th, throttle.CurrentSettings(), g)
    ensures delay == th.delay(throttle.samples)
  {
    if g.AsWritten? {
      delay := throttle.Wait();
    } else {
      delay := throttle.Gate();
    }
  }

  /** env answers attempt r of the j-th batch as `indexBatch` would with this client. */
  ghost predicate Answers(env: Env, batches: seq<Batch>, client: Client)
  {
    AllUsable(batches, client)
    && forall j: nat, r: nat :: j < |batches| ==>
         env.outcome(j, r) == BatchOutcome(batches[j], client.mode, client.field, client.format, client.call(j, r))
  }

  /**
   * The retry loop of `indexWorker` for the j-th batch: index the batch,
   * record the duration, and on failure pass the gate and try again while
   * `retry < numRetries`. `tried` lists the attempts and the gate passes
   * between them.
   */
  method IndexWithRetries(throttle: SamplingThrottle, g: Gating, batches: seq<Batch>, client: Client, j: nat,
                          numRetries: int, ghost th: Throttling, ghost env: Env)
    returns (err: Option<IndexError>, tried: seq<Event>)
    requires j < |batches| && Models(th, throttle.CurrentSettings(), g) && Answers(env, batches, client)
    requires env.numRetries == numRetries
    modifies throttle`samples
    ensures Run(err, throttle.samples, tried) == Retries(th, old(throttle.samples), batches[j], j, env, 0)
  {
    ghost var st := throttle.CurrentSettings();
    var batch := batches[j];
    ghost var whole := Retries(th, throttle.samples, batch, j, env, 0);
    assert whole == Then([], whole);
    tried := [];
    var retry: nat := 0;
    while true
      invariant throttle.CurrentSettings() == st
      invariant whole == Then(tried, Retries(th, throttle.samples, batch, j, env, retry))
      decreases if retry < numRetries then numRetries - retry else 0
    {
      var t, e, _ := IndexBatch(batch, client.mode, client.field, client.format, client.call(j, retry));
      assert Attempt(t, e) == env.outcome(j, retry);
      if e.Some? && retry < numRetries {
        RetryAgain(th, throttle.samples, batch, j, env, retry, whole, tried);
        throttle.Collect(t);
        var d := PassGate(throttle, g, th);
        tried := tried + [Tried(batch.id, retry, Attempt(t, e)), Gated(d)];
        retry := retry + 1;
      } else {
        RetryStop(th, throttle.samples, batch, j, env, retry, whole, tried);
        throttle.Collect(t);
        return e, tried + [Tried(batch.id, retry, Attempt(t, e))];
      }
    }
  }

  /**
   * One turn of the worker's loop on the j-th batch: pass the gate, then stop
   * on cancellation, or index the batch with retries. `stop` says the worker
   * returns after this batch, with `err`; `events` is what this turn adds.
   */
  method IndexNext(throttle: SamplingThrottle, g: Gating, batches: seq<Batch>, client: Client, j: nat,
                   numRetries: int, cancelled: nat -> bool, ghost th: Throttling, ghost env: Env)
    returns (stop: bool, err: Option<IndexError>, events: seq<Event>)
    requires j < |batches| && Models(th, throttle.CurrentSettings(), g) && Answers(env, batches, client)
    requires env.numRetries == numRetries && env.cancelled == cancelled
    modifies throttle`samples
    ensures stop ==> RunFrom(th, old(throttle.samples), batches, env, j) == Run(err, throttle.samples, events)
    ensures !stop ==> RunFrom(th, old(throttle.samples), batches, env, j)
                      == Then(events, RunFrom(th, throttle.samples, batches, env, j + 1))
  {
    var delay := PassGate(throttle, g, th);
    if cancelled(j) {
      CancelledStep(th, throttle.samples, batches, env, j);
      return true, None, [Gated(delay)];
    }
    ghost var b := Retries(th, throttle.samples, batches[j], j, env, 0);
    var tried;
    err, tried := IndexWithRetries(throttle, g, batches, client, j, numRetries, th, env);
    stop := err.Some?;
    events := [Gated(delay)] + tried;
    if stop {
      FailedStep(th, old(throttle.samples), batches, env, j, b);
    } else {
      DoneStep(th, old(throttle.samples), batches, env, j, b);
    }
  }

  /** The worker's loop over the queue, against any model of the throttle and the bulk calls. */
  method RunWorker(throttle: SamplingThrottle, g: Gating, batches: seq<Batch>, client: Client, numRetries: int,
                   cancelled: nat -> bool, ghost th: Throttling, ghost env: Env)
    returns (err: Option<IndexError>, trace: seq<Event>)
    requires Models(th, throttle.CurrentSettings(), g) && Answers(env, batches, client)
    requires env.numRetries == numRetries && env.cancelled == cancelled
    modifies throttle`samples
    ensures Run(err, throttle.samples, trace) == RunFrom(th, old(throttle.samples), batches, env, 0)
  {
    ghost var st := throttle.CurrentSettings();
    ghost var whole := RunFrom(th, throttle.samples, batches, env, 0);
    assert whole == Then([], whole);
    trace := [];
    var j := 0;
    while j < |batches|
      invariant 0 <= j <= |batches|
      invariant throttle.CurrentSettings() == st
      invariant whole == Then(trace, RunFrom(th, throttle.samples, batches, env, j))
    {
      var stop, e, events := IndexNext(throttle, g, batches, client, j, numRetries, cancelled, th, env);
      if stop {
        return e, trace + events;
      }
      ThenThen(trace, events, RunFrom(th, throttle.samples, batches, env, j + 1));
      trace := trace + events;
      j := j + 1;
    }
    err := None;
  }

  /**
   * `indexWorker` behind gate g (`Wait` as written, or the corrected `Gate`):
   * returns the error of a batch that used up its retries, and nothing when
   * the queue is drained or the context is cancelled. `trace` lists the gate
   * passes and attempts.
   */
  method IndexWorker(throttle: SamplingThrottle, g: Gating, batches: seq<Batch>, client: Client, numRetries: int,
                     cancelled: nat -> bool)
    returns (err: Option<IndexError>, trace: seq<Event>)
    requires Runnable(throttle.CurrentSettings(), g) && AllUsable(batches, client)
    modifies throttle`samples
    ensures Run(err, throttle.samples, trace)
         == RunFrom(ThrottlingOf(old(throttle.CurrentSettings()), g), old(throttle.samples), batches,
                    Env(numRetries, cancelled, OutcomesOf(batches, client)), 0)
    ensures throttle.samples == CollectAll(old(throttle.samples), throttle.windowSize, Durations(trace))
    ensures EachTryGated(trace) && AttemptsAtMost(trace, Max(numRetries, 0))
  {
    ghost var st := throttle.CurrentSettings();
    ghost var th := ThrottlingOf(st, g);
    ghost var env := Env(numRetries, cancelled, OutcomesOf(batches, client));
    ghost var samples := throttle.samples;
    err, trace := RunWorker(throttle, g, batches, client, numRetries, cancelled, th, env);
    RunFromCollect(th, samples, batches, env, 0);
    CollectedIsCollectAll(st, g, samples, Durations(trace));
    RunFromGated(th, samples, batches, env, 0);
    RunFromBounded(th, samples, batches, env, 0);
  }
}
