/**
 * The producer of cmd/esx/index.go: it cuts the decoded document stream into
 * batches of `batchSize` with consecutive IDs and hands each full batch to the
 * work queue. The stream is a sequence of decoded documents followed by its
 * end (end of input or a decode error); the queue is the sequence of batches
 * emitted. Whether cancellation is observed while the queue is full, when the
 * batch with ID k is handed over, is the oracle `cancelledAt(k)`.
 */
module Producer {
  import opened Wrappers
  import opened Documents

  /** How the document stream ends: `io.EOF` or a decode error. */
  datatype StreamEnd = EndOfStream | DecodeError(message: string)

  /** The producer's return value and the batches it put on the queue, in order. */
  datatype Produced = Produced(err: Option<string>, emitted: seq<Batch>)

  // ---------------------------------------------------------------------------
  // Cutting a sequence into runs

  /**
   * The elements cut into consecutive runs of `size`, the last run holding
   * what is left. A size below 1 never completes a batch, so all elements
   * form one run.
   */
  function Chunks<T>(xs: seq<T>, size: int): seq<seq<T>>
    decreases |xs|
  {
    if xs == [] then []
    else if size < 1 || |xs| <= size then [xs]
    else [xs[..size]] + Chunks(xs[size..], size)
  }

  function Flatten<T>(chunks: seq<seq<T>>): seq<T>
  {
    if chunks == [] then [] else chunks[0] + Flatten(chunks[1..])
  }

  /** The runs tagged with the IDs first, first + 1, .. in order. */
  function Numbered(chunks: seq<seq<Doc>>, first: nat): seq<Batch>
  {
    seq(|chunks|, i requires 0 <= i < |chunks| => Batch(first + i, chunks[i]))
  }

  /** How many runs reach `size` elements out of n. */
  function FullCount(n: nat, size: int): nat
  {
    if size >= 1 then n / size else 0
  }

  lemma MulAtLeast(d: int, s: int)
    requires d >= 1 && s > 0
    ensures d * s >= s
  {
  }

  lemma MulSucc(a: int, s: int)
    ensures (a + 1) * s == a * s + s
  {
  }

  /** Euclidean division is determined by its quotient and remainder. */
  lemma DivUnique(n: int, s: int, q: int, r: int)
    requires s > 0 && 0 <= r < s && n == q * s + r
    ensures n / s == q && n % s == r
  {
    var q', r' := n / s, n % s;
    assert n == q' * s + r';
    assert (q - q') * s == r' - r;
    if q > q' {
      MulAtLeast(q - q', s);
    } else if q < q' {
      assert (q' - q) * s == r - r';
      MulAtLeast(q' - q, s);
    }
  }

  lemma DivLowerBound(a: nat, s: int, n: nat)
    requires s > 0 && a * s <= n
    ensures a <= n / s
  {
    var q := n / s;
    assert n == q * s + n % s;
    if a >= q + 1 {
      assert a * s == q * s + (a - q) * s;
      MulAtLeast(a - q, s);
    }
  }

  lemma MulMonotone(a: int, b: int, s: int)
    requires 0 <= a <= b && s > 0
    ensures a * s <= b * s
  {
    if a < b {
      assert b * s == a * s + (b - a) * s;
      MulAtLeast(b - a, s);
    }
  }

  /** Removing one full run lowers the quotient by one and keeps the remainder. */
  lemma DivMinusDivisor(d: int, s: int)
    requires d >= s > 0
    ensures (d - s) / s == d / s - 1 && (d - s) % s == d % s
  {
    var q, r := d / s, d % s;
    assert d == q * s + r;
    assert d - s == (q - 1) * s + r;
    DivUnique(d - s, s, q - 1, r);
  }

  /** ceil(D / size) is D / size, plus one when D mod size > 0. */
  lemma CeilDiv(d: nat, size: int)
    requires size >= 1
    ensures (d + size - 1) / size == d / size + (if d % size > 0 then 1 else 0)
  {
    var q, r := d / size, d % size;
    assert d == q * size + r;
    if r == 0 {
      assert d + size - 1 == q * size + (size - 1);
      DivUnique(d + size - 1, size, q, size - 1);
    } else {
      MulSucc(q, size);
      assert d + size - 1 == (q + 1) * size + (r - 1);
      DivUnique(d + size - 1, size, q + 1, r - 1);
    }
  }

  /** The number of runs of at most `size` that d elements are cut into. */
  function RunCount(d: nat, size: int): nat
    requires size >= 1
  {
    if d == 0 then 0 else if d <= size then 1 else 1 + RunCount(d - size, size)
  }

  /** With size >= 1 there are D / size full runs, plus one if D mod size > 0. */
  lemma ChunksCount<T>(xs: seq<T>, size: int)
    requires size >= 1
    ensures |Chunks(xs, size)| == |xs| / size + (if |xs| % size > 0 then 1 else 0)
  {
    ChunksRunCount(xs, size);
    RunCountClosedForm(|xs|, size);
  }

  lemma {:induction false} ChunksRunCount<T>(xs: seq<T>, size: int)
    requires size >= 1
    ensures |Chunks(xs, size)| == RunCount(|xs|, size)
    decreases |xs|
  {
    if |xs| > size {
      ChunksRunCount(xs[size..], size);
    }
  }

  lemma {:induction false} RunCountClosedForm(d: nat, size: int)
    requires size >= 1
    ensures RunCount(d, size) == d / size + (if d % size > 0 then 1 else 0)
    decreases d
  {
    if 0 < d <= size {
      SingleRunCount(d, size);
    } else if d > size {
      RunCountClosedForm(d - size, size);
      CountStep(RunCount(d, size), RunCount(d - size, size), d, size);
    }
  }

  /** Between 1 and size elements make exactly one run. */
  lemma SingleRunCount(d: nat, size: int)
    requires 0 < d <= size
    ensures d / size + (if d % size > 0 then 1 else 0) == 1
  {
    if d < size {
      DivUnique(d, size, 0, d);
    } else {
      DivUnique(d, size, 1, 0);
    }
  }

  /** One more full run in front adds one to the count. */
  lemma CountStep(c: nat, rest: nat, d: nat, size: int)
    requires d > size >= 1 && c == 1 + rest
    requires rest == (d - size) / size + (if (d - size) % size > 0 then 1 else 0)
    ensures c == d / size + (if d % size > 0 then 1 else 0)
  {
    DivMinusDivisor(d, size);
  }

  function Min(a: int, b: int): int
  {
    if a <= b then a else b
  }

  /**
   * With size >= 1 the i-th run starts at element i * size and holds the
   * next `size` elements, or the rest when fewer are left.
   */
  lemma {:induction false} ChunkAt<T>(xs: seq<T>, size: int, i: nat)
    requires size >= 1 && i * size < |xs|
    ensures i < |Chunks(xs, size)|
    ensures Chunks(xs, size)[i] == xs[i * size..Min((i + 1) * size, |xs|)]
    decreases i
  {
    MulSucc(i, size);
    if i == 0 {
      if |xs| > size {
        assert Chunks(xs, size)[0] == xs[..size];
      }
    } else {
      var rest := xs[size..];
      MulSucc(i - 1, size);
      assert |xs| > size;
      ChunkAt(rest, size, i - 1);
      assert Chunks(xs, size) == [xs[..size]] + Chunks(rest, size);
      SliceOfSuffix(xs, size, (i - 1) * size, Min(i * size, |xs| - size));
      assert size + (i - 1) * size == i * size;
      assert size + Min(i * size, |xs| - size) == Min((i + 1) * size, |xs|);
    }
  }

  lemma SliceOfSuffix<T>(xs: seq<T>, s: nat, a: nat, b: nat)
    requires s <= |xs| && a <= b <= |xs| - s
    ensures xs[s..][a..b] == xs[s + a..s + b]
  {
  }

  /** For i < n / size, the i-th block of `size` lies inside 0 .. n. */
  lemma RunBounds(n: nat, size: int, i: nat)
    requires size >= 1 && i < n / size
    ensures 0 <= i * size && i * size + size <= n
  {
    var q := n / size;
    assert n == q * size + n % size;
    MulMonotone(0, i, size);
    MulMonotone(i + 1, q, size);
    MulSucc(i, size);
  }

  /** The elements i * size up to (i + 1) * size, for i below D / size. */
  function RunAt<T>(xs: seq<T>, size: int, i: nat): (r: seq<T>)
    requires size >= 1 && i < |xs| / size
    ensures |r| == size
  {
    RunBounds(|xs|, size, i);
    xs[i * size..i * size + size]
  }

  /** Each of the first D / size runs is full: the next `size` elements. */
  lemma FullRun<T>(xs: seq<T>, size: int, i: nat)
    requires size >= 1 && i < |xs| / size
    ensures i < |Chunks(xs, size)| && Chunks(xs, size)[i] == RunAt(xs, size, i)
  {
    RunBounds(|xs|, size, i);
    MulSucc(i, size);
    ChunkAt(xs, size, i);
  }

  /** With size >= 1, when D mod size > 0 the last run is the elements from (D / size) * size on. */
  lemma ChunkTail<T>(xs: seq<T>, size: int)
    requires size >= 1 && |xs| % size > 0
    ensures (|xs| / size) * size < |xs|
    ensures |xs| / size < |Chunks(xs, size)|
    ensures Chunks(xs, size)[|xs| / size] == xs[(|xs| / size) * size..]
  {
    var q, r := |xs| / size, |xs| % size;
    var base := q * size;
    assert |xs| == base + r;
    MulSucc(q, size);
    assert Min((q + 1) * size, |xs|) == |xs|;
    ChunkAt(xs, size, q);
  }

  /** Every run but the last holds `size` elements. */
  lemma InnerRun<T>(xs: seq<T>, size: int, i: nat)
    requires size >= 1 && i < |Chunks(xs, size)| - 1
    ensures |Chunks(xs, size)[i]| == size
  {
    ChunksCount(xs, size);
    FullRun(xs, size, i);
    MulSucc(i, size);
  }

  /** The last run holds D mod size elements, or size when that is 0. */
  lemma LastRun<T>(xs: seq<T>, size: int)
    requires size >= 1 && |xs| > 0
    ensures |Chunks(xs, size)| >= 1
    ensures |Chunks(xs, size)[|Chunks(xs, size)| - 1]| == if |xs| % size == 0 then size else |xs| % size
  {
    if |xs| % size == 0 {
      LastRunExact(xs, size);
    } else {
      LastRunPartial(xs, size);
    }
  }

  lemma LastRunExact<T>(xs: seq<T>, size: int)
    requires size >= 1 && |xs| > 0 && |xs| % size == 0
    ensures |Chunks(xs, size)| >= 1 && |Chunks(xs, size)[|Chunks(xs, size)| - 1]| == size
  {
    ChunksCount(xs, size);
    var q := |xs| / size;
    assert |xs| == q * size;
    assert q >= 1;
    FullRun(xs, size, q - 1);
  }

  lemma LastRunPartial<T>(xs: seq<T>, size: int)
    requires size >= 1 && |xs| % size > 0
    ensures |Chunks(xs, size)| >= 1 && |Chunks(xs, size)[|Chunks(xs, size)| - 1]| == |xs| % size
  {
    ChunksCount(xs, size);
    ChunkTail(xs, size);
    var q := |xs| / size;
    assert |xs| == q * size + |xs| % size;
  }

  /**
   * ceil(D / size) runs; all of `size` elements except the last, which has
   * D mod size elements, or size when that is 0.
   */
  lemma ChunkSizes<T>(xs: seq<T>, size: int)
    requires size >= 1
    ensures |Chunks(xs, size)| == (|xs| + size - 1) / size
    ensures forall i :: 0 <= i < |Chunks(xs, size)| - 1 ==> |Chunks(xs, size)[i]| == size
    ensures |xs| > 0 ==>
              |Chunks(xs, size)[|Chunks(xs, size)| - 1]|
              == if |xs| % size == 0 then size else |xs| % size
  {
    ChunksCount(xs, size);
    CeilDiv(|xs|, size);
    forall i | 0 <= i < |Chunks(xs, size)| - 1
      ensures |Chunks(xs, size)[i]| == size
    {
      InnerRun(xs, size, i);
    }
    if |xs| > 0 {
      LastRun(xs, size);
    }
  }

  /** No run is empty. */
  lemma {:induction false} ChunksNonEmpty<T>(xs: seq<T>, size: int)
    ensures forall i :: 0 <= i < |Chunks(xs, size)| ==> Chunks(xs, size)[i] != []
    decreases |xs|
  {
    if xs != [] && size >= 1 && |xs| > size {
      ChunksNonEmpty(xs[size..], size);
      assert Chunks(xs, size) == [xs[..size]] + Chunks(xs[size..], size);
    }
  }

  /** The runs, concatenated in order, are the elements. */
  lemma {:induction false} ChunksFlatten<T>(xs: seq<T>, size: int)
    ensures Flatten(Chunks(xs, size)) == xs
    decreases |xs|
  {
    if xs != [] && size >= 1 && |xs| > size {
      var c := Chunks(xs, size);
      ChunksFlatten(xs[size..], size);
      assert c[1..] == Chunks(xs[size..], size);
      assert xs[..size] + xs[size..] == xs;
    } else if xs != [] {
      assert Flatten([xs]) == xs + Flatten([]);
    }
  }

  /** Taking one full run off the front of the documents. */
  lemma NumberedStep(docs: seq<Doc>, size: int, k: nat)
    requires size >= 1 && |docs| >= size
    ensures Numbered(Chunks(docs, size), k)
            == [Batch(k, docs[..size])] + Numbered(Chunks(docs[size..], size), k + 1)
  {
    if |docs| == size {
      assert docs[..size] == docs;
      assert docs[size..] == [];
    }
    assert Chunks(docs, size) == [docs[..size]] + Chunks(docs[size..], size);
    NumberedCons(docs[..size], Chunks(docs[size..], size), k);
  }

  /** Numbering a run followed by more runs. */
  lemma NumberedCons(x: seq<Doc>, rest: seq<seq<Doc>>, k: nat)
    ensures Numbered([x] + rest, k) == [Batch(k, x)] + Numbered(rest, k + 1)
  {
    var lhs, rhs := Numbered([x] + rest, k), [Batch(k, x)] + Numbered(rest, k + 1);
    assert |lhs| == |rhs|;
    forall j | 0 <= j < |lhs|
      ensures lhs[j] == rhs[j]
    {
      if j > 0 {
        assert ([x] + rest)[j] == rest[j - 1];
      }
    }
  }

  // ---------------------------------------------------------------------------
  // The producer

  /** The batches already emitted, followed by what the producer goes on to emit. */
  function Prepend(emitted: seq<Batch>, p: Produced): Produced
  {
    Produced(p.err, emitted + p.emitted)
  }

  /**
   * What the producer does with the remaining documents when the batch being
   * filled has ID k and is empty: a full batch is handed over unless
   * cancellation is observed; with fewer than `size` documents left, a decode
   * error returns at once, and end of input flushes the non-empty tail.
   * Everything it emits is a prefix of the runs numbered from k.
   */
  function ProduceFrom(docs: seq<Doc>, end: StreamEnd, size: int, cancelledAt: nat -> bool, k: nat)
    : Produced
    decreases |docs|
  {
    if size >= 1 && |docs| >= size then
      if cancelledAt(k) then Produced(None, [])
      else Prepend([Batch(k, docs[..size])], ProduceFrom(docs[size..], end, size, cancelledAt, k + 1))
    else if end.DecodeError? then Produced(Some(end.message), [])
    else if docs == [] then Produced(None, [])
    else Produced(None, [Batch(k, docs)])
  }

  /**
   * Everything the producer emits is a prefix of the runs numbered from k,
   * and the only error it returns is the decode error.
   */
  lemma {:induction false} ProduceFromPrefix(docs: seq<Doc>, end: StreamEnd, size: int, cancelledAt: nat -> bool, k: nat)
    ensures |ProduceFrom(docs, end, size, cancelledAt, k).emitted| <= |Chunks(docs, size)|
    ensures ProduceFrom(docs, end, size, cancelledAt, k).emitted
            == Numbered(Chunks(docs, size), k)[..|ProduceFrom(docs, end, size, cancelledAt, k).emitted|]
    ensures ProduceFrom(docs, end, size, cancelledAt, k).err.Some? ==>
              end.DecodeError? && ProduceFrom(docs, end, size, cancelledAt, k).err.value == end.message
    decreases |docs|
  {
    if size >= 1 && |docs| >= size && !cancelledAt(k) {
      var rest := ProduceFrom(docs[size..], end, size, cancelledAt, k + 1);
      ProduceFromPrefix(docs[size..], end, size, cancelledAt, k + 1);
      NumberedStep(docs, size, k);
      var all' := Numbered(Chunks(docs[size..], size), k + 1);
      assert ([Batch(k, docs[..size])] + all')[..1 + |rest.emitted|]
          == [Batch(k, docs[..size])] + all'[..|rest.emitted|];
    }
  }

  /** The whole stream, starting with batch ID 0. */
  function Produce(docs: seq<Doc>, end: StreamEnd, size: int, cancelledAt: nat -> bool): Produced
  {
    ProduceFrom(docs, end, size, cancelledAt, 0)
  }

  /** The first j in [k, k + n) at which cancellation is observed, or k + n. */
  function FirstCancelled(cancelledAt: nat -> bool, k: nat, n: nat): (f: nat)
    ensures k <= f <= k + n
    ensures forall j :: k <= j < f ==> !cancelledAt(j)
    ensures f < k + n ==> cancelledAt(f)
    decreases n
  {
    if n == 0 then k
    else if cancelledAt(k) then k
    else FirstCancelled(cancelledAt, k + 1, n - 1)
  }

  /**
   * Closed form of the producer: the runs numbered from k, cut short at the
   * first cancellation among the full runs, or at the last full run on a
   * decode error.
   */
  function ClosedForm(docs: seq<Doc>, end: StreamEnd, size: int, cancelledAt: nat -> bool, k: nat)
    : Produced
  {
    var all := Numbered(Chunks(docs, size), k);
    var full := FullCount(|docs|, size);
    var f := FirstCancelled(cancelledAt, k, full);
    assert full <= |all| by {
      if size >= 1 { ChunksCount(docs, size); }
    }
    if f < k + full then Produced(None, all[..f - k])
    else if end.DecodeError? then Produced(Some(end.message), all[..full])
    else Produced(None, all)
  }

  /** The step-by-step producer and its closed form agree. */
  lemma {:induction false} ProduceClosedForm(docs: seq<Doc>, end: StreamEnd, size: int, cancelledAt: nat -> bool, k: nat)
    ensures ProduceFrom(docs, end, size, cancelledAt, k) == ClosedForm(docs, end, size, cancelledAt, k)
    decreases |docs|
  {
    if size >= 1 && |docs| >= size {
      if cancelledAt(k) {
        ClosedFormCancelled(docs, end, size, cancelledAt, k);
      } else {
        ProduceClosedForm(docs[size..], end, size, cancelledAt, k + 1);
        ClosedFormStep(docs, end, size, cancelledAt, k);
      }
    } else if size >= 1 {
      DivUnique(|docs|, size, 0, |docs|);
    }
  }

  lemma ClosedFormCancelled(docs: seq<Doc>, end: StreamEnd, size: int, cancelledAt: nat -> bool, k: nat)
    requires size >= 1 && |docs| >= size && cancelledAt(k)
    ensures ClosedForm(docs, end, size, cancelledAt, k) == Produced(None, [])
  {
    DivLowerBound(1, size, |docs|);
  }

  /** Handing over one full run moves the closed form on to the next ID. */
  lemma ClosedFormStep(docs: seq<Doc>, end: StreamEnd, size: int, cancelledAt: nat -> bool, k: nat)
    requires size >= 1 && |docs| >= size && !cancelledAt(k)
    ensures ClosedForm(docs, end, size, cancelledAt, k)
            == Prepend([Batch(k, docs[..size])], ClosedForm(docs[size..], end, size, cancelledAt, k + 1))
  {
    var full := FullCount(|docs|, size);
    var rest := docs[size..];
    DivMinusDivisor(|docs|, size);
    DivLowerBound(1, size, |docs|);
    NumberedStep(docs, size, k);
    ChunksCount(rest, size);
    var all' := Numbered(Chunks(rest, size), k + 1);
    var f' := FirstCancelled(cancelledAt, k + 1, full - 1);
    assert FirstCancelled(cancelledAt, k, full) == f';
    var b := Batch(k, docs[..size]);
    if f' < k + full {
      assert ([b] + all')[..f' - k] == [b] + all'[..f' - (k + 1)];
    } else if end.DecodeError? {
      assert ([b] + all')[..full] == [b] + all'[..full - 1];
    }
  }

  /**
   * Reading to the end without cancellation emits every run, numbered from 0,
   * none of them empty, and together they are the input in order.
   */
  lemma ProduceCompleteStream(docs: seq<Doc>, size: int, cancelledAt: nat -> bool)
    requires forall k :: 0 <= k < FullCount(|docs|, size) ==> !cancelledAt(k)
    ensures Produce(docs, EndOfStream, size, cancelledAt) == Produced(None, Numbered(Chunks(docs, size), 0))
    ensures forall i :: 0 <= i < |Chunks(docs, size)| ==> Chunks(docs, size)[i] != []
    ensures Flatten(Chunks(docs, size)) == docs
  {
    ProduceClosedForm(docs, EndOfStream, size, cancelledAt, 0);
    ChunksNonEmpty(docs, size);
    ChunksFlatten(docs, size);
  }

  /** An empty batch is never emitted, and the i-th batch emitted has ID i. */
  lemma ProduceNoEmptyBatch(docs: seq<Doc>, end: StreamEnd, size: int, cancelledAt: nat -> bool)
    ensures forall b :: b in Produce(docs, end, size, cancelledAt).emitted ==> b.docs != []
    ensures forall i :: 0 <= i < |Produce(docs, end, size, cancelledAt).emitted| ==>
              Produce(docs, end, size, cancelledAt).emitted[i].id == i
  {
    ProduceFromPrefix(docs, end, size, cancelledAt, 0);
    ChunksNonEmpty(docs, size);
  }

  /** A batch size below 1 sends all documents as one flush batch with ID 0. */
  lemma ProduceUnsized(docs: seq<Doc>, size: int, cancelledAt: nat -> bool)
    requires size < 1 && docs != []
    ensures Produce(docs, EndOfStream, size, cancelledAt) == Produced(None, [Batch(0, docs)])
  {
  }

  /** The first n emitted batches, n at most D / size, are the first n runs of `size` documents. */
  lemma EmittedRuns(p: Produced, docs: seq<Doc>, size: int, n: nat)
    requires size >= 1 && n <= |docs| / size && n <= |p.emitted| <= |Chunks(docs, size)|
    requires p.emitted == Numbered(Chunks(docs, size), 0)[..|p.emitted|]
    ensures forall i :: 0 <= i < n ==>
              p.emitted[i] == Batch(i, RunAt(docs, size, i))
  {
    forall i | 0 <= i < n {
      EmittedRun(p, docs, size, i);
    }
  }

  lemma EmittedRun(p: Produced, docs: seq<Doc>, size: int, i: nat)
    requires size >= 1 && i < |docs| / size && i < |p.emitted| <= |Chunks(docs, size)|
    requires p.emitted == Numbered(Chunks(docs, size), 0)[..|p.emitted|]
    ensures p.emitted[i] == Batch(i, RunAt(docs, size, i))
  {
    assert p.emitted[i] == Batch(i, Chunks(docs, size)[i]);
    FullRun(docs, size, i);
  }

  /**
   * A decode error returns that error; only the batches that had reached
   * `size` were emitted, and the partial batch is dropped.
   */
  lemma ProduceDecodeError(docs: seq<Doc>, message: string, size: int, cancelledAt: nat -> bool)
    requires size >= 1
    requires forall k :: 0 <= k < FullCount(|docs|, size) ==> !cancelledAt(k)
    ensures Produce(docs, DecodeError(message), size, cancelledAt).err == Some(message)
    ensures |Produce(docs, DecodeError(message), size, cancelledAt).emitted| == |docs| / size
    ensures forall i :: 0 <= i < |docs| / size ==>
              Produce(docs, DecodeError(message), size, cancelledAt).emitted[i] == Batch(i, RunAt(docs, size, i))
  {
    var p := Produce(docs, DecodeError(message), size, cancelledAt);
    ProduceFromPrefix(docs, DecodeError(message), size, cancelledAt, 0);
    ProduceClosedForm(docs, DecodeError(message), size, cancelledAt, 0);
    ChunksCount(docs, size);
    EmittedRuns(p, docs, size, |docs| / size);
  }

  /**
   * Cancellation observed while handing over full batch k returns no error,
   * and only the k batches before it were emitted.
   */
  lemma ProduceCancelled(docs: seq<Doc>, end: StreamEnd, size: int, cancelledAt: nat -> bool, k: nat)
    requires size >= 1 && k < |docs| / size
    requires cancelledAt(k) && forall j :: 0 <= j < k ==> !cancelledAt(j)
    ensures Produce(docs, end, size, cancelledAt).err == None
    ensures |Produce(docs, end, size, cancelledAt).emitted| == k
    ensures forall i :: 0 <= i < k ==>
              Produce(docs, end, size, cancelledAt).emitted[i] == Batch(i, RunAt(docs, size, i))
  {
    var p := Produce(docs, end, size, cancelledAt);
    ProduceFromPrefix(docs, end, size, cancelledAt, 0);
    ProduceClosedForm(docs, end, size, cancelledAt, 0);
    ChunksCount(docs, size);
    assert FirstCancelled(cancelledAt, 0, |docs| / size) == k;
    EmittedRuns(p, docs, size, k);
  }

  /** 250 documents in batches of 100: three batches of 100, 100 and 50. */
  lemma TwoHundredFiftyDocuments(docs: seq<Doc>, cancelledAt: nat -> bool)
    requires |docs| == 250
    requires forall k :: 0 <= k < 2 ==> !cancelledAt(k)
    ensures |Produce(docs, EndOfStream, 100, cancelledAt).emitted| == 3
    ensures |Produce(docs, EndOfStream, 100, cancelledAt).emitted[0].docs| == 100
    ensures |Produce(docs, EndOfStream, 100, cancelledAt).emitted[1].docs| == 100
    ensures |Produce(docs, EndOfStream, 100, cancelledAt).emitted[2].docs| == 50
  {
    ProduceCompleteStream(docs, 100, cancelledAt);
    ChunkSizes(docs, 100);
  }

  /** A full batch is handed over: it joins the emitted batches. */
  lemma HandOver(emitted: seq<Batch>, rest: seq<Doc>, end: StreamEnd, size: int, cancelledAt: nat -> bool)
    requires size >= 1 && |rest| >= size && !cancelledAt(|emitted|)
    ensures Prepend(emitted, ProduceFrom(rest, end, size, cancelledAt, |emitted|))
            == Prepend(emitted + [Batch(|emitted|, rest[..size])],
                       ProduceFrom(rest[size..], end, size, cancelledAt, |emitted| + 1))
  {
    var p := ProduceFrom(rest[size..], end, size, cancelledAt, |emitted| + 1);
    assert emitted + ([Batch(|emitted|, rest[..size])] + p.emitted)
        == (emitted + [Batch(|emitted|, rest[..size])]) + p.emitted;
  }

  /** Cancellation observed at a full batch ends the producer with what was emitted. */
  lemma HandOverCancelled(emitted: seq<Batch>, rest: seq<Doc>, end: StreamEnd, size: int, cancelledAt: nat -> bool)
    requires size >= 1 && |rest| >= size && cancelledAt(|emitted|)
    ensures Prepend(emitted, ProduceFrom(rest, end, size, cancelledAt, |emitted|)) == Produced(None, emitted)
  {
    assert emitted + [] == emitted;
  }

  /** With fewer than `size` documents left the producer stops: a decode error, or the flush. */
  lemma EndOfInput(emitted: seq<Batch>, rest: seq<Doc>, end: StreamEnd, size: int, cancelledAt: nat -> bool)
    requires size >= 1 ==> |rest| < size
    ensures Prepend(emitted, ProduceFrom(rest, end, size, cancelledAt, |emitted|))
            == if end.DecodeError? then Produced(Some(end.message), emitted)
               else if rest == [] then Produced(None, emitted)
               else Produced(None, emitted + [Batch(|emitted|, rest)])
  {
    assert emitted + [] == emitted;
  }

  /**
   * `producer`: appends each decoded document to the current batch; a batch
   * that reaches `size` is handed to the queue (unless cancellation is
   * observed while the queue is full) and a new one with the next ID is
   * started. At the end of input a non-empty tail is flushed; a decode error
   * returns at once without flushing.
   */
  method RunProducer(docs: seq<Doc>, end: StreamEnd, size: int, cancelledAt: nat -> bool)
    returns (err: Option<string>, emitted: seq<Batch>)
    ensures Produced(err, emitted) == Produce(docs, end, size, cancelledAt)
  {
    var batch := Batch(0, []);
    emitted := [];
    ghost var start := 0;
    var i := 0;
    assert docs[0..] == docs;
    while i < |docs|
      invariant 0 <= start <= i <= |docs|
      invariant batch == Batch(|emitted|, docs[start..i])
      invariant size >= 1 ==> i - start < size
      invariant Produce(docs, end, size, cancelledAt)
                == Prepend(emitted, ProduceFrom(docs[start..], end, size, cancelledAt, |emitted|))
    {
      batch := batch.(docs := batch.docs + [docs[i]]);
      i := i + 1;
      assert batch.docs == docs[start..i];
      if |batch.docs| == size {
        ghost var rest := docs[start..];
        assert rest[..size] == batch.docs;
        assert rest[size..] == docs[i..];
        if cancelledAt(batch.id) {
          HandOverCancelled(emitted, rest, end, size, cancelledAt);
          return None, emitted;
        }
        HandOver(emitted, rest, end, size, cancelledAt);
        emitted := emitted + [batch];
        batch := Batch(batch.id + 1, []);
        start := i;
      }
    }
    assert docs[start..] == batch.docs;
    EndOfInput(emitted, batch.docs, end, size, cancelledAt);
    if end.DecodeError? {
      return Some(end.message), emitted;
    }
    if |batch.docs| > 0 {
      emitted := emitted + [batch];
    }
    err := None;
  }
}
