/**
 The arithmetic of the parallel sum of squares: how the items are cut into chunks, what one
 job adds up, and why nothing in the 64-bit index computation wraps around.
 */
module SquareSum {
  import opened Arithmetic

  // ---------- Sums of squares over index ranges ----------

  /** The exact sum of squares of `items[lo..hi]`; indices past the end contribute nothing. */
  function SumSquares(items: seq<real>, lo: nat, hi: nat): real
    decreases hi - lo
  {
    if lo >= hi || lo >= |items| then 0.0
    else items[lo] * items[lo] + SumSquares(items, lo + 1, hi)
  }

  lemma {:induction false} SumSquaresSplit(items: seq<real>, lo: nat, mid: nat, hi: nat)
    requires lo <= mid <= hi
    ensures SumSquares(items, lo, hi) == SumSquares(items, lo, mid) + SumSquares(items, mid, hi)
    decreases mid - lo
  {
    if lo < mid && lo < |items| {
      SumSquaresSplit(items, lo + 1, mid, hi);
    }
  }

  /** The body of one job before it takes the accumulator lock. */
  method PartialSum(items: seq<real>, start: nat, end: nat) returns (partial: real)
    requires start <= end <= |items|
    ensures partial == SumSquares(items, start, end)
  {
    partial := 0.0;
    for i := start to end
      invariant partial + SumSquares(items, i, end) == SumSquares(items, start, end)
    {
      partial := partial + items[i] * items[i];
    }
  }

  // ---------- Chunks ----------

  function ChunkSize(n: nat, workers: nat): nat
    requires workers >= 1
  {
    (n + workers - 1) / workers
  }

  function ChunkLo(n: nat, workers: nat, w: nat): nat
    requires workers >= 1
  {
    w * ChunkSize(n, workers)
  }

  function ChunkHi(n: nat, workers: nat, w: nat): nat
    requires workers >= 1
  {
    var end := ChunkLo(n, workers, w) + ChunkSize(n, workers);
    if end < n then end else n
  }

  /** How many chunks hold at least one item: the ceiling of n over the chunk size. */
  function ChunkCount(n: nat, workers: nat): nat
    requires workers >= 1
  {
    var chunk := ChunkSize(n, workers);
    if chunk == 0 then 0 else (n + chunk - 1) / chunk
  }

  /** The chunk size is the least one with which `workers` chunks cover all the items. */
  lemma ChunkSizeIsLeast(n: nat, workers: nat)
    requires workers >= 1
    ensures workers * ChunkSize(n, workers) >= n
    ensures forall c: nat :: workers * c >= n ==> ChunkSize(n, workers) <= c
    ensures n >= 1 ==> 1 <= ChunkSize(n, workers) <= n
    ensures n == 0 ==> ChunkSize(n, workers) == 0
  {
    var chunk := ChunkSize(n, workers);
    CeilingDivision(n, workers);
    assert chunk * workers == workers * chunk;
    forall c: nat | workers * c >= n
      ensures chunk <= c
    {
      assert c * workers == workers * c;
      if c < chunk {
        MulMonotone(c, chunk - 1, workers);
      }
    }
    if n >= 1 {
      MulMonotone(1, workers, n);
      assert workers * n >= n;
    }
  }

  /**
   The loop's two exits together, the bound `w < workers` and the early break on
   `start >= n`, stop exactly at the chunk count.
   */
  lemma ChunkGuard(n: nat, workers: nat, w: nat)
    requires workers >= 1
    ensures ChunkCount(n, workers) <= workers
    ensures w < ChunkCount(n, workers) <==> w < workers && ChunkLo(n, workers, w) < n
    ensures w >= ChunkCount(n, workers) ==> ChunkLo(n, workers, w) >= n
  {
    ChunkSizeIsLeast(n, workers);
    var chunk, count := ChunkSize(n, workers), ChunkCount(n, workers);
    if chunk > 0 {
      CeilingDivision(n, chunk);
      if w < count {
        MulMonotone(w, count - 1, chunk);
      } else {
        MulMonotone(count, w, chunk);
      }
      if workers < count {
        MulMonotone(workers, count - 1, chunk);
      }
    }
  }

  /** Chunk `w` is non-empty, lies inside the items and ends where the next one starts. */
  lemma ChunkBounds(n: nat, workers: nat, w: nat)
    requires workers >= 1 && w < ChunkCount(n, workers)
    ensures ChunkLo(n, workers, w) < ChunkHi(n, workers, w) <= n
    ensures ChunkLo(n, workers, w + 1) == ChunkLo(n, workers, w) + ChunkSize(n, workers)
    ensures w + 1 < ChunkCount(n, workers) ==> ChunkHi(n, workers, w) == ChunkLo(n, workers, w + 1)
    ensures w + 1 == ChunkCount(n, workers) ==> ChunkHi(n, workers, w) == n
  {
    ChunkSizeIsLeast(n, workers);
    ChunkGuard(n, workers, w);
    ChunkGuard(n, workers, w + 1);
    var chunk := ChunkSize(n, workers);
    assert (w + 1) * chunk == w * chunk + chunk;
  }

  /** Every item index lies in exactly one chunk: the one its quotient by the chunk size names. */
  lemma ChunksPartition(n: nat, workers: nat, k: nat, w: nat)
    requires workers >= 1 && k < n
    ensures w < ChunkCount(n, workers) && ChunkLo(n, workers, w) <= k < ChunkHi(n, workers, w)
            <==> w == k / ChunkSize(n, workers)
  {
    ChunkSizeIsLeast(n, workers);
    var chunk := ChunkSize(n, workers);
    if w == k / chunk {
      assert k == w * chunk + k % chunk;
      ChunkGuard(n, workers, w);
      if w >= workers {
        MulMonotone(workers, w, chunk);
      }
    } else if ChunkLo(n, workers, w) <= k < ChunkHi(n, workers, w) {
      DivModUnique(k, chunk, w, k - w * chunk);
    }
  }

  // ---------- The submission loop on 64-bit sizes ----------

  const SIZE_MODULUS: nat := 0x1_0000_0000_0000_0000

  /** An unsigned 64-bit result. */
  function Wrap(x: int): nat {
    x % SIZE_MODULUS
  }

  datatype Range = Range(start: nat, end: nat)

  /** The chunks as the exact, unbounded arithmetic gives them. */
  function ChunkRanges(n: nat, workers: nat): seq<Range>
    requires workers >= 1
  {
    seq(ChunkCount(n, workers), w requires w >= 0 => Range(ChunkLo(n, workers, w), ChunkHi(n, workers, w)))
  }

  /** Non-empty consecutive ranges that start at 0 and end at `n`, at most `workers` of them. */
  predicate Partitions(ranges: seq<Range>, n: nat, workers: nat) {
    && 1 <= |ranges| <= workers
    && ranges[0].start == 0
    && ranges[|ranges| - 1].end == n
    && (forall i :: 0 <= i < |ranges| ==> ranges[i].start < ranges[i].end <= n)
    && (forall i :: 0 <= i < |ranges| - 1 ==> ranges[i].end == ranges[i + 1].start)
  }

  lemma ChunkRangesPartition(n: nat, workers: nat)
    requires workers >= 1 && n >= 1
    ensures Partitions(ChunkRanges(n, workers), n, workers)
  {
    ChunkGuard(n, workers, 0);
    var ranges := ChunkRanges(n, workers);
    forall i | 0 <= i < |ranges|
      ensures ranges[i].start < ranges[i].end <= n
      ensures i < |ranges| - 1 ==> ranges[i].end == ranges[i + 1].start
      ensures i == |ranges| - 1 ==> ranges[i].end == n
    {
      ChunkBounds(n, workers, i);
    }
  }

  /**
   The submission loop with every size computed modulo 2^64, as the program does. For any
   vector of at most 2^63 items and any pool of at most 2^63 threads nothing wraps: the
   ranges are those of exact arithmetic, and they partition the items.
   */
  method SubmitRanges(n: nat, poolSize: nat) returns (ranges: seq<Range>)
    requires 1 <= n <= SIZE_MODULUS / 2 && poolSize <= SIZE_MODULUS / 2
    ensures var workers := if poolSize < 1 then 1 else poolSize;
            ranges == ChunkRanges(n, workers) && Partitions(ranges, n, workers)
  {
    var workers := if poolSize < 1 then 1 else poolSize;
    var chunk := Wrap(Wrap(n + workers) - 1) / workers;
    NoWrapInChunk(n, workers);
    assert chunk == ChunkSize(n, workers);
    ChunkRangesPartition(n, workers);
    ChunkGuard(n, workers, 0);
    ranges := [];
    var w := 0;
    while w < workers
      invariant w <= ChunkCount(n, workers) <= workers
      invariant ranges == ChunkRanges(n, workers)[..w]
      decreases workers - w
    {
      NextRange(n, workers, w);
      var start := Wrap(w * chunk);
      if start >= n {
        break;
      }
      var end := if Wrap(start + chunk) < n then Wrap(start + chunk) else n;
      ranges := ranges + [Range(start, end)];
      w := w + 1;
    }
  }

  lemma NoWrapInChunk(n: nat, workers: nat)
    requires 1 <= n <= SIZE_MODULUS / 2 && 1 <= workers <= SIZE_MODULUS / 2
    ensures Wrap(Wrap(n + workers) - 1) == n + workers - 1
  {
    if n + workers == SIZE_MODULUS {
      assert Wrap(n + workers) == 0;
      assert Wrap(-1) == SIZE_MODULUS - 1;
    }
  }

  /** In every iteration the loop reaches, the start is below 2n and the end below 2n as well. */
  lemma NoWrapInIteration(n: nat, workers: nat, w: nat)
    requires 1 <= n <= SIZE_MODULUS / 2 && 1 <= workers
    requires w <= ChunkCount(n, workers)
    ensures ChunkLo(n, workers, w) < 2 * n
    ensures Wrap(w * ChunkSize(n, workers)) == ChunkLo(n, workers, w)
    ensures w < ChunkCount(n, workers) ==>
              Wrap(ChunkLo(n, workers, w) + ChunkSize(n, workers))
              == ChunkLo(n, workers, w) + ChunkSize(n, workers) < 2 * n
  {
    ChunkSizeIsLeast(n, workers);
    ChunkGuard(n, workers, w);
    var chunk := ChunkSize(n, workers);
    if w > 0 {
      ChunkGuard(n, workers, w - 1);
      assert w * chunk == (w - 1) * chunk + chunk;
    }
  }

  /** What the wrapped arithmetic of iteration `w` computes. */
  lemma NextRange(n: nat, workers: nat, w: nat)
    requires 1 <= n <= SIZE_MODULUS / 2 && 1 <= workers && w <= ChunkCount(n, workers)
    ensures var start := Wrap(w * ChunkSize(n, workers));
            && (start < n <==> w < ChunkCount(n, workers))
            && (w < ChunkCount(n, workers) ==>
                  var end := Wrap(start + ChunkSize(n, workers));
                  ChunkRanges(n, workers)[w] == Range(start, if end < n then end else n))
  {
    ChunkGuard(n, workers, w);
    NoWrapInIteration(n, workers, w);
  }

  // ---------- The whole computation, jobs run one after another ----------

  /** The merges of the first `w` chunks add up to the sum over the items before chunk `w`. */
  lemma ChunkSumStep(items: seq<real>, workers: nat, w: nat)
    requires workers >= 1 && w < ChunkCount(|items|, workers)
    ensures var n := |items|;
            SumSquares(items, ChunkLo(n, workers, w), n)
            == SumSquares(items, ChunkLo(n, workers, w), ChunkHi(n, workers, w))
               + SumSquares(items, ChunkLo(n, workers, w + 1), n)
  {
    var n := |items|;
    ChunkBounds(n, workers, w);
    SumSquaresSplit(items, ChunkLo(n, workers, w), ChunkHi(n, workers, w), n);
    if w + 1 == ChunkCount(n, workers) {
      ChunkGuard(n, workers, w + 1);
    }
  }

  /** The sequential schedule: each job runs to its merge before the next one is submitted. */
  method ComputeSquareSum(items: seq<real>, poolSize: nat) returns (accumulator: real)
    requires |items| <= SIZE_MODULUS / 2 && poolSize <= SIZE_MODULUS / 2
    ensures accumulator == SumSquares(items, 0, |items|)
  {
    if items == [] {
      return 0.0;
    }
    ghost var workers := if poolSize < 1 then 1 else poolSize;
    var ranges := SubmitRanges(|items|, poolSize);
    accumulator := 0.0;
    for i := 0 to |ranges|
      invariant accumulator + SumSquares(items, ChunkLo(|items|, workers, i), |items|)
                == SumSquares(items, 0, |items|)
    {
      ChunkSumStep(items, workers, i);
      var partial := PartialSum(items, ranges[i].start, ranges[i].end);
      accumulator := accumulator + partial;
    }
    ChunkGuard(|items|, workers, |ranges|);
  }
}
