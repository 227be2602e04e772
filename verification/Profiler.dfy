/** The moving average of the processing speed, as profiler.cpp keeps it. Arithmetic is exact; the program rounds. */
module Profiler {
  import opened Blocks
  import opened Octets

  // ----- multiples and means

  /** `n` times `x`, by repeated addition. */
  function Scale(x: real, n: nat): real {
    if n == 0 then 0.0 else Scale(x, n - 1) + x
  }

  lemma {:induction false} ScaleIs(x: real, n: nat)
    ensures Scale(x, n) == x * n as real
  {
    if n > 0 {
      ScaleIs(x, n - 1);
      assert x * n as real == x * (n - 1) as real + x;
    }
  }

  lemma {:induction false} ScaleAdd(x: real, y: real, n: nat)
    ensures Scale(x + y, n) == Scale(x, n) + Scale(y, n)
  {
    if n > 0 { ScaleAdd(x, y, n - 1); }
  }

  lemma {:induction false} ScaleSplit(x: real, n: nat, m: nat)
    ensures Scale(x, n + m) == Scale(x, n) + Scale(x, m)
  {
    if m > 0 { ScaleSplit(x, n, m - 1); }
  }

  lemma {:induction false} ScaleTwice(x: real, len: nat, k: nat, n: nat)
    requires n == len * k
    ensures Scale(x, n) == Scale(Scale(x, k), len)
    decreases len
  {
    if len > 0 {
      var m := (len - 1) * k;
      assert n == m + k;
      ScaleTwice(x, len - 1, k, m);
      ScaleSplit(x, m, k);
    }
  }

  function Sum(xs: seq<real>): real {
    if xs == [] then 0.0 else Sum(xs[..|xs| - 1]) + xs[|xs| - 1]
  }

  function Ratio(x: real, n: nat): real
    requires n > 0
  {
    x / n as real
  }

  lemma RatioTimes(x: real, n: nat)
    requires n > 0
    ensures Scale(Ratio(x, n), n) == x
  {
    ScaleIs(Ratio(x, n), n);
  }

  /** Multiples determine what they are multiples of. */
  lemma {:induction false} ScaleInjective(x: real, y: real, n: nat)
    requires n > 0 && Scale(x, n) == Scale(y, n)
    ensures x == y
  {
    ScaleIs(x, n);
    ScaleIs(y, n);
    Cancel(x, y, n as real);
  }

  lemma Cancel(x: real, y: real, n: real)
    requires n > 0.0 && x * n == y * n
    ensures x == y
  {
    assert (x - y) * n == 0.0;
  }

  function Mean(xs: seq<real>): real
    requires xs != []
  {
    Ratio(Sum(xs), |xs|)
  }

  /** The mean of some samples, if there are any. */
  ghost predicate IsMean(x: real, xs: seq<real>) {
    Scale(x, |xs|) == Sum(xs)
  }

  lemma FullMean(x: real, xs: seq<real>)
    requires IsMean(x, xs) && xs != []
    ensures x == Mean(xs)
  {
    RatioTimes(Sum(xs), |xs|);
    ScaleInjective(x, Mean(xs), |xs|);
  }

  /** `n` samples of one frame, all processed at its speed. */
  function Copies(x: real, n: nat): (r: seq<real>)
    ensures |r| == n
  {
    seq(n, i => x)
  }

  lemma {:induction false} SumConcat(xs: seq<real>, ys: seq<real>)
    ensures Sum(xs + ys) == Sum(xs) + Sum(ys)
  {
    if ys == [] {
      assert xs + ys == xs;
    } else {
      var init := ys[..|ys| - 1];
      assert (xs + ys)[..|xs + ys| - 1] == xs + init;
      SumConcat(xs, init);
    }
  }

  lemma {:induction false} SumCopies(x: real, n: nat)
    ensures Sum(Copies(x, n)) == Scale(x, n)
  {
    if n > 0 {
      SumCopies(x, n - 1);
      assert Copies(x, n)[..n - 1] == Copies(x, n - 1);
    }
  }

  /** The sum of the means of chunks `a` to `b - 1`. */
  function MeanSum(done: seq<seq<real>>, a: nat, b: nat): real
    requires a <= b <= |done| && forall i :: 0 <= i < |done| ==> done[i] != []
  {
    if a == b then 0.0 else MeanSum(done, a, b - 1) + Mean(done[b - 1])
  }

  lemma {:induction false} MeanSumFirst(done: seq<seq<real>>, a: nat, b: nat)
    requires a < b <= |done| && forall i :: 0 <= i < |done| ==> done[i] != []
    ensures MeanSum(done, a, b) == Mean(done[a]) + MeanSum(done, a + 1, b)
  {
    if a + 1 < b {
      MeanSumFirst(done, a, b - 1);
    }
  }

  lemma {:induction false} MeanSumPrefix(done: seq<seq<real>>, more: seq<seq<real>>, a: nat, b: nat)
    requires a <= b <= |done| && done <= more && forall i :: 0 <= i < |more| ==> more[i] != []
    ensures (forall i :: 0 <= i < |done| ==> done[i] != []) && MeanSum(done, a, b) == MeanSum(more, a, b)
  {
    assert forall i :: 0 <= i < |done| ==> done[i] == more[i];
    if a < b {
      MeanSumPrefix(done, more, a, b - 1);
    }
  }

  // ----- one chunk

  /** The weighted update of a chunk's mean. */
  function Weighted(mean: real, speed: real, total: nat, n: nat): real
    requires total > 0
  {
    mean + (speed - mean) / total as real * n as real
  }

  lemma WeightedSum(mean: real, speed: real, w: real, n: real, total: real)
    requires total > 0.0 && total == w + n
    ensures (mean + (speed - mean) / total * n) * total == mean * w + speed * n
  {
    var d := speed - mean;
    var e := d / total;
    assert e * total == d;
    assert (mean + e * n) * total == mean * total + (e * n) * total;
    assert (e * n) * total == (e * total) * n;
    assert mean * total == mean * w + mean * n;
    assert d * n == speed * n - mean * n;
  }

  lemma WeightedIs(mean: real, speed: real, k: nat, n: nat)
    requires n > 0
    ensures Scale(Weighted(mean, speed, k + n, n), k + n) == Scale(mean, k) + Scale(speed, n)
  {
    WeightedSum(mean, speed, k as real, n as real, (k + n) as real);
    ScaleIs(Weighted(mean, speed, k + n, n), k + n);
    ScaleIs(mean, k);
    ScaleIs(speed, n);
  }

  /** The update keeps the mean of all samples of the chunk. */
  lemma WeightedIsMean(mean: real, cur: seq<real>, speed: real, n: nat, more: seq<real>, next: real)
    requires n > 0 && IsMean(mean, cur) && more == cur + Copies(speed, n) && next == Weighted(mean, speed, |cur| + n, n)
    ensures IsMean(next, more)
  {
    SumConcat(cur, Copies(speed, n));
    SumCopies(speed, n);
    WeightedIs(mean, speed, |cur|, n);
  }

  // ----- the ring of chunks

  /** Chunks that count in the average: all while the ring fills, then all but the one being filled. */
  function Window(k: nat, num: nat): nat
    requires num >= 2
  {
    if k < num then k else num - 1
  }

  lemma Distinct(a: nat, b: nat, num: nat)
    requires b < a < b + num
    ensures a % num != b % num
  {
    var q, r, d := b / num, b % num, a - b;
    assert b == q * num + r && (q + 1) * num == q * num + num;
    if r + d < num { ModIs(a, num, q, r + d); } else { ModIs(a, num, q + 1, r + d - num); }
  }

  lemma NextSlot(k: nat, num: nat)
    requires num >= 2
    ensures (k % num + 1) % num == (k + 1) % num
  {
    var q, r := k / num, k % num;
    assert k == q * num + r;
    if r + 1 < num {
      ModIs(k + 1, num, q, r + 1);
      ModIs(r + 1, num, 0, r + 1);
    } else {
      assert (q + 1) * num == q * num + num;
      ModIs(k + 1, num, q + 1, 0);
      ModIs(num, num, 1, 0);
    }
  }

  lemma SmallSlot(k: nat, num: nat)
    requires k < num
    ensures k % num == k
  {
    ModIs(k, num, 0, k);
  }

  lemma SameSlot(k: nat, num: nat)
    requires num > 0
    ensures (k + num) % num == k % num
  {
    var q, r := k / num, k % num;
    assert k == q * num + r && (q + 1) * num == q * num + num;
    ModIs(k + num, num, q + 1, r);
  }

  /** Slot `j % num` holds the mean of chunk `j`, for all chunks that count. */
  ghost predicate Ring(chunks: seq<real>, done: seq<seq<real>>, num: nat) {
    && |chunks| == num >= 2 && (forall i :: 0 <= i < |done| ==> done[i] != [])
    && forall j :: |done| - Window(|done|, num) <= j < |done| ==> 0 <= j % num < num && chunks[j % num] == Mean(done[j])
  }

  /** A finished chunk joins the ring, and the slot for the next one is cleared. */
  lemma RingMore(chunks: seq<real>, done: seq<seq<real>>, num: nat, cur: seq<real>, mean: real)
    requires Ring(chunks, done, num) && cur != [] && mean == Mean(cur)
    ensures 0 <= |done| % num < num && 0 <= (|done| + 1) % num < num
    ensures Ring(chunks[|done| % num := mean][(|done| + 1) % num := 0.0], done + [cur], num)
  {
    var k := |done|;
    var c := chunks[k % num := mean][(k + 1) % num := 0.0];
    forall j | k + 1 - Window(k + 1, num) <= j < k + 1
      ensures 0 <= j % num < num && c[j % num] == Mean((done + [cur])[j])
    {
      Distinct(k + 1, j, num);
      if j < k {
        Distinct(k, j, num);
      }
    }
  }

  lemma RingNext(chunks: seq<real>, done: seq<seq<real>>, num: nat, cur: seq<real>, mean: real)
    requires Ring(chunks, done, num) && cur != [] && mean == Mean(cur) && 0 <= |done| % num < |chunks|
    requires chunks[|done| % num] == mean
    ensures 0 <= (|done| + 1) % num < num && Ring(chunks[(|done| + 1) % num := 0.0], done + [cur], num)
  {
    RingMore(chunks, done, num, cur, mean);
    assert chunks[|done| % num := mean] == chunks;
  }

  /** The oldest chunk that counts is the one after the next slot. */
  lemma Oldest(k: nat, num: nat, first: nat)
    requires num >= 2 && k + 1 >= num && first == if k < num then 0 else (k + 1) % num
    ensures k - Window(k, num) == k + 1 - num && (k + 1 - num) % num == first == (k + 1) % num
  {
    SameSlot(k + 1 - num, num);
    if k < num {
      SmallSlot(0, num);
    }
  }

  // ----- the moving average

  /** Cumulative moving average: the mean of `count` chunks, from that of one fewer. */
  function Grown(avg: real, count: nat, mean: real): real
    requires count > 0
  {
    (avg * (count - 1) as real + mean) / count as real
  }

  lemma GrownIs(avg: real, k: nat, mean: real)
    ensures Scale(Grown(avg, k + 1, mean), k + 1) == Scale(avg, k) + mean
  {
    ScaleIs(avg, k);
    RatioTimes(avg * k as real + mean, k + 1);
  }

  /** Simple moving average: one chunk of `count` replaced. */
  function Slid(avg: real, count: nat, mean: real, oldest: real): real
    requires count > 0
  {
    avg + (mean - oldest) / count as real
  }

  lemma SlidIs(avg: real, m: nat, mean: real, oldest: real)
    requires m > 0
    ensures Scale(Slid(avg, m, mean, oldest), m) == Scale(avg, m) + mean - oldest
  {
    ScaleAdd(avg, Ratio(mean - oldest, m), m);
    RatioTimes(mean - oldest, m);
  }

  /** `avg` is the mean of the chunks that count. */
  ghost predicate AverageIs(avg: real, done: seq<seq<real>>, num: nat) {
    && num >= 2 && (forall i :: 0 <= i < |done| ==> done[i] != [])
    && Scale(avg, Window(|done|, num)) == MeanSum(done, |done| - Window(|done|, num), |done|)
  }

  lemma AverageGrows(avg: real, done: seq<seq<real>>, num: nat, cur: seq<real>, mean: real)
    requires AverageIs(avg, done, num) && |done| + 1 < num && cur != [] && mean == Mean(cur)
    ensures AverageIs(Grown(avg, |done| + 1, mean), done + [cur], num)
  {
    var k, more := |done|, done + [cur];
    MeanSumPrefix(done, more, 0, k);
    GrownIs(avg, k, mean);
    assert MeanSum(more, 0, k + 1) == MeanSum(more, 0, k) + Mean(more[k]);
  }

  /** One chunk joins and the first one leaves. */
  lemma SlideWindow(done: seq<seq<real>>, cur: seq<real>, a: nat)
    requires a < |done| && cur != [] && forall i :: 0 <= i < |done| ==> done[i] != []
    ensures MeanSum(done + [cur], a + 1, |done| + 1) == MeanSum(done, a, |done|) + Mean(cur) - Mean(done[a])
  {
    var k, more := |done|, done + [cur];
    MeanSumPrefix(done, more, a, k);
    MeanSumFirst(more, a, k + 1);
    assert MeanSum(more, a, k + 1) == MeanSum(more, a, k) + Mean(more[k]);
  }

  lemma AverageSlides(avg: real, done: seq<seq<real>>, num: nat, cur: seq<real>, mean: real, oldest: real)
    requires AverageIs(avg, done, num) && |done| + 1 >= num && cur != [] && mean == Mean(cur)
    requires oldest == Mean(done[|done| + 1 - num])
    ensures AverageIs(Slid(avg, num - 1, mean, oldest), done + [cur], num)
  {
    SlideWindow(done, cur, |done| + 1 - num);
    SlidIs(avg, num - 1, mean, oldest);
  }

  // ----- reading the average

  function FrameSpeed(n: nat, elapsed: nat, chans: nat): real
    requires elapsed > 0 && chans > 0
  {
    (n * 1_000_000_000) as real / elapsed as real / chans as real
  }

  /** The average when `n` samples are in full chunks. */
  function Partial(avg: real, n: nat, last: real, samples: nat): real
    requires n + samples > 0
  {
    (avg * n as real + last * samples as real) / (n + samples) as real
  }

  lemma PartialSum(avg: real, n: nat, last: real, samples: nat)
    requires n + samples > 0
    ensures Partial(avg, n, last, samples) == Ratio(Scale(avg, n) + Scale(last, samples), n + samples)
  {
    ScaleIs(avg, n);
    ScaleIs(last, samples);
  }

  /** The average when the ring is full: part of the oldest chunk gives way to the one being filled. */
  function Rolling(avg: real, n: nat, first: real, last: real, samples: nat): real
    requires n > 0
  {
    (avg * n as real - first * samples as real + last * samples as real) / n as real
  }

  lemma RollingSum(avg: real, n: nat, first: real, last: real, samples: nat)
    requires n > 0
    ensures Scale(Rolling(avg, n, first, last, samples), n)
              == Scale(avg, n) - Scale(first, samples) + Scale(last, samples)
  {
    ScaleIs(avg, n);
    ScaleIs(first, samples);
    ScaleIs(last, samples);
    RatioTimes(avg * n as real - first * samples as real + last * samples as real, n);
  }

  lemma {:induction false} ConcatLength(done: seq<seq<real>>, len: nat)
    requires forall i :: 0 <= i < |done| ==> |done[i]| == len
    ensures |Concat(done)| == len * |done|
  {
    if done != [] {
      ConcatLength(done[..|done| - 1], len);
      assert len * |done| == len * (|done| - 1) + len;
    }
  }

  lemma {:induction false} ChunkSums(done: seq<seq<real>>, len: nat)
    requires len > 0 && forall i :: 0 <= i < |done| ==> |done[i]| == len
    ensures Scale(MeanSum(done, 0, |done|), len) == Sum(Concat(done))
  {
    if done == [] {
      ScaleIs(0.0, len);
    } else {
      var init, last := done[..|done| - 1], done[|done| - 1];
      ChunkSums(init, len);
      OneMoreChunk(init, last, len, done);
    }
  }

  lemma OneMoreChunk(init: seq<seq<real>>, last: seq<real>, len: nat, done: seq<seq<real>>)
    requires len > 0 && |last| == len && done == init + [last] && (forall i :: 0 <= i < |done| ==> |done[i]| == len)
    requires forall i :: 0 <= i < |init| ==> |init[i]| == len
    requires Scale(MeanSum(init, 0, |init|), len) == Sum(Concat(init))
    ensures Scale(MeanSum(done, 0, |done|), len) == Sum(Concat(done))
  {
    ConcatAdd(init, last);
    SumConcat(Concat(init), last);
    MeanSumPrefix(init, done, 0, |init|);
    MeanTimes(last);
    StepChunk(MeanSum(init, 0, |init|), Mean(last), len, MeanSum(done, 0, |done|));
  }

  lemma MeanTimes(xs: seq<real>)
    requires xs != []
    ensures Scale(Mean(xs), |xs|) == Sum(xs)
  {
    RatioTimes(Sum(xs), |xs|);
  }

  lemma StepChunk(a: real, m: real, len: nat, total: real)
    requires total == a + m
    ensures Scale(total, len) == Scale(a, len) + Scale(m, len)
  {
    ScaleAdd(a, m, len);
  }

  lemma PartialIsMean(avg: real, done: seq<seq<real>>, cur: seq<real>, len: nat, last: real, n: nat)
    requires len > 0 && (forall i :: 0 <= i < |done| ==> |done[i]| == len) && Concat(done) + cur != []
    requires Scale(avg, |done|) == MeanSum(done, 0, |done|) && IsMean(last, cur) && n == len * |done|
    ensures n + |cur| > 0 && Partial(avg, n, last, |cur|) == Mean(Concat(done) + cur)
  {
    ConcatLength(done, len);
    ChunkSums(done, len);
    SumConcat(Concat(done), cur);
    ScaleTwice(avg, len, |done|, n);
    PartialSum(avg, n, last, |cur|);
  }

  /**
   * `r` is the mean over `k` chunk lengths: `others` is the sum of the means of all chunks but the oldest, which
   * counts in part.
   */
  ghost predicate RollingMean(r: real, len: nat, k: nat, oldest: real, others: real, samples: nat, s: real) {
    samples <= len && Scale(r, len * k) == Scale(others, len) + Scale(oldest, len - samples) + s
  }

  lemma RollingIsMean(avg: real, len: nat, k: nat, n: nat, first: real, last: real, samples: nat, others: real, s: real)
    requires n == len * k > 0 && samples <= len && Scale(avg, k) == first + others && Scale(last, samples) == s
    ensures RollingMean(Rolling(avg, n, first, last, samples), len, k, first, others, samples, s)
  {
    RollingSum(avg, n, first, last, samples);
    ScaleTwice(avg, len, k, n);
    ScaleAdd(first, others, len);
    ScaleSplit(first, len - samples, samples);
  }

  lemma RingMean(chunks: seq<real>, done: seq<seq<real>>, cur: seq<real>, num: nat, len: nat, avg: real, first: nat,
                 last: nat, n: nat)
    requires Ring(chunks, done, num) && AverageIs(avg, done, num) && |done| >= num && n == len * (num - 1) > 0
    requires first == (|done| + 1) % num && last < |chunks| && IsMean(chunks[last], cur) && |cur| <= len
    ensures first < |chunks|
    ensures var a := |done| - (num - 1);
            RollingMean(Rolling(avg, n, chunks[first], chunks[last], |cur|), len, num - 1, Mean(done[a]),
                        MeanSum(done, a + 1, |done|), |cur|, Sum(cur))
  {
    var others := OldestLeaves(chunks, done, num, avg, first);
    RollingIsMean(avg, len, num - 1, n, chunks[first], chunks[last], |cur|, others, Sum(cur));
  }

  lemma OldestLeaves(chunks: seq<real>, done: seq<seq<real>>, num: nat, avg: real, first: nat) returns (others: real)
    requires Ring(chunks, done, num) && AverageIs(avg, done, num) && |done| >= num && first == (|done| + 1) % num
    ensures var a := |done| - (num - 1);
            first < |chunks| && chunks[first] == Mean(done[a]) && others == MeanSum(done, a + 1, |done|)
    ensures Scale(avg, num - 1) == chunks[first] + others
  {
    var a := |done| - (num - 1);
    Oldest(|done|, num, first);
    assert chunks[a % num] == Mean(done[a]);
    MeanSumFirst(done, a, |done|);
    others := MeanSum(done, a + 1, |done|);
  }

  lemma Positive(x: nat, y: nat)
    requires x > 0 && y > 0
    ensures x * y > 0
  {
  }

  class Profiler {
    const chunkLength: nat
    const numChunks: nat
    const chunks: array<real>
    var firstChunkNum: nat
    var lastChunkNum: nat
    var lastChunkSamples: nat
    var movingAvg: real
    var bufferFull: bool
    /** The speed of every sample: in chunks that are full, and in the one being filled. */
    ghost var done: seq<seq<real>>
    ghost var cur: seq<real>

    ghost predicate Shape()
      reads this
    {
      && chunkLength > 0 && numChunks >= 2 && chunks.Length == numChunks
      && (forall i :: 0 <= i < |done| ==> |done[i]| == chunkLength)
      && lastChunkNum == |done| % numChunks && bufferFull == (|done| >= numChunks)
      && firstChunkNum == if |done| < numChunks then 0 else (|done| + 1) % numChunks
    }

    /** The slot being filled holds the mean of the samples in it. */
    ghost predicate Filling()
      requires 0 <= lastChunkNum < chunks.Length
      reads this, chunks
    {
      lastChunkSamples == |cur| && IsMean(chunks[lastChunkNum], cur)
    }

    ghost predicate Valid()
      reads this, chunks
    {
      && Shape() && Ring(chunks[..], done, numChunks) && AverageIs(movingAvg, done, numChunks)
      && 0 <= lastChunkNum < chunks.Length && Filling() && |cur| < chunkLength
    }

    constructor (chunkLength: nat, numChunks: nat)
      requires chunkLength > 0 && numChunks >= 2
      ensures Valid() && done == [] && cur == [] && fresh(chunks) && this.chunkLength == chunkLength
      ensures this.numChunks == numChunks
    {
      this.chunkLength, this.numChunks := chunkLength, numChunks;
      chunks := new real[numChunks](i => 0.0);
      firstChunkNum, lastChunkNum, lastChunkSamples, movingAvg, bufferFull := 0, 0, 0, 0.0, false;
      done, cur := [], [];
      new;
      SmallSlot(0, numChunks);
    }

    /** Adds samples to the chunk being filled. */
    method AddToChunk(speed: real, n: nat)
      requires Valid() && 0 < n <= chunkLength - lastChunkSamples
      modifies this`lastChunkSamples, this`cur, chunks
      ensures Shape() && Ring(chunks[..], done, numChunks) && AverageIs(movingAvg, done, numChunks)
      ensures 0 <= lastChunkNum < chunks.Length && Filling()
      ensures cur == old(cur) + Copies(speed, n)
    {
      var mean := Weighted(chunks[lastChunkNum], speed, lastChunkSamples + n, n);
      WeightedIsMean(chunks[lastChunkNum], cur, speed, n, cur + Copies(speed, n), mean);
      lastChunkSamples := lastChunkSamples + n;
      RingKeeps(chunks[..], done, numChunks, mean);
      chunks[lastChunkNum] := mean;
      cur := cur + Copies(speed, n);
    }

    /** A full chunk is taken into the average, and the next slot is begun. */
    method FinishChunk()
      requires Shape() && Ring(chunks[..], done, numChunks) && AverageIs(movingAvg, done, numChunks)
      requires 0 <= lastChunkNum < chunks.Length && Filling() && |cur| == chunkLength
      modifies this, chunks
      ensures Valid() && done == old(done) + [old(cur)] && cur == []
    {
      ghost var k := |done|;
      var speed := chunks[lastChunkNum];
      FullMean(speed, cur);
      RingNext(chunks[..], done, numChunks, cur, speed);
      NextSlot(k, numChunks);
      NextChunk(speed, done + [cur]);
    }

    method NextChunk(speed: real, ghost more: seq<seq<real>>)
      requires Shape() && Ring(chunks[..], done, numChunks) && AverageIs(movingAvg, done, numChunks)
      requires (lastChunkNum + 1) % numChunks == (|done| + 1) % numChunks < chunks.Length
      requires |cur| == chunkLength && speed == Mean(cur) && more == done + [cur]
      requires Ring(chunks[..][(|done| + 1) % numChunks := 0.0], more, numChunks)
      modifies this, chunks
      ensures Valid() && done == more && cur == []
    {
      lastChunkNum := (lastChunkNum + 1) % numChunks;
      TakeIn(speed);
      BeginChunk(more);
    }

    /** The next slot is empty. */
    method BeginChunk(ghost more: seq<seq<real>>)
      requires chunkLength > 0 && numChunks >= 2 && chunks.Length == numChunks
      requires more == done + [cur] && forall i :: 0 <= i < |more| ==> |more[i]| == chunkLength
      requires lastChunkNum == |more| % numChunks < chunks.Length && bufferFull == (|more| >= numChunks)
      requires firstChunkNum == if |more| < numChunks then 0 else (|more| + 1) % numChunks
      requires AverageIs(movingAvg, more, numChunks) && Ring(chunks[..][lastChunkNum := 0.0], more, numChunks)
      modifies this`lastChunkSamples, this`done, this`cur, chunks
      ensures Valid() && done == more && cur == []
    {
      ghost var ring := chunks[..][lastChunkNum := 0.0];
      lastChunkSamples := 0;
      chunks[lastChunkNum] := 0.0;
      assert chunks[..] == ring;
      done, cur := more, [];
    }

    /** Adds as many of `n` samples as the chunk has room for. */
    method Round(speed: real, n: nat) returns (m: nat)
      requires Valid() && n > 0
      modifies this, chunks
      ensures Valid() && 0 < m <= n
      ensures Concat(done) + cur == old(Concat(done) + cur) + Copies(speed, m)
    {
      m := Min(n, chunkLength - lastChunkSamples);
      AddToChunk(speed, m);
      Appended(done, old(cur), Copies(speed, m));
      if lastChunkSamples == chunkLength {
        FinishChunk();
      }
    }

    /** Takes in a frame of `n` samples, all at one speed. */
    method UpdateMovingAvg(n: nat, speed: real)
      requires Valid()
      modifies this, chunks
      ensures Valid() && Concat(done) + cur == old(Concat(done) + cur) + Copies(speed, n)
    {
      var left: nat := n;
      ghost var was, used: nat, all := Concat(done) + cur, 0, Concat(done) + cur;
      assert Copies(speed, 0) == [];
      while left > 0
        invariant Valid() && used + left == n && Concat(done) + cur == all == was + Copies(speed, used)
      {
        var m := Round(speed, left);
        MoreCopies(was, speed, used, m);
        left, used, all := left - m, used + m, all + Copies(speed, m);
      }
    }

    /** Profiles a frame of `n` samples that took `elapsed` nanoseconds. */
    method AddFrame(n: nat, elapsed: nat, chans: nat)
      requires Valid() && chans > 0 && n % chans == 0 && elapsed > 0
      modifies this, chunks
      ensures Valid() && Concat(done) + cur == old(Concat(done) + cur) + Copies(FrameSpeed(n, elapsed, chans), n)
    {
      UpdateMovingAvg(n, FrameSpeed(n, elapsed, chans));
    }

    /**
     * The average speed. Until the ring is full it is the mean over all samples ever. Then it is the mean over the last
     * `numChunks - 1` chunk lengths of samples, where the oldest chunk gives way to the one being filled.
     */
    method GetMovingAvg() returns (avg: real)
      requires Valid() && Concat(done) + cur != []
      ensures !bufferFull ==> avg == Mean(Concat(done) + cur)
      ensures bufferFull ==>
                var a := |done| - (numChunks - 1);
                RollingMean(avg, chunkLength, numChunks - 1, Mean(done[a]), MeanSum(done, a + 1, |done|), |cur|,
                            Sum(cur))
    {
      if !bufferFull {
        avg := PartialAvg();
      } else {
        avg := RollingAvg();
      }
    }

    method PartialAvg() returns (avg: real)
      requires Valid() && !bufferFull && Concat(done) + cur != []
      ensures avg == Mean(Concat(done) + cur)
    {
      var n := chunkLength * lastChunkNum;
      SmallSlot(|done|, numChunks);
      PartialIsMean(movingAvg, done, cur, chunkLength, chunks[lastChunkNum], n);
      avg := Partial(movingAvg, n, chunks[lastChunkNum], lastChunkSamples);
    }

    method RollingAvg() returns (avg: real)
      requires Valid() && bufferFull
      ensures var a := |done| - (numChunks - 1);
              RollingMean(avg, chunkLength, numChunks - 1, Mean(done[a]), MeanSum(done, a + 1, |done|), |cur|, Sum(cur))
    {
      var n := chunkLength * (numChunks - 1);
      Positive(chunkLength, numChunks - 1);
      RingMean(chunks[..], done, cur, numChunks, chunkLength, movingAvg, firstChunkNum, lastChunkNum, n);
      avg := Rolling(movingAvg, n, chunks[firstChunkNum], chunks[lastChunkNum], lastChunkSamples);
    }

    /** The moving average and the start of the ring after one more chunk. */
    method TakeIn(speed: real)
      requires chunkLength > 0 && numChunks >= 2 && chunks.Length == numChunks
      requires Ring(chunks[..], done, numChunks) && AverageIs(movingAvg, done, numChunks)
      requires lastChunkNum == (|done| + 1) % numChunks && bufferFull == (|done| >= numChunks)
      requires firstChunkNum == if |done| < numChunks then 0 else (|done| + 1) % numChunks
      requires cur != [] && speed == Mean(cur)
      modifies this`movingAvg, this`firstChunkNum, this`bufferFull
      ensures AverageIs(movingAvg, done + [cur], numChunks) && bufferFull == (|done| + 1 >= numChunks)
      ensures firstChunkNum == if |done| + 1 < numChunks then 0 else (|done| + 2) % numChunks
    {
      ghost var k := |done|;
      if k + 1 < numChunks {
        SmallSlot(k + 1, numChunks);
        AverageGrows(movingAvg, done, numChunks, cur, speed);
      } else {
        Oldest(k, numChunks, firstChunkNum);
        assert chunks[..][(k + 1 - numChunks) % numChunks] == Mean(done[k + 1 - numChunks]);
        AverageSlides(movingAvg, done, numChunks, cur, speed, chunks[firstChunkNum]);
        NextSlot(k + 1, numChunks);
      }
      if lastChunkNum == firstChunkNum {
        bufferFull := true;
        movingAvg := Slid(movingAvg, numChunks - 1, speed, chunks[firstChunkNum]);
        firstChunkNum := (firstChunkNum + 1) % numChunks;
      } else {
        movingAvg := Grown(movingAvg, lastChunkNum, speed);
      }
    }
  }

  lemma Appended(done: seq<seq<real>>, cur: seq<real>, xs: seq<real>)
    ensures Concat(done) + (cur + xs) == Concat(done) + cur + xs
    ensures Concat(done + [cur + xs]) + [] == Concat(done) + cur + xs
  {
    assert (done + [cur + xs])[..|done|] == done;
  }

  lemma MoreCopies(was: seq<real>, x: real, n: nat, m: nat)
    ensures was + Copies(x, n) + Copies(x, m) == was + Copies(x, n + m)
  {
  }

  /** The slot being filled is not one that counts. */
  lemma RingKeeps(chunks: seq<real>, done: seq<seq<real>>, num: nat, x: real)
    requires Ring(chunks, done, num)
    ensures 0 <= |done| % num < num && Ring(chunks[|done| % num := x], done, num)
  {
    forall j | |done| - Window(|done|, num) <= j < |done|
      ensures j % num != |done| % num
    {
      Distinct(|done|, j, num);
    }
  }
}
