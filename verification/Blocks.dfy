/** The loop of the sample mapper, for any way to turn one block of input into one block of output. */
module Blocks {
  import opened Octets

  /** The images of the whole blocks of length `k` in `s`, in order. */
  function MapBlocks<S, T>(k: nat, make: seq<S> -> seq<T>, s: seq<S>): seq<T>
    requires k > 0
    decreases |s|
  {
    if |s| < k then [] else make(s[..k]) + MapBlocks(k, make, s[k..])
  }

  /** Blocks of length `k` become blocks of length `m`. */
  ghost predicate Makes<S(!new), T>(k: nat, m: nat, make: seq<S> -> seq<T>) {
    forall x: seq<S> :: |x| == k ==> |make(x)| == m
  }

  /** A buffer with `data` written over it from position `at`. */
  function Patched<T>(s: seq<T>, at: nat, data: seq<T>): (r: seq<T>)
    requires at + |data| <= |s|
    ensures |r| == |s|
  {
    s[..at] + data + s[at + |data|..]
  }

  lemma PatchMore<T>(s: seq<T>, at: nat, x: seq<T>, y: seq<T>)
    requires at + |x| + |y| <= |s|
    ensures Patched(Patched(s, at, x), at + |x|, y) == Patched(s, at, x + y)
  {
  }

  lemma PatchNext<T>(s: seq<T>, at: nat, x: seq<T>, i: nat)
    requires at + |x| <= |s| && i < |x|
    ensures Patched(s, at, x[..i])[at + i := x[i]] == Patched(s, at, x[..i + 1])
  {
  }

  /** The length of `n` blocks of length `k`, by repeated addition. */
  function Times(n: nat, k: nat): nat {
    if n == 0 then 0 else Times(n - 1, k) + k
  }

  lemma {:induction false} TimesIs(n: nat, k: nat)
    ensures Times(n, k) == n * k
  {
    if n > 0 {
      TimesIs(n - 1, k);
      assert n * k == (n - 1) * k + k;
    }
  }

  lemma {:induction false} TimesAdd(n: nat, m: nat, k: nat)
    ensures Times(n + m, k) == Times(n, k) + Times(m, k)
  {
    if m > 0 {
      TimesAdd(n, m - 1, k);
    }
  }

  lemma TimesFirst(n: nat, k: nat)
    requires n > 0
    ensures Times(n, k) == k + Times(n - 1, k)
  {
  }

  lemma TimesMono(n: nat, m: nat, k: nat)
    requires n <= m
    ensures Times(n, k) <= Times(m, k)
  {
    TimesAdd(n, m - n, k);
  }

  function Min(x: nat, y: nat): nat {
    if x < y then x else y
  }

  lemma TimesMin(n: nat, m: nat, k: nat)
    ensures Min(Times(n, k), Times(m, k)) == Times(Min(n, m), k)
  {
    if n < m { TimesMono(n, m, k); } else { TimesMono(m, n, k); }
  }

  function Div(a: nat, b: nat): nat
    requires b > 0
  {
    a / b
  }

  /** Samples of `size` octets that fit between a bit offset and the end of a buffer; the mapper never maps more. */
  function Fitting(size: nat, bytes: nat, bitOff: nat): nat
    requires size > 0 && bitOff <= bytes * 8
  {
    Div(bytes * 8 - bitOff, 8 * size)
  }

  function Concat<T>(xss: seq<seq<T>>): seq<T> {
    if xss == [] then [] else Concat(xss[..|xss| - 1]) + xss[|xss| - 1]
  }

  lemma ConcatAdd<T>(xss: seq<seq<T>>, xs: seq<T>)
    ensures Concat(xss + [xs]) == Concat(xss) + xs
  {
    assert (xss + [xs])[..|xss|] == xss;
  }

  /** How many blocks of length `k` fit in `n`, by repeated subtraction. */
  function Wholes(n: nat, k: nat): nat
    requires k > 0
  {
    if n < k then 0 else 1 + Wholes(n - k, k)
  }

  lemma {:induction false} WholesIs(n: nat, k: nat)
    requires k > 0
    ensures Wholes(n, k) == n / k
  {
    if n >= k {
      WholesIs(n - k, k);
      OneFewer(n, k);
    }
  }

  lemma OneFewer(n: nat, k: nat)
    requires k > 0 && n >= k
    ensures n / k == (n - k) / k + 1
  {
    var q, r := (n - k) / k, (n - k) % k;
    assert n - k == q * k + r;
    assert (q + 1) * k == q * k + k;
    ModIs(n, k, q + 1, r);
  }

  lemma {:induction false} WholesFit(n: nat, k: nat, m: nat)
    requires k > 0
    ensures m <= Wholes(n, k) <==> Times(m, k) <= n
  {
    if m > 0 && n >= k {
      WholesFit(n - k, k, m - 1);
    }
  }

  /** The first block of a stretch of the input, and what follows it. */
  lemma MapCut<S, T>(k: nat, make: seq<S> -> seq<T>, s: seq<S>, p: nat, stop: nat)
    requires k > 0 && p + k <= stop <= |s|
    ensures MapBlocks(k, make, s[p..stop]) == make(s[p..p + k]) + MapBlocks(k, make, s[p + k..stop])
  {
    var t := s[p..stop];
    assert t[..k] == s[p..p + k];
    assert t[k..] == s[p + k..stop];
  }

  /** Writes one block, element by element. */
  method WriteBlock<T>(output: array<T>, at: nat, block: seq<T>) returns (end: nat)
    requires at + |block| <= output.Length
    modifies output
    ensures end == at + |block| && output[..] == Patched(old(output[..]), at, block)
  {
    end := at;
    while end < at + |block|
      invariant at <= end <= at + |block|
      invariant output[..] == Patched(old(output[..]), at, block[..end - at])
    {
      PatchNext(old(output[..]), at, block, end - at);
      output[end] := block[end - at];
      end := end + 1;
    }
    assert block[..end - at] == block;
  }

  method MapStep<S(!new), T>(k: nat, m: nat, make: seq<S> -> seq<T>, input: seq<S>, inPos: nat, output: array<T>,
                             outPos: nat, ghost stop: nat, ghost at: nat, ghost was: seq<T>, ghost done: seq<T>)
    returns (inEnd: nat, outEnd: nat, ghost more: seq<T>)
    requires k > 0 && Makes(k, m, make)
    requires inPos + k <= stop <= |input| && outPos == at + |done| && outPos + m <= output.Length == |was|
    requires output[..] == Patched(was, at, done)
    modifies output
    ensures inEnd == inPos + k && outEnd == outPos + m == at + |more| && output[..] == Patched(was, at, more)
    ensures more + MapBlocks(k, make, input[inEnd..stop]) == done + MapBlocks(k, make, input[inPos..stop])
  {
    var made := make(input[inPos..inPos + k]);
    more := done + made;
    MapCut(k, make, input, inPos, stop);
    PatchMore(was, at, done, made);
    outEnd := WriteBlock(output, outPos, made);
    inEnd := inPos + k;
  }

  /** Maps `n` blocks of the input from position `from`, writing from position `at`. */
  method MapLoop<S(!new), T>(k: nat, m: nat, make: seq<S> -> seq<T>, input: seq<S>, from: nat, output: array<T>,
                             at: nat, n: nat)
    returns (inEnd: nat, outEnd: nat)
    requires k > 0 && Makes(k, m, make)
    requires from + Times(n, k) <= |input| && at + Times(n, m) <= output.Length
    modifies output
    ensures inEnd == from + Times(n, k) && outEnd == at + Times(n, m)
    ensures |MapBlocks(k, make, input[from..inEnd])| == Times(n, m)
    ensures output[..] == Patched(old(output[..]), at, MapBlocks(k, make, input[from..inEnd]))
  {
    inEnd, outEnd := from, at;
    var j := 0;
    ghost var was, done: seq<T>, stop, top := output[..], [], from + Times(n, k), at + Times(n, m);
    while j < n
      invariant 0 <= j <= n && inEnd + Times(n - j, k) == stop && outEnd + Times(n - j, m) == top
      invariant outEnd == at + |done|
      invariant done + MapBlocks(k, make, input[inEnd..stop]) == MapBlocks(k, make, input[from..stop])
      invariant output[..] == Patched(was, at, done)
    {
      inEnd, outEnd, done := MapStep(k, m, make, input, inEnd, output, outEnd, stop, at, was, done);
      j := j + 1;
    }
  }

  // ----- blocks mapped to single elements, and whole inputs

  /** As many blocks as the input has room for. */
  lemma {:induction false} MapCount<S(!new), T>(k: nat, make: seq<S> -> seq<T>, s: seq<S>, n: nat)
    requires k > 0 && Makes(k, 1, make)
    ensures n <= |MapBlocks(k, make, s)| <==> Times(n, k) <= |s|
    decreases |s|
  {
    if n > 0 && |s| >= k {
      MapCount(k, make, s[k..], n - 1);
    }
  }

  /** Skipping output elements skips their blocks of input. */
  lemma {:induction false} MapSkip<S(!new), T>(k: nat, make: seq<S> -> seq<T>, s: seq<S>, n: nat)
    requires k > 0 && Makes(k, 1, make) && n <= |MapBlocks(k, make, s)|
    ensures Times(n, k) <= |s| && MapBlocks(k, make, s[Times(n, k)..]) == MapBlocks(k, make, s)[n..]
    decreases n
  {
    if n > 0 {
      MapSkip(k, make, s[k..], n - 1);
      assert s[k..][Times(n - 1, k)..] == s[Times(n, k)..];
    }
  }

  /** Taking output elements takes their blocks of input. */
  lemma {:induction false} MapTake<S(!new), T>(k: nat, make: seq<S> -> seq<T>, s: seq<S>, n: nat)
    requires k > 0 && Makes(k, 1, make) && n <= |MapBlocks(k, make, s)|
    ensures Times(n, k) <= |s| && MapBlocks(k, make, s[..Times(n, k)]) == MapBlocks(k, make, s)[..n]
    decreases n
  {
    if n > 0 {
      MapTake(k, make, s[k..], n - 1);
      var t := s[..Times(n, k)];
      assert t[..k] == s[..k] && t[k..] == s[k..][..Times(n - 1, k)];
    }
  }

  lemma {:induction false} MapConcat<S, T>(k: nat, make: seq<S> -> seq<T>, n: nat, x: seq<S>, y: seq<S>)
    requires k > 0 && |x| == Times(n, k)
    ensures MapBlocks(k, make, x + y) == MapBlocks(k, make, x) + MapBlocks(k, make, y)
  {
    if n == 0 {
      assert x + y == y;
    } else {
      assert (x + y)[..k] == x[..k] && (x + y)[k..] == x[k..] + y;
      MapConcat(k, make, n - 1, x[k..], y);
    }
  }

  lemma {:induction false} MapLength<S(!new), T>(k: nat, m: nat, make: seq<S> -> seq<T>, n: nat, x: seq<S>)
    requires k > 0 && |x| == Times(n, k) && Makes(k, m, make)
    ensures |MapBlocks(k, make, x)| == Times(n, m)
  {
    if n > 0 {
      MapLength(k, m, make, n - 1, x[k..]);
    }
  }
}
