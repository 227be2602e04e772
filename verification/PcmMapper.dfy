/** Mapping whole buffers between PCM formats: the generated loop and the clipping around it. */
module PcmMapper {
  import opened Blocks
  import opened Octets
  import opened PcmCodes

  datatype Format = Format(code: Code, endian: Endian)

  predicate Supported(f: Format) {
    Aligned(f.code)
  }

  function Size(f: Format): (n: nat)
    requires Supported(f)
    ensures n > 0 && 8 * n == f.code.packed
  {
    Count(f.code)
  }

  // ----- what a buffer holds

  function Decoded(f: Format, octets: seq<Byte>): int
    requires Supported(f) && |octets| == Size(f)
  {
    Unpack(f.code, f.endian, octets)
  }

  function Encoded(f: Format, x: int): (r: seq<Byte>)
    requires Supported(f)
    ensures |r| == Size(f)
  {
    Pack(f.code, f.endian, x)
  }

  /** The samples stored in a buffer; octets that make no whole sample are ignored. */
  function Samples(f: Format, s: seq<Byte>): seq<int>
    requires Supported(f)
    decreases |s|
  {
    if |s| < Size(f) then [] else [Decoded(f, s[..Size(f)])] + Samples(f, s[Size(f)..])
  }

  /** What the mapper writes for a buffer. */
  function Mapped(f: Format, g: Format, s: seq<Byte>): seq<Byte>
    requires Supported(f) && Supported(g)
  {
    MapBlocks(Size(f), Remake(f, g), s)
  }

  /** The mapper for one sample. */
  function Remake(f: Format, g: Format): seq<Byte> -> seq<Byte>
    requires Supported(f) && Supported(g)
  {
    (octets: seq<Byte>) => if |octets| == Size(f) then Remade(f, g, octets) else []
  }

  /** One sample, unpacked, converted and packed. */
  function Remade(f: Format, g: Format, octets: seq<Byte>): (r: seq<Byte>)
    requires Supported(f) && Supported(g) && |octets| == Size(f)
    ensures |r| == Size(g)
  {
    Encoded(g, Convert(f.code, g.code, Decoded(f, octets)))
  }

  /** The buffer holds whole samples, all with zero padding bits. */
  predicate Clean(f: Format, s: seq<Byte>)
    requires Supported(f)
    decreases |s|
  {
    s == [] || (|s| >= Size(f) && ZeroPadded(f.code, f.endian, s[..Size(f)]) && Clean(f, s[Size(f)..]))
  }

  // ----- one sample

  lemma DecodedInRange(f: Format, octets: seq<Byte>)
    requires Supported(f) && |octets| == Size(f)
    ensures InRange(f.code, Decoded(f, octets))
  {
    UnpackValue(f.code, f.endian, octets);
  }

  lemma PackedIsClean(f: Format, x: int)
    requires Supported(f)
    ensures ZeroPadded(f.code, f.endian, Encoded(f, x))
  {
    PackValue(f.code, f.endian, x);
  }

  /** There and back through a format at least as wide: only padding can change. */
  lemma SampleRoundTrip(f: Format, g: Format, octets: seq<Byte>)
    requires Supported(f) && Supported(g) && |octets| == Size(f) && f.code.width <= g.code.width
    ensures Remade(g, f, Remade(f, g, octets)) == octets <==> ZeroPadded(f.code, f.endian, octets)
  {
    var a, b, x := f.code, g.code, Decoded(f, octets);
    DecodedInRange(f, octets);
    StoredSample(a, b, g.endian, x);
    var y := Ideal(a, b, x);
    IdealInRange(a, b, x);
    ConvertBits(b, a, y);
    IdealRoundTrip(a, b, x);
    WrapResidue(a, Convert(b, a, y), x);
    WrapInRange(a, x);
    PackedIsClean(f, Convert(b, a, y));
    if ZeroPadded(a, f.endian, octets) {
      PackUnpack(a, f.endian, octets, Convert(b, a, y));
    }
  }

  // ----- whole buffers

  /** The first sample of a buffer, and what follows it. */
  lemma MappedFirst(f: Format, g: Format, s: seq<Byte>)
    requires Supported(f) && Supported(g) && |s| >= Size(f)
    ensures Mapped(f, g, s) == Remade(f, g, s[..Size(f)]) + Mapped(f, g, s[Size(f)..])
  {
  }

  lemma SamplesFirst(f: Format, x: seq<Byte>, y: seq<Byte>)
    requires Supported(f) && |x| == Size(f)
    ensures Samples(f, x + y) == [Decoded(f, x)] + Samples(f, y)
  {
    assert (x + y)[..Size(f)] == x && (x + y)[Size(f)..] == y;
  }

  function IdealAll(a: Code, b: Code, xs: seq<int>): seq<int>
    requires Aligned(a) && Aligned(b)
  {
    if xs == [] then [] else [Ideal(a, b, xs[0])] + IdealAll(a, b, xs[1..])
  }

  /** The mapper's output holds the ideal conversion of every sample of its input. */
  lemma {:induction false} MappedSamples(f: Format, g: Format, s: seq<Byte>)
    requires Supported(f) && Supported(g)
    ensures Samples(g, Mapped(f, g, s)) == IdealAll(f.code, g.code, Samples(f, s))
    decreases |s|
  {
    if |s| >= Size(f) {
      var first, rest := s[..Size(f)], s[Size(f)..];
      assert s == first + rest;
      MappedSamples(f, g, rest);
      MappedFirst(f, g, s);
      SamplesFirst(f, first, rest);
      MappedMore(f, g, first, Mapped(f, g, rest), Samples(f, rest));
    }
  }

  lemma MappedMore(f: Format, g: Format, first: seq<Byte>, mapped: seq<Byte>, xs: seq<int>)
    requires Supported(f) && Supported(g) && |first| == Size(f) && Samples(g, mapped) == IdealAll(f.code, g.code, xs)
    ensures Samples(g, Remade(f, g, first) + mapped) == IdealAll(f.code, g.code, [Decoded(f, first)] + xs)
  {
    SamplesFirst(g, Remade(f, g, first), mapped);
    RemadeIsIdeal(f, g, first);
    IdealFirst(f.code, g.code, Decoded(f, first), xs);
  }

  lemma RemadeIsIdeal(f: Format, g: Format, octets: seq<Byte>)
    requires Supported(f) && Supported(g) && |octets| == Size(f)
    ensures Decoded(g, Remade(f, g, octets)) == Ideal(f.code, g.code, Decoded(f, octets))
  {
    DecodedInRange(f, octets);
    StoredSample(f.code, g.code, g.endian, Decoded(f, octets));
  }

  lemma IdealFirst(a: Code, b: Code, x: int, xs: seq<int>)
    requires Aligned(a) && Aligned(b)
    ensures IdealAll(a, b, [x] + xs) == [Ideal(a, b, x)] + IdealAll(a, b, xs)
  {
    assert ([x] + xs)[1..] == xs;
  }

  /**
   * Mapping to a format at least as wide and back reproduces a buffer exactly when it is whole samples with zero
   * padding bits.
   */
  lemma {:induction false} MapRoundTrip(f: Format, g: Format, s: seq<Byte>)
    requires Supported(f) && Supported(g) && f.code.width <= g.code.width
    ensures Mapped(g, f, Mapped(f, g, s)) == s <==> Clean(f, s)
    decreases |s|
  {
    if |s| >= Size(f) {
      var first, rest := s[..Size(f)], s[Size(f)..];
      MapRoundTrip(f, g, rest);
      SampleRoundTrip(f, g, first);
      MappedFirst(f, g, s);
      BackFirst(f, g, Remade(f, g, first), Mapped(f, g, rest));
      SplitEqual(Remade(g, f, Remade(f, g, first)), Mapped(g, f, Mapped(f, g, rest)), s, Size(f));
    }
  }

  /** That covers every pair of the program's integer codes that are whole octets, in any byte order. */
  lemma TableRoundTrip(a: Code, b: Code, e: Endian, e': Endian, s: seq<Byte>)
    requires a in CODES && b in CODES && a.width <= b.width
    ensures Aligned(a) && Aligned(b)
    ensures Mapped(Format(b, e'), Format(a, e), Mapped(Format(a, e), Format(b, e'), s)) == s <==> Clean(Format(a, e), s)
  {
    CodesAreAligned(a);
    CodesAreAligned(b);
    MapRoundTrip(Format(a, e), Format(b, e'), s);
  }

  lemma BackFirst(f: Format, g: Format, x: seq<Byte>, y: seq<Byte>)
    requires Supported(f) && Supported(g) && |x| == Size(g)
    ensures Mapped(g, f, x + y) == Remade(g, f, x) + Mapped(g, f, y)
  {
    assert (x + y)[..Size(g)] == x && (x + y)[Size(g)..] == y;
    MappedFirst(g, f, x + y);
  }

  lemma SplitEqual(x: seq<Byte>, y: seq<Byte>, s: seq<Byte>, k: nat)
    requires |x| == k <= |s|
    ensures x + y == s <==> x == s[..k] && y == s[k..]
  {
    assert (x + y)[..k] == x && (x + y)[k..] == y;
    assert s == s[..k] + s[k..];
  }

  // ----- counts

  /** Samples of `width` bits in a number of bytes, and bytes for a number of samples, as the mapper counts them. */
  function SampleCount(width: nat, bytes: nat): nat
    requires width > 0
  {
    bytes * 8 / width
  }

  function ByteCount(width: nat, samples: nat): nat {
    (samples * width + 7) / 8
  }

  /** The sample count of a byte count is the identity, also for widths that are not whole bytes. */
  lemma CountsAreInverse(width: nat, n: nat)
    requires width >= 8
    ensures SampleCount(width, ByteCount(width, n)) == n
  {
    var t := ByteCount(width, n) * 8;
    assert n * width <= t < n * width + 8;
    ModIs(t, width, n, t - n * width);
  }

  lemma Bits(n: nat, k: nat)
    ensures n * (8 * k) == 8 * (n * k)
  {
  }

  // ----- the loop

  /** Samples fit behind an offset exactly if they end inside the buffer. */
  lemma FittingEnds(f: Format, bytes: nat, bitOff: nat, n: nat)
    requires Supported(f) && bitOff % 8 == 0 && bitOff <= bytes * 8
    ensures n <= Fitting(Size(f), bytes, bitOff) <==> bitOff / 8 + Times(n, Size(f)) <= bytes
    ensures n * f.code.packed == 8 * Times(n, Size(f))
  {
    DivAtLeast(bytes * 8 - bitOff, f.code.packed, n);
    Bits(n, Size(f));
    TimesIs(n, Size(f));
  }

  /** Maps as many of `n` samples as both buffers have room for. */
  method Map(f: Format, g: Format, input: seq<Byte>, inOff: nat, output: array<Byte>, outOff: nat, n: nat)
    returns (count: nat, inEnd: nat, outEnd: nat)
    requires Supported(f) && Supported(g)
    requires inOff % 8 == 0 && inOff <= |input| * 8
    requires outOff % 8 == 0 && outOff <= output.Length * 8
    modifies output
    ensures count == Min(n, Min(Fitting(Size(f), |input|, inOff), Fitting(Size(g), output.Length, outOff)))
    ensures inEnd == inOff + count * f.code.packed && outEnd == outOff + count * g.code.packed
    ensures inEnd <= |input| * 8 && outEnd <= output.Length * 8 && inEnd % 8 == outEnd % 8 == 0
    ensures var data := Mapped(f, g, input[inOff / 8..inEnd / 8]);
            |data| == outEnd / 8 - outOff / 8 && output[..] == Patched(old(output[..]), outOff / 8, data)
  {
    count := Min(n, Min(Fitting(Size(f), |input|, inOff), Fitting(Size(g), output.Length, outOff)));
    FittingEnds(f, |input|, inOff, count);
    FittingEnds(g, output.Length, outOff, count);
    inEnd, outEnd := MapBits(f, g, input, inOff, output, outOff, count);
  }

  method MapBits(f: Format, g: Format, input: seq<Byte>, inOff: nat, output: array<Byte>, outOff: nat, n: nat)
    returns (inEnd: nat, outEnd: nat)
    requires Supported(f) && Supported(g) && inOff % 8 == 0 && outOff % 8 == 0
    requires inOff / 8 + Times(n, Size(f)) <= |input| && outOff / 8 + Times(n, Size(g)) <= output.Length
    modifies output
    ensures inEnd == inOff + 8 * Times(n, Size(f)) && outEnd == outOff + 8 * Times(n, Size(g))
    ensures inEnd <= |input| * 8 && outEnd <= output.Length * 8 && inEnd % 8 == outEnd % 8 == 0
    ensures var data := Mapped(f, g, input[inOff / 8..inEnd / 8]);
            |data| == outEnd / 8 - outOff / 8 && output[..] == Patched(old(output[..]), outOff / 8, data)
  {
    var from, at := inOff / 8, outOff / 8;
    var p, q := MapAligned(f, g, input, from, output, at, n);
    inEnd, outEnd := p * 8, q * 8;
    assert inEnd / 8 == p && outEnd / 8 == q;
  }

  method MapAligned(f: Format, g: Format, input: seq<Byte>, from: nat, output: array<Byte>, at: nat, n: nat)
    returns (inEnd: nat, outEnd: nat)
    requires Supported(f) && Supported(g)
    requires from + Times(n, Size(f)) <= |input| && at + Times(n, Size(g)) <= output.Length
    modifies output
    ensures inEnd == from + Times(n, Size(f)) && outEnd == at + Times(n, Size(g))
    ensures |Mapped(f, g, input[from..inEnd])| == Times(n, Size(g))
    ensures output[..] == Patched(old(output[..]), at, Mapped(f, g, input[from..inEnd]))
  {
    RemakeMakes(f, g);
    inEnd, outEnd := MapLoop(Size(f), Size(g), Remake(f, g), input, from, output, at, n);
  }

  lemma RemakeMakes(f: Format, g: Format)
    requires Supported(f) && Supported(g)
    ensures Makes(Size(f), Size(g), Remake(f, g))
  {
  }
}
