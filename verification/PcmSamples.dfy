/**
 * Streams of samples as numbers from -1 to 1, stored in a PCM format. Arithmetic is exact; the program rounds floats.
 */
module PcmSamples {
  import opened Codecs
  import opened Octets
  import opened PcmCodes
  import opened PcmMapper

  function ToFloat(c: Code, x: int): real
    requires Aligned(c)
  {
    Fraction(if c.signed then x else ToSigned(c, x), Half(c))
  }

  function Fraction(x: int, h: nat): real
    requires h > 0
  {
    x as real / h as real
  }

  /** Truncation toward zero. */
  function Trunc(d: real): int {
    if d >= 0.0 then d.Floor else 0 - (0.0 - d).Floor
  }

  /** Scaled to integers, clipped and truncated. */
  function Scaled(r: real, h: nat): (x: int)
    requires h > 0
    ensures 0 <= x + h < 2 * h
  {
    Clip(r * h as real, h)
  }

  function Clip(d: real, h: nat): (x: int)
    requires h > 0
    ensures 0 <= x + h < 2 * h
  {
    if d < 0.0 - h as real then 0 - h
    else if d >= h as real then h - 1
    else Trunc(d)
  }

  function FromFloat(c: Code, r: real): int
    requires Aligned(c)
  {
    var x := Scaled(r, Half(c));
    if c.signed then x else FromSigned(c, x)
  }

  lemma FromSignedIs(c: Code, v: int)
    requires Aligned(c) && 0 <= v + Half(c) < 2 * Half(c)
    ensures FromSigned(c, v) == v + Half(c)
  {
    assert Pow2(c.width) == 2 * Half(c);
    Pow2Mono(c.width, c.unpacked);
    ModIs(v + Half(c), Pow2(c.unpacked), 0, v + Half(c));
  }

  /** The stored sample is always representable, and its level is the scaled number. */
  lemma FromFloatLevel(c: Code, r: real)
    requires Aligned(c)
    ensures InRange(c, FromFloat(c, r)) && Level(c, FromFloat(c, r)) == Scaled(r, Half(c))
  {
    assert Pow2(c.width) == 2 * Half(c);
    FromSignedIs(c, Scaled(r, Half(c)));
  }

  lemma ScaledFraction(v: int, h: nat)
    requires 0 <= v + h < 2 * h
    ensures Scaled(Fraction(v, h), h) == v
  {
    FractionTimes(v as real, h as real);
    ScaledIs(Fraction(v, h), h, v as real);
    ClipExact(v, h);
  }

  lemma ScaledIs(r: real, h: nat, d: real)
    requires h > 0 && d == r * h as real
    ensures Scaled(r, h) == Clip(d, h)
  {
  }

  lemma FractionTimes(v: real, k: real)
    requires k > 0.0
    ensures v / k * k == v
  {
  }

  lemma ClipExact(v: int, h: nat)
    requires 0 <= v + h < 2 * h
    ensures Clip(v as real, h) == v
  {
  }

  /** Every sample of the code survives conversion to a number and back. */
  lemma FloatRoundTrip(c: Code, x: int)
    requires Aligned(c) && InRange(c, x)
    ensures FromFloat(c, ToFloat(c, x)) == x
  {
    LevelOf(c, x);
    assert Pow2(c.width) == 2 * Half(c);
    ScaledFraction(Level(c, x), Half(c));
    FromSignedIs(c, Level(c, x));
  }

  /** What is heard of a number after it was stored in the code. */
  function Quantized(c: Code, r: real): real
    requires Aligned(c)
  {
    ToFloat(c, FromFloat(c, r))
  }

  lemma QuantizedIs(c: Code, r: real)
    requires Aligned(c)
    ensures Quantized(c, r) == Fraction(Scaled(r, Half(c)), Half(c))
  {
    FromFloatLevel(c, r);
    LevelOf(c, FromFloat(c, r));
  }

  /** Storing a number twice is storing it once. */
  lemma QuantizedTwice(c: Code, r: real)
    requires Aligned(c)
    ensures Quantized(c, Quantized(c, r)) == Quantized(c, r)
  {
    FromFloatLevel(c, r);
    FloatRoundTrip(c, FromFloat(c, r));
  }

  /** Inside the code's range, storing moves a number toward zero by less than one step. */
  lemma QuantizedClose(c: Code, r: real)
    requires Aligned(c) && -1.0 <= r < 1.0
    ensures r >= 0.0 ==> 0.0 <= Quantized(c, r) <= r && (r - Quantized(c, r)) * Half(c) as real < 1.0
    ensures r < 0.0 ==> r <= Quantized(c, r) <= 0.0 && (Quantized(c, r) - r) * Half(c) as real < 1.0
  {
    QuantizedIs(c, r);
    FractionClose(r, Half(c));
  }

  lemma FractionClose(r: real, h: nat)
    requires h > 0 && -1.0 <= r < 1.0
    ensures var y := Fraction(Scaled(r, h), h);
            && (r >= 0.0 ==> 0.0 <= y <= r && (r - y) * h as real < 1.0)
            && (r < 0.0 ==> r <= y <= 0.0 && (y - r) * h as real < 1.0)
  {
    var x := Scaled(r, h);
    var d := InUnit(r, h as real);
    ScaledIs(r, h, d);
    FractionOf(x, h);
    CloseFrom(r, Fraction(x, h), h as real, d, x, h);
  }

  lemma FractionOf(x: int, h: nat)
    requires h > 0
    ensures x as real == Fraction(x, h) * h as real
  {
    FractionTimes(x as real, h as real);
  }

  lemma CloseFrom(r: real, y: real, k: real, d: real, x: int, h: nat)
    requires k > 0.0 && k == h as real && d == r * k && x as real == y * k && x == Clip(d, h)
    requires 0.0 - k <= d < k && (r >= 0.0 <==> d >= 0.0)
    ensures r >= 0.0 ==> 0.0 <= y <= r && (r - y) * k < 1.0
    ensures r < 0.0 ==> r <= y <= 0.0 && (y - r) * k < 1.0
  {
    Apart(r, y, k);
    Divided(y, k);
    Divided(r - y, k);
    assert d >= 0.0 ==> 0.0 <= x as real <= d < x as real + 1.0;
    assert d < 0.0 ==> x as real - 1.0 < d <= x as real <= 0.0;
  }

  lemma InUnit(r: real, k: real) returns (d: real)
    requires k > 0.0 && -1.0 <= r < 1.0
    ensures d == r * k && 0.0 - k <= d < k && (r >= 0.0 <==> d >= 0.0)
  {
    d := r * k;
    assert (r + 1.0) * k == d + k;
    assert (1.0 - r) * k == k - d;
    Divided(r, k);
    Divided(r + 1.0, k);
    Divided(1.0 - r, k);
  }

  lemma Apart(r: real, y: real, k: real)
    ensures (r - y) * k == r * k - y * k && (y - r) * k == y * k - r * k
  {
  }

  lemma Divided(x: real, k: real)
    requires k > 0.0
    ensures x * k >= 0.0 <==> x >= 0.0
    ensures x * k <= 0.0 <==> x <= 0.0
  {
  }

  // ----- a format as the encoder and the decoder see it

  /** The mapping functions that a format selects. */
  function FormatCodec(f: Format): Codec
    requires Supported(f)
  {
    Codec(Size(f),
          (octets: seq<Byte>) => if |octets| == Size(f) then ToFloat(f.code, Decoded(f, octets)) else 0.0,
          (x: real) => Encoded(f, FromFloat(f.code, x)))
  }

  /** Every format gives a lawful codec that quantizes as its code does. */
  lemma FormatIsLawful(f: Format)
    requires Supported(f)
    ensures Lawful(FormatCodec(f))
    ensures forall x: real :: FormatCodec(f).decode(FormatCodec(f).encode(x)) == Quantized(f.code, x)
  {
    forall x: real
      ensures FormatCodec(f).decode(FormatCodec(f).encode(x)) == Quantized(f.code, x)
    {
      var first := FromFloat(f.code, x);
      UnpackPack(f.code, f.endian, first);
      FromFloatLevel(f.code, x);
      WrapInRange(f.code, first);
    }
  }
}
