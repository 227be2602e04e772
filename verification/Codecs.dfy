/** Sequences of samples in a stored form of fixed size per sample. */
module Codecs {
  import opened Blocks
  import opened Octets

  /** How one sample is written to `size` octets and read back. */
  datatype Codec = Codec(size: nat, decode: seq<Byte> -> real, encode: real -> seq<Byte>)

  ghost predicate Lawful(c: Codec) {
    c.size > 0 && forall x: real :: |c.encode(x)| == c.size
  }

  type LawfulCodec = c: Codec | Lawful(c) witness Codec(1, (octets: seq<Byte>) => 0.0, (x: real) => [0])

  /** A number of channels. */
  type Channels = n: nat | n > 0 witness 1

  function Reader(c: Codec): seq<Byte> -> seq<real> {
    (octets: seq<Byte>) => [c.decode(octets)]
  }

  function Writer(c: Codec): seq<real> -> seq<Byte> {
    (xs: seq<real>) => if |xs| == 1 then c.encode(xs[0]) else []
  }

  /** The samples stored in a buffer; octets that make no whole sample are ignored. */
  function Floats(c: Codec, s: seq<Byte>): seq<real>
    requires c.size > 0
  {
    MapBlocks(c.size, Reader(c), s)
  }

  /** The octets that store a sequence of samples. */
  function Stored(c: Codec, xs: seq<real>): seq<Byte> {
    MapBlocks(1, Writer(c), xs)
  }

  /** What is read back of a sequence of samples. */
  function Heard(c: Codec, xs: seq<real>): seq<real> {
    seq(|xs|, i requires 0 <= i < |xs| => c.decode(c.encode(xs[i])))
  }

  lemma {:induction false} Ones(n: nat)
    ensures Times(n, 1) == n
  {
    TimesIs(n, 1);
  }

  lemma EncodeSize(c: Codec, x: real)
    requires Lawful(c)
    ensures |c.encode(x)| == c.size
  {
  }

  lemma WriterMakes(c: Codec)
    requires Lawful(c)
    ensures Makes(1, c.size, Writer(c))
  {
    forall xs: seq<real> | |xs| == 1
      ensures |Writer(c)(xs)| == c.size
    {
      EncodeSize(c, xs[0]);
    }
  }

  lemma StoredConcat(c: Codec, xs: seq<real>, ys: seq<real>)
    ensures Stored(c, xs + ys) == Stored(c, xs) + Stored(c, ys)
  {
    Ones(|xs|);
    MapConcat(1, Writer(c), |xs|, xs, ys);
  }

  lemma StoredSize(c: Codec, xs: seq<real>)
    requires Lawful(c)
    ensures |Stored(c, xs)| == Times(|xs|, c.size)
  {
    Ones(|xs|);
    WriterMakes(c);
    MapLength(1, c.size, Writer(c), |xs|, xs);
  }

  /** The first sample is stored first. */
  lemma StoredHead(c: Codec, xs: seq<real>, tail: seq<Byte>)
    requires Lawful(c) && xs != []
    ensures var s := Stored(c, xs) + tail;
            |s| >= c.size && s[..c.size] == c.encode(xs[0]) && s[c.size..] == Stored(c, xs[1..]) + tail
  {
    assert xs[..1] == [xs[0]];
    EncodeSize(c, xs[0]);
    assert Writer(c)(xs[..1]) == c.encode(xs[0]);
  }

  lemma HeardHead(c: Codec, xs: seq<real>)
    requires xs != []
    ensures Heard(c, xs) == [c.decode(c.encode(xs[0]))] + Heard(c, xs[1..])
  {
  }

  /** Reading back what was stored gives every sample once through the codec; what follows is read after them. */
  lemma {:induction false} ReadStored(c: Codec, xs: seq<real>, tail: seq<Byte>)
    requires Lawful(c)
    ensures Floats(c, Stored(c, xs) + tail) == Heard(c, xs) + Floats(c, tail)
  {
    if xs == [] {
      assert Stored(c, xs) + tail == tail;
    } else {
      StoredHead(c, xs, tail);
      ReadStored(c, xs[1..], tail);
      HeardHead(c, xs);
    }
  }

  lemma ReaderMakes(c: Codec)
    ensures Makes(c.size, 1, Reader(c))
  {
  }

  /** Consecutive samples are stored in consecutive octets. */
  lemma Window(c: Codec, s: seq<Byte>, from: nat, n: nat)
    requires c.size > 0 && from + n <= |Floats(c, s)|
    ensures Times(from, c.size) + Times(n, c.size) <= |s|
    ensures Floats(c, s[Times(from, c.size)..Times(from, c.size) + Times(n, c.size)]) == Floats(c, s)[from..from + n]
  {
    ReaderMakes(c);
    MapSkip(c.size, Reader(c), s, from);
    WindowTake(c, s, from, n, Times(from, c.size));
  }

  lemma WindowTake(c: Codec, s: seq<Byte>, from: nat, n: nat, p: nat)
    requires c.size > 0 && from + n <= |Floats(c, s)| && p <= |s| && Floats(c, s[p..]) == Floats(c, s)[from..]
    ensures p + Times(n, c.size) <= |s| && Floats(c, s[p..p + Times(n, c.size)]) == Floats(c, s)[from..from + n]
  {
    ReaderMakes(c);
    MapTake(c.size, Reader(c), s[p..], n);
    Slices(s, p, Times(n, c.size));
    Slices(Floats(c, s), from, n);
  }

  lemma Slices<T>(s: seq<T>, p: nat, n: nat)
    requires p + n <= |s|
    ensures s[p..][..n] == s[p..p + n]
  {
  }
}
