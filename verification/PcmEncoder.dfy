/** Writing samples to the payload of one packet after another, as pcm_encoder.cpp does. */
module PcmEncoder {
  import opened Blocks
  import opened Codecs
  import opened Octets
  import Decoder = PcmDecoder

  /** Octets that `n` groups take. */
  function EncodedSize(c: LawfulCodec, chans: Channels, n: nat): nat {
    (n * chans * (8 * c.size) + 7) / 8
  }

  lemma EncodedSizeIs(c: LawfulCodec, chans: Channels, n: nat)
    ensures EncodedSize(c, chans, n) == Times(Times(n, chans), c.size)
  {
    TimesIs(n, chans);
    TimesIs(Times(n, chans), c.size);
    RoundUp(n * chans, c.size);
  }

  lemma RoundUp(n: nat, k: nat)
    ensures (n * (8 * k) + 7) / 8 == n * k
  {
    assert n * (8 * k) == 8 * (n * k);
  }

  /** Samples fit exactly if their octets end inside the buffer. */
  lemma RoomIs(c: LawfulCodec, bytes: nat, at: nat, n: nat)
    requires at <= bytes
    ensures n <= Fitting(c.size, bytes, 8 * at) <==> at + Times(n, c.size) <= bytes
  {
    TimesIs(n, c.size);
    RoomBits(bytes - at, c.size, n);
  }

  lemma RoomBits(bytes: nat, k: nat, n: nat)
    requires k > 0
    ensures n <= Div(bytes * 8, 8 * k) <==> n * k <= bytes
  {
    assert n * (8 * k) == 8 * (n * k);
    DivAtLeast(bytes * 8, 8 * k, n);
  }

  method Clipped(c: LawfulCodec, bytes: nat, at: nat, n: nat) returns (count: nat)
    requires at <= bytes
    ensures count == Min(n, Fitting(c.size, bytes, 8 * at)) && at + Times(count, c.size) <= bytes
    ensures at + Times(n, c.size) <= bytes ==> count == n
  {
    count := Min(n, Fitting(c.size, bytes, 8 * at));
    RoomIs(c, bytes, at, n);
    RoomIs(c, bytes, at, count);
  }

  class PcmEncoder {
    const codec: LawfulCodec
    const chans: Channels
    var data: array?<Byte>
    var bitOff: nat
    /** The samples written since the last `Begin`. */
    ghost var written: seq<real>

    ghost predicate Valid()
      reads this, data
    {
      if data == null then bitOff == 0
      else bitOff == 8 * |Stored(codec, written)| && Stored(codec, written) <= data[..]
    }

    constructor (codec: LawfulCodec, chans: Channels)
      ensures Valid() && this.codec == codec && this.chans == chans && data == null
    {
      this.codec, this.chans, data, bitOff, written := codec, chans, null, 0, [];
    }

    method Begin(frame: array<Byte>)
      requires Valid() && data == null
      modifies this
      ensures Valid() && data == frame && written == []
    {
      data := frame;
      written := [];
    }

    /** Writes as many samples as fit, and says how many whole groups that were. */
    method Write(samples: seq<real>, n: nat) returns (m: nat, ghost count: nat)
      requires Valid() && data != null && |samples| == Times(n, chans)
      modifies this, data
      ensures Valid() && data == old(data) && count <= |samples| && written == old(written) + samples[..count]
      ensures old(bitOff) <= data.Length * 8 && count == Min(|samples|, Fitting(codec.size, data.Length, old(bitOff)))
      ensures m == Wholes(count, chans)
      ensures old(bitOff) / 8 + Times(|samples|, codec.size) <= data.Length ==> m == n && count == |samples|
    {
      ghost var was := Stored(codec, written);
      var at := bitOff / 8;
      var c := Clipped(codec, data.Length, at, |samples|);
      count := c;
      WriterMakes(codec);
      Ones(c);
      StoredSize(codec, samples[..c]);
      StoredConcat(codec, written, samples[..c]);
      ghost var before := data[..];
      var inEnd, outEnd := MapLoop(1, codec.size, Writer(codec), samples, 0, data, at, c);
      assert samples[0..c] == samples[..c];
      Appended(before, data[..], was, Stored(codec, samples[..c]));
      bitOff := 8 * outEnd;
      written := written + samples[..c];
      WholesIs(c, chans);
      m := Div(c, chans);
      Decoder.WholeGroups(n, chans);
    }

    method End()
      requires Valid() && data != null
      modifies this
      ensures Valid() && data == null
    {
      data := null;
      bitOff := 0;
    }
  }

  lemma Appended(before: seq<Byte>, after: seq<Byte>, x: seq<Byte>, y: seq<Byte>)
    requires x <= before && |x| + |y| <= |before| && after == Patched(before, |x|, y)
    ensures x + y <= after
  {
    assert before[..|x|] == x;
  }
}
