/** Reading the samples of one packet after another, as pcm_decoder.cpp does. */
module PcmDecoder {
  import opened Blocks
  import opened Codecs
  import opened Octets
  import opened StreamUnits
  import opened Wrappers

  /** Whole groups of one sample per channel in a payload, as the decoder counts them. */
  function GroupCount(c: LawfulCodec, chans: Channels, payload: seq<Byte>): nat
  {
    Div(Div(|payload| * 8, 8 * c.size), chans)
  }

  /** What the decoder keeps of the count in a 32-bit timestamp. */
  function Total(c: LawfulCodec, chans: Channels, payload: seq<Byte>): (n: nat)
    ensures n < RANGE
  {
    Wholes(|Floats(c, payload)|, chans) % RANGE
  }

  /** The decoder's quotients count the whole groups of the stored samples. */
  lemma CountIsWhole(c: LawfulCodec, chans: Channels, payload: seq<Byte>)
    ensures GroupCount(c, chans, payload) == Wholes(|Floats(c, payload)|, chans)
  {
    var n := |Floats(c, payload)|;
    ReaderMakes(c);
    MapCount(c.size, Reader(c), payload, n);
    MapCount(c.size, Reader(c), payload, n + 1);
    BitQuotient(|payload|, c.size, n);
    WholesIs(n, chans);
  }

  lemma BitQuotient(bytes: nat, k: nat, n: nat)
    requires k > 0 && Times(n, k) <= bytes < Times(n + 1, k)
    ensures Div(bytes * 8, 8 * k) == n
  {
    TimesIs(n, k);
    EightTimes(n, k);
    ModIs(bytes * 8, 8 * k, n, bytes * 8 - 8 * (n * k));
  }

  /** The samples of a payload that the decoder will hand out. */
  function Contents(c: LawfulCodec, chans: Channels, payload: seq<Byte>): (r: seq<real>)
    ensures |r| == Times(Total(c, chans, payload), chans)
  {
    TotalFits(c, chans, payload);
    Floats(c, payload)[..Times(Total(c, chans, payload), chans)]
  }

  lemma TotalFits(c: LawfulCodec, chans: Channels, payload: seq<Byte>)
    ensures Times(Total(c, chans, payload), chans) <= |Floats(c, payload)|
  {
    WholesFit(|Floats(c, payload)|, chans, Total(c, chans, payload));
  }

  /** Bits taken by `n` groups. */
  function GroupBits(c: LawfulCodec, chans: Channels, n: nat): nat {
    8 * Times(Times(n, chans), c.size)
  }

  /** The bit offset when `left` groups of a payload remain. */
  function Offset(c: LawfulCodec, chans: Channels, payload: seq<Byte>, left: nat): nat
    requires left <= Total(c, chans, payload)
  {
    GroupBits(c, chans, Total(c, chans, payload) - left)
  }

  /** The samples of the last `left` groups. */
  function Left(c: LawfulCodec, chans: Channels, payload: seq<Byte>, left: nat): (r: seq<real>)
    requires left <= Total(c, chans, payload)
    ensures |r| == Times(left, chans)
  {
    var t := Total(c, chans, payload);
    TimesAdd(t - left, left, chans);
    Contents(c, chans, payload)[Times(t - left, chans)..]
  }

  /** With `m` groups fewer left, the offset is further by their bits and their samples are gone. */
  lemma LeftSkip(c: LawfulCodec, chans: Channels, payload: seq<Byte>, left: nat, m: nat)
    requires m <= left <= Total(c, chans, payload)
    ensures Times(m, chans) <= Times(left, chans)
    ensures Left(c, chans, payload, left - m) == Left(c, chans, payload, left)[Times(m, chans)..]
    ensures Offset(c, chans, payload, left - m) == Offset(c, chans, payload, left) + GroupBits(c, chans, m)
  {
    var used := Total(c, chans, payload) - left;
    TimesAdd(used, left, chans);
    TimesAdd(used, m, chans);
    TimesAdd(m, left - m, chans);
    TimesAdd(Times(used, chans), Times(m, chans), c.size);
  }

  /** The mapper does not cut a read of `n` samples short, and the octets behind the offset hold them. */
  lemma ReadFrom(c: LawfulCodec, chans: Channels, payload: seq<Byte>, t: nat, left: nat, n: nat, off: nat)
    requires t == Total(c, chans, payload) && left <= t && off == Offset(c, chans, payload, left)
    requires Times(t - left, chans) + n <= Times(t, chans) && n <= Times(left, chans)
    ensures off % 8 == 0 && off / 8 + Times(n, c.size) <= |payload|
    ensures Floats(c, payload[off / 8..off / 8 + Times(n, c.size)]) == Left(c, chans, payload, left)[..n]
  {
    TotalFits(c, chans, payload);
    LeftWindow(c, payload, Times(t - left, chans), n, Times(t, chans), off);
  }

  /** Skipping `n` groups and reading `m` gives the tail of reading `n + m`. */
  lemma ShiftThenRead(c: LawfulCodec, chans: Channels, payload: seq<Byte>, left: nat, n: nat, m: nat)
    requires n + m <= left <= Total(c, chans, payload)
    ensures Times(m, chans) <= Times(left - n, chans) && Times(n, chans) <= Times(n + m, chans) <= Times(left, chans)
    ensures Left(c, chans, payload, left - n)[..Times(m, chans)]
              == Left(c, chans, payload, left)[..Times(n + m, chans)][Times(n, chans)..]
  {
    LeftSkip(c, chans, payload, left, n);
    TimesAdd(n, m, chans);
    Steps(left, left, n + m, chans);
    Steps(left - n, left - n, m, chans);
    TailOf(Left(c, chans, payload, left), Times(n, chans), Times(m, chans));
  }

  lemma TailOf<T>(s: seq<T>, p: nat, n: nat)
    requires p + n <= |s|
    ensures s[p..][..n] == s[..p + n][p..]
  {
  }

  lemma Steps(t: nat, left: nat, m: nat, k: nat)
    requires m <= left <= t
    ensures Times(t - left, k) + Times(m, k) <= Times(t, k) && Times(m, k) <= Times(left, k)
  {
    TimesAdd(t - left, left, k);
    TimesAdd(m, left - m, k);
  }

  lemma LeftWindow(c: Codec, payload: seq<Byte>, a: nat, n: nat, stop: nat, off: nat)
    requires c.size > 0 && a + n <= stop <= |Floats(c, payload)| && off == 8 * Times(a, c.size)
    ensures off % 8 == 0 && off / 8 + Times(n, c.size) <= |payload|
    ensures Floats(c, payload[off / 8..off / 8 + Times(n, c.size)]) == Floats(c, payload)[..stop][a..][..n]
  {
    ReadWindow(c, payload, a, n, off);
    SliceTake(Floats(c, payload), stop, a, n);
  }

  lemma ReadWindow(c: Codec, payload: seq<Byte>, a: nat, n: nat, off: nat)
    requires c.size > 0 && a + n <= |Floats(c, payload)| && off == 8 * Times(a, c.size)
    ensures off / 8 + Times(n, c.size) <= |payload|
    ensures Floats(c, payload[off / 8..off / 8 + Times(n, c.size)]) == Floats(c, payload)[a..a + n]
  {
    Window(c, payload, a, n);
  }

  lemma SliceTake<T>(s: seq<T>, stop: nat, p: nat, n: nat)
    requires p + n <= stop <= |s|
    ensures s[..stop][p..][..n] == s[p..p + n]
  {
  }

  lemma EightTimes(n: nat, k: nat)
    ensures n * (8 * k) == 8 * (n * k)
  {
  }

  lemma TimesFit(n: nat, k: nat, bytes: nat)
    requires k > 0 && Times(n, k) <= bytes
    ensures n <= Div(bytes * 8, 8 * k)
  {
    TimesIs(n, k);
    EightTimes(n, k);
    DivAtLeast(bytes * 8, 8 * k, n);
  }

  lemma WholeGroups(m: nat, chans: nat)
    requires chans > 0
    ensures Div(Times(m, chans), chans) == m
  {
    TimesIs(m, chans);
    ModIs(m * chans, chans, m, 0);
  }

  /** The mapper maps no more samples than are left in the payload: here, all of them. */
  method Clipped(c: Codec, payload: seq<Byte>, bitOff: nat, n: nat) returns (count: nat)
    requires c.size > 0 && bitOff % 8 == 0 && bitOff / 8 + Times(n, c.size) <= |payload|
    ensures count == n
  {
    TimesFit(n, c.size, |payload| - bitOff / 8);
    count := Min(n, Fitting(c.size, |payload|, bitOff));
  }

  method ReadMapped(c: Codec, payload: seq<Byte>, bitOff: nat, samples: array<real>, at: nat, n: nat)
    returns (inEnd: nat, outEnd: nat)
    requires c.size > 0 && bitOff % 8 == 0
    requires bitOff / 8 + Times(n, c.size) <= |payload| && at + n <= samples.Length
    modifies samples
    ensures inEnd == bitOff + 8 * Times(n, c.size) && outEnd == at + n
    ensures var made := Floats(c, payload[bitOff / 8..bitOff / 8 + Times(n, c.size)]);
            |made| == n && samples[..] == Patched(old(samples[..]), at, made)
  {
    ReaderMakes(c);
    Ones(n);
    inEnd, outEnd := MapLoop(c.size, 1, Reader(c), payload, bitOff / 8, samples, at, n);
    inEnd := inEnd * 8;
  }

  /** Reads the samples of `m` groups where `left` groups are left. */
  method ReadGroups(c: LawfulCodec, chans: Channels, payload: seq<Byte>, bitOff: nat, samples: array<real>, at: nat,
                    m: nat, ghost left: nat)
    returns (count: nat, inEnd: nat)
    requires m <= left <= Total(c, chans, payload) && bitOff == Offset(c, chans, payload, left)
    requires at + Times(m, chans) <= samples.Length
    modifies samples
    ensures count == Times(m, chans) <= Times(left, chans) && inEnd == bitOff + GroupBits(c, chans, m)
    ensures samples[..] == Patched(old(samples[..]), at, Left(c, chans, payload, left)[..Times(m, chans)])
  {
    ghost var t := Total(c, chans, payload);
    Steps(t, left, m, chans);
    count := Times(m, chans);
    ReadFrom(c, chans, payload, t, left, count, bitOff);
    count := Clipped(c, payload, bitOff, count);
    var outEnd;
    inEnd, outEnd := ReadMapped(c, payload, bitOff, samples, at, count);
  }

  method PerChannel(count: nat, chans: nat, ghost m: nat) returns (n: nat)
    requires chans > 0 && count == Times(m, chans)
    ensures n == m
  {
    WholeGroups(m, chans);
    n := Div(count, chans);
  }

  /** The decoder's fields agree: reading the payload group by group leads to this offset. */
  ghost predicate Reached(c: LawfulCodec, chans: Channels, data: Option<seq<Byte>>, left: nat, off: nat)
    decreases if data.Some? then Total(c, chans, data.value) - left else 0
  {
    if data.None? then left == 0 && off == 0
    else if left >= Total(c, chans, data.value) then left == Total(c, chans, data.value) && off == 0
    else off >= GroupBits(c, chans, 1) && Reached(c, chans, data, left + 1, off - GroupBits(c, chans, 1))
  }

  /** The bit offset is always the groups consumed, times channels, times sample width. */
  lemma {:induction false} ReachedIs(c: LawfulCodec, chans: Channels, payload: seq<Byte>, left: nat, off: nat)
    ensures Reached(c, chans, Some(payload), left, off)
            <==> left <= Total(c, chans, payload) && off == Offset(c, chans, payload, left)
    decreases Total(c, chans, payload) - left
  {
    if left < Total(c, chans, payload) {
      LeftSkip(c, chans, payload, left + 1, 1);
      if off >= GroupBits(c, chans, 1) {
        ReachedIs(c, chans, payload, left + 1, off - GroupBits(c, chans, 1));
      }
    }
  }

  class PcmDecoder {
    const codec: LawfulCodec
    const chans: Channels
    var position: Timestamp
    var available: Timestamp
    var data: Option<seq<Byte>>
    var bitOff: nat

    ghost predicate Valid()
      reads this
    {
      Reached(codec, chans, data, available, bitOff)
    }

    /** The samples not yet read or skipped. */
    ghost function Rest(): (r: seq<real>)
      requires Valid()
      reads this
      ensures |r| == Times(available, chans)
    {
      if data.None? then []
      else
        ReachedIs(codec, chans, data.value, available, bitOff);
        Left(codec, chans, data.value, available)
    }

    constructor (codec: LawfulCodec, chans: Channels)
      ensures Valid() && this.codec == codec && this.chans == chans && data == None && position == 0
    {
      this.codec, this.chans := codec, chans;
      position, available, data, bitOff := 0, 0, None, 0;
    }

    method Begin(framePosition: Timestamp, payload: seq<Byte>)
      requires Valid() && data.None?
      modifies this
      ensures Valid() && data == Some(payload) && position == framePosition
      ensures available == Total(codec, chans, payload) && Rest() == Contents(codec, chans, payload)
    {
      data := Some(payload);
      position := framePosition;
      CountIsWhole(codec, chans, payload);
      available := GroupCount(codec, chans, payload) % RANGE;
    }

    /** Reads as many of `n` groups as are available. */
    method Read(samples: array<real>, at: nat, n: nat) returns (m: nat)
      requires Valid() && data.Some? && at + Times(n, chans) <= samples.Length
      modifies this, samples
      ensures Valid() && data == old(data)
      ensures m == Min(n, old(available)) && available == old(available) - m
      ensures position == (old(position) + m) % RANGE
      ensures Times(m, chans) <= |old(Rest())| && Rest() == old(Rest())[Times(m, chans)..]
      ensures at + Times(m, chans) <= samples.Length
      ensures samples[..] == Patched(old(samples[..]), at, old(Rest())[..Times(m, chans)])
    {
      ReachedIs(codec, chans, data.value, available, bitOff);
      m := Min(n, available);
      TimesAdd(m, n - m, chans);
      var count, inEnd := ReadGroups(codec, chans, data.value, bitOff, samples, at, m, available);
      m := PerChannel(count, chans, m);
      Advance(m, inEnd);
    }

    /** `m` groups are done with, and the offset is behind them. */
    method Advance(m: nat, offset: nat)
      requires Valid() && data.Some? && m <= available && offset == bitOff + GroupBits(codec, chans, m)
      modifies this
      ensures Valid() && data == old(data) && available == old(available) - m && position == (old(position) + m) % RANGE
      ensures Times(m, chans) <= |old(Rest())| && Rest() == old(Rest())[Times(m, chans)..]
    {
      ReachedIs(codec, chans, data.value, available, bitOff);
      LeftSkip(codec, chans, data.value, available, m);
      ReachedIs(codec, chans, data.value, available - m, offset);
      bitOff := offset;
      position := (position + m) % RANGE;
      available := available - m;
    }

    /** Skips as many of `n` groups as are available. */
    method Shift(n: nat) returns (m: nat)
      requires Valid() && data.Some?
      modifies this
      ensures Valid() && data == old(data)
      ensures m == Min(n, old(available)) && available == old(available) - m
      ensures position == (old(position) + m) % RANGE
      ensures Times(m, chans) <= |old(Rest())| && Rest() == old(Rest())[Times(m, chans)..]
    {
      m := Min(n, available);
      Advance(m, bitOff + GroupBits(codec, chans, m));
    }

    method End()
      requires Valid() && data.Some?
      modifies this
      ensures Valid() && data == None && available == 0 && position == old(position)
    {
      available := 0;
      data := None;
      bitOff := 0;
    }
  }
}
