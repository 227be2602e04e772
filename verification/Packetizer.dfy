/** Cutting frames of samples into packets, as packetizer.cpp does. */
module Packetizer {
  import opened Blocks
  import opened Chopping
  import opened Codecs
  import opened Octets
  import opened StreamUnits
  import Encoder = PcmEncoder

  /** A packet length is a positive stream timestamp. */
  type PacketLength = n: nat | 0 < n < RANGE witness 1

  /** The packets sent and the next number and timestamp follow from the samples cut. */
  ghost predicate OnWire(c: LawfulCodec, ch: Channels, seq0: nat, ts0: nat, done: seq<seq<real>>, sent: seq<Out>,
                         seqnum: nat, ts: nat)
  {
    && sent == Wire(c, ch, seq0, ts0, done)
    && seqnum == (seq0 + |done|) % 0x1_0000 && ts == (ts0 + Length(ch, done)) % RANGE
  }

  /** The first `used` of `n` groups have been cut, and `count` are left. */
  ghost predicate Fed(ch: Channels, full: nat, c: Chopped, frame: seq<real>, n: nat, used: nat, rest: seq<real>,
                      count: nat, view: Chopped)
  {
    && used + count == n && Times(used, ch) <= |frame| == Times(n, ch)
    && rest == frame[Times(used, ch)..] && |rest| == Times(count, ch)
    && view == Feed(ch, full, c, frame[..Times(used, ch)], used)
  }

  lemma FedMore(ch: Channels, full: nat, c: Chopped, frame: seq<real>, n: nat, used: nat, rest: seq<real>, count: nat,
                was: Chopped, m: nat, view: Chopped)
    requires Fed(ch, full, c, frame, n, used, rest, count, was) && m <= count && Times(m, ch) <= |rest|
    requires view == Feed(ch, full, was, rest[..Times(m, ch)], m)
    ensures Fed(ch, full, c, frame, n, used + m, rest[Times(m, ch)..], count - m, view)
  {
    TimesAdd(used, m, ch);
    TimesAdd(m, count - m, ch);
    CutSlices(frame, Times(used, ch), rest, Times(m, ch));
    FeedSplit(ch, full, c, frame[..Times(used, ch)], used, rest[..Times(m, ch)], m);
  }

  lemma CutSlices(s: seq<real>, a: nat, rest: seq<real>, b: nat)
    requires a <= |s| && rest == s[a..] && b <= |rest|
    ensures s[..a + b] == s[..a] + rest[..b] && rest[b..] == s[a + b..]
  {
  }

  class Packetizer {
    const encoder: Encoder.PcmEncoder
    const samplesPerPacket: PacketLength
    /** The packet being filled, if any: its payload and the fields set when it was begun. */
    var payload: array?<Byte>
    var rtpSeqnum: nat
    var rtpTs: nat
    var packetPos: nat
    var seqnum: nat
    var streamTs: nat
    /** What was handed to the writer. */
    var sent: seq<Out>
    ghost const seq0: nat
    ghost const ts0: nat
    ghost var view: Chopped

    ghost function Full(): nat {
      Times(samplesPerPacket, encoder.chans)
    }

    /** The counters and the packets sent agree with the samples cut so far. */
    ghost predicate Counted()
      reads this
    {
      && OnWire(encoder.codec, encoder.chans, seq0, ts0, view.done, sent, seqnum, streamTs)
      && |view.open| == Times(packetPos, encoder.chans) && packetPos < samplesPerPacket
    }

    /** The packet being filled holds the samples not sent yet. */
    ghost predicate Filling()
      reads this, encoder, encoder.data
    {
      && encoder.Valid() && encoder.data == payload
      && if payload == null then view.open == []
         else
           && encoder.written == view.open && rtpSeqnum == seqnum && rtpTs == streamTs
           && payload.Length == Times(Full(), encoder.codec.size)
    }

    ghost predicate Valid()
      reads this, encoder, encoder.data
    {
      Counted() && Filling() && (payload != null ==> packetPos > 0)
    }

    constructor (codec: LawfulCodec, chans: Channels, samplesPerPacket: PacketLength, seq0: nat, ts0: nat)
      requires seq0 < 0x1_0000 && ts0 < RANGE
      ensures Valid() && fresh(encoder) && encoder.codec == codec && encoder.chans == chans && payload == null
      ensures this.samplesPerPacket == samplesPerPacket && this.seq0 == seq0 && this.ts0 == ts0
      ensures view == Chopped([], [])
    {
      encoder := new Encoder.PcmEncoder(codec, chans);
      this.samplesPerPacket, this.seq0, this.ts0 := samplesPerPacket, seq0, ts0;
      payload, rtpSeqnum, rtpTs, packetPos, seqnum, streamTs, sent := null, 0, 0, 0, seq0, ts0, [];
      view := Chopped([], []);
    }

    /** Begins a packet, unless allocation fails. */
    method BeginPacket(enough: bool) returns (ok: bool)
      requires Counted() && Filling() && payload == null
      modifies this`payload, this`rtpSeqnum, this`rtpTs, encoder
      ensures ok == enough && Counted() && Filling()
      ensures if ok then payload != null && fresh(payload) else payload == null
    {
      ok := enough;
      if ok {
        Encoder.EncodedSizeIs(encoder.codec, encoder.chans, samplesPerPacket);
        payload := new Byte[Encoder.EncodedSize(encoder.codec, encoder.chans, samplesPerPacket)];
        encoder.Begin(payload);
        rtpSeqnum, rtpTs := seqnum, streamTs;
      }
    }

    /** Encodes samples up to the end of the packet. */
    method Fill(samples: seq<real>, n: nat)
      requires Counted() && Filling() && payload != null && |samples| == Times(n, encoder.chans) && 0 < n
      requires packetPos + n <= samplesPerPacket
      modifies this`packetPos, this`view, encoder, payload
      ensures encoder.Valid() && encoder.data == payload && encoder.written == old(view.open) + samples
      ensures packetPos == old(packetPos) + n && view == old(view)
    {
      TimesAdd(packetPos, n, encoder.chans);
      TimesMono(packetPos + n, samplesPerPacket, encoder.chans);
      StoredSize(encoder.codec, encoder.written);
      TimesAdd(|view.open|, |samples|, encoder.codec.size);
      TimesMono(|view.open| + |samples|, Full(), encoder.codec.size);
      ghost var count;
      var m;
      m, count := encoder.Write(samples, n);
      assert samples[..count] == samples;
      packetPos := packetPos + m;
    }

    /** Hands the packet to the writer; a packet that is not full gets a shorter payload. */
    method EndPacket()
      requires OnWire(encoder.codec, encoder.chans, seq0, ts0, view.done, sent, seqnum, streamTs)
      requires encoder.Valid() && payload != null && encoder.data == payload && rtpSeqnum == seqnum && rtpTs == streamTs
      requires payload.Length == Times(Full(), encoder.codec.size)
      requires 0 < packetPos <= samplesPerPacket && |encoder.written| == Times(packetPos, encoder.chans)
      modifies this, encoder
      ensures Valid() && payload == null && view == Chopped(old(view.done) + [old(encoder.written)], [])
    {
      ghost var w, done := encoder.written, view.done + [encoder.written];
      var data := TakePayload();
      var nextSent, nextSeqnum, nextTs :=
        sent + [Out(rtpSeqnum, rtpTs, packetPos, data)], (seqnum + 1) % 0x1_0000, (streamTs + packetPos) % RANGE;
      OneMoreSent(encoder.codec, encoder.chans, seq0, ts0, view.done, sent, seqnum, streamTs, w, packetPos, done,
                  nextSent, nextSeqnum, nextTs);
      sent, seqnum, streamTs := nextSent, nextSeqnum, nextTs;
      payload := null;
      packetPos := 0;
      view := Chopped(done, []);
    }

    /** The payload of the packet: all of its buffer, or as much as was encoded. */
    method TakePayload() returns (data: seq<Byte>)
      requires encoder.Valid() && payload != null && encoder.data == payload
      requires payload.Length == Times(Full(), encoder.codec.size)
      requires packetPos <= samplesPerPacket && |encoder.written| == Times(packetPos, encoder.chans)
      modifies encoder
      ensures encoder.Valid() && encoder.data == null && data == Stored(encoder.codec, old(encoder.written))
    {
      ghost var w := encoder.written;
      StoredSize(encoder.codec, w);
      Encoder.EncodedSizeIs(encoder.codec, encoder.chans, packetPos);
      data := payload[..];
      if packetPos < samplesPerPacket {
        data := payload[..Encoder.EncodedSize(encoder.codec, encoder.chans, packetPos)];
      }
      assert data == Stored(encoder.codec, w);
      encoder.End();
    }

    /** Encodes as many of `n` groups as the packet has room for, and sends it when it is full. */
    method Round(samples: seq<real>, n: nat) returns (m: nat)
      requires Counted() && Filling() && payload != null && |samples| == Times(n, encoder.chans) && 0 < n
      modifies this, encoder, payload
      ensures Valid() && m == Min(n, samplesPerPacket - old(packetPos)) && Times(m, encoder.chans) <= |samples|
      ensures payload == null || payload == old(payload)
      ensures view == Feed(encoder.chans, Full(), old(view), samples[..Times(m, encoder.chans)], m)
    {
      m := Min(n, samplesPerPacket - packetPos);
      TimesAdd(m, n - m, encoder.chans);
      TimesAdd(packetPos, m, encoder.chans);
      var part := samples[..Times(m, encoder.chans)];
      FeedRun(encoder.chans, samplesPerPacket, view, packetPos, part, m);
      Fill(part, m);
      if packetPos == samplesPerPacket {
        EndPacket();
      } else {
        view := Chopped(view.done, view.open + part);
      }
    }

    /**
     * Cuts a frame of `n` groups into packets, as long as packets can be allocated: `budget` of them, each for at least
     * one group. What is cut depends only on the samples.
     */
    method Write(frame: seq<real>, n: nat, budget: nat) returns (left: nat, ghost used: nat)
      requires Valid() && |frame| == Times(n, encoder.chans)
      modifies this, encoder, payload
      ensures Valid() && (payload == null || payload == old(payload) || fresh(payload))
      ensures used <= n && Times(used, encoder.chans) <= |frame| && (used < n ==> left == 0 && payload == null)
      ensures left <= budget <= left + used
      ensures view == Feed(encoder.chans, Full(), old(view), frame[..Times(used, encoder.chans)], used)
    {
      left, used := budget, 0;
      var rest, count := frame, n;
      while count != 0
        invariant Valid() && (payload == null || payload == old(payload) || fresh(payload))
        invariant Fed(encoder.chans, Full(), old(view), frame, n, used, rest, count, view)
        invariant left <= budget <= left + used
      {
        if payload == null {
          var ok := BeginPacket(left > 0);
          if !ok {
            return;
          }
          left := left - 1;
        }
        ghost var was := view;
        var m := Round(rest, count);
        FedMore(encoder.chans, Full(), old(view), frame, n, used, rest, count, was, m, view);
        rest := rest[Times(m, encoder.chans)..];
        count, used := count - m, used + m;
      }
    }

    /** Sends the packet being filled, if any. */
    method FlushPacket()
      requires Valid()
      modifies this, encoder
      ensures Valid() && payload == null && view == Chopping.Flush(old(view))
    {
      if payload != null {
        EndPacket();
      }
    }
  }

  lemma OneMoreSent(c: LawfulCodec, ch: Channels, seq0: nat, ts0: nat, done: seq<seq<real>>, sent: seq<Out>,
                    seqnum: nat, ts: nat, w: seq<real>, n: nat, done': seq<seq<real>>, sent': seq<Out>, seqnum': nat,
                    ts': nat)
    requires OnWire(c, ch, seq0, ts0, done, sent, seqnum, ts) && |w| == Times(n, ch)
    requires done' == done + [w] && sent' == sent + [Out(seqnum, ts, n, Stored(c, w))]
    requires seqnum' == (seqnum + 1) % 0x1_0000 && ts' == (ts + n) % RANGE
    ensures OnWire(c, ch, seq0, ts0, done', sent', seqnum', ts')
  {
    WholesOf(n, ch);
    assert (done + [w])[..|done|] == done;
    WrapAdd(seq0 + |done|, 1, 0x1_0000);
    WrapAdd(ts0 + Length(ch, done), n, RANGE);
  }
}
