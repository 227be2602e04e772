/** A sender, a network that loses packets and a listener, each with frames of its own lengths. */
module Relay {
  import opened Blocks
  import opened Chopping
  import opened Codecs
  import opened EndToEnd
  import opened PcmCodes
  import opened PcmMapper
  import opened PcmSamples
  import opened Reach
  import opened StreamUnits
  import opened Timeline
  import opened TimelineRuns
  import opened TimelineTheorems
  import D = Depacketizer
  import P = Packetizer

  /** What the network delivers: some of the packets, in order. */
  function Delivered(w: seq<Out>, kept: seq<bool>, i: nat): seq<D.Rtp>
    requires i <= |w| == |kept| && forall j :: 0 <= j < |w| ==> w[j].ts < RANGE
    decreases |w| - i
  {
    if i == |w| then [] else (if kept[i] then [D.Rtp(w[i].ts, w[i].payload)] else []) + Delivered(w, kept, i + 1)
  }

  /** A packet on the wire decodes to its samples through the codec. */
  lemma PacketDecodes(c: LawfulCodec, ch: Channels, ts: Timestamp, xs: seq<real>, n: nat)
    requires |xs| == Times(n, ch) && n < RANGE
    ensures D.Decode(c, ch, D.Rtp(ts, Stored(c, xs))) == Packet(ts, n, Heard(c, xs))
  {
    ReadStored(c, xs, []);
    assert Stored(c, xs) + [] == Stored(c, xs) && Heard(c, xs) + Floats(c, []) == Heard(c, xs);
    WholesOf(n, ch);
    assert Heard(c, xs)[..Times(n, ch)] == Heard(c, xs);
  }

  lemma WireTimestamps(c: LawfulCodec, ch: Channels, seq0: nat, ts0: nat, done: seq<seq<real>>)
    ensures forall j :: 0 <= j < |done| ==> Wire(c, ch, seq0, ts0, done)[j].ts < RANGE
  {
    forall j | 0 <= j < |done|
      ensures Wire(c, ch, seq0, ts0, done)[j].ts < RANGE
    {
      WireAt(c, ch, seq0, ts0, done, j);
    }
  }

  /** Packet `i` on the wire decodes to what the listener expects. */
  lemma WireDecodes(c: LawfulCodec, ch: Channels, seq0: nat, ts0: nat, done: seq<seq<real>>, i: nat, o: Out)
    requires i < |done| && Whole(ch, done) && o == Wire(c, ch, seq0, ts0, done)[i]
    ensures o.ts < RANGE
    ensures D.Decode(c, ch, D.Rtp(o.ts, o.payload))
              == Packet((ts0 + Length(ch, done[..i])) % RANGE, Len(ch, done, i), Heard(c, done[i]))
  {
    WireAt(c, ch, seq0, ts0, done, i);
    PacketDecodes(c, ch, o.ts, done[i], Len(ch, done, i));
  }

  /** The packets delivered decode to what the listener is supplied with. */
  lemma {:induction false} DeliveredDecodes(c: LawfulCodec, ch: Channels, seq0: nat, ts0: nat, done: seq<seq<real>>,
                                            kept: seq<bool>, i: nat, w: seq<Out>)
    requires i <= |done| == |kept| && Whole(ch, done) && w == Wire(c, ch, seq0, ts0, done)
    requires forall j :: 0 <= j < |w| ==> w[j].ts < RANGE
    ensures D.Decodes(c, ch, Delivered(w, kept, i), Supply(c, ch, ts0, done, kept, i))
    decreases |done| - i
  {
    if i < |done| {
      DeliveredDecodes(c, ch, seq0, ts0, done, kept, i + 1, w);
      if kept[i] {
        WireDecodes(c, ch, seq0, ts0, done, i, w[i]);
        DecodesMore(c, ch, D.Rtp(w[i].ts, w[i].payload), Delivered(w, kept, i + 1),
                    Packet((ts0 + Length(ch, done[..i])) % RANGE, Len(ch, done, i), Heard(c, done[i])),
                    Supply(c, ch, ts0, done, kept, i + 1));
      } else {
        assert Delivered(w, kept, i) == Delivered(w, kept, i + 1);
        assert Supply(c, ch, ts0, done, kept, i) == Supply(c, ch, ts0, done, kept, i + 1);
      }
    }
  }

  lemma DecodesMore(c: LawfulCodec, ch: Channels, r: D.Rtp, rs: seq<D.Rtp>, p: Packet, ps: seq<Packet>)
    requires D.Decodes(c, ch, rs, ps) && p == D.Decode(c, ch, r)
    ensures D.Decodes(c, ch, [r] + rs, [p] + ps)
  {
    assert ([r] + rs)[1..] == rs && ([p] + ps)[1..] == ps;
  }

  /** The network. */
  method Deliver(w: seq<Out>, kept: seq<bool>) returns (rs: seq<D.Rtp>)
    requires |w| == |kept| && forall j :: 0 <= j < |w| ==> w[j].ts < RANGE
    ensures rs == Delivered(w, kept, 0)
  {
    rs := [];
    var i := |w|;
    while i > 0
      invariant 0 <= i <= |w| && rs == Delivered(w, kept, i)
    {
      i := i - 1;
      if kept[i] {
        rs := [D.Rtp(w[i].ts, w[i].payload)] + rs;
      }
    }
  }

  // ----- the sender

  /** Frames of whole groups. */
  predicate Framed(ch: Channels, frames: seq<seq<real>>) {
    forall i :: 0 <= i < |frames| ==> |frames[i]| == Times(Len(ch, frames, i), ch)
  }

  lemma FramesFed(ch: Channels, full: nat, frames: seq<seq<real>>, i: nat)
    requires i < |frames| && Framed(ch, frames)
    requires |Concat(frames[..i])| == Times(Length(ch, frames[..i]), ch)
    ensures |Concat(frames[..i + 1])| == Times(Length(ch, frames[..i + 1]), ch)
    ensures Feed(ch, full, Chopped([], []), Concat(frames[..i + 1]), Length(ch, frames[..i + 1]))
            == Feed(ch, full, Feed(ch, full, Chopped([], []), Concat(frames[..i]), Length(ch, frames[..i])),
                    frames[i], Len(ch, frames, i))
  {
    assert frames[..i + 1] == frames[..i] + [frames[i]];
    ConcatAdd(frames[..i], frames[i]);
    LengthNext(ch, frames, i);
    FeedSplit(ch, full, Chopped([], []), Concat(frames[..i]), Length(ch, frames[..i]), frames[i], Len(ch, frames, i));
  }

  lemma {:induction false} FramesLength(ch: Channels, frames: seq<seq<real>>, i: nat)
    requires i <= |frames| && Framed(ch, frames)
    ensures |Concat(frames[..i])| == Times(Length(ch, frames[..i]), ch)
    decreases i
  {
    if i > 0 {
      FramesLength(ch, frames, i - 1);
      FramesFed(ch, 0, frames, i - 1);
    }
  }

  /** The packets that a sender makes of its frames depend only on the samples. */
  function Sent(ch: Channels, per: nat, frames: seq<seq<real>>): seq<seq<real>>
    requires Framed(ch, frames)
  {
    FramesLength(ch, frames, |frames|);
    assert frames[..|frames|] == frames;
    Packets(ch, per, Concat(frames), Length(ch, frames))
  }

  /** Sends frames, with a packet for every group if need be, and what is left at the end. */
  method Send(p: P.Packetizer, frames: seq<seq<real>>)
    requires p.Valid() && p.payload == null && p.view == Chopped([], []) && Framed(p.encoder.chans, frames)
    modifies p, p.encoder
    ensures p.Valid() && p.payload == null && p.view.done == Sent(p.encoder.chans, p.samplesPerPacket, frames)
  {
    ghost var ch, full := p.encoder.chans, p.Full();
    for i := 0 to |frames|
      invariant p.Valid() && (p.payload == null || fresh(p.payload))
      invariant |Concat(frames[..i])| == Times(Length(ch, frames[..i]), ch)
      invariant p.view == Feed(ch, full, Chopped([], []), Concat(frames[..i]), Length(ch, frames[..i]))
    {
      SendFrame(p, frames[i], Wholes(|frames[i]|, p.encoder.chans));
      FramesFed(ch, full, frames, i);
    }
    assert frames[..|frames|] == frames;
    p.FlushPacket();
  }

  method SendFrame(p: P.Packetizer, frame: seq<real>, n: nat)
    requires p.Valid() && |frame| == Times(n, p.encoder.chans)
    modifies p, p.encoder, p.payload
    ensures p.Valid() && (p.payload == null || p.payload == old(p.payload) || fresh(p.payload))
    ensures p.view == Feed(p.encoder.chans, p.Full(), old(p.view), frame, n)
  {
    var left;
    ghost var used;
    left, used := p.Write(frame, n, n);
    assert frame[..Times(used, p.encoder.chans)] == frame;
  }

  // ----- the listener

  function Sum(ns: seq<nat>): nat {
    if ns == [] then 0 else Sum(ns[..|ns| - 1]) + ns[|ns| - 1]
  }

  lemma SumNext(ns: seq<nat>, i: nat)
    requires i < |ns|
    ensures Sum(ns[..i + 1]) == Sum(ns[..i]) + ns[i]
  {
    var more := ns[..i + 1];
    assert more[..|more| - 1] == ns[..i];
  }

  lemma {:induction false} SumMore(ns: seq<nat>, i: nat)
    requires i <= |ns|
    ensures Sum(ns[..i]) <= Sum(ns)
    decreases |ns| - i
  {
    if i == |ns| {
      assert ns[..i] == ns;
    } else {
      SumMore(ns, i + 1);
      SumNext(ns, i);
    }
  }

  /** The listener has read `n` groups: what it heard, where it stands and what it is still supplied with. */
  ghost predicate HasRead(d: D.Depacketizer, t: Track, s: seq<Packet>, n: nat, heard: seq<real>, supply: seq<D.Rtp>,
                          rest: seq<Packet>)
    reads d, d.decoder
  {
    && d.Valid() && D.Decodes(d.decoder.codec, d.decoder.chans, supply, rest)
    && AllProper(d.decoder.chans, s) && Shaped(d.decoder.chans, t)
    && var o := Read(d.decoder.chans, t, s, n);
       o.ok && o.track == d.View() && o.supply == rest && o.out == heard
  }

  /** `heard` are frames of the given lengths. */
  predicate Shapes(ch: Channels, heard: seq<seq<real>>, lens: seq<nat>) {
    |heard| == |lens| && forall i :: 0 <= i < |lens| ==> |heard[i]| == Times(lens[i], ch)
  }

  /** Reads frames of given lengths one after another: together they are one long read. */
  method Receive(d: D.Depacketizer, supply: seq<D.Rtp>, lens: seq<nat>, ghost s: seq<Packet>)
    returns (heard: seq<seq<real>>, ok: bool)
    requires d.Valid() && D.Decodes(d.decoder.codec, d.decoder.chans, supply, s) && AllProper(d.decoder.chans, s)
    modifies d, d.decoder
    ensures ok == Read(d.decoder.chans, old(d.View()), s, Sum(lens)).ok
    ensures ok ==> d.Valid() && d.View() == Read(d.decoder.chans, old(d.View()), s, Sum(lens)).track
    ensures ok ==> Concat(heard) == Read(d.decoder.chans, old(d.View()), s, Sum(lens)).out
    ensures ok ==> Shapes(d.decoder.chans, heard, lens)
  {
    heard, ok := [], true;
    var left, i := supply, 0;
    ghost var t, rest, n := d.View(), s, 0;
    while i < |lens|
      invariant 0 <= i <= |lens| && n == Sum(lens[..i]) && HasRead(d, t, s, n, Concat(heard), left, rest)
      invariant Shapes(d.decoder.chans, heard, lens[..i])
    {
      OneLonger(lens, i);
      SumNext(lens, i);
      heard, left, ok, rest, n := ReceiveNext(d, left, lens[i], heard, lens[..i], t, s, n, rest);
      i := i + 1;
      if !ok {
        SumMore(lens, i);
        FailsLonger(d.decoder.chans, t, s, n, Sum(lens));
        return;
      }
    }
    assert lens[..|lens|] == lens;
  }

  lemma OneLonger(lens: seq<nat>, i: nat)
    requires i < |lens|
    ensures lens[..i + 1] == lens[..i] + [lens[i]]
  {
  }

  method ReceiveNext(d: D.Depacketizer, supply: seq<D.Rtp>, n: nat, heard: seq<seq<real>>, ghost lens: seq<nat>,
                     ghost t: Track, ghost s: seq<Packet>, ghost k: nat, ghost rest: seq<Packet>)
    returns (heard': seq<seq<real>>, left: seq<D.Rtp>, ok: bool, ghost more: seq<Packet>, ghost k': nat)
    requires HasRead(d, t, s, k, Concat(heard), supply, rest) && Shapes(d.decoder.chans, heard, lens)
    modifies d, d.decoder
    ensures AllProper(d.decoder.chans, s) && Shaped(d.decoder.chans, t)
    ensures k' == k + n && ok == Read(d.decoder.chans, t, s, k').ok
    ensures ok ==> HasRead(d, t, s, k', Concat(heard'), left, more) && Shapes(d.decoder.chans, heard', lens + [n])
  {
    var frame;
    frame, left, ok, more := ReceiveFrame(d, supply, n, t, s, k, Concat(heard), rest);
    ConcatAdd(heard, frame);
    heard', k' := heard + [frame], k + n;
  }

  lemma FailsLonger(ch: nat, t: Track, s: seq<Packet>, n: nat, m: nat)
    requires AllProper(ch, s) && Shaped(ch, t) && n <= m && !Read(ch, t, s, n).ok
    ensures !Read(ch, t, s, m).ok
  {
    if Read(ch, t, s, m).ok { ReadShorter(ch, t, s, n, m); }
  }

  /** One more frame. */
  method ReceiveFrame(d: D.Depacketizer, supply: seq<D.Rtp>, n: nat, ghost t: Track, ghost s: seq<Packet>, ghost k: nat,
                      ghost before: seq<real>, ghost rest: seq<Packet>)
    returns (heard: seq<real>, left: seq<D.Rtp>, ok: bool, ghost more: seq<Packet>)
    requires HasRead(d, t, s, k, before, supply, rest)
    modifies d, d.decoder
    ensures AllProper(d.decoder.chans, s) && Shaped(d.decoder.chans, t) && ok == Read(d.decoder.chans, t, s, k + n).ok
    ensures ok ==> HasRead(d, t, s, k + n, before + heard, left, more) && |heard| == Times(n, d.decoder.chans)
  {
    ghost var ch := d.decoder.chans;
    ghost var o := Read(ch, t, s, k);
    ReadSplit(ch, t, s, k, n);
    var frame := new real[Times(n, d.decoder.chans)];
    var decoded, dropped;
    left, decoded, dropped, ok, more := d.ReadFrame(frame, supply, n, rest, Read(ch, o.track, o.supply, n));
    heard := frame[..];
  }

  // ----- together

  /**
   * Whatever the lengths of the frames written, of the packets and of the frames read, and whichever packets are lost,
   * the listener hears the packets that it accepted, `log`. If each one delivered ends at most 2^31 groups after the
   * one before, that is the sender's samples through the codec from the first packet delivered on, silence for lost
   * packets, and silence after the end; and exactly then all packets are accepted where they belong.
   */
  method RelayFrames(c: LawfulCodec, ch: Channels, per: P.PacketLength, seq0: nat, ts0: nat, frames: seq<seq<real>>,
                     kept: seq<bool>, ghost first: nat, lens: seq<nat>)
    returns (heard: seq<seq<real>>, ghost log: seq<Entry>)
    requires seq0 < 0x1_0000 && ts0 < RANGE && per < HALF && Framed(ch, frames)
    requires |kept| == |Sent(ch, per, frames)| && First(kept, first)
    ensures Shapes(ch, heard, lens) && Logged(ch, log)
    ensures first < |kept| ==>
              Concat(heard) == Voices(ch, log, StartOf(ch, ts0, Sent(ch, per, frames), first), Sum(lens))
    ensures InReach(ch, Sent(ch, per, frames), kept, first, 0) ==>
              Concat(heard) == Audible(Masked(c, Sent(ch, per, frames), kept, first), Times(Sum(lens), ch))
    ensures Sum(lens) >= Remaining(ch, Sent(ch, per, frames), first) ==>
              (InPlace(ch, ts0, Sent(ch, per, frames), kept, first, log)
               <==> InReach(ch, Sent(ch, per, frames), kept, first, 0))
    ensures (forall j :: 0 <= j < |kept| ==> kept[j]) ==>
              Concat(heard) == Audible(Heard(c, Concat(frames)), Times(Sum(lens), ch))
  {
    var p := new P.Packetizer(c, ch, per, seq0, ts0);
    Send(p, frames);
    ghost var done := p.view.done;
    SentFacts(ch, per, frames);
    WireTimestamps(c, ch, seq0, ts0, done);
    var rs := Deliver(p.sent, kept);
    DeliveredDecodes(c, ch, seq0, ts0, done, kept, 0, p.sent);
    ghost var s := Supply(c, ch, ts0, done, kept, 0);
    HeardAtAnyTime(c, ch, ts0, done, kept, first, s, Sum(lens));
    var d := new D.Depacketizer(c, ch);
    var ok;
    heard, ok := Receive(d, rs, lens, s);
    log := d.log;
    if forall j :: 0 <= j < |kept| ==> kept[j] {
      AllInReach(ch, done, kept, first);
      AllHeard(c, ch, done, kept, first, Concat(frames));
    }
  }

  lemma SentFacts(ch: Channels, per: nat, frames: seq<seq<real>>)
    requires Framed(ch, frames) && 0 < per < HALF
    ensures Whole(ch, Sent(ch, per, frames)) && Concat(Sent(ch, per, frames)) == Concat(frames)
  {
    FramesLength(ch, frames, |frames|);
    assert frames[..|frames|] == frames;
    PacketsFacts(ch, per, Concat(frames), Length(ch, frames));
  }

  lemma HeardAtAnyTime(c: LawfulCodec, ch: Channels, ts0: nat, done: seq<seq<real>>, kept: seq<bool>, i: nat,
                       s: seq<Packet>, k: nat)
    requires |done| == |kept| && First(kept, i) && Whole(ch, done)
    requires s == Supply(c, ch, ts0, done, kept, 0)
    ensures AllProper(ch, s) && Shaped(ch, INITIAL) && Read(ch, INITIAL, s, k).ok
    ensures var o := Read(ch, INITIAL, s, k);
            && Logged(ch, o.track.log)
            && (i < |kept| ==> o.out == Voices(ch, o.track.log, StartOf(ch, ts0, done, i), k))
            && (InReach(ch, done, kept, i, 0) ==> o.out == Audible(Masked(c, done, kept, i), Times(k, ch)))
            && (k >= Remaining(ch, done, i) ==>
                  (InPlace(ch, ts0, done, kept, i, o.track.log) <==> InReach(ch, done, kept, i, 0)))
  {
    SupplyProper(c, ch, ts0, done, kept, 0);
    SupplyNoneEmpty(c, ch, ts0, done, kept, 0);
    ReadNeverFaults(ch, INITIAL, s, k);
    HeardVoices(c, ch, ts0, done, kept, i, s, k);
    if InReach(ch, done, kept, i, 0) {
      ListenerHears(c, ch, ts0, done, kept, i);
      HearsAtAnyTime(ch, INITIAL, s, Remaining(ch, done, i), Masked(c, done, kept, i), k);
    }
    if k >= Remaining(ch, done, i) {
      AcceptedInPlaceIff(c, ch, ts0, done, kept, i, s, k, Read(ch, INITIAL, s, k));
    }
  }

  lemma HeardVoices(c: LawfulCodec, ch: Channels, ts0: nat, done: seq<seq<real>>, kept: seq<bool>, i: nat,
                    s: seq<Packet>, k: nat)
    requires |done| == |kept| && First(kept, i) && Whole(ch, done)
    requires s == Supply(c, ch, ts0, done, kept, 0) && AllProper(ch, s) && Read(ch, INITIAL, s, k).ok
    ensures var o := Read(ch, INITIAL, s, k);
            && Logged(ch, o.track.log)
            && (i < |kept| ==> o.out == Voices(ch, o.track.log, StartOf(ch, ts0, done, i), k))
  {
    InitialInv(ch);
    ReadIsHeard(ch, INITIAL, s, k);
    SupplyFrom(c, ch, ts0, done, kept, 0, i);
    if i < |kept| {
      var p, rest := FirstPacket(c, ch, ts0, done, kept, i);
      assert s[0] == p;
    }
  }

  lemma AllHeard(c: LawfulCodec, ch: Channels, done: seq<seq<real>>, kept: seq<bool>, first: nat, xs: seq<real>)
    requires |done| == |kept| && First(kept, first) && (forall j :: 0 <= j < |kept| ==> kept[j]) && Concat(done) == xs
    ensures Masked(c, done, kept, first) == Heard(c, xs)
  {
    assert first == 0;
    NothingLost(c, done, kept, 0);
    assert done[..0] == [] && Heard(c, Concat(done[..0])) == [];
    assert [] + Masked(c, done, kept, 0) == Masked(c, done, kept, 0);
  }

  // ----- PCM formats

  /** Less than one step of `h` to the unit apart. */
  predicate Close(x: real, y: real, h: nat) {
    -1.0 < (x - y) * h as real < 1.0
  }

  lemma NearFrom(x: real, y: real, h: nat)
    requires h > 0 && (x >= 0.0 ==> y <= x && (x - y) * h as real < 1.0)
    requires x < 0.0 ==> x <= y && (y - x) * h as real < 1.0
    ensures Close(y, x, h)
  {
    var k := h as real;
    assert (y - x) * k == 0.0 - (x - y) * k;
    Divided(x - y, k);
    Divided(y - x, k);
  }

  lemma QuantizedNear(f: Format, x: real)
    requires Supported(f) && -1.0 <= x < 1.0
    ensures Close(Quantized(f.code, x), x, Half(f.code))
  {
    QuantizedClose(f.code, x);
    NearFrom(x, Quantized(f.code, x), Half(f.code));
  }

  lemma FormatHeard(f: Format, xs: seq<real>, i: nat)
    requires Supported(f) && i < |xs|
    ensures Heard(FormatCodec(f), xs)[i] == Quantized(f.code, xs[i])
  {
    FormatIsLawful(f);
  }

  /** In a PCM format and without losses, every sample is heard quantized, less than one step away if it is in range. */
  lemma FormatStream(f: Format, ch: Channels, per: nat, ts0: nat, xs: seq<real>, n: nat, kept: seq<bool>,
                     out: seq<real>)
    requires Supported(f) && |xs| == Times(n, ch) && 0 < per < HALF && out == Heard(FormatCodec(f), xs)
    requires |kept| == |Packets(ch, per, xs, n)| && forall j :: 0 <= j < |kept| ==> kept[j]
    ensures Lawful(FormatCodec(f))
    ensures Hears(ch, INITIAL, Supply(FormatCodec(f), ch, ts0, Packets(ch, per, xs, n), kept, 0), n, out)
    ensures forall i :: 0 <= i < |xs| ==> out[i] == Quantized(f.code, xs[i])
    ensures forall i :: 0 <= i < |xs| && -1.0 <= xs[i] < 1.0 ==> Close(out[i], xs[i], Half(f.code))
  {
    FormatSamples(f, xs, out);
    FormatIsLawful(f);
    LosslessStream(FormatCodec(f), ch, per, ts0, xs, n, kept);
  }

  lemma FormatSamples(f: Format, xs: seq<real>, out: seq<real>)
    requires Supported(f) && out == Heard(FormatCodec(f), xs)
    ensures forall i :: 0 <= i < |xs| ==> out[i] == Quantized(f.code, xs[i])
    ensures forall i :: 0 <= i < |xs| && -1.0 <= xs[i] < 1.0 ==> Close(out[i], xs[i], Half(f.code))
  {
    forall i | 0 <= i < |xs|
      ensures out[i] == Quantized(f.code, xs[i]) && (-1.0 <= xs[i] < 1.0 ==> Close(out[i], xs[i], Half(f.code)))
    {
      FormatHeard(f, xs, i);
      if -1.0 <= xs[i] < 1.0 { QuantizedNear(f, xs[i]); }
    }
  }
}
