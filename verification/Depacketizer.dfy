/** Turning packets back into a continuous stream, as depacketizer.cpp does. */
module Depacketizer {
  import opened Blocks
  import opened Codecs
  import opened Octets
  import opened StreamTime
  import opened StreamUnits
  import opened Timeline
  import opened TimelineRuns
  import opened TimelineTheorems
  import Decoder = PcmDecoder

  /** What is used of an RTP packet. */
  datatype Rtp = Rtp(ts: Timestamp, payload: seq<Byte>)

  /** The packet as the decoder will see it. */
  function Decode(c: LawfulCodec, ch: Channels, r: Rtp): Packet
  {
    Packet(r.ts, Decoder.Total(c, ch, r.payload), Decoder.Contents(c, ch, r.payload))
  }

  /** `ps` are the packets `rs` as the decoder will see them. */
  ghost predicate Decodes(c: LawfulCodec, ch: Channels, rs: seq<Rtp>, ps: seq<Packet>)
  {
    if rs == [] then ps == [] else ps != [] && ps[0] == Decode(c, ch, rs[0]) && Decodes(c, ch, rs[1..], ps[1..])
  }

  // ----- steps of the timeline that the packet loop makes

  lemma DropStep(ch: nat, t: Track, s: seq<Packet>)
    requires AllProper(ch, s) && s != [] && Idle(t) && t.started && Judge(t.pos, s[0]) == Drop
    ensures AllProper(ch, s[1..]) && Settle(ch, t, s) == Before([], 0, 1, Settle(ch, t, s[1..]))
  {
  }

  lemma DropMore(ch: nat, t: Track, s: seq<Packet>, dropped: nat, rest: seq<Packet>)
    requires AllProper(ch, s) && AllProper(ch, rest) && rest != [] && Idle(t) && t.started
    requires Judge(t.pos, rest[0]) == Drop
    requires Settle(ch, t, s) == Before([], 0, dropped, Settle(ch, t, rest))
    ensures AllProper(ch, rest[1..]) && Settle(ch, t, s) == Before([], 0, dropped + 1, Settle(ch, t, rest[1..]))
  {
    DropStep(ch, t, rest);
    BeforeTwice([], 0, dropped, [], 0, 1, Settle(ch, t, rest[1..]));
  }

  lemma StartStep(ch: nat, t: Track, s: seq<Packet>)
    requires AllProper(ch, s) && s != [] && Idle(t) && !t.started
    ensures AllProper(ch, s[1..]) && Settle(ch, t, s) == Settle(ch, Started(t, s[0]), s[1..])
  {
  }

  lemma AcceptStep(ch: nat, t: Track, s: seq<Packet>)
    requires AllProper(ch, s) && s != [] && Idle(t) && t.started && Judge(t.pos, s[0]) == Accept
    ensures AllProper(ch, s[1..]) && Settle(ch, t, s) == Settle(ch, Accepted(ch, t, s[0]), s[1..])
  {
    assert !Idle(Accepted(ch, t, s[0]));
  }

  lemma FaultStep(ch: nat, t: Track, s: seq<Packet>)
    requires AllProper(ch, s) && s != [] && Idle(t) && t.started && Judge(t.pos, s[0]) == Fault
    ensures !Settle(ch, t, s).ok
  {
  }

  /** The track when no packet is held. */
  function Waiting(started: bool, pos: int, log: seq<Entry>): Track {
    Track(started, pos, pos, 0, [], log)
  }

  /** A gap of `g` groups in a frame part of `k` groups ends after `n` groups. */
  lemma GapEnds(ch: nat, from: nat, to: nat, g: nat, k: nat, n: nat)
    requires from <= to && to - from == Times(k, ch) && n == Min(g, k)
    ensures Min(Times(g, ch), to - from) == Times(n, ch) && to - (from + Times(n, ch)) == Times(k - n, ch)
  {
    TimesMin(g, k, ch);
    TimesAdd(n, k - n, ch);
  }

  /** A stretch of silence, and then one of the packet. */
  lemma BothPassed(ch: nat, t: Track, n: nat, m: nat, v: Track, u: Track, out: seq<real>, used: nat)
    requires used == n + m && Shaped(ch, t) && t.pos + n <= t.at && m <= t.left && v == t.(pos := t.pos + n)
    requires (m == 0 && u == v) || (v.at == v.pos && u == Played(ch, v, m))
    requires Times(m, ch) <= |t.rest| && out == Silence(Times(n, ch)) + t.rest[..Times(m, ch)]
    ensures Passed(ch, t, n, m, u, out) && |out| == Times(used, ch)
  {
    TimesAdd(n, m, ch);
    if m == 0 { assert v.rest[0..] == v.rest; }
  }

  lemma ZeroNext(s: seq<real>, from: nat, i: nat)
    requires from + i < |s|
    ensures Patched(s, from, Silence(i))[from + i := 0.0] == Patched(s, from, Silence(i + 1))
  {
    SilenceAdd(i, 1);
    assert Silence(1) == [0.0];
  }

  method WriteZeros(frame: array<real>, from: nat, n: nat)
    requires from + n <= frame.Length
    modifies frame
    ensures frame[..] == Patched(old(frame[..]), from, Silence(n))
  {
    var i := 0;
    while i < n
      invariant 0 <= i <= n && frame[..] == Patched(old(frame[..]), from, Silence(i))
    {
      ZeroNext(old(frame[..]), from, i);
      frame[from + i] := 0.0;
      i := i + 1;
    }
  }

  /** What a frame says about itself. */
  datatype Flags = Flags(nonblank: bool, incomplete: bool, drops: bool)

  lemma PatchedPrefix(s: seq<real>, at: nat, data: seq<real>)
    requires at + |data| <= |s|
    ensures Patched(s, at, data)[..at + |data|] == s[..at] + data
  {
  }

  /** Everything read so far, and what is still to be read. */
  ghost predicate Progress(ch: nat, o: Outcome, len: nat, done: seq<real>, decoded: nat, m: nat, dropped: nat, k: nat,
                           r: Outcome)
  {
    len == |done| + Times(k, ch) && decoded == Times(m, ch) && o == Before(done, m, dropped, r)
  }

  /** Nothing is left to be read. */
  lemma FrameDone(ch: Channels, o: Outcome, len: nat, done: seq<real>, decoded: nat, m: nat, dropped: nat, k: nat,
                  r: Outcome, t: Track, rest: seq<Packet>)
    requires Progress(ch, o, len, done, decoded, m, dropped, k, r) && |done| == len
    requires AllProper(ch, rest) && Shaped(ch, t) && r == Read(ch, t, rest, k)
    ensures o.ok && done == o.out && t == o.track && rest == o.supply && decoded == Times(o.decoded, ch)
    ensures dropped == o.drops
  {
    TimesLess(0, k, ch);
  }

  /** One more round in front of what is still to be read. */
  lemma RoundDone(ch: nat, o: Outcome, len: nat, done: seq<real>, decoded: nat, m: nat, d: nat, k: nat, q: Outcome,
                  out: seq<real>, groups: nat, late: nat, used: nat,
                  done': seq<real>, decoded': nat, m': nat, d': nat, k': nat, r: Outcome)
    requires Progress(ch, o, len, done, decoded, m, d, k, q) && q == Before(out, groups, late, r)
    requires used + k' == k && |out| == Times(used, ch) && done' == done + out
    requires decoded' == decoded + Times(groups, ch) && m' == m + groups && d' == d + late
    ensures Progress(ch, o, len, done', decoded', m', d', k', r)
  {
    BeforeTwice(done, m, d, out, groups, late, r);
    TimesAdd(used, k', ch);
    TimesAdd(m, groups, ch);
  }

  /** Comparing numbers of groups by their samples. */
  lemma TimesLess(d: nat, n: nat, ch: Channels)
    ensures Times(d, ch) < Times(n, ch) <==> d < n
  {
    if d < n { TimesMono(d + 1, n, ch); } else { TimesMono(n, d, ch); }
  }

  class Depacketizer {
    const decoder: Decoder.PcmDecoder
    var hasPacket: bool
    var streamTs: Timestamp
    var firstPacket: bool
    /** The unbounded clock of which `streamTs` is the low 32 bits, and the packets accepted so far. */
    ghost var pos: int
    ghost var log: seq<Entry>

    /** How far the decoder is ahead of the stream. */
    ghost function Gap(): int
      reads this, decoder
    {
      (decoder.position - streamTs) % RANGE
    }

    /** The decoder is open exactly while a packet is held, and then is less than 2^31 ahead of the stream. */
    ghost predicate Valid()
      reads this, decoder
    {
      && decoder.Valid() && streamTs == pos % RANGE && (hasPacket <==> decoder.data.Some?)
      && (hasPacket ==> !firstPacket && Gap() < HALF && Gap() + decoder.available <= HALF)
    }

    ghost function View(): (t: Track)
      requires Valid()
      reads this, decoder
      ensures Shaped(decoder.chans, t)
    {
      if hasPacket then Track(!firstPacket, pos, pos + Gap(), decoder.available, decoder.Rest(), log)
      else Waiting(!firstPacket, pos, log)
    }

    /** The clock and the packets accepted so far fit together as well. */
    ghost predicate Good()
      reads this, decoder
    {
      Valid() && Inv(decoder.chans, View())
    }

    constructor (codec: LawfulCodec, chans: Channels)
      ensures Good() && View() == INITIAL && decoder.chans == chans && decoder.codec == codec && fresh(decoder)
    {
      decoder := new Decoder.PcmDecoder(codec, chans);
      hasPacket, streamTs, firstPacket := false, 0, true;
      pos, log := 0, [];
      new;
      InitialInv(chans);
    }

    method BeginPacket(r: Rtp, ghost p: Packet)
      requires decoder.Valid() && decoder.data.None? && p == Decode(decoder.codec, decoder.chans, r)
      modifies this`hasPacket, decoder
      ensures decoder.Valid() && decoder.data.Some? && hasPacket
      ensures decoder.position == p.ts && decoder.available == p.len && decoder.Rest() == p.samples
    {
      hasPacket := true;
      decoder.Begin(r.ts, r.payload);
    }

    method DropPacket()
      requires decoder.Valid() && decoder.data.Some?
      modifies this`hasPacket, decoder
      ensures decoder.Valid() && decoder.data.None? && !hasPacket
    {
      decoder.End();
      hasPacket := false;
    }

    /** Opens a packet, and closes it again if it is late. */
    method TakePacket(r: Rtp, ghost p: Packet) returns (keep: bool)
      requires Valid() && !hasPacket && p == Decode(decoder.codec, decoder.chans, r) && Proper(decoder.chans, p)
      modifies this`hasPacket, decoder
      ensures decoder.Valid() && hasPacket == keep && (keep <==> decoder.data.Some?)
      ensures keep ==> decoder.position == p.ts && decoder.available == p.len && decoder.Rest() == p.samples
      ensures keep <==> firstPacket || Judge(pos, p) != Drop
    {
      BeginPacket(r, p);
      keep := true;
      if !firstPacket {
        var pktEnd := (decoder.position + decoder.available) % RANGE;
        VerdictIs(decoder.chans, pos, p, streamTs, pktEnd);
        if !Lt(streamTs, pktEnd) {
          DropPacket();
          keep := false;
        }
      }
    }

    /** Takes packets until one is not late; late ones are dropped. The one kept is still in front of `rest`. */
    method FetchPacket(supply: seq<Rtp>, ghost s: seq<Packet>, ghost t: Track)
      returns (left: seq<Rtp>, dropped: nat, ghost rest: seq<Packet>)
      requires Valid() && !hasPacket && Decodes(decoder.codec, decoder.chans, supply, s) && AllProper(decoder.chans, s)
      requires t == Waiting(!firstPacket, pos, log)
      modifies this`hasPacket, decoder
      ensures decoder.Valid() && (hasPacket <==> decoder.data.Some?) && (hasPacket <==> rest != [])
      ensures Decodes(decoder.codec, decoder.chans, left, if hasPacket then rest[1..] else rest)
      ensures AllProper(decoder.chans, rest) && |left| <= |supply| && (hasPacket ==> |left| < |supply|)
      ensures hasPacket ==>
                && decoder.position == rest[0].ts && decoder.available == rest[0].len
                && decoder.Rest() == rest[0].samples
                && (t.started ==> Judge(pos, rest[0]) != Drop)
      ensures Settle(decoder.chans, t, s) == Before([], 0, dropped, Settle(decoder.chans, t, rest))
    {
      left, dropped, rest := supply, 0, s;
      BeforeNothing(Settle(decoder.chans, t, s));
      while left != []
        invariant Valid() && !hasPacket
        invariant Decodes(decoder.codec, decoder.chans, left, rest) && AllProper(decoder.chans, rest)
        invariant |left| <= |supply|
        invariant Settle(decoder.chans, t, s) == Before([], 0, dropped, Settle(decoder.chans, t, rest))
        decreases |left|
      {
        var keep := TakePacket(left[0], rest[0]);
        left := left[1..];
        if keep {
          return;
        }
        DropMore(decoder.chans, t, s, dropped, rest);
        dropped := dropped + 1;
        rest := rest[1..];
      }
    }

    /** The first packet sets the stream position. */
    method StartStream(ghost t: Track, ghost rest: seq<Packet>)
      requires decoder.Valid() && hasPacket && decoder.data.Some? && firstPacket
      requires AllProper(decoder.chans, rest) && rest != [] && t == Waiting(false, pos, log)
      requires decoder.position == rest[0].ts && decoder.available == rest[0].len && decoder.Rest() == rest[0].samples
      modifies this`streamTs, this`firstPacket, this`pos, this`log
      ensures Valid() && !firstPacket && View() == Started(t, rest[0]) && streamTs == decoder.position
    {
      streamTs := decoder.position;
      firstPacket := false;
      pos := rest[0].ts;
      log := log + [Entry(rest[0].ts, rest[0].ts, rest[0].len, rest[0].samples)];
    }

    /** The past part of a packet is skipped. */
    method TrimPacket(ghost t: Track, ghost p: Packet) returns (ok: bool)
      requires decoder.Valid() && hasPacket && decoder.data.Some? && !firstPacket && streamTs == pos % RANGE
      requires Proper(decoder.chans, p) && t == Waiting(true, pos, log) && Judge(pos, p) != Drop
      requires decoder.position == p.ts && decoder.available == p.len && decoder.Rest() == p.samples
      modifies this`log, decoder
      ensures ok <==> Judge(t.pos, p) == Accept
      ensures ok ==> Valid() && View() == Accepted(decoder.chans, t, p)
    {
      ghost var at := Place(pos, p.ts);
      DistanceIs(decoder.chans, pos, p, streamTs);
      log := log + [Entry(at, pos, p.len, p.samples)];
      if Lt(decoder.position, streamTs) {
        var diff := SizeT(Diff(streamTs, decoder.position));
        var m := decoder.Shift(diff);
        if m != diff {
          return false;
        }
        SkippedIs(pos, p.ts, diff, streamTs);
      }
      return true;
    }

    /** Makes sure that a packet is held, if there is one. */
    method UpdatePacket(supply: seq<Rtp>, ghost s: seq<Packet>)
      returns (left: seq<Rtp>, dropped: nat, ghost rest: seq<Packet>, ok: bool)
      requires Valid() && Decodes(decoder.codec, decoder.chans, supply, s) && AllProper(decoder.chans, s)
      modifies this, decoder
      ensures ok ==> Valid() && (hasPacket || left == []) && (!old(hasPacket) && hasPacket ==> |left| < |supply|)
      ensures |left| <= |supply| && Decodes(decoder.codec, decoder.chans, left, rest) && AllProper(decoder.chans, rest)
      ensures ok ==>
                Settle(decoder.chans, old(View()), s) == Before([], 0, dropped, Settle(decoder.chans, View(), rest))
      ensures !ok ==> !Settle(decoder.chans, old(View()), s).ok
    {
      if hasPacket {
        BeforeNothing(Settle(decoder.chans, View(), s));
        return supply, 0, s, true;
      }
      ghost var t := View();
      left, dropped, rest := FetchPacket(supply, s, t);
      if !hasPacket {
        return left, dropped, rest, true;
      }
      if firstPacket {
        StartStep(decoder.chans, t, rest);
        StartStream(t, rest);
        return left, dropped, rest[1..], true;
      }
      ok := TrimPacket(t, rest[0]);
      if ok {
        AcceptStep(decoder.chans, t, rest);
      } else {
        FaultStep(decoder.chans, t, rest);
      }
      rest := rest[1..];
    }

    /** Fills part of the frame with silence. */
    method ReadMissing(frame: array<real>, from: nat, to: nat, ghost n: nat)
      requires Valid() && to - from == Times(n, decoder.chans) && from <= to <= frame.Length
      requires hasPacket ==> n <= Gap()
      modifies this`streamTs, this`pos, frame
      ensures Valid() && frame[..] == Patched(old(frame[..]), from, Silence(Times(n, decoder.chans)))
      ensures View() == old(View()).(pos := old(View()).pos + n, at := old(View()).at + if hasPacket then 0 else n)
    {
      var num := Decoder.PerChannel(to - from, decoder.chans, n);
      WriteZeros(frame, from, Times(num, decoder.chans));
      MovedIs(pos, streamTs, n, decoder.position);
      streamTs := Later(streamTs, num);
      pos := pos + n;
    }

    /** The stream follows the decoder, which has read `m` groups. */
    method MoveOn(m: nat, ghost t: Track)
      requires decoder.Valid() && decoder.data.Some? && hasPacket && !firstPacket && streamTs == pos % RANGE
      requires decoder.available + m <= HALF && decoder.position == (streamTs + m) % RANGE && Shaped(decoder.chans, t)
      requires t == Track(true, pos, pos, decoder.available + m, t.rest, log) && Times(m, decoder.chans) <= |t.rest|
      requires decoder.Rest() == t.rest[Times(m, decoder.chans)..]
      modifies this`streamTs, this`pos
      ensures Valid() && Gap() == 0 && View() == Played(decoder.chans, t, m)
    {
      MovedOn(pos, streamTs, m);
      streamTs := Later(streamTs, m);
      pos := pos + m;
      SelfGap(decoder.position, streamTs);
    }

    method PlaySamples(frame: array<real>, from: nat, k: nat) returns (m: nat)
      requires Valid() && hasPacket && Gap() == 0 && from + Times(k, decoder.chans) <= frame.Length
      modifies this`streamTs, this`pos, decoder, frame
      ensures Valid() && Gap() == 0 && m == Min(k, old(decoder.available)) && m <= old(View()).left
      ensures View() == Played(decoder.chans, old(View()), m) && (m < k ==> decoder.available == 0)
      ensures Times(m, decoder.chans) <= |old(View()).rest| && from + Times(m, decoder.chans) <= frame.Length
      ensures frame[..] == Patched(old(frame[..]), from, old(View()).rest[..Times(m, decoder.chans)])
    {
      NoGap(decoder.position, streamTs);
      ghost var t := View();
      m := decoder.Read(frame, from, k);
      MoveOn(m, t);
    }

    /** Lets an exhausted packet go. */
    method ReleasePacket()
      requires Valid() && hasPacket && Gap() == 0 && decoder.available == 0
      modifies this`hasPacket, decoder
      ensures Valid() && !hasPacket && View() == old(View())
    {
      decoder.End();
      hasPacket := false;
    }

    /** Fills part of the frame from the packet, and lets the packet go if it is shorter. */
    method ReadPacketSamples(frame: array<real>, from: nat, to: nat, ghost k: nat) returns (m: nat)
      requires Valid() && hasPacket && Gap() == 0 && to - from == Times(k, decoder.chans) && from <= to <= frame.Length
      modifies this`streamTs, this`hasPacket, this`pos, decoder, frame
      ensures Valid() && m == Min(k, old(decoder.available)) && m <= old(View()).left
      ensures View() == Played(decoder.chans, old(View()), m) && (m < k ==> !hasPacket)
      ensures Times(m, decoder.chans) <= |old(View()).rest| && from + Times(m, decoder.chans) <= frame.Length
      ensures frame[..] == Patched(old(frame[..]), from, old(View()).rest[..Times(m, decoder.chans)])
    {
      var requested := Decoder.PerChannel(to - from, decoder.chans, k);
      m := PlaySamples(frame, from, requested);
      if m < requested {
        ReleasePacket();
      }
    }

    /** Fills the frame up to the packet's start. */
    method FillGap(frame: array<real>, from: nat, to: nat, ghost k: nat) returns (next: nat, ghost n: nat)
      requires Valid() && hasPacket && to - from == Times(k, decoder.chans) && from <= to <= frame.Length
      modifies this`streamTs, this`pos, frame
      ensures Valid() && n == Min(old(Gap()), k) && View() == old(View()).(pos := old(View()).pos + n)
      ensures next == from + Times(n, decoder.chans) && to - next == Times(k - n, decoder.chans)
      ensures frame[..] == Patched(old(frame[..]), from, Silence(Times(n, decoder.chans)))
    {
      ghost var g := Gap();
      n := Min(g, k);
      GapEnds(decoder.chans, from, to, g, k, n);
      next := from;
      AheadIs(decoder.position, streamTs);
      if streamTs != decoder.position {
        assert Lt(streamTs, decoder.position);
        var missing := Times(Diff(decoder.position, streamTs), decoder.chans);
        next := from + Min(missing, to - from);
        ReadMissing(frame, from, next, n);
      }
    }

    /** Fills the frame up to the packet and from it. */
    method FillFromPacket(frame: array<real>, from: nat, to: nat, ghost k: nat)
      returns (next: nat, m: nat, ghost n: nat, ghost used: nat, ghost out: seq<real>)
      requires Valid() && hasPacket && to - from == Times(k, decoder.chans) && from <= to <= frame.Length
      modifies this`streamTs, this`hasPacket, this`pos, decoder, frame
      ensures Valid() && used == n + m <= k && (used < k ==> !hasPacket)
      ensures Passed(decoder.chans, old(View()), n, m, View(), out)
      ensures |out| == Times(used, decoder.chans) && next == from + |out| <= frame.Length
      ensures frame[..] == Patched(old(frame[..]), from, out)
    {
      m := 0;
      ghost var t := View();
      next, n := FillGap(frame, from, to, k);
      ghost var v, gap, part := View(), Silence(Times(n, decoder.chans)), [];
      if next < to {
        m := ReadPacketSamples(frame, next, to, k - n);
        part := t.rest[..Times(m, decoder.chans)];
        PatchMore(old(frame[..]), from, gap, part);
        next := next + Times(m, decoder.chans);
      }
      out, used := gap + part, n + m;
      BothPassed(decoder.chans, t, n, m, v, View(), out, used);
    }

    /** Fills the frame from the packet held, as the timeline does. */
    method FillHeld(frame: array<real>, from: nat, to: nat, ghost k: nat, ghost s: seq<Packet>, ghost t: Track)
      returns (next: nat, m: nat, ghost used: nat, ghost out: seq<real>, ghost k': nat, ghost r: Outcome)
      requires Valid() && AllProper(decoder.chans, s) && hasPacket && t == View()
      requires to - from == Times(k, decoder.chans) && from <= to <= frame.Length
      modifies this`streamTs, this`hasPacket, this`pos, decoder, frame
      ensures Valid() && used + k' == k && (k' > 0 ==> !hasPacket)
      ensures |out| == Times(used, decoder.chans) && next == from + |out| <= frame.Length
      ensures frame[..] == Patched(old(frame[..]), from, out)
      ensures r == Read(decoder.chans, View(), s, k') && Read(decoder.chans, t, s, k) == Before(out, m, 0, r)
    {
      ghost var n;
      next, m, n, used, out := FillFromPacket(frame, from, to, k);
      k' := k - used;
      r := Read(decoder.chans, View(), s, k');
      PassedRead(decoder.chans, t, s, n, m, k', k, View(), out, r);
    }

    /** Fills the frame from the packet held, or with silence. */
    method FillRound(frame: array<real>, from: nat, to: nat, ghost k: nat, ghost s: seq<Packet>, ghost t: Track)
      returns (next: nat, m: nat, ghost used: nat, ghost out: seq<real>, ghost k': nat, ghost r: Outcome)
      requires Valid() && AllProper(decoder.chans, s) && (hasPacket || s == []) && t == View()
      requires to - from == Times(k, decoder.chans) && from <= to <= frame.Length
      modifies this`streamTs, this`hasPacket, this`pos, decoder, frame
      ensures Valid() && used + k' == k && (k' > 0 ==> old(hasPacket) && !hasPacket)
      ensures |out| == Times(used, decoder.chans) && next == from + |out| <= frame.Length
      ensures frame[..] == Patched(old(frame[..]), from, out)
      ensures r == Read(decoder.chans, View(), s, k') && Read(decoder.chans, t, s, k) == Before(out, m, 0, r)
    {
      if hasPacket {
        next, m, used, out, k', r := FillHeld(frame, from, to, k, s, t);
      } else {
        next, m, used, k', out := to, 0, k, 0, Silence(Times(k, decoder.chans));
        ReadMissing(frame, from, to, k);
        r := Read(decoder.chans, View(), s, k');
        MissRead(decoder.chans, t, k, View(), r);
      }
    }

    /** One round of the frame loop: follows the timeline for `used` ticks. */
    method ReadSamples(frame: array<real>, from: nat, to: nat, supply: seq<Rtp>, ghost k: nat, ghost s: seq<Packet>,
                       ghost t: Track)
      returns (next: nat, left: seq<Rtp>, m: nat, dropped: nat, ok: bool, ghost rest: seq<Packet>, ghost used: nat,
               ghost out: seq<real>, ghost k': nat, ghost r: Outcome)
      requires Valid() && Decodes(decoder.codec, decoder.chans, supply, s) && AllProper(decoder.chans, s) && t == View()
      requires k > 0 && to - from == Times(k, decoder.chans) && from <= to <= frame.Length
      modifies this, decoder, frame
      ensures |left| <= |supply| && Decodes(decoder.codec, decoder.chans, left, rest) && AllProper(decoder.chans, rest)
      ensures !ok ==> !Read(decoder.chans, t, s, k).ok
      ensures ok ==> Valid() && used + k' == k && (k' > 0 ==> !hasPacket && (old(hasPacket) || |left| < |supply|))
      ensures ok ==> |out| == Times(used, decoder.chans) && next == from + |out| <= frame.Length
      ensures ok ==> frame[..] == Patched(old(frame[..]), from, out)
      ensures ok ==> r == Read(decoder.chans, View(), rest, k')
      ensures ok ==> Read(decoder.chans, t, s, k) == Before(out, m, dropped, r)
    {
      next, m, used, out, k', r := from, 0, 0, [], k, Outcome(t, s, [], 0, 0, true);
      left, dropped, rest, ok := UpdatePacket(supply, s);
      if !ok {
        FaultyRead(decoder.chans, t, s, k);
        return;
      }
      ghost var t' := View();
      next, m, used, out, k', r := FillRound(frame, from, to, k, rest, t');
      FetchedRead(decoder.chans, t, s, dropped, t', rest, k, out, m, r);
    }

    method Round(frame: array<real>, ptr: nat, supply: seq<Rtp>, decoded: nat, dropped: nat, ghost o: Outcome,
                 ghost done: seq<real>, ghost k: nat, ghost m: nat, ghost s: seq<Packet>, ghost q: Outcome)
      returns (next: nat, left: seq<Rtp>, decoded': nat, dropped': nat, ok: bool, ghost rest: seq<Packet>,
               ghost done': seq<real>, ghost k': nat, ghost m': nat, ghost r: Outcome)
      requires Valid() && Decodes(decoder.codec, decoder.chans, supply, s) && AllProper(decoder.chans, s)
      requires ptr == |done| < frame.Length && frame[..ptr] == done && q == Read(decoder.chans, View(), s, k)
      requires Progress(decoder.chans, o, frame.Length, done, decoded, m, dropped, k, q)
      modifies this, decoder, frame
      ensures !ok ==> !o.ok
      ensures ok ==> Valid() && Decodes(decoder.codec, decoder.chans, left, rest) && AllProper(decoder.chans, rest)
      ensures ok ==> next == |done'| <= frame.Length && frame[..next] == done'
      ensures ok ==> r == Read(decoder.chans, View(), rest, k')
      ensures ok ==> Progress(decoder.chans, o, frame.Length, done', decoded', m', dropped', k', r)
      ensures ok ==> k' <= k && |left| <= |supply| && (k' == k ==> !hasPacket && (old(hasPacket) || |left| < |supply|))
    {
      ghost var used, out;
      var groups, late;
      ghost var before := frame[..];
      next, left, groups, late, ok, rest, used, out, k', r :=
        ReadSamples(frame, ptr, frame.Length, supply, k, s, View());
      decoded', dropped', m', done' := decoded + Times(groups, decoder.chans), dropped + late, m + groups, done + out;
      if ok {
        PatchedPrefix(before, ptr, out);
        RoundDone(decoder.chans, o, frame.Length, done, decoded, m, dropped, k, q, out, groups, late, used,
                  done', decoded', m', dropped', k', r);
      }
    }

    /** Fills a frame of `n` groups: the listener hears what the timeline says. */
    method ReadFrame(frame: array<real>, supply: seq<Rtp>, ghost n: nat, ghost s: seq<Packet>, ghost o: Outcome)
      returns (left: seq<Rtp>, decoded: nat, dropped: nat, ok: bool, ghost rest: seq<Packet>)
      requires Valid() && Decodes(decoder.codec, decoder.chans, supply, s) && AllProper(decoder.chans, s)
      requires frame.Length == Times(n, decoder.chans) && o == Read(decoder.chans, View(), s, n)
      modifies this, decoder, frame
      ensures ok == o.ok && (ok ==> Valid() && Decodes(decoder.codec, decoder.chans, left, rest))
      ensures ok ==> frame[..] == o.out && View() == o.track && rest == o.supply
      ensures ok ==> decoded == Times(o.decoded, decoder.chans) && dropped == o.drops
    {
      left, decoded, dropped, rest, ok := supply, 0, 0, s, true;
      var ptr: nat := 0;
      ghost var k: nat, m: nat, done: seq<real>, r := n, 0, [], o;
      BeforeNothing(o);
      while ptr < frame.Length
        invariant Valid() && Decodes(decoder.codec, decoder.chans, left, rest) && AllProper(decoder.chans, rest)
        invariant ptr == |done| <= frame.Length && frame[..ptr] == done && r == Read(decoder.chans, View(), rest, k)
        invariant Progress(decoder.chans, o, frame.Length, done, decoded, m, dropped, k, r)
        decreases k, |left|, if hasPacket then 1 else 0
      {
        ptr, left, decoded, dropped, ok, rest, done, k, m, r :=
          Round(frame, ptr, left, decoded, dropped, o, done, k, m, rest, r);
        if !ok {
          return;
        }
      }
      assert frame[..ptr] == frame[..];
      FrameDone(decoder.chans, o, frame.Length, done, decoded, m, dropped, k, r, View(), rest);
      ok := true;
    }

    /**
     * Fills a frame of `n` groups. Each group is that of the accepted packet that covers its clock position, or
     * silence; the flags say whether any and whether all positions were covered, and whether packets were dropped.
     * The read fails exactly if it judges an empty packet that is half the timestamp range away.
     */
    method ReadWithFlags(frame: array<real>, supply: seq<Rtp>, ghost n: nat, ghost s: seq<Packet>)
      returns (left: seq<Rtp>, flags: Flags, ok: bool, ghost rest: seq<Packet>)
      requires Good() && Decodes(decoder.codec, decoder.chans, supply, s) && AllProper(decoder.chans, s)
      requires frame.Length == Times(n, decoder.chans)
      modifies this, decoder, frame
      ensures ok == NoneFaulty(ReadJudgements(decoder.chans, old(View()), s, n)) && (NoneEmpty(s) ==> ok)
      ensures ok ==> Good() && Decodes(decoder.codec, decoder.chans, left, rest)
      ensures ok ==> Follows(decoder.chans, old(View()), s, n, View(), rest)
      ensures ok ==> flags.drops == SomeDropped(ReadJudgements(decoder.chans, old(View()), s, n))
      ensures ok ==> old(log) <= log && AllFrom(log, |old(log)|, s)
      ensures ok ==> Logged(decoder.chans, log) && frame[..] == Voices(decoder.chans, log, Origin(old(View()), s), n)
      ensures ok ==> flags.nonblank == (CoveredCount(log, Origin(old(View()), s), n) > 0)
      ensures ok ==> flags.incomplete == (CoveredCount(log, Origin(old(View()), s), n) < n)
    {
      var decoded, dropped;
      ghost var ch, t, o := decoder.chans, View(), Read(decoder.chans, View(), s, n);
      ReadFacts(ch, t, s, n, o);
      left, decoded, dropped, ok, rest := ReadFrame(frame, supply, n, s, o);
      TimesLess(0, o.decoded, ch);
      TimesLess(o.decoded, n, ch);
      flags := Flags(decoded != 0, decoded < frame.Length, dropped != 0);
    }
  }

  /** The packets are taken, and the clock and the packet held left, as the timeline says. */
  ghost predicate Follows(ch: nat, t: Track, s: seq<Packet>, n: nat, u: Track, rest: seq<Packet>)
    requires AllProper(ch, s) && Shaped(ch, t)
  {
    var o := Read(ch, t, s, n);
    u == o.track && rest == o.supply
  }

  /** What is known of every read. */
  lemma ReadFacts(ch: nat, t: Track, s: seq<Packet>, n: nat, o: Outcome)
    requires AllProper(ch, s) && Inv(ch, t) && o == Read(ch, t, s, n)
    ensures o.ok == NoneFaulty(ReadJudgements(ch, t, s, n)) && (NoneEmpty(s) ==> o.ok)
    ensures o.drops > 0 <==> SomeDropped(ReadJudgements(ch, t, s, n))
    ensures o.ok ==> Inv(ch, o.track)
    ensures t.log <= o.track.log && AllFrom(o.track.log, |t.log|, s) && Logged(ch, o.track.log)
    ensures o.ok ==> o.out == Voices(ch, o.track.log, Origin(t, s), n)
    ensures o.ok ==> o.decoded == CoveredCount(o.track.log, Origin(t, s), n)
  {
    ReadFaultsIff(ch, t, s, n);
    ReadDropsIff(ch, t, s, n);
    if NoneEmpty(s) { ReadNeverFaults(ch, t, s, n); }
    ReadKeepsInv(ch, t, s, n);
    ReadIsHeard(ch, t, s, n);
    ReadIsFromSupply(ch, t, s, n, o);
  }
}
