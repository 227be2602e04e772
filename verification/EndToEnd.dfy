/** From the packetizer through a lossy network to the depacketizer: what the listener hears of the sender's stream. */
module EndToEnd {
  import opened Blocks
  import opened Chopping
  import opened Codecs
  import opened Octets
  import opened StreamUnits
  import opened Timeline
  import opened TimelineRuns

  /** Groups in packet `i`. */
  function Len(ch: Channels, done: seq<seq<real>>, i: nat): nat
    requires i < |done|
  {
    Wholes(|done[i]|, ch)
  }

  /** The packets delivered, as the listener decodes them. */
  function Supply(c: LawfulCodec, ch: Channels, ts0: nat, done: seq<seq<real>>, kept: seq<bool>, i: nat): seq<Packet>
    requires i <= |done| == |kept|
    decreases |done| - i
  {
    if i == |done| then []
    else
      (if kept[i] then [Packet((ts0 + Length(ch, done[..i])) % RANGE, Len(ch, done, i), Heard(c, done[i]))] else [])
      + Supply(c, ch, ts0, done, kept, i + 1)
  }

  /** The sender's stream through the codec, with lost packets replaced by as much silence. */
  function Masked(c: LawfulCodec, done: seq<seq<real>>, kept: seq<bool>, i: nat): seq<real>
    requires i <= |done| == |kept|
    decreases |done| - i
  {
    if i == |done| then []
    else (if kept[i] then Heard(c, done[i]) else Silence(|done[i]|)) + Masked(c, done, kept, i + 1)
  }

  /** Packets are whole groups, none empty, none of 2^31 groups or more. */
  ghost predicate Whole(ch: Channels, done: seq<seq<real>>) {
    forall i :: 0 <= i < |done| ==> |done[i]| == Times(Len(ch, done, i), ch) && 0 < Len(ch, done, i) < HALF
  }

  /** Each packet delivered ends at most 2^31 groups after the end of the one before; `g` groups are already lost. */
  predicate InReach(ch: Channels, done: seq<seq<real>>, kept: seq<bool>, i: nat, g: nat)
    requires i <= |done| == |kept|
    decreases |done| - i
  {
    if i == |done| then true
    else if kept[i] then g + Len(ch, done, i) <= HALF && InReach(ch, done, kept, i + 1, 0)
    else InReach(ch, done, kept, i + 1, g + Len(ch, done, i))
  }

  /** Groups from packet `i` on. */
  function Remaining(ch: Channels, done: seq<seq<real>>, i: nat): nat
    requires i <= |done|
    decreases |done| - i
  {
    if i == |done| then 0 else Len(ch, done, i) + Remaining(ch, done, i + 1)
  }

  lemma LengthNext(ch: Channels, done: seq<seq<real>>, i: nat)
    requires i < |done|
    ensures Length(ch, done[..i + 1]) == Length(ch, done[..i]) + Len(ch, done, i)
  {
    assert done[..i + 1][..i] == done[..i];
  }

  lemma {:induction false} SupplyProper(c: LawfulCodec, ch: Channels, ts0: nat, done: seq<seq<real>>, kept: seq<bool>,
                                        i: nat)
    requires i <= |done| == |kept| && Whole(ch, done)
    ensures AllProper(ch, Supply(c, ch, ts0, done, kept, i))
    decreases |done| - i
  {
    if i < |done| {
      SupplyProper(c, ch, ts0, done, kept, i + 1);
    }
  }

  // ----- the listener

  /** A packet that belongs `g` ticks ahead is accepted and placed there exactly if it ends at most 2^31 ticks ahead. */
  lemma AheadIff(pos: int, p: Packet, g: nat)
    requires 0 < p.len && p.ts < RANGE && (p.ts - (pos + g)) % RANGE == 0
    ensures Judge(pos, p) == Accept && Place(pos, p.ts) == pos + g <==> g + p.len <= HALF
  {
    if g + p.len <= HALF {
      var k := (p.ts - (pos + g)) / RANGE;
      assert p.ts - pos + HALF == k * RANGE + (g + HALF);
      ModIs(p.ts - pos + HALF, RANGE, k, g + HALF);
    }
  }

  /** A packet that starts `g` ticks ahead is accepted as a whole. */
  lemma AheadAccepted(ch: nat, t: Track, p: Packet, g: nat)
    requires Proper(ch, p) && 0 < p.len && g + p.len <= HALF && (p.ts - (t.pos + g)) % RANGE == 0 && Idle(t)
    ensures Judge(t.pos, p) == Accept
    ensures var u := Accepted(ch, t, p);
            && u.at == t.pos + g && u.left == p.len && u.rest == p.samples
            && u.pos == t.pos && u.started == t.started
            && u.log == t.log + [Entry(t.pos + g, t.pos, p.len, p.samples)]
  {
    AheadIff(t.pos, p, g);
    assert p.samples[0..] == p.samples;
  }

  /** What a listener should get from here on. */
  ghost predicate Gets(o: Outcome, out: seq<real>) {
    o.ok && o.drops == 0 && o.out == out && o.supply == [] && Idle(o.track)
  }

  lemma GetsBefore(o: Outcome, a: seq<real>, m: nat, r: Outcome, b: seq<real>, c: seq<real>)
    requires o == Before(a, m, 0, r) && Gets(r, b) && c == a + b
    ensures Gets(o, c)
  {
  }

  ghost predicate Hears(ch: nat, t: Track, s: seq<Packet>, n: nat, out: seq<real>) {
    AllProper(ch, s) && Shaped(ch, t) && Gets(Read(ch, t, s, n), out)
  }

  /** The listener takes the next packet delivered, waits `g` ticks for it and plays it. */
  lemma PlayNext(ch: Channels, t: Track, p: Packet, rest: seq<Packet>, g: nat, more: nat, s: seq<Packet>, n: nat)
    returns (u: Track)
    requires s == [p] + rest && n == g + p.len + more
    requires t.started && Idle(t) && Shaped(ch, t) && AllProper(ch, s) && AllProper(ch, rest)
    requires 0 < p.len && g + p.len <= HALF && (p.ts - (t.pos + g)) % RANGE == 0
    ensures u.started && Idle(u) && Shaped(ch, u) && u.pos == t.pos + g + p.len
    ensures u.log == t.log + [Entry(t.pos + g, t.pos, p.len, p.samples)]
    ensures Read(ch, t, s, n) == Before(Silence(Times(g, ch)) + p.samples, p.len, 0, Read(ch, u, rest, more))
  {
    assert s[0] == p;
    AheadAccepted(ch, t, p, g);
    var v := Accepted(ch, t, p);
    TakeIt(ch, t, p, rest, v);
    u := PlayWhole(ch, v, rest, g, more);
    FetchedRead(ch, t, s, 0, v, rest, n, Silence(Times(g, ch)) + p.samples, p.len, Read(ch, u, rest, more));
  }

  /** The packet at hand is waited for and played to its end. */
  lemma PlayWhole(ch: Channels, v: Track, s: seq<Packet>, g: nat, more: nat) returns (u: Track)
    requires Shaped(ch, v) && AllProper(ch, s) && v.at == v.pos + g && v.left > 0
    ensures u.started == v.started && Idle(u) && Shaped(ch, u) && u.pos == v.pos + g + v.left && u.log == v.log
    ensures Read(ch, v, s, g + v.left + more) == Before(Silence(Times(g, ch)) + v.rest, v.left, 0, Read(ch, u, s, more))
  {
    u := Played(ch, v.(pos := v.pos + g), v.left);
    assert v.rest[..Times(v.left, ch)] == v.rest;
    PassedRead(ch, v, s, g, v.left, more, g + v.left + more, u, Silence(Times(g, ch)) + v.rest, Read(ch, u, s, more));
  }

  lemma TakeIt(ch: nat, t: Track, p: Packet, s: seq<Packet>, v: Track)
    requires t.started && Idle(t) && AllProper(ch, [p] + s) && AllProper(ch, s) && Proper(ch, p)
    requires Judge(t.pos, p) == Accept
    requires v == Accepted(ch, t, p) && !Idle(v)
    ensures Settle(ch, t, [p] + s) == Before([], 0, 0, Settle(ch, v, s))
  {
    assert ([p] + s)[0] == p && ([p] + s)[1..] == s;
  }

  /** In front of packet `i`, with `g` groups lost since the last packet played. */
  ghost predicate Listening(ch: Channels, ts0: nat, done: seq<seq<real>>, i: nat, t: Track, g: nat)
    requires i <= |done|
  {
    t.started && Idle(t) && Shaped(ch, t) && (ts0 + Length(ch, done[..i]) - (t.pos + g)) % RANGE == 0
  }

  lemma {:induction false} Listen(c: LawfulCodec, ch: Channels, ts0: nat, done: seq<seq<real>>, kept: seq<bool>, i: nat,
                                  t: Track, g: nat, s: seq<Packet>, n: nat, out: seq<real>)
    requires i <= |done| == |kept| && Whole(ch, done) && Listening(ch, ts0, done, i, t, g)
    requires InReach(ch, done, kept, i, g)
    requires s == Supply(c, ch, ts0, done, kept, i) && n == g + Remaining(ch, done, i)
    requires out == Silence(Times(g, ch)) + Masked(c, done, kept, i)
    ensures Hears(ch, t, s, n, out)
    decreases |done| - i, 1
  {
    if i == |done| {
      ListenNone(ch, t, g, out);
    } else if kept[i] {
      ListenKept(c, ch, ts0, done, kept, i, t, g, s, n, out);
    } else {
      LostListening(ch, ts0, done, i, t, g);
      LostSupply(c, ch, ts0, done, kept, i);
      LostMasked(c, ch, done, kept, i, g, out);
      Listen(c, ch, ts0, done, kept, i + 1, t, g + Len(ch, done, i), s, n, out);
    }
  }

  /** In front of a packet that was lost, the listener is in front of the next one. */
  lemma LostListening(ch: Channels, ts0: nat, done: seq<seq<real>>, i: nat, t: Track, g: nat)
    requires i < |done| && Listening(ch, ts0, done, i, t, g)
    ensures Listening(ch, ts0, done, i + 1, t, g + Len(ch, done, i))
  {
    LengthNext(ch, done, i);
  }

  lemma LostSupply(c: LawfulCodec, ch: Channels, ts0: nat, done: seq<seq<real>>, kept: seq<bool>, i: nat)
    requires i < |done| == |kept| && !kept[i]
    ensures Supply(c, ch, ts0, done, kept, i) == Supply(c, ch, ts0, done, kept, i + 1)
  {
  }

  lemma LostMasked(c: LawfulCodec, ch: Channels, done: seq<seq<real>>, kept: seq<bool>, i: nat, g: nat, out: seq<real>)
    requires i < |done| == |kept| && !kept[i] && Whole(ch, done)
    requires out == Silence(Times(g, ch)) + Masked(c, done, kept, i)
    ensures out == Silence(Times(g + Len(ch, done, i), ch)) + Masked(c, done, kept, i + 1)
  {
    LostMore(ch, g, Len(ch, done, i), Masked(c, done, kept, i + 1), out);
  }

  lemma {:induction false} ListenKept(c: LawfulCodec, ch: Channels, ts0: nat, done: seq<seq<real>>, kept: seq<bool>,
                                      i: nat, t: Track, g: nat, s: seq<Packet>, n: nat, out: seq<real>)
    requires i < |done| == |kept| && Whole(ch, done) && Listening(ch, ts0, done, i, t, g)
    requires InReach(ch, done, kept, i, g) && kept[i]
    requires s == Supply(c, ch, ts0, done, kept, i) && n == g + Remaining(ch, done, i)
    requires out == Silence(Times(g, ch)) + Masked(c, done, kept, i)
    ensures Hears(ch, t, s, n, out)
    decreases |done| - i, 0
  {
    var more, rest := Remaining(ch, done, i + 1), Masked(c, done, kept, i + 1);
    var p, s' := NextPacket(c, ch, ts0, done, kept, i, t, g);
    var u := PlayNext(ch, t, p, s', g, more, s, n);
    NextListening(ch, ts0, done, i, t, g, u);
    NoSilence(ch, rest);
    Listen(c, ch, ts0, done, kept, i + 1, u, 0, s', more, rest);
    HearsNext(ch, t, p, s', g, more, u, s, n, rest, out);
  }

  lemma NoSilence(ch: nat, rest: seq<real>)
    ensures Silence(Times(0, ch)) + rest == rest
  {
  }

  /** The next packet that the listener is supplied with, when it was delivered. */
  lemma NextPacket(c: LawfulCodec, ch: Channels, ts0: nat, done: seq<seq<real>>, kept: seq<bool>, i: nat, t: Track,
                   g: nat)
    returns (p: Packet, rest: seq<Packet>)
    requires i < |done| == |kept| && kept[i] && Whole(ch, done) && Listening(ch, ts0, done, i, t, g)
    ensures rest == Supply(c, ch, ts0, done, kept, i + 1) && Supply(c, ch, ts0, done, kept, i) == [p] + rest
    ensures AllProper(ch, rest) && AllProper(ch, [p] + rest) && (p.ts - (t.pos + g)) % RANGE == 0
    ensures p.len == Len(ch, done, i) > 0 && p.samples == Heard(c, done[i])
  {
    p, rest := FirstPacket(c, ch, ts0, done, kept, i);
    SameResidue(ts0 + Length(ch, done[..i]), t.pos + g);
  }

  lemma HearsNext(ch: Channels, t: Track, p: Packet, s': seq<Packet>, g: nat, more: nat, u: Track, s: seq<Packet>,
                  n: nat, rest: seq<real>, out: seq<real>)
    requires s == [p] + s' && n == g + p.len + more && out == Silence(Times(g, ch)) + (p.samples + rest)
    requires Hears(ch, u, s', more, rest) && AllProper(ch, s) && Shaped(ch, t)
    requires Read(ch, t, s, n) == Before(Silence(Times(g, ch)) + p.samples, p.len, 0, Read(ch, u, s', more))
    ensures Hears(ch, t, s, n, out)
  {
    Regroup(Silence(Times(g, ch)), p.samples, rest);
    GetsBefore(Read(ch, t, s, n), Silence(Times(g, ch)) + p.samples, p.len, Read(ch, u, s', more), rest, out);
  }

  lemma NextListening(ch: Channels, ts0: nat, done: seq<seq<real>>, i: nat, t: Track, g: nat, u: Track)
    requires i < |done| && Listening(ch, ts0, done, i, t, g) && u.started && Idle(u) && Shaped(ch, u)
    requires u.pos == t.pos + g + Len(ch, done, i)
    ensures Listening(ch, ts0, done, i + 1, u, 0)
  {
    LengthNext(ch, done, i);
  }

  lemma LostMore(ch: Channels, g: nat, len: nat, rest: seq<real>, out: seq<real>)
    requires out == Silence(Times(g, ch)) + (Silence(Times(len, ch)) + rest)
    ensures out == Silence(Times(g + len, ch)) + rest
  {
    TimesAdd(g, len, ch);
    SilenceAdd(Times(g, ch), Times(len, ch));
  }

  lemma ListenNone(ch: Channels, t: Track, g: nat, out: seq<real>)
    requires Shaped(ch, t) && Idle(t) && out == Silence(Times(g, ch)) + []
    ensures Hears(ch, t, [], g, out)
  {
    MissRun(ch, t, g);
  }

  lemma SameResidue(x: int, y: int)
    requires (x - y) % RANGE == 0
    ensures (x % RANGE - y) % RANGE == 0
  {
    var q, k := x / RANGE, (x - y) / RANGE;
    assert x == q * RANGE + x % RANGE && x - y == k * RANGE;
    ModIs(x % RANGE - y, RANGE, k - q, 0);
  }

  /** Packets lost before the first one delivered are not missed. */
  lemma {:induction false} SupplyFrom(c: LawfulCodec, ch: Channels, ts0: nat, done: seq<seq<real>>, kept: seq<bool>,
                                      j: nat, i: nat)
    requires j <= i <= |done| == |kept| && forall k :: j <= k < i ==> !kept[k]
    ensures Supply(c, ch, ts0, done, kept, j) == Supply(c, ch, ts0, done, kept, i)
    decreases i - j
  {
    if j < i {
      SupplyFrom(c, ch, ts0, done, kept, j + 1, i);
    }
  }

  /** Packet `i` is the first one delivered, or none is and `i` is their number. */
  predicate First(kept: seq<bool>, i: nat) {
    i <= |kept| && (forall j :: 0 <= j < i ==> !kept[j]) && (i < |kept| ==> kept[i])
  }

  /**
   * If every packet is in reach, a listener hears the sender's stream from the first packet delivered on, with silence
   * for what was lost; nothing is dropped.
   */
  lemma ListenerHears(c: LawfulCodec, ch: Channels, ts0: nat, done: seq<seq<real>>, kept: seq<bool>, i: nat)
    requires |done| == |kept| && First(kept, i) && Whole(ch, done)
    ensures InReach(ch, done, kept, i, 0) ==>
              Hears(ch, INITIAL, Supply(c, ch, ts0, done, kept, 0), Remaining(ch, done, i), Masked(c, done, kept, i))
  {
    SupplyFrom(c, ch, ts0, done, kept, 0, i);
    if i == |done| {
      ListenNone(ch, INITIAL, 0, []);
    } else if InReach(ch, done, kept, i, 0) {
      ListenFirst(c, ch, ts0, done, kept, i, Supply(c, ch, ts0, done, kept, i), Masked(c, done, kept, i));
    }
  }

  lemma ListenFirst(c: LawfulCodec, ch: Channels, ts0: nat, done: seq<seq<real>>, kept: seq<bool>, i: nat,
                    s: seq<Packet>, out: seq<real>)
    requires i < |done| == |kept| && kept[i] && Whole(ch, done) && InReach(ch, done, kept, i, 0)
    requires s == Supply(c, ch, ts0, done, kept, i) && out == Masked(c, done, kept, i)
    ensures Hears(ch, INITIAL, s, Remaining(ch, done, i), out)
  {
    var more, rest := Remaining(ch, done, i + 1), Masked(c, done, kept, i + 1);
    var p, s' := FirstPacket(c, ch, ts0, done, kept, i);
    var u := StartWith(ch, p, s', more, s);
    FirstListening(ch, ts0, done, i, u);
    NoSilence(ch, rest);
    Listen(c, ch, ts0, done, kept, i + 1, u, 0, s', more, rest);
    GetsBefore(Read(ch, INITIAL, s, p.len + more), p.samples, p.len, Read(ch, u, s', more), rest, out);
  }

  lemma FirstPacket(c: LawfulCodec, ch: Channels, ts0: nat, done: seq<seq<real>>, kept: seq<bool>, i: nat)
    returns (p: Packet, rest: seq<Packet>)
    requires i < |done| == |kept| && kept[i] && Whole(ch, done)
    ensures rest == Supply(c, ch, ts0, done, kept, i + 1) && Supply(c, ch, ts0, done, kept, i) == [p] + rest
    ensures AllProper(ch, rest) && AllProper(ch, [p] + rest)
    ensures p == Packet((ts0 + Length(ch, done[..i])) % RANGE, Len(ch, done, i), Heard(c, done[i])) && p.len > 0
  {
    p := Packet((ts0 + Length(ch, done[..i])) % RANGE, Len(ch, done, i), Heard(c, done[i]));
    rest := Supply(c, ch, ts0, done, kept, i + 1);
    SupplyProper(c, ch, ts0, done, kept, i);
    SupplyProper(c, ch, ts0, done, kept, i + 1);
  }

  lemma FirstListening(ch: Channels, ts0: nat, done: seq<seq<real>>, i: nat, u: Track)
    requires i < |done| && u.started && Idle(u) && Shaped(ch, u)
    requires u.pos == (ts0 + Length(ch, done[..i])) % RANGE + Len(ch, done, i)
    ensures Listening(ch, ts0, done, i + 1, u, 0)
  {
    LengthNext(ch, done, i);
    var x := ts0 + Length(ch, done[..i]);
    assert x - x % RANGE == x / RANGE * RANGE;
    ModIs(ts0 + Length(ch, done[..i + 1]) - u.pos, RANGE, x / RANGE, 0);
  }

  lemma StartWith(ch: Channels, p: Packet, rest: seq<Packet>, more: nat, s: seq<Packet>) returns (u: Track)
    requires s == [p] + rest && AllProper(ch, s) && AllProper(ch, rest) && 0 < p.len
    ensures u.started && Idle(u) && Shaped(ch, u) && u.pos == p.ts + p.len
    ensures u.log == [Entry(p.ts, p.ts, p.len, p.samples)]
    ensures Read(ch, INITIAL, s, p.len + more) == Before(p.samples, p.len, 0, Read(ch, u, rest, more))
  {
    assert s[0] == p && s[1..] == rest && Proper(ch, s[0]);
    var v := Started(INITIAL, p);
    assert Settle(ch, INITIAL, s) == Before([], 0, 0, Settle(ch, v, rest));
    u := PlayWhole(ch, v, rest, 0, more);
    assert Silence(Times(0, ch)) + p.samples == p.samples;
    FetchedRead(ch, INITIAL, s, 0, v, rest, p.len + more, p.samples, p.len, Read(ch, u, rest, more));
  }

  /** If nothing is lost, the listener hears the whole stream through the codec. */
  lemma {:induction false} NothingLost(c: LawfulCodec, done: seq<seq<real>>, kept: seq<bool>, i: nat)
    requires i <= |done| == |kept| && forall j :: 0 <= j < |kept| ==> kept[j]
    ensures Heard(c, Concat(done[..i])) + Masked(c, done, kept, i) == Heard(c, Concat(done))
    decreases |done| - i
  {
    if i == |done| {
      assert done[..i] == done;
    } else {
      NothingLost(c, done, kept, i + 1);
      assert done[..i + 1] == done[..i] + [done[i]];
      ConcatAdd(done[..i], done[i]);
      HeardConcat(c, Concat(done[..i]), done[i]);
      Regroup(Heard(c, Concat(done[..i])), Heard(c, done[i]), Masked(c, done, kept, i + 1));
    }
  }

  lemma HeardConcat(c: LawfulCodec, xs: seq<real>, ys: seq<real>)
    ensures Heard(c, xs + ys) == Heard(c, xs) + Heard(c, ys)
  {
  }

  lemma PiecesAreWhole(ch: Channels, per: nat, c: Chopped)
    requires Pieces(ch, per, c) && per < HALF
    ensures Whole(ch, c.done)
  {
    forall i | 0 <= i < |c.done|
      ensures |c.done[i]| == Times(Len(ch, c.done, i), ch) && 0 < Len(ch, c.done, i) < HALF
    {
      assert Piece(ch, per, c.done[i]);
    }
  }

  lemma {:induction false} AllInReach(ch: Channels, done: seq<seq<real>>, kept: seq<bool>, i: nat)
    requires i <= |done| == |kept| && Whole(ch, done) && forall j :: 0 <= j < |kept| ==> kept[j]
    ensures InReach(ch, done, kept, i, 0)
    decreases |done| - i
  {
    if i < |done| {
      AllInReach(ch, done, kept, i + 1);
    }
  }

  lemma {:induction false} RemainingLength(ch: Channels, done: seq<seq<real>>, i: nat)
    requires i <= |done| && Whole(ch, done)
    ensures |Concat(done)| == |Concat(done[..i])| + Times(Remaining(ch, done, i), ch)
    decreases |done| - i
  {
    if i == |done| {
      assert done[..i] == done;
    } else {
      RemainingLength(ch, done, i + 1);
      assert done[..i + 1] == done[..i] + [done[i]];
      ConcatAdd(done[..i], done[i]);
      TimesAdd(Len(ch, done, i), Remaining(ch, done, i + 1), ch);
    }
  }

  /** The packets for a whole stream, the last one flushed. */
  function Packets(ch: Channels, per: nat, xs: seq<real>, n: nat): seq<seq<real>>
    requires |xs| == Times(n, ch)
  {
    Flush(Feed(ch, Times(per, ch), Chopped([], []), xs, n)).done
  }

  lemma PacketsFacts(ch: Channels, per: nat, xs: seq<real>, n: nat)
    requires |xs| == Times(n, ch) && 0 < per < HALF
    ensures var done := Packets(ch, per, xs, n); Whole(ch, done) && Concat(done) == xs && Remaining(ch, done, 0) == n
  {
    var none := Chopped([], []);
    var fed := Feed(ch, Times(per, ch), none, xs, n);
    assert Wholes(0, ch) == 0 && Times(0, ch) == 0 && Pieces(ch, per, none);
    FeedPieces(ch, per, none, xs, n);
    FlushPieces(ch, per, fed);
    PiecesAreWhole(ch, per, Flush(fed));
    FeedJoined(ch, Times(per, ch), none, xs, n);
    FlushJoined(fed);
    var done := Flush(fed).done;
    assert Joined(none) == [] && [] + xs == xs && Concat(done) + [] == Concat(done);
    assert Joined(Flush(fed)) == Concat(done);
    RemainingLength(ch, done, 0);
    assert done[..0] == [];
    SameTimes(Remaining(ch, done, 0), n, ch);
  }

  lemma SameTimes(a: nat, b: nat, ch: Channels)
    requires Times(a, ch) == Times(b, ch)
    ensures a == b
  {
    if a < b { NotYet(a, b, ch); } else { NotYet(b, a, ch); }
  }

  /** Without losses, a listener hears any stream of `n` groups once through the codec, for any packet length. */
  lemma LosslessStream(c: LawfulCodec, ch: Channels, per: nat, ts0: nat, xs: seq<real>, n: nat, kept: seq<bool>)
    requires |xs| == Times(n, ch) && 0 < per < HALF
    requires |kept| == |Packets(ch, per, xs, n)| && forall j :: 0 <= j < |kept| ==> kept[j]
    ensures Hears(ch, INITIAL, Supply(c, ch, ts0, Packets(ch, per, xs, n), kept, 0), n, Heard(c, xs))
  {
    var done := Packets(ch, per, xs, n);
    PacketsFacts(ch, per, xs, n);
    AllInReach(ch, done, kept, 0);
    NothingLost(c, done, kept, 0);
    assert done[..0] == [] && Heard(c, Concat(done[..0])) == [];
    assert [] + Masked(c, done, kept, 0) == Masked(c, done, kept, 0);
    ListenerHears(c, ch, ts0, done, kept, 0);
  }

  // ----- frames

  /** The first `k` samples of a stream that is silent when it has ended. */
  function Audible(stream: seq<real>, k: nat): seq<real> {
    if k <= |stream| then stream[..k] else stream + Silence(k - |stream|)
  }

  lemma AudibleStart(a: seq<real>, b: seq<real>)
    requires a <= b
    ensures Audible(b, |a|) == a
  {
  }

  lemma AudibleEnd(a: seq<real>, m: nat)
    ensures Audible(a, |a| + m) == a + Silence(m)
  {
  }

  /** Reading for a shorter or for a longer time. */
  lemma HearsAtAnyTime(ch: nat, t: Track, s: seq<Packet>, n: nat, out: seq<real>, k: nat)
    requires Hears(ch, t, s, n, out)
    ensures Read(ch, t, s, k).ok && Read(ch, t, s, k).out == Audible(out, Times(k, ch))
  {
    if k <= n {
      HearsEarlier(ch, t, s, n, out, k);
    } else {
      HearsLater(ch, t, s, n, out, k - n);
    }
  }

  lemma HearsEarlier(ch: nat, t: Track, s: seq<Packet>, n: nat, out: seq<real>, k: nat)
    requires Hears(ch, t, s, n, out) && k <= n
    ensures Read(ch, t, s, k).ok && Read(ch, t, s, k).out == Audible(out, Times(k, ch))
  {
    ReadShorter(ch, t, s, k, n);
    ReadLength(ch, t, s, k);
    AudibleStart(Read(ch, t, s, k).out, out);
  }

  lemma HearsLater(ch: nat, t: Track, s: seq<Packet>, n: nat, out: seq<real>, m: nat)
    requires Hears(ch, t, s, n, out)
    ensures Read(ch, t, s, n + m).ok && Read(ch, t, s, n + m).out == Audible(out, Times(n + m, ch))
  {
    ReadLonger(ch, t, s, n, m);
    ReadLength(ch, t, s, n);
    TimesAdd(n, m, ch);
    AudibleEnd(out, Times(m, ch));
  }
}
