/** Cutting a stream of groups into packets, one group at a time: what the packetizer is measured against. */
module Chopping {
  import opened Blocks
  import opened Codecs
  import opened Octets
  import opened StreamUnits

  /** The samples of the packets sent, and those of the packet not sent yet. */
  datatype Chopped = Chopped(done: seq<seq<real>>, open: seq<real>)

  /** One more group; a full packet is sent. */
  function Add(full: nat, c: Chopped, group: seq<real>): Chopped {
    if |c.open + group| == full then Chopped(c.done + [c.open + group], []) else Chopped(c.done, c.open + group)
  }

  /** `n` more groups, with `full` samples per packet. */
  function Feed(ch: Channels, full: nat, c: Chopped, xs: seq<real>, n: nat): Chopped
    requires |xs| == Times(n, ch)
    decreases n
  {
    if n == 0 then c else TimesFirst(n, ch); Feed(ch, full, Add(full, c, xs[..ch]), xs[ch..], n - 1)
  }

  /** A packet that has something in it is sent as it is. */
  function Flush(c: Chopped): Chopped {
    if c.open == [] then c else Chopped(c.done + [c.open], [])
  }

  /** All samples, in order. */
  function Joined(c: Chopped): seq<real> {
    Concat(c.done) + c.open
  }

  /** Packets depend only on the samples, not on how they were split into frames. */
  lemma {:induction false} FeedSplit(ch: Channels, full: nat, c: Chopped, xs: seq<real>, n: nat, ys: seq<real>, m: nat)
    requires |xs| == Times(n, ch) && |ys| == Times(m, ch)
    ensures |xs + ys| == Times(n + m, ch)
    ensures Feed(ch, full, c, xs + ys, n + m) == Feed(ch, full, Feed(ch, full, c, xs, n), ys, m)
    decreases n
  {
    TimesAdd(n, m, ch);
    if n == 0 {
      assert xs + ys == ys;
    } else {
      TimesFirst(n, ch);
      assert (xs + ys)[..ch] == xs[..ch] && (xs + ys)[ch..] == xs[ch..] + ys;
      FeedSplit(ch, full, Add(full, c, xs[..ch]), xs[ch..], n - 1, ys, m);
    }
  }

  lemma AddJoined(full: nat, c: Chopped, group: seq<real>)
    ensures Joined(Add(full, c, group)) == Joined(c) + group
  {
    ConcatAdd(c.done, c.open + group);
    assert Concat(c.done) + (c.open + group) == Joined(c) + group;
  }

  /** Nothing is lost, repeated or reordered. */
  lemma {:induction false} FeedJoined(ch: Channels, full: nat, c: Chopped, xs: seq<real>, n: nat)
    requires |xs| == Times(n, ch)
    ensures Joined(Feed(ch, full, c, xs, n)) == Joined(c) + xs
    decreases n
  {
    if n > 0 {
      TimesFirst(n, ch);
      AddJoined(full, c, xs[..ch]);
      FeedJoined(ch, full, Add(full, c, xs[..ch]), xs[ch..], n - 1);
      assert Joined(c) + xs[..ch] + xs[ch..] == Joined(c) + xs;
    }
  }

  lemma FlushJoined(c: Chopped)
    ensures Joined(Flush(c)) == Joined(c)
  {
    if c.open != [] {
      ConcatAdd(c.done, c.open);
      assert Concat(c.done) + c.open + [] == Concat(c.done) + c.open;
    }
  }

  /** Only full packets are sent without a flush, and packets once sent stay. */
  lemma {:induction false} FeedFull(ch: Channels, full: nat, c: Chopped, xs: seq<real>, n: nat)
    requires |xs| == Times(n, ch)
    ensures c.done <= Feed(ch, full, c, xs, n).done
    ensures forall i :: |c.done| <= i < |Feed(ch, full, c, xs, n).done| ==> |Feed(ch, full, c, xs, n).done[i]| == full
    decreases n
  {
    if n > 0 {
      TimesFirst(n, ch);
      FeedFull(ch, full, Add(full, c, xs[..ch]), xs[ch..], n - 1);
    }
  }

  /** Feeding up to a full packet at once. */
  lemma {:induction false} FeedRun(ch: Channels, per: nat, c: Chopped, pos: nat, xs: seq<real>, n: nat)
    requires 0 < n && pos + n <= per && |c.open| == Times(pos, ch) && |xs| == Times(n, ch)
    ensures Feed(ch, Times(per, ch), c, xs, n)
            == if pos + n == per then Chopped(c.done + [c.open + xs], []) else Chopped(c.done, c.open + xs)
    decreases n
  {
    var full, u := Times(per, ch), Add(Times(per, ch), c, xs[..ch]);
    TimesFirst(n, ch);
    TimesFirst(pos + 1, ch);
    NotYet(pos + 1, per, ch);
    if n == 1 {
      assert xs[..ch] == xs;
    } else {
      FeedRun(ch, per, u, pos + 1, xs[ch..], n - 1);
      assert c.open + xs[..ch] + xs[ch..] == c.open + xs;
    }
  }

  lemma NotYet(n: nat, m: nat, ch: Channels)
    requires n <= m
    ensures Times(n, ch) == Times(m, ch) <==> n == m
  {
    if n < m { TimesMono(n + 1, m, ch); }
  }

  /** A packet of 1 to `per` whole groups. */
  predicate Piece(ch: Channels, per: nat, xs: seq<real>) {
    0 < Wholes(|xs|, ch) <= per && |xs| == Times(Wholes(|xs|, ch), ch)
  }

  predicate Pieces(ch: Channels, per: nat, c: Chopped) {
    && (forall i :: 0 <= i < |c.done| ==> Piece(ch, per, c.done[i]))
    && Wholes(|c.open|, ch) < per && |c.open| == Times(Wholes(|c.open|, ch), ch)
  }

  lemma WholesOf(n: nat, ch: Channels)
    ensures Wholes(Times(n, ch), ch) == n
  {
    WholesFit(Times(n, ch), ch, n);
    WholesFit(Times(n, ch), ch, n + 1);
  }

  /** Packets are whole groups and never longer than a full one. */
  lemma {:induction false} FeedPieces(ch: Channels, per: nat, c: Chopped, xs: seq<real>, n: nat)
    requires Pieces(ch, per, c) && |xs| == Times(n, ch)
    ensures Pieces(ch, per, Feed(ch, Times(per, ch), c, xs, n))
    decreases n
  {
    if n > 0 {
      TimesFirst(n, ch);
      AddPieces(ch, per, c, xs[..ch]);
      FeedPieces(ch, per, Add(Times(per, ch), c, xs[..ch]), xs[ch..], n - 1);
    }
  }

  lemma AddPieces(ch: Channels, per: nat, c: Chopped, group: seq<real>)
    requires Pieces(ch, per, c) && |group| == ch
    ensures Pieces(ch, per, Add(Times(per, ch), c, group))
  {
    var k := Wholes(|c.open|, ch) + 1;
    assert |c.open + group| == Times(k, ch);
    WholesOf(k, ch);
    NotYet(k, per, ch);
    assert Wholes(0, ch) == 0 && Times(0, ch) == 0;
  }

  lemma FlushPieces(ch: Channels, per: nat, c: Chopped)
    requires Pieces(ch, per, c)
    ensures Pieces(ch, per, Flush(c)) && Flush(c).open == []
  {
    assert Wholes(0, ch) == 0 && Times(0, ch) == 0;
  }

  // ----- the packets on the wire

  /** An RTP packet as the packetizer fills it. */
  datatype Out = Out(seqnum: nat, ts: nat, duration: nat, payload: seq<Byte>)

  /** Groups in all packets together. */
  function Length(ch: Channels, done: seq<seq<real>>): nat {
    if done == [] then 0 else Length(ch, done[..|done| - 1]) + Wholes(|done[|done| - 1]|, ch)
  }

  /** Sequence numbers step by one and timestamps by durations, wrapping as section 5.1 of RFC 3550 says. */
  function Wire(c: LawfulCodec, ch: Channels, seq0: nat, ts0: nat, done: seq<seq<real>>): (r: seq<Out>)
    ensures |r| == |done|
  {
    if done == [] then [] else
      var init, last := done[..|done| - 1], done[|done| - 1];
      Wire(c, ch, seq0, ts0, init)
        + [Out((seq0 + |init|) % 0x1_0000, (ts0 + Length(ch, init)) % RANGE, Wholes(|last|, ch), Stored(c, last))]
  }

  lemma {:induction false} WireAt(c: LawfulCodec, ch: Channels, seq0: nat, ts0: nat, done: seq<seq<real>>, i: nat)
    requires i < |done|
    ensures Wire(c, ch, seq0, ts0, done)[i]
            == Out((seq0 + i) % 0x1_0000, (ts0 + Length(ch, done[..i])) % RANGE, Wholes(|done[i]|, ch),
                   Stored(c, done[i]))
  {
    if i < |done| - 1 {
      WireAt(c, ch, seq0, ts0, done[..|done| - 1], i);
      assert done[..|done| - 1][..i] == done[..i];
    }
  }

  /** Each packet's number is one more than the one before, and its timestamp later by that one's duration. */
  lemma WireSteps(c: LawfulCodec, ch: Channels, seq0: nat, ts0: nat, done: seq<seq<real>>, i: nat)
    requires i + 1 < |done|
    ensures var w := Wire(c, ch, seq0, ts0, done);
            w[i + 1].seqnum == (w[i].seqnum + 1) % 0x1_0000 && w[i + 1].ts == (w[i].ts + w[i].duration) % RANGE
  {
    WireAt(c, ch, seq0, ts0, done, i);
    WireAt(c, ch, seq0, ts0, done, i + 1);
    assert done[..i + 1][..i] == done[..i];
    WrapAdd(seq0 + i, 1, 0x1_0000);
    WrapAdd(ts0 + Length(ch, done[..i]), Wholes(|done[i]|, ch), RANGE);
  }
}
