/** Which losses a listener can bear: whether the packets delivered are accepted where they belong in the stream. */
module Reach {
  import opened Blocks
  import opened Chopping
  import opened Codecs
  import opened EndToEnd
  import opened StreamUnits
  import opened Timeline
  import opened TimelineRuns
  import opened TimelineTheorems

  /** Where the packets delivered belong on the listener's clock, from packet `i` on, which belongs at `p`. */
  function Places(ch: Channels, done: seq<seq<real>>, kept: seq<bool>, i: nat, p: int): seq<int>
    requires i <= |done| == |kept|
    decreases |done| - i
  {
    if i == |done| then []
    else (if kept[i] then [p] else []) + Places(ch, done, kept, i + 1, p + Len(ch, done, i))
  }

  /** Where accepted packets were placed. */
  function Ats(log: seq<Entry>): seq<int> {
    seq(|log|, k requires 0 <= k < |log| => log[k].at)
  }

  lemma AtsMore(log: seq<Entry>, e: Entry)
    ensures Ats(log + [e]) == Ats(log) + [e.at]
  {
  }

  /** As many as there are packets. */
  lemma {:induction false} PlacesCount(c: LawfulCodec, ch: Channels, ts0: nat, done: seq<seq<real>>, kept: seq<bool>,
                                       i: nat, p: int)
    requires i <= |done| == |kept|
    ensures |Places(ch, done, kept, i, p)| == |Supply(c, ch, ts0, done, kept, i)|
    decreases |done| - i
  {
    if i < |done| {
      PlacesCount(c, ch, ts0, done, kept, i + 1, p + Len(ch, done, i));
    }
  }

  lemma {:induction false} SupplyNoneEmpty(c: LawfulCodec, ch: Channels, ts0: nat, done: seq<seq<real>>,
                                           kept: seq<bool>, i: nat)
    requires i <= |done| == |kept| && Whole(ch, done)
    ensures NoneEmpty(Supply(c, ch, ts0, done, kept, i))
    decreases |done| - i
  {
    if i < |done| {
      SupplyNoneEmpty(c, ch, ts0, done, kept, i + 1);
    }
  }

  // ----- one packet out of reach

  /** A packet that is dropped leaves too few to be accepted. */
  lemma TooFew(ch: nat, t: Track, p: Packet, rest: seq<Packet>, s: seq<Packet>, n: nat, o: Outcome)
    requires s == [p] + rest && AllProper(ch, s) && AllProper(ch, rest) && Shaped(ch, t) && n > 0
    requires t.started && Idle(t) && Judge(t.pos, p) == Drop && o == Read(ch, t, s, n) && o.ok
    ensures |o.track.log| < |t.log| + |s|
  {
    assert s[0] == p && s[1..] == rest;
    ReadAfterFetch(ch, t, s, 1, t, rest, n);
    ReadConserves(ch, t, s, n, o);
  }

  /** A packet that is accepted stays where it was placed. */
  lemma Misplaced(ch: nat, t: Track, p: Packet, rest: seq<Packet>, s: seq<Packet>, n: nat, o: Outcome)
    requires s == [p] + rest && AllProper(ch, s) && AllProper(ch, rest) && Shaped(ch, t) && n > 0
    requires t.started && Idle(t) && Judge(t.pos, p) == Accept && o == Read(ch, t, s, n)
    ensures |t.log| < |o.track.log| && o.track.log[|t.log|].at == Place(t.pos, p.ts)
  {
    assert s[0] == p && s[1..] == rest;
    var v := Accepted(ch, t, p);
    SettleShaped(ch, t, s);
    TakeIt(ch, t, p, rest, v);
    ReadAfterFetch(ch, t, s, 0, v, rest, n);
    ReadIsFromSupply(ch, v, rest, n, Read(ch, v, rest, n));
  }

  /** With a packet out of reach, not all packets end up where they belong. */
  lemma OutOfReach(ch: nat, t: Track, p: Packet, rest: seq<Packet>, g: nat, s: seq<Packet>, n: nat, o: Outcome,
                   goal: seq<int>)
    requires s == [p] + rest && AllProper(ch, s) && AllProper(ch, rest) && Shaped(ch, t) && n > 0
    requires t.started && Idle(t) && 0 < p.len && (p.ts - (t.pos + g)) % RANGE == 0 && g + p.len > HALF
    requires o == Read(ch, t, s, n) && o.ok && |goal| == |t.log| + 1 + |rest| && goal[|t.log|] == t.pos + g
    ensures Ats(o.track.log) != goal
  {
    assert s[0] == p;
    AheadIff(t.pos, p, g);
    FaultIs(ch, t.pos, p);
    if Judge(t.pos, p) == Drop {
      TooFew(ch, t, p, rest, s, n, o);
      assert |Ats(o.track.log)| < |goal|;
    } else {
      Misplaced(ch, t, p, rest, s, n, o);
      assert Ats(o.track.log)[|t.log|] != goal[|t.log|];
    }
  }

  // ----- all packets

  lemma PlacesLost(ch: Channels, done: seq<seq<real>>, kept: seq<bool>, i: nat, p: int)
    requires i < |done| == |kept| && !kept[i]
    ensures Places(ch, done, kept, i, p) == Places(ch, done, kept, i + 1, p + Len(ch, done, i))
  {
  }

  /** One more packet was placed where it belongs. */
  lemma PlacesKept(ch: Channels, done: seq<seq<real>>, kept: seq<bool>, i: nat, p: int, log: seq<Entry>, e: Entry,
                   goal: seq<int>)
    requires i < |done| == |kept| && kept[i] && e.at == p && goal == Ats(log) + Places(ch, done, kept, i, p)
    ensures goal == Ats(log + [e]) + Places(ch, done, kept, i + 1, p + Len(ch, done, i))
    ensures |goal| == |log| + 1 + |Places(ch, done, kept, i + 1, p + Len(ch, done, i))| && goal[|log|] == p
  {
    AtsMore(log, e);
    var more := Places(ch, done, kept, i + 1, p + Len(ch, done, i));
    assert Ats(log) + ([p] + more) == Ats(log) + [p] + more;
  }

  /**
   * From in front of packet `i` on, packets are accepted where they belong exactly if they are in reach: `all` is where
   * they are placed, and `goal` where they belong.
   */
  lemma {:induction false} FollowIff(c: LawfulCodec, ch: Channels, ts0: nat, done: seq<seq<real>>, kept: seq<bool>,
                                     i: nat, t: Track, g: nat, s: seq<Packet>, n: nat, o: Outcome, all: seq<int>,
                                     goal: seq<int>)
    requires i <= |done| == |kept| && Whole(ch, done) && Listening(ch, ts0, done, i, t, g)
    requires s == Supply(c, ch, ts0, done, kept, i) && AllProper(ch, s) && n >= g + Remaining(ch, done, i)
    requires o == Read(ch, t, s, n) && o.ok
    requires all == Ats(o.track.log) && goal == Ats(t.log) + Places(ch, done, kept, i, t.pos + g)
    ensures all == goal <==> InReach(ch, done, kept, i, g)
    decreases |done| - i, 2
  {
    if i == |done| {
      MissRun(ch, t, n);
      assert Ats(t.log) + [] == Ats(t.log);
    } else if kept[i] {
      FollowKept(c, ch, ts0, done, kept, i, t, g, s, n, o, all, goal);
    } else {
      LostListening(ch, ts0, done, i, t, g);
      LostSupply(c, ch, ts0, done, kept, i);
      PlacesLost(ch, done, kept, i, t.pos + g);
      FollowIff(c, ch, ts0, done, kept, i + 1, t, g + Len(ch, done, i), s, n, o, all, goal);
    }
  }

  lemma {:induction false} FollowKept(c: LawfulCodec, ch: Channels, ts0: nat, done: seq<seq<real>>, kept: seq<bool>,
                                      i: nat, t: Track, g: nat, s: seq<Packet>, n: nat, o: Outcome, all: seq<int>,
                                      goal: seq<int>)
    requires i < |done| == |kept| && Whole(ch, done) && Listening(ch, ts0, done, i, t, g) && kept[i]
    requires s == Supply(c, ch, ts0, done, kept, i) && AllProper(ch, s) && n >= g + Remaining(ch, done, i)
    requires o == Read(ch, t, s, n) && o.ok
    requires all == Ats(o.track.log) && goal == Ats(t.log) + Places(ch, done, kept, i, t.pos + g)
    ensures all == goal <==> InReach(ch, done, kept, i, g)
    decreases |done| - i, 1
  {
    var p, rest := NextPacket(c, ch, ts0, done, kept, i, t, g);
    var e := Entry(t.pos + g, t.pos, p.len, p.samples);
    PlacesKept(ch, done, kept, i, t.pos + g, t.log, e, goal);
    if g + p.len > HALF {
      PlacesCount(c, ch, ts0, done, kept, i + 1, t.pos + g + p.len);
      OutOfReach(ch, t, p, rest, g, s, n, o, goal);
    } else {
      FollowNext(c, ch, ts0, done, kept, i, t, g, p, rest, s, n, o, all, goal);
    }
  }

  lemma {:induction false} FollowNext(c: LawfulCodec, ch: Channels, ts0: nat, done: seq<seq<real>>, kept: seq<bool>,
                                      i: nat, t: Track, g: nat, p: Packet, rest: seq<Packet>, s: seq<Packet>, n: nat,
                                      o: Outcome, all: seq<int>, goal: seq<int>)
    requires i < |done| == |kept| && Whole(ch, done) && Listening(ch, ts0, done, i, t, g)
    requires rest == Supply(c, ch, ts0, done, kept, i + 1) && s == [p] + rest && AllProper(ch, s) && AllProper(ch, rest)
    requires p.len == Len(ch, done, i) > 0 && g + p.len <= HALF && (p.ts - (t.pos + g)) % RANGE == 0
    requires n >= g + p.len + Remaining(ch, done, i + 1) && o == Read(ch, t, s, n) && o.ok && all == Ats(o.track.log)
    requires goal == Ats(t.log + [Entry(t.pos + g, t.pos, p.len, p.samples)])
                     + Places(ch, done, kept, i + 1, t.pos + g + p.len)
    ensures all == goal <==> InReach(ch, done, kept, i + 1, 0)
    decreases |done| - i, 0
  {
    var more := n - g - p.len;
    var u := PlayNext(ch, t, p, rest, g, more, s, n);
    NextListening(ch, ts0, done, i, t, g, u);
    FollowIff(c, ch, ts0, done, kept, i + 1, u, 0, rest, more, Read(ch, u, rest, more), all, goal);
  }

  /** Where the listener's clock starts: at the first packet delivered, if any. */
  function StartOf(ch: Channels, ts0: nat, done: seq<seq<real>>, first: nat): int
    requires first <= |done|
  {
    (ts0 + Length(ch, done[..first])) % RANGE
  }

  /** Every packet delivered is accepted, where it belongs in the stream. */
  ghost predicate InPlace(ch: Channels, ts0: nat, done: seq<seq<real>>, kept: seq<bool>, first: nat, log: seq<Entry>)
    requires first <= |done| == |kept|
  {
    Ats(log) == Places(ch, done, kept, first, StartOf(ch, ts0, done, first))
  }

  /**
   * For any lost packets, a listener who reads the whole stream accepts every packet delivered where it belongs exactly
   * if each of them ends at most 2^31 groups after the end of the one before; and then nothing is dropped.
   */
  lemma AcceptedInPlaceIff(c: LawfulCodec, ch: Channels, ts0: nat, done: seq<seq<real>>, kept: seq<bool>, first: nat,
                           s: seq<Packet>, n: nat, o: Outcome)
    requires |done| == |kept| && First(kept, first) && Whole(ch, done) && n >= Remaining(ch, done, first)
    requires s == Supply(c, ch, ts0, done, kept, 0) && AllProper(ch, s) && o == Read(ch, INITIAL, s, n)
    ensures o.ok && (InPlace(ch, ts0, done, kept, first, o.track.log) <==> InReach(ch, done, kept, first, 0))
    ensures InReach(ch, done, kept, first, 0) ==> o.drops == 0 && o.supply == []
  {
    SupplyNoneEmpty(c, ch, ts0, done, kept, 0);
    ReadNeverFaults(ch, INITIAL, s, n);
    SupplyFrom(c, ch, ts0, done, kept, 0, first);
    if first == |done| {
      MissRun(ch, INITIAL, n);
    } else {
      StartIff(c, ch, ts0, done, kept, first, s, n, o, Ats(o.track.log),
               Places(ch, done, kept, first, StartOf(ch, ts0, done, first)));
    }
    PlacesCount(c, ch, ts0, done, kept, first, StartOf(ch, ts0, done, first));
    ReadConserves(ch, INITIAL, s, n, o);
    assert |Ats(o.track.log)| == |o.track.log|;
  }

  lemma StartIff(c: LawfulCodec, ch: Channels, ts0: nat, done: seq<seq<real>>, kept: seq<bool>, i: nat, s: seq<Packet>,
                 n: nat, o: Outcome, all: seq<int>, goal: seq<int>)
    requires i < |done| == |kept| && kept[i] && Whole(ch, done) && n >= Remaining(ch, done, i)
    requires s == Supply(c, ch, ts0, done, kept, i) && AllProper(ch, s) && o == Read(ch, INITIAL, s, n) && o.ok
    requires all == Ats(o.track.log) && goal == Places(ch, done, kept, i, StartOf(ch, ts0, done, i))
    ensures all == goal <==> InReach(ch, done, kept, i, 0)
  {
    var p, rest := FirstPacket(c, ch, ts0, done, kept, i);
    var more := n - p.len;
    var u := StartWith(ch, p, rest, more, s);
    FirstListening(ch, ts0, done, i, u);
    PlacesFirst(ch, done, kept, i, p.ts, u.log[0], goal);
    FollowIff(c, ch, ts0, done, kept, i + 1, u, 0, rest, more, Read(ch, u, rest, more), all, goal);
  }

  lemma PlacesFirst(ch: Channels, done: seq<seq<real>>, kept: seq<bool>, i: nat, p: int, e: Entry, goal: seq<int>)
    requires i < |done| == |kept| && kept[i] && e.at == p && goal == Places(ch, done, kept, i, p)
    ensures goal == Ats([e]) + Places(ch, done, kept, i + 1, p + Len(ch, done, i))
  {
    assert Ats([]) + goal == goal && [] + [e] == [e];
    PlacesKept(ch, done, kept, i, p, [], e, goal);
  }

  // ----- losses that are too long

  /** A packet delivered after 2^31 lost groups is dropped. */
  lemma ReachCanFail()
    ensures var s := [Packet(0, 1, [0.5]), Packet(1 + HALF, 1, [0.5])];
            AllProper(1, s) && Read(1, INITIAL, s, 2).ok && Read(1, INITIAL, s, 2).drops == 1
  {
    var first, second := Packet(0, 1, [0.5]), Packet(1 + HALF, 1, [0.5]);
    var s := [first, second];
    assert Times(1, 1) == Times(0, 1) + 1;
    assert s[1..] == [second] && [second][1..] == [];
    var t := Started(INITIAL, first);
    assert Settle(1, INITIAL, s) == Outcome(t, [second], [], 0, 0, true);
    var u := Advance(1, t);
    assert Idle(u) && u.pos == 1 && u.started;
    ModIsHalf();
    assert Judge(1, second) == Drop;
    assert Settle(1, u, [second]).drops == 1;
    MissRun(1, u, 1);
  }

  lemma ModIsHalf()
    ensures Place(1, 1 + HALF) == 1 - HALF
  {
  }

  /** Such losses occur: two packets of 2^30 groups. */
  lemma ReachCanBeLeft() returns (done: seq<seq<real>>, kept: seq<bool>)
    ensures |done| == |kept| && First(kept, 0) && Whole(1, done) && !InReach(1, done, kept, 0, 0)
  {
    var k := HALF / 2;
    Ones(k);
    Ones(1);
    WholesOf(k, 1);
    WholesOf(1, 1);
    done, kept := [[0.5], Silence(k), Silence(k), [0.5]], [true, false, false, true];
    assert Len(1, done, 0) == 1 && Len(1, done, 1) == k && Len(1, done, 2) == k && Len(1, done, 3) == 1;
    assert !InReach(1, done, kept, 3, k + k);
    assert !InReach(1, done, kept, 2, k);
    assert !InReach(1, done, kept, 1, 0);
  }
}
