/** Every tick plays the accepted packet that covers it, or silence if none does. */
module TimelineTheorems {
  import opened Blocks
  import opened Octets
  import opened StreamUnits
  import opened Timeline
  import opened TimelineRuns

  function End(e: Entry): int {
    e.at + e.len
  }

  /** An accepted packet covers its span, but not what was past when it was accepted. */
  predicate Covers(e: Entry, p: int) {
    e.since <= p && e.at <= p < End(e)
  }

  predicate Logged(ch: nat, log: seq<Entry>) {
    forall i :: 0 <= i < |log| ==> |log[i].samples| == Times(log[i].len, ch)
  }

  /** The group of samples that a packet holds for clock position `p`. */
  function Group(ch: nat, e: Entry, p: int): seq<real>
    requires Covers(e, p) && |e.samples| == Times(e.len, ch)
  {
    GroupFits(ch, e, p);
    e.samples[Times(p - e.at, ch)..][..ch]
  }

  lemma GroupFits(ch: nat, e: Entry, p: int)
    requires Covers(e, p) && |e.samples| == Times(e.len, ch)
    ensures Times(p - e.at, ch) + ch <= |e.samples|
  {
    TimesAdd(p - e.at, End(e) - p, ch);
    TimesFirst(End(e) - p, ch);
  }

  /** What should be heard at clock position `p`. */
  function Voice(ch: nat, log: seq<Entry>, p: int): seq<real>
    requires Logged(ch, log)
  {
    if log == [] then Silence(ch)
    else if Covers(log[|log| - 1], p) then Group(ch, log[|log| - 1], p)
    else Voice(ch, log[..|log| - 1], p)
  }

  function Voices(ch: nat, log: seq<Entry>, p: int, n: nat): seq<real>
    requires Logged(ch, log)
    decreases n
  {
    if n == 0 then [] else Voice(ch, log, p) + Voices(ch, log, p + 1, n - 1)
  }

  ghost predicate Covered(log: seq<Entry>, p: int) {
    exists i :: 0 <= i < |log| && Covers(log[i], p)
  }

  ghost function CoveredCount(log: seq<Entry>, p: int, n: nat): nat
    decreases n
  {
    if n == 0 then 0 else (if Covered(log, p) then 1 else 0) + CoveredCount(log, p + 1, n - 1)
  }

  // ----- the invariant

  /** The current packet is what is left of the last accepted one. */
  predicate Current(ch: nat, t: Track, e: Entry)
    requires |e.samples| == Times(e.len, ch)
  {
    if Idle(t) then End(e) <= t.pos
    else
      && t.at == Max(e.at, t.pos) && t.at + t.left == End(e)
      && (TimesAdd(t.at - e.at, t.left, ch); t.rest == e.samples[Times(t.at - e.at, ch)..])
  }

  /** Every packet was accepted by now, and all but the last one have ended. */
  predicate Past(log: seq<Entry>, pos: int) {
    && (forall i :: 0 <= i < |log| ==> log[i].since <= pos)
    && (forall i :: 0 <= i < |log| - 1 ==> End(log[i]) <= pos)
  }

  predicate Inv(ch: nat, t: Track) {
    && Shaped(ch, t) && Logged(ch, t.log) && Past(t.log, t.pos)
    && t.at < t.pos + HALF && t.at + t.left <= t.pos + HALF
    && (t.started <==> t.log != [])
    && if t.log == [] then Idle(t) else Current(ch, t, t.log[|t.log| - 1])
  }

  lemma InitialInv(ch: nat)
    ensures Inv(ch, INITIAL)
  {
  }

  /** Where the clock stands once the first packet, if any, has set it. */
  function Origin(t: Track, supply: seq<Packet>): int {
    if t.started || supply == [] then t.pos else supply[0].ts
  }

  /** A log that grew by packets accepted no earlier than `p`. */
  predicate Grows(log: seq<Entry>, more: seq<Entry>, p: int) {
    log <= more && forall i :: |log| <= i < |more| ==> more[i].since >= p
  }

  /** A log entry is a packet of the supply, placed at its own timestamp. */
  predicate From(e: Entry, p: Packet) {
    (e.at - p.ts) % RANGE == 0 && e.len == p.len && e.samples == p.samples
  }

  ghost predicate FromSome(e: Entry, supply: seq<Packet>) {
    exists j :: 0 <= j < |supply| && From(e, supply[j])
  }

  ghost predicate AllFrom(log: seq<Entry>, n: nat, supply: seq<Packet>) {
    forall i :: n <= i < |log| ==> FromSome(log[i], supply)
  }

  lemma PlaceIs(pos: int, ts: nat)
    ensures (Place(pos, ts) - ts) % RANGE == 0 && pos - HALF <= Place(pos, ts) < pos + HALF
  {
    var x := ts - pos + HALF;
    assert x == x / RANGE * RANGE + x % RANGE;
    assert Place(pos, ts) - ts == (-(x / RANGE)) * RANGE;
  }

  lemma AcceptedInv(ch: nat, t: Track, p: Packet)
    requires Inv(ch, t) && Idle(t) && t.started && Proper(ch, p) && Judge(t.pos, p) == Accept
    ensures Inv(ch, Accepted(ch, t, p)) && !Idle(Accepted(ch, t, p))
  {
    PlaceIs(t.pos, p.ts);
    var u, at := Accepted(ch, t, p), Place(t.pos, p.ts);
    var e := Entry(at, t.pos, p.len, p.samples);
    TimesAdd(u.at - at, u.left, ch);
    assert u.log == t.log + [e];
    assert Current(ch, u, e);
  }

  lemma StartedInv(ch: nat, t: Track, p: Packet)
    requires Inv(ch, t) && !t.started && Proper(ch, p)
    ensures Inv(ch, Started(t, p))
  {
    var u := Started(t, p);
    TimesAdd(0, p.len, ch);
    assert u.log == [Entry(p.ts, p.ts, p.len, p.samples)];
    assert p.samples[0..] == p.samples;
  }

  lemma {:induction false} SettleInv(ch: nat, t: Track, supply: seq<Packet>)
    requires AllProper(ch, supply) && Inv(ch, t)
    ensures Inv(ch, Settle(ch, t, supply).track)
    decreases |supply|
  {
    if Idle(t) && supply != [] {
      var p, more := supply[0], supply[1..];
      if !t.started {
        StartedInv(ch, t, p);
        SettleInv(ch, Started(t, p), more);
      } else {
        match Judge(t.pos, p)
        case Drop => SettleInv(ch, t, more);
        case Accept => AcceptedInv(ch, t, p);
        case Fault =>
      }
    }
  }

  /** The first packet ever sets the clock; nothing else moves it here. */
  lemma {:induction false} SettleClock(ch: nat, t: Track, supply: seq<Packet>)
    requires AllProper(ch, supply) && (!t.started ==> Idle(t))
    ensures var s := Settle(ch, t, supply);
            s.track.pos == Origin(t, supply) && (s.track.started <==> t.started || supply != [])
    decreases |supply|
  {
    if Idle(t) && supply != [] {
      var p, more := supply[0], supply[1..];
      if !t.started {
        SettleClock(ch, Started(t, p), more);
      } else if Judge(t.pos, p) == Drop {
        SettleClock(ch, t, more);
      }
    }
  }

  lemma {:induction false} SettleGrows(ch: nat, t: Track, supply: seq<Packet>)
    requires AllProper(ch, supply) && (!t.started ==> Idle(t))
    ensures Grows(t.log, Settle(ch, t, supply).track.log, Origin(t, supply))
    decreases |supply|
  {
    if Idle(t) && supply != [] {
      var p, more := supply[0], supply[1..];
      if !t.started {
        SettleGrows(ch, Started(t, p), more);
      } else if Judge(t.pos, p) == Drop {
        SettleGrows(ch, t, more);
      }
    }
  }

  lemma PastLater(log: seq<Entry>, pos: int)
    requires Past(log, pos)
    ensures Past(log, pos + 1)
  {
  }

  lemma AdvancePlaying(ch: nat, t: Track)
    requires Inv(ch, t) && Playing(t)
    ensures Inv(ch, Advance(ch, t))
  {
    PastLater(t.log, t.pos);
    CurrentPlays(ch, t, Advance(ch, t), t.log[|t.log| - 1]);
  }

  lemma CurrentPlays(ch: nat, t: Track, u: Track, e: Entry)
    requires Shaped(ch, t) && Playing(t) && |e.samples| == Times(e.len, ch) && Current(ch, t, e) && u == Advance(ch, t)
    ensures Shaped(ch, u) && Current(ch, u, e)
  {
    TimesFirst(t.left, ch);
    TimesAdd(t.at - e.at, t.left, ch);
    TimesAdd(t.at - e.at, 1, ch);
    TimesAdd(u.at - e.at, u.left, ch);
    assert Times(1, ch) == Times(0, ch) + ch;
    assert u.rest == e.samples[Times(u.at - e.at, ch)..];
  }

  lemma AdvanceWaiting(ch: nat, t: Track)
    requires Inv(ch, t) && !Playing(t)
    ensures Inv(ch, Advance(ch, t))
  {
    PastLater(t.log, t.pos);
    if t.log != [] {
      CurrentWaits(ch, t, Advance(ch, t), t.log[|t.log| - 1]);
    }
  }

  lemma CurrentWaits(ch: nat, t: Track, u: Track, e: Entry)
    requires Shaped(ch, t) && !Playing(t) && |e.samples| == Times(e.len, ch) && Current(ch, t, e)
    requires u == t.(pos := t.pos + 1, at := Max(t.at, t.pos + 1))
    ensures Shaped(ch, u) && Current(ch, u, e)
  {
    if t.at > t.pos {
      TimesAdd(t.at - e.at, t.left, ch);
    }
  }

  lemma AdvanceInv(ch: nat, t: Track)
    requires Inv(ch, t)
    ensures Inv(ch, Advance(ch, t)) && Advance(ch, t).pos == t.pos + 1 && Advance(ch, t).log == t.log
  {
    if Playing(t) { AdvancePlaying(ch, t); } else { AdvanceWaiting(ch, t); }
  }

  // ----- what is heard

  lemma {:induction false} NotCovered(ch: nat, log: seq<Entry>, p: int)
    requires Logged(ch, log) && forall i :: 0 <= i < |log| ==> !Covers(log[i], p)
    ensures Voice(ch, log, p) == Silence(ch)
  {
    if log != [] {
      NotCovered(ch, log[..|log| - 1], p);
    }
  }

  /** One tick plays what should be heard at its clock position. */
  lemma SoundIsVoice(ch: nat, t: Track)
    requires Inv(ch, t)
    ensures Sound(ch, t) == Voice(ch, t.log, t.pos)
    ensures Playing(t) <==> Covered(t.log, t.pos)
  {
    if t.log != [] {
      var k := |t.log| - 1;
      var e := t.log[k];
      if Playing(t) {
        assert Covers(e, t.pos);
        GroupFits(ch, e, t.pos);
      } else {
        assert !Covers(e, t.pos);
        assert forall i :: 0 <= i < k ==> !Covers(t.log[i], t.pos);
        NotCovered(ch, t.log, t.pos);
      }
    }
  }

  /** Packets accepted later do not change what was heard before. */
  lemma {:induction false} VoiceStable(ch: nat, log: seq<Entry>, more: seq<Entry>, p: int)
    requires Logged(ch, more) && Grows(log, more, p + 1)
    ensures Logged(ch, log) && Voice(ch, more, p) == Voice(ch, log, p) && (Covered(more, p) <==> Covered(log, p))
    decreases |more|
  {
    assert forall i :: 0 <= i < |log| ==> log[i] == more[i];
    if |more| > |log| {
      var k := |more| - 1;
      assert !Covers(more[k], p);
      assert log <= more[..k];
      VoiceStable(ch, log, more[..k], p);
      assert Covered(more, p) ==> Covered(more[..k], p);
      assert Covered(more[..k], p) ==> Covered(more, p) by {
        if i :| 0 <= i < k && Covers(more[..k][i], p) { assert Covers(more[i], p); }
      }
    } else {
      assert log == more;
    }
  }

  // ----- whole reads

  /** The state in the middle of the first tick of a read. */
  lemma FirstTick(ch: nat, t: Track, supply: seq<Packet>)
    requires AllProper(ch, supply) && Inv(ch, t)
    ensures Inv(ch, Settle(ch, t, supply).track)
    ensures var s := Settle(ch, t, supply); var u := Advance(ch, s.track);
            && Inv(ch, u) && u.log == s.track.log && Origin(u, s.supply) == u.pos == s.track.pos + 1
            && s.track.pos == Origin(t, supply) && Grows(t.log, u.log, Origin(t, supply))
  {
    SettleInv(ch, t, supply);
    SettleClock(ch, t, supply);
    SettleGrows(ch, t, supply);
    AdvanceInv(ch, Settle(ch, t, supply).track);
  }

  /** All but the output of a read is that of its part after the first tick. */
  lemma AfterFirstTick(ch: nat, t: Track, supply: seq<Packet>, n: nat, s: Outcome, r: Outcome, o: Outcome)
    requires n > 0 && AllProper(ch, supply) && Shaped(ch, t) && s == Settle(ch, t, supply) && s.ok
    requires Shaped(ch, s.track)
    requires Shaped(ch, Advance(ch, s.track)) && r == Read(ch, Advance(ch, s.track), s.supply, n - 1)
    requires o == Read(ch, t, supply, n)
    ensures o.track == r.track && o.supply == r.supply && o.ok == r.ok
    ensures o.out == Sound(ch, s.track) + r.out && o.decoded == (if Playing(s.track) then 1 else 0) + r.decoded
  {
  }

  lemma GrowsOn(a: seq<Entry>, b: seq<Entry>, c: seq<Entry>, p: int)
    requires Grows(a, b, p) && Grows(b, c, p + 1)
    ensures Grows(a, c, p)
  {
    assert forall i :: |a| <= i < |b| ==> c[i] == b[i];
  }

  /** A read advances the clock by its length, keeps the invariant and only adds to the log. */
  lemma ReadKeepsInv(ch: nat, t: Track, supply: seq<Packet>, n: nat)
    requires AllProper(ch, supply) && Inv(ch, t)
    ensures var o := Read(ch, t, supply, n);
            && Inv(ch, o.track) && Grows(t.log, o.track.log, Origin(t, supply))
            && (o.ok && n > 0 ==> o.track.pos == Origin(t, supply) + n)
  {
    ReadKeeps(ch, t, supply, n, Origin(t, supply), Read(ch, t, supply, n));
  }

  lemma {:induction false} ReadKeeps(ch: nat, t: Track, supply: seq<Packet>, n: nat, p: int, o: Outcome)
    requires AllProper(ch, supply) && Inv(ch, t) && p == Origin(t, supply) && o == Read(ch, t, supply, n)
    ensures Inv(ch, o.track) && Grows(t.log, o.track.log, p) && (o.ok && n > 0 ==> o.track.pos == p + n)
    decreases n
  {
    if n > 0 {
      FirstTick(ch, t, supply);
      var s := Settle(ch, t, supply);
      if s.ok {
        var u := Advance(ch, s.track);
        var r := Read(ch, u, s.supply, n - 1);
        ReadKeeps(ch, u, s.supply, n - 1, p + 1, r);
        AfterFirstTick(ch, t, supply, n, s, r, o);
        GrowsOn(t.log, u.log, r.track.log, p);
      }
    }
  }

  /** A tick is still what should be heard at its clock position when the log has grown. */
  lemma TickStable(ch: nat, t: Track, log: seq<Entry>)
    requires Inv(ch, t) && Logged(ch, log) && Grows(t.log, log, t.pos + 1)
    ensures Voice(ch, log, t.pos) == Sound(ch, t) && (Playing(t) <==> Covered(log, t.pos))
  {
    SoundIsVoice(ch, t);
    VoiceStable(ch, t.log, log, t.pos);
  }

  /** Every read plays, at each clock position, the accepted packet that covers it, and silence where none does. */
  lemma ReadIsHeard(ch: nat, t: Track, supply: seq<Packet>, n: nat)
    requires AllProper(ch, supply) && Inv(ch, t)
    ensures var o := Read(ch, t, supply, n);
            && Logged(ch, o.track.log)
            && (o.ok ==> o.out == Voices(ch, o.track.log, Origin(t, supply), n))
            && (o.ok ==> o.decoded == CoveredCount(o.track.log, Origin(t, supply), n))
  {
    ReadHeard(ch, t, supply, n, Origin(t, supply), Read(ch, t, supply, n));
  }

  lemma {:induction false} ReadHeard(ch: nat, t: Track, supply: seq<Packet>, n: nat, p: int, o: Outcome)
    requires AllProper(ch, supply) && Inv(ch, t) && p == Origin(t, supply) && o == Read(ch, t, supply, n)
    ensures Logged(ch, o.track.log)
    ensures o.ok ==> o.out == Voices(ch, o.track.log, p, n) && o.decoded == CoveredCount(o.track.log, p, n)
    decreases n
  {
    if n > 0 {
      FirstTick(ch, t, supply);
      var s := Settle(ch, t, supply);
      if s.ok {
        var u := Advance(ch, s.track);
        var r := Read(ch, u, s.supply, n - 1);
        ReadHeard(ch, u, s.supply, n - 1, p + 1, r);
        ReadKeeps(ch, u, s.supply, n - 1, p + 1, r);
        TickStable(ch, s.track, r.track.log);
        AfterFirstTick(ch, t, supply, n, s, r, o);
        HeardNext(ch, r.track.log, p, n, Sound(ch, s.track), Playing(s.track));
      }
    }
  }

  lemma HeardNext(ch: nat, log: seq<Entry>, p: int, n: nat, sound: seq<real>, playing: bool)
    requires n > 0 && Logged(ch, log) && Voice(ch, log, p) == sound && (playing <==> Covered(log, p))
    ensures Voices(ch, log, p, n) == sound + Voices(ch, log, p + 1, n - 1)
    ensures CoveredCount(log, p, n) == (if playing then 1 else 0) + CoveredCount(log, p + 1, n - 1)
  {
  }

  lemma {:induction false} SettleFrom(ch: nat, t: Track, supply: seq<Packet>)
    requires AllProper(ch, supply)
    ensures var s := Settle(ch, t, supply);
            && t.log <= s.track.log && AllFrom(s.track.log, |t.log|, supply)
            && |s.supply| <= |supply| && s.supply == supply[|supply| - |s.supply|..]
    decreases |supply|
  {
    if Idle(t) && supply != [] {
      var p, more := supply[0], supply[1..];
      if !t.started {
        SettleFrom(ch, Started(t, p), more);
        FromFirst(t.log, Settle(ch, Started(t, p), more).track.log, Entry(p.ts, p.ts, p.len, p.samples), supply);
      } else {
        match Judge(t.pos, p)
        case Drop =>
          SettleFrom(ch, t, more);
          FromTail(Settle(ch, t, more).track.log, |t.log|, supply);
        case Accept => AcceptedFrom(ch, t, p, supply);
        case Fault =>
      }
    }
  }

  lemma FromFirst(log: seq<Entry>, more: seq<Entry>, e: Entry, supply: seq<Packet>)
    requires supply != [] && log + [e] <= more && AllFrom(more, |log| + 1, supply[1..]) && From(e, supply[0])
    ensures log <= more && AllFrom(more, |log|, supply)
  {
    FromTail(more, |log| + 1, supply);
    assert more[|log|] == e && FromSome(e, supply);
  }

  lemma AcceptedFrom(ch: nat, t: Track, p: Packet, supply: seq<Packet>)
    requires Proper(ch, p) && Judge(t.pos, p) == Accept && supply != [] && supply[0] == p
    ensures t.log <= Accepted(ch, t, p).log && AllFrom(Accepted(ch, t, p).log, |t.log|, supply)
  {
    PlaceIs(t.pos, p.ts);
    var log := Accepted(ch, t, p).log;
    assert From(log[|t.log|], supply[0]);
    assert FromSome(log[|t.log|], supply);
  }

  lemma FromTail(log: seq<Entry>, n: nat, supply: seq<Packet>)
    requires supply != [] && AllFrom(log, n, supply[1..])
    ensures AllFrom(log, n, supply)
  {
    forall i | n <= i < |log|
      ensures FromSome(log[i], supply)
    {
      assert FromSome(log[i], supply[1..]);
      var j :| 0 <= j < |supply[1..]| && From(log[i], supply[1..][j]);
      assert From(log[i], supply[j + 1]);
    }
  }

  /**
   * Everything accepted during a read is a packet of its supply, placed at a clock position with the packet's own
   * timestamp.
   */
  lemma {:induction false} ReadIsFromSupply(ch: nat, t: Track, supply: seq<Packet>, n: nat, o: Outcome)
    requires AllProper(ch, supply) && Shaped(ch, t) && o == Read(ch, t, supply, n)
    ensures t.log <= o.track.log && AllFrom(o.track.log, |t.log|, supply)
    decreases n, 1
  {
    if n > 0 {
      SettleShaped(ch, t, supply);
      var s := Settle(ch, t, supply);
      SettleFrom(ch, t, supply);
      if !s.ok {
        FaultEnds(ch, t, supply, n, s, o);
      } else {
        var r := FromLater(ch, t, supply, n, s, o);
        FromBoth(t.log, s.track.log, r.track.log, supply, s.supply);
      }
    }
  }

  /** A fault in the first tick ends a read. */
  lemma FaultEnds(ch: nat, t: Track, supply: seq<Packet>, n: nat, s: Outcome, o: Outcome)
    requires n > 0 && AllProper(ch, supply) && Shaped(ch, t) && s == Settle(ch, t, supply) && !s.ok
    requires o == Read(ch, t, supply, n)
    ensures o == s
  {
  }

  lemma {:induction false} FromLater(ch: nat, t: Track, supply: seq<Packet>, n: nat, s: Outcome, o: Outcome)
    returns (r: Outcome)
    requires n > 0 && AllProper(ch, supply) && Shaped(ch, t) && s == Settle(ch, t, supply) && s.ok
    requires Shaped(ch, s.track) && o == Read(ch, t, supply, n)
    ensures o.track == r.track && s.track.log <= r.track.log && AllFrom(r.track.log, |s.track.log|, s.supply)
    decreases n, 0
  {
    AdvanceShaped(ch, s.track);
    var u := Advance(ch, s.track);
    r := Read(ch, u, s.supply, n - 1);
    ReadIsFromSupply(ch, u, s.supply, n - 1, r);
    AfterFirstTick(ch, t, supply, n, s, r, o);
  }

  lemma FromBoth(a: seq<Entry>, b: seq<Entry>, c: seq<Entry>, supply: seq<Packet>, more: seq<Packet>)
    requires a <= b <= c && AllFrom(b, |a|, supply) && AllFrom(c, |b|, more)
    requires |more| <= |supply| && more == supply[|supply| - |more|..]
    ensures AllFrom(c, |a|, supply)
  {
    forall i | |a| <= i < |c|
      ensures FromSome(c[i], supply)
    {
      if i < |b| {
        assert c[i] == b[i];
      } else {
        assert FromSome(c[i], more);
        var j :| 0 <= j < |more| && From(c[i], more[j]);
        assert From(c[i], supply[|supply| - |more| + j]);
      }
    }
  }

  // ----- the fault

  /** The depacketizer's "can't shift packet" panic: an empty packet exactly half the timestamp range away. */
  lemma FaultIs(ch: nat, pos: int, p: Packet)
    requires Proper(ch, p)
    ensures Judge(pos, p) == Fault <==> p.len == 0 && (pos - p.ts) % RANGE == HALF
  {
    PlaceIs(pos, p.ts);
    var x, y := p.ts - pos + HALF, pos - p.ts;
    assert x + y == HALF;
    assert x % RANGE == 0 <==> y % RANGE == HALF by {
      var q := x / RANGE;
      assert x == q * RANGE + x % RANGE;
      if x % RANGE == 0 { ModIs(y, RANGE, -q, HALF); }
      if y % RANGE == HALF { ModIs(x, RANGE, -(y / RANGE), 0); }
    }
  }

  lemma {:induction false} SettleNeverFaults(ch: nat, t: Track, supply: seq<Packet>)
    requires AllProper(ch, supply) && NoneEmpty(supply)
    ensures Settle(ch, t, supply).ok
    decreases |supply|
  {
    if Idle(t) && supply != [] {
      FaultIs(ch, t.pos, supply[0]);
      NoneEmptyTail(supply, supply[1..]);
      SettleNeverFaults(ch, Started(t, supply[0]), supply[1..]);
      SettleNeverFaults(ch, t, supply[1..]);
    }
  }

  predicate NoneEmpty(supply: seq<Packet>) {
    forall i :: 0 <= i < |supply| ==> supply[i].len > 0
  }

  lemma NoneEmptyTail(supply: seq<Packet>, more: seq<Packet>)
    requires NoneEmpty(supply) && |more| <= |supply| && more == supply[|supply| - |more|..]
    ensures NoneEmpty(more)
  {
  }

  lemma {:induction false} SettleKeepsNoneEmpty(ch: nat, t: Track, supply: seq<Packet>)
    requires AllProper(ch, supply) && NoneEmpty(supply)
    ensures NoneEmpty(Settle(ch, t, supply).supply)
    decreases |supply|
  {
    if Idle(t) && supply != [] {
      NoneEmptyTail(supply, supply[1..]);
      SettleKeepsNoneEmpty(ch, Started(t, supply[0]), supply[1..]);
      SettleKeepsNoneEmpty(ch, t, supply[1..]);
    }
  }

  lemma AdvanceShaped(ch: nat, t: Track)
    requires Shaped(ch, t)
    ensures Shaped(ch, Advance(ch, t))
  {
    if Playing(t) { TimesFirst(t.left, ch); }
  }

  /** With no empty packets, no read panics, wherever the timestamps are and however often they wrap. */
  lemma {:induction false} ReadNeverFaults(ch: nat, t: Track, supply: seq<Packet>, n: nat)
    requires AllProper(ch, supply) && Shaped(ch, t) && NoneEmpty(supply)
    ensures Read(ch, t, supply, n).ok
    decreases n
  {
    if n > 0 {
      var s := Settle(ch, t, supply);
      SettleShaped(ch, t, supply);
      SettleNeverFaults(ch, t, supply);
      SettleKeepsNoneEmpty(ch, t, supply);
      AdvanceShaped(ch, s.track);
      ReadNeverFaults(ch, Advance(ch, s.track), s.supply, n - 1);
    }
  }

  /** A packet held against the clock. */
  datatype Judgement = Judgement(pos: int, packet: Packet)

  predicate Faulty(j: Judgement) {
    j.packet.len == 0 && (j.pos - j.packet.ts) % RANGE == HALF
  }

  /** The judgements made while packets are taken; the first packet ever is not judged. */
  function Judgements(ch: nat, t: Track, supply: seq<Packet>): seq<Judgement>
    requires AllProper(ch, supply)
    decreases |supply|
  {
    if !Idle(t) || supply == [] then []
    else
      var p, more := supply[0], supply[1..];
      if !t.started then Judgements(ch, Started(t, p), more)
      else if Judge(t.pos, p) == Drop then [Judgement(t.pos, p)] + Judgements(ch, t, more)
      else [Judgement(t.pos, p)]
  }

  /** The judgements of a whole read. */
  function ReadJudgements(ch: nat, t: Track, supply: seq<Packet>, n: nat): seq<Judgement>
    requires AllProper(ch, supply) && Shaped(ch, t)
    decreases n
  {
    if n == 0 then []
    else
      var s := Settle(ch, t, supply);
      SettleShaped(ch, t, supply);
      AdvanceShaped(ch, s.track);
      if !s.ok then Judgements(ch, t, supply)
      else Judgements(ch, t, supply) + ReadJudgements(ch, Advance(ch, s.track), s.supply, n - 1)
  }

  predicate NoneFaulty(js: seq<Judgement>) {
    forall i :: 0 <= i < |js| ==> !Faulty(js[i])
  }

  lemma NoneFaultyConcat(a: seq<Judgement>, b: seq<Judgement>)
    ensures NoneFaulty(a + b) <==> NoneFaulty(a) && NoneFaulty(b)
  {
    assert forall i :: 0 <= i < |a| ==> (a + b)[i] == a[i];
    assert forall i :: 0 <= i < |b| ==> (a + b)[|a| + i] == b[i];
  }

  lemma {:induction false} SettleFaultsIff(ch: nat, t: Track, supply: seq<Packet>)
    requires AllProper(ch, supply)
    ensures Settle(ch, t, supply).ok <==> NoneFaulty(Judgements(ch, t, supply))
    decreases |supply|
  {
    if Idle(t) && supply != [] {
      var p, more := supply[0], supply[1..];
      if !t.started {
        SettleFaultsIff(ch, Started(t, p), more);
      } else {
        JudgedFirst(ch, t, p);
        if Judge(t.pos, p) == Drop {
          SettleFaultsIff(ch, t, more);
          NoneFaultyConcat([Judgement(t.pos, p)], Judgements(ch, t, more));
        }
      }
    }
  }

  lemma JudgedFirst(ch: nat, t: Track, p: Packet)
    requires Proper(ch, p)
    ensures NoneFaulty([Judgement(t.pos, p)]) <==> Judge(t.pos, p) != Fault
  {
    FaultIs(ch, t.pos, p);
    var first := [Judgement(t.pos, p)];
    assert NoneFaulty(first) <==> !Faulty(first[0]);
  }

  lemma FaultsAtOnce(ch: nat, t: Track, supply: seq<Packet>, n: nat)
    requires AllProper(ch, supply) && Shaped(ch, t) && n > 0 && !Settle(ch, t, supply).ok
    ensures !Read(ch, t, supply, n).ok && ReadJudgements(ch, t, supply, n) == Judgements(ch, t, supply)
  {
    FaultyRead(ch, t, supply, n);
  }

  lemma FaultsLater(ch: nat, t: Track, supply: seq<Packet>, n: nat, s: Outcome, u: Track)
    requires AllProper(ch, supply) && Shaped(ch, t) && n > 0 && s == Settle(ch, t, supply) && s.ok
    requires AllProper(ch, s.supply) && Shaped(ch, s.track) && u == Advance(ch, s.track) && Shaped(ch, u)
    ensures Read(ch, t, supply, n).ok == Read(ch, u, s.supply, n - 1).ok
    ensures ReadJudgements(ch, t, supply, n) == Judgements(ch, t, supply) + ReadJudgements(ch, u, s.supply, n - 1)
  {
    ReadIs(ch, t, supply, n);
  }

  lemma {:induction false} SettleConserves(ch: nat, t: Track, supply: seq<Packet>)
    requires AllProper(ch, supply)
    ensures var s := Settle(ch, t, supply);
            s.ok ==> |s.track.log| + s.drops + |s.supply| == |t.log| + |supply|
    decreases |supply|
  {
    if Idle(t) && supply != [] {
      var p, more := supply[0], supply[1..];
      if !t.started {
        SettleConserves(ch, Started(t, p), more);
      } else if Judge(t.pos, p) == Drop {
        SettleConserves(ch, t, more);
      }
    }
  }

  /** Every packet is accepted, dropped or not taken yet. */
  lemma {:induction false} ReadConserves(ch: nat, t: Track, supply: seq<Packet>, n: nat, o: Outcome)
    requires AllProper(ch, supply) && Shaped(ch, t) && o == Read(ch, t, supply, n) && o.ok
    ensures |o.track.log| + o.drops + |o.supply| == |t.log| + |supply|
    decreases n
  {
    if n > 0 {
      var s := Settle(ch, t, supply);
      SettleShaped(ch, t, supply);
      SettleConserves(ch, t, supply);
      AdvanceShaped(ch, s.track);
      var r := Read(ch, Advance(ch, s.track), s.supply, n - 1);
      ReadConserves(ch, Advance(ch, s.track), s.supply, n - 1, r);
    }
  }

  /** A read panics exactly when a packet that it judges is empty and half the timestamp range away from the clock. */
  lemma {:induction false} ReadFaultsIff(ch: nat, t: Track, supply: seq<Packet>, n: nat)
    requires AllProper(ch, supply) && Shaped(ch, t)
    ensures Read(ch, t, supply, n).ok <==> NoneFaulty(ReadJudgements(ch, t, supply, n))
    decreases n
  {
    if n > 0 {
      var s := Settle(ch, t, supply);
      SettleFaultsIff(ch, t, supply);
      if !s.ok {
        FaultsAtOnce(ch, t, supply, n);
      } else {
        SettleShaped(ch, t, supply);
        AdvanceShaped(ch, s.track);
        var u := Advance(ch, s.track);
        FaultsLater(ch, t, supply, n, s, u);
        ReadFaultsIff(ch, u, s.supply, n - 1);
        NoneFaultyConcat(Judgements(ch, t, supply), ReadJudgements(ch, u, s.supply, n - 1));
      }
    }
  }

  // ----- drops

  /** A judgement by which a packet is dropped: it has ended, or it ends more than half the range ahead. */
  predicate Dropped(j: Judgement) {
    Judge(j.pos, j.packet) == Drop
  }

  ghost predicate SomeDropped(js: seq<Judgement>) {
    exists i :: 0 <= i < |js| && Dropped(js[i])
  }

  lemma SomeDroppedConcat(a: seq<Judgement>, b: seq<Judgement>)
    ensures SomeDropped(a + b) <==> SomeDropped(a) || SomeDropped(b)
  {
    assert forall i :: 0 <= i < |a| ==> (a + b)[i] == a[i];
    assert forall i :: 0 <= i < |b| ==> (a + b)[|a| + i] == b[i];
  }

  lemma {:induction false} SettleDropsIff(ch: nat, t: Track, supply: seq<Packet>)
    requires AllProper(ch, supply)
    ensures Settle(ch, t, supply).drops > 0 <==> SomeDropped(Judgements(ch, t, supply))
    decreases |supply|
  {
    if Idle(t) && supply != [] {
      var p, more := supply[0], supply[1..];
      if !t.started {
        SettleDropsIff(ch, Started(t, p), more);
      } else {
        DroppedFirst(t, p);
        if Judge(t.pos, p) == Drop {
          SettleDropsIff(ch, t, more);
          SomeDroppedConcat([Judgement(t.pos, p)], Judgements(ch, t, more));
        }
      }
    }
  }

  lemma DroppedFirst(t: Track, p: Packet)
    ensures SomeDropped([Judgement(t.pos, p)]) <==> Judge(t.pos, p) == Drop
  {
    var first := [Judgement(t.pos, p)];
    assert SomeDropped(first) <==> Dropped(first[0]);
  }

  lemma DropsLater(ch: nat, t: Track, supply: seq<Packet>, n: nat, s: Outcome, u: Track)
    requires AllProper(ch, supply) && Shaped(ch, t) && n > 0 && s == Settle(ch, t, supply) && s.ok
    requires AllProper(ch, s.supply) && Shaped(ch, s.track) && u == Advance(ch, s.track) && Shaped(ch, u)
    ensures Read(ch, t, supply, n).drops == s.drops + Read(ch, u, s.supply, n - 1).drops
  {
    ReadIs(ch, t, supply, n);
  }

  /** A read drops packets exactly when it judges one so. */
  lemma {:induction false} ReadDropsIff(ch: nat, t: Track, supply: seq<Packet>, n: nat)
    requires AllProper(ch, supply) && Shaped(ch, t)
    ensures Read(ch, t, supply, n).drops > 0 <==> SomeDropped(ReadJudgements(ch, t, supply, n))
    decreases n
  {
    if n > 0 {
      var s := Settle(ch, t, supply);
      SettleDropsIff(ch, t, supply);
      if !s.ok {
        FaultsAtOnce(ch, t, supply, n);
        FaultEnds(ch, t, supply, n, s, Read(ch, t, supply, n));
      } else {
        SettleShaped(ch, t, supply);
        AdvanceShaped(ch, s.track);
        var u := Advance(ch, s.track);
        FaultsLater(ch, t, supply, n, s, u);
        DropsLater(ch, t, supply, n, s, u);
        ReadDropsIff(ch, u, s.supply, n - 1);
        SomeDroppedConcat(Judgements(ch, t, supply), ReadJudgements(ch, u, s.supply, n - 1));
      }
    }
  }

  /** Such a read exists: one group, then an empty packet half the range after it. */
  lemma ReadCanFault()
    ensures var supply := [Packet(0, 1, [0.5]), Packet(1 + HALF, 0, [])];
            AllProper(1, supply) && !Read(1, INITIAL, supply, 2).ok
  {
    var first, second := Packet(0, 1, [0.5]), Packet(1 + HALF, 0, []);
    var supply := [first, second];
    assert Times(1, 1) == Times(0, 1) + 1;
    assert supply[1..] == [second] && [second][1..] == [];
    var t := Started(INITIAL, first);
    assert Settle(1, INITIAL, supply) == Outcome(t, [second], [], 0, 0, true);
    var u := Advance(1, t);
    assert Idle(u) && u.pos == 1 && u.started;
    FaultIs(1, 1, second);
    assert !Settle(1, u, [second]).ok;
    assert !Read(1, u, [second], 1).ok;
  }
}
