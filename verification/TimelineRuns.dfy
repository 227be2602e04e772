/** Many ticks at once: waiting, playing and missing stretches of the timeline. */
module TimelineRuns {
  import opened Blocks
  import opened Timeline

  lemma {:induction false} SilenceAdd(n: nat, m: nat)
    ensures Silence(n + m) == Silence(n) + Silence(m)
  {
    if n > 0 {
      SilenceAdd(n - 1, m);
    }
  }

  lemma BeforeTwice(a: seq<real>, da: nat, ra: nat, b: seq<real>, db: nat, rb: nat, o: Outcome)
    ensures Before(a, da, ra, Before(b, db, rb, o)) == Before(a + b, da + db, ra + rb, o)
  {
    assert a + (b + o.out) == a + b + o.out;
  }

  lemma Chain(r: Outcome, a: seq<real>, da: nat, q: Outcome, b: seq<real>, db: nat, o: Outcome, c: seq<real>)
    requires r == Before(a, da, 0, q) && q == Before(b, db, 0, o) && c == a + b
    ensures r == Before(c, da + db, 0, o)
  {
    BeforeTwice(a, da, 0, b, db, 0, o);
  }

  lemma BeforeNothing(o: Outcome)
    ensures Before([], 0, 0, o) == o
  {
    assert [] + o.out == o.out;
  }

  /** The rest of a read, once packets have been taken for its first tick. */
  function Continue(ch: nat, s: Outcome, k: nat): Outcome
    requires k > 0 && AllProper(ch, s.supply) && Shaped(ch, s.track)
  {
    if !s.ok then s
    else Before(Sound(ch, s.track), if Playing(s.track) then 1 else 0, s.drops,
                Read(ch, Advance(ch, s.track), s.supply, k - 1))
  }

  lemma ReadIs(ch: nat, t: Track, supply: seq<Packet>, k: nat)
    requires k > 0 && AllProper(ch, supply) && Shaped(ch, t)
    ensures Shaped(ch, Settle(ch, t, supply).track)
    ensures Read(ch, t, supply, k) == Continue(ch, Settle(ch, t, supply), k)
  {
    SettleShaped(ch, t, supply);
  }

  lemma ContinueAfter(ch: nat, s: Outcome, d: nat, k: nat)
    requires k > 0 && AllProper(ch, s.supply) && Shaped(ch, s.track) && s.out == []
    ensures Continue(ch, Before([], 0, d, s), k) == Before([], 0, d, Continue(ch, s, k))
  {
    if s.ok {
      var sound := Sound(ch, s.track);
      BeforeTwice([], 0, d, sound, if Playing(s.track) then 1 else 0, s.drops,
                  Read(ch, Advance(ch, s.track), s.supply, k - 1));
      assert [] + sound == sound;
    }
  }

  /** Taking packets early does not change what is read. */
  lemma ReadAfterFetch(ch: nat, t: Track, supply: seq<Packet>, d: nat, t': Track, supply': seq<Packet>, k: nat)
    requires k > 0 && AllProper(ch, supply) && Shaped(ch, t) && AllProper(ch, supply') && Shaped(ch, t')
    requires Settle(ch, t, supply) == Before([], 0, d, Settle(ch, t', supply'))
    ensures Read(ch, t, supply, k) == Before([], 0, d, Read(ch, t', supply', k))
  {
    ReadIs(ch, t, supply, k);
    ReadIs(ch, t', supply', k);
    ContinueAfter(ch, Settle(ch, t', supply'), d, k);
  }

  /** One tick without taking a packet. */
  lemma ReadOne(ch: nat, t: Track, supply: seq<Packet>, k: nat)
    requires k > 0 && AllProper(ch, supply) && Shaped(ch, t) && (!Idle(t) || supply == [])
    ensures Shaped(ch, Advance(ch, t))
    ensures Read(ch, t, supply, k)
              == Before(Sound(ch, t), if Playing(t) then 1 else 0, 0, Read(ch, Advance(ch, t), supply, k - 1))
  {
    SettleShaped(ch, t, supply);
    if Playing(t) { TimesFirst(t.left, ch); }
  }

  lemma GapOne(ch: nat, t: Track, supply: seq<Packet>, k: nat)
    requires k > 0 && AllProper(ch, supply) && Shaped(ch, t) && t.pos < t.at
    ensures Read(ch, t, supply, k) == Before(Silence(ch), 0, 0, Read(ch, t.(pos := t.pos + 1), supply, k - 1))
  {
    ReadOne(ch, t, supply, k);
  }

  lemma GapMore(ch: nat, t: Track, supply: seq<Packet>, n: nat, k: nat, q: Outcome, o: Outcome)
    requires n > 0 && k > 0 && AllProper(ch, supply) && Shaped(ch, t) && t.pos < t.at
    requires q == Read(ch, t.(pos := t.pos + 1), supply, k - 1) && q == Before(Silence(Times(n - 1, ch)), 0, 0, o)
    ensures Read(ch, t, supply, k) == Before(Silence(Times(n, ch)), 0, 0, o)
  {
    GapOne(ch, t, supply, k);
    SilenceAdd(ch, Times(n - 1, ch));
    Chain(Read(ch, t, supply, k), Silence(ch), 0, q, Silence(Times(n - 1, ch)), 0, o, Silence(Times(n, ch)));
  }

  /** Ticks before the current packet is due are silent. */
  lemma {:induction false} GapRun(ch: nat, t: Track, supply: seq<Packet>, n: nat, more: nat, v: Track)
    requires AllProper(ch, supply) && Shaped(ch, t) && t.pos + n <= t.at && v == t.(pos := t.pos + n)
    ensures Read(ch, t, supply, n + more) == Before(Silence(Times(n, ch)), 0, 0, Read(ch, v, supply, more))
    decreases n
  {
    if n == 0 {
      assert v == t;
      BeforeNothing(Read(ch, t, supply, more));
    } else {
      var u := t.(pos := t.pos + 1);
      GapRun(ch, u, supply, n - 1, more, v);
      GapMore(ch, t, supply, n, n + more, Read(ch, u, supply, n - 1 + more), Read(ch, v, supply, more));
    }
  }

  /** `n` groups later in the current packet. */
  function Played(ch: nat, t: Track, n: nat): (u: Track)
    requires Shaped(ch, t) && n <= t.left && t.at == t.pos
    ensures Shaped(ch, u)
  {
    TimesAdd(n, t.left - n, ch);
    t.(pos := t.pos + n, at := t.at + n, left := t.left - n, rest := t.rest[Times(n, ch)..])
  }

  lemma PlayOne(ch: nat, t: Track, supply: seq<Packet>, k: nat)
    requires k > 0 && AllProper(ch, supply) && Shaped(ch, t) && Playing(t)
    ensures Times(1, ch) == ch <= |t.rest|
    ensures Read(ch, t, supply, k) == Before(t.rest[..ch], 1, 0, Read(ch, Played(ch, t, 1), supply, k - 1))
  {
    TimesFirst(t.left, ch);
    ReadOne(ch, t, supply, k);
    assert Times(1, ch) == Times(0, ch) + ch;
    assert Advance(ch, t) == Played(ch, t, 1);
  }

  lemma PlayMore(ch: nat, t: Track, supply: seq<Packet>, n: nat, k: nat, q: Outcome, o: Outcome)
    requires k > 0 && AllProper(ch, supply) && Shaped(ch, t) && t.at == t.pos && 0 < n <= t.left
    requires var u := Played(ch, t, 1);
             && q == Read(ch, u, supply, k - 1)
             && Times(n - 1, ch) <= |u.rest| && q == Before(u.rest[..Times(n - 1, ch)], n - 1, 0, o)
    ensures Times(n, ch) <= |t.rest| && Read(ch, t, supply, k) == Before(t.rest[..Times(n, ch)], n, 0, o)
  {
    PlayOne(ch, t, supply, k);
    TimesFirst(n, ch);
    var u := t.rest[ch..];
    assert t.rest[..Times(n, ch)] == t.rest[..ch] + u[..Times(n - 1, ch)];
    Chain(Read(ch, t, supply, k), t.rest[..ch], 1, q, u[..Times(n - 1, ch)], n - 1, o, t.rest[..Times(n, ch)]);
  }

  /** Ticks inside the current packet play its samples. */
  lemma {:induction false} PlayRun(ch: nat, t: Track, supply: seq<Packet>, n: nat, more: nat, v: Track)
    requires AllProper(ch, supply) && Shaped(ch, t) && t.at == t.pos && n <= t.left && v == Played(ch, t, n)
    ensures Times(n, ch) <= |t.rest|
    ensures Read(ch, t, supply, n + more) == Before(t.rest[..Times(n, ch)], n, 0, Read(ch, v, supply, more))
    decreases n
  {
    if n == 0 {
      assert v == t by { assert t.rest[0..] == t.rest; }
      BeforeNothing(Read(ch, t, supply, more));
    } else {
      var u := Played(ch, t, 1);
      PlayedTwice(ch, t, n);
      PlayRun(ch, u, supply, n - 1, more, v);
      PlayMore(ch, t, supply, n, n + more, Read(ch, u, supply, n - 1 + more), Read(ch, v, supply, more));
    }
  }

  lemma PlayedTwice(ch: nat, t: Track, n: nat)
    requires Shaped(ch, t) && 0 < n <= t.left && t.at == t.pos
    ensures Played(ch, Played(ch, t, 1), n - 1) == Played(ch, t, n)
  {
    TimesAdd(1, n - 1, ch);
    TimesAdd(n, t.left - n, ch);
    assert t.rest[Times(1, ch)..][Times(n - 1, ch)..] == t.rest[Times(n, ch)..];
  }

  /** With no packet at hand and none to take, everything is silent. */
  lemma {:induction false} MissRun(ch: nat, t: Track, n: nat)
    requires Shaped(ch, t) && Idle(t)
    ensures Read(ch, t, [], n) == Outcome(t.(pos := t.pos + n, at := t.at + n), [], Silence(Times(n, ch)), 0, 0, true)
    decreases n
  {
    if n > 0 {
      ReadOne(ch, t, [], n);
      var u := t.(pos := t.pos + 1, at := t.at + 1);
      MissRun(ch, u, n - 1);
      SilenceAdd(ch, Times(n - 1, ch));
    }
  }

  /** Reading in two parts is reading at once: frame boundaries are not heard. */
  lemma {:induction false} ReadSplit(ch: nat, t: Track, supply: seq<Packet>, n: nat, m: nat)
    requires AllProper(ch, supply) && Shaped(ch, t) && Read(ch, t, supply, n).ok
    ensures var o := Read(ch, t, supply, n);
            Read(ch, t, supply, n + m) == Before(o.out, o.decoded, o.drops, Read(ch, o.track, o.supply, m))
    decreases n
  {
    if n == 0 {
      BeforeNothing(Read(ch, t, supply, m));
    } else {
      var s := Settle(ch, t, supply);
      SettleShaped(ch, t, supply);
      var u, d := Advance(ch, s.track), if Playing(s.track) then 1 else 0;
      if Playing(s.track) { TimesFirst(s.track.left, ch); }
      ReadSplit(ch, u, s.supply, n - 1, m);
      var o := Read(ch, u, s.supply, n - 1);
      BeforeTwice(Sound(ch, s.track), d, s.drops, o.out, o.decoded, o.drops, Read(ch, o.track, o.supply, m));
    }
  }

  lemma SameStart(a: seq<real>, b: seq<real>, c: seq<real>)
    requires b <= c
    ensures a + b <= a + c
  {
  }

  /** A read that does not panic does not panic earlier either, and starts with what is read until then. */
  lemma {:induction false} ReadShorter(ch: nat, t: Track, supply: seq<Packet>, n: nat, m: nat)
    requires AllProper(ch, supply) && Shaped(ch, t) && n <= m && Read(ch, t, supply, m).ok
    ensures Read(ch, t, supply, n).ok && Read(ch, t, supply, n).out <= Read(ch, t, supply, m).out
    decreases n
  {
    if n > 0 {
      var s := Settle(ch, t, supply);
      SettleShaped(ch, t, supply);
      if Playing(s.track) { TimesFirst(s.track.left, ch); }
      var u := Advance(ch, s.track);
      ReadShorter(ch, u, s.supply, n - 1, m - 1);
      SameStart(Sound(ch, s.track), Read(ch, u, s.supply, n - 1).out, Read(ch, u, s.supply, m - 1).out);
    }
  }

  /** When all packets are played, only silence follows. */
  lemma {:induction false} ReadLonger(ch: nat, t: Track, supply: seq<Packet>, n: nat, m: nat)
    requires AllProper(ch, supply) && Shaped(ch, t)
    requires var o := Read(ch, t, supply, n); o.ok && o.supply == [] && Idle(o.track)
    ensures var o, r := Read(ch, t, supply, n), Read(ch, t, supply, n + m);
            r.ok && r.out == o.out + Silence(Times(m, ch))
    decreases n
  {
    if n == 0 {
      MissRun(ch, t, m);
    } else {
      var s := Settle(ch, t, supply);
      SettleShaped(ch, t, supply);
      if Playing(s.track) { TimesFirst(s.track.left, ch); }
      var u := Advance(ch, s.track);
      ReadLonger(ch, u, s.supply, n - 1, m);
      Regroup(Sound(ch, s.track), Read(ch, u, s.supply, n - 1).out, Silence(Times(m, ch)));
    }
  }

  lemma Regroup(a: seq<real>, b: seq<real>, c: seq<real>)
    ensures a + (b + c) == a + b + c
  {
  }

  /** A read of `n` groups gives that many. */
  lemma {:induction false} ReadLength(ch: nat, t: Track, supply: seq<Packet>, n: nat)
    requires AllProper(ch, supply) && Shaped(ch, t) && Read(ch, t, supply, n).ok
    ensures |Read(ch, t, supply, n).out| == Times(n, ch)
    decreases n
  {
    if n > 0 {
      var s := Settle(ch, t, supply);
      SettleShaped(ch, t, supply);
      if Playing(s.track) { TimesFirst(s.track.left, ch); }
      ReadLength(ch, Advance(ch, s.track), s.supply, n - 1);
    }
  }

  /** From `t` to `u` in `n` ticks of waiting for the current packet and `m` ticks of playing it, with output `out`. */
  ghost predicate Passed(ch: nat, t: Track, n: nat, m: nat, u: Track, out: seq<real>) {
    && Shaped(ch, t) && t.pos + n <= t.at && m <= t.left && (m > 0 ==> t.pos + n == t.at)
    && Times(m, ch) <= |t.rest| && out == Silence(Times(n, ch)) + t.rest[..Times(m, ch)]
    && u == if m == 0 then t.(pos := t.pos + n) else Played(ch, t.(pos := t.pos + n), m)
  }

  lemma PassedRead(ch: nat, t: Track, s: seq<Packet>, n: nat, m: nat, more: nat, total: nat, u: Track, out: seq<real>,
                   r: Outcome)
    requires AllProper(ch, s) && Passed(ch, t, n, m, u, out) && total == n + m + more && Shaped(ch, u)
    requires r == Read(ch, u, s, more)
    ensures Read(ch, t, s, total) == Before(out, m, 0, r)
  {
    var v := t.(pos := t.pos + n);
    GapRun(ch, t, s, n, m + more, v);
    assert n + (m + more) == total;
    if m == 0 {
      assert out == Silence(Times(n, ch));
    } else {
      PlayRun(ch, v, s, m, more, u);
      Chain(Read(ch, t, s, total), Silence(Times(n, ch)), 0, Read(ch, v, s, m + more), t.rest[..Times(m, ch)], m, r,
            out);
    }
  }

  lemma MissRead(ch: nat, t: Track, n: nat, u: Track, r: Outcome)
    requires Shaped(ch, t) && Idle(t) && u == t.(pos := t.pos + n, at := t.at + n) && Shaped(ch, u)
    requires r == Read(ch, u, [], 0)
    ensures Read(ch, t, [], n) == Before(Silence(Times(n, ch)), 0, 0, r)
  {
    MissRun(ch, t, n);
  }

  lemma FetchedOutcome(r: Outcome, d: nat, q: Outcome, out: seq<real>, m: nat, o: Outcome)
    requires r == Before([], 0, d, q) && q == Before(out, m, 0, o)
    ensures r == Before(out, m, d, o)
  {
    BeforeTwice([], 0, d, out, m, 0, o);
    assert [] + out == out;
  }

  /** Taking packets and then passing some ticks. */
  lemma FetchedRead(ch: nat, t: Track, s: seq<Packet>, d: nat, t': Track, s': seq<Packet>, k: nat, out: seq<real>,
                    m: nat, o: Outcome)
    requires k > 0 && AllProper(ch, s) && Shaped(ch, t) && AllProper(ch, s') && Shaped(ch, t')
    requires Settle(ch, t, s) == Before([], 0, d, Settle(ch, t', s')) && Read(ch, t', s', k) == Before(out, m, 0, o)
    ensures Read(ch, t, s, k) == Before(out, m, d, o)
  {
    ReadAfterFetch(ch, t, s, d, t', s', k);
    FetchedOutcome(Read(ch, t, s, k), d, Read(ch, t', s', k), out, m, o);
  }

  /** A fault while taking packets is a fault of the read. */
  lemma FaultyRead(ch: nat, t: Track, s: seq<Packet>, k: nat)
    requires k > 0 && AllProper(ch, s) && Shaped(ch, t) && !Settle(ch, t, s).ok
    ensures !Read(ch, t, s, k).ok
  {
  }
}
