/** Comparing 32-bit stream timestamps that wrap, as units.h does. */
module StreamTime {
  import opened Octets
  import opened StreamUnits
  import opened Timeline

  /** A difference of timestamps, converted to a signed 32-bit integer. */
  function Diff(a: int, b: int): (d: int)
    ensures -HALF <= d < HALF
  {
    (a - b + HALF) % RANGE - HALF
  }

  /** A timestamp `n` later. */
  function Later(a: nat, n: nat): (r: nat)
    ensures r < RANGE
  {
    (a + n) % RANGE
  }

  predicate Lt(a: int, b: int) {
    Diff(a, b) < 0
  }

  /** A signed value converted to the 64-bit `size_t`. */
  function SizeT(x: int): int {
    if x >= 0 then x else x + 0x1_0000_0000_0000_0000
  }

  /** A difference is known by its residue and its range. */
  lemma DiffIs(a: int, b: int, d: int, k: int)
    requires a - b == d + k * RANGE && -HALF <= d < HALF
    ensures Diff(a, b) == d
  {
    ModIs(a - b + HALF, RANGE, k, d + HALF);
  }

  lemma Residue(x: int) returns (k: int)
    ensures x == x % RANGE + k * RANGE
  {
    k := x / RANGE;
  }

  /** The 32-bit tests on a packet's ends give the verdict of the unbounded clock. */
  lemma VerdictIs(ch: nat, pos: int, p: Packet, now: nat, end: nat)
    requires Proper(ch, p) && now == pos % RANGE && end == (p.ts + p.len) % RANGE
    ensures Lt(now, end) <==> Judge(pos, p) != Drop
  {
    var g := Place(pos, p.ts) - pos;
    var k0 := Residue(pos);
    var k1 := Residue(p.ts + p.len);
    var k2 := Residue(p.ts - pos + HALF);
    var e := g + p.len;
    assert now - end == -e + (k1 - k0 - k2) * RANGE;
    if e == -HALF {
      DiffIs(now, end, -HALF, k1 - k0 - k2 + 1);
    } else if e <= HALF {
      DiffIs(now, end, -e, k1 - k0 - k2);
    } else {
      DiffIs(now, end, RANGE - e, k1 - k0 - k2 - 1);
    }
  }

  /** The distance of a packet from the stream position, both ways. */
  lemma DistanceIs(ch: nat, pos: int, p: Packet, now: nat)
    requires Proper(ch, p) && now == pos % RANGE
    ensures Diff(p.ts, now) == Place(pos, p.ts) - pos
    ensures Place(pos, p.ts) > pos - HALF ==> Diff(now, p.ts) == pos - Place(pos, p.ts)
    ensures Place(pos, p.ts) == pos - HALF ==> Diff(now, p.ts) == -HALF
    ensures Place(pos, p.ts) >= pos ==> (p.ts - now) % RANGE == Place(pos, p.ts) - pos
  {
    var g := Place(pos, p.ts) - pos;
    var k0 := Residue(pos);
    var k2 := Residue(p.ts - pos + HALF);
    assert p.ts - now == g + (k0 + k2) * RANGE;
    DiffIs(p.ts, now, g, k0 + k2);
    if g == -HALF {
      DiffIs(now, p.ts, -HALF, 1 - k0 - k2);
    } else {
      DiffIs(now, p.ts, -g, -k0 - k2);
    }
    if g >= 0 {
      ModIs(p.ts - now, RANGE, k0 + k2, g);
    }
  }

  /** Skipping the past part of a packet brings the decoder to the stream position. */
  lemma SkippedIs(pos: int, ts: nat, skip: nat, now: nat)
    requires now == pos % RANGE && Place(pos, ts) + skip == pos
    ensures ((ts + skip) % RANGE - now) % RANGE == 0
  {
    var k0 := Residue(pos);
    var k1 := Residue(ts + skip);
    var k2 := Residue(ts - pos + HALF);
    assert (ts + skip) % RANGE - now == (k2 - k1 + k0) * RANGE;
    ModIs((ts + skip) % RANGE - now, RANGE, k2 - k1 + k0, 0);
  }

  /** A timestamp less than 2^31 ahead is seen to be ahead, by the right distance. */
  lemma AheadIs(a: nat, b: nat)
    requires a < RANGE && b < RANGE && (a - b) % RANGE < HALF
    ensures Diff(a, b) == (a - b) % RANGE && (a != b ==> 0 < (a - b) % RANGE && Lt(b, a))
  {
    var g, k := (a - b) % RANGE, (a - b) / RANGE;
    assert a - b == g + k * RANGE;
    DiffIs(a, b, g, k);
    DiffIs(b, a, -g, -k);
  }

  /** The stream position moves on by `n`; the decoder, if ahead by `g`, is then ahead by `g - n`. */
  lemma MovedIs(pos: int, now: nat, n: nat, a: nat)
    requires now == pos % RANGE
    ensures (now + n) % RANGE == (pos + n) % RANGE
    ensures n <= (a - now) % RANGE ==> (a - (now + n) % RANGE) % RANGE == (a - now) % RANGE - n
  {
    var k0 := Residue(pos);
    var k1 := Residue(now + n);
    ModIs(pos + n, RANGE, k0 + k1, (now + n) % RANGE);
    var g, k := (a - now) % RANGE, (a - now) / RANGE;
    assert a - now == g + k * RANGE;
    if n <= g {
      ModIs(a - (now + n) % RANGE, RANGE, k + k1, g - n);
    }
  }

  lemma NoGap(a: nat, b: nat)
    requires a < RANGE && b < RANGE && (a - b) % RANGE == 0
    ensures a == b
  {
    var k := (a - b) / RANGE;
    assert a - b == k * RANGE;
    assert k == 0;
  }

  lemma SelfGap(a: int, b: int)
    requires a == b
    ensures (a - b) % RANGE == 0
  {
  }

  /** The stream position moves on by `n`, whether it is counted modulo the range or not. */
  lemma MovedOn(pos: int, now: nat, n: nat)
    requires now == pos % RANGE
    ensures (now + n) % RANGE == (pos + n) % RANGE
  {
    MovedIs(pos, now, n, 0);
  }
}
