/**
 * What a listener should hear: one group of samples per tick of an unbounded clock.
 * Packets are placed on the clock near the current position, and the depacketizer is proved to follow this.
 */
module Timeline {
  import opened Blocks
  import opened StreamUnits

  /** A packet as decoded: its timestamp and `len` groups of samples. */
  datatype Packet = Packet(ts: nat, len: nat, samples: seq<real>)

  /** A packet holds fewer than 2^31 groups. */
  predicate Proper(ch: nat, p: Packet) {
    p.ts < RANGE && p.len < HALF && |p.samples| == Times(p.len, ch)
  }

  predicate AllProper(ch: nat, supply: seq<Packet>) {
    forall i :: 0 <= i < |supply| ==> Proper(ch, supply[i])
  }

  /** An accepted packet: placed at `at` when the clock was at `since`. */
  datatype Entry = Entry(at: int, since: int, len: nat, samples: seq<real>)

  /**
   * The clock, the part of the current packet still to come (`left` groups from clock position `at`), and the
   * accepted packets.
   */
  datatype Track = Track(started: bool, pos: int, at: int, left: nat, rest: seq<real>, log: seq<Entry>)

  const INITIAL := Track(false, 0, 0, 0, [], [])

  predicate Idle(t: Track) {
    t.left == 0 && t.at == t.pos
  }

  /** The clock position nearest to `pos` with timestamp `ts`. */
  function Place(pos: int, ts: nat): int {
    pos + (ts - pos + HALF) % RANGE - HALF
  }

  function Max(x: int, y: int): int {
    if x < y then y else x
  }

  datatype Verdict = Accept | Drop | Fault

  /**
   * A packet is accepted if it ends after the clock, by at most 2^31. The fault is an empty packet exactly 2^31
   * behind.
   */
  function Judge(pos: int, p: Packet): Verdict {
    var end := Place(pos, p.ts) + p.len;
    if pos < end <= pos + HALF then Accept
    else if end == pos - HALF then Fault
    else Drop
  }

  function Started(t: Track, p: Packet): Track {
    Track(true, p.ts, p.ts, p.len, p.samples, t.log + [Entry(p.ts, p.ts, p.len, p.samples)])
  }

  /** The part of an accepted packet that is already past is cut off. */
  function Accepted(ch: nat, t: Track, p: Packet): Track
    requires Proper(ch, p) && Judge(t.pos, p) == Accept
  {
    var at := Place(t.pos, p.ts);
    var skip := Max(at, t.pos) - at;
    TimesAdd(skip, p.len - skip, ch);
    t.(at := at + skip, left := p.len - skip, rest := p.samples[Times(skip, ch)..],
       log := t.log + [Entry(at, t.pos, p.len, p.samples)])
  }

  datatype Outcome = Outcome(track: Track, supply: seq<Packet>, out: seq<real>, decoded: nat, drops: nat, ok: bool)

  /** An outcome with more in front of it. */
  function Before(out: seq<real>, decoded: nat, drops: nat, o: Outcome): Outcome {
    o.(out := out + o.out, decoded := decoded + o.decoded, drops := drops + o.drops)
  }

  /** Takes packets until there is something to wait for or to play. */
  function Settle(ch: nat, t: Track, supply: seq<Packet>): (o: Outcome)
    requires AllProper(ch, supply)
    ensures o.out == [] && o.decoded == 0 && AllProper(ch, o.supply) && |o.supply| <= |supply|
    decreases |supply|
  {
    if !Idle(t) || supply == [] then Outcome(t, supply, [], 0, 0, true)
    else
      var p, more := supply[0], supply[1..];
      if !t.started then Settle(ch, Started(t, p), more)
      else match Judge(t.pos, p)
        case Accept => Outcome(Accepted(ch, t, p), more, [], 0, 0, true)
        case Drop => Before([], 0, 1, Settle(ch, t, more))
        case Fault => Outcome(t, more, [], 0, 0, false)
  }

  function {:tailrecursion false} Silence(n: nat): (r: seq<real>)
    ensures |r| == n
  {
    if n == 0 then [] else [0.0] + Silence(n - 1)
  }

  predicate Playing(t: Track) {
    t.at == t.pos && t.left > 0
  }

  /** One group of samples, or silence. */
  function Sound(ch: nat, t: Track): seq<real>
    requires |t.rest| == Times(t.left, ch)
  {
    if Playing(t) then TimesFirst(t.left, ch); t.rest[..ch] else Silence(ch)
  }

  /** The clock advances by one. */
  function Advance(ch: nat, t: Track): Track
    requires |t.rest| == Times(t.left, ch)
  {
    if Playing(t) then
      TimesFirst(t.left, ch);
      t.(pos := t.pos + 1, at := t.at + 1, left := t.left - 1, rest := t.rest[ch..])
    else t.(pos := t.pos + 1, at := Max(t.at, t.pos + 1))
  }

  predicate Shaped(ch: nat, t: Track) {
    t.at >= t.pos && |t.rest| == Times(t.left, ch)
  }

  lemma {:induction false} SettleShaped(ch: nat, t: Track, supply: seq<Packet>)
    requires AllProper(ch, supply) && Shaped(ch, t)
    ensures Shaped(ch, Settle(ch, t, supply).track)
    decreases |supply|
  {
    if Idle(t) && supply != [] {
      var p, more := supply[0], supply[1..];
      if !t.started {
        SettleShaped(ch, Started(t, p), more);
      } else if Judge(t.pos, p) == Drop {
        SettleShaped(ch, t, more);
      } else if Judge(t.pos, p) == Accept {
        var skip := Max(Place(t.pos, p.ts), t.pos) - Place(t.pos, p.ts);
        TimesAdd(skip, p.len - skip, ch);
      }
    }
  }

  /** The next `n` groups of samples. */
  function Read(ch: nat, t: Track, supply: seq<Packet>, n: nat): (o: Outcome)
    requires AllProper(ch, supply) && Shaped(ch, t)
    ensures Shaped(ch, o.track) && AllProper(ch, o.supply)
    decreases n
  {
    SettleShaped(ch, t, supply);
    if n == 0 then Outcome(t, supply, [], 0, 0, true)
    else
      var s := Settle(ch, t, supply);
      if !s.ok then s
      else
        Before(Sound(ch, s.track), if Playing(s.track) then 1 else 0, s.drops,
               Read(ch, Advance(ch, s.track), s.supply, n - 1))
  }
}
