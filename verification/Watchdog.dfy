/** Detecting a stream that is blank or choppy for too long, as watchdog.cpp does. */
module Watchdog {
  import opened Octets
  import opened StreamUnits

  datatype Flags = Flags(nonblank: bool, incomplete: bool, drops: bool)

  const NONE := Flags(false, false, false)

  function Union(a: Flags, b: Flags): Flags {
    Flags(a.nonblank || b.nonblank, a.incomplete || b.incomplete, a.drops || b.drops)
  }

  /** A frame's length per channel and its flags. */
  datatype Frame = Frame(len: nat, flags: Flags)

  datatype Config = Config(maxBlank: Timestamp, maxDrops: Timestamp, window: Timestamp)

  /** Windows are not empty and not longer than the timeout. */
  predicate ValidConfig(c: Config) {
    c.maxDrops != 0 ==> 0 < c.window <= c.maxDrops
  }

  // ----- what the timeouts mean, on the whole history of frames

  function Init<T>(h: seq<T>): seq<T>
    requires h != []
  {
    h[..|h| - 1]
  }

  function Last<T>(h: seq<T>): T
    requires h != []
  {
    h[|h| - 1]
  }

  function Pos(h: seq<Frame>): nat {
    if h == [] then 0 else Pos(Init(h)) + Last(h).len
  }

  /** How long every frame has been blank. */
  function BlankRun(h: seq<Frame>): nat {
    if h == [] || Last(h).flags.nonblank then 0 else BlankRun(Init(h)) + Last(h).len
  }

  /** Where the window of a position starts. */
  function WindowStart(w: nat, p: nat): (s: nat)
    requires w > 0
  {
    p / w * w
  }

  /** A frame from `start` to `end` overlaps the window that starts at `s`. */
  predicate Overlaps(w: nat, start: nat, end: nat, s: nat) {
    start < s + w && s < end
  }

  /** The flags of all frames that overlap the window that starts at `s`. */
  function WindowFlags(w: nat, h: seq<Frame>, s: nat): Flags {
    if h == [] then NONE
    else Union(WindowFlags(w, Init(h), s), if Overlaps(w, Pos(Init(h)), Pos(h), s) then Last(h).flags else NONE)
  }

  /** A window is bad if it overlapped both a drop and an incomplete frame. */
  predicate Bad(f: Flags) {
    f.incomplete && f.drops
  }

  /** The last frame completes the window in which it starts. */
  predicate Completes(w: nat, h: seq<Frame>)
    requires h != [] && w > 0
  {
    WindowStart(w, Pos(Init(h))) + w <= Pos(h)
  }

  /** Where the frame ends that completed the last window that was not bad. */
  function CleanEnd(w: nat, h: seq<Frame>): nat
    requires w > 0
  {
    if h == [] then 0
    else if Completes(w, h) && !Bad(WindowFlags(w, h, WindowStart(w, Pos(Init(h))))) then Pos(h)
    else CleanEnd(w, Init(h))
  }

  /** Positions have not wrapped, or windows stay where they are when positions wrap. */
  predicate Aligned(w: nat, p: nat)
    requires w > 0
  {
    p < RANGE || RANGE % w == 0
  }

  /** Frames are not empty and not longer than a window, windows are below 2^31, and wrapping does not move them. */
  predicate Tame(w: nat, h: seq<Frame>) {
    0 < w < HALF && Aligned(w, Pos(h)) && forall i :: 0 <= i < |h| ==> 0 < h[i].len <= w
  }

  // ----- arithmetic

  /** The wrapping blank test is right unless the sum wraps to below the limit. */
  lemma BlankTestRight(b: nat, f: nat, limit: nat)
    requires b < limit < RANGE
    ensures ((b + f) % RANGE < limit <==> b + f < limit) <==> (b + f < RANGE || (b + f) % RANGE >= limit)
    ensures f <= RANGE - limit ==> ((b + f) % RANGE < limit <==> b + f < limit)
  {
    if b + f < RANGE { ModIs(b + f, RANGE, 0, b + f); }
  }

  /** One blank frame of 2^32 samples goes unnoticed. */
  lemma BlankTestCanFail()
    ensures var h := [Frame(0x1_0000_0000, NONE)]; BlankRun(h) >= HALF && BlankRun(h) % RANGE < HALF
  {
    var h := [Frame(0x1_0000_0000, NONE)];
    assert Init(h) == [];
  }

  /** Where a position lies in its window. */
  lemma WindowOf(p: nat, w: nat)
    requires w > 0
    ensures WindowStart(w, p) <= p < WindowStart(w, p) + w && (p % w == 0 <==> p == WindowStart(w, p))
  {
  }

  /** The window of a position up to a window's length further. */
  lemma NextWindow(p: nat, q: nat, w: nat)
    requires w > 0 && p <= q <= p + w
    ensures WindowStart(w, q) == if WindowStart(w, p) + w <= q then WindowStart(w, p) + w else WindowStart(w, p)
  {
    WindowOf(p, w);
    var j := p / w;
    assert (j + 1) * w == j * w + w;
    if WindowStart(w, p) + w <= q { ModIs(q, w, j + 1, q - j * w - w); } else { ModIs(q, w, j, q - j * w); }
  }

  // ----- window flags

  /** No frame reaches a window that has not begun. */
  lemma {:induction false} NotBegun(w: nat, h: seq<Frame>, s: nat)
    requires Pos(h) <= s
    ensures WindowFlags(w, h, s) == NONE
  {
    if h != [] {
      NotBegun(w, Init(h), s);
    }
  }

  /** The flags of the window in which the next frame will start. */
  function CurrentFlags(w: nat, h: seq<Frame>): Flags
    requires w > 0
  {
    WindowFlags(w, h, WindowStart(w, Pos(h)))
  }

  /** What one frame does to the current window. */
  lemma NextFlags(w: nat, h: seq<Frame>)
    requires h != [] && Tame(w, h)
    ensures var f := Union(CurrentFlags(w, Init(h)), Last(h).flags);
            && WindowFlags(w, h, WindowStart(w, Pos(Init(h)))) == f
            && CurrentFlags(w, h) == if !Completes(w, h) then f else if Pos(h) % w == 0 then NONE else Last(h).flags
  {
    var p, q := Pos(Init(h)), Pos(h);
    assert Last(h) == h[|h| - 1];
    WindowOf(p, w);
    WindowOf(q, w);
    NextWindow(p, q, w);
    if Completes(w, h) {
      NotBegun(w, Init(h), WindowStart(w, q));
    }
  }

  /** The 32-bit test for the end of a window: the signed difference is not positive. */
  predicate PastEnd(windowEnd: Timestamp, pos: Timestamp) {
    (windowEnd - pos + HALF) % RANGE - HALF <= 0
  }

  /** The 32-bit window test for a frame from `p` to `q`, with the window's end `e` and its 32-bit form. */
  lemma WindowTest(w: nat, p: nat, q: nat, e: nat, windowEnd: Timestamp)
    requires 0 < w < HALF && p < q <= p + w && p < e <= p + w && (windowEnd - e) % RANGE == 0
    ensures PastEnd(windowEnd, q % RANGE) <==> e <= q
  {
    var k, j := (windowEnd - e) / RANGE, q / RANGE;
    assert windowEnd - e == k * RANGE && q == j * RANGE + q % RANGE;
    ModIs(windowEnd - q % RANGE + HALF, RANGE, k + j, e - q + HALF);
  }

  /** Unless wrapping moves windows, a 32-bit position lies in its window where the whole position does. */
  lemma SameWindow(w: nat, p: nat)
    requires w > 0 && Aligned(w, p)
    ensures (p % RANGE) % w == p % w && WindowStart(w, p % RANGE) - p % RANGE == WindowStart(w, p) - p
  {
    WindowIs(w, p);
    WindowIs(w, p % RANGE);
    if p < RANGE {
      ModIs(p, RANGE, 0, p);
    } else {
      SameRest(p, RANGE, w);
    }
  }

  lemma WindowIs(w: nat, p: nat)
    requires w > 0
    ensures WindowStart(w, p) == p - p % w
  {
    assert p == p / w * w + p % w;
  }

  lemma SameRest(p: nat, m: nat, w: nat)
    requires m > 0 && w > 0 && m % w == 0
    ensures p % m % w == p % w
  {
    var k := m / w;
    assert m == k * w;
    assert k > 0;
    ModMod(p, w, k);
    assert w * k == m;
  }

  /** Windows of all 32-bit positions are windows of the stream exactly if their length divides 2^32. */
  lemma WindowsStayIff(w: nat)
    requires w > 0
    ensures (forall p: nat :: (p % RANGE) % w == p % w) <==> RANGE % w == 0
  {
    if RANGE % w == 0 {
      forall p: nat
        ensures (p % RANGE) % w == p % w
      {
        SameRest(p, RANGE, w);
      }
    } else {
      ModIs(RANGE, RANGE, 1, 0);
      ModIs(0, w, 0, 0);
      assert (RANGE % RANGE) % w != RANGE % w;
    }
  }

  lemma {:induction false} CleanEndWithin(w: nat, h: seq<Frame>)
    requires w > 0
    ensures CleanEnd(w, h) <= Pos(h)
  {
    if h != [] {
      CleanEndWithin(w, Init(h));
    }
  }

  /** Every window completed by a frame that ends later was bad. */
  lemma {:induction false} BadSinceCleanEnd(w: nat, h: seq<Frame>, i: nat)
    requires 0 < i <= |h| && w > 0 && Completes(w, h[..i]) && Pos(h[..i]) > CleanEnd(w, h)
    ensures Bad(WindowFlags(w, h[..i], WindowStart(w, Pos(Init(h[..i])))))
    decreases |h|
  {
    if i < |h| {
      assert Init(h)[..i] == h[..i];
      CleanEndWithin(w, h);
      PosMono(h, i);
      BadSinceCleanEnd(w, Init(h), i);
    } else {
      assert h[..i] == h;
    }
  }

  lemma {:induction false} PosMono(h: seq<Frame>, i: nat)
    requires i <= |h|
    ensures Pos(h[..i]) <= Pos(h)
    decreases |h|
  {
    if i < |h| {
      assert Init(h)[..i] == h[..i];
      PosMono(Init(h), i);
    } else {
      assert h[..i] == h;
    }
  }

  // ----- the verdict

  predicate BlankOk(c: Config, h: seq<Frame>) {
    c.maxBlank == 0 || BlankRun(h) < c.maxBlank
  }

  predicate DropsOk(c: Config, h: seq<Frame>)
    requires ValidConfig(c)
  {
    c.maxDrops == 0 || Pos(h) - CleanEnd(c.window, h) < c.maxDrops
  }

  /** The stream was never blank for too long, and never choppy for too long. */
  predicate AliveAfter(c: Config, h: seq<Frame>)
    requires ValidConfig(c)
  {
    h == [] || (AliveAfter(c, Init(h)) && BlankOk(c, h) && DropsOk(c, h))
  }

  /** No frame is so long that a blank run could wrap unseen; the run as a whole may. */
  predicate ShortFrames(c: Config, h: seq<Frame>) {
    c.maxBlank != 0 ==> forall i :: 0 <= i < |h| ==> h[i].len <= RANGE - c.maxBlank
  }

  /** No window is so long that a choppy run could wrap unseen. */
  predicate ShortWindows(c: Config, h: seq<Frame>) {
    Pos(h) < RANGE || c.window <= RANGE - c.maxDrops
  }

  /** Runs in which no wrapping is visible to the tests. */
  predicate Exact(c: Config, h: seq<Frame>) {
    ShortFrames(c, h) && (c.maxDrops != 0 ==> Tame(c.window, h) && ShortWindows(c, h))
  }

  lemma ShortInit(c: Config, h: seq<Frame>)
    requires h != [] && ShortFrames(c, h)
    ensures ShortFrames(c, Init(h))
  {
  }

  lemma ExactInit(c: Config, h: seq<Frame>)
    requires h != [] && Exact(c, h)
    ensures Exact(c, Init(h))
  {
    if c.maxDrops != 0 { TameInit(c.window, h); }
    PosMono(h, |h| - 1);
  }

  lemma TameInit(w: nat, h: seq<Frame>)
    requires h != [] && Tame(w, h)
    ensures Tame(w, Init(h)) && 0 < Last(h).len <= w
  {
    PosMono(h, |h| - 1);
  }

  /** The blank test on 32-bit positions. */
  predicate BlankTest(c: Config, curr: Timestamp, mark: Timestamp) {
    c.maxBlank == 0 || (curr - mark) % RANGE < c.maxBlank
  }

  predicate DropsTest(c: Config, curr: Timestamp, mark: Timestamp) {
    c.maxDrops == 0 || (curr - mark) % RANGE < c.maxDrops
  }

  /** With short frames, the blank test says whether the stream was blank for too long, also past 2^32 samples. */
  lemma BlankTestExact(c: Config, h: seq<Frame>, curr: Timestamp, mark: Timestamp)
    requires h != [] && ShortFrames(c, h) && (Init(h) == [] || BlankOk(c, Init(h)))
    requires c.maxBlank != 0 ==> (curr - mark) % RANGE == BlankRun(h) % RANGE
    ensures BlankTest(c, curr, mark) == BlankOk(c, h)
  {
    if c.maxBlank != 0 && !Last(h).flags.nonblank {
      assert BlankRun(Init(h)) < c.maxBlank && h[|h| - 1].len <= RANGE - c.maxBlank;
      BlankTestRight(BlankRun(Init(h)), Last(h).len, c.maxBlank);
    }
  }

  /** In a tame run, the drops test says whether the stream was choppy for too long, also past 2^32 samples. */
  lemma DropsTestExact(c: Config, h: seq<Frame>, curr: Timestamp, mark: Timestamp)
    requires ValidConfig(c) && h != [] && Exact(c, h) && curr == Pos(h) % RANGE && AliveAfter(c, Init(h))
    requires c.maxDrops != 0 ==> mark == CleanEnd(c.window, h) % RANGE
    ensures DropsTest(c, curr, mark) == DropsOk(c, h)
  {
    if c.maxDrops != 0 {
      ChoppyRun(c, h);
      WrappedTest(Pos(h), CleanEnd(c.window, h), curr, mark);
    }
  }

  lemma WrappedTest(a: nat, b: nat, curr: int, mark: int)
    requires curr == a % RANGE && mark == b % RANGE && 0 <= a - b < RANGE
    ensures (curr - mark) % RANGE == a - b
  {
    WrappedDiff(a, b);
    ModIs(a - b, RANGE, 0, a - b);
  }

  lemma WrappedDiff(a: nat, b: nat)
    ensures (a % RANGE - b % RANGE) % RANGE == (a - b) % RANGE
  {
    var q, r := (a - b) / RANGE, (a - b) % RANGE;
    assert a - b == q * RANGE + r && a == a / RANGE * RANGE + a % RANGE && b == b / RANGE * RANGE + b % RANGE;
    ModIs(a % RANGE - b % RANGE, RANGE, q - a / RANGE + b / RANGE, r);
  }

  /** How long the stream has been choppy does not wrap. */
  lemma ChoppyRun(c: Config, h: seq<Frame>)
    requires ValidConfig(c) && c.maxDrops != 0 && h != [] && Exact(c, h) && AliveAfter(c, Init(h))
    ensures 0 <= Pos(h) - CleanEnd(c.window, h) < RANGE
  {
    CleanEndWithin(c.window, h);
    CleanEndWithin(c.window, Init(h));
    TameInit(c.window, h);
  }

  lemma Append(h: seq<Frame>, f: Frame)
    ensures h + [f] != [] && Init(h + [f]) == h && Last(h + [f]) == f && Pos(h + [f]) == Pos(h) + f.len
  {
    assert Init(h + [f]) == h;
  }

  lemma WrapDiff(a: int, b: int, n: int)
    ensures ((a + n) % RANGE - b) % RANGE == ((a - b) % RANGE + n) % RANGE
  {
    var q1, q2 := (a + n) / RANGE, (a - b) / RANGE;
    var r1, r2 := (a + n) % RANGE, (a - b) % RANGE;
    assert a + n == q1 * RANGE + r1 && a - b == q2 * RANGE + r2;
    var q3, r3 := (r2 + n) / RANGE, (r2 + n) % RANGE;
    assert r2 + n == q3 * RANGE + r3;
    ModIs(r1 - b, RANGE, q2 + q3 - q1, r3);
  }

  /** The flags of the window being read, and the position at which the last clean window ended. */
  datatype Marks = Marks(flags: Flags, mark: Timestamp)

  /** The marks after a frame from `curr` to `next`, on 32-bit positions. */
  function NextMarks(w: nat, curr: Timestamp, next: Timestamp, flags: Flags, m: Marks): Marks
    requires w > 0
  {
    var f := Union(m.flags, flags);
    if !PastEnd((WindowStart(w, curr) + w) % RANGE, next) then m.(flags := f)
    else Marks(if next % w == 0 then NONE else flags, if Bad(f) then m.mark else next)
  }

  /** The marks after a whole history. */
  function MarksOf(w: nat, h: seq<Frame>): Marks
    requires w > 0
  {
    if h == [] then Marks(NONE, 0)
    else NextMarks(w, Pos(Init(h)) % RANGE, Pos(h) % RANGE, Last(h).flags, MarksOf(w, Init(h)))
  }

  /** In a tame run the marks are the flags of the current window and the end of the last clean one. */
  lemma {:induction false} MarksMeaning(w: nat, h: seq<Frame>)
    requires Tame(w, h)
    ensures MarksOf(w, h) == Marks(CurrentFlags(w, h), CleanEnd(w, h) % RANGE)
  {
    if h != [] {
      TameInit(w, h);
      MarksMeaning(w, Init(h));
      WindowPast(w, Pos(Init(h)), Pos(h), Pos(Init(h)) % RANGE);
      SameWindow(w, Pos(h));
      NextFlags(w, h);
    }
  }

  /** What the two tests say of a history, frame by frame. */
  predicate Verdict(c: Config, h: seq<Frame>)
    requires ValidConfig(c)
  {
    h == [] ||
    (&& Verdict(c, Init(h))
     && (c.maxBlank == 0 || BlankRun(h) % RANGE < c.maxBlank)
     && (c.maxDrops == 0 || DropsTest(c, Pos(h) % RANGE, MarksOf(c.window, h).mark)))
  }

  lemma MarksNext(w: nat, h: seq<Frame>, f: Frame, curr: Timestamp, next: Timestamp, m: Marks)
    requires w > 0 && curr == Pos(h) % RANGE && next == (curr + f.len) % RANGE
    requires m == NextMarks(w, curr, next, f.flags, MarksOf(w, h))
    ensures Pos(h + [f]) % RANGE == next && MarksOf(w, h + [f]) == m
  {
    Append(h, f);
    WrapAdd(Pos(h), f.len, RANGE);
  }

  lemma VerdictNext(c: Config, h: seq<Frame>, next: Timestamp, blankMark: Timestamp, dropsMark: Timestamp)
    requires ValidConfig(c) && h != [] && Verdict(c, Init(h)) && next == Pos(h) % RANGE
    requires c.maxBlank != 0 ==> (next - blankMark) % RANGE == BlankRun(h) % RANGE
    requires c.maxDrops != 0 ==> dropsMark == MarksOf(c.window, h).mark
    ensures Verdict(c, h) == (BlankTest(c, next, blankMark) && DropsTest(c, next, dropsMark))
  {
  }

  /** With short frames, a stream that passes was never blank for too long, also past 2^32 samples. */
  lemma {:induction false} VerdictBlank(c: Config, h: seq<Frame>)
    requires ValidConfig(c) && ShortFrames(c, h) && Verdict(c, h)
    ensures BlankOk(c, h)
  {
    if h != [] {
      ShortInit(c, h);
      VerdictBlank(c, Init(h));
      BlankVerdict(c, h);
    }
  }

  lemma BlankVerdict(c: Config, h: seq<Frame>)
    requires h != [] && ShortFrames(c, h) && BlankOk(c, Init(h))
    ensures (c.maxBlank == 0 || BlankRun(h) % RANGE < c.maxBlank) == BlankOk(c, h)
  {
    var b := BlankRun(h) % RANGE;
    ModIs(b, RANGE, 0, b);
    BlankTestExact(c, h, b, 0);
  }

  /** In runs in which no wrapping is visible, the verdict is right. */
  lemma {:induction false} VerdictExact(c: Config, h: seq<Frame>)
    requires ValidConfig(c) && Exact(c, h)
    ensures Verdict(c, h) == AliveAfter(c, h)
  {
    if h != [] {
      ExactInit(c, h);
      VerdictExact(c, Init(h));
      if AliveAfter(c, Init(h)) {
        if c.maxDrops != 0 { MarksMeaning(c.window, h); }
        var mark := if c.maxDrops == 0 then 0 else MarksOf(c.window, h).mark;
        BlankVerdict(c, h);
        DropsTestExact(c, h, Pos(h) % RANGE, mark);
      }
    }
  }

  // ----- windows that move at a wrap

  const INCOMPLETE := Flags(true, true, false)
  const DROPPED := Flags(true, false, true)

  /** Frames of three samples that are incomplete and follow a drop in turns; no window of three is both. */
  function InTurns(n: nat): seq<Frame> {
    if n == 0 then [] else InTurns(n - 1) + [Frame(3, if n % 2 == 0 then INCOMPLETE else DROPPED)]
  }

  lemma {:induction false} InTurnsIs(n: nat)
    ensures Pos(InTurns(n)) == 3 * n && CleanEnd(3, InTurns(n)) == 3 * n
    ensures forall i :: 0 <= i < |InTurns(n)| ==> InTurns(n)[i].len == 3
  {
    if n > 0 {
      var h := InTurns(n);
      InTurnsIs(n - 1);
      assert Init(h) == InTurns(n - 1);
      ModIs(3 * (n - 1), 3, n - 1, 0);
      NotBegun(3, Init(h), 3 * (n - 1));
    }
  }

  lemma {:induction false} InTurnsLive(c: Config, n: nat)
    requires c == Config(0, 3, 3)
    ensures AliveAfter(c, InTurns(n))
  {
    InTurnsIs(n);
    if n > 0 {
      InTurnsLive(c, n - 1);
      assert Init(InTurns(n)) == InTurns(n - 1);
    }
  }

  lemma InTurnsMarks(n: nat)
    requires 3 * n < RANGE
    ensures MarksOf(3, InTurns(n)) == Marks(NONE, 3 * n)
  {
    var h := InTurns(n);
    InTurnsIs(n);
    MarksMeaning(3, h);
    ModIs(3 * n, 3, n, 0);
    NotBegun(3, h, 3 * n);
    ModIs(3 * n, RANGE, 0, 3 * n);
  }

  lemma InTurnsLast(n: nat)
    requires n > 0
    ensures InTurns(n) != [] && Init(InTurns(n)) == InTurns(n - 1)
    ensures Last(InTurns(n)).flags == if n % 2 == 0 then INCOMPLETE else DROPPED
  {
  }

  /** The marks after the frame in which positions wrap. */
  lemma MarksAtWrap(k: nat, h: seq<Frame>)
    requires 3 * k + 1 == RANGE && h == InTurns(k + 1)
    ensures h != [] && MarksOf(3, h) == Marks(Last(h).flags, 2) && Pos(h) % RANGE == 2
  {
    InTurnsIs(k);
    InTurnsIs(k + 1);
    InTurnsMarks(k);
    InTurnsLast(k + 1);
    ModIs(3 * k, RANGE, 0, RANGE - 1);
    ModIs(3 * (k + 1), RANGE, 1, 2);
    MovedSteps(Last(h).flags, NONE);
  }

  /** The next frame ends a window that is not one of the stream, and that is bad. */
  lemma MarksAfterWrap(k: nat, h: seq<Frame>, h': seq<Frame>)
    requires 3 * k + 1 == RANGE && h == InTurns(k + 1) && h' == InTurns(k + 2)
    ensures h' != [] && Init(h') == h && MarksOf(3, h').mark == 2 && Pos(h') % RANGE == 5
  {
    MarksAtWrap(k, h);
    InTurnsIs(k + 2);
    InTurnsLast(k + 1);
    InTurnsLast(k + 2);
    ModIs(3 * (k + 2), RANGE, 1, 5);
    MovedSteps(Last(h).flags, Last(h').flags);
  }

  lemma MovedSteps(f: Flags, f': Flags)
    requires !Bad(f)
    ensures NextMarks(3, RANGE - 1, 2, f, Marks(NONE, RANGE - 1)) == Marks(f, 2)
    ensures Bad(Union(f, f')) ==> NextMarks(3, 2, 5, f', Marks(f, 2)).mark == 2
  {
  }

  /**
   * Windows of three samples move when positions wrap. A stream in which no window is bad is then found choppy, with a
   * timeout of one window.
   */
  lemma DropsTestCanFail() returns (c: Config, h: seq<Frame>)
    ensures ValidConfig(c) && c.maxBlank == 0 && AliveAfter(c, h) && !Verdict(c, h)
  {
    c := Config(0, 3, 3);
    var k := RANGE / 3;
    assert 3 * k + 1 == RANGE;
    h := InTurns(k + 2);
    InTurnsLive(c, k + 2);
    MarksAfterWrap(k, InTurns(k + 1), h);
  }

  /** The 32-bit test says whether the frame from `p` to `q` completes its window. */
  lemma WindowPast(w: nat, p: nat, q: nat, curr: Timestamp)
    requires 0 < w < HALF && Aligned(w, p) && p < q <= p + w && curr == p % RANGE
    ensures PastEnd((WindowStart(w, curr) + w) % RANGE, q % RANGE) <==> WindowStart(w, p) + w <= q
  {
    var e, d := WindowStart(w, p) + w, WindowStart(w, curr) + w;
    WindowOf(p, w);
    SameWindow(w, p);
    var j, i := p / RANGE, d / RANGE;
    assert p == j * RANGE + curr && d == i * RANGE + d % RANGE;
    ModIs(d % RANGE - e, RANGE, -i - j, 0);
    WindowTest(w, p, q, e, d % RANGE);
  }

  class Watchdog {
    const config: Config
    var currReadPos: Timestamp
    var lastPosBeforeBlank: Timestamp
    var lastPosBeforeDrops: Timestamp
    var currWindowFlags: Flags
    var alive: bool
    /** The frames read while alive. */
    ghost var history: seq<Frame>

    ghost predicate Valid()
      reads this
    {
      && ValidConfig(config) && currReadPos == Pos(history) % RANGE
      && (config.maxBlank != 0 ==> (currReadPos - lastPosBeforeBlank) % RANGE == BlankRun(history) % RANGE)
      && (config.maxDrops != 0 ==> Marks(currWindowFlags, lastPosBeforeDrops) == MarksOf(config.window, history))
      && alive == Verdict(config, history)
    }

    constructor (config: Config)
      requires ValidConfig(config)
      ensures Valid() && alive && history == [] && this.config == config
    {
      this.config := config;
      currReadPos, lastPosBeforeBlank, lastPosBeforeDrops, currWindowFlags, alive := 0, 0, 0, NONE, true;
      history := [];
    }

    method UpdateBlankTimeout(frame: Frame, nextReadPos: Timestamp)
      requires Valid() && nextReadPos == (currReadPos + frame.len) % RANGE
      modifies this`lastPosBeforeBlank
      ensures config.maxBlank != 0 ==> (nextReadPos - lastPosBeforeBlank) % RANGE == BlankRun(history + [frame]) % RANGE
    {
      Append(history, frame);
      WrapDiff(currReadPos, lastPosBeforeBlank, frame.len);
      WrapAdd(BlankRun(history), frame.len, RANGE);
      if config.maxBlank == 0 {
        return;
      }
      if frame.flags.nonblank {
        lastPosBeforeBlank := nextReadPos;
      }
    }

    method UpdateDropsTimeout(frame: Frame, nextReadPos: Timestamp)
      requires ValidConfig(config)
      modifies this`currWindowFlags, this`lastPosBeforeDrops
      ensures config.maxDrops != 0 ==>
                Marks(currWindowFlags, lastPosBeforeDrops)
                == NextMarks(config.window, currReadPos, nextReadPos, frame.flags,
                             old(Marks(currWindowFlags, lastPosBeforeDrops)))
    {
      if config.maxDrops == 0 {
        return;
      }
      currWindowFlags := Union(currWindowFlags, frame.flags);
      var windowStart := WindowStart(config.window, currReadPos);
      var windowEnd := (windowStart + config.window) % RANGE;
      if PastEnd(windowEnd, nextReadPos) {
        if !Bad(currWindowFlags) {
          lastPosBeforeDrops := nextReadPos;
        }
        currWindowFlags := if nextReadPos % config.window == 0 then NONE else frame.flags;
      }
    }

    /** Both tests. */
    method CheckTimeouts()
      modifies this`alive
      ensures alive == (&& old(alive) && BlankTest(config, currReadPos, lastPosBeforeBlank)
                        && DropsTest(config, currReadPos, lastPosBeforeDrops))
    {
      if !DropsTest(config, currReadPos, lastPosBeforeDrops) {
        alive := false;
      }
      if !BlankTest(config, currReadPos, lastPosBeforeBlank) {
        alive := false;
      }
    }

    /**
     * Reads one frame. A dead watchdog mutes it; otherwise the frame may be the one that exceeds a timeout. With short
     * frames, blankness kills exactly when blank frames have covered the limit, however far the positions have wrapped.
     */
    method Read(frame: Frame) returns (muted: bool)
      requires Valid()
      modifies this
      ensures Valid() && muted == !old(alive) && (muted ==> !alive)
      ensures history == if muted then old(history) else old(history) + [frame]
      ensures !muted && ShortFrames(config, history) ==>
                alive == (BlankOk(config, history) && DropsTest(config, currReadPos, lastPosBeforeDrops))
      ensures !muted ==> alive == ((config.maxBlank == 0 || BlankRun(history) % RANGE < config.maxBlank)
                                   && DropsTest(config, currReadPos, lastPosBeforeDrops))
      ensures Exact(config, history) ==> alive == AliveAfter(config, history)
    {
      muted := !alive;
      if !muted {
        ReadFrame(frame);
        JudgeFrame(frame, old(history));
      }
      if Exact(config, history) { VerdictExact(config, history); }
    }

    method ReadFrame(frame: Frame)
      requires Valid() && alive
      modifies this
      ensures Valid() && history == old(history) + [frame]
      ensures alive == (BlankTest(config, currReadPos, lastPosBeforeBlank)
                        && DropsTest(config, currReadPos, lastPosBeforeDrops))
    {
      ghost var h := history + [frame];
      Append(history, frame);
      WrapAdd(Pos(history), frame.len, RANGE);
      var nextReadPos := (currReadPos + frame.len) % RANGE;
      UpdateBlankTimeout(frame, nextReadPos);
      UpdateDropsTimeout(frame, nextReadPos);
      if config.maxDrops != 0 {
        MarksNext(config.window, history, frame, currReadPos, nextReadPos, Marks(currWindowFlags, lastPosBeforeDrops));
      }
      currReadPos := nextReadPos;
      VerdictNext(config, h, currReadPos, lastPosBeforeBlank, lastPosBeforeDrops);
      CheckTimeouts();
      history := h;
    }

    /** With short frames, the blank test on the last frame is exact. */
    lemma JudgeFrame(frame: Frame, before: seq<Frame>)
      requires Valid() && history == before + [frame] && Verdict(config, before)
      ensures ShortFrames(config, history) ==>
                BlankTest(config, currReadPos, lastPosBeforeBlank) == BlankOk(config, history)
    {
      Append(before, frame);
      if ShortFrames(config, history) {
        ShortInit(config, history);
        VerdictBlank(config, before);
        BlankTestExact(config, history, currReadPos, lastPosBeforeBlank);
      }
    }
  }
}
