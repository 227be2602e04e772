/** Powers of two and little-endian octets. */
module Octets {
  type Byte = b: int | 0 <= b < 256

  function Pow2(n: nat): (r: nat)
    ensures r >= 1
  {
    if n == 0 then 1 else 2 * Pow2(n - 1)
  }

  lemma {:induction false} Pow2Add(m: nat, n: nat)
    ensures Pow2(m + n) == Pow2(m) * Pow2(n)
  {
    if m > 0 {
      Pow2Add(m - 1, n);
      assert m - 1 + n == m + n - 1;
      Doubled(Pow2(m - 1), Pow2(n));
    }
  }

  lemma Doubled(a: nat, b: nat)
    ensures 2 * (a * b) == (2 * a) * b
  {
  }

  lemma {:induction false} Pow2Mono(m: nat, n: nat)
    requires m <= n
    ensures Pow2(m) <= Pow2(n)
  {
    if m < n { Pow2Mono(m, n - 1); }
  }

  /** The `n` low octets of `u`, least significant first. */
  function Split(u: nat, n: nat): (r: seq<Byte>)
    ensures |r| == n
  {
    if n == 0 then [] else [u % 256] + Split(u / 256, n - 1)
  }

  function Join(s: seq<Byte>): nat {
    if s == [] then 0 else s[0] + 256 * Join(s[1..])
  }

  lemma {:induction false} JoinBound(s: seq<Byte>)
    ensures Join(s) < Pow2(8 * |s|)
  {
    if s != [] {
      JoinBound(s[1..]);
      Pow2Add(8, 8 * |s[1..]|);
      assert Pow2(8) == 256 by { assert Pow2(4) == 16; }
      assert 8 + 8 * |s[1..]| == 8 * |s|;
    }
  }

  lemma {:induction false} SplitJoin(s: seq<Byte>)
    ensures Split(Join(s), |s|) == s
  {
    if s != [] {
      SplitJoin(s[1..]);
      assert Join(s) % 256 == s[0] && Join(s) / 256 == Join(s[1..]);
    }
  }

  lemma {:induction false} JoinSplit(u: nat, n: nat)
    ensures Join(Split(u, n)) == u % Pow2(8 * n)
  {
    if n == 0 {
      assert u % 1 == 0;
    } else {
      var r, m := Split(u, n), Pow2(8 * (n - 1));
      assert r[1..] == Split(u / 256, n - 1);
      JoinSplit(u / 256, n - 1);
      assert Pow2(8 * n) == 256 * m by {
        Pow2Add(8, 8 * (n - 1));
        assert Pow2(8) == 256 by { assert Pow2(4) == 16; }
        assert 8 + 8 * (n - 1) == 8 * n;
      }
      ModSplit(u, m);
    }
  }

  lemma ModSplit(u: nat, m: nat)
    requires m > 0
    ensures u % 256 + 256 * (u / 256 % m) == u % (256 * m)
  {
    var q, r := u / 256 / m, u / 256 % m;
    assert u / 256 == q * m + r;
    assert u == 256 * (q * m + r) + u % 256;
    assert u == q * (256 * m) + (256 * r + u % 256) by { assert 256 * (q * m) == q * (256 * m); }
    ModIs(u, 256 * m, q, 256 * r + u % 256);
  }

  /** Quotient and remainder are unique. */
  lemma ModIs(a: int, b: nat, q: int, r: int)
    requires b > 0 && a == q * b + r && 0 <= r < b
    ensures a % b == r && a / b == q
  {
    var q', r' := a / b, a % b;
    assert a == q' * b + r' && 0 <= r' < b;
    var d := q - q';
    assert d * b == q * b - q' * b == r' - r;
    assert d >= 1 ==> d * b >= b;
    assert d <= -1 ==> d * b <= -1 * b;
    assert d == 0;
  }

  lemma WrapAdd(x: nat, k: nat, m: nat)
    requires m > 0
    ensures (x % m + k) % m == (x + k) % m
  {
    var q, r := x / m, x % m;
    assert x == q * m + r;
    var q2, r2 := (r + k) / m, (r + k) % m;
    assert r + k == q2 * m + r2;
    assert (q + q2) * m == q * m + q2 * m;
    ModIs(x + k, m, q + q2, r2);
  }

  lemma DivAtLeast(y: int, t: nat, h: int)
    requires t > 0
    ensures y / t >= h <==> y >= h * t
  {
    var q, r := y / t, y % t;
    assert y == q * t + r && 0 <= r < t;
    assert q >= h ==> q * t >= h * t;
    assert q <= h - 1 ==> q * t <= (h - 1) * t;
    assert (h - 1) * t == h * t - t;
  }

  /** Dividing a residue: the quotient loses a multiple of the cofactor. */
  lemma DivMod(y: int, t: nat, s: nat)
    requires t > 0 && s > 0
    ensures t * s > 0 && y / t == y % (t * s) / t + y / (t * s) * s
  {
    var m := t * s;
    assert m > 0;
    var q, r := y / m, y % m;
    assert y == q * m + r;
    var q2, r2 := r / t, r % t;
    assert r == q2 * t + r2;
    assert q * m == (q * s) * t;
    assert (q * s + q2) * t == (q * s) * t + q2 * t;
    ModIs(y, t, q * s + q2, r2);
  }

  lemma DivModBy(y: int, t: nat, v: nat, k: nat, m: nat) returns (c: int)
    requires t > 0 && v > 0 && k > 0 && m == t * (v * k)
    ensures m > 0 && y / t == y % m / t + c * v
  {
    assert v * k > 0;
    DivMod(y, t, v * k);
    var q := y / m;
    c := q * k;
    assert q * (v * k) == (q * k) * v;
  }

  lemma Distribute(x: int, y: int, k: int)
    ensures (x - y) * k == x * k - y * k
  {
  }

  /** Multiplying keeps a symmetric range. */
  lemma MulRange(x: int, h: nat, k: nat)
    requires 0 <= x + h < 2 * h && k > 0
    ensures 0 <= x * k + h * k < 2 * (h * k)
  {
    Scaled(x + h, 2 * h - 1, k);
    Sums(x, h, k);
    Sums(h, h, k);
    Sums(2 * h - 1, 1, k);
  }

  lemma Scaled(x: nat, y: nat, k: nat)
    requires x <= y
    ensures 0 <= x * k <= y * k
  {
    assert (y - x) * k >= 0;
    assert (y - x) * k == y * k - x * k;
  }

  lemma Sums(x: int, y: int, k: int)
    ensures (x + y) * k == x * k + y * k
  {
  }

  /** Dividing keeps a lower bound. */
  lemma DivRange(y: int, t: nat, g: nat)
    requires t > 0 && 0 <= y + g * t
    ensures 0 <= y / t + g
  {
    DivAtLeast(y, t, 0 - g as int);
    assert (0 - g as int) * t == 0 - g * t;
  }

  /** Only the residue of a value matters modulo a divisor of the modulus. */
  lemma ModMod(a: int, m: nat, k: nat)
    requires m > 0 && k > 0
    ensures a % (m * k) % m == a % m
  {
    assert m * k > 0;
    var q, r := a / (m * k), a % (m * k);
    assert a == q * (m * k) + r;
    var q2, r2 := r / m, r % m;
    assert r == q2 * m + r2;
    assert a == (q * k + q2) * m + r2 by { assert q * (m * k) == (q * k) * m; }
    ModIs(a, m, q * k + q2, r2);
  }
}

/** Integer PCM codes: packing to octets and conversion between codes, as pcm_funcs_gen.py generates them. */
module PcmCodes {
  import opened Octets

  /**
   * A row of the generator's table: `width` significant bits, packed into `packed` bits, held in a C type of
   * `unpacked` bits.
   */
  datatype Code = Code(signed: bool, width: nat, packed: nat, unpacked: nat)

  datatype Endian = Big | Little

  /** The byte-aligned integer codes of the table. */
  const CODES: seq<Code> := [
    Code(true, 8, 8, 8), Code(false, 8, 8, 8), Code(true, 16, 16, 16), Code(false, 16, 16, 16),
    Code(true, 18, 24, 32), Code(false, 18, 24, 32), Code(true, 18, 32, 32), Code(false, 18, 32, 32),
    Code(true, 20, 24, 32), Code(false, 20, 24, 32), Code(true, 20, 32, 32), Code(false, 20, 32, 32),
    Code(true, 24, 24, 32), Code(false, 24, 24, 32), Code(true, 24, 32, 32), Code(false, 24, 32, 32),
    Code(true, 32, 32, 32), Code(false, 32, 32, 32), Code(true, 64, 64, 64), Code(false, 64, 64, 64)]

  /** What all rows have in common. */
  predicate Aligned(c: Code) {
    8 <= c.width <= c.packed <= c.unpacked && c.packed % 8 == 0
  }

  lemma CodesAreAligned(c: Code)
    requires c in CODES
    ensures Aligned(c)
  {
    assert forall i :: 0 <= i < |CODES| ==> Aligned(CODES[i]);
  }

  function Count(c: Code): nat {
    c.packed / 8
  }

  // ----- C integer types

  /** Conversion to an unsigned type of `bits` bits. */
  function UCast(x: int, bits: nat): (r: nat)
    ensures r < Pow2(bits)
  {
    x % Pow2(bits)
  }

  /** Conversion to a two's complement type of `bits` bits. */
  function SCast(x: int, bits: nat): int
    requires bits > 0
  {
    if x % Pow2(bits) < Pow2(bits - 1) then x % Pow2(bits) else x % Pow2(bits) - Pow2(bits)
  }

  /** A sample's value as its own C type sees bit pattern `u`. */
  function Typed(c: Code, u: int): int
    requires Aligned(c)
  {
    if c.signed then SCast(u, c.unpacked) else UCast(u, c.unpacked)
  }

  predicate InRange(c: Code, x: int)
    requires Aligned(c)
  {
    if c.signed then 0 <= x + Pow2(c.width - 1) < Pow2(c.width) else 0 <= x < Pow2(c.width)
  }

  // ----- pack and unpack

  function Ordered(e: Endian, s: seq<Byte>): (r: seq<Byte>)
    ensures |r| == |s|
  {
    if e == Little then s else Reverse(s)
  }

  function Reverse(s: seq<Byte>): (r: seq<Byte>)
    ensures |r| == |s|
  {
    seq(|s|, i requires 0 <= i < |s| => s[|s| - 1 - i])
  }

  lemma OrderedTwice(e: Endian, s: seq<Byte>)
    ensures Ordered(e, Ordered(e, s)) == s
  {
  }

  /** The octets of one sample, padding bits zeroed. */
  function Pack(c: Code, e: Endian, arg: int): (r: seq<Byte>)
    requires Aligned(c)
    ensures |r| == Count(c)
  {
    var u := UCast(arg, c.unpacked);
    var masked := if c.width < c.packed then u % Pow2(c.width) else u;
    Ordered(e, Split(masked, Count(c)))
  }

  /** One sample from its octets. */
  function Unpack(c: Code, e: Endian, octets: seq<Byte>): int
    requires Aligned(c) && |octets| == Count(c)
  {
    Extended(c, Join(Ordered(e, octets)))
  }

  /** Padding bits dropped, sign bit extended. */
  function Extended(c: Code, u: nat): int
    requires Aligned(c)
  {
    var masked := if c.width < c.packed then u % Pow2(c.width) else u;
    var extended :=
      if c.signed && c.width < c.unpacked && masked / Pow2(c.width - 1) % 2 == 1
      then masked + (Pow2(c.unpacked) - Pow2(c.width))
      else masked;
    Typed(c, extended)
  }

  /** The value that the `width` low bits of `x` stand for. */
  function Wrap(c: Code, x: int): (r: int)
    requires Aligned(c)
    ensures InRange(c, r)
  {
    if c.signed then
      assert Pow2(c.width) == 2 * Pow2(c.width - 1);
      SCast(x, c.width)
    else UCast(x, c.width)
  }

  lemma WrapInRange(c: Code, x: int)
    requires Aligned(c) && InRange(c, x)
    ensures Wrap(c, x) == x
  {
    var m := Pow2(c.width);
    assert m == 2 * Pow2(c.width - 1);
    if x < 0 { ModIs(x, m, -1, x + m); } else { ModIs(x, m, 0, x); }
  }

  lemma WrapResidue(c: Code, x: int, y: int)
    requires Aligned(c) && x % Pow2(c.width) == y % Pow2(c.width)
    ensures Wrap(c, x) == Wrap(c, y)
  {
  }

  /** Unpacking any packed bit pattern gives the value of its `width` low bits. */
  lemma UnpackValue(c: Code, e: Endian, octets: seq<Byte>)
    requires Aligned(c) && |octets| == Count(c)
    ensures Unpack(c, e, octets) == Wrap(c, Join(Ordered(e, octets)))
  {
    JoinBound(Ordered(e, octets));
    assert 8 * Count(c) == c.packed;
    ExtendedValue(c, Join(Ordered(e, octets)));
  }

  lemma ExtendedValue(c: Code, u: nat)
    requires Aligned(c) && u < Pow2(c.packed)
    ensures Extended(c, u) == Wrap(c, u)
  {
    var w, h := Pow2(c.width), Pow2(c.width - 1);
    assert w == 2 * h;
    var masked := if c.width < c.packed then u % w else u;
    assert masked == u % w < w by { if c.width == c.packed { ModIs(u, w, 0, u); } }
    SignBit(masked, h);
    UnpackTyped(c, masked);
    ModIs(masked, w, 0, masked);
    WrapResidue(c, masked, u);
  }

  lemma SignBit(m: nat, h: nat)
    requires h > 0 && m < 2 * h
    ensures m / h % 2 == (if m >= h then 1 else 0)
  {
    if m >= h { ModIs(m, h, 1, m - h); } else { ModIs(m, h, 0, m); }
  }

  lemma UnpackTyped(c: Code, m: nat)
    requires Aligned(c) && m < Pow2(c.width)
    ensures Typed(c, if c.signed && c.width < c.unpacked && m >= Pow2(c.width - 1)
                     then m + (Pow2(c.unpacked) - Pow2(c.width)) else m) == Wrap(c, m)
  {
    var w, h, t := Pow2(c.width), Pow2(c.width - 1), Pow2(c.unpacked);
    assert w == 2 * h;
    Pow2Mono(c.width, c.unpacked);
    ModIs(m, w, 0, m);
    ModIs(m, t, 0, m);
    if c.signed && c.width < c.unpacked {
      Pow2Mono(c.width, c.unpacked - 1);
      assert t == 2 * Pow2(c.unpacked - 1);
      if m >= h { ModIs(m + (t - w), t, 0, m + (t - w)); }
    }
  }

  /** Packing keeps the `width` low bits and nothing else. */
  lemma PackValue(c: Code, e: Endian, x: int)
    requires Aligned(c)
    ensures Join(Ordered(e, Pack(c, e, x))) == x % Pow2(if c.width < c.packed then c.width else c.packed)
  {
    var u := UCast(x, c.unpacked);
    var masked := if c.width < c.packed then u % Pow2(c.width) else u;
    OrderedTwice(e, Split(masked, Count(c)));
    JoinSplit(masked, Count(c));
    assert 8 * Count(c) == c.packed;
    if c.width < c.packed {
      MaskedBits(x, c.width, c.packed, c.unpacked);
    } else {
      Residue(x, c.packed, c.unpacked);
    }
  }

  lemma MaskedBits(x: int, w: nat, p: nat, n: nat)
    requires w <= p <= n
    ensures x % Pow2(n) % Pow2(w) % Pow2(p) == x % Pow2(w)
  {
    Residue(x, w, n);
    Pow2Mono(w, p);
    ModIs(x % Pow2(w), Pow2(p), 0, x % Pow2(w));
  }

  lemma Residue(x: int, m: nat, n: nat)
    requires m <= n
    ensures x % Pow2(n) % Pow2(m) == x % Pow2(m)
  {
    Pow2Add(m, n - m);
    ModMod(x, Pow2(m), Pow2(n - m));
  }

  /** One sample survives packing: exactly if in range, and else with its high bits dropped. */
  lemma UnpackPack(c: Code, e: Endian, x: int)
    requires Aligned(c)
    ensures Unpack(c, e, Pack(c, e, x)) == Wrap(c, x)
  {
    UnpackValue(c, e, Pack(c, e, x));
    PackValue(c, e, x);
    Residue(x, c.width, if c.width < c.packed then c.width else c.packed);
    WrapResidue(c, Join(Ordered(e, Pack(c, e, x))), x);
  }

  /** The padding bits of a packed sample are zero. */
  predicate ZeroPadded(c: Code, e: Endian, octets: seq<Byte>)
    requires Aligned(c) && |octets| == Count(c)
  {
    Join(Ordered(e, octets)) < Pow2(c.width)
  }

  /** Octets survive unpacking and packing, if the padding bits are zero. */
  lemma PackUnpack(c: Code, e: Endian, octets: seq<Byte>, x: int)
    requires Aligned(c) && |octets| == Count(c) && ZeroPadded(c, e, octets)
    requires Wrap(c, x) == Unpack(c, e, octets)
    ensures Pack(c, e, x) == octets
  {
    var u := Join(Ordered(e, octets));
    UnpackValue(c, e, octets);
    WrapBits(c, x);
    WrapBits(c, u);
    ModIs(u, Pow2(c.width), 0, u);
    PackValue(c, e, x);
    assert Join(Ordered(e, Pack(c, e, x))) == u;
    SplitJoin(Ordered(e, octets));
    SplitJoin(Ordered(e, Pack(c, e, x)));
    OrderedTwice(e, octets);
    OrderedTwice(e, Pack(c, e, x));
  }

  lemma WrapBits(c: Code, x: int)
    requires Aligned(c)
    ensures Wrap(c, x) % Pow2(c.width) == x % Pow2(c.width)
  {
    var m := Pow2(c.width);
    var r := x % m;
    assert m == 2 * Pow2(c.width - 1);
    ModIs(r, m, 0, r);
    ModIs(r - m, m, -1, r);
  }

  // ----- sign and code converters

  function Half(c: Code): nat
    requires Aligned(c)
  {
    Pow2(c.width - 1)
  }

  function ToSigned(c: Code, arg: int): int
    requires Aligned(c)
  {
    SCast(arg - Half(c), c.unpacked)
  }

  function FromSigned(c: Code, arg: int): int
    requires Aligned(c)
  {
    UCast(arg + Half(c), c.unpacked)
  }

  /** Rescales a signed sample; a downscaled result is left without sign extension. */
  function Scale(a: Code, b: Code, x: int): int
    requires Aligned(a) && Aligned(b)
  {
    if b.width == a.width then SCast(x, b.unpacked)
    else if b.width < a.width then
      var d := a.width - b.width;
      if x > Half(a) - 1 - Pow2(d - 1) then Half(b) - 1
      else SCast(UCast(x + Pow2(d - 1), a.unpacked) / Pow2(d), b.unpacked)
    else SCast(UCast(x, b.unpacked) * Pow2(b.width - a.width), b.unpacked)
  }

  function ScaleUnsigned(a: Code, b: Code, x: int): int
    requires Aligned(a) && Aligned(b)
  {
    if b.width == a.width then UCast(x, b.unpacked)
    else if b.width < a.width then UCast(x / Pow2(a.width - b.width), b.unpacked)
    else UCast(UCast(x, b.unpacked) * Pow2(b.width - a.width), b.unpacked)
  }

  function Convert(a: Code, b: Code, arg: int): int
    requires Aligned(a) && Aligned(b)
  {
    if a == b then arg
    else if !a.signed && !b.signed then ScaleUnsigned(a, b, arg)
    else
      var x := Scale(a, b, if a.signed then arg else ToSigned(a, arg));
      if b.signed then x else FromSigned(b, x)
  }

  // ----- what the converters are meant to compute

  /** A sample's distance from silence. */
  function Level(c: Code, x: int): int
    requires Aligned(c)
  {
    if c.signed then x else x - Half(c)
  }

  /** A level rescaled by the ratio of widths: rounded half up and clipped. */
  function Rescaled(a: Code, b: Code, x: int): int
    requires Aligned(a) && Aligned(b)
  {
    if b.width >= a.width then x * Pow2(b.width - a.width)
    else
      var d := a.width - b.width;
      var r := (x + Pow2(d - 1)) / Pow2(d);
      if r >= Half(b) then Half(b) - 1 else r
  }

  /**
   * The sample in code `b` that stands for `x` in code `a`: levels are rescaled, but between unsigned codes low bits
   * are cut off.
   */
  function Ideal(a: Code, b: Code, x: int): int
    requires Aligned(a) && Aligned(b)
  {
    if !a.signed && !b.signed && b.width < a.width then x / Pow2(a.width - b.width)
    else Rescaled(a, b, Level(a, x)) + (if b.signed then 0 else Half(b))
  }

  /** Equal residues modulo 2^`w`. */
  predicate SameBits(x: int, y: int, w: nat) {
    x % Pow2(w) == y % Pow2(w)
  }

  lemma SameBitsBy(x: int, y: int, w: nat, k: int)
    requires x == y + k * Pow2(w)
    ensures SameBits(x, y, w)
  {
    var m := Pow2(w);
    var q, r := y / m, y % m;
    assert y == q * m + r;
    assert x == (q + k) * m + r;
    ModIs(x, m, q + k, r);
  }

  lemma SameBitsQuotient(x: int, y: int, w: nat) returns (k: int)
    requires SameBits(x, y, w)
    ensures x == y + k * Pow2(w)
  {
    var m := Pow2(w);
    k := x / m - y / m;
    assert x == x / m * m + x % m;
    assert y == y / m * m + y % m;
    assert (x / m - y / m) * m == x / m * m - y / m * m;
  }

  lemma SameBitsAdd(x: int, y: int, w: nat, z: int)
    requires SameBits(x, y, w)
    ensures SameBits(x + z, y + z, w)
  {
    var k := SameBitsQuotient(x, y, w);
    SameBitsBy(x + z, y + z, w, k);
  }

  lemma SameBitsMul(x: int, y: int, w: nat, z: int)
    requires SameBits(x, y, w)
    ensures SameBits(x * z, y * z, w)
  {
    var k := SameBitsQuotient(x, y, w);
    var m := Pow2(w);
    assert (y + k * m) * z == y * z + (k * z) * m;
    SameBitsBy(x * z, y * z, w, k * z);
  }

  lemma CastBits(x: int, bits: nat, w: nat)
    requires 0 < bits && w <= bits
    ensures SameBits(UCast(x, bits), x, w) && SameBits(SCast(x, bits), x, w)
  {
    var m := Pow2(bits);
    var u := x % m;
    Residue(x, w, bits);
    Pow2Add(w, bits - w);
    var n := Pow2(bits - w);
    assert u - m == u + (-n) * Pow2(w) by { assert m == Pow2(w) * n; }
    SameBitsBy(u - m, u, w, -n);
  }

  /** The logical right shift of a wrapped value has the low bits of the arithmetic one. */
  lemma ShiftBits(y: int, n: nat, d: nat, w: nat)
    requires d + w <= n
    ensures SameBits(UCast(y, n) / Pow2(d), y / Pow2(d), w)
  {
    Pow2Add(d, n - d);
    Pow2Add(w, n - d - w);
    var c := DivModBy(y, Pow2(d), Pow2(w), Pow2(n - d - w), Pow2(n));
    SameBitsBy(y / Pow2(d), UCast(y, n) / Pow2(d), w, c);
  }

  lemma ScaleBits(a: Code, b: Code, x: int)
    requires Aligned(a) && Aligned(b)
    requires 0 <= x + Half(a) < Pow2(a.width)
    ensures SameBits(Scale(a, b, x), Rescaled(a, b, x), b.width)
  {
    if b.width == a.width {
      assert Pow2(0) == 1;
      CastBits(x, b.unpacked, b.width);
    } else if b.width < a.width {
      var d := a.width - b.width;
      var y := x + Pow2(d - 1);
      ClipPoint(a, b, x);
      if x <= Half(a) - 1 - Pow2(d - 1) {
        CastBits(UCast(y, a.unpacked) / Pow2(d), b.unpacked, b.width);
        ShiftBits(y, a.unpacked, d, b.width);
      }
    } else {
      var u, k := UCast(x, b.unpacked), Pow2(b.width - a.width);
      CastBits(u * k, b.unpacked, b.width);
      CastBits(x, b.unpacked, b.width);
      SameBitsMul(u, x, b.width, k);
    }
  }

  /** The converter clips exactly the samples whose rounded value is out of range. */
  lemma ClipPoint(a: Code, b: Code, x: int)
    requires Aligned(a) && Aligned(b) && b.width < a.width
    ensures var d := a.width - b.width;
            x > Half(a) - 1 - Pow2(d - 1) <==> (x + Pow2(d - 1)) / Pow2(d) >= Half(b)
  {
    var d := a.width - b.width;
    Pow2Add(b.width - 1, d);
    DivAtLeast(x + Pow2(d - 1), Pow2(d), Half(b));
  }

  /** Rescaling stays in range. */
  lemma RescaledInRange(a: Code, b: Code, x: int)
    requires Aligned(a) && Aligned(b)
    requires 0 <= x + Half(a) < Pow2(a.width)
    ensures 0 <= Rescaled(a, b, x) + Half(b) < Pow2(b.width)
  {
    assert Pow2(a.width) == 2 * Half(a) && Pow2(b.width) == 2 * Half(b);
    if b.width >= a.width {
      Pow2Add(a.width - 1, b.width - a.width);
      MulRange(x, Half(a), Pow2(b.width - a.width));
    } else {
      var d := a.width - b.width;
      Pow2Add(b.width - 1, d);
      DivRange(x + Pow2(d - 1), Pow2(d), Half(b));
    }
  }

  /** The cut-off sample of a wider unsigned code is in range. */
  lemma CutOff(a: Code, b: Code, x: int)
    requires Aligned(a) && Aligned(b) && b.width < a.width && 0 <= x < Pow2(a.width)
    ensures 0 <= x / Pow2(a.width - b.width) < Pow2(b.width)
  {
    var t := Pow2(a.width - b.width);
    Pow2Add(a.width - b.width, b.width);
    DivAtLeast(x, t, 0);
    DivAtLeast(x, t, Pow2(b.width));
  }

  lemma IdealInRange(a: Code, b: Code, x: int)
    requires Aligned(a) && Aligned(b) && InRange(a, x)
    ensures InRange(b, Ideal(a, b, x))
  {
    if !a.signed && !b.signed && b.width < a.width {
      CutOff(a, b, x);
    } else {
      assert Pow2(a.width) == 2 * Half(a) && Pow2(b.width) == 2 * Half(b);
      RescaledInRange(a, b, Level(a, x));
    }
  }

  lemma WidenUnsigned(a: Code, b: Code, x: int)
    requires Aligned(a) && Aligned(b) && a.width <= b.width && !a.signed && !b.signed
    ensures Ideal(a, b, x) == x * Pow2(b.width - a.width)
  {
    Pow2Add(a.width - 1, b.width - a.width);
    Distribute(x, Half(a), Pow2(b.width - a.width));
  }

  lemma ScaleUnsignedBits(a: Code, b: Code, x: int)
    requires Aligned(a) && Aligned(b) && InRange(a, x) && !a.signed && !b.signed
    ensures SameBits(ScaleUnsigned(a, b, x), Ideal(a, b, x), b.width)
  {
    if b.width < a.width {
      CastBits(x / Pow2(a.width - b.width), b.unpacked, b.width);
    } else {
      var k := Pow2(b.width - a.width);
      WidenUnsigned(a, b, x);
      CastBits(x, b.unpacked, b.width);
      SameBitsMul(UCast(x, b.unpacked), x, b.width, k);
      CastBits(UCast(x, b.unpacked) * k, b.unpacked, b.width);
      assert b.width == a.width ==> k == 1;
    }
  }

  /** What the converter computes has the bits of the ideal conversion. */
  lemma ConvertBits(a: Code, b: Code, x: int)
    requires Aligned(a) && Aligned(b) && InRange(a, x)
    ensures SameBits(Convert(a, b, x), Ideal(a, b, x), b.width)
  {
    if a == b {
      assert Pow2(0) == 1;
    } else if !a.signed && !b.signed {
      ScaleUnsignedBits(a, b, x);
    } else {
      assert Pow2(a.width) == 2 * Half(a);
      LevelOf(a, x);
      var v := Level(a, x);
      ScaleBits(a, b, v);
      if !b.signed {
        CastBits(Scale(a, b, v) + Half(b), b.unpacked, b.width);
        SameBitsAdd(Scale(a, b, v), Rescaled(a, b, v), b.width, Half(b));
      }
    }
  }

  /** The sign converter computes the level of every in-range sample. */
  lemma LevelOf(c: Code, x: int)
    requires Aligned(c) && InRange(c, x)
    ensures !c.signed ==> ToSigned(c, x) == Level(c, x)
  {
    if !c.signed {
      var y, t := x - Half(c), Pow2(c.unpacked);
      assert Pow2(c.width) == 2 * Half(c);
      Pow2Mono(c.width, c.unpacked);
      assert t == 2 * Pow2(c.unpacked - 1);
      if y < 0 { ModIs(y, t, -1, y + t); } else { ModIs(y, t, 0, y); }
    }
  }

  /** The sign converters are each other's inverses. */
  lemma SignRoundTrip(c: Code, x: int)
    requires Aligned(c) && !c.signed && InRange(c, x)
    ensures FromSigned(c, ToSigned(c, x)) == x
  {
    LevelOf(c, x);
    Pow2Mono(c.width, c.unpacked);
    ModIs(x, Pow2(c.unpacked), 0, x);
  }

  /** Converting one sample and writing it out stores exactly the ideal conversion. */
  lemma StoredSample(a: Code, b: Code, e: Endian, x: int)
    requires Aligned(a) && Aligned(b) && InRange(a, x)
    ensures Unpack(b, e, Pack(b, e, Convert(a, b, x))) == Ideal(a, b, x)
  {
    UnpackPack(b, e, Convert(a, b, x));
    ConvertBits(a, b, x);
    WrapResidue(b, Convert(a, b, x), Ideal(a, b, x));
    IdealInRange(a, b, x);
    WrapInRange(b, Ideal(a, b, x));
  }

  /** Widening loses nothing: converting back gives the sample again. */
  lemma IdealRoundTrip(a: Code, b: Code, x: int)
    requires Aligned(a) && Aligned(b) && InRange(a, x) && a.width <= b.width
    ensures Ideal(b, a, Ideal(a, b, x)) == x
  {
    var d := b.width - a.width;
    var k := Pow2(d);
    assert Pow2(a.width) == 2 * Half(a);
    if d == 0 {
      assert k == 1;
    } else if !a.signed && !b.signed {
      WidenUnsigned(a, b, x);
      ModIs(x * k, k, x, 0);
    } else {
      LevelBack(a, b, Level(a, x));
      assert Level(b, Ideal(a, b, x)) == Rescaled(a, b, Level(a, x));
    }
  }

  lemma LevelBack(a: Code, b: Code, v: int)
    requires Aligned(a) && Aligned(b) && a.width < b.width && 0 <= v + Half(a) < 2 * Half(a)
    ensures Rescaled(b, a, Rescaled(a, b, v)) == v
  {
    var d := b.width - a.width;
    ModIs(v * Pow2(d) + Pow2(d - 1), Pow2(d), v, Pow2(d - 1));
  }
}
