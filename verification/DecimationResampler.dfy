/**
 * Resampling by dropping or repeating single groups of samples, as decimation_resampler.cpp does when input and output
 * rates are equal. Arithmetic is exact, where the program rounds floats.
 */
module DecimationResampler {
  import opened Blocks
  import opened Codecs

  /** Groups in one input buffer. */
  const INPUT_FRAME_SIZE: nat := 16

  function Ceil(x: real): int {
    -((-x).Floor)
  }

  function Abs(x: real): real {
    if x < 0.0 then -x else x
  }

  /** The multipliers that `SetScaling` accepts: at most one group more or less per input buffer. */
  predicate InScale(size: nat, chans: nat, multiplier: real) {
    multiplier > 0.0 && Abs(size as real / multiplier - size as real) <= chans as real
  }

  /** How far the accumulator is ahead of the input that is left. */
  function Ahead(acc: real, left: nat): real {
    acc - left as real
  }

  /** What will come out for the input that is left: corrected by a group if the accumulator is off by one or more. */
  function Pending(ch: nat, acc: real, rest: seq<real>, last: seq<real>): seq<real> {
    if rest == [] then []
    else if Ahead(acc, |rest|) >= ch as real then last + rest
    else if Ahead(acc, |rest|) <= -(ch as real) && ch <= |rest| then rest[ch..]
    else rest
  }

  /** `last` is the most recent group of the output. */
  ghost predicate Recent(emitted: seq<real>, last: seq<real>) {
    emitted == [] || (|last| <= |emitted| && emitted[|emitted| - |last|..] == last)
  }

  lemma FloorTest(acc: real, n: int)
    ensures acc.Floor >= n <==> acc >= n as real
  {
  }

  lemma CeilTest(acc: real, n: int)
    ensures Ceil(acc) <= n <==> acc <= n as real
  {
    FloorTest(-acc, -n);
  }

  class DecimationResampler {
    const chans: Channels
    const inBuf: array<real>
    var multiplier: real
    var inSize: nat
    var inPos: nat
    var outAcc: real
    var lastBuf: seq<real>
    /** Groups left in the input buffer, the output there should have been so far, and the output there was. */
    ghost var left: nat
    ghost var due: real
    ghost var emitted: seq<real>

    ghost predicate Shape()
      reads this
    {
      && inBuf.Length == Times(INPUT_FRAME_SIZE, chans) && inSize <= inBuf.Length
      && inSize - inPos == Times(left, chans) && inPos <= inSize && |lastBuf| == chans
    }

    ghost predicate Valid()
      reads this
    {
      Balanced() && InScale(inBuf.Length, chans, multiplier)
    }

    /** Nothing is lost but what the accumulator holds, and it is off by less than two groups, or one when drained. */
    ghost predicate Balanced()
      reads this
    {
      && Shape() && outAcc == due - |emitted| as real && Recent(emitted, lastBuf)
      && Abs(Ahead(outAcc, inSize - inPos)) < 2.0 * chans as real
      && (left == 0 ==> Abs(outAcc) < chans as real)
    }

    ghost function Rest(): seq<real>
      requires Shape()
      reads this, inBuf
    {
      inBuf[inPos..inSize]
    }

    ghost function ToCome(): seq<real>
      requires Shape()
      reads this, inBuf
    {
      Pending(chans, outAcc, Rest(), lastBuf)
    }

    constructor (chans: Channels)
      ensures Valid() && fresh(inBuf) && left == 0 && due == 0.0 && emitted == [] && this.chans == chans
    {
      this.chans := chans;
      inBuf := new real[Times(INPUT_FRAME_SIZE, chans)](i => 0.0);
      multiplier, inSize, inPos, outAcc, lastBuf := 1.0, 0, 0, 0.0, seq(chans, i => 0.0);
      left, due, emitted := 0, 0.0, [];
    }

    /** Rejects what would need more than one correction per input buffer. */
    method SetScaling(inputRate: nat, outputRate: nat, m: real) returns (ok: bool)
      requires Valid() && inputRate == outputRate
      modifies this`multiplier
      ensures Valid() && ok == (inputRate != 0 && InScale(inBuf.Length, chans, m))
      ensures multiplier == if ok then m else old(multiplier)
    {
      ok := inputRate != 0 && outputRate != 0 && m > 0.0
        && Abs(inBuf.Length as real / m - inBuf.Length as real) <= chans as real;
      if ok {
        multiplier := m;
      }
    }

    /** The caller has filled the input buffer. */
    method EndPushInput()
      requires Valid() && left == 0
      modifies this`inSize, this`inPos, this`outAcc, this`left, this`due
      ensures Valid() && left == INPUT_FRAME_SIZE && Rest() == inBuf[..] && emitted == old(emitted)
      ensures due == old(due) + inBuf.Length as real / multiplier
      ensures || ToCome() == inBuf[..] || ToCome() == lastBuf + inBuf[..]
              || (chans <= inBuf.Length && ToCome() == inBuf[chans..])
    {
      inSize := inBuf.Length;
      inPos := 0;
      outAcc := outAcc + inSize as real / multiplier;
      left := INPUT_FRAME_SIZE;
      due := due + inSize as real / multiplier;
      assert inBuf[inPos..inSize] == inBuf[..] && inBuf[..][chans..] == inBuf[chans..];
    }

    /** The accumulator is off by less than one group: no correction is due. */
    ghost predicate Settled()
      reads this
    {
      inPos <= inSize && Abs(Ahead(outAcc, inSize - inPos)) < chans as real
    }

    /** The most recent group again. */
    method Repeat(out: array<real>, pos: nat) returns (next: nat)
      requires Balanced() && left > 0 && pos + chans <= out.Length && Ahead(outAcc, inSize - inPos) >= chans as real
      modifies this`outAcc, this`emitted, out
      ensures Balanced() && Settled() && next == pos + chans
      ensures emitted == old(emitted) + lastBuf && out[..next] == old(out[..pos]) + lastBuf
    {
      RecentPart(emitted, lastBuf, lastBuf);
      next := Emit(out, pos, lastBuf);
      outAcc := outAcc - chans as real;
      emitted := emitted + lastBuf;
    }

    /** One group of input is left out. */
    method Skip()
      requires Balanced() && left > 0 && Ahead(outAcc, inSize - inPos) <= -(chans as real)
      modifies this`inPos, this`left
      ensures Balanced() && Settled() && left == old(left) - 1 && inPos == old(inPos) + chans
    {
      TimesFirst(left, chans);
      inPos := inPos + chans;
      left := left - 1;
    }

    /** Repeats or skips one group if the accumulator is off by that much. */
    method Correct(out: array<real>, pos: nat) returns (next: nat, ghost part: seq<real>)
      requires Balanced() && left > 0 && pos + chans <= out.Length && out != inBuf
      modifies this`inPos, this`outAcc, this`left, this`emitted, out
      ensures Balanced() && Settled() && pos <= next <= out.Length && (next == pos || next == pos + chans)
      ensures left <= old(left)
      ensures emitted == old(emitted) + part && out[..next] == old(out[..pos]) + part && part + Rest() == old(ToCome())
    {
      next, part := pos, [];
      TimesFirst(left, chans);
      FloorTest(outAcc, inSize - inPos + chans);
      CeilTest(outAcc, inSize - inPos - chans);
      if outAcc.Floor >= inSize - inPos + chans {
        part := lastBuf;
        next := Repeat(out, pos);
      } else if Ceil(outAcc) <= inSize - inPos - chans {
        Skip();
      }
    }

    /** Copies `m` groups of input to output. */
    method CopyPart(out: array<real>, pos: nat, n: nat, ghost m: nat) returns (next: nat, ghost part: seq<real>)
      requires Balanced() && Settled() && 0 < m <= left && n == Times(m, chans) && pos + n <= out.Length && out != inBuf
      modifies this`inPos, this`outAcc, this`left, this`lastBuf, this`emitted, out
      ensures Balanced() && Settled() && next == pos + n && left == old(left) - m
      ensures emitted == old(emitted) + part && out[..next] == old(out[..pos]) + part && part + Rest() == old(Rest())
    {
      TimesAdd(m, left - m, chans);
      AtLeastOne(m, chans);
      part := inBuf[inPos..inPos + n];
      next := Emit(out, pos, inBuf[inPos..inPos + n]);
      assert part + inBuf[inPos + n..inSize] == inBuf[inPos..inSize];
      LastOf(old(out[..pos]), part, out[..next], chans);
      Consume(n, part, out[next - chans..next], m);
    }

    /** Input has gone to output. */
    method Consume(n: nat, ghost part: seq<real>, last: seq<real>, ghost m: nat)
      requires Balanced() && Settled() && 0 < m <= left && n == Times(m, chans) == |part|
      requires |last| == chans <= n && part[n - chans..] == last
      modifies this`inPos, this`outAcc, this`left, this`lastBuf, this`emitted
      ensures Balanced() && Settled() && left == old(left) - m && inPos == old(inPos) + n
      ensures emitted == old(emitted) + part
    {
      TimesAdd(m, left - m, chans);
      RecentPart(emitted, part, last);
      inPos := inPos + n;
      outAcc := outAcc - n as real;
      lastBuf := last;
      left := left - m;
      emitted := emitted + part;
    }

    /** Copies input to output, as much as there is and as fits. */
    method Copy(out: array<real>, pos: nat, ghost k: nat) returns (next: nat, ghost m: nat, ghost part: seq<real>)
      requires Balanced() && Settled() && pos <= out.Length && out.Length - pos == Times(k, chans) && out != inBuf
      modifies this`inPos, this`outAcc, this`left, this`lastBuf, this`emitted, out
      ensures Balanced() && Settled() && m == Min(old(left), k) && left == old(left) - m
      ensures next == pos + Times(m, chans) <= out.Length && out.Length - next == Times(k - m, chans)
      ensures emitted == old(emitted) + part && out[..next] == old(out[..pos]) + part && part + Rest() == old(Rest())
    {
      m := Min(left, k);
      TimesMin(left, k, chans);
      TimesAdd(m, k - m, chans);
      var n := Min(inSize - inPos, out.Length - pos);
      next, part := pos, [];
      if n != 0 {
        next, part := CopyPart(out, pos, n, m);
      } else {
        NoneAtAll(m, chans);
      }
    }

    /**
     * Fills the output with what is to come, as far as there is any. All output ever, with what is still to come,
     * does not depend on how much is asked for at a time.
     */
    method PopOutput(out: array<real>, ghost k: nat) returns (count: nat)
      requires Valid() && out.Length == Times(k, chans) && out != inBuf
      modifies this`inPos, this`outAcc, this`left, this`lastBuf, this`emitted, out
      ensures Valid() && count <= out.Length
      ensures count < out.Length ==> left == 0 && Abs(due - |emitted| as real) < chans as real
      ensures emitted == old(emitted) + out[..count] && out[..count] + ToCome() == old(ToCome())
    {
      count := 0;
      ghost var all, was, left' := ToCome(), emitted, k;
      while count < out.Length
        invariant Balanced() && count <= out.Length && out.Length - count == Times(left', chans)
        invariant emitted == was + out[..count] && out[..count] + ToCome() == all
        decreases out.Length - count, left
      {
        if inPos == inSize {
          NoneAtAll(left, chans);
          break;
        }
        count, left' := Round(out, count, left', all, was);
      }
    }

    /** One correction, if due, and one copy. */
    method Round(out: array<real>, pos: nat, ghost k: nat, ghost all: seq<real>, ghost was: seq<real>)
      returns (next: nat, ghost k': nat)
      requires Balanced() && pos < out.Length && out.Length - pos == Times(k, chans) && out != inBuf && inPos != inSize
      requires emitted == was + out[..pos] && out[..pos] + ToCome() == all
      modifies this`inPos, this`outAcc, this`left, this`lastBuf, this`emitted, out
      ensures Balanced() && pos <= next <= out.Length && out.Length - next == Times(k', chans)
      ensures emitted == was + out[..next] && out[..next] + ToCome() == all
      ensures next > pos || left < old(left)
    {
      ghost var a, b, m;
      ghost var before := out[..pos];
      AtLeastOne(k, chans);
      next, a := Correct(out, pos);
      ghost var j := OneTaken(k, chans, out.Length, pos, next);
      next, m, b := Copy(out, next, j);
      k' := j - m;
      SettledToCome();
      Assemble(was, before, a, b, Rest());
    }

    lemma SettledToCome()
      requires Balanced() && Settled()
      ensures ToCome() == Rest()
    {
      SettledPending(chans, outAcc, Rest(), lastBuf);
    }
  }

  lemma OneTaken(k: nat, ch: Channels, len: nat, pos: nat, next: nat) returns (k': nat)
    requires k > 0 && pos <= next <= len && len - pos == Times(k, ch) && (next == pos || next == pos + ch)
    ensures len - next == Times(k', ch) && k' <= k
  {
    TimesFirst(k, ch);
    k' := if next == pos then k else k - 1;
  }

  lemma Assemble(was: seq<real>, before: seq<real>, a: seq<real>, b: seq<real>, rest: seq<real>)
    ensures was + before + a + b == was + (before + a + b) && before + a + b + rest == before + (a + (b + rest))
  {
  }

  /** With no correction due, the input that is left is what is to come. */
  lemma SettledPending(ch: Channels, acc: real, rest: seq<real>, last: seq<real>)
    requires Abs(Ahead(acc, |rest|)) < ch as real
    ensures Pending(ch, acc, rest, last) == rest
  {
  }

  lemma RecentPart(emitted: seq<real>, part: seq<real>, last: seq<real>)
    requires |last| <= |part| && part[|part| - |last|..] == last
    ensures Recent(emitted + part, last)
  {
    var all := emitted + part;
    assert all[|all| - |last|..] == part[|part| - |last|..];
  }

  lemma LastOf(before: seq<real>, part: seq<real>, all: seq<real>, k: nat)
    requires all == before + part && k <= |part|
    ensures all[|all| - k..] == part[|part| - k..]
  {
  }

  method Emit(out: array<real>, pos: nat, part: seq<real>) returns (next: nat)
    requires pos + |part| <= out.Length
    modifies out
    ensures next == pos + |part| && out[..next] == old(out[..pos]) + part
  {
    next := WriteBlock(out, pos, part);
  }

  lemma AtLeastOne(m: nat, k: Channels)
    requires Times(m, k) != 0
    ensures Times(m, k) >= k
  {
  }

  lemma NoneAtAll(m: nat, k: Channels)
    requires Times(m, k) == 0
    ensures m == 0
  {
  }
}
