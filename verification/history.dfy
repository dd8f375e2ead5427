/**
 * Branch histories kept in a `std::bitset`: bit 0 is the newest outcome.
 * `ShiftIn` is the `h <<= 1; h[0] = taken` pair every history-based
 * predictor performs, and `ToWord` is `to_ullong()`. The lemmas relate
 * these bit sequences to the numbers the source computes with.
 */
module Histories {
  import opened Bits

  function BitValue(b: bool): nat
  {
    if b then 1 else 0
  }

  /** The number denoted by two bit strings side by side, the low one first. */
  lemma {:induction false} ValueConcat(a: seq<bool>, b: seq<bool>)
    ensures Value(a + b) == Value(a) + Pow2(|a|) * Value(b)
  {
    if |a| > 0 {
      assert (a + b)[1..] == a[1..] + b;
      ValueConcat(a[1..], b);
      assert Value(a + b) == BitValue(a[0]) + 2 * Value(a[1..] + b);
      Doubled(Value(a[1..]), Pow2(|a| - 1), Value(b));
    } else {
      assert a + b == b;
    }
  }

  lemma Doubled(x: int, p: int, y: int)
    ensures 2 * (x + p * y) == 2 * x + (2 * p) * y
  {
  }

  /** Zero bits denote zero. */
  lemma {:induction false} ValueZeros(n: nat)
    ensures Value(Zeros(n)) == 0
  {
    if n > 0 {
      assert Zeros(n)[1..] == Zeros(n - 1);
      ValueZeros(n - 1);
    }
  }

  /** Dropping high bits that are clear keeps the number. */
  lemma ValueTruncate(a: seq<bool>, w: nat, k: nat)
    requires Fits(a, w) && w <= k <= |a|
    ensures Value(a[..k]) == Value(a)
  {
    assert a == a[..k] + a[k..];
    assert a[k..] == Zeros(|a| - k);
    ValueConcat(a[..k], a[k..]);
    ValueZeros(|a| - k);
  }

  /** `h <<= 1; h[0] = b` on a bitset of `|h|` bits. */
  function ShiftIn(h: seq<bool>, b: bool): (r: seq<bool>)
    ensures |r| == |h|
    ensures |h| > 0 ==> r[0] == b
    ensures forall i :: 1 <= i < |h| ==> r[i] == h[i - 1]
  {
    if |h| == 0 then h else [b] + h[..|h| - 1]
  }

  /** The top bit of a history weighs `2^(|h|-1)`. */
  lemma ValueLast(h: seq<bool>)
    requires |h| > 0
    ensures Value(h) == Value(h[..|h| - 1]) + Pow2(|h| - 1) * BitValue(h[|h| - 1])
  {
    var low := h[..|h| - 1];
    var top := [h[|h| - 1]];
    assert h == low + top;
    ValueConcat(low, top);
    assert Value(top) == BitValue(h[|h| - 1]) by {
      assert top[1..] == [];
    }
  }

  /**
   * As a number, the shifted history is `(2h + b) mod 2^|h|`: doubling the
   * old history and adding `b` gives the new history plus the dropped top
   * bit times `2^|h|`, and the new history is below `2^|h|`.
   */
  lemma ShiftInValue(h: seq<bool>, b: bool)
    requires |h| > 0
    ensures 2 * Value(h) + BitValue(b) == Pow2(|h|) * BitValue(h[|h| - 1]) + Value(ShiftIn(h, b))
    ensures Value(ShiftIn(h, b)) < Pow2(|h|)
  {
    var n := |h|;
    var low := h[..n - 1];
    var r := ShiftIn(h, b);
    assert r[1..] == low;
    assert Value(r) == BitValue(b) + 2 * Value(low);
    ValueLast(h);
    ValueBelow(low);
    assert Pow2(n) == 2 * Pow2(n - 1);
    ShiftArith(Value(h), Value(low), Value(r), Pow2(n - 1), BitValue(h[n - 1]), BitValue(b));
  }

  lemma ShiftArith(vh: int, vlow: int, vr: int, p: int, top: int, b: int)
    requires vh == vlow + p * top && vr == b + 2 * vlow
    requires 0 <= vlow < p && 0 <= b <= 1
    ensures 2 * vh + b == (2 * p) * top + vr
    ensures vr < 2 * p
  {
  }

  /** `to_ullong()`: the history zero-extended to 64 bits. */
  function ToWord(h: seq<bool>): (w: Word)
    requires |h| <= 64
    ensures Fits(w, |h|) && w[..|h|] == h
    ensures Value(w) == Value(h)
  {
    var w := h + Zeros(64 - |h|);
    assert w[..|h|] == h;
    ValueConcat(h, Zeros(64 - |h|));
    ValueZeros(64 - |h|);
    w
  }

  /** `a << s` is `s` zeros followed by the low `64 - s` bits of `a`. */
  lemma ShlConcat(a: Word, s: nat)
    requires s <= 64
    ensures Shl(a, s) == Zeros(s) + a[..64 - s]
  {
    var low := a[..64 - s];
    forall i | 0 <= i < 64 ensures Shl(a, s)[i] == (Zeros(s) + low)[i] {
      assert Shl(a, s)[i] == At(a, i - s);
      if i >= s {
        assert (Zeros(s) + low)[i] == low[i - s] == a[i - s];
      } else {
        assert (Zeros(s) + low)[i] == Zeros(s)[i] == false;
      }
    }
  }

  /**
   * A left shift that keeps every set bit multiplies by a power of two:
   * when `a < 2^w` and `w + s <= 64`, `a << s` is `a * 2^s`.
   */
  lemma ShlValue(a: Word, w: nat, s: nat)
    requires Fits(a, w) && w + s <= 64
    ensures Value(Shl(a, s)) == Pow2(s) * Value(a)
  {
    var low := a[..64 - s];
    ShlConcat(a, s);
    ValueConcat(Zeros(s), low);
    ValueZeros(s);
    ValueTruncate(a, w, 64 - s);
  }

  /** `(a << |h|) | h` places `h` below the low bits of `a`. */
  lemma OrShiftedConcat(a: Word, h: seq<bool>)
    requires |h| <= 64
    ensures Or(Shl(a, |h|), ToWord(h)) == h + a[..64 - |h|]
  {
    var n := |h|;
    var w := ToWord(h);
    ShlConcat(a, n);
    forall i | 0 <= i < 64 ensures Or(Shl(a, n), w)[i] == (h + a[..64 - n])[i] {
      if i < n {
        assert w[i] == h[i] && !Shl(a, n)[i];
      } else {
        assert !w[i] && Shl(a, n)[i] == a[i - n];
      }
    }
  }

  /**
   * Or-ing a history into the clear low bits of a shifted field is
   * concatenation: `(a << n) | h` is `h + 2^n * a` when `h` has `n` bits
   * and `a` fits in the remaining `64 - n`.
   */
  lemma OrShiftedValue(a: Word, p: nat, h: seq<bool>)
    requires Fits(a, p) && |h| + p <= 64
    ensures Value(Or(Shl(a, |h|), ToWord(h))) == Value(h) + Pow2(|h|) * Value(a)
  {
    OrShiftedConcat(a, h);
    ValueConcat(h, a[..64 - |h|]);
    ValueTruncate(a, p, 64 - |h|);
  }

  /** The history after shifting in the outcomes `bs`, oldest first. */
  function ShiftAll(h: seq<bool>, bs: seq<bool>): (r: seq<bool>)
    ensures |r| == |h|
    decreases |bs|
  {
    if |bs| == 0 then h else ShiftAll(ShiftIn(h, bs[0]), bs[1..])
  }

  /** Shifting in one more outcome after `bs` is shifting it into the result. */
  lemma {:induction false} ShiftAllSnoc(h: seq<bool>, bs: seq<bool>, b: bool)
    ensures ShiftAll(h, bs + [b]) == ShiftIn(ShiftAll(h, bs), b)
    decreases |bs|
  {
    if |bs| == 0 {
      assert ([] + [b])[1..] == [];
    } else {
      assert (bs + [b])[1..] == bs[1..] + [b];
      ShiftAllSnoc(ShiftIn(h, bs[0]), bs[1..], b);
    }
  }

  /**
   * A history remembers the latest outcomes, newest in bit 0: bit `i` is the
   * outcome `i` places before the last one, for as many outcomes as were
   * shifted in, and the older bits are the old history moved up.
   */
  lemma {:induction false} ShiftAllBits(h: seq<bool>, bs: seq<bool>)
    ensures forall i :: 0 <= i < |h| && i < |bs| ==> ShiftAll(h, bs)[i] == bs[|bs| - 1 - i]
    ensures forall i :: |bs| <= i < |h| ==> ShiftAll(h, bs)[i] == h[i - |bs|]
    decreases |bs|
  {
    if |bs| > 0 {
      var front := bs[..|bs| - 1];
      var b := bs[|bs| - 1];
      assert bs == front + [b];
      ShiftAllSnoc(h, front, b);
      ShiftAllBits(h, front);
    }
  }

  /** Bit `i` after shifting in `bs` is the outcome `i` places before the last. */
  lemma ShiftAllLatest(h: seq<bool>, bs: seq<bool>, i: nat)
    requires i < |h| && i < |bs|
    ensures ShiftAll(h, bs)[i] == bs[|bs| - 1 - i]
  {
    ShiftAllBits(h, bs);
  }

  /** Bit strings of one length that denote the same number are equal. */
  lemma {:induction false} ValueInjective(a: seq<bool>, b: seq<bool>)
    requires |a| == |b| && Value(a) == Value(b)
    ensures a == b
  {
    if |a| > 0 {
      assert a[0] == b[0];
      ValueInjective(a[1..], b[1..]);
      assert a == [a[0]] + a[1..] && b == [b[0]] + b[1..];
    }
  }
}
