/**
 * Machine words as bit sequences, least significant bit first.
 *
 * A `uint64_t` of the source is a `Word` (64 bits); the bitwise operators,
 * shifts by a run-time amount, masks `(1 << w) - 1` and conversions from
 * `bool` are defined bit by bit, so that every property of a hash is a
 * property of individual bit positions. `Value` reads a word as the
 * unsigned number it denotes (a table index).
 */
module Bits {

  /** 2^n as a mathematical integer. */
  function Pow2(n: nat): (r: nat)
    ensures r >= 1
  {
    if n == 0 then 1 else 2 * Pow2(n - 1)
  }

  lemma {:induction false} Pow2Add(a: nat, b: nat)
    ensures Pow2(a + b) == Pow2(a) * Pow2(b)
  {
    if a > 0 {
      Pow2Add(a - 1, b);
    }
  }

  lemma {:induction false} Pow2Monotone(a: nat, b: nat)
    requires a <= b
    ensures Pow2(a) <= Pow2(b)
  {
    if a < b {
      Pow2Monotone(a, b - 1);
    }
  }

  /** Powers of two that the 32-bit code relies on. */
  lemma Pow2Facts()
    ensures Pow2(8) == 0x100 && Pow2(16) == 0x1_0000
    ensures Pow2(30) == 0x4000_0000 && Pow2(31) == 0x8000_0000 && Pow2(32) == 0x1_0000_0000
  {
    assert Pow2(8) == 0x100;
    Pow2Add(8, 8);
    Pow2Add(16, 14);
    assert Pow2(14) == 0x4000;
    Pow2Add(30, 1);
    Pow2Add(30, 2);
    assert Pow2(2) == 4;
  }

  /** The all-zero bit sequence of length `n`. */
  function Zeros(n: nat): (r: seq<bool>)
    ensures |r| == n
  {
    seq(n, _ => false)
  }

  /** A 64-bit machine word. */
  type Word = s: seq<bool> | |s| == 64 witness Zeros(64)

  /** A 32-bit machine word. */
  type Word32 = s: seq<bool> | |s| == 32 witness Zeros(32)

  /** Bit `i` of `a`, where bits outside the word read as 0. */
  function At(a: seq<bool>, i: int): bool
  {
    0 <= i < |a| && a[i]
  }

  function Xor(a: seq<bool>, b: seq<bool>): (r: seq<bool>)
    requires |a| == |b|
    ensures |r| == |a|
  {
    seq(|a|, i requires 0 <= i < |a| => a[i] != b[i])
  }

  function And(a: seq<bool>, b: seq<bool>): (r: seq<bool>)
    requires |a| == |b|
    ensures |r| == |a|
  {
    seq(|a|, i requires 0 <= i < |a| => a[i] && b[i])
  }

  function Or(a: seq<bool>, b: seq<bool>): (r: seq<bool>)
    requires |a| == |b|
    ensures |r| == |a|
  {
    seq(|a|, i requires 0 <= i < |a| => a[i] || b[i])
  }

  /** `a << n`: bits move up, zeros enter at the bottom, bits fall off the top. */
  function Shl(a: seq<bool>, n: nat): (r: seq<bool>)
    ensures |r| == |a|
  {
    seq(|a|, i requires 0 <= i < |a| => At(a, i - n))
  }

  /** `a >> n` (logical). */
  function Shr(a: seq<bool>, n: nat): (r: seq<bool>)
    ensures |r| == |a|
  {
    seq(|a|, i requires 0 <= i < |a| => At(a, i + n))
  }

  /** `(1 << w) - 1` in a `len`-bit word: the low `w` bits set. */
  function Mask(len: nat, w: nat): (r: seq<bool>)
    ensures |r| == len
  {
    seq(len, i requires 0 <= i < len => i < w)
  }

  /** A `bool` converted to a `len`-bit word: 1 or 0. */
  function OfBool(len: nat, b: bool): (r: seq<bool>)
    ensures |r| == len
  {
    seq(len, i requires 0 <= i < len => i == 0 && b)
  }

  /** `1 << p` in a word of `len` bits. */
  function OneHot(len: nat, p: nat): (r: seq<bool>)
    ensures |r| == len
    ensures forall q :: 0 <= q < len ==> r[q] == (q == p)
  {
    OneHotBits(len, p);
    Shl(OfBool(len, true), p)
  }

  lemma OneHotBits(len: nat, p: nat)
    ensures forall q :: 0 <= q < len ==> Shl(OfBool(len, true), p)[q] == (q == p)
  {
    forall q | 0 <= q < len
      ensures Shl(OfBool(len, true), p)[q] == (q == p)
    {
      assert Shl(OfBool(len, true), p)[q] == At(OfBool(len, true), q - p);
    }
  }

  /** `a` has no bit set at position `w` or above, that is, a < 2^w. */
  predicate Fits(a: seq<bool>, w: nat)
  {
    forall i :: w <= i < |a| ==> !a[i]
  }

  /** The unsigned number denoted by `a`. */
  function Value(a: seq<bool>): nat
  {
    if |a| == 0 then 0 else (if a[0] then 1 else 0) + 2 * Value(a[1..])
  }

  /** The low `n` bits of the natural `x`. */
  function OfNat(x: nat, n: nat): (r: seq<bool>)
    ensures |r| == n
  {
    if n == 0 then [] else [x % 2 == 1] + OfNat(x / 2, n - 1)
  }

  /** The low `n` bits of a number below 2^n denote it. */
  lemma {:induction false} OfNatValue(x: nat, n: nat)
    requires x < Pow2(n)
    ensures Value(OfNat(x, n)) == x
  {
    if n > 0 {
      var r := OfNat(x, n);
      OfNatValue(x / 2, n - 1);
      assert r[1..] == OfNat(x / 2, n - 1);
    }
  }

  /** The bits of a number below 2^w are clear from position `w` on. */
  lemma {:induction false} OfNatFits(x: nat, n: nat, w: nat)
    requires x < Pow2(w)
    ensures Fits(OfNat(x, n), w)
  {
    if n > 0 {
      var r := OfNat(x, n);
      var w' := if w == 0 then 0 else w - 1;
      OfNatFits(x / 2, n - 1, w');
      forall i | w <= i < n
        ensures !r[i]
      {
        if i == 0 {
          assert x == 0;
        } else {
          assert r[i] == OfNat(x / 2, n - 1)[i - 1];
        }
      }
    }
  }

  /** A native 64-bit word as a `Word`. */
  function OfBv(x: bv64): Word
  {
    OfBvBits(x, 64)
  }

  function OfBvBits(x: bv64, n: nat): (r: seq<bool>)
    ensures |r| == n
  {
    if n == 0 then [] else [x & 1 == 1] + OfBvBits(x >> 1, n - 1)
  }

  // ---------------------------------------------------------------------
  // Ranges

  /** A word that fits in `w` bits denotes a number below 2^w. */
  lemma {:induction false} ValueFits(a: seq<bool>, w: nat)
    requires Fits(a, w)
    ensures Value(a) < Pow2(w)
  {
    if |a| > 0 {
      if w == 0 {
        ValueZero(a);
      } else {
        assert Fits(a[1..], w - 1) by {
          forall i | w - 1 <= i < |a[1..]|
            ensures !a[1..][i]
          {
            assert a[1..][i] == a[i + 1];
          }
        }
        ValueFits(a[1..], w - 1);
      }
    }
  }

  lemma {:induction false} ValueZero(a: seq<bool>)
    requires Fits(a, 0)
    ensures Value(a) == 0
  {
    if |a| > 0 {
      assert Fits(a[1..], 0) by {
        forall i | 0 <= i < |a[1..]|
          ensures !a[1..][i]
        {
          assert a[1..][i] == a[i + 1];
        }
      }
      ValueZero(a[1..]);
    }
  }

  /** Every `len`-bit word denotes a number below 2^len. */
  lemma ValueBelow(a: seq<bool>)
    ensures Value(a) < Pow2(|a|)
  {
    ValueFits(a, |a|);
  }

  lemma MaskFits(a: seq<bool>, w: nat)
    ensures Fits(And(a, Mask(|a|, w)), w)
    ensures Fits(a, w) ==> And(a, Mask(|a|, w)) == a
  {
  }

  lemma FitsXor(a: seq<bool>, b: seq<bool>, w: nat)
    requires |a| == |b| && Fits(a, w) && Fits(b, w)
    ensures Fits(Xor(a, b), w)
  {
  }

  lemma FitsMonotone(a: seq<bool>, v: nat, w: nat)
    requires Fits(a, v) && v <= w
    ensures Fits(a, w)
  {
  }

  // ---------------------------------------------------------------------
  // Euclidean remainder facts

  lemma MulNonNeg(a: int, b: int)
    requires a >= 0 && b >= 0
    ensures a * b >= 0
  {
  }

  /** The quotient and remainder are determined by any quotient-remainder decomposition. */
  lemma ModUnique(m: int, f: int, q: int, r: int)
    requires f > 0 && 0 <= r < f && m == q * f + r
    ensures m % f == r && m / f == q
  {
    var q0 := m / f;
    var r0 := m % f;
    assert m == q0 * f + r0;
    var d := q - q0;
    assert d * f == r0 - r;
    if d >= 1 {
      MulNonNeg(d - 1, f);
    }
    if d <= -1 {
      MulNonNeg(-d - 1, f);
    }
  }

  lemma ModBelow(m: nat, f: nat)
    requires m < f
    ensures m % f == m
  {
  }

  lemma ModSubDivisor(m: nat, f: nat)
    requires 0 < f <= m
    ensures (m - f) % f == m % f
  {
    var q := m / f;
    var r := m % f;
    assert m == q * f + r;
    assert m - f == (q - 1) * f + r;
    ModUnique(m - f, f, q - 1, r);
  }
}
