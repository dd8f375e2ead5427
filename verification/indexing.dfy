/**
 * Hashes of 64-bit words used to index predictor tables: bit reversal,
 * the XOR fold of a word into `width` bits, the reversed-XOR fold, and
 * the incrementally maintained fold of a window of a bit stream.
 */
module Indexing {
  import opened Bits

  // ---------------------------------------------------------------------
  // bitreverse (the portable butterfly loop)

  /** All 64 bits set: the loop's starting mask `~T{0}`. */
  function Ones(): Word
  {
    seq(64, _ => true)
  }

  function Not(a: Word): Word
  {
    seq(64, i requires 0 <= i < 64 => !a[i])
  }

  /** One trip of the loop: `mask ^= mask << s; x = ((x >> s) & mask) | ((x << s) & ~mask)`. */
  function ReverseRound(x: Word, mask: Word, s: nat): (Word, Word)
  {
    var m := Xor(mask, Shl(mask, s));
    (Or(And(Shr(x, s), m), And(Shl(x, s), Not(m))), m)
  }

  /** The loop from shift `s` down to 1, halving `s` each trip. */
  function ReverseLoop(x: Word, mask: Word, s: nat): Word
    decreases s
  {
    if s == 0 then x
    else
      var (x', m) := ReverseRound(x, mask, s);
      ReverseLoop(x', m, s / 2)
  }

  function BitReverse(x: Word): Word
  {
    ReverseLoop(x, Ones(), 32)
  }

  /** The mask after the trip with shift `s`: bits whose position has bit `s` clear. */
  function Pattern(s: nat): Word
    requires s > 0
  {
    seq(64, i requires 0 <= i < 64 => (i / s) % 2 == 0)
  }

  /** Position `i` with its bit `s` flipped. */
  function Flip(i: nat, s: nat): nat
    requires s > 0
  {
    if (i / s) % 2 == 0 then i + s else i - s
  }

  /**
   * The arithmetic facts one trip of the loop relies on: the new mask is the
   * pattern for `s`, and a bit moved by `s` stays inside the word.
   */
  predicate StrideOk(s: nat)
    requires s > 0
  {
    forall i: nat :: i < 64 ==>
      ((i / s) % 2 == 0) == (((i / (2 * s)) % 2 == 0) != (i >= s && ((i - s) / (2 * s)) % 2 == 0)) &&
      ((i / s) % 2 == 0 ==> i + s < 64) &&
      ((i / s) % 2 != 0 ==> i >= s)
  }

  lemma PositionFacts32(i: nat)
    requires i < 64
    ensures ((i / 32) % 2 == 0) == (((i / 64) % 2 == 0) != (i >= 32 && ((i - 32) / 64) % 2 == 0))
    ensures (i / 32) % 2 == 0 ==> i + 32 < 64
    ensures (i / 32) % 2 != 0 ==> i >= 32
  {
  }

  lemma PositionFacts16(i: nat)
    requires i < 64
    ensures ((i / 16) % 2 == 0) == (((i / 32) % 2 == 0) != (i >= 16 && ((i - 16) / 32) % 2 == 0))
    ensures (i / 16) % 2 == 0 ==> i + 16 < 64
    ensures (i / 16) % 2 != 0 ==> i >= 16
  {
  }

  lemma PositionFacts8(i: nat)
    requires i < 64
    ensures ((i / 8) % 2 == 0) == (((i / 16) % 2 == 0) != (i >= 8 && ((i - 8) / 16) % 2 == 0))
    ensures (i / 8) % 2 == 0 ==> i + 8 < 64
    ensures (i / 8) % 2 != 0 ==> i >= 8
  {
  }

  lemma PositionFacts4(i: nat)
    requires i < 64
    ensures ((i / 4) % 2 == 0) == (((i / 8) % 2 == 0) != (i >= 4 && ((i - 4) / 8) % 2 == 0))
    ensures (i / 4) % 2 == 0 ==> i + 4 < 64
    ensures (i / 4) % 2 != 0 ==> i >= 4
  {
  }

  lemma PositionFacts2(i: nat)
    requires i < 64
    ensures ((i / 2) % 2 == 0) == (((i / 4) % 2 == 0) != (i >= 2 && ((i - 2) / 4) % 2 == 0))
    ensures (i / 2) % 2 == 0 ==> i + 2 < 64
    ensures (i / 2) % 2 != 0 ==> i >= 2
  {
  }

  lemma PositionFacts1(i: nat)
    requires i < 64
    ensures ((i / 1) % 2 == 0) == (((i / 2) % 2 == 0) != (i >= 1 && ((i - 1) / 2) % 2 == 0))
    ensures (i / 1) % 2 == 0 ==> i + 1 < 64
    ensures (i / 1) % 2 != 0 ==> i >= 1
  {
  }

  lemma Stride32()
    ensures StrideOk(32)
  {
    forall i: nat | i < 64
      ensures ((i / 32) % 2 == 0) == (((i / 64) % 2 == 0) != (i >= 32 && ((i - 32) / 64) % 2 == 0))
    {
      PositionFacts32(i);
    }
  }

  lemma Stride16()
    ensures StrideOk(16)
  {
    forall i: nat | i < 64
      ensures ((i / 16) % 2 == 0) == (((i / 32) % 2 == 0) != (i >= 16 && ((i - 16) / 32) % 2 == 0))
    {
      PositionFacts16(i);
    }
  }

  lemma Stride8()
    ensures StrideOk(8)
  {
    forall i: nat | i < 64
      ensures ((i / 8) % 2 == 0) == (((i / 16) % 2 == 0) != (i >= 8 && ((i - 8) / 16) % 2 == 0))
    {
      PositionFacts8(i);
    }
  }

  lemma Stride4()
    ensures StrideOk(4)
  {
    forall i: nat | i < 64
      ensures ((i / 4) % 2 == 0) == (((i / 8) % 2 == 0) != (i >= 4 && ((i - 4) / 8) % 2 == 0))
    {
      PositionFacts4(i);
    }
  }

  lemma Stride2()
    ensures StrideOk(2)
  {
    forall i: nat | i < 64
      ensures ((i / 2) % 2 == 0) == (((i / 4) % 2 == 0) != (i >= 2 && ((i - 2) / 4) % 2 == 0))
    {
      PositionFacts2(i);
    }
  }

  lemma Stride1()
    ensures StrideOk(1)
  {
    forall i: nat | i < 64
      ensures ((i / 1) % 2 == 0) == (((i / 2) % 2 == 0) != (i >= 1 && ((i - 1) / 2) % 2 == 0))
    {
      PositionFacts1(i);
    }
  }

  lemma RoundMask(s: nat)
    requires s > 0 && StrideOk(s)
    ensures Xor(Pattern(2 * s), Shl(Pattern(2 * s), s)) == Pattern(s)
  {
    var m := Xor(Pattern(2 * s), Shl(Pattern(2 * s), s));
    forall i | 0 <= i < 64
      ensures m[i] == Pattern(s)[i]
    {
      var n: nat := i;
      assert ((n / s) % 2 == 0) == (((n / (2 * s)) % 2 == 0) != (n >= s && ((n - s) / (2 * s)) % 2 == 0));
    }
  }

  lemma RoundBits(x: Word, s: nat)
    requires s > 0 && StrideOk(s)
    ensures ReverseRound(x, Pattern(2 * s), s).1 == Pattern(s)
    ensures forall i :: 0 <= i < 64 ==> Flip(i, s) < 64 && ReverseRound(x, Pattern(2 * s), s).0[i] == x[Flip(i, s)]
  {
    RoundMask(s);
    var m := Pattern(s);
    var y := Or(And(Shr(x, s), m), And(Shl(x, s), Not(m)));
    forall i | 0 <= i < 64
      ensures Flip(i, s) < 64 && y[i] == x[Flip(i, s)]
    {
      var n: nat := i;
      assert ((n / s) % 2 == 0 ==> n + s < 64) && ((n / s) % 2 != 0 ==> n >= s);
      if (i / s) % 2 == 0 {
        assert y[i] == At(x, i + s);
      } else {
        assert y[i] == At(x, i - s);
      }
    }
  }

  /** Low bits of a position reversed within blocks of `m`. */
  function LowReversed(i: nat, m: nat): nat
    requires m > 0
  {
    i - i % m + (m - 1 - i % m)
  }

  lemma Flip1(i: nat)
    ensures Flip(i, 1) == LowReversed(i, 2)
  {
  }

  /**
   * Flipping the bit of weight `m` of an index whose low `m` bits are
   * reversed reverses its low `2m` bits.
   */
  lemma FlipDoubles(i: nat, m: nat)
    requires m > 0
    ensures Flip(LowReversed(i, m), m) == LowReversed(i, 2 * m)
  {
    var q := i / (2 * m);
    var r := i % (2 * m);
    assert i == q * (2 * m) + r;
    var low := LowReversed(i, m);
    if r < m {
      ModUnique(i, m, 2 * q, r);
      assert low == (2 * q) * m + (m - 1 - r);
      ModUnique(low, m, 2 * q, m - 1 - r);
      ModUnique(2 * q, 2, q, 0);
    } else {
      ModUnique(i, m, 2 * q + 1, r - m);
      assert low == (2 * q + 1) * m + (2 * m - 1 - r);
      ModUnique(low, m, 2 * q + 1, 2 * m - 1 - r);
      ModUnique(2 * q + 1, 2, q, 1);
    }
  }

  lemma Flip32(i: nat)
    requires i < 64
    ensures Flip(LowReversed(i, 32), 32) == 63 - i
  {
  }

  lemma Round32(x: Word)
    ensures ReverseRound(x, Pattern(64), 32).1 == Pattern(32)
    ensures forall i :: 0 <= i < 64 ==> Flip(i, 32) < 64 && ReverseRound(x, Pattern(64), 32).0[i] == x[Flip(i, 32)]
  {
    Stride32();
    RoundBits(x, 32);
  }

  lemma Round16(x: Word)
    ensures ReverseRound(x, Pattern(32), 16).1 == Pattern(16)
    ensures forall i :: 0 <= i < 64 ==> Flip(i, 16) < 64 && ReverseRound(x, Pattern(32), 16).0[i] == x[Flip(i, 16)]
  {
    Stride16();
    RoundBits(x, 16);
  }

  lemma Round8(x: Word)
    ensures ReverseRound(x, Pattern(16), 8).1 == Pattern(8)
    ensures forall i :: 0 <= i < 64 ==> Flip(i, 8) < 64 && ReverseRound(x, Pattern(16), 8).0[i] == x[Flip(i, 8)]
  {
    Stride8();
    RoundBits(x, 8);
  }

  lemma Round4(x: Word)
    ensures ReverseRound(x, Pattern(8), 4).1 == Pattern(4)
    ensures forall i :: 0 <= i < 64 ==> Flip(i, 4) < 64 && ReverseRound(x, Pattern(8), 4).0[i] == x[Flip(i, 4)]
  {
    Stride4();
    RoundBits(x, 4);
  }

  lemma Round2(x: Word)
    ensures ReverseRound(x, Pattern(4), 2).1 == Pattern(2)
    ensures forall i :: 0 <= i < 64 ==> Flip(i, 2) < 64 && ReverseRound(x, Pattern(4), 2).0[i] == x[Flip(i, 2)]
  {
    Stride2();
    RoundBits(x, 2);
  }

  lemma Round1(x: Word)
    ensures ReverseRound(x, Pattern(2), 1).1 == Pattern(1)
    ensures forall i :: 0 <= i < 64 ==> Flip(i, 1) < 64 && ReverseRound(x, Pattern(2), 1).0[i] == x[Flip(i, 1)]
  {
    Stride1();
    RoundBits(x, 1);
  }

  /** One trip of the loop on the data word, with the mask the trip expects. */
  function Trip(x: Word, s: nat): Word
    requires s > 0
  {
    ReverseRound(x, Pattern(2 * s), s).0
  }

  lemma ReverseUnfold(x: Word)
    ensures BitReverse(x) == LowTrips(HighTrips(x))
  {
    assert Ones() == Pattern(64);
    var x1 := Trip(x, 32);
    Round32(x);
    var x2 := Trip(x1, 16);
    Round16(x1);
    var x3 := Trip(x2, 8);
    Round8(x2);
    var x4 := Trip(x3, 4);
    Round4(x3);
    var x5 := Trip(x4, 2);
    Round2(x4);
    Round1(x5);
  }

  /** Where the three outer trips (shifts 32, 16, 8) fetch bit `i` from. */
  function FlipHigh(i: nat): nat
  {
    Flip(Flip(Flip(i, 8), 16), 32)
  }

  /** Where the three inner trips (shifts 4, 2, 1) fetch bit `i` from. */
  function FlipLow(i: nat): nat
  {
    Flip(Flip(Flip(i, 1), 2), 4)
  }

  function HighTrips(x: Word): Word
  {
    Trip(Trip(Trip(x, 32), 16), 8)
  }

  function LowTrips(x: Word): Word
  {
    Trip(Trip(Trip(x, 4), 2), 1)
  }

  lemma HighTripsBits(x: Word)
    ensures forall i :: 0 <= i < 64 ==> FlipHigh(i) < 64 && HighTrips(x)[i] == x[FlipHigh(i)]
  {
    var x1 := Trip(x, 32);
    Round32(x);
    var x2 := Trip(x1, 16);
    Round16(x1);
    Round8(x2);
  }

  lemma LowTripsBits(x: Word)
    ensures forall i :: 0 <= i < 64 ==> FlipLow(i) < 64 && LowTrips(x)[i] == x[FlipLow(i)]
  {
    var x1 := Trip(x, 4);
    Round4(x);
    var x2 := Trip(x1, 2);
    Round2(x1);
    Round1(x2);
  }

  lemma FlipsReverse(i: nat)
    requires i < 64
    ensures FlipHigh(FlipLow(i)) == 63 - i
  {
    Flip1(i);
    FlipDoubles(i, 2);
    FlipDoubles(i, 4);
    FlipDoubles(i, 8);
    FlipDoubles(i, 16);
    Flip32(i);
  }

  lemma TripsCompose(x: Word)
    ensures forall i :: 0 <= i < 64 ==> FlipHigh(FlipLow(i)) < 64 && LowTrips(HighTrips(x))[i] == x[FlipHigh(FlipLow(i))]
  {
    HighTripsBits(x);
    LowTripsBits(HighTrips(x));
  }

  /** `bitreverse` sends bit `i` to bit `63 - i`. */
  lemma BitReverseBits(x: Word)
    ensures forall i :: 0 <= i < 64 ==> BitReverse(x)[i] == x[63 - i]
  {
    ReverseUnfold(x);
    TripsCompose(x);
    forall i | 0 <= i < 64
      ensures LowTrips(HighTrips(x))[i] == x[63 - i]
    {
      FlipsReverse(i);
    }
  }

  /** `bitreverse` is an involution. */
  lemma BitReverseInvolution(x: Word)
    ensures BitReverse(BitReverse(x)) == x
  {
    BitReverseBits(x);
    BitReverseBits(BitReverse(x));
  }

  // ---------------------------------------------------------------------
  // XorFold

  /**
   * The folding loop from iteration `i` on: `fold ^= value; value >>= width`
   * while `i < 64`, stepping `i` by `width`.
   */
  function FoldLoop(value: Word, width: nat, i: nat): Word
    requires width > 0
    decreases 64 - i
  {
    if i >= 64 then Zeros(64) else Xor(value, FoldLoop(Shr(value, width), width, i + width))
  }

  /** The XOR of the consecutive `width`-bit chunks of `value`. */
  function XorFold(value: Word, width: nat): (r: Word)
    requires width < 64
    ensures Fits(r, width)
    ensures width == 0 ==> r == Zeros(64)
  {
    if width == 0 then Zeros(64)
    else
      MaskFits(FoldLoop(value, width, 0), width);
      And(FoldLoop(value, width, 0), Mask(64, width))
  }

  /** Chunk `k` onward: `(value >> k) & mask` for k = start, start + width, ... below 64. */
  function ChunkXor(value: Word, width: nat, k: nat): Word
    requires width > 0
    decreases 64 - k
  {
    if k >= 64 then Zeros(64)
    else Xor(And(Shr(value, k), Mask(64, width)), ChunkXor(value, width, k + width))
  }

  lemma ShrShr(a: Word, m: nat, n: nat)
    ensures Shr(Shr(a, m), n) == Shr(a, m + n)
  {
    forall i | 0 <= i < 64
      ensures Shr(Shr(a, m), n)[i] == Shr(a, m + n)[i]
    {
      assert Shr(Shr(a, m), n)[i] == At(Shr(a, m), i + n);
      assert Shr(a, m + n)[i] == At(a, i + (m + n));
      if i + n < 64 {
        assert Shr(a, m)[i + n] == At(a, i + n + m);
      }
    }
  }

  lemma {:induction false} ChunkXorFits(value: Word, width: nat, k: nat)
    requires width > 0
    ensures Fits(ChunkXor(value, width, k), width)
    decreases 64 - k
  {
    if k < 64 {
      ChunkXorFits(value, width, k + width);
      MaskFits(Shr(value, k), width);
      FitsXor(And(Shr(value, k), Mask(64, width)), ChunkXor(value, width, k + width), width);
    }
  }

  lemma {:induction false} LoopChunks(value: Word, width: nat, k: nat)
    requires width > 0
    ensures forall j :: 0 <= j < width && j < 64 ==>
      FoldLoop(Shr(value, k), width, k)[j] == ChunkXor(value, width, k)[j]
    decreases 64 - k
  {
    if k < 64 {
      LoopChunks(value, width, k + width);
      ShrShr(value, k, width);
    }
  }

  /** XorFold is the XOR of the word's consecutive `width`-bit chunks. */
  lemma XorFoldChunks(value: Word, width: nat)
    requires 0 < width < 64
    ensures XorFold(value, width) == ChunkXor(value, width, 0)
  {
    assert Shr(value, 0) == value;
    LoopChunks(value, width, 0);
    ChunkXorFits(value, width, 0);
  }

  lemma {:induction false} ChunksAboveFit(value: Word, width: nat, k: nat)
    requires width > 0 && k >= width && Fits(value, width)
    ensures ChunkXor(value, width, k) == Zeros(64)
    decreases 64 - k
  {
    if k < 64 {
      ChunksAboveFit(value, width, k + width);
      forall j | 0 <= j < 64
        ensures And(Shr(value, k), Mask(64, width))[j] == false
      {
        assert Shr(value, k)[j] == At(value, j + k);
      }
    }
  }

  /** A value that already fits in `width` bits is its own fold. */
  lemma XorFoldOfFitting(value: Word, width: nat)
    requires 0 < width < 64 && Fits(value, width)
    ensures XorFold(value, width) == value
  {
    XorFoldChunks(value, width);
    ChunksAboveFit(value, width, width);
    assert Shr(value, 0) == value;
    MaskFits(value, width);
  }

  // ---------------------------------------------------------------------
  // RoxFold

  /** XorFold into `2 * width` bits, then fold that onto its own mirror image. */
  function RoxFold(value: Word, width: nat): (r: Word)
    requires width < 32
    ensures Fits(r, width)
    ensures width == 0 ==> r == Zeros(64)
  {
    if width == 0 then Zeros(64)
    else
      var fold := XorFold(value, 2 * width);
      var mixed := Xor(fold, Shr(BitReverse(fold), 64 - 2 * width));
      MaskFits(mixed, width);
      And(mixed, Mask(64, width))
  }

  /** Bit `j` of RoxFold is bit `j` of the double-width fold XOR its mirror bit `2w - 1 - j`. */
  lemma RoxFoldBits(value: Word, width: nat)
    requires 0 < width < 32
    ensures forall j :: 0 <= j < 64 ==>
      RoxFold(value, width)[j] ==
        (j < width && (XorFold(value, 2 * width)[j] != XorFold(value, 2 * width)[2 * width - 1 - j]))
  {
    var fold := XorFold(value, 2 * width);
    BitReverseBits(fold);
    var mirrored := Shr(BitReverse(fold), 64 - 2 * width);
    forall j | 0 <= j < width
      ensures mirrored[j] == fold[2 * width - 1 - j]
    {
      assert mirrored[j] == BitReverse(fold)[j + 64 - 2 * width];
    }
    forall j | 0 <= j < 64
      ensures RoxFold(value, width)[j] ==
        (j < width && (fold[j] != fold[2 * width - 1 - j]))
    {
      var mixed := Xor(fold, mirrored);
      assert RoxFold(value, width) == And(mixed, Mask(64, width));
      if j < width {
        assert mixed[j] == (fold[j] != mirrored[j]);
      }
    }
  }

  // ---------------------------------------------------------------------
  // BitStreamXorFold

  /**
   * The XOR fold of a window of a bit stream, kept up to date as bits enter
   * and leave the window. `bitOut` is where a bit leaving the window lands
   * in the fold.
   */
  datatype BitStreamXorFold = BitStreamXorFold(fold: Word, foldLen: nat, bitOut: nat)

  /** A fold of `foldLen` bits for a window of `winLen` bits, holding `foldVal`. */
  function NewFoldWith(winLen: nat, foldLen: nat, foldVal: Word): (r: BitStreamXorFold)
    ensures r.fold == foldVal && r.foldLen == foldLen
    ensures foldLen == 0 ==> r.bitOut == 0
    ensures foldLen > 0 ==> r.bitOut < foldLen && r.bitOut <= winLen && (winLen - r.bitOut) % foldLen == 0
  {
    if foldLen == 0 then BitStreamXorFold(foldVal, foldLen, 0)
    else
      ModUnique(winLen - winLen % foldLen, foldLen, winLen / foldLen, 0);
      BitStreamXorFold(foldVal, foldLen, winLen % foldLen)
  }

  /** A zeroed fold of `foldLen` bits for a window of `winLen` bits. */
  function NewFold(winLen: nat, foldLen: nat): (r: BitStreamXorFold)
    ensures r.fold == Zeros(64) && r.foldLen == foldLen
    ensures foldLen == 0 ==> r.bitOut == 0
    ensures foldLen > 0 ==> r.bitOut < foldLen && r.bitOut <= winLen && (winLen - r.bitOut) % foldLen == 0
  {
    NewFoldWith(winLen, foldLen, Zeros(64))
  }

  /** A 32-bit value zero-extended to 64 bits. */
  function Widen(a: Word32): Word
  {
    a + Zeros(32)
  }

  /**
   * `shiftInAndOut`: `fold <<= nbits; fold ^= incoming ^ (outgoing << bitOut);
   * fold ^= fold >> foldLen; fold &= (1 << foldLen) - 1`, where the shift of
   * `outgoing` is done in 32 bits. Returns the new state and the new fold.
   */
  function ShiftInAndOut(r: BitStreamXorFold, nbits: nat, incoming: Word32, outgoing: Word32): (res: (BitStreamXorFold, Word))
    requires nbits < 64 && r.foldLen < 64 && r.bitOut < 32
    ensures res.0.foldLen == r.foldLen && res.0.bitOut == r.bitOut
    ensures res.1 == res.0.fold
    ensures Fits(res.1, r.foldLen)
    ensures r.foldLen == 0 ==> res.1 == Zeros(64)
  {
    var f1 := Shl(r.fold, nbits);
    var f2 := Xor(f1, Widen(Xor(incoming, Shl(outgoing, r.bitOut))));
    var f3 := Xor(f2, Shr(f2, r.foldLen));
    MaskFits(f3, r.foldLen);
    var f4 := And(f3, Mask(64, r.foldLen));
    (r.(fold := f4), f4)
  }
}
