/**
 * What a BitStreamXorFold holds after it has been fed a stream one bit at a
 * time: the XOR fold of the newest `winLen` bits of the stream. This is the
 * property the TAGE-style predictors rely on when they keep their folded
 * histories incrementally instead of refolding the whole history.
 */
module FoldWindow {
  import opened Bits
  import opened Indexing

  /** Bit `p` of a history listed newest first; bits not seen yet read as 0. */
  function HistBit(hist: seq<bool>, p: nat): bool
  {
    p < |hist| && hist[p]
  }

  /** Parity of the history bits at positions p, p + f, p + 2f, ... below `winLen`. */
  function Column(hist: seq<bool>, winLen: nat, f: nat, p: nat): bool
    requires f > 0
    decreases winLen - p
  {
    if p >= winLen then false else HistBit(hist, p) != Column(hist, winLen, f, p + f)
  }

  /**
   * The reference fold of the newest `winLen` history bits into `f` bits:
   * bit j is the parity of every window position congruent to j modulo f.
   */
  function WindowFold(hist: seq<bool>, winLen: nat, f: nat): (r: Word)
    requires f < 64
    ensures Fits(r, f)
  {
    if f == 0 then Zeros(64)
    else seq(64, j requires 0 <= j < 64 => j < f && Column(hist, winLen, f, j))
  }

  /** The newest `winLen` history bits as a 64-bit word, newest bit lowest. */
  function HistoryWord(hist: seq<bool>, winLen: nat): Word
  {
    seq(64, p requires 0 <= p < 64 => p < winLen && HistBit(hist, p))
  }

  /**
   * A fold for a `winLen`-bit window fed the history oldest bit first, each
   * step shifting one new bit in and the bit that leaves the window out.
   */
  function Stream(hist: seq<bool>, winLen: nat, f: nat): (r: BitStreamXorFold)
    requires f <= 32
    ensures r.foldLen == f && r.bitOut == NewFold(winLen, f).bitOut
    ensures Fits(r.fold, f)
    decreases |hist|
  {
    if |hist| == 0 then NewFold(winLen, f)
    else
      var prev := Stream(hist[1..], winLen, f);
      ShiftInAndOut(prev, 1, OfBool(32, hist[0]), OfBool(32, HistBit(hist, winLen))).0
  }

  // ---------------------------------------------------------------------
  // Arithmetic on positions

  /** Position `m` lies in column `j` exactly when `m - j` is a multiple of `f`. */
  lemma {:induction false} ModColumn(m: nat, j: nat, f: nat)
    requires 0 <= j < f && j <= m
    ensures ((m - j) % f == 0) == (m % f == j)
    decreases m
  {
    if m < f {
      ModBelow(m, f);
      ModBelow(m - j, f);
    } else if m - j < f {
      ModBelow(m - j, f);
      ModSubDivisor(m, f);
      ModBelow(m - f, f);
    } else {
      ModColumn(m - f, j, f);
      ModSubDivisor(m, f);
      ModSubDivisor(m - j, f);
      assert m - j - f == m - f - j;
    }
  }

  // ---------------------------------------------------------------------
  // How the columns move when a bit is added

  lemma {:induction false} ColumnEmpty(winLen: nat, f: nat, p: nat)
    requires f > 0
    ensures !Column([], winLen, f, p)
    decreases winLen - p
  {
    if p < winLen {
      ColumnEmpty(winLen, f, p + f);
    }
  }

  /** Growing the window by one position toggles the column that position falls in. */
  lemma {:induction false} ColumnExtend(hist: seq<bool>, n: nat, f: nat, p: nat)
    requires f > 0
    ensures Column(hist, n + 1, f, p) ==
      (Column(hist, n, f, p) != (p <= n && (n - p) % f == 0 && HistBit(hist, n)))
    decreases n - p
  {
    if p < n {
      ColumnExtend(hist, n, f, p + f);
      if p + f <= n {
        ModSubDivisor(n - p, f);
        assert n - p - f == n - (p + f);
      } else {
        ModBelow(n - p, f);
      }
    } else if p == n {
      assert Column(hist, n + 1, f, p) == HistBit(hist, n);
    }
  }

  /** A new newest bit moves every old bit one position up. */
  lemma {:induction false} ColumnShift(x: bool, hist: seq<bool>, n: nat, f: nat, p: nat)
    requires f > 0
    ensures Column([x] + hist, n + 1, f, p + 1) == Column(hist, n, f, p)
    decreases n - p
  {
    if p < n {
      ColumnShift(x, hist, n, f, p + f);
      assert HistBit([x] + hist, p + 1) == HistBit(hist, p);
      assert p + 1 + f == p + f + 1;
    }
  }

  /** Column j of the longer history, expressed through the columns of the shorter one. */
  lemma WindowStep(x: bool, hist: seq<bool>, h: nat, f: nat, j: nat)
    requires 0 <= j < f
    ensures Column([x] + hist, h, f, j) ==
      (((if j == 0 then Column(hist, h, f, f - 1) else Column(hist, h, f, j - 1))
        != (j == 0 && x)) != (j == h % f && HistBit([x] + hist, h)))
  {
    if h == 0 {
      ModBelow(0, f);
      assert !Column([x] + hist, h, f, j);
      assert !Column(hist, h, f, if j == 0 then f - 1 else j - 1);
      assert HistBit([x] + hist, 0) == x;
    } else {
      var n := h - 1;
      assert HistBit([x] + hist, h) == HistBit(hist, n);
      if j == 0 {
        ColumnShift(x, hist, n, f, f - 1);
        assert Column([x] + hist, h, f, 0) == (x != Column([x] + hist, h, f, f));
        ColumnExtend(hist, n, f, f - 1);
        if f <= h {
          ModSubDivisor(h, f);
          ModColumn(h - f, 0, f);
          assert n - (f - 1) == h - f;
        } else {
          ModBelow(h, f);
        }
      } else {
        ColumnShift(x, hist, n, f, j - 1);
        ColumnExtend(hist, n, f, j - 1);
        if j <= h {
          ModColumn(h, j, f);
          assert n - (j - 1) == h - j;
        } else {
          ModBelow(h, f);
        }
      }
    }
  }

  // ---------------------------------------------------------------------
  // One step of the register, bit by bit

  /** The word `incoming ^ (outgoing << bitOut)` for one-bit `incoming` and `outgoing`. */
  function Injected(x: bool, out: bool, b: nat): Word
  {
    Widen(Xor(OfBool(32, x), Shl(OfBool(32, out), b)))
  }

  lemma InjectedBits(x: bool, out: bool, b: nat)
    requires b < 32
    ensures forall j :: 0 <= j < 64 ==> Injected(x, out, b)[j] == ((j == 0 && x) != (j == b && out))
  {
    forall j | 0 <= j < 64
      ensures Injected(x, out, b)[j] == ((j == 0 && x) != (j == b && out))
    {
      if j < 32 {
        var shifted := Shl(OfBool(32, out), b);
        assert Injected(x, out, b)[j] == (OfBool(32, x)[j] != shifted[j]);
        assert shifted[j] == At(OfBool(32, out), j - b);
      }
    }
  }

  /**
   * Shifting one bit in rotates the fold left by one within its `foldLen`
   * bits, adds the incoming bit at bit 0 and the outgoing bit at `bitOut`.
   */
  lemma ShiftOneBits(r: BitStreamXorFold, x: bool, out: bool)
    requires 1 <= r.foldLen <= 32 && r.bitOut < r.foldLen && Fits(r.fold, r.foldLen)
    ensures forall j :: 0 <= j < r.foldLen ==>
      ShiftInAndOut(r, 1, OfBool(32, x), OfBool(32, out)).1[j] ==
        (((if j == 0 then r.fold[r.foldLen - 1] else r.fold[j - 1])
          != (j == 0 && x)) != (j == r.bitOut && out))
  {
    var f := r.foldLen;
    var f1 := Shl(r.fold, 1);
    var g := Injected(x, out, r.bitOut);
    InjectedBits(x, out, r.bitOut);
    var f2 := Xor(f1, g);
    var f3 := Xor(f2, Shr(f2, f));
    assert ShiftInAndOut(r, 1, OfBool(32, x), OfBool(32, out)).1 == And(f3, Mask(64, f));
    forall j | 0 <= j < f
      ensures f3[j] ==
        (((if j == 0 then r.fold[f - 1] else r.fold[j - 1]) != (j == 0 && x)) != (j == r.bitOut && out))
    {
      assert f1[j] == (j > 0 && r.fold[j - 1]);
      assert f1[j + f] == (j == 0 && r.fold[f - 1]);
      assert f3[j] == (f2[j] != f2[j + f]);
    }
  }

  // ---------------------------------------------------------------------
  // The theorem

  /**
   * After any history has been streamed through it, the register holds the
   * fold of exactly the newest `winLen` bits.
   */
  lemma {:induction false} StreamIsWindowFold(hist: seq<bool>, winLen: nat, f: nat)
    requires f <= 32
    ensures Stream(hist, winLen, f).fold == WindowFold(hist, winLen, f)
    decreases |hist|
  {
    if f == 0 {
    } else if |hist| == 0 {
      forall j | 0 <= j < 64
        ensures WindowFold(hist, winLen, f)[j] == false
      {
        ColumnEmpty(winLen, f, j);
      }
    } else {
      var x := hist[0];
      var rest := hist[1..];
      assert hist == [x] + rest;
      StreamIsWindowFold(rest, winLen, f);
      var prev := Stream(rest, winLen, f);
      ShiftOneBits(prev, x, HistBit(hist, winLen));
      forall j | 0 <= j < 64
        ensures Stream(hist, winLen, f).fold[j] == WindowFold(hist, winLen, f)[j]
      {
        if j < f {
          WindowStep(x, rest, winLen, f, j);
        }
      }
    }
  }

  lemma {:induction false} ChunkColumns(hist: seq<bool>, winLen: nat, f: nat, k: nat)
    requires 0 < f < 64 && winLen <= 64
    ensures forall j :: 0 <= j < f ==>
      ChunkXor(HistoryWord(hist, winLen), f, k)[j] == Column(hist, winLen, f, k + j)
    decreases 64 - k
  {
    var w := HistoryWord(hist, winLen);
    if k < 64 {
      ChunkColumns(hist, winLen, f, k + f);
      forall j | 0 <= j < f
        ensures ChunkXor(w, f, k)[j] == Column(hist, winLen, f, k + j)
      {
        assert Shr(w, k)[j] == At(w, k + j);
        assert k + f + j == k + j + f;
      }
    }
  }

  /**
   * For windows of at most 64 bits the streamed register agrees with folding
   * the whole window word from scratch with XorFold.
   */
  lemma StreamIsXorFold(hist: seq<bool>, winLen: nat, f: nat)
    requires 0 < f <= 32 && winLen <= 64
    ensures Stream(hist, winLen, f).fold == XorFold(HistoryWord(hist, winLen), f)
  {
    StreamIsWindowFold(hist, winLen, f);
    XorFoldChunks(HistoryWord(hist, winLen), f);
    ChunkColumns(hist, winLen, f, 0);
  }
}
