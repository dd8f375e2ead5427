/**
 * The global history shared by the TAGE-style predictors and the hashed
 * perceptron: a circular buffer of outcomes written backwards (`ghist` and
 * `ghistIdx`), and per-table `BitStreamXorFold`s that `track` shifts by one
 * bit, feeding each the outcome that leaves that table's window.
 *
 * The buffer and the folds are related to the full sequence of tracked
 * outcomes, newest first, which the model carries as a separate argument:
 * the buffer holds its newest bits, and every fold is the `Stream` of it.
 */
module GlobalHistory {
  import opened Bits
  import opened Indexing
  import opened FoldWindow

  /** The buffer and the index of the newest outcome. */
  datatype Ring = Ring(buf: seq<bool>, idx: nat)

  predicate RingValid(r: Ring)
  {
    0 < |r.buf| && r.idx < |r.buf|
  }

  /** A buffer of `size` cleared outcomes with the index at 0. */
  function NewRing(size: nat): (r: Ring)
    requires size > 0
    ensures RingValid(r) && |r.buf| == size
    ensures forall p :: 0 <= p < size ==> !r.buf[p]
  {
    Ring(Zeros(size), 0)
  }

  /**
   * The buffer holds the newest `|buf|` bits of `hist` (newest first):
   * the bit `p` places back sits `p` slots after the index, cyclically.
   */
  predicate Holds(r: Ring, hist: seq<bool>)
    requires RingValid(r)
  {
    forall p :: 0 <= p < |r.buf| ==> r.buf[(r.idx + p) % |r.buf|] == HistBit(hist, p)
  }

  /** A cleared buffer holds the empty history. */
  lemma NewRingHolds(size: nat)
    requires size > 0
    ensures Holds(NewRing(size), [])
  {
    var r := NewRing(size);
    forall p | 0 <= p < size
      ensures r.buf[(r.idx + p) % size] == HistBit([], p)
    {
      assert (r.idx + p) % size == p;
    }
  }

  /**
   * The first two statements of `track`: the index moves back one slot,
   * wrapping from 0 to the end, and the outcome is stored there.
   */
  function Push(r: Ring, x: bool): (r': Ring)
    requires RingValid(r)
    ensures RingValid(r') && |r'.buf| == |r.buf| && r'.buf[r'.idx] == x
    ensures (r'.idx + 1) % |r.buf| == r.idx
  {
    var i := (if r.idx == 0 then |r.buf| else r.idx) - 1;
    ModSmall(i + 1, |r.buf|);
    Ring(r.buf[i := x], i)
  }

  /** `a % n` for `a` below `2n`. */
  lemma ModSmall(a: nat, n: nat)
    requires 0 < n && a < 2 * n
    ensures a % n == (if a < n then a else a - n)
  {
    if a < n {
      ModUnique(a, n, 0, a);
    } else {
      ModUnique(a, n, 1, a - n);
    }
  }

  /** Pushing an outcome onto a buffer that holds `hist` makes it hold `[x] + hist`. */
  lemma PushHolds(r: Ring, hist: seq<bool>, x: bool)
    requires RingValid(r) && Holds(r, hist)
    ensures Holds(Push(r, x), [x] + hist)
  {
    var n := |r.buf|;
    var r' := Push(r, x);
    forall p | 0 <= p < n
      ensures r'.buf[(r'.idx + p) % n] == HistBit([x] + hist, p)
    {
      ModSmall(r'.idx + p, n);
      if p > 0 {
        ModSmall(r.idx + (p - 1), n);
        assert (r'.idx + p) % n == (r.idx + (p - 1)) % n;
        assert (r'.idx + p) % n != r'.idx;
        assert HistBit([x] + hist, p) == HistBit(hist, p - 1);
      }
    }
  }

  /** The bit `len` slots after the index: `ghist[(ghistIdx + len) % size]`. */
  function Outgoing(r: Ring, len: nat): bool
    requires RingValid(r)
  {
    r.buf[(r.idx + len) % |r.buf|]
  }

  /**
   * Read after the push, the outgoing bit for a window of `len` bits is the
   * outcome tracked `len` calls earlier, or 0 before there was one; this
   * needs the buffer to be longer than the window.
   */
  lemma OutgoingIs(r: Ring, hist: seq<bool>, len: nat)
    requires RingValid(r) && Holds(r, hist) && len < |r.buf|
    ensures Outgoing(r, len) == HistBit(hist, len)
  {
  }

  /** The longest window, which sizes the buffer (`maxGhistLen`). */
  function MaxLen(lens: seq<nat>): (m: nat)
    ensures forall i :: 0 <= i < |lens| ==> lens[i] <= m
    ensures m == 0 || exists i :: 0 <= i < |lens| && lens[i] == m
  {
    if |lens| == 0 then 0
    else
      var rest := MaxLen(lens[1..]);
      assert forall i :: 1 <= i < |lens| ==> lens[i] == lens[1..][i - 1];
      if lens[0] >= rest then lens[0] else rest
  }

  // ---------------------------------------------------------------------
  // Per-table folds

  /** Folds the streams can be fed to: widths up to 32 bits, each value within its width. */
  predicate FoldsValid(folds: seq<BitStreamXorFold>, lens: seq<nat>)
  {
    |folds| == |lens| &&
    forall i :: 0 <= i < |folds| ==>
      folds[i].foldLen <= 32 && folds[i].bitOut < 32 && Fits(folds[i].fold, folds[i].foldLen)
  }

  /** Freshly constructed folds `BitStreamXorFold(lens[i], widths[i])`. */
  function NewFolds(lens: seq<nat>, widths: seq<nat>): (folds: seq<BitStreamXorFold>)
    requires |widths| == |lens| && forall i :: 0 <= i < |widths| ==> widths[i] <= 32
    ensures FoldsValid(folds, lens)
    ensures forall i :: 0 <= i < |folds| ==> folds[i].foldLen == widths[i] && folds[i].fold == Zeros(64)
  {
    seq(|lens|, i requires 0 <= i < |lens| => NewFold(lens[i], widths[i]))
  }

  /**
   * The loop of `track`: every fold shifts the outcome in and the buffer's
   * outgoing bit for its window out. The buffer is the one after the push.
   */
  function ShiftFolds(folds: seq<BitStreamXorFold>, lens: seq<nat>, r: Ring, x: bool): (res: seq<BitStreamXorFold>)
    requires RingValid(r) && FoldsValid(folds, lens)
    ensures FoldsValid(res, lens)
    ensures forall i :: 0 <= i < |res| ==> res[i].foldLen == folds[i].foldLen && res[i].bitOut == folds[i].bitOut
  {
    seq(|folds|, i requires 0 <= i < |folds| =>
      ShiftInAndOut(folds[i], 1, OfBool(32, x), OfBool(32, Outgoing(r, lens[i]))).0)
  }

  /** Every fold is the stream of the history through its window. */
  predicate FoldsHold(folds: seq<BitStreamXorFold>, lens: seq<nat>, hist: seq<bool>)
    requires FoldsValid(folds, lens)
  {
    forall i :: 0 <= i < |folds| ==> folds[i] == Stream(hist, lens[i], folds[i].foldLen)
  }

  /** New folds hold the empty history. */
  lemma NewFoldsHold(lens: seq<nat>, widths: seq<nat>)
    requires |widths| == |lens| && forall i :: 0 <= i < |widths| ==> widths[i] <= 32
    ensures FoldsHold(NewFolds(lens, widths), lens, [])
  {
  }

  /**
   * Shifting every fold after pushing `x` keeps them the streams of the
   * history, now `[x] + hist`, provided the buffer is longer than every
   * window.
   */
  lemma ShiftFoldsHold(folds: seq<BitStreamXorFold>, lens: seq<nat>, r: Ring, hist: seq<bool>, x: bool)
    requires RingValid(r) && FoldsValid(folds, lens) && FoldsHold(folds, lens, hist)
    requires Holds(Push(r, x), [x] + hist)
    requires forall i :: 0 <= i < |lens| ==> lens[i] < |r.buf|
    ensures FoldsHold(ShiftFolds(folds, lens, Push(r, x), x), lens, [x] + hist)
  {
    var r' := Push(r, x);
    var res := ShiftFolds(folds, lens, r', x);
    var h' := [x] + hist;
    forall i | 0 <= i < |folds|
      ensures res[i] == Stream(h', lens[i], res[i].foldLen)
    {
      OutgoingIs(r', h', lens[i]);
      assert h'[1..] == hist;
      assert h'[0] == x;
    }
  }

  /**
   * What the folds mean: a fold that holds the history is the XOR fold of
   * that table's window of the newest outcomes.
   */
  lemma FoldsAreWindowFolds(folds: seq<BitStreamXorFold>, lens: seq<nat>, hist: seq<bool>, i: nat)
    requires FoldsValid(folds, lens) && FoldsHold(folds, lens, hist) && i < |folds|
    ensures folds[i].fold == WindowFold(hist, lens[i], folds[i].foldLen)
  {
    StreamIsWindowFold(hist, lens[i], folds[i].foldLen);
  }
}
