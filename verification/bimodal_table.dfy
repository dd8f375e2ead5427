/**
 * `BimodalArray`: signed 2-bit saturating counters packed sixteen to a
 * 32-bit word. Counter `i` lives in word `i / 16` at bit offset
 * `2 * (i % 16)`: the low bit is the direction (the prediction), the high
 * bit the hysteresis. As a signed counter the pairs (direction, hysteresis)
 * read (1,1) = 1, (1,0) = 0, (0,0) = -1, (0,1) = -2.
 */
module BimodalTable {
  import opened Bits
  import SaturatedReg

  type BimodalArray = seq<Word32>

  /** Counter `i` has a word to live in. */
  predicate Addressable(a: BimodalArray, i: nat)
  {
    i / 16 < |a|
  }

  /** Offset of counter `i`'s direction bit within its word. */
  function Offset(i: nat): (off: nat)
    ensures off % 2 == 0 && off + 1 < 32
  {
    2 * (i % 16)
  }

  /** `BimodalArray(n)`: `(n + 15) >> 4` zeroed words, enough for counters 0 .. n-1. */
  function NewBimodalArray(n: nat): (a: BimodalArray)
    ensures |a| == (n + 15) / 16
    ensures forall i: nat :: i < n ==> Addressable(a, i)
    ensures forall k :: 0 <= k < |a| ==> a[k] == Zeros(32)
  {
    seq((n + 15) / 16, _ => Zeros(32))
  }

  /** `prediction(i)`: the direction bit of counter `i`. */
  function Prediction(a: BimodalArray, i: nat): (r: bool)
    requires Addressable(a, i)
    ensures r == (Counter(a, i) >= 0)
  {
    a[i / 16][Offset(i)]
  }

  /** `sign(i)`: the same bit as `prediction(i)`. */
  function Sign(a: BimodalArray, i: nat): (r: bool)
    requires Addressable(a, i)
    ensures r == Prediction(a, i)
  {
    a[i / 16][Offset(i)]
  }

  /** The hysteresis bit of counter `i`. */
  function Hysteresis(a: BimodalArray, i: nat): bool
    requires Addressable(a, i)
  {
    a[i / 16][Offset(i) + 1]
  }

  /** Counter `i` read as a signed 2-bit value. */
  function Counter(a: BimodalArray, i: nat): (v: int)
    requires Addressable(a, i)
    ensures -2 <= v <= 1
  {
    var dir := a[i / 16][Offset(i)];
    var hys := a[i / 16][Offset(i) + 1];
    if dir then (if hys then 1 else 0) else (if hys then -2 else -1)
  }

  /** `w | (1 << p)`. */
  function SetBit(w: Word32, p: nat): (r: Word32)
    requires p < 32
    ensures r[p]
    ensures forall q :: 0 <= q < 32 && q != p ==> r[q] == w[q]
  {
    Or(w, OneHot(32, p))
  }

  /** `w ^ (1 << p)`. */
  function FlipBit(w: Word32, p: nat): (r: Word32)
    requires p < 32
    ensures r[p] == !w[p]
    ensures forall q :: 0 <= q < 32 && q != p ==> r[q] == w[q]
  {
    Xor(w, OneHot(32, p))
  }

  /**
   * `update(i, taken)`. When the direction agrees with the outcome the
   * hysteresis bit is set (`off | 1`); otherwise a set hysteresis bit is
   * cleared, or else the direction bit flipped (`off | hys`). The offset is
   * even, so `off | b` is `off + b`.
   */
  function Update(a: BimodalArray, i: nat, taken: bool): (r: BimodalArray)
    requires Addressable(a, i)
    ensures |r| == |a| && Addressable(r, i)
    ensures forall k :: 0 <= k < |a| && k != i / 16 ==> r[k] == a[k]
    ensures forall q :: 0 <= q < 32 && q != Offset(i) && q != Offset(i) + 1 ==>
      r[i / 16][q] == a[i / 16][q]
    ensures Counter(r, i) ==
      SaturatedReg.SatSumOrSub(SaturatedReg.SatCtr(2, Counter(a, i)), taken).value
  {
    var w := a[i / 16];
    var off := Offset(i);
    var dir := w[off];
    if dir == taken then
      a[i / 16 := SetBit(w, off + 1)]
    else
      var hys := w[off + 1];
      a[i / 16 := FlipBit(w, if hys then off + 1 else off)]
  }

  /** Counters other than `i` read the same after `update(i, taken)`. */
  lemma UpdateFrame(a: BimodalArray, i: nat, taken: bool, k: nat)
    requires Addressable(a, i) && Addressable(a, k) && k != i
    ensures Counter(Update(a, i, taken), k) == Counter(a, k)
  {
    if k / 16 == i / 16 {
      assert Offset(k) != Offset(i);
    }
  }

  /** Training with the predicted direction sets the hysteresis bit and keeps the prediction. */
  lemma UpdateAgreeing(a: BimodalArray, i: nat)
    requires Addressable(a, i)
    ensures Prediction(Update(a, i, Prediction(a, i)), i) == Prediction(a, i)
    ensures Hysteresis(Update(a, i, Prediction(a, i)), i)
  {
  }

  /** Two updates with the same outcome make the prediction that outcome. */
  lemma UpdateTwiceLearns(a: BimodalArray, i: nat, taken: bool)
    requires Addressable(a, i)
    ensures Prediction(Update(Update(a, i, taken), i, taken), i) == taken
  {
  }
}
