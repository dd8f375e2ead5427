/**
 * Saturating counters: the signed `SatCtr<N>`, the unsigned `USatCtr<N>` and
 * the two-sided `BatageCtr<N>` with its confidence measure. The template
 * width `N` is the `bits` field; values are mathematical integers, and every
 * operation keeps them inside the range of an `N`-bit counter, so the
 * narrow storage type of the source never wraps.
 */
module SaturatedReg {
  import opened Bits

  // ---------------------------------------------------------------------
  // SatCtr<N>

  /** `kMinValue`: -2^(N-1). */
  function SatMin(bits: nat): int
    requires 1 <= bits
  {
    0 - Pow2(bits - 1)
  }

  /** `kMaxValue`: 2^(N-1) - 1. */
  function SatMax(bits: nat): int
    requires 1 <= bits
  {
    Pow2(bits - 1) - 1
  }

  /** A signed counter of `bits` bits. A default-constructed one holds 0. */
  datatype SatCtr = SatCtr(bits: nat, value: int)

  /** The width is one the template accepts and the value fits in it. */
  predicate SatValid(c: SatCtr)
  {
    1 <= c.bits < 32 && SatMin(c.bits) <= c.value <= SatMax(c.bits)
  }

  /** `SatCtr(x)`, whose range the constructor asserts. */
  function NewSatCtr(bits: nat, x: int): (c: SatCtr)
    requires 1 <= bits < 32 && SatMin(bits) <= x <= SatMax(bits)
    ensures SatValid(c) && c.bits == bits && c.value == x
  {
    SatCtr(bits, x)
  }

  /** `++`: one step up, saturating at the maximum. */
  function SatInc(c: SatCtr): (r: SatCtr)
    requires SatValid(c)
    ensures SatValid(r) && r.bits == c.bits
    ensures c.value < SatMax(c.bits) ==> r.value == c.value + 1
    ensures c.value == SatMax(c.bits) ==> r == c
  {
    c.(value := if c.value + 1 < SatMax(c.bits) then c.value + 1 else SatMax(c.bits))
  }

  /** `--`: one step down, saturating at the minimum. */
  function SatDec(c: SatCtr): (r: SatCtr)
    requires SatValid(c)
    ensures SatValid(r) && r.bits == c.bits
    ensures c.value > SatMin(c.bits) ==> r.value == c.value - 1
    ensures c.value == SatMin(c.bits) ==> r == c
  {
    c.(value := if c.value - 1 > SatMin(c.bits) then c.value - 1 else SatMin(c.bits))
  }

  /**
   * `sumOrSub(sum)`: moves one step toward the side `sum` names, and stays
   * put exactly when already saturated on that side.
   */
  function SatSumOrSub(c: SatCtr, sum: bool): (r: SatCtr)
    requires SatValid(c)
    ensures SatValid(r) && r.bits == c.bits
    ensures sum ==> c.value <= r.value <= c.value + 1
    ensures !sum ==> c.value - 1 <= r.value <= c.value
    ensures (r.value == c.value) <==>
      (if sum then c.value == SatMax(c.bits) else c.value == SatMin(c.bits))
  {
    if sum then SatInc(c) else SatDec(c)
  }

  /** A step up below the maximum is undone by a step down. */
  lemma SatIncThenDec(c: SatCtr)
    requires SatValid(c) && c.value < SatMax(c.bits)
    ensures SatDec(SatInc(c)) == c
  {
  }

  /** `sumOrSub(sum)` applied `k` times. */
  function SatRepeat(c: SatCtr, sum: bool, k: nat): (r: SatCtr)
    requires SatValid(c)
    ensures SatValid(r) && r.bits == c.bits
    decreases k
  {
    if k == 0 then c else SatRepeat(SatSumOrSub(c, sum), sum, k - 1)
  }

  /** After `k` steps the counter has moved `k` places or hit the rail. */
  lemma {:induction false} SatRepeatDistance(c: SatCtr, sum: bool, k: nat)
    requires SatValid(c)
    ensures sum ==> SatRepeat(c, sum, k).value == Min(c.value + k, SatMax(c.bits))
    ensures !sum ==> SatRepeat(c, sum, k).value == Max(c.value - k, SatMin(c.bits))
    decreases k
  {
    if k > 0 {
      SatRepeatDistance(SatSumOrSub(c, sum), sum, k - 1);
    }
  }

  /**
   * 2^(N-1) steps in the same direction make the counter's sign agree with
   * that direction, whatever it held before.
   */
  lemma SatRepeatSign(c: SatCtr, sum: bool, k: nat)
    requires SatValid(c) && k >= Pow2(c.bits - 1)
    ensures (SatRepeat(c, sum, k).value >= 0) == sum
  {
    SatRepeatDistance(c, sum, k);
  }

  function Min(a: int, b: int): int
  {
    if a <= b then a else b
  }

  function Max(a: int, b: int): int
  {
    if a >= b then a else b
  }

  // ---------------------------------------------------------------------
  // USatCtr<N>

  /** `kMaxValue`: 2^N - 1. */
  function UMax(bits: nat): nat
  {
    Pow2(bits) - 1
  }

  const U32: nat := 0x1_0000_0000

  /** An unsigned counter of `bits` bits. */
  datatype USatCtr = USatCtr(bits: nat, value: nat)

  predicate USatValid(c: USatCtr)
  {
    1 <= c.bits < 32 && c.value <= UMax(c.bits)
  }

  /** `USatCtr(x)`, whose range the constructor asserts. */
  function NewUSatCtr(bits: nat, x: nat): (c: USatCtr)
    requires 1 <= bits < 32 && x <= UMax(bits)
    ensures USatValid(c) && c.bits == bits && c.value == x
  {
    USatCtr(bits, x)
  }

  /** `++`: one step up, saturating at 2^N - 1. */
  function USatInc(c: USatCtr): (r: USatCtr)
    requires USatValid(c)
    ensures USatValid(r) && r.bits == c.bits
    ensures c.value < UMax(c.bits) ==> r.value == c.value + 1
    ensures c.value == UMax(c.bits) ==> r == c
  {
    c.(value := if c.value + 1 < UMax(c.bits) then c.value + 1 else UMax(c.bits))
  }

  /**
   * `--` as written: `min(x - 1u, 0u)`, with the unsigned subtraction
   * wrapping modulo 2^32. The minimum with 0 makes it 0 in every case.
   */
  function USatDecAsWritten(c: USatCtr): (r: USatCtr)
    requires USatValid(c)
    ensures USatValid(r) && r.bits == c.bits
  {
    var wrapped := (c.value - 1) % U32;
    c.(value := if wrapped <= 0 then wrapped else 0)
  }

  /** The as-written `--` clears the counter whatever it held. */
  lemma USatDecAsWrittenClears(c: USatCtr)
    requires USatValid(c)
    ensures USatDecAsWritten(c).value == 0
  {
  }

  /** Counterexample: `--` on a counter holding 2 yields 0, not 1. */
  lemma USatDecAsWrittenSkips()
    ensures USatDecAsWritten(USatCtr(2, 2)).value != 2 - 1
  {
    USatDecAsWrittenClears(USatCtr(2, 2));
  }

  /** `--` as intended: one step down, saturating at 0. */
  function USatDec(c: USatCtr): (r: USatCtr)
    requires USatValid(c)
    ensures USatValid(r) && r.bits == c.bits
    ensures c.value > 0 ==> r.value == c.value - 1
    ensures c.value == 0 ==> r == c
  {
    c.(value := if c.value > 0 then c.value - 1 else 0)
  }

  /** A step up below the maximum is undone by the intended step down. */
  lemma USatIncThenDec(c: USatCtr)
    requires USatValid(c) && c.value < UMax(c.bits)
    ensures USatDec(USatInc(c)) == c
  {
  }

  /** `sumOrSub(sum)` with the as-written `--`. */
  function USatSumOrSub(c: USatCtr, sum: bool): (r: USatCtr)
    requires USatValid(c)
    ensures USatValid(r) && r.bits == c.bits
    ensures sum ==> c.value <= r.value <= c.value + 1
    ensures !sum ==> r.value == 0
  {
    if sum then USatInc(c) else USatDecAsWritten(c)
  }

  // ---------------------------------------------------------------------
  // BatageCtr<N>

  /**
   * A pair of unsigned `bits`-bit counters: `ctr0` counts evidence for
   * not taken and `ctr1` for taken.
   */
  datatype BatageCtr = BatageCtr(bits: nat, ctr0: nat, ctr1: nat)

  predicate BatageValid(c: BatageCtr)
  {
    1 <= c.bits < 32 && c.ctr0 <= UMax(c.bits) && c.ctr1 <= UMax(c.bits)
  }

  /** `BatageCtr(ctr0, ctr1)`, whose ranges the constructor asserts. */
  function NewBatageCtr(bits: nat, ctr0: nat, ctr1: nat): (c: BatageCtr)
    requires 1 <= bits < 32 && ctr0 <= UMax(bits) && ctr1 <= UMax(bits)
    ensures BatageValid(c) && c.ctr0 == ctr0 && c.ctr1 == ctr1 && c.bits == bits
  {
    BatageCtr(bits, ctr0, ctr1)
  }

  /** `prediction()`: positive leans taken, negative leans not taken. */
  function Prediction(c: BatageCtr): int
  {
    c.ctr1 - c.ctr0
  }

  /** The two counters exchanged: the same evidence for the opposite direction. */
  function Swap(c: BatageCtr): BatageCtr
  {
    BatageCtr(c.bits, c.ctr1, c.ctr0)
  }

  /**
   * `confidenceLevel()`: with `lo`, `hi` the smaller and larger counter,
   * 2 when hi > 2 lo + 1, 1 when hi == 2 lo + 1, 0 otherwise.
   */
  function ConfidenceLevel(c: BatageCtr): (r: int)
    ensures 0 <= r <= 2
    ensures var lo := Min(c.ctr0, c.ctr1); var hi := Max(c.ctr0, c.ctr1);
      (r == 2 <==> hi > 2 * lo + 1) && (r == 1 <==> hi == 2 * lo + 1) && (r == 0 <==> hi < 2 * lo + 1)
  {
    var num := 1 + Min(c.ctr0, c.ctr1);
    var den := 2 + c.ctr0 + c.ctr1;
    var conf := den - 3 * num;
    if conf > 0 then 2 else if conf == 0 then 1 else 0
  }

  /** The confidence does not depend on which direction the evidence favours. */
  lemma ConfidenceSymmetric(c: BatageCtr)
    ensures ConfidenceLevel(Swap(c)) == ConfidenceLevel(c)
  {
  }

  /** `isExcessivelyConfident()`: hi > 5 lo + 4. */
  function IsExcessivelyConfident(c: BatageCtr): (r: bool)
    ensures r <==> Max(c.ctr0, c.ctr1) > 5 * Min(c.ctr0, c.ctr1) + 4
  {
    var num := 1 + Min(c.ctr0, c.ctr1);
    var den := 2 + c.ctr0 + c.ctr1;
    6 * num < den
  }

  /** Excessive confidence is high confidence. */
  lemma ExcessiveIsHigh(c: BatageCtr)
    requires IsExcessivelyConfident(c)
    ensures ConfidenceLevel(c) == 2
  {
  }

  /** The counter for `taken`: `ctr_[outcome]`. */
  function Own(c: BatageCtr, taken: bool): nat
  {
    if taken then c.ctr1 else c.ctr0
  }

  /**
   * `update(outcome)`: adds evidence for the outcome, or, when that counter
   * is saturated, removes evidence against it; when both are at their rails
   * nothing changes.
   */
  function Update(c: BatageCtr, taken: bool): (r: BatageCtr)
    requires BatageValid(c)
    ensures BatageValid(r) && r.bits == c.bits
    ensures Own(c, taken) < UMax(c.bits) ==>
      Own(r, taken) == Own(c, taken) + 1 && Own(r, !taken) == Own(c, !taken)
    ensures Own(c, taken) == UMax(c.bits) && Own(c, !taken) > 0 ==>
      Own(r, taken) == Own(c, taken) && Own(r, !taken) == Own(c, !taken) - 1
    ensures Own(c, taken) == UMax(c.bits) && Own(c, !taken) == 0 ==> r == c
  {
    var max := UMax(c.bits);
    if taken then
      if c.ctr1 < max then c.(ctr1 := c.ctr1 + 1)
      else if c.ctr0 > 0 then c.(ctr0 := c.ctr0 - 1)
      else c
    else
      if c.ctr0 < max then c.(ctr0 := c.ctr0 + 1)
      else if c.ctr1 > 0 then c.(ctr1 := c.ctr1 - 1)
      else c
  }

  /**
   * A taken update raises the prediction by exactly one unless the pair is
   * already saturated toward taken; a not-taken update lowers it likewise.
   */
  lemma UpdateMovesPrediction(c: BatageCtr, taken: bool)
    requires BatageValid(c)
    ensures taken ==>
      Prediction(Update(c, taken)) ==
        (if c.ctr1 == UMax(c.bits) && c.ctr0 == 0 then Prediction(c) else Prediction(c) + 1)
    ensures !taken ==>
      Prediction(Update(c, taken)) ==
        (if c.ctr0 == UMax(c.bits) && c.ctr1 == 0 then Prediction(c) else Prediction(c) - 1)
  {
  }

  /** `decay()`: the larger counter, if any, loses one. */
  function Decay(c: BatageCtr): (r: BatageCtr)
    requires BatageValid(c)
    ensures BatageValid(r) && r.bits == c.bits
    ensures c.ctr0 == c.ctr1 ==> r == c
    ensures c.ctr0 != c.ctr1 ==> Abs(Prediction(r)) == Abs(Prediction(c)) - 1
    ensures Prediction(c) > 0 ==> Prediction(r) >= 0 && r.ctr0 == c.ctr0
    ensures Prediction(c) < 0 ==> Prediction(r) <= 0 && r.ctr1 == c.ctr1
  {
    var c1 := if c.ctr1 > c.ctr0 then c.(ctr1 := c.ctr1 - 1) else c;
    if c1.ctr0 > c1.ctr1 then c1.(ctr0 := c1.ctr0 - 1) else c1
  }

  function Abs(x: int): nat
  {
    if x >= 0 then x else -x
  }
}
