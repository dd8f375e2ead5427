/**
 * A `std::array<SatCtr<bits>, size>`: the pattern table of every simple
 * predictor. An entry predicts taken when it is non-negative and is
 * trained with `sumOrSub(taken)`.
 */
module CounterTables {
  import opened Bits
  import opened SaturatedReg

  type Table = seq<SatCtr>

  /** `size` counters of `bits` bits each. */
  predicate TableValid(t: Table, bits: nat, size: nat)
  {
    |t| == size && forall i :: 0 <= i < |t| ==> SatValid(t[i]) && t[i].bits == bits
  }

  /** A default-constructed table: every counter holds 0. */
  function NewTable(bits: nat, size: nat): (t: Table)
    requires 1 <= bits < 32
    ensures TableValid(t, bits, size)
    ensures forall i :: 0 <= i < size ==> t[i].value == 0
  {
    seq(size, _ => SatCtr(bits, 0))
  }

  /** `table[i] >= 0`. */
  predicate PredictAt(t: Table, i: nat)
    requires i < |t|
  {
    t[i].value >= 0
  }

  /** `table[i].sumOrSub(taken)`: entry `i` steps toward the outcome, the rest stay. */
  function TrainAt(t: Table, i: nat, taken: bool): (r: Table)
    requires i < |t| && SatValid(t[i])
    ensures |r| == |t| && r[i] == SatSumOrSub(t[i], taken)
    ensures forall j :: 0 <= j < |t| && j != i ==> r[j] == t[j]
  {
    t[i := SatSumOrSub(t[i], taken)]
  }

  /** Training keeps the table well formed. */
  lemma TrainAtValid(t: Table, bits: nat, size: nat, i: nat, taken: bool)
    requires TableValid(t, bits, size) && i < size
    ensures TableValid(TrainAt(t, i, taken), bits, size)
  {
  }

  /** `k` consecutive trainings of entry `i` with the same outcome. */
  function TrainTimes(t: Table, i: nat, taken: bool, k: nat): (r: Table)
    requires i < |t| && SatValid(t[i])
    ensures |r| == |t| && r[i] == SatRepeat(t[i], taken, k)
    ensures forall j :: 0 <= j < |t| && j != i ==> r[j] == t[j]
    decreases k
  {
    if k == 0 then t else TrainTimes(TrainAt(t, i, taken), i, taken, k - 1)
  }

  /**
   * `2^(bits-1)` trainings with the same outcome make the entry predict
   * that outcome, whatever it held.
   */
  lemma TrainTimesLearns(t: Table, i: nat, taken: bool, k: nat)
    requires i < |t| && SatValid(t[i]) && k >= Pow2(t[i].bits - 1)
    ensures PredictAt(TrainTimes(t, i, taken, k), i) == taken
  {
    SatRepeatSign(t[i], taken, k);
  }
}
