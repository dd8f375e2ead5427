/**
 * `Nmodal<N, T>`: a table of 2^T counters of N bits indexed by the low T
 * bits of the branch address, with no history. `Bimodal<T>` is the case
 * of two-bit counters.
 */
module Bimodal {
  import opened Bits
  import opened Histories
  import opened SaturatedReg
  import opened CounterTables
  import opened Branches
  import Predictors

  /** The template parameters `N` (counter bits) and `T` (log of the table size). */
  datatype Config = Config(n: nat, t: nat)

  /**
   * `SatCtr<N>` accepts `N` in 1..31; the table size `1 << T` is an `int`
   * shift, so `T` is below 31.
   */
  predicate ConfigValid(c: Config)
  {
    1 <= c.n < 32 && c.t < 31
  }

  /** `Bimodal<T>`: two-bit counters. */
  function BimodalConfig(t: nat): (c: Config)
    requires t < 31
    ensures ConfigValid(c) && c.n == 2 && c.t == t
  {
    Config(2, t)
  }

  predicate Valid(c: Config, table: Table)
  {
    ConfigValid(c) && TableValid(table, c.n, Pow2(c.t))
  }

  /** A default-constructed predictor: every counter holds 0. */
  function Init(c: Config): (table: Table)
    requires ConfigValid(c)
    ensures Valid(c, table)
    ensures forall i :: 0 <= i < |table| ==> table[i].value == 0
  {
    NewTable(c.n, Pow2(c.t))
  }

  /** `hash(ip)`: `ip & ((1 << T) - 1)`. */
  function Hash(c: Config, ip: bv64): (i: nat)
    requires ConfigValid(c)
    ensures i < Pow2(c.t)
  {
    MaskFits(OfBv(ip), c.t);
    ValueFits(And(OfBv(ip), Mask(64, c.t)), c.t);
    Value(And(OfBv(ip), Mask(64, c.t)))
  }

  /** The index is the number the low `T` bits of the address denote. */
  lemma HashIsLowBits(c: Config, ip: bv64)
    requires ConfigValid(c)
    ensures Hash(c, ip) == Value(OfBv(ip)[..c.t])
  {
    var masked := And(OfBv(ip), Mask(64, c.t));
    MaskFits(OfBv(ip), c.t);
    ValueTruncate(masked, c.t, c.t);
    assert masked[..c.t] == OfBv(ip)[..c.t];
  }

  /** Two addresses share a counter exactly when their low `T` bits agree. */
  lemma SameEntry(c: Config, ip1: bv64, ip2: bv64)
    requires ConfigValid(c)
    ensures Hash(c, ip1) == Hash(c, ip2) <==> OfBv(ip1)[..c.t] == OfBv(ip2)[..c.t]
  {
    HashIsLowBits(c, ip1);
    HashIsLowBits(c, ip2);
    if Hash(c, ip1) == Hash(c, ip2) {
      ValueInjective(OfBv(ip1)[..c.t], OfBv(ip2)[..c.t]);
    }
  }

  /** `predict(ip)`: the indexed counter is non-negative. */
  predicate Predict(c: Config, table: Table, ip: bv64)
    requires Valid(c, table)
  {
    PredictAt(table, Hash(c, ip))
  }

  /** `train(b)`: the indexed counter steps toward the outcome; the others stay. */
  function Train(c: Config, table: Table, b: Branch): (r: Table)
    requires Valid(c, table)
    ensures Valid(c, r)
    ensures var k := Hash(c, b.ip);
      r[k] == SatSumOrSub(table[k], IsTaken(b)) &&
      forall i :: 0 <= i < |table| && i != k ==> r[i] == table[i]
  {
    TrainAtValid(table, c.n, Pow2(c.t), Hash(c, b.ip), IsTaken(b));
    TrainAt(table, Hash(c, b.ip), IsTaken(b))
  }

  /** `train` applied `k` times to the same branch. */
  function TrainRepeat(c: Config, table: Table, b: Branch, k: nat): (r: Table)
    requires Valid(c, table)
    ensures Valid(c, r)
    decreases k
  {
    if k == 0 then table else TrainRepeat(c, Train(c, table, b), b, k - 1)
  }

  lemma {:induction false} TrainRepeatIsTrainTimes(c: Config, table: Table, b: Branch, k: nat)
    requires Valid(c, table)
    ensures TrainRepeat(c, table, b, k) == TrainTimes(table, Hash(c, b.ip), IsTaken(b), k)
    decreases k
  {
    if k > 0 {
      TrainRepeatIsTrainTimes(c, Train(c, table, b), b, k - 1);
    }
  }

  /**
   * An N-bit counter learns in `2^(N-1)` steps: after that many trainings
   * with the same branch the predictor predicts its outcome, whatever the
   * table held. For `Bimodal` that is two trainings.
   */
  lemma TrainRepeatLearns(c: Config, table: Table, b: Branch, k: nat)
    requires Valid(c, table) && k >= Pow2(c.n - 1)
    ensures Predict(c, TrainRepeat(c, table, b, k), b.ip) == IsTaken(b)
  {
    TrainRepeatIsTrainTimes(c, table, b, k);
    TrainTimesLearns(table, Hash(c, b.ip), IsTaken(b), k);
  }

  /** `Nmodal` as a `Predictor`: `track` does nothing, since there is no history. */
  function AsPredictor(c: Config): (p: Predictors.Predictor<Table>)
    requires ConfigValid(c)
    ensures forall s: Table, ip: bv64 :: p.predict(s, ip).0 == s
    ensures forall s: Table, ip: bv64 :: Valid(c, s) ==> p.predict(s, ip).1 == Predict(c, s, ip)
    ensures forall s: Table, b: Branch :: Valid(c, s) ==> p.train(s, b) == Train(c, s, b)
    ensures forall s: Table, b: Branch :: p.track(s, b) == s
  {
    Predictors.Predictor(
      (s: Table, ip: bv64) => (s, Valid(c, s) && Predict(c, s, ip)),
      (s: Table, b: Branch) => if Valid(c, s) then Train(c, s, b) else s,
      (s: Table, b: Branch) => s)
  }
}
