/**
 * The tournament combinators `BimodalTournament<BP0, BP1, T>` and
 * `GshareTournament<BP0, BP1, H, T>`: two component predictors and a table
 * of 2^T chooser counters. A non-negative chooser selects component 1.
 * The bimodal variant indexes the choosers by the folded address with
 * two-bit counters; the gshare variant mixes in an H-bit global history
 * and uses three-bit counters.
 */
module Tournament {
  import opened Bits
  import opened Histories
  import opened Indexing
  import opened SaturatedReg
  import opened CounterTables
  import opened Branches
  import Predictors

  datatype Variant = BimodalChooser | GshareChooser(h: nat)

  datatype Config = Config(variant: Variant, t: nat)

  /**
   * The chooser table's size `1 << T` is an `int` shift, so `T` is below
   * 31 in both variants. The gshare variant takes `H % T`, so `T` is
   * positive, and its static assertion bounds the shifted history.
   */
  predicate ConfigValid(c: Config)
  {
    match c.variant
    case BimodalChooser => c.t < 31
    case GshareChooser(h) => 1 <= c.t < 31 && h + (c.t - h % c.t) < 64
  }

  /** The chooser counter width: `i2` or `i3`. */
  function ChooserBits(c: Config): nat
  {
    if c.variant.BimodalChooser? then 2 else 3
  }

  /** The history length: none for the bimodal variant. */
  function HistoryLength(c: Config): nat
  {
    if c.variant.BimodalChooser? then 0 else c.variant.h
  }

  /**
   * The chooser table, the two components' states, the global history and
   * the values `predict` caches for `train`.
   */
  datatype State<S0, S1> = State(
    table: Table, bp0: S0, bp1: S1, ghist: seq<bool>,
    pred0: bool, pred1: bool, prediction: bool, provider: bool)

  predicate Valid<S0, S1>(c: Config, s: State<S0, S1>)
  {
    ConfigValid(c) && TableValid(s.table, ChooserBits(c), Pow2(c.t)) && |s.ghist| == HistoryLength(c)
  }

  /** A tournament over the given component states, with zeroed choosers and history. */
  function Init<S0, S1>(c: Config, bp0: S0, bp1: S1): (s: State<S0, S1>)
    requires ConfigValid(c)
    ensures Valid(c, s) && s.bp0 == bp0 && s.bp1 == bp1
    ensures forall i :: 0 <= i < |s.table| ==> s.table[i].value == 0
  {
    State(NewTable(ChooserBits(c), Pow2(c.t)), bp0, bp1, Zeros(HistoryLength(c)), false, false, false, false)
  }

  /** `hash(ip)`: `XorFold(ip, T)`, or `RoxFold(ip, T) ^ XorFold(ghist, T)`. */
  function Hash(c: Config, ghist: seq<bool>, ip: bv64): (i: nat)
    requires ConfigValid(c) && |ghist| == HistoryLength(c)
    ensures i < Pow2(c.t)
  {
    var folded := ChooserFold(c, ghist, ip);
    ValueFits(folded, c.t);
    Value(folded)
  }

  function ChooserFold(c: Config, ghist: seq<bool>, ip: bv64): (f: Word)
    requires ConfigValid(c) && |ghist| == HistoryLength(c)
    ensures Fits(f, c.t)
  {
    if c.variant.BimodalChooser? then XorFold(OfBv(ip), c.t)
    else
      FitsXor(RoxFold(OfBv(ip), c.t), XorFold(ToWord(ghist), c.t), c.t);
      Xor(RoxFold(OfBv(ip), c.t), XorFold(ToWord(ghist), c.t))
  }

  /**
   * `predict(ip)`: both components predict; the chooser at `hash(ip)` picks
   * component 1 when non-negative, else component 0. The component states
   * are whatever their own `predict` left, and the choice is cached.
   */
  function Predict<S0, S1>(c: Config, p0: Predictors.Predictor<S0>, p1: Predictors.Predictor<S1>,
                           s: State<S0, S1>, ip: bv64): (r: (State<S0, S1>, bool))
    requires Valid(c, s)
    ensures Valid(c, r.0) && r.0.table == s.table && r.0.ghist == s.ghist
    ensures r.0.bp0 == p0.predict(s.bp0, ip).0 && r.0.pred0 == p0.predict(s.bp0, ip).1
    ensures r.0.bp1 == p1.predict(s.bp1, ip).0 && r.0.pred1 == p1.predict(s.bp1, ip).1
    ensures r.0.provider == (s.table[Hash(c, s.ghist, ip)].value >= 0)
    ensures r.1 == r.0.prediction == (if r.0.provider then r.0.pred1 else r.0.pred0)
  {
    var (bp0, pred0) := p0.predict(s.bp0, ip);
    var (bp1, pred1) := p1.predict(s.bp1, ip);
    var provider := PredictAt(s.table, Hash(c, s.ghist, ip));
    var prediction := if provider then pred1 else pred0;
    (s.(bp0 := bp0, bp1 := bp1, pred0 := pred0, pred1 := pred1, provider := provider,
        prediction := prediction), prediction)
  }

  /** When the components agree the chooser does not matter. */
  lemma AgreementDecides<S0, S1>(c: Config, p0: Predictors.Predictor<S0>, p1: Predictors.Predictor<S1>,
                                 s: State<S0, S1>, ip: bv64)
    requires Valid(c, s) && p0.predict(s.bp0, ip).1 == p1.predict(s.bp1, ip).1
    ensures Predict(c, p0, p1, s, ip).1 == p0.predict(s.bp0, ip).1
  {
  }

  /**
   * `train(b)`: both components are trained; when their cached predictions
   * disagree, the chooser at `hash(ip)` steps toward component 1 if
   * component 1 was right and toward component 0 otherwise.
   */
  function Train<S0, S1>(c: Config, p0: Predictors.Predictor<S0>, p1: Predictors.Predictor<S1>,
                         s: State<S0, S1>, b: Branch): (r: State<S0, S1>)
    requires Valid(c, s)
    ensures Valid(c, r) && r.ghist == s.ghist
    ensures r.bp0 == p0.train(s.bp0, b) && r.bp1 == p1.train(s.bp1, b)
    ensures r.pred0 == s.pred0 && r.pred1 == s.pred1
    ensures s.pred0 == s.pred1 ==> r.table == s.table
    ensures var k := Hash(c, s.ghist, b.ip);
      (s.pred0 != s.pred1 ==> r.table[k] == SatSumOrSub(s.table[k], s.pred1 == IsTaken(b))) &&
      forall i :: 0 <= i < |s.table| && i != k ==> r.table[i] == s.table[i]
  {
    var k := Hash(c, s.ghist, b.ip);
    var table :=
      if s.pred0 != s.pred1 then
        TrainAtValid(s.table, ChooserBits(c), Pow2(c.t), k, s.pred1 == IsTaken(b));
        TrainAt(s.table, k, s.pred1 == IsTaken(b))
      else s.table;
    s.(bp0 := p0.train(s.bp0, b), bp1 := p1.train(s.bp1, b), table := table)
  }

  /**
   * The chooser learns which component to trust: after `2^(bits-1)`
   * consecutive trainings of one chooser entry in favour of component 1
   * (or 0), it selects that component.
   */
  lemma ChooserLearns(c: Config, table: Table, k: nat, favourOne: bool, n: nat)
    requires ConfigValid(c) && TableValid(table, ChooserBits(c), Pow2(c.t)) && k < |table|
    requires n >= Pow2(ChooserBits(c) - 1)
    ensures (TrainTimes(table, k, favourOne, n)[k].value >= 0) == favourOne
  {
    TrainTimesLearns(table, k, favourOne, n);
  }

  /**
   * `track(b)`: both components track the branch, and the gshare variant
   * also shifts the outcome into its history. The choosers stay.
   */
  function Track<S0, S1>(c: Config, p0: Predictors.Predictor<S0>, p1: Predictors.Predictor<S1>,
                         s: State<S0, S1>, b: Branch): (r: State<S0, S1>)
    requires Valid(c, s)
    ensures Valid(c, r) && r.table == s.table
    ensures r.bp0 == p0.track(s.bp0, b) && r.bp1 == p1.track(s.bp1, b)
    ensures c.variant.GshareChooser? && HistoryLength(c) > 0 ==> r.ghist[0] == IsTaken(b)
    ensures forall i :: 1 <= i < HistoryLength(c) ==> r.ghist[i] == s.ghist[i - 1]
  {
    s.(bp0 := p0.track(s.bp0, b), bp1 := p1.track(s.bp1, b), ghist := ShiftIn(s.ghist, IsTaken(b)))
  }

  /** The tournament as a `Predictor` over its components. */
  function AsPredictor<S0(!new), S1(!new)>(c: Config, p0: Predictors.Predictor<S0>, p1: Predictors.Predictor<S1>)
    : (p: Predictors.Predictor<State<S0, S1>>)
    requires ConfigValid(c)
    ensures forall s: State<S0, S1>, ip: bv64 :: Valid(c, s) ==> p.predict(s, ip) == Predict(c, p0, p1, s, ip)
    ensures forall s: State<S0, S1>, b: Branch :: Valid(c, s) ==> p.train(s, b) == Train(c, p0, p1, s, b)
    ensures forall s: State<S0, S1>, b: Branch :: Valid(c, s) ==> p.track(s, b) == Track(c, p0, p1, s, b)
  {
    Predictors.Predictor(
      (s: State<S0, S1>, ip: bv64) => if Valid(c, s) then Predict(c, p0, p1, s, ip) else (s, false),
      (s: State<S0, S1>, b: Branch) => if Valid(c, s) then Train(c, p0, p1, s, b) else s,
      (s: State<S0, S1>, b: Branch) => if Valid(c, s) then Track(c, p0, p1, s, b) else s)
  }

  /**
   * The tournament keeps the `Predictor` contract when its components do:
   * if neither component's `predict(ip)` changes a later prediction, the
   * tournament's does not either, although it updates its caches.
   */
  lemma PredictKeepsPredictions<S0(!new), S1(!new)>(c: Config, p0: Predictors.Predictor<S0>, p1: Predictors.Predictor<S1>,
                                        s: State<S0, S1>, ip: bv64)
    requires Valid(c, s)
    requires Predictors.PredictKeepsPredictions(p0, s.bp0, ip)
    requires Predictors.PredictKeepsPredictions(p1, s.bp1, ip)
    ensures Predictors.PredictKeepsPredictions(AsPredictor(c, p0, p1), s, ip)
  {
    var p := AsPredictor(c, p0, p1);
    var s1 := p.predict(s, ip).0;
    forall ip2: bv64
      ensures p.predict(s1, ip2).1 == p.predict(s, ip2).1
    {
      assert s1 == Predict(c, p0, p1, s, ip).0;
      assert p.predict(s1, ip2) == Predict(c, p0, p1, s1, ip2);
      assert p0.predict(s1.bp0, ip2).1 == p0.predict(s.bp0, ip2).1;
      assert p1.predict(s1.bp1, ip2).1 == p1.predict(s.bp1, ip2).1;
    }
  }
}
