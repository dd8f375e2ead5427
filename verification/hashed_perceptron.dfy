/**
 * `HashedPerceptron<MINH, NUMT, T, MISP_THRESH>`: NUMT tables of 2^T signed
 * 8-bit weights. Table `i` is indexed by the folded address XOR a fold of
 * the newest `hlen[i]` outcomes; the prediction is the sign of the sum of
 * the selected weights. Training is skipped when the prediction was right
 * with a margin of at least `theta`, and `theta` adapts to the balance of
 * mispredictions and low-margin hits.
 *
 * The history lengths come from a floating-point series; the model takes
 * the ring size `H` and the lengths `hlen` as given.
 */
module HashedPerceptron {
  import opened Bits
  import opened Indexing
  import opened FoldWindow
  import opened SaturatedReg
  import opened CounterTables
  import opened GlobalHistory
  import opened Branches
  import Predictors
  import SbbtReader
  import Simulator

  /** `T`, `MISP_THRESH`, the ring size `H` and the window lengths; `NUMT` is `|hlen|`. */
  datatype Config = Config(t: nat, mispThresh: int, h: nat, hlen: seq<nat>)

  /**
   * At least one table, the first without history; `1 << T` fits an `int`;
   * the threshold is positive; and the ring is longer than every window,
   * which the series for `H` and `hlen` guarantees.
   */
  predicate ConfigValid(c: Config)
  {
    1 <= |c.hlen| && c.hlen[0] == 0 && c.t <= 30 && c.mispThresh >= 1 &&
    forall i :: 0 <= i < |c.hlen| ==> c.hlen[i] < c.h
  }

  /** The initial `theta`. */
  const InitialTheta: int := 10

  /** The values `predict` saves for `train`. */
  datatype Cache = Cache(idx: seq<nat>, sum: int, prediction: bool)

  datatype State = State(
    weights: seq<Table>, folds: seq<BitStreamXorFold>, ring: Ring,
    theta: int, misp: int,
    cache: Cache, tracked: bool, predictedIp: bv64)

  /** One table of 2^T eight-bit weights per window. */
  predicate WeightsValid(c: Config, ws: seq<Table>)
  {
    |ws| == |c.hlen| &&
    forall i :: 0 <= i < |ws| ==>
      |ws[i]| == Pow2(c.t) && forall k :: 0 <= k < |ws[i]| ==> ws[i][k].bits == 8 && SatValid(ws[i][k])
  }

  predicate CacheValid(c: Config, k: Cache)
  {
    |k.idx| == |c.hlen| && forall i :: 0 <= i < |k.idx| ==> k.idx[i] < Pow2(c.t)
  }

  /**
   * The tables, folds and ring have their configured shapes, and `misp`
   * lies strictly between `-MISP_THRESH` and `MISP_THRESH`.
   */
  predicate Valid(c: Config, s: State)
  {
    ConfigValid(c) &&
    WeightsValid(c, s.weights) &&
    FoldsValid(s.folds, c.hlen) && (forall i :: 0 <= i < |s.folds| ==> s.folds[i].foldLen == c.t) &&
    RingValid(s.ring) && |s.ring.buf| == c.h &&
    CacheValid(c, s.cache) &&
    -c.mispThresh < s.misp < c.mispThresh
  }

  /**
   * The constructor: zero weights, `theta` 10, `misp` 0, fresh folds, and
   * nothing to reuse. The ring and its index, which the constructor leaves
   * uninitialised, are modelled as cleared.
   */
  function Init(c: Config): (s: State)
    requires ConfigValid(c)
    ensures Valid(c, s) && s.tracked && s.theta == InitialTheta && s.misp == 0
    ensures forall i, k :: 0 <= i < |s.weights| && 0 <= k < |s.weights[i]| ==> s.weights[i][k].value == 0
  {
    State(seq(|c.hlen|, _ => NewTable(8, Pow2(c.t))),
          NewFolds(c.hlen, seq(|c.hlen|, _ => c.t)),
          NewRing(c.h), InitialTheta, 0,
          Cache(seq(|c.hlen|, _ => 0), 0, false), true, 0)
  }

  // ---------------------------------------------------------------------
  // Prediction

  /** `ipfold ^ ghistFold[i].fold()`: an index into a table. */
  function Index(c: Config, fold: Word, ip: bv64): (k: nat)
    requires c.t < 64 && Fits(fold, c.t)
    ensures k < Pow2(c.t)
  {
    FitsXor(XorFold(OfBv(ip), c.t), fold, c.t);
    ValueFits(Xor(XorFold(OfBv(ip), c.t), fold), c.t);
    Value(Xor(XorFold(OfBv(ip), c.t), fold))
  }

  /** The sum of a sequence of weights. */
  function Sum(xs: seq<int>): int
  {
    if |xs| == 0 then 0 else xs[0] + Sum(xs[1..])
  }

  /** The weight each table selects. */
  function Selected(c: Config, weights: seq<Table>, idx: seq<nat>): (xs: seq<int>)
    requires WeightsValid(c, weights) && |idx| == |c.hlen|
    requires forall i :: 0 <= i < |idx| ==> idx[i] < Pow2(c.t)
    ensures |xs| == |weights|
    ensures forall i :: 0 <= i < |xs| ==> -128 <= xs[i] <= 127
  {
    assert SatMin(8) == -128 && SatMax(8) == 127 by {
      Pow2Facts();
    }
    seq(|weights|, i requires 0 <= i < |weights| => weights[i][idx[i]].value)
  }

  /** What `predict(ip)` computes when its cache does not apply. */
  function Fresh(c: Config, s: State, ip: bv64): (k: Cache)
    requires Valid(c, s)
    ensures CacheValid(c, k)
  {
    var idx := seq(|c.hlen|, i requires 0 <= i < |c.hlen| => Index(c, s.folds[i].fold, ip));
    var sum := Sum(Selected(c, s.weights, idx));
    Cache(idx, sum, sum > 0)
  }

  /** The sum of `n` weights of eight bits lies between `-128n` and `127n`. */
  lemma {:induction false} SumBounds(xs: seq<int>)
    requires forall i :: 0 <= i < |xs| ==> -128 <= xs[i] <= 127
    ensures -128 * |xs| <= Sum(xs) <= 127 * |xs|
  {
    if |xs| > 0 {
      SumBounds(xs[1..]);
    }
  }

  /** A sum grows when no term shrinks. */
  lemma {:induction false} SumMonotone(xs: seq<int>, ys: seq<int>)
    requires |xs| == |ys| && forall i :: 0 <= i < |xs| ==> xs[i] <= ys[i]
    ensures Sum(xs) <= Sum(ys)
  {
    if |xs| > 0 {
      SumMonotone(xs[1..], ys[1..]);
    }
  }

  /**
   * `predict(ip)`: the cached prediction when nothing was tracked since the
   * last prediction of the same address, else a fresh one, which is cached.
   */
  function Predict(c: Config, s: State, ip: bv64): (r: (State, bool))
    requires Valid(c, s)
    ensures Valid(c, r.0) && r.1 == r.0.cache.prediction
    ensures r.0.weights == s.weights && r.0.folds == s.folds && r.0.ring == s.ring
    ensures r.0.theta == s.theta && r.0.misp == s.misp
    ensures !r.0.tracked && r.0.predictedIp == ip
    ensures !s.tracked && s.predictedIp == ip ==> r.0 == s
    ensures s.tracked || s.predictedIp != ip ==> r.0.cache == Fresh(c, s, ip)
  {
    if !s.tracked && s.predictedIp == ip then (s, s.cache.prediction)
    else
      var k := Fresh(c, s, ip);
      (s.(cache := k, tracked := false, predictedIp := ip), k.prediction)
  }

  /** The prediction is whether the selected weights sum to a positive number. */
  lemma FreshPrediction(c: Config, s: State, ip: bv64)
    requires Valid(c, s)
    ensures var k := Fresh(c, s, ip);
      k.prediction == (Sum(Selected(c, s.weights, k.idx)) > 0) &&
      -128 * |c.hlen| <= k.sum <= 127 * |c.hlen|
  {
    var k := Fresh(c, s, ip);
    SumBounds(Selected(c, s.weights, k.idx));
  }

  /** A second `predict(ip)` returns the cached answer and changes nothing. */
  lemma PredictTwice(c: Config, s: State, ip: bv64)
    requires Valid(c, s)
    ensures Predict(c, Predict(c, s, ip).0, ip) == (Predict(c, s, ip).0, Predict(c, s, ip).1)
  {
  }

  /**
   * The cache is coherent when it is either unusable (a branch was tracked)
   * or equal to what a fresh prediction of the cached address computes.
   */
  predicate Coherent(c: Config, s: State)
    requires Valid(c, s)
  {
    s.tracked || s.cache == Fresh(c, s, s.predictedIp)
  }

  /** On a coherent state `predict(ip)` is fresh and leaves a coherent state. */
  lemma PredictIsFresh(c: Config, s: State, ip: bv64)
    requires Valid(c, s) && Coherent(c, s)
    ensures Predict(c, s, ip).1 == Fresh(c, s, ip).prediction
    ensures Coherent(c, Predict(c, s, ip).0)
  {
  }

  // ---------------------------------------------------------------------
  // Training

  /**
   * The threshold bookkeeping: a misprediction counts up, a low-margin hit
   * counts down, and reaching `MISP_THRESH` either way resets the count and
   * moves `theta` one step in the same direction.
   */
  function Adapt(thresh: int, misp: int, theta: int, wrong: bool): (r: (int, int))
    requires thresh >= 1 && -thresh < misp < thresh
    ensures -thresh < r.0 < thresh
    ensures wrong ==> theta <= r.1 <= theta + 1
    ensures !wrong ==> theta - 1 <= r.1 <= theta
    ensures r.1 != theta <==> (wrong && misp == thresh - 1) || (!wrong && misp == 1 - thresh)
    ensures r.1 != theta ==> r.0 == 0
  {
    if wrong then
      if misp + 1 >= thresh then (0, theta + 1) else (misp + 1, theta)
    else
      if misp - 1 <= -thresh then (0, theta - 1) else (misp - 1, theta)
  }

  /** `Adapt` applied `k` times with the same kind of event. */
  function AdaptTimes(thresh: int, misp: int, theta: int, wrong: bool, k: nat): (r: (int, int))
    requires thresh >= 1 && -thresh < misp < thresh
    ensures -thresh < r.0 < thresh
    decreases k
  {
    if k == 0 then (misp, theta)
    else
      var (m, th) := Adapt(thresh, misp, theta, wrong);
      AdaptTimes(thresh, m, th, wrong, k - 1)
  }

  /** Below the threshold, each misprediction only counts. */
  lemma {:induction false} AdaptCounts(thresh: int, misp: int, theta: int, k: nat)
    requires thresh >= 1 && 0 <= misp && misp + k < thresh
    ensures AdaptTimes(thresh, misp, theta, true, k) == (misp + k, theta)
    decreases k
  {
    if k > 0 {
      AdaptCounts(thresh, misp + 1, theta, k - 1);
    }
  }

  /**
   * From a balanced count, `MISP_THRESH` consecutive mispredictions raise
   * `theta` by exactly one and reset the count.
   */
  lemma ThresholdRises(thresh: int, theta: int)
    requires thresh >= 1
    ensures AdaptTimes(thresh, 0, theta, true, thresh as nat) == (0, theta + 1)
  {
    AdaptCounts(thresh, 0, theta, (thresh - 1) as nat);
    AdaptTimesLast(thresh, 0, theta, true, (thresh - 1) as nat);
  }

  /** One more application after `k`. */
  lemma {:induction false} AdaptTimesLast(thresh: int, misp: int, theta: int, wrong: bool, k: nat)
    requires thresh >= 1 && -thresh < misp < thresh
    ensures var (m, th) := AdaptTimes(thresh, misp, theta, wrong, k);
      AdaptTimes(thresh, misp, theta, wrong, k + 1) == Adapt(thresh, m, th, wrong)
    decreases k
  {
    if k > 0 {
      var (m, th) := Adapt(thresh, misp, theta, wrong);
      AdaptTimesLast(thresh, m, th, wrong, k - 1);
    }
  }

  /** Every table's selected weight steps toward the outcome. */
  function StepWeights(c: Config, weights: seq<Table>, idx: seq<nat>, taken: bool): (r: seq<Table>)
    requires WeightsValid(c, weights) && |idx| == |c.hlen|
    requires forall i :: 0 <= i < |idx| ==> idx[i] < Pow2(c.t)
    ensures WeightsValid(c, r)
    ensures forall i :: 0 <= i < |r| ==>
      r[i][idx[i]] == SatSumOrSub(weights[i][idx[i]], taken) &&
      forall k :: 0 <= k < |r[i]| && k != idx[i] ==> r[i][k] == weights[i][k]
  {
    seq(|weights|, i requires 0 <= i < |weights| => TrainAt(weights[i], idx[i], taken))
  }

  /** Whether `train` returns early: the prediction was right by at least `theta`. */
  predicate Confident(s: State, taken: bool)
  {
    s.cache.prediction == taken && Abs(s.cache.sum) >= s.theta
  }

  /**
   * `train(b)`: after `predict(b.ip)`, nothing more happens when the
   * prediction was right by a margin of at least `theta`; otherwise every
   * selected weight steps toward the outcome, clamped to the 8-bit range,
   * and the threshold adapts.
   */
  function Train(c: Config, s: State, b: Branch): (r: State)
    requires Valid(c, s)
    ensures Valid(c, r)
    ensures var p := Predict(c, s, b.ip).0;
      r.folds == s.folds && r.ring == s.ring && r.cache == p.cache &&
      !r.tracked && r.predictedIp == b.ip &&
      (Confident(p, IsTaken(b)) ==> r == p) &&
      (!Confident(p, IsTaken(b)) ==>
        r.weights == StepWeights(c, s.weights, p.cache.idx, IsTaken(b)) &&
        (r.misp, r.theta) == Adapt(c.mispThresh, s.misp, s.theta, IsTaken(b) != p.cache.prediction))
  {
    var p := Predict(c, s, b.ip).0;
    var taken := IsTaken(b);
    if Confident(p, taken) then p
    else
      var (misp, theta) := Adapt(c.mispThresh, p.misp, p.theta, taken != p.cache.prediction);
      p.(weights := StepWeights(c, p.weights, p.cache.idx, taken), misp := misp, theta := theta)
  }

  /** `theta` moves by at most one per `train`. */
  lemma ThetaStep(c: Config, s: State, b: Branch)
    requires Valid(c, s)
    ensures -1 <= Train(c, s, b).theta - s.theta <= 1
  {
  }

  /**
   * Training moves the sum toward the outcome: on a coherent state, the
   * fresh sum for the trained address afterwards is at least the old one
   * when taken and at most the old one when not taken.
   */
  lemma TrainMovesSum(c: Config, s: State, b: Branch)
    requires Valid(c, s) && Coherent(c, s)
    ensures var r := Train(c, s, b);
      var before := Fresh(c, s, b.ip).sum;
      var after := Sum(Selected(c, r.weights, Fresh(c, s, b.ip).idx));
      (IsTaken(b) ==> before <= after) && (!IsTaken(b) ==> after <= before)
  {
    var r := Train(c, s, b);
    var p := Predict(c, s, b.ip).0;
    var idx := Fresh(c, s, b.ip).idx;
    PredictIsFresh(c, s, b.ip);
    assert p.cache.idx == idx by {
      if !s.tracked && s.predictedIp == b.ip {
        assert p == s;
      }
    }
    var xs := Selected(c, s.weights, idx);
    var ys := Selected(c, r.weights, idx);
    if IsTaken(b) {
      SumMonotone(xs, ys);
    } else {
      SumMonotone(ys, xs);
    }
  }

  // ---------------------------------------------------------------------
  // Tracking

  /**
   * `track(b)`: the outcome goes into the ring, every fold shifts it in and
   * the outcome `hlen[i]` places back out, and the cache becomes unusable.
   */
  function Track(c: Config, s: State, b: Branch): (r: State)
    requires Valid(c, s)
    ensures Valid(c, r) && r.tracked && Coherent(c, r)
    ensures r.weights == s.weights && r.theta == s.theta && r.misp == s.misp
    ensures r.ring == Push(s.ring, IsTaken(b))
  {
    var ring := Push(s.ring, IsTaken(b));
    s.(ring := ring, folds := ShiftFolds(s.folds, c.hlen, ring, IsTaken(b)), tracked := true)
  }

  /** The ring and folds reflect `hist`, the outcomes tracked so far, newest first. */
  predicate HistoryHolds(c: Config, s: State, hist: seq<bool>)
    requires Valid(c, s)
  {
    Holds(s.ring, hist) && FoldsHold(s.folds, c.hlen, hist)
  }

  /** The constructed predictor reflects the empty history. */
  lemma InitHolds(c: Config)
    requires ConfigValid(c)
    ensures HistoryHolds(c, Init(c), [])
  {
    NewRingHolds(c.h);
    NewFoldsHold(c.hlen, seq(|c.hlen|, _ => c.t));
  }

  /** `track(b)` extends the history by the outcome. */
  lemma TrackHolds(c: Config, s: State, hist: seq<bool>, b: Branch)
    requires Valid(c, s) && HistoryHolds(c, s, hist)
    ensures HistoryHolds(c, Track(c, s, b), [IsTaken(b)] + hist)
  {
    PushHolds(s.ring, hist, IsTaken(b));
    ShiftFoldsHold(s.folds, c.hlen, s.ring, hist, IsTaken(b));
  }

  /**
   * What the index means: table `i` is indexed by the folded address XOR
   * the XOR fold of the newest `hlen[i]` outcomes.
   */
  lemma IndexIsWindowFold(c: Config, s: State, hist: seq<bool>, ip: bv64, i: nat)
    requires Valid(c, s) && HistoryHolds(c, s, hist) && i < |c.hlen|
    ensures Fresh(c, s, ip).idx[i] ==
      Value(Xor(XorFold(OfBv(ip), c.t), WindowFold(hist, c.hlen[i], c.t)))
  {
    FoldsAreWindowFolds(s.folds, c.hlen, hist, i);
  }

  /** The hashed perceptron as a `Predictor`. */
  function AsPredictor(c: Config): (p: Predictors.Predictor<State>)
    requires ConfigValid(c)
    ensures forall s: State, ip: bv64 :: Valid(c, s) ==> p.predict(s, ip) == Predict(c, s, ip)
    ensures forall s: State, b: Branch :: Valid(c, s) ==> p.train(s, b) == Train(c, s, b)
    ensures forall s: State, b: Branch :: Valid(c, s) ==> p.track(s, b) == Track(c, s, b)
  {
    Predictors.Predictor(
      (s: State, ip: bv64) => if Valid(c, s) then Predict(c, s, ip) else (s, false),
      (s: State, b: Branch) => if Valid(c, s) then Train(c, s, b) else s,
      (s: State, b: Branch) => if Valid(c, s) then Track(c, s, b) else s)
  }

  /** On a coherent state `predict` changes no later prediction. */
  lemma PredictKeepsPredictions(c: Config, s: State, ip: bv64)
    requires Valid(c, s) && Coherent(c, s)
    ensures Predictors.PredictKeepsPredictions(AsPredictor(c), s, ip)
  {
    var p := AsPredictor(c);
    var s1 := Predict(c, s, ip).0;
    forall ip2: bv64
      ensures p.predict(s1, ip2).1 == p.predict(s, ip2).1
    {
      PredictIsFresh(c, s, ip);
      PredictIsFresh(c, s, ip2);
      PredictIsFresh(c, s1, ip2);
      assert Fresh(c, s1, ip2) == Fresh(c, s, ip2);
    }
  }

  /**
   * One iteration of the simulation loop ends in a coherent state: `train`
   * changes the tables and keeps the saved values, which go stale, but the
   * `track` that follows marks them unusable.
   */
  lemma StepCoherent(c: Config, s: State, b: Branch)
    requires Valid(c, s)
    ensures var r := Simulator.Step(AsPredictor(c), s, b); Valid(c, r) && Coherent(c, r)
  {
    var p := AsPredictor(c);
    var s1 := Predict(c, s, b.ip).0;
    assert p.predict(s, b.ip).0 == s1;
    var s2 := if IsConditional(b) then p.train(s1, b) else s1;
    assert Valid(c, s2);
    assert p.track(s2, b) == Track(c, s2, b);
  }

  /**
   * Every `predict` of a simulation sees a coherent state, so by
   * `PredictIsFresh` it returns what a fresh computation gives; the
   * constructed predictor is one such starting state.
   */
  lemma SimulationCoherent(c: Config, s0: State, recs: seq<SbbtReader.Decoded>, warmup: nat, k: nat)
    requires Valid(c, s0) && Coherent(c, s0) && k <= |recs|
    ensures var s := Simulator.Run(AsPredictor(c), s0, recs, warmup, k).state; Valid(c, s) && Coherent(c, s)
  {
    var p := AsPredictor(c);
    var inv := (s: State) => Valid(c, s) && Coherent(c, s);
    forall s: State, b: Branch | inv(s)
      ensures inv(Simulator.Step(p, s, b))
    {
      StepCoherent(c, s, b);
    }
    Simulator.RunKeeps(p, s0, recs, warmup, k, inv);
  }
}
