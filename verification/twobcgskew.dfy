/**
 * `Twobcgskew<BT, G0T, G1T, MT, G0H, G1H, MH>`: the 2bc-gskew predictor, a
 * bimodal table and two gshare-like tables voting by majority, with a meta
 * table choosing between the vote and the bimodal prediction. `predict`
 * caches its indices and component predictions until the next `track`, and
 * `train` works from that cache.
 */
module TwoBcGskew {
  import opened Bits
  import opened Histories
  import opened Indexing
  import opened SaturatedReg
  import opened CounterTables
  import opened Branches
  import Predictors
  import SbbtReader
  import Simulator

  /** The template parameters: table widths and history lengths. */
  datatype Config = Config(bt: nat, g0t: nat, g1t: nat, mt: nat, g0h: nat, g1h: nat, mh: nat)

  /**
   * Table sizes `1 << width` are `int` shifts, so every width is below 31;
   * history masks `(1ULL << len) - 1` need `len` below 64.
   */
  predicate ConfigValid(c: Config)
  {
    c.bt < 31 && c.g0t < 31 && c.g1t < 31 && c.mt < 31 && c.g0h < 64 && c.g1h < 64 && c.mh < 64
  }

  /** The history register is as long as the longest history used. */
  function HistoryLength(c: Config): nat
  {
    Max(Max(c.g0h, c.g1h), c.mh)
  }

  /** The values `predict` saves for `train`. */
  datatype Cache = Cache(
    bimIdx: nat, g0Idx: nat, g1Idx: nat, metaIdx: nat,
    bimPred: bool, g0Pred: bool, g1Pred: bool, metaPred: bool,
    majorityVote: bool, prediction: bool)

  datatype State = State(
    bim: Table, g0: Table, g1: Table, meta: Table, ghist: seq<bool>,
    cache: Cache, predictedIp: bv64, tracked: bool)

  /** The majority of three votes: an independent statement of the vote. */
  predicate Majority(a: bool, b: bool, c: bool)
  {
    (a && b) || (a && c) || (b && c)
  }

  /** Saved indices address their tables, and the saved vote and prediction follow from the saved component predictions. */
  predicate CacheValid(c: Config, k: Cache)
  {
    k.bimIdx < Pow2(c.bt) && k.g0Idx < Pow2(c.g0t) && k.g1Idx < Pow2(c.g1t) && k.metaIdx < Pow2(c.mt) &&
    k.majorityVote == Majority(k.bimPred, k.g0Pred, k.g1Pred) &&
    k.prediction == (if k.metaPred then k.majorityVote else k.bimPred)
  }

  predicate Valid(c: Config, s: State)
  {
    ConfigValid(c) &&
    TableValid(s.bim, 2, Pow2(c.bt)) && TableValid(s.g0, 2, Pow2(c.g0t)) &&
    TableValid(s.g1, 2, Pow2(c.g1t)) && TableValid(s.meta, 2, Pow2(c.mt)) &&
    |s.ghist| == HistoryLength(c) && CacheValid(c, s.cache)
  }

  /** A fresh predictor: zeroed counters and history, and no usable cache (`tracked` is set). */
  function Init(c: Config): (s: State)
    requires ConfigValid(c)
    ensures Valid(c, s) && s.tracked
  {
    State(NewTable(2, Pow2(c.bt)), NewTable(2, Pow2(c.g0t)), NewTable(2, Pow2(c.g1t)),
          NewTable(2, Pow2(c.mt)), Zeros(HistoryLength(c)),
          Cache(0, 0, 0, 0, false, false, false, false, false, false), 0, true)
  }

  /** `ghist.to_ullong() & ((1ULL << len) - 1)`: the newest `len` outcomes. */
  function RecentHistory(ghist: seq<bool>, len: nat): (w: Word)
    requires |ghist| <= 64
    ensures forall i :: 0 <= i < 64 ==> w[i] == (i < len && i < |ghist| && ghist[i])
  {
    var whole := ToWord(ghist);
    assert forall i :: 0 <= i < |ghist| ==> whole[i] == whole[..|ghist|][i];
    And(whole, Mask(64, len))
  }

  /** `XorFold(ip ^ recent history, width)`: an index below `2^width`. */
  function GHash(ghist: seq<bool>, len: nat, width: nat, ip: bv64): (i: nat)
    requires |ghist| <= 64 && width < 64
    ensures i < Pow2(width)
  {
    var folded := XorFold(Xor(OfBv(ip), RecentHistory(ghist, len)), width);
    ValueFits(folded, width);
    Value(folded)
  }

  /** `bimHash(ip)`: `XorFold(ip, BT)`. */
  function BimHash(c: Config, ip: bv64): (i: nat)
    requires ConfigValid(c)
    ensures i < Pow2(c.bt)
  {
    ValueFits(XorFold(OfBv(ip), c.bt), c.bt);
    Value(XorFold(OfBv(ip), c.bt))
  }

  /** What `predict(ip)` computes when its cache does not apply. */
  function Fresh(c: Config, s: State, ip: bv64): (k: Cache)
    requires Valid(c, s)
    ensures CacheValid(c, k)
  {
    var bimIdx := BimHash(c, ip);
    var g0Idx := GHash(s.ghist, c.g0h, c.g0t, ip);
    var g1Idx := GHash(s.ghist, c.g1h, c.g1t, ip);
    var metaIdx := GHash(s.ghist, c.mh, c.mt, ip);
    var bimPred := PredictAt(s.bim, bimIdx);
    var g0Pred := PredictAt(s.g0, g0Idx);
    var g1Pred := PredictAt(s.g1, g1Idx);
    var metaPred := PredictAt(s.meta, metaIdx);
    var majorityVote := if g0Pred == g1Pred then g0Pred else bimPred;
    Cache(bimIdx, g0Idx, g1Idx, metaIdx, bimPred, g0Pred, g1Pred, metaPred,
          majorityVote, if metaPred then majorityVote else bimPred)
  }

  /**
   * `predict(ip)`: the cached prediction when nothing was tracked since the
   * last prediction of the same address, else a fresh one, which is cached.
   */
  function Predict(c: Config, s: State, ip: bv64): (r: (State, bool))
    requires Valid(c, s)
    ensures Valid(c, r.0) && r.1 == r.0.cache.prediction
    ensures r.0.bim == s.bim && r.0.g0 == s.g0 && r.0.g1 == s.g1 && r.0.meta == s.meta
    ensures r.0.ghist == s.ghist && !r.0.tracked && r.0.predictedIp == ip
    ensures !s.tracked && s.predictedIp == ip ==> r.0 == s
    ensures s.tracked || s.predictedIp != ip ==> r.0.cache == Fresh(c, s, ip)
  {
    if !s.tracked && s.predictedIp == ip then (s, s.cache.prediction)
    else
      var k := Fresh(c, s, ip);
      (s.(cache := k, tracked := false, predictedIp := ip), k.prediction)
  }

  /** A second `predict(ip)` returns the cached answer and changes nothing. */
  lemma PredictTwice(c: Config, s: State, ip: bv64)
    requires Valid(c, s)
    ensures Predict(c, Predict(c, s, ip).0, ip) == (Predict(c, s, ip).0, Predict(c, s, ip).1)
  {
  }

  /**
   * The cache is coherent when it is either unusable (a branch was tracked)
   * or equal to what a fresh prediction of the cached address computes.
   */
  predicate Coherent(c: Config, s: State)
    requires Valid(c, s)
  {
    s.tracked || s.cache == Fresh(c, s, s.predictedIp)
  }

  /**
   * On a coherent state `predict(ip)` returns the fresh prediction and
   * leaves a coherent state behind.
   */
  lemma PredictIsFresh(c: Config, s: State, ip: bv64)
    requires Valid(c, s) && Coherent(c, s)
    ensures Predict(c, s, ip).1 == Fresh(c, s, ip).prediction
    ensures Coherent(c, Predict(c, s, ip).0)
  {
  }

  /**
   * The vote is the majority of the three components; the prediction is the
   * vote when the meta counter is non-negative, else the bimodal prediction.
   */
  lemma FreshPrediction(c: Config, s: State, ip: bv64)
    requires Valid(c, s)
    ensures var k := Fresh(c, s, ip);
      k.majorityVote == Majority(k.bimPred, k.g0Pred, k.g1Pred) &&
      k.metaPred == (s.meta[GHash(s.ghist, c.mh, c.mt, ip)].value >= 0) &&
      k.prediction == (if k.metaPred then k.majorityVote else k.bimPred)
  {
  }

  /**
   * The meta table after `train`: when the vote and the bimodal prediction
   * differ, the meta counter moves toward whichever was right (the vote,
   * when it was); when they agree and the prediction was right, it moves
   * further toward its own sign; otherwise it stays.
   */
  function MetaUpdate(c: Config, s: State, taken: bool): (meta: Table)
    requires Valid(c, s)
    ensures TableValid(meta, 2, Pow2(c.mt))
    ensures forall i :: 0 <= i < |s.meta| && i != s.cache.metaIdx ==> meta[i] == s.meta[i]
  {
    var k := s.cache;
    if k.majorityVote != k.bimPred then
      TrainAtValid(s.meta, 2, Pow2(c.mt), k.metaIdx, k.majorityVote == taken);
      TrainAt(s.meta, k.metaIdx, k.majorityVote == taken)
    else if k.prediction == taken then
      TrainAtValid(s.meta, 2, Pow2(c.mt), k.metaIdx, k.metaPred);
      TrainAt(s.meta, k.metaIdx, k.metaPred)
    else s.meta
  }

  /** The prediction the updated meta counter would give. */
  predicate NewPrediction(c: Config, s: State, taken: bool)
    requires Valid(c, s)
  {
    if MetaUpdate(c, s, taken)[s.cache.metaIdx].value >= 0 then s.cache.majorityVote else s.cache.bimPred
  }

  /**
   * The assertion in `train`: when the cached prediction was right and the
   * meta counter agrees with the cached meta prediction, the meta update
   * cannot change the prediction.
   */
  lemma MetaUpdateKeepsCorrectPrediction(c: Config, s: State, taken: bool)
    requires Valid(c, s) && s.cache.metaPred == (s.meta[s.cache.metaIdx].value >= 0)
    requires taken == s.cache.prediction
    ensures NewPrediction(c, s, taken) == s.cache.prediction
  {
  }

  /**
   * `train(b)`: after `predict(b.ip)`, the meta update; then, if the new
   * prediction is still wrong, every component steps toward the outcome;
   * else, unless all three components agree, the right components are
   * strengthened (all of them when the meta counter chose the vote, the
   * bimodal one otherwise).
   */
  function Train(c: Config, s: State, b: Branch): (r: State)
    requires Valid(c, s)
    ensures Valid(c, r)
    ensures r.ghist == s.ghist && r.cache == Predict(c, s, b.ip).0.cache
    ensures r.predictedIp == b.ip && !r.tracked
  {
    var s1 := Predict(c, s, b.ip).0;
    var k := s1.cache;
    var taken := IsTaken(b);
    var meta := MetaUpdate(c, s1, taken);
    if NewPrediction(c, s1, taken) != taken then
      TrainAtValid(s1.bim, 2, Pow2(c.bt), k.bimIdx, taken);
      TrainAtValid(s1.g0, 2, Pow2(c.g0t), k.g0Idx, taken);
      TrainAtValid(s1.g1, 2, Pow2(c.g1t), k.g1Idx, taken);
      s1.(meta := meta, bim := TrainAt(s1.bim, k.bimIdx, taken),
          g0 := TrainAt(s1.g0, k.g0Idx, taken), g1 := TrainAt(s1.g1, k.g1Idx, taken))
    else if k.bimPred == k.g0Pred && k.bimPred == k.g1Pred then
      s1.(meta := meta)
    else
      s1.(meta := meta,
          bim := Strengthen(s1.bim, 2, Pow2(c.bt), k.bimIdx, k.bimPred, !k.metaPred || k.bimPred == taken),
          g0 := Strengthen(s1.g0, 2, Pow2(c.g0t), k.g0Idx, k.g0Pred, k.metaPred && k.g0Pred == taken),
          g1 := Strengthen(s1.g1, 2, Pow2(c.g1t), k.g1Idx, k.g1Pred, k.metaPred && k.g1Pred == taken))
  }

  /** `table[i].sumOrSub(pred)` when `doIt`, else nothing. */
  function Strengthen(table: Table, bits: nat, size: nat, i: nat, pred: bool, doIt: bool): (r: Table)
    requires TableValid(table, bits, size) && i < size
    ensures TableValid(r, bits, size)
    ensures doIt ==> r == TrainAt(table, i, pred)
    ensures !doIt ==> r == table
  {
    if doIt then
      TrainAtValid(table, bits, size, i, pred);
      TrainAt(table, i, pred)
    else table
  }

  /**
   * In the simulator's order (`predict(ip)` on a coherent state, then
   * `train` of the branch at `ip`), the assertion in `train` holds: the
   * meta update never turns a right prediction into a wrong one.
   */
  lemma TrainAssertionHolds(c: Config, s: State, b: Branch)
    requires Valid(c, s) && Coherent(c, s)
    ensures var s1 := Predict(c, s, b.ip).0;
      IsTaken(b) == s1.cache.prediction ==> NewPrediction(c, s1, IsTaken(b)) == s1.cache.prediction
  {
    var s1 := Predict(c, s, b.ip).0;
    PredictIsFresh(c, s, b.ip);
    assert s1.cache == Fresh(c, s, b.ip) || s1 == s;
    if IsTaken(b) == s1.cache.prediction {
      MetaUpdateKeepsCorrectPrediction(c, s1, IsTaken(b));
    }
  }

  /** A still-wrong prediction trains all three components toward the outcome. */
  lemma TrainWhenWrong(c: Config, s: State, b: Branch)
    requires Valid(c, s)
    requires var s1 := Predict(c, s, b.ip).0; NewPrediction(c, s1, IsTaken(b)) != IsTaken(b)
    ensures var s1 := Predict(c, s, b.ip).0; var k := s1.cache; var r := Train(c, s, b);
      r.bim == TrainAt(s1.bim, k.bimIdx, IsTaken(b)) &&
      r.g0 == TrainAt(s1.g0, k.g0Idx, IsTaken(b)) &&
      r.g1 == TrainAt(s1.g1, k.g1Idx, IsTaken(b)) &&
      r.meta == MetaUpdate(c, s1, IsTaken(b))
  {
  }

  /**
   * When all three components agree only the meta table can change, and
   * the prediction was right whenever the new prediction is.
   */
  lemma TrainWhenUnanimous(c: Config, s: State, b: Branch)
    requires Valid(c, s)
    requires var k := Predict(c, s, b.ip).0.cache; k.bimPred == k.g0Pred == k.g1Pred
    ensures var s1 := Predict(c, s, b.ip).0; var r := Train(c, s, b);
      NewPrediction(c, s1, IsTaken(b)) == IsTaken(b) ==> r.bim == s.bim && r.g0 == s.g0 && r.g1 == s.g1
    ensures var s1 := Predict(c, s, b.ip).0;
      NewPrediction(c, s1, IsTaken(b)) == s1.cache.prediction
  {
  }

  /**
   * A right prediction with split components strengthens, toward their own
   * predictions, the components that were right if the vote was chosen,
   * and the bimodal component if it was not; the others stay.
   */
  lemma TrainWhenRight(c: Config, s: State, b: Branch)
    requires Valid(c, s)
    requires var s1 := Predict(c, s, b.ip).0; var k := s1.cache;
      NewPrediction(c, s1, IsTaken(b)) == IsTaken(b) && !(k.bimPred == k.g0Pred == k.g1Pred)
    ensures var s1 := Predict(c, s, b.ip).0; var k := s1.cache; var r := Train(c, s, b);
      r.bim == (if !k.metaPred || k.bimPred == IsTaken(b) then TrainAt(s1.bim, k.bimIdx, k.bimPred) else s.bim) &&
      r.g0 == (if k.metaPred && k.g0Pred == IsTaken(b) then TrainAt(s1.g0, k.g0Idx, k.g0Pred) else s.g0) &&
      r.g1 == (if k.metaPred && k.g1Pred == IsTaken(b) then TrainAt(s1.g1, k.g1Idx, k.g1Pred) else s.g1)
  {
  }

  /** The meta counter moves as `MetaUpdate` describes, and nowhere else. */
  lemma TrainMeta(c: Config, s: State, b: Branch)
    requires Valid(c, s)
    ensures var s1 := Predict(c, s, b.ip).0; var k := s1.cache; var r := Train(c, s, b);
      (k.majorityVote != k.bimPred ==>
         r.meta[k.metaIdx] == SatSumOrSub(s.meta[k.metaIdx], k.majorityVote == IsTaken(b))) &&
      (k.majorityVote == k.bimPred && k.prediction == IsTaken(b) ==>
         r.meta[k.metaIdx] == SatSumOrSub(s.meta[k.metaIdx], k.metaPred)) &&
      (k.majorityVote == k.bimPred && k.prediction != IsTaken(b) ==> r.meta == s.meta) &&
      forall i :: 0 <= i < |s.meta| && i != k.metaIdx ==> r.meta[i] == s.meta[i]
  {
  }

  /** `track(b)`: the outcome enters history bit 0, and the cache becomes unusable. */
  function Track(c: Config, s: State, b: Branch): (r: State)
    requires Valid(c, s)
    ensures Valid(c, r) && r.tracked && Coherent(c, r)
    ensures r.bim == s.bim && r.g0 == s.g0 && r.g1 == s.g1 && r.meta == s.meta
    ensures HistoryLength(c) > 0 ==> r.ghist[0] == IsTaken(b)
    ensures forall i :: 1 <= i < HistoryLength(c) ==> r.ghist[i] == s.ghist[i - 1]
  {
    s.(ghist := ShiftIn(s.ghist, IsTaken(b)), tracked := true)
  }

  /**
   * 2bc-gskew as a `Predictor`. Its `predict` keeps predictions only on
   * coherent states; see `PredictKeepsPredictions`.
   */
  function AsPredictor(c: Config): (p: Predictors.Predictor<State>)
    requires ConfigValid(c)
    ensures forall s: State, ip: bv64 :: Valid(c, s) ==> p.predict(s, ip) == Predict(c, s, ip)
    ensures forall s: State, b: Branch :: Valid(c, s) ==> p.train(s, b) == Train(c, s, b)
    ensures forall s: State, b: Branch :: Valid(c, s) ==> p.track(s, b) == Track(c, s, b)
  {
    Predictors.Predictor(
      (s: State, ip: bv64) => if Valid(c, s) then Predict(c, s, ip) else (s, false),
      (s: State, b: Branch) => if Valid(c, s) then Train(c, s, b) else s,
      (s: State, b: Branch) => if Valid(c, s) then Track(c, s, b) else s)
  }

  /** On a coherent state `predict` changes no later prediction. */
  lemma PredictKeepsPredictions(c: Config, s: State, ip: bv64)
    requires Valid(c, s) && Coherent(c, s)
    ensures Predictors.PredictKeepsPredictions(AsPredictor(c), s, ip)
  {
    var p := AsPredictor(c);
    var s1 := Predict(c, s, ip).0;
    forall ip2: bv64
      ensures p.predict(s1, ip2).1 == p.predict(s, ip2).1
    {
      PredictIsFresh(c, s, ip);
      PredictIsFresh(c, s, ip2);
      PredictIsFresh(c, s1, ip2);
      assert Fresh(c, s1, ip2) == Fresh(c, s, ip2);
    }
  }

  /**
   * One iteration of the simulation loop ends in a coherent state: `train`
   * changes the tables and keeps the saved values, which go stale, but the
   * `track` that follows marks them unusable.
   */
  lemma StepCoherent(c: Config, s: State, b: Branch)
    requires Valid(c, s)
    ensures var r := Simulator.Step(AsPredictor(c), s, b); Valid(c, r) && Coherent(c, r)
  {
    var p := AsPredictor(c);
    var s1 := Predict(c, s, b.ip).0;
    assert p.predict(s, b.ip).0 == s1;
    var s2 := if IsConditional(b) then p.train(s1, b) else s1;
    assert Valid(c, s2);
    assert p.track(s2, b) == Track(c, s2, b);
  }

  /**
   * Every `predict` of a simulation sees a coherent state, so by
   * `PredictIsFresh` it returns what a fresh computation gives; the
   * constructed predictor is one such starting state.
   */
  lemma SimulationCoherent(c: Config, s0: State, recs: seq<SbbtReader.Decoded>, warmup: nat, k: nat)
    requires Valid(c, s0) && Coherent(c, s0) && k <= |recs|
    ensures var s := Simulator.Run(AsPredictor(c), s0, recs, warmup, k).state; Valid(c, s) && Coherent(c, s)
  {
    var p := AsPredictor(c);
    var inv := (s: State) => Valid(c, s) && Coherent(c, s);
    forall s: State, b: Branch | inv(s)
      ensures inv(Simulator.Step(p, s, b))
    {
      StepCoherent(c, s, b);
    }
    Simulator.RunKeeps(p, s0, recs, warmup, k, inv);
  }
}
