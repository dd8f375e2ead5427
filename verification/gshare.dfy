/**
 * `Gshare<H, T, IGNORE_UCD>`: a table of 2^T two-bit counters indexed by the
 * XOR fold of the branch address with the global history, the history
 * shifted up so that it ends on a fold boundary.
 */
module Gshare {
  import opened Bits
  import opened Histories
  import opened Indexing
  import opened SaturatedReg
  import opened CounterTables
  import opened Branches
  import Predictors

  /** The template parameters `H`, `T` and `IGNORE_UCD`. */
  datatype Config = Config(h: nat, t: nat, ignoreUcd: bool)

  /**
   * `T` is positive (the hash takes `H % T`) and a fold width below 64, and
   * the shifted history fits in a 64-bit word, as the static assertion in
   * the hash demands; the table size `1 << T` is an `int` shift, so `T` is
   * below 31.
   */
  predicate ConfigValid(c: Config)
  {
    1 <= c.t < 31 && c.h + (c.t - c.h % c.t) <= 64
  }

  /** How far the history is shifted before it is folded. */
  function Shift(c: Config): nat
    requires ConfigValid(c)
  {
    c.t - c.h % c.t
  }

  /** The counter table and the `H`-bit global history, newest outcome in bit 0. */
  datatype State = State(table: Table, ghist: seq<bool>)

  predicate Valid(c: Config, s: State)
  {
    ConfigValid(c) && TableValid(s.table, 2, Pow2(c.t)) && |s.ghist| == c.h
  }

  /** A default-constructed predictor: zeroed counters and history. */
  function Init(c: Config): (s: State)
    requires ConfigValid(c)
    ensures Valid(c, s)
    ensures forall i :: 0 <= i < |s.table| ==> s.table[i].value == 0
    ensures Value(s.ghist) == 0
  {
    ValueZeros(c.h);
    State(NewTable(2, Pow2(c.t)), Zeros(c.h))
  }

  /** `hash(ip)`: the fold of the address XOR the shifted history, an index into the table. */
  function Hash(c: Config, ghist: seq<bool>, ip: bv64): (i: nat)
    requires ConfigValid(c) && |ghist| == c.h
    ensures i < Pow2(c.t)
  {
    var folded := XorFold(Xor(OfBv(ip), Shl(ToWord(ghist), Shift(c))), c.t);
    ValueFits(folded, c.t);
    Value(folded)
  }

  /**
   * The shifted history holds every history bit, in positions `Shift(c)` up
   * to `H + Shift(c)`, and so denotes the history times `2^Shift(c)`.
   */
  lemma HistoryPlacement(c: Config, ghist: seq<bool>)
    requires ConfigValid(c) && |ghist| == c.h
    ensures forall p :: 0 <= p < 64 ==>
      Shl(ToWord(ghist), Shift(c))[p] == (Shift(c) <= p < c.h + Shift(c) && ghist[p - Shift(c)])
    ensures Value(Shl(ToWord(ghist), Shift(c))) == Pow2(Shift(c)) * Value(ghist)
  {
    var w := ToWord(ghist);
    var s := Shift(c);
    forall p | 0 <= p < 64
      ensures Shl(w, s)[p] == (s <= p < c.h + s && ghist[p - s])
    {
      assert Shl(w, s)[p] == At(w, p - s);
      if s <= p < c.h + s {
        assert w[..c.h][p - s] == w[p - s];
      }
    }
    ShlValue(w, c.h, s);
  }

  /**
   * The shift is between 1 and `T`, and the top end of the shifted history
   * is a multiple of `T`: the oldest history bit falls on the last bit of a
   * fold chunk, so the lowest index bits meet the fewest history bits.
   */
  lemma ShiftAligned(c: Config)
    requires ConfigValid(c)
    ensures 1 <= Shift(c) <= c.t && (c.h + Shift(c)) % c.t == 0
  {
    var q := c.h / c.t;
    assert c.h == q * c.t + c.h % c.t;
    assert c.h + Shift(c) == (q + 1) * c.t + 0;
    ModUnique(c.h + Shift(c), c.t, q + 1, 0);
  }

  /** With an all-zero history gshare indexes by the folded address alone. */
  lemma HashWithoutHistory(c: Config, ip: bv64)
    requires ConfigValid(c)
    ensures Hash(c, Zeros(c.h), ip) == Value(XorFold(OfBv(ip), c.t))
  {
    var shifted := Shl(ToWord(Zeros(c.h)), Shift(c));
    assert shifted == Zeros(64) by {
      HistoryPlacement(c, Zeros(c.h));
    }
    assert Xor(OfBv(ip), shifted) == OfBv(ip);
  }

  /** `predict(ip)`: the indexed counter is non-negative. */
  predicate Predict(c: Config, s: State, ip: bv64)
    requires Valid(c, s)
  {
    PredictAt(s.table, Hash(c, s.ghist, ip))
  }

  /**
   * `train(b)`: the counter the branch indexes steps toward its outcome;
   * every other counter and the history stay.
   */
  function Train(c: Config, s: State, b: Branch): (r: State)
    requires Valid(c, s)
    ensures Valid(c, r) && r.ghist == s.ghist
    ensures var k := Hash(c, s.ghist, b.ip);
      r.table[k] == SatSumOrSub(s.table[k], IsTaken(b)) &&
      forall i :: 0 <= i < |s.table| && i != k ==> r.table[i] == s.table[i]
  {
    var k := Hash(c, s.ghist, b.ip);
    TrainAtValid(s.table, 2, Pow2(c.t), k, IsTaken(b));
    s.(table := TrainAt(s.table, k, IsTaken(b)))
  }

  /**
   * Two-bit counters learn in two steps: after training a branch twice under
   * the same history, gshare predicts its outcome, whatever the table held.
   */
  lemma TrainTwiceLearns(c: Config, s: State, b: Branch)
    requires Valid(c, s)
    ensures Predict(c, Train(c, Train(c, s, b), b), b.ip) == IsTaken(b)
  {
    var k := Hash(c, s.ghist, b.ip);
    assert TrainTimes(s.table, k, IsTaken(b), 2) == Train(c, Train(c, s, b), b).table;
    assert Pow2(1) == 2;
    TrainTimesLearns(s.table, k, IsTaken(b), 2);
  }

  /** Whether `track(b)` leaves the history alone. */
  predicate Ignored(c: Config, b: Branch)
  {
    !IsConditional(b) && c.ignoreUcd
  }

  /**
   * `track(b)`: the outcome enters bit 0 of the history and the other bits
   * move up one place, unless unconditional branches are ignored and `b` is
   * one. The table is left alone.
   */
  function Track(c: Config, s: State, b: Branch): (r: State)
    requires Valid(c, s)
    ensures Valid(c, r) && r.table == s.table
    ensures Ignored(c, b) ==> r == s
    ensures !Ignored(c, b) ==>
      (c.h > 0 ==> r.ghist[0] == IsTaken(b)) &&
      forall i :: 1 <= i < c.h ==> r.ghist[i] == s.ghist[i - 1]
  {
    if Ignored(c, b) then s else s.(ghist := ShiftIn(s.ghist, IsTaken(b)))
  }

  /** As a number, a tracked history becomes `(2h + taken) mod 2^H`. */
  lemma TrackValue(c: Config, s: State, b: Branch)
    requires Valid(c, s) && c.h > 0 && !Ignored(c, b)
    ensures 2 * Value(s.ghist) + BitValue(IsTaken(b)) ==
      Pow2(c.h) * BitValue(s.ghist[c.h - 1]) + Value(Track(c, s, b).ghist)
    ensures Value(Track(c, s, b).ghist) < Pow2(c.h)
  {
    ShiftInValue(s.ghist, IsTaken(b));
  }

  /** The outcomes of the branches in `bs` that the history records. */
  function Recorded(c: Config, bs: seq<Branch>): (r: seq<bool>)
    ensures |r| <= |bs|
    ensures !c.ignoreUcd ==> |r| == |bs|
  {
    if |bs| == 0 then []
    else (if Ignored(c, bs[0]) then [] else [IsTaken(bs[0])]) + Recorded(c, bs[1..])
  }

  /** `track` applied to each branch of `bs` in turn. */
  function TrackAll(c: Config, s: State, bs: seq<Branch>): (r: State)
    requires Valid(c, s)
    ensures Valid(c, r)
    decreases |bs|
  {
    if |bs| == 0 then s else TrackAll(c, Track(c, s, bs[0]), bs[1..])
  }

  /**
   * Tracking a run of branches shifts exactly the recorded outcomes into the
   * history, in order, and never touches the table.
   */
  lemma {:induction false} TrackAllHistory(c: Config, s: State, bs: seq<Branch>)
    requires Valid(c, s)
    ensures TrackAll(c, s, bs).ghist == ShiftAll(s.ghist, Recorded(c, bs))
    ensures TrackAll(c, s, bs).table == s.table
    decreases |bs|
  {
    if |bs| > 0 {
      var b := bs[0];
      TrackAllHistory(c, Track(c, s, b), bs[1..]);
      if !Ignored(c, b) {
        assert Recorded(c, bs) == [IsTaken(b)] + Recorded(c, bs[1..]);
        assert ([IsTaken(b)] + Recorded(c, bs[1..]))[1..] == Recorded(c, bs[1..]);
      } else {
        assert Recorded(c, bs) == Recorded(c, bs[1..]);
      }
    }
  }

  /**
   * Bit `i` of the history is the outcome of the `i`-th latest recorded
   * branch, once at least `i + 1` branches have been recorded.
   */
  lemma HistoryIsLatestOutcomes(c: Config, s: State, bs: seq<Branch>, i: nat)
    requires Valid(c, s) && i < c.h && i < |Recorded(c, bs)|
    ensures TrackAll(c, s, bs).ghist[i] == Recorded(c, bs)[|Recorded(c, bs)| - 1 - i]
  {
    TrackAllHistory(c, s, bs);
    ShiftAllLatest(s.ghist, Recorded(c, bs), i);
  }

  /**
   * Gshare as a `Predictor`. States that are not `Valid` are never reached
   * from `Init`; on them every operation does nothing.
   */
  function AsPredictor(c: Config): (p: Predictors.Predictor<State>)
    requires ConfigValid(c)
    ensures forall s: State, ip: bv64 :: p.predict(s, ip).0 == s
    ensures forall s: State, ip: bv64 :: Valid(c, s) ==> p.predict(s, ip).1 == Predict(c, s, ip)
    ensures forall s: State, b: Branch :: Valid(c, s) ==> p.train(s, b) == Train(c, s, b)
    ensures forall s: State, b: Branch :: Valid(c, s) ==> p.track(s, b) == Track(c, s, b)
  {
    Predictors.Predictor(
      (s: State, ip: bv64) => (s, Valid(c, s) && Predict(c, s, ip)),
      (s: State, b: Branch) => if Valid(c, s) then Train(c, s, b) else s,
      (s: State, b: Branch) => if Valid(c, s) then Track(c, s, b) else s)
  }

  /** Gshare's `predict` keeps nothing: it never changes a later prediction. */
  lemma PredictIsPure(c: Config, s: State, ip: bv64)
    requires ConfigValid(c)
    ensures Predictors.PredictKeepsPredictions(AsPredictor(c), s, ip)
  {
  }
}
