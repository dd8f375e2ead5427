/**
 * `TwoLevel<HLEN, HNUM, HSET, PNUM, PSET>`: 2^HNUM branch history registers
 * (BHRs) of HLEN bits, selected by address bits from HSET on, and a pattern
 * table of 2^(PNUM+HLEN) two-bit counters indexed by PNUM address bits
 * (from PSET on) above the selected history.
 */
module TwoLevel {
  import opened Bits
  import opened Histories
  import opened SaturatedReg
  import opened CounterTables
  import opened Branches
  import Predictors

  datatype Config = Config(hlen: nat, hnum: nat, hset: nat, pnum: nat, pset: nat)

  /**
   * Every shift stays inside a 64-bit word: a history converts with
   * `to_ullong`, the address fields are masked with `1ULL << n`, and the
   * pattern index `PNUM + HLEN` bits wide fits in the word. The table
   * sizes `1 << HNUM` and `1 << (PNUM + HLEN)` are `int` shifts, so both
   * exponents are below 31.
   */
  predicate ConfigValid(c: Config)
  {
    c.hnum < 31 && c.hset < 64 && c.pset < 64 && c.pnum + c.hlen < 31
  }

  /** The BHRs (each newest outcome in bit 0) and the pattern table. */
  datatype State = State(bhr: seq<seq<bool>>, phr: Table)

  predicate Valid(c: Config, s: State)
  {
    ConfigValid(c) &&
    |s.bhr| == Pow2(c.hnum) && (forall j :: 0 <= j < |s.bhr| ==> |s.bhr[j]| == c.hlen) &&
    TableValid(s.phr, 2, Pow2(c.pnum + c.hlen))
  }

  /** A default-constructed predictor: clear histories, zeroed counters. */
  function Init(c: Config): (s: State)
    requires ConfigValid(c)
    ensures Valid(c, s)
    ensures forall j :: 0 <= j < |s.bhr| ==> Value(s.bhr[j]) == 0
    ensures forall i :: 0 <= i < |s.phr| ==> s.phr[i].value == 0
  {
    ValueZeros(c.hlen);
    State(seq(Pow2(c.hnum), _ => Zeros(c.hlen)), NewTable(2, Pow2(c.pnum + c.hlen)))
  }

  /** `(ip >> shift) & ((1ULL << n) - 1)`: the `n`-bit address field at `shift`. */
  function Field(ip: bv64, shift: nat, n: nat): (f: seq<bool>)
    ensures |f| == 64 && Fits(f, n)
  {
    MaskFits(Shr(OfBv(ip), shift), n);
    And(Shr(OfBv(ip), shift), Mask(64, n))
  }

  /** Bit `j` of an address field is address bit `shift + j`, for `j` below the width. */
  lemma FieldBits(ip: bv64, shift: nat, n: nat)
    ensures forall j :: 0 <= j < 64 ==> Field(ip, shift, n)[j] == (j < n && At(OfBv(ip), shift + j))
  {
  }

  /** `bhrHash(ip)`: which BHR the address uses. */
  function BhrHash(c: Config, ip: bv64): (k: nat)
    requires ConfigValid(c)
    ensures k < Pow2(c.hnum)
  {
    ValueFits(Field(ip, c.hset, c.hnum), c.hnum);
    Value(Field(ip, c.hset, c.hnum))
  }

  /** With `HNUM = 0` (the G variants) every address shares the one global history. */
  lemma GlobalHistory(c: Config, ip: bv64)
    requires ConfigValid(c) && c.hnum == 0
    ensures BhrHash(c, ip) == 0
  {
  }

  /** `phrHash(ip)`: the address field shifted above the branch's history, or-ed with it. */
  function PhrHash(c: Config, bhr: seq<seq<bool>>, ip: bv64): nat
    requires ConfigValid(c) && |bhr| == Pow2(c.hnum)
    requires forall j :: 0 <= j < |bhr| ==> |bhr[j]| == c.hlen
  {
    Value(Or(Shl(Field(ip, c.pset, c.pnum), c.hlen), ToWord(bhr[BhrHash(c, ip)])))
  }

  /**
   * The pattern index is the selected history in the low `HLEN` bits with
   * the `PNUM`-bit address field above it, so it stays inside the table.
   */
  lemma PhrHashSplit(c: Config, bhr: seq<seq<bool>>, ip: bv64)
    requires ConfigValid(c) && |bhr| == Pow2(c.hnum)
    requires forall j :: 0 <= j < |bhr| ==> |bhr[j]| == c.hlen
    ensures PhrHash(c, bhr, ip) ==
      Value(bhr[BhrHash(c, ip)]) + Pow2(c.hlen) * Value(Field(ip, c.pset, c.pnum))
    ensures PhrHash(c, bhr, ip) < Pow2(c.pnum + c.hlen)
  {
    var h := bhr[BhrHash(c, ip)];
    var a := Field(ip, c.pset, c.pnum);
    OrShiftedValue(a, c.pnum, h);
    ValueBelow(h);
    ValueFits(a, c.pnum);
    Pow2Add(c.hlen, c.pnum);
    assert c.pnum + c.hlen == c.hlen + c.pnum;
    PlaceBelow(Value(h), Pow2(c.hlen), Value(a), Pow2(c.pnum));
  }

  lemma PlaceBelow(x: int, p: int, y: int, q: int)
    requires 0 <= x < p && 0 <= y < q
    ensures x + p * y < p * q
  {
    assert p * y <= p * (q - 1);
  }

  /**
   * Two predictions share a pattern counter only when they use the same
   * history and the same address field: the index loses nothing.
   */
  lemma PhrHashInjective(c: Config, bhr: seq<seq<bool>>, ip1: bv64, ip2: bv64)
    requires ConfigValid(c) && |bhr| == Pow2(c.hnum)
    requires forall j :: 0 <= j < |bhr| ==> |bhr[j]| == c.hlen
    requires PhrHash(c, bhr, ip1) == PhrHash(c, bhr, ip2)
    ensures bhr[BhrHash(c, ip1)] == bhr[BhrHash(c, ip2)]
    ensures Field(ip1, c.pset, c.pnum) == Field(ip2, c.pset, c.pnum)
  {
    var h1, h2 := bhr[BhrHash(c, ip1)], bhr[BhrHash(c, ip2)];
    var a1, a2 := Field(ip1, c.pset, c.pnum), Field(ip2, c.pset, c.pnum);
    PhrHashSplit(c, bhr, ip1);
    PhrHashSplit(c, bhr, ip2);
    ValueBelow(h1);
    ValueBelow(h2);
    SplitUnique(Value(h1), Value(a1), Value(h2), Value(a2), Pow2(c.hlen));
    ValueInjective(h1, h2);
    ValueInjective(a1, a2);
  }

  /** A number below `p` plus a multiple of `p` determines both parts. */
  lemma SplitUnique(x1: int, y1: int, x2: int, y2: int, p: int)
    requires 0 <= x1 < p && 0 <= x2 < p && x1 + p * y1 == x2 + p * y2
    ensures x1 == x2 && y1 == y2
  {
    var m := x1 + p * y1;
    assert m == y1 * p + x1 && m == y2 * p + x2;
    ModUnique(m, p, y1, x1);
    ModUnique(m, p, y2, x2);
  }

  /** With `PNUM = 0` (the g variants) the history alone indexes the one pattern table. */
  lemma GlobalPatternTable(c: Config, bhr: seq<seq<bool>>, ip: bv64)
    requires ConfigValid(c) && |bhr| == Pow2(c.hnum) && c.pnum == 0
    requires forall j :: 0 <= j < |bhr| ==> |bhr[j]| == c.hlen
    ensures PhrHash(c, bhr, ip) == Value(bhr[BhrHash(c, ip)])
  {
    PhrHashSplit(c, bhr, ip);
    ValueZero(Field(ip, c.pset, c.pnum));
  }

  /** `predict(ip)`: the indexed pattern counter is non-negative. */
  predicate Predict(c: Config, s: State, ip: bv64)
    requires Valid(c, s)
  {
    PhrHashSplit(c, s.bhr, ip);
    PredictAt(s.phr, PhrHash(c, s.bhr, ip))
  }

  /** `train(b)`: the indexed counter steps toward the outcome; nothing else changes. */
  function Train(c: Config, s: State, b: Branch): (r: State)
    requires Valid(c, s)
    ensures Valid(c, r) && r.bhr == s.bhr
    ensures var k := PhrHash(c, s.bhr, b.ip);
      k < |s.phr| && r.phr[k] == SatSumOrSub(s.phr[k], IsTaken(b)) &&
      forall i :: 0 <= i < |s.phr| && i != k ==> r.phr[i] == s.phr[i]
  {
    var k := PhrHash(c, s.bhr, b.ip);
    PhrHashSplit(c, s.bhr, b.ip);
    TrainAtValid(s.phr, 2, Pow2(c.pnum + c.hlen), k, IsTaken(b));
    s.(phr := TrainAt(s.phr, k, IsTaken(b)))
  }

  /** After two trainings with the same branch the predictor predicts its outcome. */
  lemma TrainTwiceLearns(c: Config, s: State, b: Branch)
    requires Valid(c, s)
    ensures Predict(c, Train(c, Train(c, s, b), b), b.ip) == IsTaken(b)
  {
    var k := PhrHash(c, s.bhr, b.ip);
    PhrHashSplit(c, s.bhr, b.ip);
    assert TrainTimes(s.phr, k, IsTaken(b), 2) == Train(c, Train(c, s, b), b).phr;
    assert Pow2(1) == 2;
    TrainTimesLearns(s.phr, k, IsTaken(b), 2);
  }

  /**
   * `track(b)`: the outcome is shifted into the BHR the branch selects;
   * every other BHR and the pattern table stay.
   */
  function Track(c: Config, s: State, b: Branch): (r: State)
    requires Valid(c, s)
    ensures Valid(c, r) && r.phr == s.phr
    ensures var k := BhrHash(c, b.ip);
      (c.hlen > 0 ==> r.bhr[k][0] == IsTaken(b)) &&
      (forall i :: 1 <= i < c.hlen ==> r.bhr[k][i] == s.bhr[k][i - 1]) &&
      forall j :: 0 <= j < |s.bhr| && j != k ==> r.bhr[j] == s.bhr[j]
  {
    var k := BhrHash(c, b.ip);
    s.(bhr := s.bhr[k := ShiftIn(s.bhr[k], IsTaken(b))])
  }

  /** As a number, the selected history becomes `(2h + taken) mod 2^HLEN`. */
  lemma TrackValue(c: Config, s: State, b: Branch)
    requires Valid(c, s) && c.hlen > 0
    ensures var k := BhrHash(c, b.ip);
      2 * Value(s.bhr[k]) + BitValue(IsTaken(b)) ==
        Pow2(c.hlen) * BitValue(s.bhr[k][c.hlen - 1]) + Value(Track(c, s, b).bhr[k])
  {
    ShiftInValue(s.bhr[BhrHash(c, b.ip)], IsTaken(b));
  }

  /** The two-level predictor as a `Predictor`; `predict` changes no state. */
  function AsPredictor(c: Config): (p: Predictors.Predictor<State>)
    requires ConfigValid(c)
    ensures forall s: State, ip: bv64 :: p.predict(s, ip).0 == s
    ensures forall s: State, ip: bv64 :: Valid(c, s) ==> p.predict(s, ip).1 == Predict(c, s, ip)
    ensures forall s: State, b: Branch :: Valid(c, s) ==> p.train(s, b) == Train(c, s, b)
    ensures forall s: State, b: Branch :: Valid(c, s) ==> p.track(s, b) == Track(c, s, b)
  {
    Predictors.Predictor(
      (s: State, ip: bv64) => (s, Valid(c, s) && Predict(c, s, ip)),
      (s: State, b: Branch) => if Valid(c, s) then Train(c, s, b) else s,
      (s: State, b: Branch) => if Valid(c, s) then Track(c, s, b) else s)
  }
}
