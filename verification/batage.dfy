/**
 * `Batage`: a base table and tagged tables of two-sided counters. The
 * provider is the longest hitting table whose counter leans somewhere and
 * is at least as confident as every other such table (the base table when
 * none is). Training updates the hitting entries above the provider, the
 * provider (or decays it when it and a correct alternate were both highly
 * confident), and the alternate when the provider was not; on a
 * misprediction it allocates, with a probability that the `cat` register
 * controls, in the first table past a random skip whose entry is not highly
 * confident, decaying highly confident ones on the way.
 *
 * The random engine is a parameter: `draws(n)` is the value the `n`-th
 * draw yields, which the model reduces to the requested range. A draw may
 * take several engine outputs; the state counts draws, not outputs.
 */
module Batage {
  import opened Bits
  import opened Indexing
  import opened FoldWindow
  import opened SaturatedReg
  import opened GlobalHistory
  import opened TaggedHashes
  import opened Histories
  import opened Branches
  import Predictors
  import SbbtReader
  import Simulator

  /** One table: history length, index width, tag width. */
  datatype TableSpec = TableSpec(ghistLen: nat, idxWidth: nat, tagWidth: nat)

  /** `1 << idxWidth` fits an `int` and tags fit their `uint32_t` field. */
  predicate SpecValid(t: TableSpec)
  {
    t.idxWidth <= 30 && t.tagWidth <= 32
  }

  /** The table specifications, base table first. */
  type Config = seq<TableSpec>

  predicate ConfigValid(c: Config)
  {
    1 <= |c| && forall i :: 0 <= i < |c| ==> SpecValid(c[i])
  }

  /** The history length of every table. */
  function Lens(c: Config): (lens: seq<nat>)
    ensures |lens| == |c| && forall i :: 0 <= i < |c| ==> lens[i] == c[i].ghistLen
  {
    seq(|c|, i requires 0 <= i < |c| => c[i].ghistLen)
  }

  /** The index width of every table. */
  function IdxWidths(c: Config): (ws: seq<nat>)
    ensures |ws| == |c| && forall i :: 0 <= i < |c| ==> ws[i] == c[i].idxWidth
  {
    seq(|c|, i requires 0 <= i < |c| => c[i].idxWidth)
  }

  /** The tag width of every table. */
  function TagWidths(c: Config): (ws: seq<nat>)
    ensures |ws| == |c| && forall i :: 0 <= i < |c| ==> ws[i] == c[i].tagWidth
  {
    seq(|c|, i requires 0 <= i < |c| => c[i].tagWidth)
  }

  /** `maxGhistLen + 1`: the ring is longer than every window. */
  function RingSize(c: Config): (n: nat)
    ensures n > 0 && forall i :: 0 <= i < |c| ==> c[i].ghistLen < n
  {
    MaxLen(Lens(c)) + 1
  }

  /** `MAX_CAT`: `(1 << 15) << 4`. */
  const MaxCat: int := 0x8_0000

  /** `MIN_AP`: a misprediction allocates with probability at least 1/MIN_AP. */
  const MinAp: nat := 10

  /** `MAX_ALLOC_SKIP`: allocation starts 1 to 3 tables past the last hit. */
  const MaxAllocSkip: nat := 3

  /** Entries hold `BatageCtr<3>`. */
  const CtrBits: nat := 3

  datatype Entry = Entry(tag: nat, ctr: BatageCtr)

  /** The tag fits the table's tag width and the counter is a valid 3-bit pair. */
  predicate EntryValid(t: TableSpec, e: Entry)
  {
    e.tag < Pow2(t.tagWidth) && BatageValid(e.ctr) && e.ctr.bits == CtrBits
  }

  /** One table of 2^idxWidth valid entries per specification. */
  predicate TablesValid(c: Config, tables: seq<seq<Entry>>)
  {
    |tables| == |c| &&
    forall i :: 0 <= i < |tables| ==>
      |tables[i]| == Pow2(c[i].idxWidth) &&
      forall k :: 0 <= k < |tables[i]| ==> EntryValid(c[i], tables[i][k])
  }

  /** Every table has an entry at its index. */
  predicate Reaches(tables: seq<seq<Entry>>, idx: seq<nat>)
  {
    |idx| == |tables| && forall i :: 0 <= i < |idx| ==> idx[i] < |tables[i]|
  }

  /** The values `predict` saves for `train`; `idx` stands for the saved entry references. */
  datatype Cache = Cache(idx: seq<nat>, tags: seq<nat>, prov: nat, confidence: int, prediction: bool)

  /** Indices and tags in range, the provider a table, the confidence a level. */
  predicate CacheValid(c: Config, k: Cache)
  {
    |k.idx| == |c| && |k.tags| == |c| &&
    (forall i :: 0 <= i < |c| ==> k.idx[i] < Pow2(c[i].idxWidth) && k.tags[i] < Pow2(c[i].tagWidth)) &&
    k.prov < |c| && 0 <= k.confidence <= 2
  }

  datatype State = State(
    tables: seq<seq<Entry>>, idxFolds: seq<BitStreamXorFold>, tagFolds: seq<BitStreamXorFold>,
    ring: Ring, cat: int, rngPos: nat,
    cache: Cache, entriesIp: bv64, updatedGhist: bool)

  /** Every component has the shape its specification gives it, and `cat` is within `[0, MAX_CAT]`. */
  predicate Valid(c: Config, s: State)
  {
    ConfigValid(c) && TablesValid(c, s.tables) &&
    FoldsValid(s.idxFolds, Lens(c)) && (forall i :: 0 <= i < |c| ==> s.idxFolds[i].foldLen == c[i].idxWidth) &&
    FoldsValid(s.tagFolds, Lens(c)) && (forall i :: 0 <= i < |c| ==> s.tagFolds[i].foldLen == c[i].tagWidth) &&
    RingValid(s.ring) && |s.ring.buf| == RingSize(c) &&
    0 <= s.cat <= MaxCat &&
    CacheValid(c, s.cache)
  }

  /** A value-initialised entry: tag 0, both counters 0. */
  const ZeroEntry: Entry := Entry(0, BatageCtr(CtrBits, 0, 0))

  /** Value-initialised tables. */
  function NewTables(c: Config): (t: seq<seq<Entry>>)
    requires ConfigValid(c)
    ensures TablesValid(c, t)
    ensures forall i, k :: 0 <= i < |t| && 0 <= k < |t[i]| ==> t[i][k] == ZeroEntry
  {
    seq(|c|, i requires 0 <= i < |c| => seq(Pow2(c[i].idxWidth), _ => ZeroEntry))
  }

  /**
   * The constructor, with the saved values marked unusable so that the
   * first `predict` computes its entries: zeroed entries, fresh folds, a
   * cleared ring of `maxGhistLen + 1` outcomes, `cat` 0 and no random value
   * consumed.
   */
  function Init(c: Config): (s: State)
    requires ConfigValid(c)
    ensures Valid(c, s) && s.cat == 0 && s.rngPos == 0
    ensures forall i, k :: 0 <= i < |s.tables| && 0 <= k < |s.tables[i]| ==> s.tables[i][k] == ZeroEntry
  {
    State(NewTables(c), NewFolds(Lens(c), IdxWidths(c)), NewFolds(Lens(c), TagWidths(c)),
          NewRing(RingSize(c)), 0, 0,
          Cache(seq(|c|, _ => 0), seq(|c|, _ => 0), 0, 0, false),
          0, true)
  }

  /**
   * The constructor as written: `entriesIp` 0 and `updatedGhist` false,
   * with the saved entry references all null, which the model shows as no
   * computed index at all.
   */
  function InitAsWritten(c: Config): (s: State)
    requires ConfigValid(c)
    ensures s.entriesIp == 0 && !s.updatedGhist && |s.cache.idx| == 0
    ensures s.tables == Init(c).tables && s.ring == Init(c).ring
  {
    Init(c).(cache := Cache([], [], 0, 0, false), updatedGhist := false)
  }

  /** Whether `predict(ip)` returns the saved prediction without computing anything. */
  predicate CacheHit(s: State, ip: bv64)
  {
    s.entriesIp == ip && !s.updatedGhist
  }

  /**
   * As written, a first `predict(0)` returns the saved `false` without
   * computing the entries, and the `train(b)` that follows reads entries
   * through references that were never set.
   */
  lemma ColdStartAsWritten(c: Config)
    requires ConfigValid(c)
    ensures CacheHit(InitAsWritten(c), 0)
    ensures !CacheValid(c, InitAsWritten(c).cache)
  {
  }

  /** With the saved values marked unusable, the first `predict` computes its entries for every address. */
  lemma ColdStart(c: Config)
    requires ConfigValid(c)
    ensures forall ip: bv64 :: !CacheHit(Init(c), ip)
    ensures Coherent(c, Init(c))
  {
  }

  // ---------------------------------------------------------------------
  // Prediction

  /** Whether table `i`'s indexed entry carries the tag computed for it. */
  predicate Hit(tables: seq<seq<Entry>>, idx: seq<nat>, tags: seq<nat>, i: nat)
    requires Reaches(tables, idx) && |tags| == |idx| && i < |idx|
  {
    tables[i][idx[i]].tag == tags[i]
  }

  /** The counter of table `i`'s indexed entry. */
  function CtrAt(tables: seq<seq<Entry>>, idx: seq<nat>, i: nat): BatageCtr
    requires Reaches(tables, idx) && i < |idx|
  {
    tables[i][idx[i]].ctr
  }

  /** A tagged table that may provide: it hits and its counter leans one way. */
  predicate Candidate(tables: seq<seq<Entry>>, idx: seq<nat>, tags: seq<nat>, i: nat)
    requires Reaches(tables, idx) && |tags| == |idx| && i < |idx|
  {
    Hit(tables, idx, tags, i) && Prediction(CtrAt(tables, idx, i)) != 0
  }

  /** The provider `predict` chooses, with its prediction and confidence. */
  datatype Choice = Choice(prov: nat, prediction: bool, confidence: int)

  /**
   * The loop of `predict` over the first `n` tables. The provider is the
   * base table or a candidate; its confidence is at least the base table's
   * and every candidate's; every candidate after it is strictly less
   * confident; the prediction is its counter's lean.
   */
  function Choose(tables: seq<seq<Entry>>, idx: seq<nat>, tags: seq<nat>, n: nat): (ch: Choice)
    requires Reaches(tables, idx) && |tags| == |idx| && 1 <= n <= |idx|
    ensures ch.prov < n
    ensures ch.prov > 0 ==> Candidate(tables, idx, tags, ch.prov)
    ensures ch.confidence == ConfidenceLevel(CtrAt(tables, idx, ch.prov))
    ensures ch.prediction == (Prediction(CtrAt(tables, idx, ch.prov)) > 0)
    ensures ch.confidence >= ConfidenceLevel(CtrAt(tables, idx, 0))
    ensures forall i :: 1 <= i < n && Candidate(tables, idx, tags, i) ==>
      ConfidenceLevel(CtrAt(tables, idx, i)) <= ch.confidence
    ensures forall i :: ch.prov < i < n && Candidate(tables, idx, tags, i) ==>
      ConfidenceLevel(CtrAt(tables, idx, i)) < ch.confidence
    decreases n
  {
    if n == 1 then
      Choice(0, Prediction(CtrAt(tables, idx, 0)) > 0, ConfidenceLevel(CtrAt(tables, idx, 0)))
    else
      var ch := Choose(tables, idx, tags, n - 1);
      var ctr := CtrAt(tables, idx, n - 1);
      if Candidate(tables, idx, tags, n - 1) && ConfidenceLevel(ctr) >= ch.confidence then
        Choice(n - 1, Prediction(ctr) > 0, ConfidenceLevel(ctr))
      else ch
  }

  /**
   * The properties `Choose` promises pin the provider down: any table with
   * them is the one `Choose` picks.
   */
  lemma ChooseUnique(tables: seq<seq<Entry>>, idx: seq<nat>, tags: seq<nat>, n: nat, p: nat)
    requires Reaches(tables, idx) && |tags| == |idx| && 1 <= n <= |idx| && p < n
    requires p > 0 ==> Candidate(tables, idx, tags, p)
    requires ConfidenceLevel(CtrAt(tables, idx, p)) >= ConfidenceLevel(CtrAt(tables, idx, 0))
    requires forall i :: 1 <= i < n && Candidate(tables, idx, tags, i) ==>
      ConfidenceLevel(CtrAt(tables, idx, i)) <= ConfidenceLevel(CtrAt(tables, idx, p))
    requires forall i :: p < i < n && Candidate(tables, idx, tags, i) ==>
      ConfidenceLevel(CtrAt(tables, idx, i)) < ConfidenceLevel(CtrAt(tables, idx, p))
    ensures Choose(tables, idx, tags, n).prov == p
  {
  }

  /** The index into every table, from its index fold. */
  function Indices(c: Config, folds: seq<BitStreamXorFold>, ip: bv64): (idx: seq<nat>)
    requires ConfigValid(c) && FoldsValid(folds, Lens(c))
    requires forall i :: 0 <= i < |c| ==> folds[i].foldLen == c[i].idxWidth
    ensures |idx| == |c| && forall i :: 0 <= i < |c| ==> idx[i] < Pow2(c[i].idxWidth)
  {
    seq(|c|, i requires 0 <= i < |c| => IndexHash(ip, c[i].idxWidth, folds[i].fold))
  }

  /** The tag for every table, from its tag fold. */
  function Tags(c: Config, folds: seq<BitStreamXorFold>, ip: bv64): (tags: seq<nat>)
    requires ConfigValid(c) && FoldsValid(folds, Lens(c))
    requires forall i :: 0 <= i < |c| ==> folds[i].foldLen == c[i].tagWidth
    ensures |tags| == |c| && forall i :: 0 <= i < |c| ==> tags[i] < Pow2(c[i].tagWidth)
  {
    seq(|c|, i requires 0 <= i < |c| => TagHash(ip, c[i].tagWidth, c[i].idxWidth, folds[i].fold))
  }

  /** What `predict(ip)` computes when its cache does not apply. */
  function Fresh(c: Config, s: State, ip: bv64): (k: Cache)
    requires Valid(c, s)
    ensures CacheValid(c, k)
    ensures k.idx == Indices(c, s.idxFolds, ip) && k.tags == Tags(c, s.tagFolds, ip)
    ensures var ch := Choose(s.tables, k.idx, k.tags, |c|);
      k.prov == ch.prov && k.confidence == ch.confidence && k.prediction == ch.prediction
  {
    var idx := Indices(c, s.idxFolds, ip);
    var tags := Tags(c, s.tagFolds, ip);
    var ch := Choose(s.tables, idx, tags, |c|);
    Cache(idx, tags, ch.prov, ch.confidence, ch.prediction)
  }

  /**
   * `predict(ip)`: the saved prediction when the address is the saved one
   * and nothing was tracked since, else a fresh one, which is saved.
   */
  function Predict(c: Config, s: State, ip: bv64): (r: (State, bool))
    requires Valid(c, s)
    ensures Valid(c, r.0) && r.1 == r.0.cache.prediction
    ensures r.0.tables == s.tables && r.0.ring == s.ring && r.0.cat == s.cat && r.0.rngPos == s.rngPos
    ensures r.0.idxFolds == s.idxFolds && r.0.tagFolds == s.tagFolds
    ensures !r.0.updatedGhist && r.0.entriesIp == ip
    ensures CacheHit(s, ip) ==> r.0 == s
    ensures !CacheHit(s, ip) ==> r.0.cache == Fresh(c, s, ip)
  {
    if CacheHit(s, ip) then (s, s.cache.prediction)
    else
      var k := Fresh(c, s, ip);
      (s.(cache := k, entriesIp := ip, updatedGhist := false), k.prediction)
  }

  /** A second `predict(ip)` returns the saved answer and changes nothing. */
  lemma PredictTwice(c: Config, s: State, ip: bv64)
    requires Valid(c, s)
    ensures Predict(c, Predict(c, s, ip).0, ip) == (Predict(c, s, ip).0, Predict(c, s, ip).1)
  {
  }

  /**
   * The saved values are coherent when they are either unusable (the
   * history was updated) or what a fresh prediction of the saved address
   * computes.
   */
  predicate Coherent(c: Config, s: State)
    requires Valid(c, s)
  {
    s.updatedGhist || s.cache == Fresh(c, s, s.entriesIp)
  }

  /** On a coherent state `predict(ip)` is fresh and leaves a coherent state. */
  lemma PredictIsFresh(c: Config, s: State, ip: bv64)
    requires Valid(c, s) && Coherent(c, s)
    ensures Predict(c, s, ip).1 == Fresh(c, s, ip).prediction
    ensures Coherent(c, Predict(c, s, ip).0)
  {
  }

  // ---------------------------------------------------------------------
  // Training

  /** An entry whose counter took `update(taken)`. */
  function UpdateEntry(e: Entry, taken: bool): (r: Entry)
    requires BatageValid(e.ctr)
    ensures r.tag == e.tag && BatageValid(r.ctr) && r.ctr.bits == e.ctr.bits
  {
    e.(ctr := Update(e.ctr, taken))
  }

  /** An entry whose counter took `decay()`. */
  function DecayEntry(e: Entry): (r: Entry)
    requires BatageValid(e.ctr)
    ensures r.tag == e.tag && BatageValid(r.ctr) && r.ctr.bits == e.ctr.bits
  {
    e.(ctr := Decay(e.ctr))
  }

  /** `tables` with table `i`'s entry `j` replaced by `e`. */
  function SetEntry(c: Config, tables: seq<seq<Entry>>, i: nat, j: nat, e: Entry): (r: seq<seq<Entry>>)
    requires TablesValid(c, tables) && i < |c| && j < |tables[i]| && EntryValid(c[i], e)
    ensures TablesValid(c, r) && r == tables[i := tables[i][j := e]]
  {
    tables[i := tables[i][j := e]]
  }

  /** Whether each table's indexed entry carries the tag computed for it. */
  function Hits(tables: seq<seq<Entry>>, idx: seq<nat>, tags: seq<nat>): (hits: seq<bool>)
    requires Reaches(tables, idx) && |tags| == |idx|
    ensures |hits| == |idx| && forall i :: 0 <= i < |idx| ==> hits[i] == Hit(tables, idx, tags, i)
  {
    seq(|idx|, i requires 0 <= i < |idx| => Hit(tables, idx, tags, i))
  }

  /**
   * The last hitting table above `floor` up to `m`, or `floor` when there
   * is none: `lastHit` with the provider as floor, and `alt` with floor 0
   * below the provider.
   */
  function LastHitIn(hits: seq<bool>, floor: nat, m: int): (r: nat)
    requires m < |hits|
    ensures floor <= r
    ensures r == floor || (r <= m && hits[r])
    ensures forall j :: floor < j <= m && r < j ==> !hits[j]
    decreases m
  {
    if m <= floor then floor else if hits[m] then m else LastHitIn(hits, floor, m - 1)
  }

  /**
   * The first loop of `train`: every hitting table above the provider
   * updates its entry toward the outcome; nothing else changes.
   */
  function UpdateAbove(c: Config, tables: seq<seq<Entry>>, k: Cache, taken: bool): (r: seq<seq<Entry>>)
    requires TablesValid(c, tables) && CacheValid(c, k)
    ensures TablesValid(c, r)
    ensures forall i :: 0 <= i < |c| ==>
      r[i] == if k.prov < i && Hit(tables, k.idx, k.tags, i)
              then tables[i][k.idx[i] := UpdateEntry(tables[i][k.idx[i]], taken)]
              else tables[i]
  {
    seq(|c|, i requires 0 <= i < |c| =>
      if k.prov < i && Hit(tables, k.idx, k.tags, i)
      then tables[i][k.idx[i] := UpdateEntry(tables[i][k.idx[i]], taken)]
      else tables[i])
  }

  /** `altCorrect`: the alternate leans one way and that is the outcome. */
  predicate AltCorrect(alt: BatageCtr, taken: bool)
  {
    Prediction(alt) != 0 && taken == (Prediction(alt) >= 0)
  }

  /**
   * Whether the provider decays instead of updating: a tagged provider and
   * the alternate were both highly confident and the alternate was right.
   */
  predicate ProviderDecays(k: Cache, alt: BatageCtr, taken: bool)
  {
    k.prov > 0 && k.confidence == 2 && ConfidenceLevel(alt) == 2 && AltCorrect(alt, taken)
  }

  /** Whether the alternate updates too: a tagged provider that was not highly confident. */
  predicate AltUpdates(k: Cache)
  {
    k.prov > 0 && k.confidence != 2
  }

  /**
   * The provider's and alternate's part of `train`: the provider's entry
   * decays or updates toward the outcome, and the alternate's entry
   * updates when `AltUpdates`; nothing else changes.
   */
  function UpdateProviders(c: Config, tables: seq<seq<Entry>>, k: Cache, alt: nat, taken: bool): (r: seq<seq<Entry>>)
    requires TablesValid(c, tables) && CacheValid(c, k)
    requires alt <= k.prov && (k.prov > 0 ==> alt < k.prov)
    ensures TablesValid(c, r)
    ensures var e := tables[k.prov][k.idx[k.prov]];
      r[k.prov] == tables[k.prov][k.idx[k.prov] :=
        if ProviderDecays(k, CtrAt(tables, k.idx, alt), taken) then DecayEntry(e) else UpdateEntry(e, taken)]
    ensures AltUpdates(k) ==> r[alt] == tables[alt][k.idx[alt] := UpdateEntry(tables[alt][k.idx[alt]], taken)]
    ensures forall i :: 0 <= i < |c| && i != k.prov && (i != alt || !AltUpdates(k)) ==> r[i] == tables[i]
  {
    var e := tables[k.prov][k.idx[k.prov]];
    var p := if ProviderDecays(k, CtrAt(tables, k.idx, alt), taken) then DecayEntry(e) else UpdateEntry(e, taken);
    var t := SetEntry(c, tables, k.prov, k.idx[k.prov], p);
    if AltUpdates(k) then
      SetEntry(c, t, alt, k.idx[alt], UpdateEntry(tables[alt][k.idx[alt]], taken))
    else t
  }

  /** `cat * MIN_AP / (MAX_CAT + 1)`: a draw below it skips the allocation. */
  function Throttle(cat: int): int
  {
    cat * MinAp / (MaxCat + 1)
  }

  /**
   * Within `[0, MAX_CAT]` the product does not overflow an `int` and the
   * threshold is at most `MIN_AP - 1`: the top draw `MIN_AP - 1` always
   * allocates, and with `cat` 0 every draw does.
   */
  lemma ThrottleBound(cat: int)
    requires 0 <= cat <= MaxCat
    ensures cat * MinAp < 0x8000_0000
    ensures 0 <= Throttle(cat) <= MinAp - 1
    ensures cat == 0 ==> Throttle(cat) == 0
  {
  }

  /** The `n`-th draw reduced to `[lo, hi]`, standing for a uniform distribution. */
  function Draw(draws: nat -> nat, n: nat, lo: nat, hi: nat): (r: nat)
    requires lo <= hi
    ensures lo <= r <= hi
  {
    lo + draws(n) % (hi - lo + 1)
  }

  /** `std::max(0, std::min(cat, MAX_CAT))`. */
  function Clamp(x: int): (r: int)
    ensures 0 <= r <= MaxCat
    ensures 0 <= x <= MaxCat ==> r == x
    ensures x < 0 ==> r == 0
    ensures x > MaxCat ==> r == MaxCat
  {
    Max(0, Min(x, MaxCat))
  }

  /**
   * The entry `train` allocates: the branch's tag and `BatageCtr<3>(0, 1)`
   * when taken, `(1, 0)` otherwise. It predicts the outcome with medium
   * confidence.
   */
  function NewEntry(tag: nat, taken: bool): (e: Entry)
    ensures e.tag == tag && BatageValid(e.ctr) && e.ctr.bits == CtrBits
    ensures Prediction(e.ctr) == (if taken then 1 else -1)
    ensures ConfidenceLevel(e.ctr) == 1
  {
    Entry(tag, if taken then NewBatageCtr(CtrBits, 0, 1) else NewBatageCtr(CtrBits, 1, 0))
  }

  /** Whether an entry is highly confident, which protects it from replacement. */
  predicate Confident(e: Entry)
  {
    ConfidenceLevel(e.ctr) == 2
  }

  /** The entry each table's saved reference designates: `*entry[i]`. */
  function Indexed(tables: seq<seq<Entry>>, idx: seq<nat>): (es: seq<Entry>)
    requires Reaches(tables, idx)
    ensures |es| == |idx| && forall j :: 0 <= j < |idx| ==> es[j] == tables[j][idx[j]]
  {
    seq(|idx|, j requires 0 <= j < |idx| => tables[j][idx[j]])
  }

  /** Every counter is a valid 3-bit pair. */
  predicate CountersValid(es: seq<Entry>)
  {
    forall j :: 0 <= j < |es| ==> BatageValid(es[j].ctr) && es[j].ctr.bits == CtrBits
  }

  /** The first entry from index `start` on that is not highly confident, or `|es|`. */
  function FirstUnsure(es: seq<Entry>, start: nat): (r: nat)
    requires start <= |es|
    ensures start <= r <= |es|
    ensures r < |es| ==> !Confident(es[r])
    ensures forall j :: start <= j < r ==> Confident(es[j])
    decreases |es| - start
  {
    if start == |es| || !Confident(es[start]) then start else FirstUnsure(es, start + 1)
  }

  /** 1 for an entry that is not excessively confident: what `mhc` counts. */
  function Modest(e: Entry): nat
  {
    if IsExcessivelyConfident(e.ctr) then 0 else 1
  }

  /** The number of entries in `[lo, hi)` that are not excessively confident. */
  function CountModest(es: seq<Entry>, lo: nat, hi: nat): (r: nat)
    requires lo <= hi <= |es|
    ensures r <= hi - lo
    decreases hi - lo
  {
    if lo == hi then 0 else Modest(es[lo]) + CountModest(es, lo + 1, hi)
  }

  /** A highly confident entry the loop passes: it decays when the engine's value `n` reduced to `[0, 3]` is 0. */
  function MaybeDecay(draws: nat -> nat, n: nat, e: Entry): (r: Entry)
    requires BatageValid(e.ctr)
    ensures r.tag == e.tag && BatageValid(r.ctr) && r.ctr.bits == e.ctr.bits
  {
    if Draw(draws, n, 0, 3) == 0 then DecayEntry(e) else e
  }

  /** The designated entries from the loop's start on, the count of random values consumed and `cat` after the loop. */
  datatype Alloc = Alloc(entries: seq<Entry>, pos: nat, cat: int)

  /**
   * The allocation loop over the designated entries from table `i`, with
   * `mhc` moderately confident entries passed and the engine at value
   * `pos`: a highly confident entry counts toward `mhc` unless excessively
   * confident, draws a value and decays when it is 0; the first entry that
   * is not highly confident is replaced by the new entry and `cat` moves by
   * `3 - 4 * mhc`, clamped. The result holds the entries of tables `i`
   * onward.
   */
  function AllocLoop(draws: nat -> nat, es: seq<Entry>, tags: seq<nat>, taken: bool,
                     i: nat, mhc: nat, pos: nat, cat: int): (r: Alloc)
    requires CountersValid(es) && |tags| == |es| && i <= |es| && 0 <= cat <= MaxCat
    ensures |r.entries| == |es| - i && 0 <= r.cat <= MaxCat && pos <= r.pos
    decreases |es| - i
  {
    if i == |es| then Alloc([], pos, cat)
    else if Confident(es[i]) then
      var rest := AllocLoop(draws, es, tags, taken, i + 1, mhc + Modest(es[i]), pos + 1, cat);
      Alloc([MaybeDecay(draws, pos, es[i])] + rest.entries, rest.pos, rest.cat)
    else
      Alloc([NewEntry(tags[i], taken)] + es[i + 1..], pos, Clamp(cat + 3 - 4 * mhc))
  }

  /** The loop draws one value per highly confident entry before the first one that is not. */
  lemma {:induction false} AllocLoopPos(draws: nat -> nat, es: seq<Entry>, tags: seq<nat>, taken: bool,
                                        i: nat, mhc: nat, pos: nat, cat: int)
    requires CountersValid(es) && |tags| == |es| && i <= |es| && 0 <= cat <= MaxCat
    ensures AllocLoop(draws, es, tags, taken, i, mhc, pos, cat).pos == pos + (FirstUnsure(es, i) - i)
    decreases |es| - i
  {
    if i < |es| && Confident(es[i]) {
      AllocLoopPos(draws, es, tags, taken, i + 1, mhc + Modest(es[i]), pos + 1, cat);
    }
  }

  /**
   * What the loop leaves in table `j`'s designated entry: a highly
   * confident entry before the first one that is not decays exactly when
   * its draw is 0; the first one that is not becomes the new entry; the
   * entries after it stay.
   */
  function LoopResult(draws: nat -> nat, es: seq<Entry>, tags: seq<nat>, taken: bool, i: nat, pos: nat, j: nat): Entry
    requires CountersValid(es) && |tags| == |es| && i <= j < |es|
  {
    var a := FirstUnsure(es, i);
    if j < a then MaybeDecay(draws, pos + (j - i), es[j])
    else if j == a then NewEntry(tags[j], taken)
    else es[j]
  }

  /** Past a highly confident entry, the loop from `i` leaves what the loop from `i + 1` leaves. */
  lemma AllocLoopShift(draws: nat -> nat, es: seq<Entry>, tags: seq<nat>, taken: bool,
                       i: nat, mhc: nat, pos: nat, cat: int, j: nat)
    requires CountersValid(es) && |tags| == |es| && i < j < |es| && 0 <= cat <= MaxCat && Confident(es[i])
    ensures AllocLoop(draws, es, tags, taken, i, mhc, pos, cat).entries[j - i]
         == AllocLoop(draws, es, tags, taken, i + 1, mhc + Modest(es[i]), pos + 1, cat).entries[j - (i + 1)]
    ensures LoopResult(draws, es, tags, taken, i + 1, pos + 1, j) == LoopResult(draws, es, tags, taken, i, pos, j)
  {
    assert FirstUnsure(es, i) == FirstUnsure(es, i + 1);
    assert pos + 1 + (j - (i + 1)) == pos + (j - i);
  }

  /** The entry the loop leaves in its first table, and after one that is not highly confident. */
  lemma AllocLoopFirst(draws: nat -> nat, es: seq<Entry>, tags: seq<nat>, taken: bool,
                       i: nat, mhc: nat, pos: nat, cat: int, j: nat)
    requires CountersValid(es) && |tags| == |es| && i <= j < |es| && 0 <= cat <= MaxCat
    requires i == j || !Confident(es[i])
    ensures AllocLoop(draws, es, tags, taken, i, mhc, pos, cat).entries[j - i] == LoopResult(draws, es, tags, taken, i, pos, j)
  {
    if !Confident(es[i]) {
      assert FirstUnsure(es, i) == i;
    }
  }

  /** The entry the loop leaves in table `j`. */
  lemma {:induction false} AllocLoopEntry(draws: nat -> nat, es: seq<Entry>, tags: seq<nat>, taken: bool,
                                          i: nat, mhc: nat, pos: nat, cat: int, j: nat)
    requires CountersValid(es) && |tags| == |es| && i <= j < |es| && 0 <= cat <= MaxCat
    ensures AllocLoop(draws, es, tags, taken, i, mhc, pos, cat).entries[j - i] == LoopResult(draws, es, tags, taken, i, pos, j)
    decreases j - i
  {
    if Confident(es[i]) && i < j {
      AllocLoopEntry(draws, es, tags, taken, i + 1, mhc + Modest(es[i]), pos + 1, cat, j);
      AllocLoopShift(draws, es, tags, taken, i, mhc, pos, cat, j);
    } else {
      AllocLoopFirst(draws, es, tags, taken, i, mhc, pos, cat, j);
    }
  }

  /**
   * Where some entry from `i` on is not highly confident, `cat` moves by 3
   * less 4 for every moderately confident entry passed before it, clamped
   * to `[0, MAX_CAT]`; where there is none, `cat` stays.
   */
  lemma {:induction false} AllocLoopCat(draws: nat -> nat, es: seq<Entry>, tags: seq<nat>, taken: bool,
                                        i: nat, mhc: nat, pos: nat, cat: int)
    requires CountersValid(es) && |tags| == |es| && i <= |es| && 0 <= cat <= MaxCat
    ensures var r := AllocLoop(draws, es, tags, taken, i, mhc, pos, cat);
      var a := FirstUnsure(es, i);
      (a < |es| ==> r.cat == Clamp(cat + 3 - 4 * (mhc + CountModest(es, i, a)))) &&
      (a == |es| ==> r.cat == cat)
    decreases |es| - i
  {
    if i < |es| && Confident(es[i]) {
      AllocLoopCat(draws, es, tags, taken, i + 1, mhc + Modest(es[i]), pos + 1, cat);
    }
  }

  /** `alt`: the last hitting table below the provider, or the base table. */
  function Alt(c: Config, tables: seq<seq<Entry>>, k: Cache): (alt: nat)
    requires TablesValid(c, tables) && CacheValid(c, k)
    ensures alt <= k.prov && (k.prov > 0 ==> alt < k.prov)
    ensures alt == 0 || Hit(tables, k.idx, k.tags, alt)
    ensures forall j :: alt < j < k.prov ==> !Hit(tables, k.idx, k.tags, j)
  {
    LastHitIn(Hits(tables, k.idx, k.tags), 0, k.prov - 1)
  }

  /** `lastHit`: the last hitting table above the provider, or the provider. */
  function LastHit(c: Config, tables: seq<seq<Entry>>, k: Cache): (last: nat)
    requires TablesValid(c, tables) && CacheValid(c, k)
    ensures k.prov <= last < |c|
    ensures last == k.prov || Hit(tables, k.idx, k.tags, last)
    ensures forall j :: last < j < |c| ==> !Hit(tables, k.idx, k.tags, j)
  {
    LastHitIn(Hits(tables, k.idx, k.tags), k.prov, |c| - 1)
  }

  /**
   * The training of `train` before allocation: hitting entries above the
   * provider update, the provider decays or updates, and the alternate
   * updates when the provider was tagged and not highly confident. No
   * other table changes.
   */
  function Updated(c: Config, tables: seq<seq<Entry>>, k: Cache, taken: bool): (u: seq<seq<Entry>>)
    requires TablesValid(c, tables) && CacheValid(c, k)
    ensures TablesValid(c, u)
    ensures forall i :: k.prov < i < |c| ==>
      u[i] == if Hit(tables, k.idx, k.tags, i)
              then tables[i][k.idx[i] := UpdateEntry(tables[i][k.idx[i]], taken)]
              else tables[i]
    ensures var alt := Alt(c, tables, k); var e := tables[k.prov][k.idx[k.prov]];
      u[k.prov] == tables[k.prov][k.idx[k.prov] :=
        if ProviderDecays(k, CtrAt(tables, k.idx, alt), taken) then DecayEntry(e) else UpdateEntry(e, taken)] &&
      (AltUpdates(k) ==> u[alt] == tables[alt][k.idx[alt] := UpdateEntry(tables[alt][k.idx[alt]], taken)]) &&
      (forall i :: 0 <= i < k.prov && (i != alt || !AltUpdates(k)) ==> u[i] == tables[i])
  {
    var a := UpdateAbove(c, tables, k, taken);
    var alt := Alt(c, tables, k);
    assert a[k.prov] == tables[k.prov] && a[alt] == tables[alt];
    UpdateProviders(c, a, k, alt, taken)
  }

  /** Where the allocation loop starts: `skip` tables past the last hit, or past the end. */
  function AllocStart(c: Config, tables: seq<seq<Entry>>, k: Cache, skip: nat): (i: nat)
    requires TablesValid(c, tables) && CacheValid(c, k) && 1 <= skip
    ensures LastHit(c, tables, k) < i <= |c|
  {
    var start := LastHit(c, tables, k) + skip;
    if start < |c| then start else |c|
  }

  /** `tables` with every table's designated entry replaced by the one in `es`. */
  function WriteBack(c: Config, tables: seq<seq<Entry>>, idx: seq<nat>, es: seq<Entry>): (r: seq<seq<Entry>>)
    requires TablesValid(c, tables) && Reaches(tables, idx) && |es| == |c|
    requires forall j :: 0 <= j < |c| ==> EntryValid(c[j], es[j])
    ensures TablesValid(c, r)
    ensures forall j :: 0 <= j < |c| ==> r[j] == tables[j][idx[j] := es[j]]
  {
    seq(|c|, j requires 0 <= j < |c| => tables[j][idx[j] := es[j]])
  }

  /** The designated entries after the loop from table `i`: those before `i` as they were. */
  function Allocated(draws: nat -> nat, es: seq<Entry>, tags: seq<nat>, taken: bool, i: nat, pos: nat, cat: int): (es': seq<Entry>)
    requires CountersValid(es) && |tags| == |es| && i <= |es| && 0 <= cat <= MaxCat
    ensures |es'| == |es|
    ensures forall j :: 0 <= j < i ==> es'[j] == es[j]
    ensures forall j :: i <= j < |es| ==> es'[j] == LoopResult(draws, es, tags, taken, i, pos, j)
  {
    var r := AllocLoop(draws, es, tags, taken, i, 0, pos, cat);
    forall j | i <= j < |es|
      ensures r.entries[j - i] == LoopResult(draws, es, tags, taken, i, pos, j)
    {
      AllocLoopEntry(draws, es, tags, taken, i, 0, pos, cat, j);
    }
    es[..i] + r.entries
  }

  /** Every entry the loop leaves fits its table, given entries and tags that do. */
  lemma AllocatedValid(c: Config, draws: nat -> nat, es: seq<Entry>, tags: seq<nat>, taken: bool, i: nat, pos: nat, cat: int)
    requires CountersValid(es) && |tags| == |es| == |c| && i <= |es| && 0 <= cat <= MaxCat
    requires forall j :: 0 <= j < |c| ==> EntryValid(c[j], es[j]) && tags[j] < Pow2(c[j].tagWidth)
    ensures forall j :: 0 <= j < |c| ==> EntryValid(c[j], Allocated(draws, es, tags, taken, i, pos, cat)[j])
  {
  }

  /**
   * The allocation loop of `train` on the updated tables `u`, from table
   * `i`, with the branch's tags: its entries written back.
   */
  function Allocate(c: Config, draws: nat -> nat, u: seq<seq<Entry>>, k: Cache, taken: bool,
                    i: nat, pos: nat, cat: int): (o: (seq<seq<Entry>>, nat, int))
    requires TablesValid(c, u) && CacheValid(c, k) && i <= |c| && 0 <= cat <= MaxCat
    ensures TablesValid(c, o.0) && 0 <= o.2 <= MaxCat && pos <= o.1
  {
    var es := Indexed(u, k.idx);
    var r := AllocLoop(draws, es, k.tags, taken, i, 0, pos, cat);
    AllocatedValid(c, draws, es, k.tags, taken, i, pos, cat);
    (WriteBack(c, u, k.idx, Allocated(draws, es, k.tags, taken, i, pos, cat)), r.pos, r.cat)
  }

  /** The tables after `train`, the count of random values consumed and `cat`. */
  datatype Trained = Trained(tables: seq<seq<Entry>>, pos: nat, cat: int)

  /**
   * The tables, engine position and `cat` after `train` with the saved
   * values `k`: the updates, and on a misprediction the throttled
   * allocation, which starts `skip` tables past the last hit.
   */
  function TrainTables(c: Config, draws: nat -> nat, tables: seq<seq<Entry>>, k: Cache,
                       pos: nat, cat: int, taken: bool): (o: Trained)
    requires TablesValid(c, tables) && CacheValid(c, k) && 0 <= cat <= MaxCat
    ensures TablesValid(c, o.tables) && 0 <= o.cat <= MaxCat && pos <= o.pos
  {
    var u := Updated(c, tables, k, taken);
    if k.prediction == taken then Trained(u, pos, cat)
    else if Draw(draws, pos, 0, MinAp - 1) < Throttle(cat) then Trained(u, pos + 1, cat)
    else
      var a := Allocate(c, draws, u, k, taken, AllocStart(c, tables, k, Draw(draws, pos + 1, 1, MaxAllocSkip)), pos + 2, cat);
      Trained(a.0, a.1, a.2)
  }

  /** The allocation leaves every table before its start as it was. */
  lemma AllocateFrame(c: Config, draws: nat -> nat, u: seq<seq<Entry>>, k: Cache, taken: bool, i: nat, pos: nat, cat: int)
    requires TablesValid(c, u) && CacheValid(c, k) && i <= |c| && 0 <= cat <= MaxCat
    ensures forall j :: 0 <= j < i ==> Allocate(c, draws, u, k, taken, i, pos, cat).0[j] == u[j]
  {
    forall j | 0 <= j < i
      ensures u[j][k.idx[j] := u[j][k.idx[j]]] == u[j]
    {
    }
  }

  /** Allocation leaves every table up to the last hit as the updates left it. */
  lemma TrainTablesFrame(c: Config, draws: nat -> nat, tables: seq<seq<Entry>>, k: Cache, pos: nat, cat: int, taken: bool)
    requires TablesValid(c, tables) && CacheValid(c, k) && 0 <= cat <= MaxCat
    ensures var o := TrainTables(c, draws, tables, k, pos, cat, taken);
      forall j :: 0 <= j <= LastHit(c, tables, k) ==> o.tables[j] == Updated(c, tables, k, taken)[j]
  {
    if k.prediction != taken && Draw(draws, pos, 0, MinAp - 1) >= Throttle(cat) {
      var u := Updated(c, tables, k, taken);
      var start := AllocStart(c, tables, k, Draw(draws, pos + 1, 1, MaxAllocSkip));
      AllocateFrame(c, draws, u, k, taken, start, pos + 2, cat);
    }
  }

  /**
   * `train(b)`: after `predict(b.ip)`, the entries train and, on a
   * misprediction, one may be allocated. The history, the folds and the
   * saved values stay.
   */
  function Train(c: Config, draws: nat -> nat, s: State, b: Branch): (r: State)
    requires Valid(c, s)
    ensures Valid(c, r)
    ensures var p := Predict(c, s, b.ip).0;
      var o := TrainTables(c, draws, s.tables, p.cache, s.rngPos, s.cat, IsTaken(b));
      r.ring == s.ring && r.idxFolds == s.idxFolds && r.tagFolds == s.tagFolds &&
      r.cache == p.cache && r.entriesIp == b.ip && !r.updatedGhist &&
      r.tables == o.tables && r.rngPos == o.pos && r.cat == o.cat
  {
    var p := Predict(c, s, b.ip).0;
    var o := TrainTables(c, draws, p.tables, p.cache, p.rngPos, p.cat, IsTaken(b));
    p.(tables := o.tables, rngPos := o.pos, cat := o.cat)
  }

  /**
   * A correct prediction allocates nothing: no random value is consumed,
   * `cat` stays, and the tables are the updated ones.
   */
  lemma CorrectPredictionKeepsCat(c: Config, draws: nat -> nat, tables: seq<seq<Entry>>, k: Cache, pos: nat, cat: int, taken: bool)
    requires TablesValid(c, tables) && CacheValid(c, k) && 0 <= cat <= MaxCat
    requires k.prediction == taken
    ensures var o := TrainTables(c, draws, tables, k, pos, cat, taken);
      o.pos == pos && o.cat == cat && o.tables == Updated(c, tables, k, taken)
  {
  }

  /**
   * A misprediction whose draw is below the threshold consumes one value
   * and allocates nothing; a misprediction whose draw is `MIN_AP - 1`
   * always reaches the allocation loop, which starts past the last hit.
   */
  lemma Throttled(c: Config, draws: nat -> nat, tables: seq<seq<Entry>>, k: Cache, pos: nat, cat: int, taken: bool)
    requires TablesValid(c, tables) && CacheValid(c, k) && 0 <= cat <= MaxCat
    requires k.prediction != taken
    ensures Draw(draws, pos, 0, MinAp - 1) < Throttle(cat) ==>
      var o := TrainTables(c, draws, tables, k, pos, cat, taken);
      o.pos == pos + 1 && o.cat == cat && o.tables == Updated(c, tables, k, taken)
    ensures Draw(draws, pos, 0, MinAp - 1) == MinAp - 1 ==>
      var o := TrainTables(c, draws, tables, k, pos, cat, taken);
      (o.tables, o.pos, o.cat) ==
        Allocate(c, draws, Updated(c, tables, k, taken), k, taken,
                 AllocStart(c, tables, k, Draw(draws, pos + 1, 1, MaxAllocSkip)), pos + 2, cat)
  {
    ThrottleBound(cat);
  }

  /**
   * Training never touches a table below the provider other than the
   * alternate, and every hitting entry above the provider is updated
   * toward the outcome.
   */
  lemma TrainUpdatesHits(c: Config, draws: nat -> nat, tables: seq<seq<Entry>>, k: Cache, pos: nat, cat: int, taken: bool)
    requires TablesValid(c, tables) && CacheValid(c, k) && 0 <= cat <= MaxCat
    ensures var o := TrainTables(c, draws, tables, k, pos, cat, taken);
      var alt := Alt(c, tables, k);
      (forall i :: 0 <= i < k.prov && (i != alt || !AltUpdates(k)) ==> o.tables[i] == tables[i]) &&
      (forall i :: k.prov < i < |c| && Hit(tables, k.idx, k.tags, i) ==>
        o.tables[i] == tables[i][k.idx[i] := UpdateEntry(tables[i][k.idx[i]], taken)])
  {
    TrainTablesFrame(c, draws, tables, k, pos, cat, taken);
  }

  /**
   * The provider's entry decays when it and a correct alternate were both
   * highly confident and updates toward the outcome otherwise; the
   * alternate's entry updates when the provider was tagged and not highly
   * confident.
   */
  lemma TrainProvider(c: Config, draws: nat -> nat, tables: seq<seq<Entry>>, k: Cache, pos: nat, cat: int, taken: bool)
    requires TablesValid(c, tables) && CacheValid(c, k) && 0 <= cat <= MaxCat
    ensures var o := TrainTables(c, draws, tables, k, pos, cat, taken);
      var alt := Alt(c, tables, k);
      var e := tables[k.prov][k.idx[k.prov]];
      o.tables[k.prov][k.idx[k.prov]] ==
        (if ProviderDecays(k, CtrAt(tables, k.idx, alt), taken) then DecayEntry(e) else UpdateEntry(e, taken)) &&
      (AltUpdates(k) ==> o.tables[alt][k.idx[alt]] == UpdateEntry(tables[alt][k.idx[alt]], taken))
  {
    TrainTablesFrame(c, draws, tables, k, pos, cat, taken);
  }

  /** On a coherent state `train` works with the fresh prediction's selection. */
  lemma TrainUsesFresh(c: Config, draws: nat -> nat, s: State, b: Branch)
    requires Valid(c, s) && Coherent(c, s)
    ensures Train(c, draws, s, b).tables == TrainTables(c, draws, s.tables, Fresh(c, s, b.ip), s.rngPos, s.cat, IsTaken(b)).tables
  {
    if CacheHit(s, b.ip) {
      assert Predict(c, s, b.ip).0 == s;
    }
  }

  // ---------------------------------------------------------------------
  // Tracking

  /**
   * `track(b)`: the outcome goes into the ring, both folds of every table
   * shift it in and the outcome `ghistLen[i]` places back out, and the
   * saved values become unusable.
   */
  function Track(c: Config, s: State, b: Branch): (r: State)
    requires Valid(c, s)
    ensures Valid(c, r) && r.updatedGhist && Coherent(c, r)
    ensures r.tables == s.tables && r.cat == s.cat && r.rngPos == s.rngPos
    ensures r.ring == Push(s.ring, IsTaken(b))
  {
    var ring := Push(s.ring, IsTaken(b));
    s.(ring := ring,
       idxFolds := ShiftFolds(s.idxFolds, Lens(c), ring, IsTaken(b)),
       tagFolds := ShiftFolds(s.tagFolds, Lens(c), ring, IsTaken(b)),
       updatedGhist := true)
  }

  /** The ring and both sets of folds reflect `hist`, the outcomes tracked so far, newest first. */
  predicate HistoryHolds(c: Config, s: State, hist: seq<bool>)
    requires Valid(c, s)
  {
    Holds(s.ring, hist) && FoldsHold(s.idxFolds, Lens(c), hist) && FoldsHold(s.tagFolds, Lens(c), hist)
  }

  /** The constructed predictor reflects the empty history. */
  lemma InitHolds(c: Config)
    requires ConfigValid(c)
    ensures HistoryHolds(c, Init(c), [])
  {
    NewRingHolds(RingSize(c));
    NewFoldsHold(Lens(c), IdxWidths(c));
    NewFoldsHold(Lens(c), TagWidths(c));
  }

  /** `track(b)` extends the history by the outcome. */
  lemma TrackHolds(c: Config, s: State, hist: seq<bool>, b: Branch)
    requires Valid(c, s) && HistoryHolds(c, s, hist)
    ensures HistoryHolds(c, Track(c, s, b), [IsTaken(b)] + hist)
  {
    PushHolds(s.ring, hist, IsTaken(b));
    ShiftFoldsHold(s.idxFolds, Lens(c), s.ring, hist, IsTaken(b));
    ShiftFoldsHold(s.tagFolds, Lens(c), s.ring, hist, IsTaken(b));
  }

  /**
   * What the index and tag mean: table `i` is indexed by the folded address
   * XOR the XOR fold of the newest `ghistLen[i]` outcomes to the index
   * width, and tagged likewise at the tag width.
   */
  lemma HashesAreWindowFolds(c: Config, s: State, hist: seq<bool>, ip: bv64, i: nat)
    requires Valid(c, s) && HistoryHolds(c, s, hist) && i < |c|
    ensures Fresh(c, s, ip).idx[i] ==
      Value(Xor(XorFold(Shr(OfBv(ip), 2), c[i].idxWidth), WindowFold(hist, c[i].ghistLen, c[i].idxWidth)))
    ensures Fresh(c, s, ip).tags[i] ==
      Value(Xor(XorFold(Shl(OfBv(ip), TagShift(c[i].tagWidth, c[i].idxWidth)), c[i].tagWidth),
                WindowFold(hist, c[i].ghistLen, c[i].tagWidth)))
  {
    FoldsAreWindowFolds(s.idxFolds, Lens(c), hist, i);
    FoldsAreWindowFolds(s.tagFolds, Lens(c), hist, i);
  }

  /** BATAGE as a `Predictor`, drawing from the engine values `draws`. */
  function AsPredictor(c: Config, draws: nat -> nat): (p: Predictors.Predictor<State>)
    requires ConfigValid(c)
    ensures forall s: State, ip: bv64 :: Valid(c, s) ==> p.predict(s, ip) == Predict(c, s, ip)
    ensures forall s: State, b: Branch :: Valid(c, s) ==> p.train(s, b) == Train(c, draws, s, b)
    ensures forall s: State, b: Branch :: Valid(c, s) ==> p.track(s, b) == Track(c, s, b)
  {
    Predictors.Predictor(
      (s: State, ip: bv64) => if Valid(c, s) then Predict(c, s, ip) else (s, false),
      (s: State, b: Branch) => if Valid(c, s) then Train(c, draws, s, b) else s,
      (s: State, b: Branch) => if Valid(c, s) then Track(c, s, b) else s)
  }

  /** On a coherent state `predict` changes no later prediction. */
  lemma PredictKeepsPredictions(c: Config, draws: nat -> nat, s: State, ip: bv64)
    requires Valid(c, s) && Coherent(c, s)
    ensures Predictors.PredictKeepsPredictions(AsPredictor(c, draws), s, ip)
  {
    var p := AsPredictor(c, draws);
    var s1 := Predict(c, s, ip).0;
    forall ip2: bv64
      ensures p.predict(s1, ip2).1 == p.predict(s, ip2).1
    {
      PredictIsFresh(c, s, ip);
      PredictIsFresh(c, s, ip2);
      PredictIsFresh(c, s1, ip2);
      assert Fresh(c, s1, ip2) == Fresh(c, s, ip2);
    }
  }

  /**
   * One iteration of the simulation loop ends in a coherent state: `train`
   * changes the tables and keeps the saved values, which go stale, but the
   * `track` that follows marks them unusable.
   */
  lemma StepCoherent(c: Config, draws: nat -> nat, s: State, b: Branch)
    requires Valid(c, s)
    ensures var r := Simulator.Step(AsPredictor(c, draws), s, b); Valid(c, r) && Coherent(c, r)
  {
    var p := AsPredictor(c, draws);
    var s1 := Predict(c, s, b.ip).0;
    assert p.predict(s, b.ip).0 == s1;
    var s2 := if IsConditional(b) then p.train(s1, b) else s1;
    assert Valid(c, s2);
    assert p.track(s2, b) == Track(c, s2, b);
  }

  /**
   * Every `predict` of a simulation sees a coherent state, so by
   * `PredictIsFresh` it returns what a fresh computation gives; the
   * constructed predictor is one such starting state.
   */
  lemma SimulationCoherent(c: Config, draws: nat -> nat, s0: State, recs: seq<SbbtReader.Decoded>, warmup: nat, k: nat)
    requires Valid(c, s0) && Coherent(c, s0) && k <= |recs|
    ensures var s := Simulator.Run(AsPredictor(c, draws), s0, recs, warmup, k).state; Valid(c, s) && Coherent(c, s)
  {
    var p := AsPredictor(c, draws);
    var inv := (s: State) => Valid(c, s) && Coherent(c, s);
    forall s: State, b: Branch | inv(s)
      ensures inv(Simulator.Step(p, s, b))
    {
      StepCoherent(c, draws, s, b);
    }
    Simulator.RunKeeps(p, s0, recs, warmup, k, inv);
  }
}
