/**
 * `Tage`: a base table and tagged tables, each with its own history length,
 * index and tag widths, counter width and usefulness width. The prediction
 * comes from the longest table whose indexed entry carries the branch's tag
 * (`m0`), or from the next longest hitting table (`m1`) when `m0`'s counter
 * is weak and a 5-bit meta counter says so. Training steps the providers,
 * trains the meta counter when the two disagreed, and on a misprediction of
 * `m0` allocates an entry in the first longer table whose entry is not
 * useful, or makes all longer entries less useful when there is none.
 */
module Tage {
  import opened Bits
  import opened Indexing
  import opened FoldWindow
  import opened SaturatedReg
  import opened CounterTables
  import opened GlobalHistory
  import opened TaggedHashes
  import opened Histories
  import opened Branches
  import A = Arithmetic
  import Predictors
  import SbbtReader
  import Simulator

  /** One table: history length, index width, tag width, counter width, usefulness width. */
  datatype TableSpec = TableSpec(ghistLen: nat, idxWidth: nat, tagWidth: nat, ctrWidth: nat, utlWidth: nat)

  /**
   * `1 << idxWidth` fits an `int`, tags fit their `uint32_t` field, and the
   * counter and usefulness widths are within what `i32_supd` and `u32_supd`
   * accept.
   */
  predicate SpecValid(t: TableSpec)
  {
    t.idxWidth <= 30 && t.tagWidth <= 32 && 1 <= t.ctrWidth < 32 && t.utlWidth < 32
  }

  /** The table specifications, base table first. */
  type Config = seq<TableSpec>

  predicate ConfigValid(c: Config)
  {
    1 <= |c| && forall i :: 0 <= i < |c| ==> SpecValid(c[i])
  }

  /** The history length of every table. */
  function Lens(c: Config): (lens: seq<nat>)
    ensures |lens| == |c| && forall i :: 0 <= i < |c| ==> lens[i] == c[i].ghistLen
  {
    seq(|c|, i requires 0 <= i < |c| => c[i].ghistLen)
  }

  /** The index width of every table. */
  function IdxWidths(c: Config): (ws: seq<nat>)
    ensures |ws| == |c| && forall i :: 0 <= i < |c| ==> ws[i] == c[i].idxWidth
  {
    seq(|c|, i requires 0 <= i < |c| => c[i].idxWidth)
  }

  /** The tag width of every table. */
  function TagWidths(c: Config): (ws: seq<nat>)
    ensures |ws| == |c| && forall i :: 0 <= i < |c| ==> ws[i] == c[i].tagWidth
  {
    seq(|c|, i requires 0 <= i < |c| => c[i].tagWidth)
  }

  /** `maxGhistLen + 1`: the ring is longer than every window. */
  function RingSize(c: Config): (n: nat)
    ensures n > 0 && forall i :: 0 <= i < |c| ==> c[i].ghistLen < n
  {
    MaxLen(Lens(c)) + 1
  }

  /** `LOG_META_SIZE`: the meta table has 2^8 counters. */
  const LogMetaSize: nat := 8

  datatype Entry = Entry(tag: nat, ctr: int, utl: nat)

  /**
   * The tag fits the table's tag width and the counter its signed width.
   * Usefulness stays within its width, except that a freshly allocated
   * entry holds 1 even when the width is 0.
   */
  predicate EntryValid(t: TableSpec, e: Entry)
    requires SpecValid(t)
  {
    e.tag < Pow2(t.tagWidth) &&
    A.IMinOf(t.ctrWidth) <= e.ctr <= A.IMaxOf(t.ctrWidth) &&
    e.utl <= A.Max(A.UMaxOf(t.utlWidth), 1)
  }

  /** One table of 2^idxWidth valid entries per specification. */
  predicate TablesValid(c: Config, tables: seq<seq<Entry>>)
    requires ConfigValid(c)
  {
    |tables| == |c| &&
    forall i :: 0 <= i < |tables| ==>
      |tables[i]| == Pow2(c[i].idxWidth) &&
      forall k :: 0 <= k < |tables[i]| ==> EntryValid(c[i], tables[i][k])
  }

  /** Whether a counter is weak: -1 or 0. */
  predicate Weak(ctr: int)
  {
    ctr == -1 || ctr == 0
  }

  /** The values `predict` saves for `train`; `idx` stands for the saved entry references. */
  datatype Cache = Cache(
    idx: seq<nat>, tags: seq<nat>, m0: int, m1: int, prov: int,
    predM0: bool, predM1: bool, m0IsWeak: bool, m1IsWeak: bool, prediction: bool)

  /**
   * Indices and tags in range; `m0` names a table; `m1` is -1 when `m0` is
   * the base table and a shorter table otherwise; the provider is one of
   * the two.
   */
  predicate CacheValid(c: Config, k: Cache)
  {
    |k.idx| == |c| && |k.tags| == |c| &&
    (forall i :: 0 <= i < |c| ==> k.idx[i] < Pow2(c[i].idxWidth) && k.tags[i] < Pow2(c[i].tagWidth)) &&
    0 <= k.m0 < |c| &&
    (k.m0 == 0 ==> k.m1 == -1) && (k.m0 > 0 ==> 0 <= k.m1 < k.m0) &&
    (k.prov == k.m0 || (k.prov == k.m1 && k.m1 >= 0))
  }

  datatype State = State(
    tables: seq<seq<Entry>>, idxFolds: seq<BitStreamXorFold>, tagFolds: seq<BitStreamXorFold>,
    ring: Ring, meta: Table,
    cache: Cache, entriesIp: bv64, updatedGhist: bool)

  /** Every component has the shape its specification gives it. */
  predicate Valid(c: Config, s: State)
  {
    ConfigValid(c) && TablesValid(c, s.tables) &&
    FoldsValid(s.idxFolds, Lens(c)) && (forall i :: 0 <= i < |c| ==> s.idxFolds[i].foldLen == c[i].idxWidth) &&
    FoldsValid(s.tagFolds, Lens(c)) && (forall i :: 0 <= i < |c| ==> s.tagFolds[i].foldLen == c[i].tagWidth) &&
    RingValid(s.ring) && |s.ring.buf| == RingSize(c) &&
    TableValid(s.meta, 5, Pow2(LogMetaSize)) &&
    CacheValid(c, s.cache)
  }

  /**
   * The constructor: zeroed entries and meta counters, fresh folds, a ring
   * of `maxGhistLen + 1` cleared outcomes, and nothing to reuse. The saved
   * values the constructor leaves uninitialised are modelled as zeros.
   */
  function Init(c: Config): (s: State)
    requires ConfigValid(c)
    ensures Valid(c, s) && s.updatedGhist
    ensures forall i, k :: 0 <= i < |s.tables| && 0 <= k < |s.tables[i]| ==> s.tables[i][k] == Entry(0, 0, 0)
    ensures forall h :: 0 <= h < |s.meta| ==> s.meta[h].value == 0
  {
    State(NewTables(c), NewFolds(Lens(c), IdxWidths(c)), NewFolds(Lens(c), TagWidths(c)),
          NewRing(RingSize(c)), NewTable(5, Pow2(LogMetaSize)),
          Cache(seq(|c|, _ => 0), seq(|c|, _ => 0), 0, -1, 0, false, false, false, false, false),
          0, true)
  }

  /** Value-initialised tables: every entry zero. */
  function NewTables(c: Config): (t: seq<seq<Entry>>)
    requires ConfigValid(c)
    ensures TablesValid(c, t)
    ensures forall i, k :: 0 <= i < |t| && 0 <= k < |t[i]| ==> t[i][k] == Entry(0, 0, 0)
  {
    ZeroEntriesValid(c);
    seq(|c|, i requires 0 <= i < |c| => seq(Pow2(c[i].idxWidth), _ => Entry(0, 0, 0)))
  }

  /** An entry with any valid tag, a weak counter and usefulness 0 or 1 is valid. */
  lemma WeakEntryValid(t: TableSpec, tag: nat, utl: nat)
    requires SpecValid(t) && tag < Pow2(t.tagWidth) && utl <= 1
    ensures EntryValid(t, Entry(tag, 0, utl)) && EntryValid(t, Entry(tag, -1, utl))
  {
    Pow2Monotone(0, t.ctrWidth - 1);
  }

  /** A zero entry is valid in every table. */
  lemma ZeroEntriesValid(c: Config)
    requires ConfigValid(c)
    ensures forall i :: 0 <= i < |c| ==> EntryValid(c[i], Entry(0, 0, 0))
  {
    forall i | 0 <= i < |c|
      ensures EntryValid(c[i], Entry(0, 0, 0))
    {
      WeakEntryValid(c[i], 0, 0);
    }
  }

  /** Usefulness of a valid entry is a 32-bit value that can be incremented without wrapping. */
  lemma UtlFacts(t: TableSpec, e: Entry)
    requires SpecValid(t) && EntryValid(t, e)
    ensures A.IsU32(e.utl) && e.utl + 1 < A.U32
  {
    Pow2Monotone(t.utlWidth, 31);
    Pow2Facts();
  }

  // ---------------------------------------------------------------------
  // Prediction

  /** Whether each table's indexed entry carries the tag computed for it. */
  function Hits(c: Config, tables: seq<seq<Entry>>, idx: seq<nat>, tags: seq<nat>): (hits: seq<bool>)
    requires ConfigValid(c) && TablesValid(c, tables) && |idx| == |c| && |tags| == |c|
    requires forall i :: 0 <= i < |c| ==> idx[i] < Pow2(c[i].idxWidth)
    ensures |hits| == |c|
    ensures forall i :: 0 <= i < |c| ==> hits[i] == (tables[i][idx[i]].tag == tags[i])
  {
    seq(|c|, i requires 0 <= i < |c| => tables[i][idx[i]].tag == tags[i])
  }

  /**
   * The search loops of `predict`: from `m`, step down while above the base
   * table and missing. The result is the longest hitting table at or below
   * `m`, or the base table when none hits (and `m` itself when `m <= 0`).
   */
  function Scan(hits: seq<bool>, m: int): (r: int)
    requires m < |hits|
    ensures m <= 0 ==> r == m
    ensures m > 0 ==> 0 <= r <= m
    ensures r > 0 ==> hits[r]
    ensures forall j :: 1 <= j <= m && r < j ==> !hits[j]
    decreases m
  {
    if m > 0 && !hits[m] then Scan(hits, m - 1) else m
  }

  /** `metahash()`: `m0` folded to 7 bits, next to whether `m1` is weak. */
  function MetaHash(m0: nat, m1IsWeak: bool): (h: nat)
    ensures h < Pow2(LogMetaSize)
    ensures h == 2 * Value(XorFold(OfNat(m0, 64), LogMetaSize - 1)) + BitValue(m1IsWeak)
  {
    var folded := XorFold(OfNat(m0, 64), LogMetaSize - 1);
    assert OfBool(64, m1IsWeak) == ToWord([m1IsWeak]);
    OrShiftedValue(folded, LogMetaSize - 1, [m1IsWeak]);
    ValueFits(folded, LogMetaSize - 1);
    assert Value([m1IsWeak]) == BitValue(m1IsWeak);
    Value(Or(Shl(folded, 1), OfBool(64, m1IsWeak)))
  }

  /**
   * With fewer than 2^7 tables the fold does nothing: the hash is
   * `2 * m0 + m1IsWeak`, so every pair has a meta counter of its own.
   */
  lemma MetaHashInjective(m0: nat, w: bool, m0': nat, w': bool)
    requires m0 < Pow2(LogMetaSize - 1) && m0' < Pow2(LogMetaSize - 1)
    ensures MetaHash(m0, w) == 2 * m0 + BitValue(w)
    ensures MetaHash(m0, w) == MetaHash(m0', w') ==> m0 == m0' && w == w'
  {
    MetaHashSmall(m0, w);
    MetaHashSmall(m0', w');
  }

  lemma MetaHashSmall(m0: nat, w: bool)
    requires m0 < Pow2(LogMetaSize - 1)
    ensures MetaHash(m0, w) == 2 * m0 + BitValue(w)
  {
    Pow2Monotone(LogMetaSize - 1, 64);
    OfNatFits(m0, 64, LogMetaSize - 1);
    XorFoldOfFitting(OfNat(m0, 64), LogMetaSize - 1);
    OfNatValue(m0, 64);
  }

  /** The counter of table `i`'s entry at `idx`. */
  function CtrAt(c: Config, tables: seq<seq<Entry>>, idx: seq<nat>, i: int): int
    requires ConfigValid(c) && TablesValid(c, tables) && |idx| == |c|
    requires forall j :: 0 <= j < |c| ==> idx[j] < Pow2(c[j].idxWidth)
    requires 0 <= i < |c|
  {
    tables[i][idx[i]].ctr
  }

  /** The index into every table, from its index fold. */
  function Indices(c: Config, folds: seq<BitStreamXorFold>, ip: bv64): (idx: seq<nat>)
    requires ConfigValid(c) && FoldsValid(folds, Lens(c))
    requires forall i :: 0 <= i < |c| ==> folds[i].foldLen == c[i].idxWidth
    ensures |idx| == |c| && forall i :: 0 <= i < |c| ==> idx[i] < Pow2(c[i].idxWidth)
  {
    seq(|c|, i requires 0 <= i < |c| => IndexHash(ip, c[i].idxWidth, folds[i].fold))
  }

  /** The tag for every table, from its tag fold. */
  function Tags(c: Config, folds: seq<BitStreamXorFold>, ip: bv64): (tags: seq<nat>)
    requires ConfigValid(c) && FoldsValid(folds, Lens(c))
    requires forall i :: 0 <= i < |c| ==> folds[i].foldLen == c[i].tagWidth
    ensures |tags| == |c| && forall i :: 0 <= i < |c| ==> tags[i] < Pow2(c[i].tagWidth)
  {
    seq(|c|, i requires 0 <= i < |c| => TagHash(ip, c[i].tagWidth, c[i].idxWidth, folds[i].fold))
  }

  /** The rest of `predict` once the entries and tags are computed. */
  function Select(c: Config, tables: seq<seq<Entry>>, meta: Table, idx: seq<nat>, tags: seq<nat>): (k: Cache)
    requires ConfigValid(c) && TablesValid(c, tables) && TableValid(meta, 5, Pow2(LogMetaSize))
    requires |idx| == |c| && forall i :: 0 <= i < |c| ==> idx[i] < Pow2(c[i].idxWidth)
    requires |tags| == |c| && forall i :: 0 <= i < |c| ==> tags[i] < Pow2(c[i].tagWidth)
    ensures CacheValid(c, k) && k.idx == idx && k.tags == tags
  {
    var hits := Hits(c, tables, idx, tags);
    var m0 := Scan(hits, |c| - 1);
    var m1 := Scan(hits, m0 - 1);
    var ctr0 := CtrAt(c, tables, idx, m0);
    var predM1 := m0 > 0 && CtrAt(c, tables, idx, m1) >= 0;
    var m1IsWeak := m0 > 0 && Weak(CtrAt(c, tables, idx, m1));
    var prov := if m0 > 0 && Weak(ctr0) && meta[MetaHash(m0, m1IsWeak)].value >= 0 then m1 else m0;
    Cache(idx, tags, m0, m1, prov, ctr0 >= 0, predM1, Weak(ctr0), m1IsWeak, CtrAt(c, tables, idx, prov) >= 0)
  }

  /** What `predict(ip)` computes when its cache does not apply. */
  function Fresh(c: Config, s: State, ip: bv64): (k: Cache)
    requires Valid(c, s)
    ensures CacheValid(c, k)
  {
    Select(c, s.tables, s.meta, Indices(c, s.idxFolds, ip), Tags(c, s.tagFolds, ip))
  }

  /**
   * What a fresh prediction selects: `m0` is the longest hitting tagged
   * table (or the base table), `m1` the longest hitting tagged table below
   * it (or the base table, or -1 when `m0` is the base table); `m1`
   * provides exactly when `m0` is tagged and weak and the meta counter for
   * the pair is not negative; the prediction is the provider's counter
   * sign.
   */
  lemma FreshSelection(c: Config, s: State, ip: bv64)
    requires Valid(c, s)
    ensures var k := Fresh(c, s, ip);
      var hits := Hits(c, s.tables, k.idx, k.tags);
      (k.m0 > 0 ==> hits[k.m0]) &&
      (forall j :: k.m0 < j < |c| ==> !hits[j]) &&
      (k.m1 > 0 ==> hits[k.m1]) &&
      (forall j :: 1 <= j < k.m0 && k.m1 < j ==> !hits[j]) &&
      (k.m0 > 0 ==> k.m1 >= 0) &&
      (k.prov == k.m1 <==>
        k.m0 > 0 && Weak(CtrAt(c, s.tables, k.idx, k.m0)) && s.meta[MetaHash(k.m0, k.m1IsWeak)].value >= 0) &&
      k.prediction == (CtrAt(c, s.tables, k.idx, k.prov) >= 0) &&
      k.predM0 == (CtrAt(c, s.tables, k.idx, k.m0) >= 0)
  {
  }

  /**
   * `predict(ip)`: the saved prediction when the address is the saved one
   * and nothing was tracked since, else a fresh one, which is saved.
   */
  function Predict(c: Config, s: State, ip: bv64): (r: (State, bool))
    requires Valid(c, s)
    ensures Valid(c, r.0) && r.1 == r.0.cache.prediction
    ensures r.0.tables == s.tables && r.0.meta == s.meta && r.0.ring == s.ring
    ensures r.0.idxFolds == s.idxFolds && r.0.tagFolds == s.tagFolds
    ensures !r.0.updatedGhist && r.0.entriesIp == ip
    ensures !s.updatedGhist && s.entriesIp == ip ==> r.0 == s
    ensures s.updatedGhist || s.entriesIp != ip ==> r.0.cache == Fresh(c, s, ip)
  {
    if s.entriesIp == ip && !s.updatedGhist then (s, s.cache.prediction)
    else
      var k := Fresh(c, s, ip);
      (s.(cache := k, entriesIp := ip, updatedGhist := false), k.prediction)
  }

  /** A second `predict(ip)` returns the saved answer and changes nothing. */
  lemma PredictTwice(c: Config, s: State, ip: bv64)
    requires Valid(c, s)
    ensures Predict(c, Predict(c, s, ip).0, ip) == (Predict(c, s, ip).0, Predict(c, s, ip).1)
  {
  }

  /**
   * The saved values are coherent when they are either unusable (the
   * history was updated) or what a fresh prediction of the saved address
   * computes.
   */
  predicate Coherent(c: Config, s: State)
    requires Valid(c, s)
  {
    s.updatedGhist || s.cache == Fresh(c, s, s.entriesIp)
  }

  /** On a coherent state `predict(ip)` is fresh and leaves a coherent state. */
  lemma PredictIsFresh(c: Config, s: State, ip: bv64)
    requires Valid(c, s) && Coherent(c, s)
    ensures Predict(c, s, ip).1 == Fresh(c, s, ip).prediction
    ensures Coherent(c, Predict(c, s, ip).0)
  {
  }

  // ---------------------------------------------------------------------
  // Training

  /**
   * `i32_supd` on the counter and `u32_supd` on the usefulness: the counter
   * steps toward the outcome within its signed width, the usefulness up
   * when the prediction was right and down otherwise, within its width.
   */
  function Step(t: TableSpec, e: Entry, taken: bool, correct: bool): (r: Entry)
    requires SpecValid(t) && EntryValid(t, e)
    ensures EntryValid(t, r) && r.tag == e.tag
    ensures r.ctr == (if taken then A.Min(e.ctr + 1, A.IMaxOf(t.ctrWidth)) else A.Max(e.ctr - 1, A.IMinOf(t.ctrWidth)))
    ensures r.utl == (if correct then A.Min(e.utl + 1, A.UMaxOf(t.utlWidth)) else A.Max(e.utl - 1, 0))
  {
    A.I32SupdStep(e.ctr, taken, t.ctrWidth);
    UtlFacts(t, e);
    UtlStep(e.utl, correct, t.utlWidth);
    var ctr := A.I32Supd(e.ctr, taken, t.ctrWidth);
    var utl := A.U32Supd(e.utl, correct, t.utlWidth);
    assert utl <= A.Max(A.UMaxOf(t.utlWidth), 1);
    assert A.IMinOf(t.ctrWidth) <= ctr <= A.IMaxOf(t.ctrWidth);
    Entry(e.tag, ctr, utl)
  }

  /**
   * `u32_supd` on a usefulness within its bound: one step toward `dir`,
   * stopping at 0 and at the width's maximum.
   */
  lemma UtlStep(utl: nat, dir: bool, width: nat)
    requires width < 32 && utl <= A.Max(A.UMaxOf(width), 1) && A.IsU32(utl)
    ensures dir ==> A.U32Supd(utl, dir, width) == A.Min(utl + 1, A.UMaxOf(width))
    ensures !dir ==> A.U32Supd(utl, dir, width) == A.Max(utl - 1, 0)
  {
    if utl <= A.UMaxOf(width) {
      A.U32SupdStep(utl, dir, width);
    } else {
      assert A.UMaxOf(width) == 0 && utl == 1;
    }
  }

  /** `tables` with table `i`'s entry `j` replaced by `e`. */
  function SetEntry(c: Config, tables: seq<seq<Entry>>, i: nat, j: nat, e: Entry): (r: seq<seq<Entry>>)
    requires ConfigValid(c) && TablesValid(c, tables) && i < |c| && j < |tables[i]| && EntryValid(c[i], e)
    ensures TablesValid(c, r) && r == tables[i := tables[i][j := e]]
  {
    tables[i := tables[i][j := e]]
  }

  /** `m0`'s entry after its update: stepped, and no longer useful when it was weak and stays weak. */
  function StepM0(c: Config, tables: seq<seq<Entry>>, k: Cache, taken: bool): (e: Entry)
    requires ConfigValid(c) && TablesValid(c, tables) && CacheValid(c, k)
    ensures EntryValid(c[k.m0], e)
  {
    var e0 := Step(c[k.m0], tables[k.m0][k.idx[k.m0]], taken, k.prediction == taken);
    if k.m0IsWeak && Weak(e0.ctr) then e0.(utl := 0) else e0
  }

  /**
   * The first part of `train`: `m0`'s entry steps, and its usefulness is
   * cleared when it was weak and stays weak; `m1`'s entry steps when it
   * provided the prediction. Usefulness moves toward whether the overall
   * prediction was right. No other entry changes.
   */
  function UpdateProviders(c: Config, tables: seq<seq<Entry>>, k: Cache, taken: bool): (r: seq<seq<Entry>>)
    requires ConfigValid(c) && TablesValid(c, tables) && CacheValid(c, k)
    ensures TablesValid(c, r)
    ensures r[k.m0] == tables[k.m0][k.idx[k.m0] := StepM0(c, tables, k, taken)]
    ensures k.prov == k.m1 ==>
      r[k.m1] == tables[k.m1][k.idx[k.m1] := Step(c[k.m1], tables[k.m1][k.idx[k.m1]], taken, k.prediction == taken)]
    ensures forall i :: 0 <= i < |c| && i != k.m0 && (i != k.m1 || k.prov != k.m1) ==> r[i] == tables[i]
  {
    var t0 := SetEntry(c, tables, k.m0, k.idx[k.m0], StepM0(c, tables, k, taken));
    if k.prov == k.m1 then
      SetEntry(c, t0, k.m1, k.idx[k.m1], Step(c[k.m1], tables[k.m1][k.idx[k.m1]], taken, k.prediction == taken))
    else t0
  }

  /** Whether `train` trains the meta counter: `m0` is tagged and weak and the two candidates disagreed. */
  predicate MetaTrained(k: Cache)
  {
    k.m0 > 0 && k.m0IsWeak && k.predM0 != k.predM1
  }

  /**
   * The meta counter of the pair moves toward trusting `m1` when `m1` was
   * right and away from it when it was wrong; nothing else changes.
   */
  function UpdateMeta(meta: Table, k: Cache, taken: bool): (r: Table)
    requires TableValid(meta, 5, Pow2(LogMetaSize)) && k.m0 >= 0
    ensures TableValid(r, 5, Pow2(LogMetaSize))
    ensures !MetaTrained(k) ==> r == meta
    ensures MetaTrained(k) ==>
      var h := MetaHash(k.m0, k.m1IsWeak);
      r[h] == SatSumOrSub(meta[h], k.predM1 == taken) &&
      forall j :: 0 <= j < |meta| && j != h ==> r[j] == meta[j]
  {
    if MetaTrained(k) then TrainAt(meta, MetaHash(k.m0, k.m1IsWeak), k.predM1 == taken) else meta
  }

  /** The first table from `from` on whose indexed entry is not useful, or `|idx|` when there is none. */
  function FirstFree(tables: seq<seq<Entry>>, idx: seq<nat>, from: nat): (r: nat)
    requires |idx| <= |tables| && from <= |idx|
    requires forall i :: 0 <= i < |idx| ==> idx[i] < |tables[i]|
    ensures from <= r <= |idx|
    ensures r < |idx| ==> tables[r][idx[r]].utl == 0
    ensures forall i :: from <= i < r ==> tables[i][idx[i]].utl != 0
    decreases |idx| - from
  {
    if from == |idx| || tables[from][idx[from]].utl == 0 then from
    else FirstFree(tables, idx, from + 1)
  }

  /** An entry made one less useful, stopping at 0 (`u32_ssub(utl, 1)`). */
  function LessUseful(e: Entry): (r: Entry)
    ensures r.tag == e.tag && r.ctr == e.ctr && r.utl == A.Max(e.utl - 1, 0)
  {
    e.(utl := if e.utl == 0 then 0 else e.utl - 1)
  }

  /** Every table above `m0`'s indexed entry made one less useful. */
  function Decay(c: Config, tables: seq<seq<Entry>>, idx: seq<nat>, m0: nat): (r: seq<seq<Entry>>)
    requires ConfigValid(c) && TablesValid(c, tables) && |idx| == |c|
    requires forall i :: 0 <= i < |c| ==> idx[i] < Pow2(c[i].idxWidth)
    ensures TablesValid(c, r)
    ensures forall i :: 0 <= i < |c| ==>
      r[i] == if i > m0 then tables[i][idx[i] := LessUseful(tables[i][idx[i]])] else tables[i]
  {
    seq(|c|, i requires 0 <= i < |c| =>
      if i > m0 then tables[i][idx[i] := LessUseful(tables[i][idx[i]])] else tables[i])
  }

  /** The entry `train` allocates: the branch's tag, a weak counter toward the outcome, usefulness 1. */
  function NewEntry(tag: nat, taken: bool): Entry
  {
    Entry(tag, if taken then 0 else -1, 1)
  }

  /**
   * The allocation of `train`: the first table above `m0` whose indexed
   * entry is not useful gets a new entry, and no other table changes; when
   * there is no such table, every entry indexed above `m0` becomes less
   * useful. Tables up to `m0` never change.
   */
  function Allocate(c: Config, tables: seq<seq<Entry>>, k: Cache, taken: bool): (r: seq<seq<Entry>>)
    requires ConfigValid(c) && TablesValid(c, tables) && CacheValid(c, k)
    ensures TablesValid(c, r)
    ensures forall i :: 0 <= i <= k.m0 ==> r[i] == tables[i]
    ensures var f := FirstFree(tables, k.idx, k.m0 + 1);
      f < |c| ==>
        r[f][k.idx[f]] == NewEntry(k.tags[f], taken) &&
        r[f] == tables[f][k.idx[f] := NewEntry(k.tags[f], taken)] &&
        forall i :: 0 <= i < |c| && i != f ==> r[i] == tables[i]
    ensures FirstFree(tables, k.idx, k.m0 + 1) == |c| ==>
      forall i :: k.m0 < i < |c| ==> r[i] == tables[i][k.idx[i] := LessUseful(tables[i][k.idx[i]])]
  {
    var f := FirstFree(tables, k.idx, k.m0 + 1);
    if f < |c| then
      WeakEntryValid(c[f], k.tags[f], 1);
      SetEntry(c, tables, f, k.idx[f], NewEntry(k.tags[f], taken))
    else Decay(c, tables, k.idx, k.m0)
  }

  /** Whether `train` allocates: the prediction and `m0` were both wrong. */
  predicate Allocates(k: Cache, taken: bool)
  {
    k.prediction != taken && k.predM0 != taken
  }

  /**
   * `train(b)`: after `predict(b.ip)`, the providers step, the meta counter
   * trains, and when both the prediction and `m0` were wrong an entry is
   * allocated. The history, the folds and the saved values stay.
   */
  function Train(c: Config, s: State, b: Branch): (r: State)
    requires Valid(c, s)
    ensures Valid(c, r)
    ensures var p := Predict(c, s, b.ip).0;
      r.ring == s.ring && r.idxFolds == s.idxFolds && r.tagFolds == s.tagFolds &&
      r.cache == p.cache && r.entriesIp == b.ip && !r.updatedGhist &&
      r.meta == UpdateMeta(s.meta, p.cache, IsTaken(b)) &&
      r.tables == TrainTables(c, s.tables, p.cache, IsTaken(b))
  {
    var p := Predict(c, s, b.ip).0;
    p.(tables := TrainTables(c, p.tables, p.cache, IsTaken(b)), meta := UpdateMeta(p.meta, p.cache, IsTaken(b)))
  }

  /** The tables after `train`: the providers' update, then the allocation when it applies. */
  function TrainTables(c: Config, tables: seq<seq<Entry>>, k: Cache, taken: bool): (r: seq<seq<Entry>>)
    requires ConfigValid(c) && TablesValid(c, tables) && CacheValid(c, k)
    ensures TablesValid(c, r)
  {
    var u := UpdateProviders(c, tables, k, taken);
    if Allocates(k, taken) then Allocate(c, u, k, taken) else u
  }

  /**
   * What `train` leaves alone: the tables below `m0` other than `m1`
   * always, and the tables above `m0` unless it allocates.
   */
  lemma TrainFrames(c: Config, tables: seq<seq<Entry>>, k: Cache, taken: bool)
    requires ConfigValid(c) && TablesValid(c, tables) && CacheValid(c, k)
    ensures var r := TrainTables(c, tables, k, taken);
      (forall i :: 0 <= i < k.m0 && i != k.m1 ==> r[i] == tables[i]) &&
      (!Allocates(k, taken) ==> forall i :: k.m0 < i < |c| ==> r[i] == tables[i])
  {
  }

  /** Where there is room, the allocated entry is the new one. */
  lemma AllocateAt(c: Config, u: seq<seq<Entry>>, k: Cache, taken: bool)
    requires ConfigValid(c) && TablesValid(c, u) && CacheValid(c, k)
    requires FirstFree(u, k.idx, k.m0 + 1) < |c|
    ensures var f := FirstFree(u, k.idx, k.m0 + 1);
      Allocate(c, u, k, taken)[f][k.idx[f]] == NewEntry(k.tags[f], taken)
  {
  }

  /** The providers' update does not change which table above `m0` is the first free one. */
  lemma FreeUnchanged(c: Config, tables: seq<seq<Entry>>, k: Cache, taken: bool)
    requires ConfigValid(c) && TablesValid(c, tables) && CacheValid(c, k)
    ensures FirstFree(tables, k.idx, k.m0 + 1) == FirstFree(UpdateProviders(c, tables, k, taken), k.idx, k.m0 + 1)
  {
    FirstFreeFrame(tables, UpdateProviders(c, tables, k, taken), k.idx, k.m0, k.m0 + 1);
  }

  /**
   * When `train` allocates and there is room, the first table above `m0`
   * whose entry was not useful before training gets the new entry, which
   * carries the branch's tag: a later prediction of the same address under
   * the same history hits there.
   */
  lemma AllocationHits(c: Config, tables: seq<seq<Entry>>, k: Cache, taken: bool)
    requires ConfigValid(c) && TablesValid(c, tables) && CacheValid(c, k)
    requires Allocates(k, taken) && FirstFree(tables, k.idx, k.m0 + 1) < |c|
    ensures var f := FirstFree(tables, k.idx, k.m0 + 1);
      var r := TrainTables(c, tables, k, taken);
      r[f][k.idx[f]] == NewEntry(k.tags[f], taken)
  {
    var u := UpdateProviders(c, tables, k, taken);
    FreeUnchanged(c, tables, k, taken);
    AllocateAt(c, u, k, taken);
    assert TrainTables(c, tables, k, taken) == Allocate(c, u, k, taken);
  }

  /**
   * When `train` allocates and there is no room, every entry indexed above
   * `m0` becomes less useful and nothing else there changes.
   */
  lemma AllocationDecays(c: Config, tables: seq<seq<Entry>>, k: Cache, taken: bool)
    requires ConfigValid(c) && TablesValid(c, tables) && CacheValid(c, k)
    requires Allocates(k, taken) && FirstFree(tables, k.idx, k.m0 + 1) == |c|
    ensures var r := TrainTables(c, tables, k, taken);
      forall i :: k.m0 < i < |c| ==> r[i] == tables[i][k.idx[i] := LessUseful(tables[i][k.idx[i]])]
  {
    var u := UpdateProviders(c, tables, k, taken);
    FreeUnchanged(c, tables, k, taken);
    assert TrainTables(c, tables, k, taken) == Allocate(c, u, k, taken);
  }

  /** On a coherent state `train` works with the fresh prediction's selection. */
  lemma TrainUsesFresh(c: Config, s: State, b: Branch)
    requires Valid(c, s) && Coherent(c, s)
    ensures Train(c, s, b).tables == TrainTables(c, s.tables, Fresh(c, s, b.ip), IsTaken(b))
  {
    if !s.updatedGhist && s.entriesIp == b.ip {
      assert Predict(c, s, b.ip).0 == s;
    }
  }

  /** `FirstFree` above `m0` only looks at tables that the providers' update leaves alone. */
  lemma {:induction false} FirstFreeFrame(t1: seq<seq<Entry>>, t2: seq<seq<Entry>>, idx: seq<nat>, m0: nat, from: nat)
    requires |idx| <= |t1| && |idx| <= |t2| && m0 < from <= |idx|
    requires forall i :: 0 <= i < |idx| ==> idx[i] < |t1[i]| && idx[i] < |t2[i]|
    requires forall i :: m0 < i < |idx| ==> t1[i] == t2[i]
    ensures FirstFree(t1, idx, from) == FirstFree(t2, idx, from)
    decreases |idx| - from
  {
    if from < |idx| && t1[from][idx[from]].utl != 0 {
      FirstFreeFrame(t1, t2, idx, m0, from + 1);
    }
  }

  // ---------------------------------------------------------------------
  // Tracking

  /**
   * `track(b)`: the outcome goes into the ring, both folds of every table
   * shift it in and the outcome `ghistLen[i]` places back out, and the
   * saved values become unusable.
   */
  function Track(c: Config, s: State, b: Branch): (r: State)
    requires Valid(c, s)
    ensures Valid(c, r) && r.updatedGhist && Coherent(c, r)
    ensures r.tables == s.tables && r.meta == s.meta
    ensures r.ring == Push(s.ring, IsTaken(b))
  {
    var ring := Push(s.ring, IsTaken(b));
    s.(ring := ring,
       idxFolds := ShiftFolds(s.idxFolds, Lens(c), ring, IsTaken(b)),
       tagFolds := ShiftFolds(s.tagFolds, Lens(c), ring, IsTaken(b)),
       updatedGhist := true)
  }

  /** The ring and both sets of folds reflect `hist`, the outcomes tracked so far, newest first. */
  predicate HistoryHolds(c: Config, s: State, hist: seq<bool>)
    requires Valid(c, s)
  {
    Holds(s.ring, hist) && FoldsHold(s.idxFolds, Lens(c), hist) && FoldsHold(s.tagFolds, Lens(c), hist)
  }

  /** The constructed predictor reflects the empty history. */
  lemma InitHolds(c: Config)
    requires ConfigValid(c)
    ensures HistoryHolds(c, Init(c), [])
  {
    NewRingHolds(RingSize(c));
    NewFoldsHold(Lens(c), IdxWidths(c));
    NewFoldsHold(Lens(c), TagWidths(c));
  }

  /** `track(b)` extends the history by the outcome. */
  lemma TrackHolds(c: Config, s: State, hist: seq<bool>, b: Branch)
    requires Valid(c, s) && HistoryHolds(c, s, hist)
    ensures HistoryHolds(c, Track(c, s, b), [IsTaken(b)] + hist)
  {
    PushHolds(s.ring, hist, IsTaken(b));
    ShiftFoldsHold(s.idxFolds, Lens(c), s.ring, hist, IsTaken(b));
    ShiftFoldsHold(s.tagFolds, Lens(c), s.ring, hist, IsTaken(b));
  }

  /**
   * What the index and tag mean: table `i` is indexed by the folded address
   * XOR the XOR fold of the newest `ghistLen[i]` outcomes to the index
   * width, and tagged likewise at the tag width.
   */
  lemma HashesAreWindowFolds(c: Config, s: State, hist: seq<bool>, ip: bv64, i: nat)
    requires Valid(c, s) && HistoryHolds(c, s, hist) && i < |c|
    ensures Fresh(c, s, ip).idx[i] ==
      Value(Xor(XorFold(Shr(OfBv(ip), 2), c[i].idxWidth), WindowFold(hist, c[i].ghistLen, c[i].idxWidth)))
    ensures Fresh(c, s, ip).tags[i] ==
      Value(Xor(XorFold(Shl(OfBv(ip), TagShift(c[i].tagWidth, c[i].idxWidth)), c[i].tagWidth),
                WindowFold(hist, c[i].ghistLen, c[i].tagWidth)))
  {
    FoldsAreWindowFolds(s.idxFolds, Lens(c), hist, i);
    FoldsAreWindowFolds(s.tagFolds, Lens(c), hist, i);
  }

  /** TAGE as a `Predictor`. */
  function AsPredictor(c: Config): (p: Predictors.Predictor<State>)
    requires ConfigValid(c)
    ensures forall s: State, ip: bv64 :: Valid(c, s) ==> p.predict(s, ip) == Predict(c, s, ip)
    ensures forall s: State, b: Branch :: Valid(c, s) ==> p.train(s, b) == Train(c, s, b)
    ensures forall s: State, b: Branch :: Valid(c, s) ==> p.track(s, b) == Track(c, s, b)
  {
    Predictors.Predictor(
      (s: State, ip: bv64) => if Valid(c, s) then Predict(c, s, ip) else (s, false),
      (s: State, b: Branch) => if Valid(c, s) then Train(c, s, b) else s,
      (s: State, b: Branch) => if Valid(c, s) then Track(c, s, b) else s)
  }

  /** On a coherent state `predict` changes no later prediction. */
  lemma PredictKeepsPredictions(c: Config, s: State, ip: bv64)
    requires Valid(c, s) && Coherent(c, s)
    ensures Predictors.PredictKeepsPredictions(AsPredictor(c), s, ip)
  {
    var p := AsPredictor(c);
    var s1 := Predict(c, s, ip).0;
    forall ip2: bv64
      ensures p.predict(s1, ip2).1 == p.predict(s, ip2).1
    {
      PredictIsFresh(c, s, ip);
      PredictIsFresh(c, s, ip2);
      PredictIsFresh(c, s1, ip2);
      assert Fresh(c, s1, ip2) == Fresh(c, s, ip2);
    }
  }

  /**
   * One iteration of the simulation loop ends in a coherent state: `train`
   * changes the tables and keeps the saved values, which go stale, but the
   * `track` that follows marks them unusable.
   */
  lemma StepCoherent(c: Config, s: State, b: Branch)
    requires Valid(c, s)
    ensures var r := Simulator.Step(AsPredictor(c), s, b); Valid(c, r) && Coherent(c, r)
  {
    var p := AsPredictor(c);
    var s1 := Predict(c, s, b.ip).0;
    assert p.predict(s, b.ip).0 == s1;
    var s2 := if IsConditional(b) then p.train(s1, b) else s1;
    assert Valid(c, s2);
    assert p.track(s2, b) == Track(c, s2, b);
  }

  /**
   * Every `predict` of a simulation sees a coherent state, so by
   * `PredictIsFresh` it returns what a fresh computation gives; the
   * constructed predictor is one such starting state.
   */
  lemma SimulationCoherent(c: Config, s0: State, recs: seq<SbbtReader.Decoded>, warmup: nat, k: nat)
    requires Valid(c, s0) && Coherent(c, s0) && k <= |recs|
    ensures var s := Simulator.Run(AsPredictor(c), s0, recs, warmup, k).state; Valid(c, s) && Coherent(c, s)
  {
    var p := AsPredictor(c);
    var inv := (s: State) => Valid(c, s) && Coherent(c, s);
    forall s: State, b: Branch | inv(s)
      ensures inv(Simulator.Step(p, s, b))
    {
      StepCoherent(c, s, b);
    }
    Simulator.RunKeeps(p, s0, recs, warmup, k, inv);
  }
}
