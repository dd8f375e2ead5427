/**
 * The standard simulation driver: reads the trace branch by branch, asks
 * the predictor before every branch, trains it on conditional branches and
 * lets it track every branch; after a warm-up it counts conditional
 * branches and mispredictions, globally and per address. At the end it
 * picks the denominator of the per-instruction metrics and the "most
 * failed" branches, the fewest that account for half of the
 * mispredictions.
 */
module Simulator {
  import opened Results
  import Branches
  import Predictors
  import SbbtReader

  const INT64_MAX: int := SbbtReader.INT64_MAX
  /** Exit code when the trace ends before the requested instructions. */
  const ERR_EXHAUSTED_TRACE: int := 2

  /**
   * The instruction number at which simulation stops: warm-up plus
   * simulation instructions, or "never" when no count is given. The sum
   * is a signed 64-bit addition, so it must not overflow.
   */
  function StopAt(warmup: nat, sim: nat): (stop: int)
    requires warmup + sim <= INT64_MAX
    ensures stop <= INT64_MAX
    ensures sim != 0 ==> stop - warmup == sim
    ensures sim == 0 ==> stop == INT64_MAX
  {
    if sim != 0 then warmup + sim else INT64_MAX
  }

  /** The reader's end-of-trace sentinel never passes the loop test. */
  lemma SentinelStops(warmup: nat, sim: nat)
    requires warmup + sim <= INT64_MAX
    ensures !(INT64_MAX < StopAt(warmup, sim))
  {
  }

  /** Occurrences and misses of one address. */
  datatype Info = Info(occurrences: nat, misses: nat)
  /** One entry of the per-address map, as a pair. */
  datatype Entry = Entry(ip: bv64, info: Info)

  function Add(a: Info, b: Info): Info
  {
    Info(a.occurrences + b.occurrences, a.misses + b.misses)
  }

  /** The field-wise sum of a list of entries. */
  function Total(t: seq<Entry>): Info
  {
    if |t| == 0 then Info(0, 0) else Add(t[0].info, Total(t[1..]))
  }

  lemma {:induction false} TotalConcat(a: seq<Entry>, b: seq<Entry>)
    ensures Total(a + b) == Add(Total(a), Total(b))
  {
    if |a| > 0 {
      assert (a + b)[1..] == a[1..] + b;
      TotalConcat(a[1..], b);
    } else {
      assert a + b == b;
    }
  }

  lemma TotalSingle(e: Entry)
    ensures Total([e]) == e.info
  {
    assert [e][1..] == [];
  }

  /** No address appears twice, and nobody misses more often than it occurs. */
  predicate WellFormed(t: seq<Entry>)
  {
    (forall i, j :: 0 <= i < j < |t| ==> t[i].ip != t[j].ip)
    && (forall i :: 0 <= i < |t| ==> t[i].info.misses <= t[i].info.occurrences)
  }

  function IpsOf(t: seq<Entry>): set<bv64>
  {
    set i | 0 <= i < |t| :: t[i].ip
  }

  function Bit(b: bool): nat
  {
    if b then 1 else 0
  }

  /**
   * `branchInfo[ip].occurrences += 1; branchInfo[ip].misses += missed`:
   * the entry of `ip`, created at zero if absent, counts one more
   * occurrence and `missed` more misses. `CountIps` and `CountTotal` state
   * the rest of its contract.
   */
  function Count(t: seq<Entry>, ip: bv64, missed: bool): (r: seq<Entry>)
    ensures |r| == |t| || |r| == |t| + 1
  {
    var i := Find(t, ip);
    if i == |t| then t + [Entry(ip, Info(1, Bit(missed)))]
    else t[i := Entry(ip, Info(t[i].info.occurrences + 1, t[i].info.misses + Bit(missed)))]
  }

  /** Counting keeps addresses unique and misses within occurrences. */
  lemma CountWellFormed(t: seq<Entry>, ip: bv64, missed: bool)
    requires WellFormed(t)
    ensures WellFormed(Count(t, ip, missed))
  {
  }

  /** After counting `ip` the map holds exactly the addresses it held and `ip`. */
  lemma CountIps(t: seq<Entry>, ip: bv64, missed: bool)
    ensures IpsOf(Count(t, ip, missed)) == IpsOf(t) + {ip}
  {
    var r := Count(t, ip, missed);
    var i := Find(t, ip);
    forall x | x in IpsOf(r) ensures x in IpsOf(t) + {ip} {
      var k :| 0 <= k < |r| && r[k].ip == x;
      if k < |t| && k != i { assert t[k].ip == x; }
    }
    forall x | x in IpsOf(t) ensures x in IpsOf(r) {
      var k :| 0 <= k < |t| && t[k].ip == x;
      assert r[k].ip == x;
    }
    assert r[i].ip == ip;
  }

  /** Counting adds one occurrence, and one miss when `missed`, to the totals. */
  lemma CountTotal(t: seq<Entry>, ip: bv64, missed: bool)
    ensures Total(Count(t, ip, missed)) == Add(Total(t), Info(1, Bit(missed)))
  {
    var i := Find(t, ip);
    var r := Count(t, ip, missed);
    if i == |t| {
      TotalConcat(t, [r[i]]);
      TotalSingle(r[i]);
    } else {
      var e := r[i];
      assert t == t[..i] + [t[i]] + t[i + 1..];
      assert r == t[..i] + [e] + t[i + 1..];
      TotalConcat(t[..i] + [t[i]], t[i + 1..]);
      TotalConcat(t[..i], [t[i]]);
      TotalConcat(t[..i] + [e], t[i + 1..]);
      TotalConcat(t[..i], [e]);
      TotalSingle(t[i]);
      TotalSingle(e);
    }
  }

  /** The position of `ip` in the list, or its length when absent. */
  function Find(t: seq<Entry>, ip: bv64): (i: nat)
    ensures i <= |t|
    ensures i < |t| ==> t[i].ip == ip
    ensures i == |t| ==> forall k :: 0 <= k < |t| ==> t[k].ip != ip
  {
    if |t| == 0 then 0
    else if t[|t| - 1].ip == ip then |t| - 1
    else
      var i := Find(t[..|t| - 1], ip);
      if i == |t| - 1 then |t| else i
  }

  /** The simulator's counters with the predictor's state. */
  datatype Tally<S> = Tally(state: S, numBranches: nat, mispredictions: nat, table: seq<Entry>)

  /** Whether a branch numbered `instrNum` is counted: conditional and past the warm-up. */
  predicate Counted(b: Branches.Branch, instrNum: int, warmup: nat)
  {
    Branches.IsConditional(b) && instrNum >= warmup
  }

  /**
   * One iteration of the simulation loop on branch `b`, numbered
   * `instrNum`: predict, then train if conditional, then track; past the
   * warm-up a conditional branch is counted, and counted as a miss when
   * the prediction differs from the outcome.
   */
  function Simulate1<S>(p: Predictors.Predictor<S>, t: Tally<S>, b: Branches.Branch, instrNum: int, warmup: nat): (u: Tally<S>)
  {
    var (s1, predicted) := p.predict(t.state, b.ip);
    var s2 := if Branches.IsConditional(b) then p.train(s1, b) else s1;
    var missed := predicted != Branches.IsTaken(b);
    if Counted(b, instrNum, warmup) then
      Tally(p.track(s2, b), t.numBranches + 1, t.mispredictions + Bit(missed), Count(t.table, b.ip, missed))
    else
      Tally(p.track(s2, b), t.numBranches, t.mispredictions, t.table)
  }

  /** One iteration counts `b` exactly when it is conditional and past the warm-up. */
  lemma Simulate1Counts<S>(p: Predictors.Predictor<S>, t: Tally<S>, b: Branches.Branch, instrNum: int, warmup: nat)
    ensures var u := Simulate1(p, t, b, instrNum, warmup);
      u.numBranches == t.numBranches + Bit(Counted(b, instrNum, warmup))
      && u.mispredictions <= t.mispredictions + Bit(Counted(b, instrNum, warmup))
      && Total(u.table) == Add(Total(t.table), Info(u.numBranches - t.numBranches, u.mispredictions - t.mispredictions))
      && IpsOf(u.table) == IpsOf(t.table) + (if Counted(b, instrNum, warmup) then {b.ip} else {})
  {
    var missed := p.predict(t.state, b.ip).1 != Branches.IsTaken(b);
    if Counted(b, instrNum, warmup) {
      CountIps(t.table, b.ip, missed);
      CountTotal(t.table, b.ip, missed);
    } else {
      assert IpsOf(t.table) + {} == IpsOf(t.table);
    }
  }

  /** The loop over the first `k` records of the trace, numbered by their running gap sums. */
  function Run<S>(p: Predictors.Predictor<S>, s0: S, recs: seq<SbbtReader.Decoded>, warmup: nat, k: nat): (t: Tally<S>)
    requires k <= |recs|
  {
    if k == 0 then Tally(s0, 0, 0, [])
    else
      Simulate1(p, Run(p, s0, recs, warmup, k - 1), recs[k - 1].branch, SbbtReader.GapSum(recs, k), warmup)
  }

  lemma RunStep<S>(p: Predictors.Predictor<S>, s0: S, recs: seq<SbbtReader.Decoded>, warmup: nat, k: nat,
                   t: Tally<S>, b: Branches.Branch, instrNum: int)
    requires k < |recs| && t == Run(p, s0, recs, warmup, k)
    requires b == recs[k].branch && instrNum == SbbtReader.GapSum(recs, k + 1)
    ensures Simulate1(p, t, b, instrNum, warmup) == Run(p, s0, recs, warmup, k + 1)
  {
  }

  /** What one iteration does to the predictor: predict, train when conditional, track. */
  function Step<S>(p: Predictors.Predictor<S>, s: S, b: Branches.Branch): S
  {
    var s1 := p.predict(s, b.ip).0;
    p.track(if Branches.IsConditional(b) then p.train(s1, b) else s1, b)
  }

  /**
   * A property of predictor states that holds initially and survives every
   * iteration holds of the state every iteration starts from.
   */
  lemma {:induction false} RunKeeps<S>(p: Predictors.Predictor<S>, s0: S, recs: seq<SbbtReader.Decoded>, warmup: nat, k: nat,
                                       inv: S -> bool)
    requires k <= |recs| && inv(s0)
    requires forall s: S, b: Branches.Branch :: inv(s) ==> inv(Step(p, s, b))
    ensures inv(Run(p, s0, recs, warmup, k).state)
  {
    if k > 0 {
      RunKeeps(p, s0, recs, warmup, k - 1, inv);
      assert Run(p, s0, recs, warmup, k).state == Step(p, Run(p, s0, recs, warmup, k - 1).state, recs[k - 1].branch);
    }
  }

  /** The addresses of the counted branches among the first `k` records. */
  function CountedIps(recs: seq<SbbtReader.Decoded>, warmup: nat, k: nat): set<bv64>
    requires k <= |recs|
  {
    if k == 0 then {}
    else if Counted(recs[k - 1].branch, SbbtReader.GapSum(recs, k), warmup) then
      CountedIps(recs, warmup, k - 1) + {recs[k - 1].branch.ip}
    else CountedIps(recs, warmup, k - 1)
  }

  /** The number of counted branches among the first `k` records. */
  function CountedBranches(recs: seq<SbbtReader.Decoded>, warmup: nat, k: nat): nat
    requires k <= |recs|
  {
    if k == 0 then 0
    else CountedBranches(recs, warmup, k - 1) + Bit(Counted(recs[k - 1].branch, SbbtReader.GapSum(recs, k), warmup))
  }

  /**
   * The counters the loop keeps: `numBranches` is the number of
   * conditional branches past the warm-up, no more of them are mispredicted
   * than counted, and the per-address occurrences and misses add up to the
   * two totals.
   */
  lemma {:induction false} RunCounts<S>(p: Predictors.Predictor<S>, s0: S, recs: seq<SbbtReader.Decoded>, warmup: nat, k: nat)
    requires k <= |recs|
    ensures var t := Run(p, s0, recs, warmup, k);
      t.numBranches == CountedBranches(recs, warmup, k)
      && t.mispredictions <= t.numBranches
      && Total(t.table) == Info(t.numBranches, t.mispredictions)
    decreases k
  {
    if k > 0 {
      RunCounts(p, s0, recs, warmup, k - 1);
      var t := Run(p, s0, recs, warmup, k - 1);
      var b := recs[k - 1].branch;
      var n := SbbtReader.GapSum(recs, k);
      Simulate1Counts(p, t, b, n, warmup);
      var u := Simulate1(p, t, b, n, warmup);
      assert u == Run(p, s0, recs, warmup, k);
      assert Total(u.table) == Add(Info(t.numBranches, t.mispredictions),
                                   Info(u.numBranches - t.numBranches, u.mispredictions - t.mispredictions));
    } else {
      assert Total([]) == Info(0, 0);
    }
  }

  /**
   * The per-address map holds exactly the addresses of the counted
   * branches, each once, with no more misses than occurrences.
   */
  lemma {:induction false} RunIps<S>(p: Predictors.Predictor<S>, s0: S, recs: seq<SbbtReader.Decoded>, warmup: nat, k: nat)
    requires k <= |recs|
    ensures WellFormed(Run(p, s0, recs, warmup, k).table)
    ensures IpsOf(Run(p, s0, recs, warmup, k).table) == CountedIps(recs, warmup, k)
    decreases k
  {
    if k > 0 {
      RunIps(p, s0, recs, warmup, k - 1);
      var t := Run(p, s0, recs, warmup, k - 1);
      var b := recs[k - 1].branch;
      Simulate1Counts(p, t, b, SbbtReader.GapSum(recs, k), warmup);
      if Counted(b, SbbtReader.GapSum(recs, k), warmup) {
        CountWellFormed(t.table, b.ip, p.predict(t.state, b.ip).1 != Branches.IsTaken(b));
      }
    } else {
      assert IpsOf([]) == {};
    }
  }

  /** Instruction numbers never decrease, so the last one below the stop point bounds all before it. */
  lemma BelowStop(recs: seq<SbbtReader.Decoded>, k: nat, stop: int)
    requires k <= |recs| && (k == 0 || SbbtReader.GapSum(recs, k) < stop)
    ensures forall j :: 1 <= j <= k ==> SbbtReader.GapSum(recs, j) < stop
  {
    forall j | 1 <= j <= k ensures SbbtReader.GapSum(recs, j) < stop {
      SbbtReader.GapSumMonotone(recs, j, k);
    }
  }

  /**
   * Everything the driver reports, before the JSON formatting. `eof` is
   * what `trace.eof()` returns after the loop; `exhausted` is whether the
   * loop ended because the trace ran out, which is what the exhausted-trace
   * report is evidently meant to depend on.
   */
  datatype Report<S> = Report(tally: Tally<S>, processed: nat, lastInstrRead: int, eof: bool, exhausted: bool)

  /**
   * What `trace.eof()` returns once the loop has processed `k` records:
   * true when the trace was read to its end, and also when the loop stopped
   * at the trace's last record and the read that delivered that record was
   * the stream's last.
   */
  predicate ReportedEof(chunks: seq<SbbtReader.Chunk>, k: nat)
  {
    var recs := SbbtReader.Records(SbbtReader.AllBytes(chunks));
    k == |recs|
    || (k + 1 == |recs| && 0 < |chunks| && |SbbtReader.Fed(chunks, |chunks| - 1)| < 16 * |recs|)
  }

  /**
   * `Simulation`: runs the loop on the trace read from `chunks` until the
   * reader returns an instruction number at or past the stop point (the
   * end-of-trace sentinel is one) or fails. The processed records are a
   * prefix of the trace whose instruction numbers are all below the stop
   * point; the loop stopped at the first record that is not, or at the end
   * of the trace; and the counters and the predictor's state are those of
   * running the loop on that prefix.
   */
  method Simulation<S>(p: Predictors.Predictor<S>, s0: S, chunks: seq<SbbtReader.Chunk>, warmup: nat, sim: nat)
    returns (res: Result<Report<S>, SbbtReader.ReaderError>)
    requires SbbtReader.ChunksFit(chunks) && warmup + sim <= INT64_MAX
    ensures res.Err? ==> res.error == SbbtReader.IoError
    ensures res.Ok? ==>
      var recs := SbbtReader.Records(SbbtReader.AllBytes(chunks));
      var k := res.value.processed;
      k <= |recs|
      && (forall j :: 1 <= j <= k ==> SbbtReader.GapSum(recs, j) < StopAt(warmup, sim))
      && (k == |recs| || SbbtReader.GapSum(recs, k + 1) >= StopAt(warmup, sim))
      && res.value.tally == Run(p, s0, recs, warmup, k)
      && res.value.lastInstrRead == SbbtReader.GapSum(recs, if k < |recs| then k + 1 else k)
      && res.value.eof == ReportedEof(chunks, k)
      && res.value.exhausted == (k == |recs|)
  {
    ghost var recs := SbbtReader.Records(SbbtReader.AllBytes(chunks));
    var stop := StopAt(warmup, sim);
    var r := SbbtReader.NewReader();
    var t: Tally<S> := Tally(s0, 0, 0, []);
    var k: nat := 0;
    while true
      invariant SbbtReader.Valid(r, chunks) && r.consumed == 16 * k && k <= |recs|
      invariant r.instrCtr == SbbtReader.GapSum(recs, k)
      invariant t == Run(p, s0, recs, warmup, k)
      invariant k == 0 || SbbtReader.GapSum(recs, k) < stop
      invariant SbbtReader.ReadsNeeded(r, chunks)
      decreases |recs| - k
    {
      var n := ReadNext(r, chunks, k, recs);
      match n.result {
        case Err(e) =>
          return Err(e);
        case Ok(End) =>
          BelowStop(recs, k, stop);
          return Ok(Report(t, k, SbbtReader.LastInstrRead(n.r), SbbtReader.Eof(n.r, chunks), true));
        case Ok(Branch(instrNum, b)) =>
          if instrNum >= stop {
            BelowStop(recs, k, stop);
            SbbtReader.EofAfterRecord(n.r, chunks, k);
            return Ok(Report(t, k, SbbtReader.LastInstrRead(n.r), SbbtReader.Eof(n.r, chunks), false));
          }
          RunStep(p, s0, recs, warmup, k, t, b, instrNum);
          t := Simulate1(p, t, b, instrNum, warmup);
          r := n.r;
          k := k + 1;
      }
    }
  }

  /** `nextBranch` after `k` records, stated in terms of record `k`. */
  method ReadNext(r: SbbtReader.Reader, chunks: seq<SbbtReader.Chunk>, k: nat, ghost recs: seq<SbbtReader.Decoded>)
    returns (n: SbbtReader.Next)
    requires SbbtReader.ChunksFit(chunks) && recs == SbbtReader.Records(SbbtReader.AllBytes(chunks))
    requires SbbtReader.Valid(r, chunks) && r.consumed == 16 * k && k <= |recs|
    requires r.instrCtr == SbbtReader.GapSum(recs, k)
    ensures SbbtReader.Valid(n.r, chunks)
    ensures n.result.Err? ==> n.result.error == SbbtReader.IoError
    ensures n.result == Ok(SbbtReader.End) ==> k == |recs| && n.r.instrCtr == r.instrCtr
    ensures n.result.Ok? && n.result.value.Branch? ==>
      k < |recs| && n.r.consumed == 16 * (k + 1) && n.result.value.branch == recs[k].branch
      && n.result.value.instrNum == n.r.instrCtr == SbbtReader.GapSum(recs, k + 1)
      && (SbbtReader.ReadsNeeded(r, chunks) ==> SbbtReader.ReadsNeeded(n.r, chunks))
    ensures n.result == Ok(SbbtReader.End) ==> SbbtReader.Eof(n.r, chunks)
  {
    SbbtReader.RecordIndex(k);
    n := SbbtReader.NextBranchOf(r, chunks);
  }

  /**
   * A trace of one record whose instruction number reaches the stop point,
   * delivered by a single read: the loop stops at that record without
   * processing it, yet `eof()` holds and the run reports an exhausted trace
   * with the exhausted-trace exit code.
   */
  lemma EofAtStopPoint(bytes: seq<bv8>, warmup: nat, sim: nat)
    requires |bytes| == 16 && 0 < sim && warmup + sim <= INT64_MAX
    requires SbbtReader.Records(bytes)[0].ninstr >= warmup + sim
    ensures var chunks := [SbbtReader.Chunk(bytes, false)];
      var recs := SbbtReader.Records(SbbtReader.AllBytes(chunks));
      |recs| == 1 && SbbtReader.GapSum(recs, 1) >= StopAt(warmup, sim)
      && ReportedEof(chunks, 0)
      && MetricOf(warmup, sim, SbbtReader.GapSum(recs, 1), ReportedEof(chunks, 0)).returnCode == ERR_EXHAUSTED_TRACE
  {
    var chunks := [SbbtReader.Chunk(bytes, false)];
    assert SbbtReader.Fed(chunks, 0) == [];
    assert SbbtReader.AllBytes(chunks) == bytes;
  }

  /**
   * Where the loop stops, it has run out of trace exactly when every
   * record of the trace lies below the stop point, so the report built from
   * the exhausted flag gives the exhausted-trace exit code and the
   * all-instructions denominator exactly then.
   */
  lemma RanOutBeforeStop(recs: seq<SbbtReader.Decoded>, warmup: nat, sim: nat, k: nat, lastInstrRead: int)
    requires warmup + sim <= INT64_MAX
    requires k <= |recs| && (forall j :: 1 <= j <= k ==> SbbtReader.GapSum(recs, j) < StopAt(warmup, sim))
    requires k == |recs| || SbbtReader.GapSum(recs, k + 1) >= StopAt(warmup, sim)
    ensures k == |recs| <==> forall j :: 1 <= j <= |recs| ==> SbbtReader.GapSum(recs, j) < StopAt(warmup, sim)
    ensures var m := MetricOf(warmup, sim, lastInstrRead, k == |recs|);
      ((m.returnCode == ERR_EXHAUSTED_TRACE) <==>
         (sim != 0 && forall j :: 1 <= j <= |recs| ==> SbbtReader.GapSum(recs, j) < StopAt(warmup, sim)))
      && (sim != 0 && k < |recs| ==> m == Metric(sim, 0))
  {
  }

  /** The instructions the metrics are divided by, and the exit code. */
  datatype Metric = Metric(metricInstr: int, returnCode: int)

  /**
   * Without a simulation count the denominator is the instructions read
   * after the warm-up; with one it is that count, unless the trace ran out,
   * in which case it is all instructions read and the exit code reports the
   * exhausted trace.
   */
  function MetricOf(warmup: nat, sim: nat, lastInstrRead: int, exhausted: bool): (m: Metric)
    ensures m.returnCode == ERR_EXHAUSTED_TRACE <==> sim != 0 && exhausted
    ensures m.returnCode != ERR_EXHAUSTED_TRACE ==> m.returnCode == 0
    ensures sim == 0 ==> m.metricInstr + warmup == lastInstrRead
    ensures sim != 0 && !exhausted ==> m.metricInstr == sim
    ensures sim != 0 && exhausted ==> m.metricInstr == lastInstrRead
  {
    var metricInstr := if sim == 0 then lastInstrRead - warmup else sim;
    if sim != 0 && exhausted then Metric(lastInstrRead, ERR_EXHAUSTED_TRACE)
    else Metric(metricInstr, 0)
  }

  /** Entries ordered by misses, most first. */
  predicate SortedByMisses(t: seq<Entry>)
  {
    forall i, j :: 0 <= i < j < |t| ==> t[i].info.misses >= t[j].info.misses
  }

  /** Inserts `e` before the first entry with fewer misses. */
  function Insert(e: Entry, t: seq<Entry>): (r: seq<Entry>)
    ensures multiset(r) == multiset(t) + multiset{e}
    ensures |r| == |t| + 1 && (r[0] == e || (|t| > 0 && r[0] == t[0]))
  {
    if |t| == 0 || e.info.misses >= t[0].info.misses then [e] + t
    else
      assert t == [t[0]] + t[1..];
      [t[0]] + Insert(e, t[1..])
  }

  /** Inserting into a sorted list keeps it sorted. */
  lemma {:induction false} InsertSorted(e: Entry, t: seq<Entry>)
    requires SortedByMisses(t)
    ensures SortedByMisses(Insert(e, t))
  {
    if |t| > 0 && e.info.misses < t[0].info.misses {
      var rest := Insert(e, t[1..]);
      InsertSorted(e, t[1..]);
      assert rest[0].info.misses <= t[0].info.misses;
      forall i, j | 0 <= i < j < |rest| + 1
        ensures ([t[0]] + rest)[i].info.misses >= ([t[0]] + rest)[j].info.misses
      {
        if i > 0 {
          assert ([t[0]] + rest)[i] == rest[i - 1];
        }
        assert ([t[0]] + rest)[j] == rest[j - 1];
      }
    }
  }

  lemma {:induction false} InsertTotal(e: Entry, t: seq<Entry>)
    ensures Total(Insert(e, t)) == Add(Total(t), e.info)
  {
    if |t| == 0 || e.info.misses >= t[0].info.misses {
      assert ([e] + t)[1..] == t;
    } else {
      InsertTotal(e, t[1..]);
      assert ([t[0]] + Insert(e, t[1..]))[1..] == Insert(e, t[1..]);
    }
  }

  /**
   * The `sort` by misses, non-increasing. `std::sort` is not stable, so
   * which of several equal-miss entries comes first is unspecified; this
   * is one admissible order.
   */
  function SortByMisses(t: seq<Entry>): (r: seq<Entry>)
    ensures multiset(r) == multiset(t) && |r| == |t|
  {
    if |t| == 0 then t
    else
      assert t == [t[0]] + t[1..];
      Insert(t[0], SortByMisses(t[1..]))
  }

  /** The sorted list is ordered by misses, most first. */
  lemma {:induction false} SortSorted(t: seq<Entry>)
    ensures SortedByMisses(SortByMisses(t))
  {
    if |t| > 0 {
      SortSorted(t[1..]);
      InsertSorted(t[0], SortByMisses(t[1..]));
    }
  }

  /** Sorting keeps the totals. */
  lemma {:induction false} SortTotal(t: seq<Entry>)
    ensures Total(SortByMisses(t)) == Total(t)
  {
    if |t| > 0 {
      SortTotal(t[1..]);
      InsertTotal(t[0], SortByMisses(t[1..]));
    }
  }

  /**
   * The `keepidx` loop: the length of the shortest prefix whose doubled
   * miss count reaches `mispredictions`, or the whole list when none does.
   */
  method KeepIndex(t: seq<Entry>, mispredictions: nat) returns (keep: nat)
    ensures keep <= |t|
    ensures forall j :: 0 <= j < keep ==> 2 * Total(t[..j]).misses < mispredictions
    ensures keep < |t| ==> 2 * Total(t[..keep]).misses >= mispredictions
  {
    keep := 0;
    var keepSum: nat := 0;
    while keep < |t|
      invariant keep <= |t| && keepSum == Total(t[..keep]).misses
      invariant forall j :: 0 <= j < keep ==> 2 * Total(t[..j]).misses < mispredictions
    {
      if 2 * keepSum >= mispredictions {
        break;
      }
      keepSum := keepSum + t[keep].info.misses;
      assert t[..keep + 1] == t[..keep] + [t[keep]];
      TotalConcat(t[..keep], [t[keep]]);
      TotalSingle(t[keep]);
      keep := keep + 1;
    }
  }

  /**
   * The most failed branches: a prefix of the map sorted by misses, cut to
   * the shortest one that holds at least half of all mispredictions.
   * Since the whole map holds all of them, such a prefix always exists.
   */
  method MostFailed(table: seq<Entry>, mispredictions: nat) returns (kept: seq<Entry>)
    requires Total(table).misses == mispredictions
    ensures SortedByMisses(kept)
    ensures |kept| <= |table| && kept == SortByMisses(table)[..|kept|]
    ensures 2 * Total(kept).misses >= mispredictions
    ensures forall j :: 0 <= j < |kept| ==> 2 * Total(kept[..j]).misses < mispredictions
  {
    var sorted := SortByMisses(table);
    SortTotal(table);
    SortSorted(table);
    var keep := KeepIndex(sorted, mispredictions);
    kept := sorted[..keep];
    assert sorted[..|sorted|] == sorted;
    forall j | 0 <= j < |kept| ensures kept[..j] == sorted[..j] {
    }
  }
}
