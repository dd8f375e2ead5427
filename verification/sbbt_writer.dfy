/**
 * The SBBT trace writer. A trace is a 24-byte header followed by one
 * 16-byte record per branch; a record is two little-endian 64-bit words,
 * `ip << 12 | outcome << 11 | opcode` and `target << 12 | delta`, where
 * `delta` is the number of instructions since the previous branch.
 *
 * Words are staged in a 1024-word buffer and handed to the compressor's
 * pipe in batches. The pipe is a `Sink`: the k-th write call on it accepts
 * some number of words and may leave the stream's error flag set.
 */
module SbbtWriter {
  import opened Results

  // ---------------------------------------------------------------------
  // Constants of the format

  const SBBT_VERSION_MAJOR: nat := 1
  const SBBT_VERSION_MINOR: nat := 0
  const SBBT_VERSION_PATCH: nat := 0

  /** Opcode bits of the trace format. */
  const CND: bv8 := 0x1
  const IND: bv8 := 0x2
  const TYPE: bv8 := 0xC
  const JUMP: bv8 := 0x0
  const CALL: bv8 := 0x8
  const RET: bv8 := 0x4

  const OPCODE_MASK: bv64 := 0x00F
  const RESERVED_MASK: bv64 := 0x7F0
  const MAX_IP_DIFF: bv64 := 0xFFF
  const LAST_13_BITS: bv64 := 0xFFF8_0000_0000_0000
  const LOW_52_BITS: bv64 := 0x000F_FFFF_FFFF_FFFF
  const BIT_51: bv64 := 0x0008_0000_0000_0000

  /** "SBBT\n" followed by the version 1.0.0, read as a little-endian word. */
  const SBBT_MARK: bv64 := 0x0000_010A_5442_4253

  /** Words staged before a batch is handed to the pipe. */
  const BUFFER_SIZE: nat := 1024

  /** The four opcode fields of the format are pairwise disjoint; TYPE value 0b11 is the one unused. */
  lemma OpcodeMasksDisjoint()
    ensures CND & IND == 0 && CND & TYPE == 0 && IND & TYPE == 0
    ensures JUMP & TYPE == JUMP && CALL & TYPE == CALL && RET & TYPE == RET
    ensures TYPE != JUMP && TYPE != CALL && TYPE != RET
  {
  }

  // ---------------------------------------------------------------------
  // Header

  /** The little-endian bytes of a word. */
  function LeBytes(x: bv64): (r: seq<bv8>)
    ensures |r| == 8
  {
    [(x & 0xFF) as bv8, ((x >> 8) & 0xFF) as bv8, ((x >> 16) & 0xFF) as bv8, ((x >> 24) & 0xFF) as bv8,
     ((x >> 32) & 0xFF) as bv8, ((x >> 40) & 0xFF) as bv8, ((x >> 48) & 0xFF) as bv8, (x >> 56) as bv8]
  }

  /** The header: mark, number of instructions, number of branches. */
  function HeaderWords(numInstructions: bv64, numBranches: bv64): seq<bv64>
  {
    [SBBT_MARK, numInstructions, numBranches]
  }

  function HeaderBytes(numInstructions: bv64, numBranches: bv64): (r: seq<bv8>)
    ensures |r| == 24
    ensures r[..8] == ['S' as bv8, 'B' as bv8, 'B' as bv8, 'T' as bv8, '\n' as bv8, 1, 0, 0]
    ensures r[8..16] == LeBytes(numInstructions) && r[16..] == LeBytes(numBranches)
  {
    MarkBytes();
    LeBytes(SBBT_MARK) + LeBytes(numInstructions) + LeBytes(numBranches)
  }

  /** The mark spells "SBBT\n" and the version bytes 1, 0, 0. */
  lemma MarkBytes()
    ensures LeBytes(SBBT_MARK) == ['S' as bv8, 'B' as bv8, 'B' as bv8, 'T' as bv8, '\n' as bv8, 1, 0, 0]
  {
  }

  // ---------------------------------------------------------------------
  // Records

  /** `Is52BitsSignExtended`: bits 51 to 63 are all equal. */
  predicate Is52BitsSignExtended(x: bv64)
  {
    x & LAST_13_BITS == LAST_13_BITS || x & LAST_13_BITS == 0
  }

  lemma SignExtendedMeansTopBitsEqual(x: bv64)
    ensures Is52BitsSignExtended(x) <==> (x >> 51 == 0 || x >> 51 == 0x1FFF)
  {
  }

  /** Extends bit 51 of a 52-bit field over the top 12 bits. */
  function SignExtend52(x: bv64): (r: bv64)
    ensures Is52BitsSignExtended(r)
  {
    if x & BIT_51 != 0 then x | LAST_13_BITS else x & !LAST_13_BITS
  }

  function Word0(ip: bv64, outcome: bool, opcode: bv8): bv64
  {
    (ip << 12) | ((if outcome then 1 else 0) << 11) | (opcode as bv64)
  }

  function Word1(target: bv64, delta: bv64): bv64
  {
    (target << 12) | delta
  }

  /** A record as the writer lays it out. */
  datatype Record = Record(ip: bv64, target: bv64, outcome: bool, opcode: bv8, delta: bv64)

  /** Reads the writer's layout back. */
  function Unpack(w0: bv64, w1: bv64): Record
  {
    Record(SignExtend52(w0 >> 12), SignExtend52(w1 >> 12), (w0 >> 11) & 1 == 1,
           (w0 & OPCODE_MASK) as bv8, w1 & MAX_IP_DIFF)
  }

  lemma ShiftBack(x: bv64, low: bv64)
    requires low <= 0xFFF
    ensures ((x << 12) | low) >> 12 == x & LOW_52_BITS
  {
  }

  lemma SignExtendLow(x: bv64)
    requires Is52BitsSignExtended(x)
    ensures SignExtend52(x & LOW_52_BITS) == x
  {
    if x & LAST_13_BITS == 0 {
      assert (x & LOW_52_BITS) & BIT_51 == 0;
    } else {
      assert (x & LOW_52_BITS) & BIT_51 != 0;
    }
  }

  lemma Word0Low(ip: bv64, outcome: bool, opcode: bv8)
    requires opcode & 0xF0 == 0
    ensures Word0(ip, outcome, opcode) & OPCODE_MASK == opcode as bv64
    ensures Word0(ip, outcome, opcode) & RESERVED_MASK == 0
    ensures (Word0(ip, outcome, opcode) >> 11) & 1 == (if outcome then 1 else 0)
  {
  }

  lemma Word0Unpack(ip: bv64, outcome: bool, opcode: bv8)
    requires Is52BitsSignExtended(ip) && opcode & 0xF0 == 0
    ensures SignExtend52(Word0(ip, outcome, opcode) >> 12) == ip
  {
    var low0 := ((if outcome then 1 else 0) << 11) | (opcode as bv64);
    assert low0 <= 0xFFF;
    ShiftBack(ip, low0);
    SignExtendLow(ip);
  }

  lemma Word1Unpack(target: bv64, delta: bv64)
    requires Is52BitsSignExtended(target) && delta <= MAX_IP_DIFF
    ensures SignExtend52(Word1(target, delta) >> 12) == target
    ensures Word1(target, delta) & MAX_IP_DIFF == delta
  {
    ShiftBack(target, delta);
    SignExtendLow(target);
  }

  /** Every record the writer accepts is recovered exactly from its two words. */
  lemma PackUnpack(ip: bv64, target: bv64, outcome: bool, opcode: bv8, delta: bv64)
    requires Is52BitsSignExtended(ip) && Is52BitsSignExtended(target)
    requires opcode & 0xF0 == 0 && delta <= MAX_IP_DIFF
    ensures Unpack(Word0(ip, outcome, opcode), Word1(target, delta)) ==
      Record(ip, target, outcome, opcode, delta)
  {
    Word0Low(ip, outcome, opcode);
    Word0Unpack(ip, outcome, opcode);
    Word1Unpack(target, delta);
  }

  // ---------------------------------------------------------------------
  // Writer state

  /** What one `fwrite` on the pipe does: words accepted, error flag afterwards. */
  datatype Grant = Grant(count: nat, error: bool)

  /** The pipe: the behaviour of its k-th write call. */
  type Sink = nat -> Grant

  /** Every write that does not fail accepts at least two words. */
  ghost predicate WritesProgress(sink: Sink)
  {
    forall k: nat :: !sink(k).error ==> sink(k).count >= 2
  }

  datatype WriterError =
    | BadFileName
    | ZeroInstructions
    | TooManyBranches
    | IpNotSignExtended
    | TargetNotSignExtended
    | InstrGapTooLarge
    | InvalidOpcode
    | IoError
    | InstructionCountMismatch
    | BranchCountMismatch

  /**
   * `slots` is `buffer_`, of which the first `bufferSize` words are
   * pending; `output` is every word the pipe has accepted; `writes` counts
   * the write calls made on the pipe.
   */
  datatype Writer = Writer(
    slots: seq<bv64>,
    bufferSize: nat,
    lastBranchInstrNum: bv64,
    numBranches: bv64,
    numInstructionsHeader: bv64,
    numBranchesHeader: bv64,
    headerWritten: bool,
    output: seq<bv64>,
    writes: nat)

  predicate Valid(w: Writer)
  {
    |w.slots| == BUFFER_SIZE && w.bufferSize <= BUFFER_SIZE
  }

  /** The words added but not yet handed to the pipe. */
  function Pending(w: Writer): seq<bv64>
    requires Valid(w)
  {
    w.slots[..w.bufferSize]
  }

  /** Everything the writer has produced, delivered or not. */
  function Stream(w: Writer): seq<bv64>
    requires Valid(w)
  {
    w.output + Pending(w)
  }

  /** A writer state and whether the last operation completed or threw. */
  datatype Step = Step(w: Writer, status: Result<(), WriterError>)

  // ---------------------------------------------------------------------
  // Opening

  /** `open()`: the file name must end in ".sbbt.zst". */
  predicate NameAccepted(filename: string)
  {
    |filename| >= 9 && filename[|filename| - 9..] == ".sbbt.zst"
  }

  function EmptyWriter(): (w: Writer)
    ensures Valid(w) && Stream(w) == []
  {
    Writer(seq(BUFFER_SIZE, _ => 0), 0, 0, 0, 0, 0, false, [], 0)
  }

  /**
   * The counted constructor: rejects a zero instruction count, then a bad
   * name, then writes the header with the first write call.
   */
  function NewCounted(filename: string, numInstructions: bv64, numBranches: bv64, sink: Sink): (r: Result<Writer, WriterError>)
    ensures numInstructions == 0 ==> r == Err(ZeroInstructions)
    ensures numInstructions != 0 && !NameAccepted(filename) ==> r == Err(BadFileName)
    ensures numInstructions != 0 && NameAccepted(filename) && sink(0).error ==> r == Err(IoError)
    ensures r.Ok? ==>
      Valid(r.value) && r.value.headerWritten && r.value.numBranches == 0
      && r.value.numInstructionsHeader == numInstructions && r.value.numBranchesHeader == numBranches
      && Stream(r.value) == HeaderWords(numInstructions, numBranches)
  {
    if numInstructions == 0 then Err(ZeroInstructions)
    else if !NameAccepted(filename) then Err(BadFileName)
    else if sink(0).error then Err(IoError)
    else
      var w := EmptyWriter();
      Ok(w.(numInstructionsHeader := numInstructions, numBranchesHeader := numBranches,
            headerWritten := true, output := HeaderWords(numInstructions, numBranches), writes := 1))
  }

  /** The deferred constructor: only the name is checked; no header yet. */
  function NewDeferred(filename: string): (r: Result<Writer, WriterError>)
    ensures r.Ok? <==> NameAccepted(filename)
    ensures r.Err? ==> r.error == BadFileName
    ensures r.Ok? ==>
      Valid(r.value) && !r.value.headerWritten && Stream(r.value) == []
      && r.value.numBranchesHeader == 0 && r.value.numBranches == 0
  {
    if !NameAccepted(filename) then Err(BadFileName) else Ok(EmptyWriter())
  }

  // ---------------------------------------------------------------------
  // Adding branches

  /** One `addBranch` request. */
  datatype Request = Request(instrNum: bv64, ip: bv64, target: bv64, outcome: bool, opcode: bv8)

  /** The two words of one accepted request, `last` being the previous branch's instruction number. */
  function Words(q: Request, last: bv64): seq<bv64>
  {
    [Word0(q.ip, q.outcome, q.opcode), Word1(q.target, q.instrNum - last)]
  }

  /**
   * The checks of `addBranch`, in order; on success, the instruction
   * distance to the previous branch (modulo 2^64).
   */
  function Validate(w: Writer, instrNum: bv64, ip: bv64, target: bv64, opcode: bv8): (r: Result<bv64, WriterError>)
    ensures w.numBranchesHeader != 0 && w.numBranches == w.numBranchesHeader ==>
      r == Err(TooManyBranches)
    ensures r.Ok? <==>
      !(w.numBranchesHeader != 0 && w.numBranches == w.numBranchesHeader)
      && Is52BitsSignExtended(ip) && Is52BitsSignExtended(target)
      && instrNum - w.lastBranchInstrNum <= MAX_IP_DIFF
      && opcode & TYPE != TYPE && opcode & 0xF0 == 0
    ensures r.Ok? ==> r.value == instrNum - w.lastBranchInstrNum
    ensures r.Err? && r.error == InvalidOpcode ==>
      Is52BitsSignExtended(ip) && Is52BitsSignExtended(target) && instrNum - w.lastBranchInstrNum <= MAX_IP_DIFF
  {
    if w.numBranchesHeader != 0 && w.numBranches == w.numBranchesHeader then Err(TooManyBranches)
    else if !Is52BitsSignExtended(ip) then Err(IpNotSignExtended)
    else if !Is52BitsSignExtended(target) then Err(TargetNotSignExtended)
    else
      var ipdiff := instrNum - w.lastBranchInstrNum;
      if ipdiff > MAX_IP_DIFF then Err(InstrGapTooLarge)
      else if (opcode as bv64) & (TYPE as bv64) == 0xC || (opcode as bv64) & !OPCODE_MASK != 0 then Err(InvalidOpcode)
      else Ok(ipdiff)
  }

  /**
   * The `memmove` of `writeBuffer()`: the words in `[lo, hi)` move to the
   * front of the buffer, in order; the words from `hi` on stay.
   */
  method MoveToFront(slots: seq<bv64>, lo: nat, hi: nat) returns (buf: seq<bv64>)
    requires lo <= hi <= |slots|
    ensures |buf| == |slots| && buf[..hi - lo] == slots[lo..hi]
  {
    buf := slots;
    var i := lo;
    while i < hi
      invariant lo <= i <= hi && |buf| == |slots|
      invariant forall k :: 0 <= k < i - lo ==> buf[k] == slots[lo + k]
      invariant forall k :: i <= k < |slots| ==> buf[k] == slots[k]
    {
      buf := buf[i - lo := buf[i]];
      i := i + 1;
    }
    assert forall k :: 0 <= k < hi - lo ==> buf[..hi - lo][k] == slots[lo..hi][k];
  }

  /**
   * `writeBuffer()`: hands the pending words to the pipe, then moves the
   * words it did not accept to the front of the buffer, in order. Throws
   * if the pipe's error flag is set.
   */
  method WriteBuffer(w: Writer, sink: Sink) returns (r: Step)
    requires Valid(w)
    ensures Valid(r.w) && Stream(r.w) == Stream(w)
    ensures r.w.bufferSize == w.bufferSize - Min(sink(w.writes).count, w.bufferSize)
    ensures r.w.writes == w.writes + 1
    ensures r.status.Err? <==> sink(w.writes).error
    ensures r.status.Err? ==> r.status.error == IoError
    ensures r.w.lastBranchInstrNum == w.lastBranchInstrNum && r.w.numBranches == w.numBranches
    ensures r.w.numInstructionsHeader == w.numInstructionsHeader
    ensures r.w.numBranchesHeader == w.numBranchesHeader && r.w.headerWritten == w.headerWritten
  {
    var g := sink(w.writes);
    var written := Min(g.count, w.bufferSize);
    var buf := MoveToFront(w.slots, written, w.bufferSize);
    var nw := w.(slots := buf, bufferSize := w.bufferSize - written,
                 output := w.output + w.slots[..written], writes := w.writes + 1);
    assert Pending(nw) == w.slots[written..w.bufferSize];
    assert w.slots[..w.bufferSize] == w.slots[..written] + w.slots[written..w.bufferSize];
    r := Step(nw, if g.error then Err(IoError) else Ok(()));
  }

  function Min(a: nat, b: nat): nat
  {
    if a <= b then a else b
  }

  /** Whether two more words fit without a batch write first. */
  predicate NeedsWrite(bufferSize: nat)
  {
    bufferSize + 2 > BUFFER_SIZE
  }

  /** The source's own test before appending: the buffer is exactly full. */
  predicate NeedsWriteAsWritten(bufferSize: nat)
  {
    bufferSize == BUFFER_SIZE
  }

  /**
   * A full buffer whose batch write accepts one word and then fails leaves
   * 1023 pending words; if the caller carries on, the source's test does not
   * write again and the next record's second word lands past the buffer.
   */
  method AsWrittenOverflow() returns (r: Step)
    ensures r.status == Err(IoError)
    ensures r.w.bufferSize == BUFFER_SIZE - 1
    ensures !NeedsWriteAsWritten(r.w.bufferSize) && r.w.bufferSize + 2 > BUFFER_SIZE
  {
    var full := EmptyWriter().(bufferSize := BUFFER_SIZE);
    r := WriteBuffer(full, _ => Grant(1, true));
  }

  /** Stores two words after the pending ones. */
  function Append(w: Writer, words: seq<bv64>): (r: Writer)
    requires Valid(w) && |words| == 2 && w.bufferSize + 2 <= BUFFER_SIZE
    ensures Valid(r) && Stream(r) == Stream(w) + words
    ensures r.bufferSize == w.bufferSize + 2 && r.output == w.output && r.writes == w.writes
  {
    var n := w.bufferSize;
    var r := w.(slots := w.slots[n := words[0]][n + 1 := words[1]], bufferSize := n + 2);
    assert Pending(r) == Pending(w) + words;
    r
  }

  /**
   * The storing half of `addBranch`: a batch write first when two more
   * words would not fit, then the words after the pending ones.
   */
  method Store(w: Writer, sink: Sink, words: seq<bv64>) returns (r: Step)
    requires Valid(w) && WritesProgress(sink) && |words| == 2
    ensures Valid(r.w)
    ensures r.status.Ok? ==> Stream(r.w) == Stream(w) + words
    ensures r.status.Err? ==> Stream(r.w) == Stream(w) && r.status.error == IoError
    ensures !NeedsWrite(w.bufferSize) ==> r.status.Ok?
    ensures r.w.lastBranchInstrNum == w.lastBranchInstrNum && r.w.numBranches == w.numBranches
    ensures r.w.numInstructionsHeader == w.numInstructionsHeader
    ensures r.w.numBranchesHeader == w.numBranchesHeader && r.w.headerWritten == w.headerWritten
  {
    var cur := w;
    if NeedsWrite(w.bufferSize) {
      var s := WriteBuffer(w, sink);
      if s.status.Err? {
        return s;
      }
      cur := s.w;
    }
    r := Step(Append(cur, words), Ok(()));
  }

  /**
   * `addBranch`: every check precedes any change, so a rejected branch
   * leaves the writer as it was; an accepted one appends its two words,
   * after a batch write when they would not fit. A failing batch write
   * throws with the pending words moved but nothing appended.
   */
  method AddBranch(w: Writer, sink: Sink, q: Request) returns (r: Step)
    requires Valid(w) && WritesProgress(sink)
    ensures Valid(r.w)
    ensures Validate(w, q.instrNum, q.ip, q.target, q.opcode).Err? ==>
      r == Step(w, Err(Validate(w, q.instrNum, q.ip, q.target, q.opcode).error))
    ensures r.status.Ok? ==>
      Validate(w, q.instrNum, q.ip, q.target, q.opcode).Ok?
      && Stream(r.w) == Stream(w) + Words(q, w.lastBranchInstrNum)
      && r.w.lastBranchInstrNum == q.instrNum && r.w.numBranches == w.numBranches + 1
    ensures r.status.Err? ==>
      Stream(r.w) == Stream(w) && r.w.numBranches == w.numBranches
      && r.w.lastBranchInstrNum == w.lastBranchInstrNum
    ensures Validate(w, q.instrNum, q.ip, q.target, q.opcode).Ok? && !NeedsWrite(w.bufferSize) ==> r.status.Ok?
    ensures r.w.numBranchesHeader == w.numBranchesHeader && r.w.headerWritten == w.headerWritten
    ensures r.w.numInstructionsHeader == w.numInstructionsHeader
  {
    var v := Validate(w, q.instrNum, q.ip, q.target, q.opcode);
    if v.Err? {
      return Step(w, Err(v.error));
    }
    r := Store(w, sink, Words(q, w.lastBranchInstrNum));
    if r.status.Ok? {
      r := r.(w := r.w.(lastBranchInstrNum := q.instrNum, numBranches := w.numBranches + 1));
    }
  }

  // ---------------------------------------------------------------------
  // Flushing and closing

  /** `flush()`: batch writes until nothing is pending, or until one throws. */
  method Flush(w: Writer, sink: Sink) returns (r: Step)
    requires Valid(w) && WritesProgress(sink)
    ensures Valid(r.w) && Stream(r.w) == Stream(w)
    ensures r.status.Ok? ==> r.w.bufferSize == 0 && r.w.output == Stream(w)
    ensures r.status.Err? ==> r.status.error == IoError
    ensures r.w.numBranches == w.numBranches && r.w.lastBranchInstrNum == w.lastBranchInstrNum
    ensures r.w.numInstructionsHeader == w.numInstructionsHeader
    ensures r.w.numBranchesHeader == w.numBranchesHeader && r.w.headerWritten == w.headerWritten
  {
    r := Step(w, Ok(()));
    while r.w.bufferSize > 0
      invariant Valid(r.w) && Stream(r.w) == Stream(w) && r.status.Ok?
      invariant r.w.numBranches == w.numBranches && r.w.lastBranchInstrNum == w.lastBranchInstrNum
      invariant r.w.numInstructionsHeader == w.numInstructionsHeader
      invariant r.w.numBranchesHeader == w.numBranchesHeader && r.w.headerWritten == w.headerWritten
      decreases r.w.bufferSize
    {
      var s := WriteBuffer(r.w, sink);
      if s.status.Err? {
        return s;
      }
      r := s;
    }
  }

  /** The outcome of `close`: the final step and the instruction count of the trace. */
  datatype Closed = Closed(step: Step, numInstructions: bv64)

  /**
   * `close(numInstructions)`: with a header, both declared counts must
   * match; then everything pending is flushed. Without a header the count
   * given is the one the trace is finished with.
   */
  method Close(w: Writer, sink: Sink, numInstructions: bv64) returns (r: Closed)
    requires Valid(w) && WritesProgress(sink)
    ensures Valid(r.step.w) && r.numInstructions == numInstructions
    ensures w.headerWritten && w.numInstructionsHeader != numInstructions ==>
      r.step == Step(w, Err(InstructionCountMismatch))
    ensures w.headerWritten && w.numInstructionsHeader == numInstructions && w.numBranchesHeader != w.numBranches ==>
      r.step == Step(w, Err(BranchCountMismatch))
    ensures r.step.status.Ok? ==>
      (w.headerWritten ==> w.numInstructionsHeader == numInstructions && w.numBranchesHeader == w.numBranches)
      && r.step.w.bufferSize == 0 && r.step.w.output == Stream(w)
  {
    if w.headerWritten {
      if w.numInstructionsHeader != numInstructions {
        return Closed(Step(w, Err(InstructionCountMismatch)), numInstructions);
      }
      if w.numBranchesHeader != w.numBranches {
        return Closed(Step(w, Err(BranchCountMismatch)), numInstructions);
      }
    }
    var s := Flush(w, sink);
    r := Closed(s, numInstructions);
  }

  /**
   * `close()`: the declared count in counted mode, otherwise the
   * instruction number of the last branch added.
   */
  method CloseDefault(w: Writer, sink: Sink) returns (r: Closed)
    requires Valid(w) && WritesProgress(sink)
    ensures w.headerWritten ==> r.numInstructions == w.numInstructionsHeader
    ensures !w.headerWritten ==> r.numInstructions == w.lastBranchInstrNum
    ensures w.headerWritten && w.numBranchesHeader != w.numBranches ==> r.step.status == Err(BranchCountMismatch)
    ensures r.step.status.Ok? ==> r.step.w.output == Stream(w)
  {
    r := Close(w, sink, if w.headerWritten then w.numInstructionsHeader else w.lastBranchInstrNum);
  }

  // ---------------------------------------------------------------------
  // Sequences of branches

  /** The words a run of accepted requests produces, starting after instruction `last`. */
  function Encode(last: bv64, reqs: seq<Request>): (r: seq<bv64>)
    ensures |r| == 2 * |reqs|
    decreases |reqs|
  {
    if |reqs| == 0 then [] else Words(reqs[0], last) + Encode(reqs[0].instrNum, reqs[1..])
  }

  /** The instruction number of the last request, or `last` if there is none. */
  function LastInstr(last: bv64, reqs: seq<Request>): bv64
  {
    if |reqs| == 0 then last else reqs[|reqs| - 1].instrNum
  }

  lemma {:induction false} EncodeAppend(last: bv64, reqs: seq<Request>, q: Request)
    ensures Encode(last, reqs + [q]) == Encode(last, reqs) + Words(q, LastInstr(last, reqs))
    decreases |reqs|
  {
    if |reqs| > 0 {
      var rs := reqs + [q];
      assert rs[0] == reqs[0];
      assert rs[1..] == reqs[1..] + [q];
      EncodeAppend(reqs[0].instrNum, reqs[1..], q);
      var lastQ := LastInstr(reqs[0].instrNum, reqs[1..]);
      assert lastQ == LastInstr(last, reqs);
      calc {
        Encode(last, rs);
        Words(reqs[0], last) + Encode(reqs[0].instrNum, reqs[1..] + [q]);
        Words(reqs[0], last) + (Encode(reqs[0].instrNum, reqs[1..]) + Words(q, lastQ));
        (Words(reqs[0], last) + Encode(reqs[0].instrNum, reqs[1..])) + Words(q, lastQ);
        Encode(last, reqs) + Words(q, lastQ);
      }
    } else {
      assert reqs + [q] == [q];
    }
  }

  /** `x` incremented `n` times in 64 bits. */
  function Bump(x: bv64, n: nat): bv64
  {
    if n == 0 then x else Bump(x, n - 1) + 1
  }

  /**
   * After `accepted` requests were added to `w`, giving `cur`: one branch
   * counted per request, the trace extended by their records, and the last
   * instruction number the last one's.
   */
  predicate AddedSoFar(w: Writer, cur: Writer, reqs: seq<Request>, accepted: nat)
    requires Valid(w) && Valid(cur) && accepted <= |reqs|
  {
    cur.numBranches == Bump(w.numBranches, accepted)
    && Stream(cur) == Stream(w) + Encode(w.lastBranchInstrNum, reqs[..accepted])
    && cur.lastBranchInstrNum == LastInstr(w.lastBranchInstrNum, reqs[..accepted])
  }

  /** One more accepted request extends the encoded prefix by its two words. */
  lemma AddedStep(w: Writer, prev: Writer, next: Writer, reqs: seq<Request>, accepted: nat)
    requires Valid(w) && Valid(prev) && Valid(next) && accepted < |reqs|
    requires AddedSoFar(w, prev, reqs, accepted)
    requires Stream(next) == Stream(prev) + Words(reqs[accepted], prev.lastBranchInstrNum)
    requires next.lastBranchInstrNum == reqs[accepted].instrNum && next.numBranches == prev.numBranches + 1
    ensures AddedSoFar(w, next, reqs, accepted + 1)
  {
    EncodeAppend(w.lastBranchInstrNum, reqs[..accepted], reqs[accepted]);
    assert reqs[..accepted + 1] == reqs[..accepted] + [reqs[accepted]];
  }

  /**
   * Adds the next request to a writer that has accepted the first
   * `accepted`: on success the count of accepted requests grows by one, on
   * a throw it stays and the writer is left as it was.
   */
  method AddNext(w: Writer, cur: Writer, sink: Sink, reqs: seq<Request>, accepted: nat) returns (s: Step)
    requires Valid(w) && Valid(cur) && accepted < |reqs| && WritesProgress(sink)
    requires AddedSoFar(w, cur, reqs, accepted)
    ensures Valid(s.w)
    ensures s.status.Ok? ==> AddedSoFar(w, s.w, reqs, accepted + 1)
    ensures s.status.Err? ==> AddedSoFar(w, s.w, reqs, accepted)
  {
    s := AddBranch(cur, sink, reqs[accepted]);
    if s.status.Ok? {
      AddedStep(w, cur, s.w, reqs, accepted);
    }
  }

  /**
   * Adds branches in order until one throws. `numBranches()` then counts the
   * accepted ones, and the trace holds exactly their records, in order.
   */
  method AddAll(w: Writer, sink: Sink, reqs: seq<Request>) returns (r: Step, accepted: nat)
    requires Valid(w) && WritesProgress(sink)
    ensures Valid(r.w) && accepted <= |reqs|
    ensures r.w.numBranches == Bump(w.numBranches, accepted)
    ensures Stream(r.w) == Stream(w) + Encode(w.lastBranchInstrNum, reqs[..accepted])
    ensures r.status.Ok? ==> accepted == |reqs|
  {
    r := Step(w, Ok(()));
    accepted := 0;
    assert reqs[..0] == [];
    while accepted < |reqs|
      invariant Valid(r.w) && accepted <= |reqs|
      invariant AddedSoFar(w, r.w, reqs, accepted)
      invariant r.status.Ok?
    {
      var s := AddNext(w, r.w, sink, reqs, accepted);
      if s.status.Err? {
        return s, accepted;
      }
      r := s;
      accepted := accepted + 1;
    }
  }
}
