/**
 * The SBBT trace reader. The path's extension selects a decompressor;
 * the byte stream is then read in chunks of at most `READ_SIZE` bytes into
 * a buffer of `READ_SIZE + 16` bytes, and every 16 consecutive bytes are
 * decoded as one record of the reader's bit-field layout:
 *
 *   word 0: ninstr (bits 0-11), ip (bits 12-63)
 *   word 1: padding (bits 0-6), type (7-8), conditional (9), direct (10),
 *           outcome (11), target (12-63)
 *
 * The stream is a sequence of `Chunk`s: what each `fread` call returns and
 * whether it leaves the error flag set; end of file is reached once every
 * chunk has been read.
 */
module SbbtReader {
  import opened Results
  import Branches
  import SbbtWriter
  import Bits

  const SBBT_VERSION_MAJOR: nat := 1
  const SBBT_VERSION_MINOR: nat := 0
  const SBBT_VERSION_PATCH: nat := 0

  const SBBT_MARK_WO_VERSION_MASK: bv64 := 0x0000_00FF_FFFF_FFFF
  const SBBT_MARK_WO_VERSION: bv64 := 0x0000_000A_5442_4253
  const SBBT_MARK_WITH_VERSION: bv64 := 0x0000_010A_5442_4253

  /** Bytes per `fread`: the Linux pipe buffer, four pages. */
  const READ_SIZE: nat := 0x1_0000
  const SIZEOF_SBBT_BRANCH: nat := 16
  const BUFFER_LEN: nat := READ_SIZE + SIZEOF_SBBT_BRANCH

  /** `std::numeric_limits<int64_t>::max()`: no more branches. */
  const INT64_MAX: int := 0x7FFF_FFFF_FFFF_FFFF

  /** The mark without its version byte is the versioned mark, masked; the versioned mark is the writer's. */
  lemma MarkConstants()
    ensures SBBT_MARK_WITH_VERSION & SBBT_MARK_WO_VERSION_MASK == SBBT_MARK_WO_VERSION
    ensures SBBT_MARK_WITH_VERSION == SbbtWriter.SBBT_MARK
  {
  }

  // ---------------------------------------------------------------------
  // Trace format from the path

  datatype TraceFormat = Plain | Xz | Zstd | Lz4 | Gzip

  datatype ReaderError = NoExtension | NotSbbt | UnknownFormat | IoError

  /** `find_last_of(c, pos)`: the largest index `<= pos` holding `c`, if any. */
  function FindLastOf(s: string, c: char, pos: nat): (r: Option<nat>)
    ensures r.Some? ==> r.value <= pos && r.value < |s| && s[r.value] == c
    ensures r.Some? ==> forall k :: r.value < k < |s| && k <= pos ==> s[k] != c
    ensures r.None? ==> forall k :: 0 <= k < |s| && k <= pos ==> s[k] != c
    decreases pos
  {
    if |s| == 0 then None
    else if pos >= |s| then FindLastOf(s, c, |s| - 1)
    else if s[pos] == c then Some(pos)
    else if pos == 0 then None
    else FindLastOf(s, c, pos - 1)
  }

  datatype Option<T> = None | Some(value: T)

  predicate EndsWith(s: string, suffix: string)
  {
    |suffix| <= |s| && s[|s| - |suffix|..] == suffix
  }

  /**
   * The constructor's classification: the last extension ".sbbt" reads
   * the file as is; otherwise the text from the dot before it names the
   * decompressor.
   */
  function Classify(path: string): (r: Result<TraceFormat, ReaderError>)
  {
    match FindLastOf(path, '.', |path|)
    case None => Err(NoExtension)
    case Some(lastDot) =>
      if lastDot == 0 then Err(NoExtension)
      else if path[lastDot..] == ".sbbt" then Ok(Plain)
      else
        match FindLastOf(path, '.', lastDot - 1)
        case None => Err(NotSbbt)
        case Some(dot) =>
          CompressedFormat(path[dot..])
  }

  /** The decompressor named by the text from the second-to-last dot. */
  function CompressedFormat(ext: string): (r: Result<TraceFormat, ReaderError>)
    ensures r.Ok? ==> r.value != Plain && ext == Suffix(r.value)
  {
    if ext == ".sbbt.xz" then Ok(Xz)
    else if ext == ".sbbt.zst" then Ok(Zstd)
    else if ext == ".sbbt.lz4" then Ok(Lz4)
    else if ext == ".sbbt.gz" then Ok(Gzip)
    else Err(UnknownFormat)
  }

  /** The decompressor each format selects, keyed by its suffix. */
  function Suffix(f: TraceFormat): string
  {
    match f
    case Plain => ".sbbt"
    case Xz => ".sbbt.xz"
    case Zstd => ".sbbt.zst"
    case Lz4 => ".sbbt.lz4"
    case Gzip => ".sbbt.gz"
  }

  /** `find_last_of` finds `p` when `p` holds `c` and nothing after it up to `pos` does. */
  lemma LastOfIs(s: string, c: char, pos: nat, p: nat)
    requires p <= pos && p < |s| && s[p] == c
    requires forall k :: p < k < |s| && k <= pos ==> s[k] != c
    ensures FindLastOf(s, c, pos) == Some(p)
  {
  }

  /** A suffix of the shape ".sbbt.ext": dots at 0 and 5 only. */
  predicate CompressedSuffix(suffix: string)
  {
    |suffix| > 6 && suffix[..6] == ".sbbt." && forall j :: 6 <= j < |suffix| ==> suffix[j] != '.'
  }

  /** Where the last two dots of a path ending in a compressed suffix are. */
  lemma CompressedDots(path: string, suffix: string)
    requires CompressedSuffix(suffix) && EndsWith(path, suffix)
    ensures FindLastOf(path, '.', |path|) == Some(|path| - |suffix| + 5)
    ensures FindLastOf(path, '.', |path| - |suffix| + 4) == Some(|path| - |suffix|)
  {
    var n := |path| - |suffix|;
    assert path[n..] == suffix;
    assert path[n + 5] == suffix[..6][5];
    assert path[n] == suffix[..6][0];
    forall k | n + 5 < k < |path|
      ensures path[k] != '.'
    {
      assert path[k] == suffix[k - n];
    }
    LastOfIs(path, '.', |path|, n + 5);
    forall k | n < k <= n + 4
      ensures path[k] != '.'
    {
      assert path[k] == suffix[..6][k - n];
    }
    LastOfIs(path, '.', n + 4, n);
  }

  /** A path ending in a format's suffix is classified as that format. */
  lemma ClassifySuffix(path: string, f: TraceFormat)
    requires EndsWith(path, Suffix(f)) && (f == Plain ==> |path| > 5)
    ensures Classify(path) == Ok(f)
  {
    var suffix := Suffix(f);
    var n := |path| - |suffix|;
    assert path[n..] == suffix;
    if f == Plain {
      assert path[n] == suffix[0];
      forall k | n < k < |path|
        ensures path[k] != '.'
      {
        assert path[k] == suffix[k - n];
      }
      LastOfIs(path, '.', |path|, n);
    } else {
      CompressedDots(path, suffix);
      assert path[n + 5..] != ".sbbt" by {
        assert |path[n + 5..]| == |suffix| - 5 && |suffix| != 10;
      }
    }
  }

  /** A classified path ends in its format's suffix. */
  lemma ClassifiedHasSuffix(path: string, f: TraceFormat)
    requires Classify(path) == Ok(f)
    ensures EndsWith(path, Suffix(f)) && (f == Plain ==> |path| > 5)
  {
    var lastDot := FindLastOf(path, '.', |path|).value;
    if f != Plain {
      var dot := FindLastOf(path, '.', lastDot - 1).value;
      assert path[dot..] == Suffix(f);
    }
  }

  /**
   * A path is accepted exactly when it ends in one of the five suffixes
   * (with something before a bare ".sbbt"), and the suffix picks the format.
   */
  lemma ClassifyBySuffix(path: string, f: TraceFormat)
    ensures Classify(path) == Ok(f) <==> EndsWith(path, Suffix(f)) && (f == Plain ==> |path| > 5)
  {
    if Classify(path) == Ok(f) {
      ClassifiedHasSuffix(path, f);
    }
    if EndsWith(path, Suffix(f)) && (f == Plain ==> |path| > 5) {
      ClassifySuffix(path, f);
    }
  }

  /** The writer's file names are exactly the paths read through zstd. */
  lemma WriterNamesReadAsZstd(path: string)
    ensures SbbtWriter.NameAccepted(path) <==> Classify(path) == Ok(Zstd)
  {
    ClassifyBySuffix(path, Zstd);
  }

  // ---------------------------------------------------------------------
  // Records

  /** The little-endian word of eight bytes. */
  function LeWord(b: seq<bv8>): bv64
    requires |b| == 8
  {
    (b[0] as bv64) | (b[1] as bv64 << 8) | (b[2] as bv64 << 16) | (b[3] as bv64 << 24)
    | (b[4] as bv64 << 32) | (b[5] as bv64 << 40) | (b[6] as bv64 << 48) | (b[7] as bv64 << 56)
  }

  /** One record read through the `SbbtBranch` bit fields. */
  datatype SbbtBranch = SbbtBranch(ninstr: bv64, ip: bv64, branchType: bv64, conditional: bool,
                                   direct: bool, outcome: bool, target: bv64)

  function Fields(w0: bv64, w1: bv64): (r: SbbtBranch)
    ensures r.ninstr <= 0xFFF && r.branchType <= 3
    ensures r.ip <= 0xF_FFFF_FFFF_FFFF && r.target <= 0xF_FFFF_FFFF_FFFF
  {
    SbbtBranch(w0 & 0xFFF, w0 >> 12, (w1 >> 7) & 3, (w1 >> 9) & 1 == 1,
               (w1 >> 10) & 1 == 1, (w1 >> 11) & 1 == 1, w1 >> 12)
  }

  /** The `Branch` built from a record: raw 52-bit addresses, opcode from the flags. */
  function ToBranch(s: SbbtBranch): (b: Branches.Branch)
    requires s.branchType <= 3
    ensures b.opcode < Branches.NUMBER
    ensures Branches.Type(b) as bv64 == s.branchType
    ensures Branches.IsConditional(b) <==> s.conditional
    ensures Branches.IsIndirect(b) <==> !s.direct
    ensures Branches.IsTaken(b) <==> s.outcome
    ensures b.ip == s.ip && b.target == s.target
  {
    var opcode := (s.branchType as bv32) | (if s.conditional then Branches.CND else 0)
                  | (if !s.direct then Branches.IND else 0);
    Branches.Branch(s.ip, s.target, opcode, if s.outcome then 1 else 0)
  }

  /** A decoded record: its instruction gap and branch. */
  datatype Decoded = Decoded(ninstr: nat, branch: Branches.Branch)

  function DecodeRecord(b: seq<bv8>): (r: Decoded)
    requires |b| == SIZEOF_SBBT_BRANCH
    ensures r.ninstr <= 0xFFF && r.branch.opcode < Branches.NUMBER
  {
    var s := Fields(LeWord(b[..8]), LeWord(b[8..]));
    Decoded(s.ninstr as nat, ToBranch(s))
  }

  /** The consecutive 16-byte groups of a byte stream, a trailing partial group dropped. */
  function Groups(bytes: seq<bv8>): (r: seq<seq<bv8>>)
    ensures |r| == |bytes| / SIZEOF_SBBT_BRANCH
    ensures forall k :: 0 <= k < |r| ==> |r[k]| == SIZEOF_SBBT_BRANCH
  {
    if |bytes| < SIZEOF_SBBT_BRANCH then []
    else [bytes[..SIZEOF_SBBT_BRANCH]] + Groups(bytes[SIZEOF_SBBT_BRANCH..])
  }

  /** The k-th group is bytes 16k to 16k+15. */
  lemma {:induction false} GroupsAt(bytes: seq<bv8>, k: nat)
    requires k < |bytes| / SIZEOF_SBBT_BRANCH
    ensures 16 * k + 16 <= |bytes|
    ensures Groups(bytes)[k] == bytes[16 * k..16 * k + 16]
  {
    if k > 0 {
      var rest := bytes[16..];
      GroupsAt(rest, k - 1);
      assert Groups(bytes)[k] == Groups(rest)[k - 1];
      assert rest[16 * (k - 1)..16 * (k - 1) + 16] == bytes[16 * k..16 * k + 16];
    }
  }

  /** The records of a byte stream, in order. */
  function Records(bytes: seq<bv8>): (r: seq<Decoded>)
    ensures |r| == |bytes| / SIZEOF_SBBT_BRANCH
  {
    var g := Groups(bytes);
    seq(|g|, k requires 0 <= k < |g| => DecodeRecord(g[k]))
  }

  /** The k-th record is the decoding of bytes 16k to 16k+15. */
  lemma RecordsAt(bytes: seq<bv8>, k: nat)
    requires k < |bytes| / SIZEOF_SBBT_BRANCH
    ensures 16 * k + 16 <= |bytes|
    ensures Records(bytes)[k] == DecodeRecord(bytes[16 * k..16 * k + 16])
  {
    GroupsAt(bytes, k);
  }

  // ---------------------------------------------------------------------
  // Reading

  datatype Chunk = Chunk(bytes: seq<bv8>, error: bool)

  /** Every read returns at most `READ_SIZE` bytes. */
  predicate ChunksFit(chunks: seq<Chunk>)
  {
    forall k :: 0 <= k < |chunks| ==> |chunks[k].bytes| <= READ_SIZE
  }

  /** The bytes of the first `n` chunks. */
  function Fed(chunks: seq<Chunk>, n: nat): (r: seq<bv8>)
    requires n <= |chunks|
  {
    if n == 0 then [] else Fed(chunks, n - 1) + chunks[n - 1].bytes
  }

  /** The reader: buffer, live window, running instruction count, chunks read so far. */
  datatype Reader = Reader(buffer: seq<bv8>, bufferStart: nat, bufferEnd: nat, instrCtr: int,
                           readCount: nat, consumed: nat)

  /**
   * The unconsumed bytes of the stream read so far are exactly the live
   * window, and `consumed` counts whole records.
   */
  predicate Valid(r: Reader, chunks: seq<Chunk>)
  {
    |r.buffer| == BUFFER_LEN && r.bufferStart <= r.bufferEnd <= BUFFER_LEN
    && r.readCount <= |chunks| && r.consumed % SIZEOF_SBBT_BRANCH == 0
    && r.consumed <= |Fed(chunks, r.readCount)|
    && r.buffer[r.bufferStart..r.bufferEnd] == Fed(chunks, r.readCount)[r.consumed..]
  }

  function NewReader(): (r: Reader)
    ensures forall chunks: seq<Chunk> :: Valid(r, chunks)
    ensures r.instrCtr == 0
  {
    Reader(seq(BUFFER_LEN, _ => 0), 0, 0, 0, 0, 0)
  }

  /** `feof` on the stream: every chunk has been read. */
  predicate AtEof(r: Reader, chunks: seq<Chunk>)
  {
    r.readCount >= |chunks|
  }

  /** `eof()`: fewer than 16 bytes left and the stream at its end. */
  predicate Eof(r: Reader, chunks: seq<Chunk>)
  {
    r.bufferEnd - r.bufferStart < SIZEOF_SBBT_BRANCH && AtEof(r, chunks)
  }

  /** The outcome of `nextBranch`: the new reader and the branch with its instruction number, or the end. */
  datatype Next = Next(r: Reader, result: Result<NextBranch, ReaderError>)
  datatype NextBranch = Branch(instrNum: int, branch: Branches.Branch) | End

  /** Moves the live window to the front of the buffer. */
  method Compact(r: Reader, ghost chunks: seq<Chunk>) returns (c: Reader)
    requires Valid(r, chunks)
    ensures Valid(c, chunks) && c.bufferStart == 0 && c.bufferEnd == r.bufferEnd - r.bufferStart
    ensures c.instrCtr == r.instrCtr && c.readCount == r.readCount && c.consumed == r.consumed
  {
    var buf := r.buffer;
    var i := r.bufferStart;
    while i < r.bufferEnd
      invariant r.bufferStart <= i <= r.bufferEnd
      invariant |buf| == BUFFER_LEN
      invariant buf[..i - r.bufferStart] == r.buffer[r.bufferStart..i]
      invariant buf[i..r.bufferEnd] == r.buffer[i..r.bufferEnd]
    {
      buf := buf[i - r.bufferStart := buf[i]];
      i := i + 1;
    }
    c := r.(buffer := buf, bufferStart := 0, bufferEnd := r.bufferEnd - r.bufferStart);
    assert c.buffer[c.bufferStart..c.bufferEnd] == r.buffer[r.bufferStart..r.bufferEnd];
  }

  /** `fread` of the next chunk into the buffer after the live window. */
  function ReadChunk(r: Reader, chunks: seq<Chunk>): (c: Reader)
    requires Valid(r, chunks) && ChunksFit(chunks) && !AtEof(r, chunks)
    requires r.bufferEnd < SIZEOF_SBBT_BRANCH
    ensures Valid(c, chunks) && c.readCount == r.readCount + 1
    ensures c.bufferStart == r.bufferStart && c.bufferEnd == r.bufferEnd + |chunks[r.readCount].bytes|
    ensures c.instrCtr == r.instrCtr && c.consumed == r.consumed
  {
    var bytes := chunks[r.readCount].bytes;
    var buf := r.buffer[..r.bufferEnd] + bytes + r.buffer[r.bufferEnd + |bytes|..];
    var c := r.(buffer := buf, bufferEnd := r.bufferEnd + |bytes|, readCount := r.readCount + 1);
    assert buf[r.bufferStart..r.bufferEnd] == r.buffer[r.bufferStart..r.bufferEnd];
    assert buf[r.bufferStart..c.bufferEnd] == buf[r.bufferStart..r.bufferEnd] + bytes;
    assert Fed(chunks, c.readCount) == Fed(chunks, r.readCount) + bytes;
    assert Fed(chunks, c.readCount)[r.consumed..] == Fed(chunks, r.readCount)[r.consumed..] + bytes;
    c
  }

  /** Every byte of the stream. */
  function AllBytes(chunks: seq<Chunk>): seq<bv8>
  {
    Fed(chunks, |chunks|)
  }

  /** The bytes read so far are a prefix of the whole stream. */
  lemma {:induction false} FedPrefix(chunks: seq<Chunk>, n: nat, m: nat)
    requires n <= m <= |chunks|
    ensures |Fed(chunks, n)| <= |Fed(chunks, m)|
    ensures Fed(chunks, m)[..|Fed(chunks, n)|] == Fed(chunks, n)
    decreases m
  {
    if n < m {
      FedPrefix(chunks, n, m - 1);
      assert Fed(chunks, m) == Fed(chunks, m - 1) + chunks[m - 1].bytes;
    }
  }

  /** The 16 bytes at `consumed` of the bytes read so far are record `consumed / 16` of the stream. */
  lemma RecordOfPrefix(chunks: seq<Chunk>, n: nat, consumed: nat, record: seq<bv8>)
    requires n <= |chunks| && consumed % 16 == 0 && consumed + 16 <= |Fed(chunks, n)|
    requires record == Fed(chunks, n)[consumed..consumed + 16]
    ensures consumed / 16 < |Records(AllBytes(chunks))|
    ensures |record| == 16 && Records(AllBytes(chunks))[consumed / 16] == DecodeRecord(record)
  {
    FedPrefix(chunks, n, |chunks|);
    var all := AllBytes(chunks);
    var k := consumed / 16;
    assert consumed == 16 * k;
    assert |all| == 16 * (|all| / 16) + |all| % 16;
    assert k < |all| / 16;
    assert all[consumed..consumed + 16] == Fed(chunks, n)[consumed..consumed + 16];
    RecordsAt(all, k);
  }

  /** How the refill loop of `nextBranch` ends. */
  datatype Refilled = Ready | Ended | Failed

  /**
   * The refill loop of `nextBranch`: while fewer than 16 bytes are live,
   * stop at end of stream, else compact and read the next chunk, throwing
   * if the read sets the error flag.
   */
  method Refill(r: Reader, chunks: seq<Chunk>) returns (c: Reader, status: Refilled)
    requires Valid(r, chunks) && ChunksFit(chunks)
    ensures Valid(c, chunks) && c.instrCtr == r.instrCtr && c.consumed == r.consumed
    ensures c.readCount >= r.readCount
    ensures status == Ready ==> c.bufferEnd - c.bufferStart >= SIZEOF_SBBT_BRANCH
    ensures status == Ended ==> Eof(c, chunks) && |AllBytes(chunks)| < c.consumed + SIZEOF_SBBT_BRANCH
    ensures status == Failed ==> c.readCount > 0 && chunks[c.readCount - 1].error
    ensures c.readCount == r.readCount || |Fed(chunks, c.readCount - 1)| < c.consumed + SIZEOF_SBBT_BRANCH
  {
    c := r;
    while c.bufferEnd - c.bufferStart < SIZEOF_SBBT_BRANCH
      invariant Valid(c, chunks) && c.instrCtr == r.instrCtr && c.consumed == r.consumed
      invariant c.readCount >= r.readCount
      invariant c.readCount == r.readCount || |Fed(chunks, c.readCount - 1)| < c.consumed + SIZEOF_SBBT_BRANCH
      decreases |chunks| - c.readCount
    {
      if AtEof(c, chunks) {
        return c, Ended;
      }
      assert c.bufferEnd - c.bufferStart == |Fed(chunks, c.readCount)| - c.consumed;
      c := Compact(c, chunks);
      var err := chunks[c.readCount].error;
      c := ReadChunk(c, chunks);
      if err {
        return c, Failed;
      }
    }
    status := Ready;
  }

  /** The 16 live bytes at `bufferStart` are the stream's bytes at `consumed`, and the rest stays live. */
  lemma LiveRecord(r: Reader, chunks: seq<Chunk>)
    requires Valid(r, chunks) && r.bufferEnd - r.bufferStart >= SIZEOF_SBBT_BRANCH
    ensures r.consumed + 16 <= |Fed(chunks, r.readCount)|
    ensures r.buffer[r.bufferStart..r.bufferStart + 16] == Fed(chunks, r.readCount)[r.consumed..r.consumed + 16]
    ensures r.buffer[r.bufferStart + 16..r.bufferEnd] == Fed(chunks, r.readCount)[r.consumed + 16..]
  {
    var fed := Fed(chunks, r.readCount);
    assert r.buffer[r.bufferStart..r.bufferStart + 16] == fed[r.consumed..][..16];
    assert r.buffer[r.bufferStart + 16..r.bufferEnd] == fed[r.consumed..][16..];
  }

  lemma NextRecordIndex(consumed: nat)
    requires consumed % 16 == 0
    ensures (consumed + 16) % 16 == 0 && (consumed + 16) / 16 == consumed / 16 + 1
  {
  }

  /** Decodes the record at `bufferStart` and adds its gap to the instruction counter. */
  function Take(r: Reader, chunks: seq<Chunk>): (res: (Reader, Decoded))
    requires Valid(r, chunks) && r.bufferEnd - r.bufferStart >= SIZEOF_SBBT_BRANCH
    ensures Valid(res.0, chunks) && res.0.readCount == r.readCount
    ensures res.0.consumed == r.consumed + SIZEOF_SBBT_BRANCH
    ensures r.consumed / 16 < |Records(AllBytes(chunks))|
    ensures res.1 == Records(AllBytes(chunks))[r.consumed / 16]
    ensures res.0.instrCtr == r.instrCtr + res.1.ninstr
  {
    LiveRecord(r, chunks);
    NextRecordIndex(r.consumed);
    var record := r.buffer[r.bufferStart..r.bufferStart + 16];
    RecordOfPrefix(chunks, r.readCount, r.consumed, record);
    var d := DecodeRecord(record);
    (r.(bufferStart := r.bufferStart + 16, instrCtr := r.instrCtr + d.ninstr, consumed := r.consumed + 16), d)
  }

  /**
   * `nextBranch`: the next record of the stream with its instruction
   * number, the running sum of the gaps; `INT64_MAX` once fewer than 16
   * bytes remain at the end of the stream.
   */
  method NextBranchOf(r: Reader, chunks: seq<Chunk>) returns (n: Next)
    requires Valid(r, chunks) && ChunksFit(chunks)
    ensures Valid(n.r, chunks) && n.r.readCount >= r.readCount
    ensures n.result == Ok(End) ==>
      n.r.instrCtr == r.instrCtr && n.r.consumed == r.consumed && Eof(n.r, chunks)
      && r.consumed / 16 == |Records(AllBytes(chunks))|
    ensures n.result.Ok? && n.result.value.Branch? ==>
      n.r.consumed == r.consumed + 16 && r.consumed / 16 < |Records(AllBytes(chunks))|
      && n.result.value.branch == Records(AllBytes(chunks))[r.consumed / 16].branch
      && n.result.value.instrNum == n.r.instrCtr
      && n.r.instrCtr == r.instrCtr + Records(AllBytes(chunks))[r.consumed / 16].ninstr
      && (n.r.readCount == r.readCount || |Fed(chunks, n.r.readCount - 1)| < n.r.consumed)
    ensures n.result.Err? ==> n.result.error == IoError && n.r.consumed == r.consumed
  {
    var c, status := Refill(r, chunks);
    if status == Ended {
      FedPrefix(chunks, c.readCount, |chunks|);
      return Next(c, Ok(End));
    }
    if status == Failed {
      return Next(c, Err(IoError));
    }
    var t := Take(c, chunks);
    n := Next(t.0, Ok(Branch(t.0.instrCtr, t.1.branch)));
  }

  /**
   * The reader fetched no chunk it did not need: it reads only while fewer
   * than 16 bytes are live, so every chunk before the last one read ends
   * before the bytes consumed so far do.
   */
  predicate ReadsNeeded(r: Reader, chunks: seq<Chunk>)
  {
    r.readCount == 0 || (r.readCount <= |chunks| && |Fed(chunks, r.readCount - 1)| < r.consumed)
  }

  /**
   * `eof()` right after record `k` was taken: it holds exactly when that
   * was the last whole record and the read that delivered its final byte
   * was the stream's last one, so `feof` is already set.
   */
  lemma EofAfterRecord(r: Reader, chunks: seq<Chunk>, k: nat)
    requires Valid(r, chunks) && ReadsNeeded(r, chunks) && r.consumed == 16 * (k + 1)
    ensures var recs := Records(AllBytes(chunks));
      Eof(r, chunks) <==> k + 1 == |recs| && 0 < |chunks| && |Fed(chunks, |chunks| - 1)| < r.consumed
  {
    var all := AllBytes(chunks);
    var n := |chunks|;
    assert r.bufferEnd - r.bufferStart == |Fed(chunks, r.readCount)| - r.consumed;
    FedPrefix(chunks, r.readCount, n);
    if r.readCount == n {
      assert 0 < n;
    } else if 0 < n {
      FedPrefix(chunks, r.readCount, n - 1);
    }
    if Eof(r, chunks) {
      Bits.ModUnique(|all|, 16, k + 1, |all| - 16 * (k + 1));
    }
  }

  /** The sum of the gaps of the first `n` records: the instruction number of record `n - 1`. */
  function GapSum(recs: seq<Decoded>, n: nat): int
    requires n <= |recs|
  {
    if n == 0 then 0 else GapSum(recs, n - 1) + recs[n - 1].ninstr
  }

  /** Instruction numbers never decrease along the trace. */
  lemma {:induction false} GapSumMonotone(recs: seq<Decoded>, i: nat, j: nat)
    requires i <= j <= |recs|
    ensures GapSum(recs, i) <= GapSum(recs, j)
    decreases j
  {
    if i < j {
      GapSumMonotone(recs, i, j - 1);
    }
  }

  lemma RecordIndex(k: nat)
    ensures (16 * k) / 16 == k
  {
  }

  /** `lastInstrRead()`. */
  function LastInstrRead(r: Reader): int
  {
    r.instrCtr
  }

  /** A branch returned by `nextBranch` with its instruction number. */
  datatype Numbered = Numbered(instrNum: int, branch: Branches.Branch)

  /** Appending the next record, numbered with the next running sum, keeps the numbering. */
  lemma ReadStep(recs: seq<Decoded>, out: seq<Numbered>, instrCtr: int, next: Numbered)
    requires |out| < |recs| && instrCtr == GapSum(recs, |out|)
    requires forall k :: 0 <= k < |out| ==>
      out[k].branch == recs[k].branch && out[k].instrNum == GapSum(recs, k + 1)
    requires next.branch == recs[|out|].branch && next.instrNum == instrCtr + recs[|out|].ninstr
    ensures next.instrNum == GapSum(recs, |out| + 1)
    ensures forall k :: 0 <= k < |out| + 1 ==>
      (out + [next])[k].branch == recs[k].branch && (out + [next])[k].instrNum == GapSum(recs, k + 1)
  {
  }

  /**
   * Calls `nextBranch` on a fresh reader until it returns `INT64_MAX` or
   * throws. Whatever the chunking, the branches are the stream's records in
   * order, each numbered with the running sum of the gaps, and a trailing
   * partial record is never returned.
   */
  method ReadAll(chunks: seq<Chunk>) returns (out: seq<Numbered>, failed: bool)
    requires ChunksFit(chunks)
    ensures |out| <= |Records(AllBytes(chunks))|
    ensures !failed ==> |out| == |Records(AllBytes(chunks))| == |AllBytes(chunks)| / 16
    ensures forall k :: 0 <= k < |out| ==>
      out[k].branch == Records(AllBytes(chunks))[k].branch
      && out[k].instrNum == GapSum(Records(AllBytes(chunks)), k + 1)
  {
    ghost var recs := Records(AllBytes(chunks));
    var r := NewReader();
    out := [];
    while true
      invariant Valid(r, chunks) && r.consumed == 16 * |out| && |out| <= |recs|
      invariant r.instrCtr == GapSum(recs, |out|)
      invariant forall k :: 0 <= k < |out| ==>
        out[k].branch == recs[k].branch && out[k].instrNum == GapSum(recs, k + 1)
      decreases |recs| - |out|
    {
      RecordIndex(|out|);
      var n := NextBranchOf(r, chunks);
      match n.result {
        case Err(_) =>
          return out, true;
        case Ok(End) =>
          return out, false;
        case Ok(Branch(instrNum, b)) =>
          ReadStep(recs, out, r.instrCtr, Numbered(instrNum, b));
          out := out + [Numbered(instrNum, b)];
          r := n.r;
      }
    }
  }
}
