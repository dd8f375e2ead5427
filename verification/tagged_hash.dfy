/**
 * `computeEntriesAndTags`, shared by TAGE and BATAGE: table `i` is indexed
 * by the address without its two low bits, folded to `idxWidth` bits and
 * XOR-ed with the table's index fold, and tagged by the address shifted
 * left by the excess of the tag width over the index width, folded to
 * `tagWidth` bits and XOR-ed with the table's tag fold.
 *
 * The shift amount is written `std::max(tagWidth - idxWidth, 0u)` on
 * unsigned operands: when the tag is narrower than the index the
 * subtraction wraps, the maximum never applies, and the shift of a 64-bit
 * address by more than 63 places is undefined. `TagShiftAsWritten` records
 * that; the tag hash uses the evidently intended `TagShift`, which is 0 in
 * that case.
 */
module TaggedHashes {
  import opened Bits
  import opened Indexing
  import Arithmetic

  /** `XorFold(ip >> 2, idxWidth) ^ idxFold.fold()`: an index into a table of 2^idxWidth entries. */
  function IndexHash(ip: bv64, iw: nat, fold: Word): (k: nat)
    requires iw <= 32 && Fits(fold, iw)
    ensures k < Pow2(iw)
  {
    FitsXor(XorFold(Shr(OfBv(ip), 2), iw), fold, iw);
    ValueFits(Xor(XorFold(Shr(OfBv(ip), 2), iw), fold), iw);
    Value(Xor(XorFold(Shr(OfBv(ip), 2), iw), fold))
  }

  /** `std::max(tagWidth - idxWidth, 0u)` evaluated in 32-bit unsigned arithmetic. */
  function TagShiftAsWritten(tw: nat, iw: nat): (r: nat)
    requires Arithmetic.IsU32(tw) && Arithmetic.IsU32(iw)
    ensures Arithmetic.IsU32(r)
    ensures tw >= iw ==> r == tw - iw
  {
    Arithmetic.Max((tw - iw) % Arithmetic.U32, 0)
  }

  /**
   * When the tag is narrower than the index, the written shift amount is
   * `2^32 - (idxWidth - tagWidth)`, far beyond the 63 places a shift of a
   * 64-bit value may take.
   */
  lemma TagShiftAsWrittenWraps(tw: nat, iw: nat)
    requires tw < iw <= 64
    ensures TagShiftAsWritten(tw, iw) == Arithmetic.U32 - (iw - tw)
    ensures TagShiftAsWritten(tw, iw) >= 64
  {
    ModUnique(tw - iw, Arithmetic.U32, -1, Arithmetic.U32 + tw - iw);
  }

  /** A table of 2^10 entries with 7-bit tags gets a shift of 4294967293 places. */
  lemma NarrowTagShift()
    ensures TagShiftAsWritten(7, 10) == 4294967293
  {
    TagShiftAsWrittenWraps(7, 10);
  }

  /** The shift the maximum is evidently meant to compute: the excess of the tag width, or 0. */
  function TagShift(tw: nat, iw: nat): (r: nat)
    ensures r <= tw
    ensures tw < iw ==> r == 0
  {
    if tw >= iw then tw - iw else 0
  }

  /**
   * For index widths a 64-bit address can supply, the written shift is a
   * valid shift amount only when the tag is at least as wide as the index,
   * and then it is the intended one.
   */
  lemma TagShiftAgrees(tw: nat, iw: nat)
    requires Arithmetic.IsU32(tw) && iw <= 64
    ensures TagShiftAsWritten(tw, iw) < 64 <==> tw >= iw && tw - iw < 64
    ensures TagShiftAsWritten(tw, iw) < 64 ==> TagShift(tw, iw) == TagShiftAsWritten(tw, iw)
  {
    if tw < iw {
      TagShiftAsWrittenWraps(tw, iw);
    }
  }

  /** `XorFold(ip << shift, tagWidth) ^ tagFold.fold()`: a tag of `tagWidth` bits. */
  function TagHash(ip: bv64, tw: nat, iw: nat, fold: Word): (t: nat)
    requires tw <= 32 && Fits(fold, tw)
    ensures t < Pow2(tw)
  {
    var folded := XorFold(Shl(OfBv(ip), TagShift(tw, iw)), tw);
    FitsXor(folded, fold, tw);
    ValueFits(Xor(folded, fold), tw);
    Value(Xor(folded, fold))
  }

  /** A table without tag bits tags every address 0. */
  lemma NoTagBits(ip: bv64, iw: nat, fold: Word)
    requires Fits(fold, 0)
    ensures TagHash(ip, 0, iw, fold) == 0
  {
    ValueFits(Xor(XorFold(Shl(OfBv(ip), TagShift(0, iw)), 0), fold), 0);
  }
}
