/**
 * Width-parameterised saturating helpers on 32-bit registers. Unsigned
 * arithmetic wraps modulo 2^32 and is written out as such; the signed
 * helpers require what C++ requires of `int32_t` arithmetic and shifts
 * (no overflow, shift amounts inside the type), and nothing more.
 */
module Arithmetic {
  import opened Bits

  const U32: nat := 0x1_0000_0000
  const I32Min: int := -0x8000_0000
  const I32Max: int := 0x7FFF_FFFF

  predicate IsU32(x: int)
  {
    0 <= x < U32
  }

  predicate IsI32(x: int)
  {
    I32Min <= x <= I32Max
  }

  /** The largest unsigned `width`-bit value, `(1 << width) - 1`. */
  function UMaxOf(width: nat): nat
  {
    Pow2(width) - 1
  }

  /** `(int32_t{1} << (width - 1)) - 1` and its negated partner. */
  function IMaxOf(width: nat): int
    requires width >= 1
  {
    Pow2(width - 1) - 1
  }

  function IMinOf(width: nat): int
    requires width >= 1
  {
    0 - Pow2(width - 1)
  }

  function Min(a: int, b: int): int
  {
    if a <= b then a else b
  }

  function Max(a: int, b: int): int
  {
    if a >= b then a else b
  }

  // ---------------------------------------------------------------------
  // Unsigned

  /** `u32_sadd`: the 32-bit sum, capped at the largest `width`-bit value. */
  function U32Sadd(reg: nat, val: nat, width: nat): (r: nat)
    requires IsU32(reg) && IsU32(val) && width < 32
    ensures r <= UMaxOf(width)
    ensures reg + val < U32 ==> r == Min(reg + val, UMaxOf(width))
  {
    Min((reg + val) % U32, UMaxOf(width))
  }

  /** `u32_ssub`: subtraction that stops at 0 instead of wrapping. */
  function U32Ssub(reg: nat, val: nat): (r: nat)
    requires IsU32(reg) && IsU32(val)
    ensures IsU32(r) && r <= reg
    ensures val <= reg ==> r + val == reg
    ensures val >= reg ==> r == 0
  {
    reg - Min(reg, val)
  }

  /** `u32_supd`: one saturating step up when `dir`, else one step down. */
  function U32Supd(reg: nat, dir: bool, width: nat): (r: nat)
    requires IsU32(reg) && width < 32
    ensures r <= Max(reg, UMaxOf(width))
  {
    if dir then U32Sadd(reg, 1, width) else U32Ssub(reg, 1)
  }

  /**
   * On a register holding a `width`-bit value, `u32_supd` moves one step
   * toward `dir`, stopping at 0 and at 2^width - 1.
   */
  lemma U32SupdStep(reg: nat, dir: bool, width: nat)
    requires width < 32 && reg <= UMaxOf(width)
    ensures IsU32(reg)
    ensures U32Supd(reg, dir, width) <= UMaxOf(width)
    ensures dir ==> U32Supd(reg, dir, width) == Min(reg + 1, UMaxOf(width))
    ensures !dir ==> U32Supd(reg, dir, width) == Max(reg - 1, 0)
  {
    Pow2Monotone(width, 31);
    Pow2Facts();
  }

  // ---------------------------------------------------------------------
  // Signed

  /** `i32_sadd`: the sum, capped at the largest signed `width`-bit value. */
  function I32Sadd(reg: int, val: int, width: nat): (r: int)
    requires IsI32(reg) && val >= 0 && IsI32(reg + val) && 1 <= width < 32
    ensures r <= IMaxOf(width) && r <= reg + val
    ensures reg <= r || reg > IMaxOf(width)
    ensures reg + val <= IMaxOf(width) ==> r == reg + val
    ensures reg + val > IMaxOf(width) ==> r == IMaxOf(width)
  {
    Min(reg + val, IMaxOf(width))
  }

  /** `i32_ssub`: the difference, floored at the smallest signed `width`-bit value. */
  function I32Ssub(reg: int, val: int, width: nat): (r: int)
    requires IsI32(reg) && val >= 0 && IsI32(reg - val) && 1 <= width < 32
    ensures r >= IMinOf(width) && r >= reg - val
    ensures r <= reg || reg < IMinOf(width)
    ensures reg - val >= IMinOf(width) ==> r == reg - val
    ensures reg - val < IMinOf(width) ==> r == IMinOf(width)
  {
    Max(reg - val, IMinOf(width))
  }

  /** `i32_supd`: one saturating step up when `dir`, else one step down. */
  function I32Supd(reg: int, dir: bool, width: nat): (r: int)
    requires IsI32(reg) && IsI32(reg + 1) && IsI32(reg - 1) && 1 <= width < 32
    ensures dir ==> r <= reg + 1 && r <= IMaxOf(width)
    ensures !dir ==> r >= reg - 1 && r >= IMinOf(width)
  {
    if dir then I32Sadd(reg, 1, width) else I32Ssub(reg, 1, width)
  }

  /** A signed `width`-bit value is in range for the 32-bit helpers. */
  lemma SignedInI32(reg: int, width: nat)
    requires 1 <= width < 32 && IMinOf(width) <= reg <= IMaxOf(width)
    ensures IsI32(reg) && IsI32(reg + 1) && IsI32(reg - 1)
  {
    Pow2Monotone(width - 1, 30);
    Pow2Facts();
  }

  /**
   * `i32_supd` maps a signed `width`-bit value to a signed `width`-bit value
   * one step toward `dir`, saturating at either end.
   */
  lemma I32SupdStep(reg: int, dir: bool, width: nat)
    requires 1 <= width < 32 && IMinOf(width) <= reg <= IMaxOf(width)
    ensures IsI32(reg) && IsI32(reg + 1) && IsI32(reg - 1)
    ensures IMinOf(width) <= I32Supd(reg, dir, width) <= IMaxOf(width)
    ensures dir ==> I32Supd(reg, dir, width) == Min(reg + 1, IMaxOf(width))
    ensures !dir ==> I32Supd(reg, dir, width) == Max(reg - 1, IMinOf(width))
  {
    SignedInI32(reg, width);
  }

  // ---------------------------------------------------------------------
  // Shifts

  /** `u32_sll`: shift left in 32 bits, then keep the low `width` bits. */
  function U32Sll(reg: nat, amm: nat, width: nat): (r: nat)
    requires IsU32(reg) && amm < 32 && width < 32
    ensures r < Pow2(width)
  {
    ((reg * Pow2(amm)) % U32) % Pow2(width)
  }

  /** Reducing modulo a multiple of `a` and then modulo `a` is reducing modulo `a`. */
  lemma ModOfMod(x: nat, a: nat, b: nat)
    requires a > 0 && b > 0
    ensures (x % (a * b)) % a == x % a
  {
    MulNonNeg(a, b);
    var q := x / (a * b);
    var r := x % (a * b);
    var q2 := r / a;
    var r2 := r % a;
    assert r == q2 * a + r2;
    assert x == q * (a * b) + r;
    assert x == (q * b + q2) * a + r2;
    ModUnique(x, a, q * b + q2, r2);
  }

  /** `u32_sll` computes reg * 2^amm modulo 2^width: the 32-bit wrap is invisible. */
  lemma U32SllIsProductMod(reg: nat, amm: nat, width: nat)
    requires IsU32(reg) && amm < 32 && width < 32
    ensures U32Sll(reg, amm, width) == (reg * Pow2(amm)) % Pow2(width)
  {
    Pow2Facts();
    Pow2Add(width, 32 - width);
    var x := reg * Pow2(amm);
    MulNonNeg(reg, Pow2(amm));
    ModOfMod(x, Pow2(width), Pow2(32 - width));
  }

  /**
   * `u32_csll`: shift left in 32 bits, fold back the bits pushed past
   * `width`, keep the low `width` bits.
   */
  function U32Csll(reg: Word32, amm: nat, width: nat): (r: Word32)
    requires amm < 32 && width < 32
    ensures Fits(r, width)
  {
    var shifted := Shl(reg, amm);
    var folded := Xor(shifted, Shr(shifted, width));
    MaskFits(folded, width);
    And(folded, Mask(32, width))
  }

  /**
   * On a `width`-bit value, `u32_csll` by at most `width` places is a left
   * rotation within those `width` bits.
   */
  lemma U32CsllRotates(reg: Word32, amm: nat, width: nat)
    requires amm <= width && width + amm <= 32 && width < 32 && Fits(reg, width)
    ensures forall j :: 0 <= j < width ==>
      U32Csll(reg, amm, width)[j] == (if j >= amm then reg[j - amm] else reg[j + width - amm])
  {
    var shifted := Shl(reg, amm);
    var folded := Xor(shifted, Shr(shifted, width));
    forall j | 0 <= j < width
      ensures folded[j] == (if j >= amm then reg[j - amm] else reg[j + width - amm])
    {
      assert folded[j] == (shifted[j] != At(shifted, j + width));
      assert shifted[j] == At(reg, j - amm);
      if j + width < 32 {
        assert shifted[j + width] == At(reg, j + width - amm);
      }
    }
  }

  // ---------------------------------------------------------------------
  // Biased conversions

  /** The bias `1 << (width - 1)`, or 0 for width 0. */
  function Bias(width: nat): nat
  {
    if width > 0 then Pow2(width - 1) else 0
  }

  /** `static_cast<int32_t>` of a 32-bit unsigned value: two's complement reading. */
  function AsI32(x: nat): (r: int)
    requires IsU32(x)
    ensures IsI32(r) && (r - x) % U32 == 0
  {
    if x <= I32Max then x else x - U32
  }

  /** `static_cast<uint32_t>` of a signed value: reduction modulo 2^32. */
  function AsU32(x: int): (r: nat)
    ensures IsU32(r) && (r - x) % U32 == 0
  {
    x % U32
  }

  /** `u32_to_i32`: the register read as a signed value with the bias removed. */
  function U32ToI32(reg: nat, width: nat): (r: int)
    requires IsU32(reg) && width < 32 && IsI32(AsI32(reg) - Bias(width))
    ensures IsI32(r)
  {
    AsI32(reg) - Bias(width)
  }

  /** `i32_to_u32`: the signed value with the bias added, as an unsigned register. */
  function I32ToU32(reg: int, width: nat): (r: nat)
    requires IsI32(reg) && width < 32 && IsI32(reg + Bias(width))
    ensures IsU32(r)
  {
    AsU32(reg + Bias(width))
  }

  lemma BiasSmall(width: nat)
    requires width < 32
    ensures Bias(width) <= 0x4000_0000
  {
    if width > 0 {
      Pow2Monotone(width - 1, 30);
      Pow2Facts();
    }
  }

  /** Converting a `width`-bit register to signed and back gives the register. */
  lemma U32ToI32RoundTrip(reg: nat, width: nat)
    requires 0 < width < 32 && reg < Pow2(width)
    ensures IsU32(reg) && IsI32(AsI32(reg) - Bias(width))
    ensures IsI32(U32ToI32(reg, width)) && IsI32(U32ToI32(reg, width) + Bias(width))
    ensures I32ToU32(U32ToI32(reg, width), width) == reg
  {
    Pow2Monotone(width, 31);
    Pow2Facts();
    BiasSmall(width);
  }

  /** Converting a signed `width`-bit value to unsigned and back gives the value. */
  lemma I32ToU32RoundTrip(x: int, width: nat)
    requires 0 < width < 32 && IMinOf(width) <= x <= IMaxOf(width)
    ensures IsI32(x) && IsI32(x + Bias(width))
    ensures IsU32(I32ToU32(x, width)) && IsI32(AsI32(I32ToU32(x, width)) - Bias(width))
    ensures U32ToI32(I32ToU32(x, width), width) == x
  {
    SignedInI32(x, width);
    BiasSmall(width);
    Pow2Monotone(width, 31);
    Pow2Facts();
  }
}
