/**
 * The SSE2 integer intrinsics the JIT state code uses, on vectors of four
 * 32-bit lanes. Lane 0 is the least significant lane: the last argument of
 * _mm_set_epi32 and the lane _mm_cvtsi128_si32 returns.
 */
module Sse {
  datatype M128 = M128(e0: bv32, e1: bv32, e2: bv32, e3: bv32)

  /** _mm_set_epi32(e3, e2, e1, e0). */
  function SetEpi32(e3: bv32, e2: bv32, e1: bv32, e0: bv32): M128
  {
    M128(e0, e1, e2, e3)
  }

  /** _mm_set1_epi32. */
  function Set1Epi32(x: bv32): M128
  {
    M128(x, x, x, x)
  }

  /** _mm_and_si128. */
  function And(a: M128, b: M128): M128
  {
    M128(a.e0 & b.e0, a.e1 & b.e1, a.e2 & b.e2, a.e3 & b.e3)
  }

  /** _mm_or_si128. */
  function Or(a: M128, b: M128): M128
  {
    M128(a.e0 | b.e0, a.e1 | b.e1, a.e2 | b.e2, a.e3 | b.e3)
  }

  /** _mm_srli_epi32 with a shift below 32. */
  function Srli(a: M128, k: bv32): M128
    requires k < 32
  {
    M128(a.e0 >> k, a.e1 >> k, a.e2 >> k, a.e3 >> k)
  }

  /** _mm_slli_epi32 with a shift below 32. */
  function Slli(a: M128, k: bv32): M128
    requires k < 32
  {
    M128(a.e0 << k, a.e1 << k, a.e2 << k, a.e3 << k)
  }

  /** _mm_shuffle_epi32(a, _MM_SHUFFLE(0, 0, 0, 0)): lane 0 in every lane. */
  function Broadcast0(a: M128): M128
  {
    M128(a.e0, a.e0, a.e0, a.e0)
  }

  /** _mm_cvtsi128_si32. */
  function Cvtsi128Si32(a: M128): bv32
  {
    a.e0
  }
}
