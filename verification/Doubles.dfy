/**
 Binary64 arithmetic as far as the client needs it: numbers with a 53-bit significand, and operations that round to
 a nearest one (section 4.3.1 of IEEE 754-2019).  The exponent range is left unbounded.
 */
module Doubles {
  import opened Bytes

  const SIGNIFICAND_LIMIT := 0x20_0000_0000_0000

  function Pow2(k: nat): (p: nat)
    ensures p > 0
  {
    if k == 0 then 1 else 2 * Pow2(k - 1)
  }

  predicate Dyadic(x: real, m: int, k: nat) {
    -SIGNIFICAND_LIMIT < m < SIGNIFICAND_LIMIT && (x == (m * Pow2(k)) as real || x * Pow2(k) as real == m as real)
  }

  ghost predicate Representable(x: real) {
    exists m: int, k: nat :: Dyadic(x, m, k)
  }

  function Distance(a: real, b: real): real { if a < b then b - a else a - b }

  ghost predicate Nearest(q: real, x: real) {
    Representable(q) && forall r :: Representable(r) ==> Distance(q, x) <= Distance(r, x)
  }

  ghost predicate RoundsToNearest(round: real -> real) {
    forall x :: Nearest(round(x), x)
  }

  /** `as u64`: truncates, and saturates at both ends. */
  function CastU64(x: real): (r: u64)
    ensures x < 0.0 ==> r == 0
    ensures 0.0 <= x < 0x1_0000_0000_0000_0000 as real ==> r as real <= x < r as real + 1.0
    ensures x >= 0x1_0000_0000_0000_0000 as real ==> r == 0x1_0000_0000_0000_0000 - 1
  {
    if x < 0.0 then 0 else if x.Floor >= 0x1_0000_0000_0000_0000 then 0xFFFF_FFFF_FFFF_FFFF else x.Floor
  }

  /** `as u32`, likewise. */
  function CastU32(x: real): (r: u32)
    ensures x < 0.0 ==> r == 0
    ensures 0.0 <= x < 0x1_0000_0000 as real ==> r as real <= x < r as real + 1.0
    ensures x >= 0x1_0000_0000 as real ==> r == 0x1_0000_0000 - 1
  {
    if x < 0.0 then 0 else if x.Floor >= 0x1_0000_0000 then 0xFFFF_FFFF else x.Floor
  }

  /** What needs no rounding is not rounded. */
  lemma RoundsExactly(round: real -> real, x: real)
    requires RoundsToNearest(round) && Representable(x)
    ensures round(x) == x
  {
    assert Nearest(round(x), x);
  }
}
