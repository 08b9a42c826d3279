/**
 * Fixed-width integer types and the bit-level operations the firmware uses,
 * written arithmetically: shifts are multiplications/divisions by powers of
 * two, masks with 2^k - 1 are remainders, and bitwise OR is `Or`.
 */
module Bits {

  type u8 = x: int | 0 <= x < 0x100
  type u16 = x: int | 0 <= x < 0x1_0000
  type u32 = x: int | 0 <= x < 0x1_0000_0000
  type i8 = x: int | -0x80 <= x < 0x80

  function Pow2(k: nat): (r: nat)
    ensures r >= 1
  {
    if k == 0 then 1 else 2 * Pow2(k - 1)
  }

  /** Bit `i` of `x`. */
  predicate BitSet(x: nat, i: nat)
    decreases i
  {
    if i == 0 then x % 2 == 1 else BitSet(x / 2, i - 1)
  }

  /** Bitwise OR, computed one bit at a time from the least significant end. */
  function Or(a: nat, b: nat): nat
    decreases a + b
  {
    if a == 0 then b
    else if b == 0 then a
    else (if a % 2 == 1 || b % 2 == 1 then 1 else 0) + 2 * Or(a / 2, b / 2)
  }

  lemma {:induction false} ZeroHasNoBits(i: nat)
    ensures !BitSet(0, i)
    decreases i
  {
    if i > 0 {
      ZeroHasNoBits(i - 1);
    }
  }

  /** `Or` has the meaning of bitwise OR: bit `i` of the result is set iff it is set in either operand. */
  lemma {:induction false} OrBit(a: nat, b: nat, i: nat)
    ensures BitSet(Or(a, b), i) <==> BitSet(a, i) || BitSet(b, i)
    decreases i
  {
    if a == 0 {
      ZeroHasNoBits(i);
    } else if b == 0 {
      ZeroHasNoBits(i);
    } else {
      var low := if a % 2 == 1 || b % 2 == 1 then 1 else 0;
      var rest := Or(a / 2, b / 2);
      assert Or(a, b) == low + 2 * rest;
      assert (low + 2 * rest) % 2 == low && (low + 2 * rest) / 2 == rest;
      if i > 0 {
        OrBit(a / 2, b / 2, i - 1);
      }
    }
  }

  lemma {:induction false} OrComm(a: nat, b: nat)
    ensures Or(a, b) == Or(b, a)
    decreases a + b
  {
    if a != 0 && b != 0 {
      OrComm(a / 2, b / 2);
    }
  }

  lemma {:induction false} OrIdempotent(a: nat)
    ensures Or(a, a) == a
    decreases a
  {
    if a != 0 {
      OrIdempotent(a / 2);
    }
  }

  /** OR never clears a bit, so it is at least as large as either operand. */
  lemma {:induction false} OrAtLeast(a: nat, b: nat)
    ensures Or(a, b) >= a && Or(a, b) >= b
    decreases a + b
  {
    if a != 0 && b != 0 {
      OrAtLeast(a / 2, b / 2);
    }
  }

  /** OR of values below 2^k stays below 2^k. */
  lemma {:induction false} OrBound(a: nat, b: nat, k: nat)
    requires a < Pow2(k) && b < Pow2(k)
    ensures Or(a, b) < Pow2(k)
    decreases k
  {
    if a != 0 && b != 0 {
      assert k > 0;
      OrBound(a / 2, b / 2, k - 1);
    }
  }

  /** OR of a multiple of 2^k with a value below 2^k is their sum: the bits are disjoint. */
  lemma {:induction false} OrDisjoint(m: nat, lo: nat, k: nat)
    requires lo < Pow2(k)
    ensures Or(m * Pow2(k), lo) == m * Pow2(k) + lo
    decreases k
  {
    var hi := m * Pow2(k);
    if hi != 0 && lo != 0 {
      assert k > 0;
      var t := m * Pow2(k - 1);
      assert hi == 2 * t;
      assert hi / 2 == t && hi % 2 == 0;
      OrDisjoint(m, lo / 2, k - 1);
      assert Or(hi, lo) == lo % 2 + 2 * Or(t, lo / 2);
    }
  }

  /** A byte below a multiple of 256 is what `% 0x100` and `/ 0x100` take apart. */
  lemma ByteSplit(lo: u8, hi: nat)
    ensures (lo + 0x100 * hi) % 0x100 == lo && (lo + 0x100 * hi) / 0x100 == hi
  {
  }

  /** `u16::from_le_bytes`. */
  function LeU16(b0: u8, b1: u8): (v: u16)
    ensures v % 0x100 == b0 && v / 0x100 == b1
  {
    ByteSplit(b0, b1);
    b0 + 0x100 * b1
  }

  /** `u32::from_le_bytes`: byte k is what is left after k divisions by 256. */
  function LeU32(b0: u8, b1: u8, b2: u8, b3: u8): (v: u32)
    ensures v % 0x100 == b0 && (v / 0x100) % 0x100 == b1
    ensures (v / 0x100 / 0x100) % 0x100 == b2 && v / 0x100 / 0x100 / 0x100 == b3
  {
    var upper := b2 + 0x100 * b3;
    var hi := b1 + 0x100 * upper;
    ByteSplit(b2, b3);
    ByteSplit(b1, upper);
    ByteSplit(b0, hi);
    b0 + 0x100 * hi
  }
}
