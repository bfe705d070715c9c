/** Bit operations on unsigned integers, modelled on `nat`: xor and or bit by
    bit, shifts as division by powers of two, and the width of a `u64`. */
module Bitwise {
  import Digits
  import Parse

  /** 2^64: one more than the largest `u64`. */
  const U64_RANGE: nat := Parse.U64_MAX + 1

  /** `a ^ b` on unsigned integers, bit by bit from the least significant end. */
  function Xor(a: nat, b: nat): nat
    decreases a + b
  {
    if a == 0 && b == 0 then 0
    else 2 * Xor(a / 2, b / 2) + (a % 2 + b % 2) % 2
  }

  /** Mixing in zero changes nothing. */
  lemma {:induction false} XorZero(a: nat)
    ensures Xor(a, 0) == a
    decreases a
  {
    if a != 0 {
      XorZero(a / 2);
    }
  }

  /** Mixing a value into itself clears it. */
  lemma {:induction false} XorSelf(a: nat)
    ensures Xor(a, a) == 0
    decreases a
  {
    if a != 0 {
      XorSelf(a / 2);
    }
  }

  /** `a | b` on unsigned integers, bit by bit from the least significant end. */
  function Or(a: nat, b: nat): nat
    decreases a + b
  {
    if a == 0 && b == 0 then 0
    else 2 * Or(a / 2, b / 2) + (if a % 2 == 1 || b % 2 == 1 then 1 else 0)
  }

  /** Or-ing a value below 8 into one whose low three bits are clear adds it. */
  lemma OrLowBits(x: nat, i: nat)
    requires x % 8 == 0 && i < 8
    ensures Or(x, i) == x + i
  {
    var h := x / 8;
    var i1, i2 := i / 2, i / 4;
    assert x == 2 * (4 * h) && 4 * h == 2 * (2 * h);
    assert i == 2 * i1 + i % 2 && i1 == 2 * i2 + i1 % 2 && i2 < 2 && i1 / 2 == i2;
    OrEven(4 * h, i);
    OrEven(2 * h, i1);
    OrEven(h, i2);
    OrZeroLeft(h);
    assert i2 / 2 == 0;
  }

  /** The lowest bit of an even number comes from the other operand. */
  lemma OrEven(y: nat, i: nat)
    ensures Or(2 * y, i) == 2 * Or(y, i / 2) + i % 2
  {
    assert (2 * y) / 2 == y && (2 * y) % 2 == 0;
  }

  lemma {:induction false} OrZeroLeft(a: nat)
    ensures Or(a, 0) == a
    decreases a
  {
    if a != 0 {
      OrZeroLeft(a / 2);
    }
  }

  /** Xor keeps values below a power of two below it. */
  lemma {:induction false} XorBound(a: nat, b: nat, k: nat)
    requires a < Digits.Pow(2, k) && b < Digits.Pow(2, k)
    ensures Xor(a, b) < Digits.Pow(2, k)
    decreases k
  {
    if k > 0 && !(a == 0 && b == 0) {
      XorBound(a / 2, b / 2, k - 1);
    }
  }

  /** `a >> k`: the low `k` bits dropped. */
  function ShiftRight(a: nat, k: nat): (r: nat)
    ensures r <= a
  {
    a / Digits.Pow(2, k)
  }

  /** A larger exponent gives a larger power of two. */
  lemma {:induction false} PowMonotone(m: nat, k: nat)
    requires m <= k
    ensures Digits.Pow(2, m) <= Digits.Pow(2, k)
    decreases k
  {
    if m < k {
      PowMonotone(m, k - 1);
    }
  }

  lemma ModBelow(x: nat, m: nat)
    requires x < m
    ensures x % m == x
  {
  }

  lemma PowEight()
    ensures Digits.Pow(2, 8) == 256
  {
  }

  lemma PowThirtyTwo()
    ensures Digits.Pow(2, 32) == 4294967296
  {
    PowEight();
    Digits.PowAdd(2, 8, 8);
    Digits.PowAdd(2, 16, 16);
  }

  /** 2^63 is half the range of a `u64`. */
  lemma PowSixtyThree()
    ensures 2 * Digits.Pow(2, 63) == U64_RANGE
  {
    PowThirtyTwo();
    Digits.PowAdd(2, 32, 32);
  }

  /** 2^64 is the range of a `u64`. */
  lemma PowSixtyFour()
    ensures Digits.Pow(2, 64) == U64_RANGE
  {
    PowSixtyThree();
  }
}
