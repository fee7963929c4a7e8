/**
 * Unsigned machine words as bounded integers, with the bitwise operations
 * the firmware applies to them written out bit by bit.
 */
module Bits {

  const TWO32: int := 0x1_0000_0000

  /** An octet, a uint16_t and a uint32_t. */
  type byte = x: int | 0 <= x < 256
  type uint16 = x: int | 0 <= x < 0x1_0000
  type uint32 = x: int | 0 <= x < TWO32

  /** A C++ `int` on the ESP32: 32 bits, two's complement. */
  type int32 = x: int | -0x8000_0000 <= x < 0x8000_0000

  function Pow2(n: nat): (r: nat)
    ensures r >= 1
  {
    if n == 0 then 1 else 2 * Pow2(n - 1)
  }

  /** Exclusive or of the low `n` bits of `a` and `b`. */
  function Xor(a: nat, b: nat, n: nat): (r: nat)
    ensures r < Pow2(n)
  {
    if n == 0 then 0
    else (if a % 2 != b % 2 then 1 else 0) + 2 * Xor(a / 2, b / 2, n - 1)
  }

  /** `^` on two uint32_t values. */
  function Xor32(a: uint32, b: uint32): uint32
  {
    Pow2ThirtyTwo();
    Xor(a, b, 32)
  }

  lemma Pow2ThirtyTwo()
    ensures Pow2(32) == TWO32
  {
    assert Pow2(8) == 256;
    assert Pow2(16) == 256 * Pow2(8) by { Pow2Add(8, 8); }
    assert Pow2(32) == Pow2(16) * Pow2(16) by { Pow2Add(16, 16); }
  }

  lemma {:induction false} Pow2Add(a: nat, b: nat)
    ensures Pow2(a + b) == Pow2(a) * Pow2(b)
    decreases a
  {
    if a > 0 {
      Pow2Add(a - 1, b);
      assert Pow2(a + b) == 2 * Pow2(a - 1 + b);
    }
  }

  /** XOR with a fixed value is injective: no two operands give the same result. */
  lemma {:induction false} XorInjective(a: nat, x: nat, y: nat, n: nat)
    requires x < Pow2(n) && y < Pow2(n)
    requires Xor(a, x, n) == Xor(a, y, n)
    ensures x == y
  {
    if n > 0 {
      assert x / 2 < Pow2(n - 1) && y / 2 < Pow2(n - 1);
      XorInjective(a / 2, x / 2, y / 2, n - 1);
    }
  }

  /** XOR is its own inverse. */
  lemma {:induction false} XorCancel(a: nat, x: nat, n: nat)
    requires x < Pow2(n)
    ensures Xor(a, Xor(a, x, n), n) == x
  {
    if n > 0 {
      var r := Xor(a, x, n);
      assert r / 2 == Xor(a / 2, x / 2, n - 1) && r % 2 == (if a % 2 != x % 2 then 1 else 0);
      XorCancel(a / 2, x / 2, n - 1);
    }
  }

  lemma {:induction false} XorCommutes(a: nat, b: nat, n: nat)
    ensures Xor(a, b, n) == Xor(b, a, n)
  {
    if n > 0 {
      XorCommutes(a / 2, b / 2, n - 1);
    }
  }

  /** XOR with zero keeps every bit of a value that fits in n bits. */
  lemma {:induction false} XorZero(a: nat, n: nat)
    requires a < Pow2(n)
    ensures Xor(a, 0, n) == a
  {
    if n > 0 {
      XorZero(a / 2, n - 1);
    }
  }

  /** Inclusive or of the low `n` bits of `a` and `b`. */
  function Or(a: nat, b: nat, n: nat): (r: nat)
    ensures r < Pow2(n)
  {
    if n == 0 then 0
    else (if a % 2 == 1 || b % 2 == 1 then 1 else 0) + 2 * Or(a / 2, b / 2, n - 1)
  }

  lemma {:induction false} OrZero(a: nat, n: nat)
    requires a < Pow2(n)
    ensures Or(a, 0, n) == a
  {
    if n > 0 {
      OrZero(a / 2, n - 1);
    }
  }

  /** OR of a multiple of 2^k with a value below 2^k is their sum. */
  lemma {:induction false} OrDisjoint(a: nat, b: nat, m: nat, k: nat, n: nat)
    requires a == m * Pow2(k) && b < Pow2(k) && a + b < Pow2(n)
    ensures Or(a, b, n) == a + b
    decreases n
  {
    if n == 0 {
    } else if k == 0 {
      OrZero(a, n);
    } else {
      assert a == 2 * (m * Pow2(k - 1));
      OrDisjoint(a / 2, b / 2, m, k - 1, n - 1);
    }
  }

  /** Addition and multiplication modulo 2^32, as uint32_t arithmetic wraps. */
  function Add32(a: uint32, b: uint32): uint32 { (a + b) % TWO32 }

  function Mul32(a: uint32, b: uint32): uint32 { (a * b) % TWO32 }
}
