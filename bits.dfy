/**
 * Bitwise exclusive or on non-negative integers, one bit at a time, as
 * Python's `^` computes it on values of a known width.
 */
module Bits {
  function Pow2(k: nat): (r: nat)
    ensures r > 0
  {
    if k == 0 then 1 else 2 * Pow2(k - 1)
  }

  /** The powers of two the CRC and the LFSR work with. */
  lemma Pow2Values()
    ensures Pow2(8) == 0x100 && Pow2(15) == 0x8000 && Pow2(16) == 0x10000
  {
    assert Pow2(4) == 0x10;
    assert Pow2(8) == 0x100;
    assert Pow2(12) == 0x1000;
  }

  /** Python's `^` on the low `k` bits of `a` and `b`, bit by bit. */
  function XorBits(a: nat, b: nat, k: nat): nat
  {
    if k == 0 then 0
    else 2 * XorBits(a / 2, b / 2, k - 1) + (if a % 2 == b % 2 then 0 else 1)
  }

  lemma {:induction false} XorBitsBound(a: nat, b: nat, k: nat)
    ensures XorBits(a, b, k) < Pow2(k)
  {
    if k > 0 {
      XorBitsBound(a / 2, b / 2, k - 1);
    }
  }

  lemma Halve(h: nat, e: nat)
    requires e < 2
    ensures (2 * h + e) / 2 == h && (2 * h + e) % 2 == e
  {}

  lemma HalfBelow(a: nat, p: nat)
    requires a < 2 * p
    ensures a / 2 < p
  {}

  /** XOR-ing twice with the same bits gives the original value back. */
  lemma {:induction false} XorBitsTwice(a: nat, b: nat, k: nat)
    requires a < Pow2(k)
    ensures XorBits(XorBits(a, b, k), b, k) == a
  {
    if k > 0 {
      var h := XorBits(a / 2, b / 2, k - 1);
      var e := if a % 2 == b % 2 then 0 else 1;
      var x := XorBits(a, b, k);
      assert x / 2 == h && x % 2 == e by { Halve(h, e); }
      assert XorBits(h, b / 2, k - 1) == a / 2 by {
        HalfBelow(a, Pow2(k - 1));
        XorBitsTwice(a / 2, b / 2, k - 1);
      }
    }
  }

  /**
   * XOR with a value whose top bit (bit k) is set sets bit k of a value
   * below it.
   */
  lemma {:induction false} XorBitsTop(a: nat, b: nat, k: nat)
    requires a < Pow2(k) && Pow2(k) <= b < Pow2(k + 1)
    ensures XorBits(a, b, k + 1) >= Pow2(k)
  {
    if k > 0 {
      HalfBelow(a, Pow2(k - 1));
      HalfBelow(b, Pow2(k));
      XorBitsTop(a / 2, b / 2, k - 1);
    }
  }
}
