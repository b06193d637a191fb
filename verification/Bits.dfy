/** Bitwise operators on numbers, bit by bit, and what they come to where the
    source uses them: on bits that do not overlap, and on one bit. */
module Bits {
  import opened Bytes

  /** a | b */
  function Or(a: nat, b: nat): nat
    decreases a + b
  {
    if a == 0 && b == 0 then 0 else 2 * Or(a / 2, b / 2) + (if a % 2 == 1 || b % 2 == 1 then 1 else 0)
  }

  /** a & b */
  function And(a: nat, b: nat): nat {
    if a == 0 then 0 else 2 * And(a / 2, b / 2) + (if a % 2 == 1 && b % 2 == 1 then 1 else 0)
  }

  /** a & ~b */
  function AndNot(a: nat, b: nat): nat {
    if a == 0 then 0 else 2 * AndNot(a / 2, b / 2) + (if a % 2 == 1 && b % 2 == 0 then 1 else 0)
  }

  /** a << k */
  function Shl(a: nat, k: nat): nat {
    if k == 0 then a else 2 * Shl(a, k - 1)
  }

  /** Bits above all of a's are added. */
  lemma {:induction false} OrAbove(a: nat, b: nat, k: nat)
    requires a < Pow2(k)
    ensures Or(a, Shl(b, k)) == a + Shl(b, k)
    decreases k
  {
    if k == 0 {
      OrZero(b);
    } else {
      OrAbove(a / 2, b, k - 1);
      assert Shl(b, k) / 2 == Shl(b, k - 1) && Shl(b, k) % 2 == 0;
    }
  }

  lemma {:induction false} OrZero(b: nat)
    ensures Or(0, b) == b
    decreases b
  {
    if b > 0 { OrZero(b / 2); }
  }

  /** The top bit alone masked off. */
  lemma {:induction false} TopBitOff(low: nat, k: nat)
    requires low < Pow2(k)
    ensures AndNot(low + Pow2(k), Pow2(k)) == low
    decreases k
  {
    if k == 0 {
      assert AndNot(1, 1) == 2 * AndNot(0, 0) + 0;
    } else {
      TopBitOff(low / 2, k - 1);
      assert (low + Pow2(k)) / 2 == low / 2 + Pow2(k - 1) && (low + Pow2(k)) % 2 == low % 2;
      assert Pow2(k) / 2 == Pow2(k - 1) && Pow2(k) % 2 == 0;
    }
  }

  /** The last k bits. */
  function LowBits(a: nat, k: nat): nat {
    if k == 0 then 0 else a % 2 + 2 * LowBits(a / 2, k - 1)
  }

  /** A mask of ones keeps the bits under it. */
  lemma {:induction false} MaskKeeps(a: nat, k: nat)
    ensures And(a, Pow2(k) - 1) == LowBits(a, k)
    decreases k
  {
    if k == 0 {
      AndZero(a);
    } else if a == 0 {
      LowBitsOfZero(k);
    } else {
      MaskKeeps(a / 2, k - 1);
      assert (Pow2(k) - 1) / 2 == Pow2(k - 1) - 1 && (Pow2(k) - 1) % 2 == 1;
    }
  }

  lemma {:induction false} LowBitsOfZero(k: nat)
    ensures LowBits(0, k) == 0
  {
    if k > 0 { LowBitsOfZero(k - 1); }
  }

  lemma {:induction false} AndZero(a: nat)
    ensures And(a, 0) == 0
  {
    if a > 0 { AndZero(a / 2); }
  }

  /** What is shifted out and what is left make the number. */
  lemma {:induction false} LowAndHigh(a: nat, k: nat)
    ensures a == LowBits(a, k) + Shl(Shr(a, k), k)
  {
    if k > 0 { LowAndHigh(a / 2, k - 1); }
  }

  /** a & 0xff and a >> 8 */
  lemma LowByteMasked(a: nat)
    ensures And(a, 0xff) == a % 256 && Shr(a, 8) == a / 256
  {
    hide And, Shl, Shr, LowBits;
    SmallPowers();
    MaskKeeps(a, 8);
    LowAndHigh(a, 8);
    ShrByte(a);
    EightUp(a / 256, 0);
    ShlNone(a / 256);
  }

  /** b & 0x7f */
  lemma SevenBitsMasked(b: byte)
    ensures And(b, 0x7f) == b % 0x80
  {
    hide And, Shl, Shr, LowBits;
    SmallPowers();
    MaskKeeps(b, 7);
    LowAndHigh(b, 7);
    SevenDown(b);
    SevenUp(b / 128);
  }

  lemma ShlNone(a: nat)
    ensures Shl(a, 0) == a
  {
  }

  lemma SmallPowers()
    ensures Pow2(7) == 0x80 && Pow2(8) == 0x100
  {
    assert Pow2(8) == 2 * Pow2(7) && Pow2(7) == 2 * Pow2(6) && Pow2(6) == 2 * Pow2(5) && Pow2(5) == 2 * Pow2(4);
    assert Pow2(4) == 2 * Pow2(3) && Pow2(3) == 2 * Pow2(2);
  }

  lemma FourDown(a: nat, k: nat)
    ensures Shr(a, k + 4) == Shr(a / 16, k)
  {
    assert Shr(a, k + 4) == Shr(a / 2, k + 3) && Shr(a / 2, k + 3) == Shr(a / 4, k + 2);
    assert Shr(a / 4, k + 2) == Shr(a / 8, k + 1) && Shr(a / 8, k + 1) == Shr(a / 16, k);
  }

  lemma ThreeDown(a: nat)
    ensures Shr(a, 3) == a / 8
  {
    assert Shr(a, 3) == Shr(a / 2, 2) && Shr(a / 2, 2) == Shr(a / 4, 1) && Shr(a / 4, 1) == Shr(a / 8, 0);
  }

  lemma ShrNone(a: nat)
    ensures Shr(a, 0) == a
  {
  }

  lemma SevenDown(a: nat)
    ensures Shr(a, 7) == a / 128
  {
    hide Shr;
    FourDown(a, 3);
    ThreeDown(a / 16);
  }

  lemma SevenUp(a: nat)
    ensures Shl(a, 7) == 128 * a
  {
    EightUp(a, 0);
    assert Shl(a, 8) == 2 * Shl(a, 7);
  }

  /** b & 0x80, of a byte. */
  lemma SignBit(b: byte)
    ensures And(b, 0x80) != 0 <==> b >= 0x80
  {
    hide And, Shr;
    OneBit(b, 7);
    SmallPowers();
    SevenDown(b);
  }

  lemma {:induction false} OneBit(a: nat, k: nat)
    ensures And(a, Pow2(k)) == if Shr(a, k) % 2 == 1 then Pow2(k) else 0
    decreases k
  {
    if k == 0 {
      if a > 0 {
        AndZero(a / 2);
      }
    } else if a > 0 {
      OneBit(a / 2, k - 1);
      assert Pow2(k) / 2 == Pow2(k - 1) && Pow2(k) % 2 == 0;
    } else {
      ShrZero(k);
    }
  }

  /** a >> k */
  function Shr(a: nat, k: nat): nat {
    if k == 0 then a else Shr(a / 2, k - 1)
  }

  lemma {:induction false} ShrZero(k: nat)
    ensures Shr(0, k) == 0
  {
    if k > 0 { ShrZero(k - 1); }
  }

  /** Eight places up is one byte up, and eight down one byte down. */
  lemma {:induction false} ShlBytes(a: nat, n: nat)
    ensures Shl(a, 8 * n) == a * Pow256(n)
  {
    if n > 0 {
      ShlBytes(a, n - 1);
      EightUp(a, 8 * (n - 1));
      assert a * (256 * Pow256(n - 1)) == 256 * (a * Pow256(n - 1));
    }
  }

  lemma EightUp(a: nat, k: nat)
    ensures Shl(a, k + 8) == 256 * Shl(a, k)
  {
    assert Shl(a, k + 8) == 2 * Shl(a, k + 7) && Shl(a, k + 7) == 2 * Shl(a, k + 6);
    assert Shl(a, k + 6) == 2 * Shl(a, k + 5) && Shl(a, k + 5) == 2 * Shl(a, k + 4);
    assert Shl(a, k + 4) == 2 * Shl(a, k + 3) && Shl(a, k + 3) == 2 * Shl(a, k + 2);
    assert Shl(a, k + 2) == 2 * Shl(a, k + 1) && Shl(a, k + 1) == 2 * Shl(a, k);
  }

  lemma ShrByte(a: nat)
    ensures Shr(a, 8) == a / 256
  {
    hide Shr;
    FourDown(a, 4);
    FourDown(a / 16, 0);
    ShrNone(a / 256);
    assert a / 16 / 16 == a / 256;
  }

  lemma {:induction false} PowersAgree(n: nat)
    ensures Pow2(8 * n) == Pow256(n) == Shl(1, 8 * n)
  {
    ShlOne(8 * n);
    ShlBytes(1, n);
  }

  lemma {:induction false} ShlOne(k: nat)
    ensures Shl(1, k) == Pow2(k)
  {
    if k > 0 { ShlOne(k - 1); }
  }
}
