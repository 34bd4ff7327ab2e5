/** The bits of a 64-bit mask, and what the receive window does to them. */
module Masks {
  import opened Basics
  import opened Bits

  const FULL_MASK: nat := 0xffff_ffff_ffff_ffff
  const LOW_BYTE: nat := 0x100
  const HIGH_SHIFT: nat := 0x1_0000_0000_0000
  const HIGH_ONES: nat := 0xffff
  const TOP_BYTE: nat := 0xff00_0000_0000_0000

  predicate Bit(mask: nat, i: nat) {
    mask / Pow2(i) % 2 == 1
  }

  /** `mask & !(1 << i)`. */
  function ClearBit(mask: nat, i: nat): (r: nat)
    ensures r <= mask
  {
    if Bit(mask, i) then
      assert Pow2(i) <= mask by {
        if mask < Pow2(i) {
          DivMod(mask, 0, mask, Pow2(i));
        }
      }
      mask - Pow2(i)
    else mask
  }

  /** `(mask >> 8) | (0xff << 56)`. */
  function Slide(mask: nat): nat {
    mask / 256 + TOP_BYTE
  }

  lemma {:induction false} LsbBitsSplit(v: nat, a: nat, b: nat, high: nat)
    requires v / Pow2(a) == high
    ensures LsbBits(v, a + b) == LsbBits(v, a) + LsbBits(high, b)
  {
    if a > 0 {
      DivTwice(v, Pow2(a - 1));
      LsbBitsSplit(v / 2, a - 1, b, high);
      SplitHead(v % 2 == 1, LsbBits(v / 2, a - 1), LsbBits(high, b));
    }
  }

  lemma SplitHead(bit: bool, low: seq<bool>, high: seq<bool>)
    ensures [bit] + (low + high) == [bit] + low + high
  {
  }

  lemma {:induction false} LsbBitsJoin(low: nat, high: nat, a: nat, b: nat)
    requires low < Pow2(a)
    ensures LsbBits(low + high * Pow2(a), a + b) == LsbBits(low, a) + LsbBits(high, b)
  {
    DivMod(low + high * Pow2(a), high, low, Pow2(a));
    LsbBitsSplit(low + high * Pow2(a), a, b, high);
    LsbBitsMod(low + high * Pow2(a), a);
  }

  /** The low bits depend only on the remainder. */
  lemma {:induction false} LsbBitsMod(v: nat, n: nat)
    ensures LsbBits(v, n) == LsbBits(v % Pow2(n), n)
  {
    if n > 0 {
      var p := Pow2(n - 1);
      HalfOfRemainder(v, p);
      LsbBitsMod(v / 2, n - 1);
    }
  }

  lemma HalfOfRemainder(v: nat, p: nat)
    requires p >= 1
    ensures v % (2 * p) / 2 == v / 2 % p && v % (2 * p) % 2 == v % 2
  {
    var q, r := v / 2 / p, v / 2 % p;
    assert v / 2 == q * p + r;
    assert q * (2 * p) == 2 * (q * p);
    DivMod(v, q, 2 * r + v % 2, 2 * p);
  }

  lemma {:induction false} LsbValueOfBits(v: nat, n: nat)
    requires v < Pow2(n)
    ensures LsbValue(LsbBits(v, n)) == v
  {
    if n > 0 {
      LsbValueOfBits(v / 2, n - 1);
    }
  }

  lemma BitsAre(mask: nat, i: nat)
    requires i < 64
    ensures Bit(mask, i) == LsbBits(mask, 64)[i]
  {
    LsbBitAt(mask, 64, i);
  }

  lemma {:induction false} ValueUpdate(bits: seq<bool>, i: nat)
    requires i < |bits| && bits[i]
    ensures LsbValue(bits[i := false]) + Pow2(i) == LsbValue(bits)
  {
    if i == 0 {
      assert bits[0 := false][1..] == bits[1..];
    } else {
      ValueUpdate(bits[1..], i - 1);
      assert bits[i := false][1..] == bits[1..][i - 1 := false];
    }
  }

  lemma {:induction false} BitsOfLsbValue(bits: seq<bool>)
    ensures LsbBits(LsbValue(bits), |bits|) == bits
  {
    LsbBitsOfValue(bits, |bits|);
    assert bits + [] == bits;
  }

  lemma MaskLimit()
    ensures Pow2(64) == FULL_MASK + 1
    ensures Pow2(8) == LOW_BYTE && Pow2(48) == HIGH_SHIFT && Pow2(16) == HIGH_ONES + 1
    ensures 255 * Pow2(56) == TOP_BYTE
  {
    assert Pow2(8) == 256;
    hide Pow2;
    Pow2Sum(8, 8);
    assert Pow2(16) == 0x1_0000;
    Pow2Sum(16, 16);
    assert Pow2(32) == 0x1_0000_0000;
    Pow2Sum(32, 16);
    assert Pow2(48) == HIGH_SHIFT;
    Pow2Sum(48, 8);
    assert Pow2(56) == 256 * HIGH_SHIFT;
    Pow2Sum(56, 8);
  }

  lemma ClearBitBits(mask: nat, k: nat, i: nat)
    requires mask <= FULL_MASK && k < 64 && i < 64
    ensures Bit(ClearBit(mask, k), i) == (i != k && Bit(mask, i))
  {
    var bits := LsbBits(mask, 64);
    BitsAre(mask, k);
    BitsAre(mask, i);
    if bits[k] {
      ClearedBits(mask, k);
      BitsAre(ClearBit(mask, k), i);
      hide *;
    }
  }

  lemma ClearedBits(mask: nat, k: nat)
    requires mask <= FULL_MASK && k < 64 && Bit(mask, k)
    ensures LsbBits(ClearBit(mask, k), 64) == LsbBits(mask, 64)[k := false]
  {
    MaskLimit();
    BitsAre(mask, k);
    var bits := LsbBits(mask, 64);
    LsbValueOfBits(mask, 64);
    ValueUpdate(bits, k);
    BitsOfLsbValue(bits[k := false]);
    hide LsbBits, LsbValue, Pow2, Bit;
  }

  lemma {:induction false} NoBits(v: nat, n: nat)
    requires v < Pow2(n)
    ensures v == 0 <==> true !in LsbBits(v, n)
  {
    if n > 0 {
      NoBits(v / 2, n - 1);
      var rest := LsbBits(v / 2, n - 1);
      assert true in [v % 2 == 1] + rest <==> v % 2 == 1 || true in rest;
    }
  }

  lemma {:induction false} AllBits(v: nat, n: nat)
    requires v < Pow2(n)
    ensures v == Pow2(n) - 1 <==> false !in LsbBits(v, n)
  {
    if n > 0 {
      AllBits(v / 2, n - 1);
      var rest := LsbBits(v / 2, n - 1);
      assert false in [v % 2 == 1] + rest <==> v % 2 == 0 || false in rest;
    }
  }

  lemma FullMaskBits(i: nat)
    requires i < 64
    ensures Bit(FULL_MASK, i)
  {
    MaskLimit();
    AllBits(FULL_MASK, 64);
    BitsAre(FULL_MASK, i);
    assert LsbBits(FULL_MASK, 64)[i] in LsbBits(FULL_MASK, 64);
  }

  /** `mask & 0xff == 0`: the eight lowest bits are clear. */
  lemma LowByteClear(mask: nat)
    requires mask <= FULL_MASK
    ensures mask % LOW_BYTE == 0 <==> forall i: nat :: i < 8 ==> !Bit(mask, i)
  {
    MaskLimit();
    NoBits(mask % 256, 8);
    LsbBitsMod(mask, 8);
    LsbBitsSplit(mask, 8, 56, mask / 256);
    forall i: nat | i < 8
      ensures Bit(mask, i) == LsbBits(mask % 256, 8)[i]
    {
      BitsAre(mask, i);
    }
  }

  /** `mask >> 48 == 0xffff`: the sixteen highest bits are set. */
  lemma HighBitsSet(mask: nat)
    requires mask <= FULL_MASK
    ensures mask / HIGH_SHIFT == HIGH_ONES <==> forall i: nat :: 48 <= i < 64 ==> Bit(mask, i)
  {
    hide Bit, LsbBits;
    MaskLimit();
    var high := mask / HIGH_SHIFT;
    AllBits(high, 16);
    forall i: nat | 48 <= i < 64
      ensures Bit(mask, i) == LsbBits(high, 16)[i - 48]
    {
      HighBit(mask, i);
    }
    assert forall j :: 0 <= j < 16 ==> LsbBits(high, 16)[j] == Bit(mask, j + 48);
  }

  lemma HighBit(mask: nat, i: nat)
    requires mask <= FULL_MASK && 48 <= i < 64
    ensures Bit(mask, i) == LsbBits(mask / HIGH_SHIFT, 16)[i - 48]
  {
    hide Bit, LsbBits;
    MaskLimit();
    LsbBitsSplit(mask, 48, 16, mask / HIGH_SHIFT);
    BitsAre(mask, i);
  }

  lemma EmptyMask(mask: nat)
    requires mask <= FULL_MASK
    ensures mask == 0 <==> forall i: nat :: i < 64 ==> !Bit(mask, i)
  {
    MaskLimit();
    NoBits(mask, 64);
    forall i: nat | i < 64
      ensures Bit(mask, i) == LsbBits(mask, 64)[i]
    {
      BitsAre(mask, i);
    }
  }

  lemma SlideBits(mask: nat, i: nat)
    requires mask <= FULL_MASK && i < 64
    ensures Slide(mask) <= FULL_MASK
    ensures Bit(Slide(mask), i) == (i >= 56 || Bit(mask, i + 8))
  {
    MaskLimit();
    SlidBits(mask);
    BitsAre(Slide(mask), i);
    if i < 56 {
      BitsAre(mask, i + 8);
    }
    hide *;
  }

  /** The mask's bits move down by eight, and ones come in above. */
  lemma SlidBits(mask: nat)
    requires mask <= FULL_MASK
    ensures LsbBits(Slide(mask), 64)[..56] == LsbBits(mask, 64)[8..]
    ensures forall j :: 56 <= j < 64 ==> LsbBits(Slide(mask), 64)[j]
  {
    MaskLimit();
    var high := mask / 256;
    assert high < Pow2(56) by {
      Pow2Sum(8, 56);
    }
    LsbBitsJoin(high, 255, 56, 8);
    LsbBitsSplit(mask, 8, 56, high);
    AllOnes();
    hide LsbBits, Pow2;
    assert Slide(mask) == high + 255 * Pow2(56);
    var ones := LsbBits(255, 8);
    var slid := LsbBits(Slide(mask), 64);
    assert slid == LsbBits(high, 56) + ones;
    assert forall j :: 56 <= j < 64 ==> slid[j] == ones[j - 56];
  }

  lemma AllOnes()
    ensures forall j :: 0 <= j < 8 ==> LsbBits(255, 8)[j]
  {
    assert Pow2(8) - 1 == 255;
    AllBits(255, 8);
    forall j | 0 <= j < 8
      ensures LsbBits(255, 8)[j]
    {
      assert LsbBits(255, 8)[j] in LsbBits(255, 8);
    }
  }
}
