/** Bits packed into bytes, earlier bits in less significant positions, as the noun codec stores a tree's shape. */
module Bits {
  import opened Basics

  /** The low `count` bits of a number, least significant first. */
  function LsbBits(v: nat, count: nat): (r: seq<bool>)
    ensures |r| == count
  {
    if count == 0 then [] else [v % 2 == 1] + LsbBits(v / 2, count - 1)
  }

  function LsbValue(bits: seq<bool>): nat {
    if bits == [] then 0 else (if bits[0] then 1 else 0) + 2 * LsbValue(bits[1..])
  }

  function Unpack(bs: Bytes): (r: seq<bool>)
    ensures |r| == 8 * |bs|
  {
    if bs == [] then [] else LsbBits(bs[0], 8) + Unpack(bs[1..])
  }

  lemma {:induction false} LsbValueBound(bits: seq<bool>)
    ensures LsbValue(bits) < Pow2(|bits|)
  {
    if bits != [] {
      LsbValueBound(bits[1..]);
    }
  }

  function ByteOf(bits: seq<bool>): Byte
    requires |bits| <= 8
  {
    LsbValueBound(bits);
    Pow2Monotone(|bits|, 8);
    assert Pow2(8) == 256;
    LsbValue(bits)
  }

  function Pack(bits: seq<bool>): (r: Bytes)
    ensures |r| == (|bits| + 7) / 8
  {
    if bits == [] then []
    else if |bits| <= 8 then [ByteOf(bits)]
    else [ByteOf(bits[..8])] + Pack(bits[8..])
  }

  function Zeros(n: nat): (r: seq<bool>)
    ensures |r| == n
  {
    if n == 0 then [] else [false] + Zeros(n - 1)
  }

  lemma {:induction false} LsbBitsOfZero(n: nat)
    ensures LsbBits(0, n) == Zeros(n)
  {
    if n > 0 {
      LsbBitsOfZero(n - 1);
    }
  }

  lemma {:induction false} LsbBitsOfValue(bits: seq<bool>, count: nat)
    requires |bits| <= count
    ensures LsbBits(LsbValue(bits), count) == bits + Zeros(count - |bits|)
  {
    if bits == [] {
      LsbBitsOfZero(count);
      assert bits + Zeros(count) == Zeros(count);
    } else {
      LsbBitsOfValue(bits[1..], count - 1);
      assert LsbValue(bits) / 2 == LsbValue(bits[1..]);
      assert bits == [bits[0]] + bits[1..];
    }
  }

  /** Unpacking gives the bits back, padded to a whole byte with zeros. */
  lemma {:induction false} UnpackOfPack(bits: seq<bool>)
    ensures Unpack(Pack(bits)) == bits + Zeros(8 * |Pack(bits)| - |bits|)
  {
    if bits == [] {
    } else if |bits| <= 8 {
      UnpackOfByte(bits);
    } else {
      hide Pack, Unpack, LsbValue, LsbBits, Zeros, ByteOf;
      UnpackOfPack(bits[8..]);
      UnpackOfLong(bits, Zeros(8 * |Pack(bits)| - |bits|));
    }
  }

  lemma UnpackOfLong(bits: seq<bool>, padding: seq<bool>)
    requires |bits| > 8 && Unpack(Pack(bits[8..])) == bits[8..] + padding
    ensures Unpack(Pack(bits)) == bits + padding
  {
    PackHead(bits);
    UnpackHead(ByteOf(bits[..8]), Pack(bits[8..]));
    BitsOfByte(bits[..8]);
    hide *;
    SplitAround(bits, padding);
  }

  lemma UnpackHead(first: Byte, rest: Bytes)
    ensures Unpack([first] + rest) == LsbBits(first, 8) + Unpack(rest)
  {
    hide LsbBits;
    assert ([first] + rest)[1..] == rest;
  }

  lemma BitsOfByte(bits: seq<bool>)
    requires |bits| == 8
    ensures LsbBits(ByteOf(bits), 8) == bits
  {
    LsbBitsOfValue(bits, 8);
    hide LsbBits, LsbValue;
    assert bits + [] == bits;
  }

  lemma SplitAround(bits: seq<bool>, padding: seq<bool>)
    requires |bits| > 8
    ensures bits[..8] + (bits[8..] + padding) == bits + padding
  {
  }

  lemma UnpackOfByte(bits: seq<bool>)
    requires 1 <= |bits| <= 8
    ensures Unpack(Pack(bits)) == bits + Zeros(8 * |Pack(bits)| - |bits|)
  {
    LsbBitsOfValue(bits, 8);
    hide LsbValue, LsbBits;
    assert Pack(bits)[1..] == [];
    assert Unpack(Pack(bits)) == LsbBits(ByteOf(bits), 8);
  }

  lemma {:induction false} LsbValueSnoc(bits: seq<bool>, bit: bool)
    ensures LsbValue(bits + [bit]) == LsbValue(bits) + if bit then Pow2(|bits|) else 0
  {
    if bits == [] {
      assert bits + [bit] == [bit];
      assert [bit][1..] == [];
    } else {
      LsbValueSnoc(bits[1..], bit);
      assert (bits + [bit])[1..] == bits[1..] + [bit];
    }
  }

  lemma {:induction false} LsbBitAt(v: nat, count: nat, i: nat)
    requires i < count
    ensures LsbBits(v, count)[i] == (v / Pow2(i) % 2 == 1)
  {
    if i > 0 {
      LsbBitAt(v / 2, count - 1, i - 1);
      DivTwice(v, Pow2(i - 1));
    }
  }

  lemma DivTwice(v: nat, p: nat)
    requires p >= 1
    ensures v / 2 / p == v / (2 * p)
  {
    var q, r := v / 2 / p, v / 2 % p;
    assert v / 2 == q * p + r;
    assert q * (2 * p) == 2 * (q * p);
    DivMod(v, q, 2 * r + v % 2, 2 * p);
  }

  /** `b |= 1 << k`. */
  function SetBit(b: nat, k: nat): nat {
    if b / Pow2(k) % 2 == 1 then b else b + Pow2(k)
  }

  /** What pushing a bit does to packed bytes: start a byte when the last is full, else set a bit in it. */
  ghost function Pushed(packed: Bytes, k: nat, bit: bool): seq<nat>
    requires k != 0 ==> packed != []
  {
    var last := |packed| - 1;
    if k == 0 then packed + [if bit then 1 else 0]
    else packed[..last] + [if bit then packed[last] + Pow2(k) else packed[last]]
  }

  lemma PackShortSnoc(bits: seq<bool>, bit: bool)
    requires |bits| < 8
    ensures Pack(bits + [bit]) == Pushed(Pack(bits), |bits|, bit)
    ensures |bits| != 0 ==> Pack(bits)[|Pack(bits)| - 1] < Pow2(|bits|)
  {
    LsbValueSnoc(bits, bit);
    LsbValueBound(bits);
    assert Pack(bits + [bit]) == [ByteOf(bits + [bit])];
    if bits != [] {
      assert Pack(bits) == [ByteOf(bits)];
    }
  }

  lemma PackFullSnoc(bits: seq<bool>, bit: bool)
    requires |bits| == 8
    ensures Pack(bits + [bit]) == Pushed(Pack(bits), 0, bit)
  {
    assert (bits + [bit])[..8] == bits;
    assert (bits + [bit])[8..] == [bit];
    assert [] + [bit] == [bit];
    LsbValueSnoc([], bit);
    assert Pack([bit]) == [ByteOf([bit])];
  }

  lemma {:induction false} PackSnoc(bits: seq<bool>, bit: bool)
    ensures Pack(bits + [bit]) == Pushed(Pack(bits), |bits| % 8, bit)
    ensures |bits| % 8 != 0 ==> Pack(bits)[|Pack(bits)| - 1] < Pow2(|bits| % 8)
  {
    if |bits| < 8 {
      PackShortSnoc(bits, bit);
    } else if |bits| == 8 {
      PackFullSnoc(bits, bit);
    } else {
      hide Pack, LsbValue, Pow2, ByteOf, Pushed;
      assert |bits[8..]| % 8 == |bits| % 8;
      PackSnoc(bits[8..], bit);
      PackLongSnoc(bits, bit, |bits| % 8);
    }
  }

  lemma PackLongSnoc(bits: seq<bool>, bit: bool, k: nat)
    requires |bits| > 8 && Pack(bits[8..] + [bit]) == Pushed(Pack(bits[8..]), k, bit)
    ensures Pack(bits) != [] && Pack(bits + [bit]) == Pushed(Pack(bits), k, bit)
    ensures Pack(bits)[|Pack(bits)| - 1] == Pack(bits[8..])[|Pack(bits[8..])| - 1]
  {
    PackHead(bits);
    PackHead(bits + [bit]);
    hide Pack, LsbValue, Pow2, ByteOf, Pushed;
    assert (bits + [bit])[..8] == bits[..8];
    assert (bits + [bit])[8..] == bits[8..] + [bit];
    PushedAfter(ByteOf(bits[..8]), Pack(bits[8..]), k, bit);
  }

  lemma PackHead(bits: seq<bool>)
    requires |bits| > 8
    ensures Pack(bits) == [ByteOf(bits[..8])] + Pack(bits[8..]) && Pack(bits[8..]) != []
  {
    hide ByteOf;
  }

  lemma PushedAfter(first: Byte, packed: Bytes, k: nat, bit: bool)
    requires packed != []
    ensures Pushed([first] + packed, k, bit) == [first] + Pushed(packed, k, bit)
    ensures ([first] + packed)[|packed|] == packed[|packed| - 1]
  {
    hide Pow2;
  }

  /** A growing bit vector (`BitVec` of `vm/src/serialize.rs`). */
  class BitVec {
    var bytes: Bytes
    var writeBit: nat
    ghost var bits: seq<bool>

    ghost predicate Valid()
      reads this
    {
      bytes == Pack(bits) && writeBit == |bits| % 8
    }

    constructor ()
      ensures Valid() && bits == []
    {
      bytes := [];
      writeBit := 0;
      bits := [];
    }

    method Push(value: bool)
      requires Valid()
      modifies this
      ensures Valid() && bits == old(bits) + [value]
    {
      hide Pack, Pushed, SetBit, Pow2;
      PackSnoc(bits, value);
      PushedSteps(bytes, writeBit, value);
      if writeBit == 0 {
        bytes := bytes + [0];
      }
      if value {
        var last := |bytes| - 1;
        bytes := bytes[last := SetBit(bytes[last], writeBit)];
      }
      writeBit := (writeBit + 1) % 8;
      bits := bits + [value];
    }
  }

  lemma SetClearBit(b: Byte, k: nat)
    requires k < 8 && b < Pow2(k)
    ensures SetBit(b, k) == b + Pow2(k) < 256
  {
    PowersBelowByte(k);
    hide Pow2;
    DivMod(b, 0, b, Pow2(k));
  }

  lemma PowersBelowByte(k: nat)
    requires k < 8
    ensures 2 * Pow2(k) <= 256
  {
    Pow2Monotone(k + 1, 8);
    assert Pow2(8) == 256;
  }

  /** Pushing a bit in two steps: a new byte if need be, then the bit. */
  lemma PushedSteps(packed: Bytes, k: nat, bit: bool)
    requires k < 8 && (k != 0 ==> packed != [] && packed[|packed| - 1] < Pow2(k))
    ensures var grown: Bytes := if k == 0 then packed + [0] else packed;
            var last := |grown| - 1;
            SetBit(grown[last], k) < 256 &&
            Pushed(packed, k, bit) ==
              if bit then grown[last := SetBit(grown[last], k)] else grown
  {
    var grown: Bytes := if k == 0 then packed + [0] else packed;
    assert Pow2(0) == 1;
    SetClearBit(grown[|grown| - 1], k);
    hide SetBit, Pow2;
  }
}
