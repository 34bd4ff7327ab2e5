/**
 * Tree addressing (`vm/src/axis.rs`): an index is a one bit followed by left (0) and right (1) steps.
 *
 * `Slot` is the recursive definition of an address; the two iterators and the walking loop are shown to
 * compute it for indices of any length.
 */
module Axis {
  import opened Basics
  import opened Nouns

  datatype AxisError = IndexOutOfRange | CellAsIndex

  /** The subtree at an address: 1 is the noun itself, 2a and 2a+1 are the children of what a addresses. */
  function Slot(index: nat, n: Noun): Option<Noun> {
    if index == 0 then None
    else if index == 1 then Some(n)
    else
      match Slot(index / 2, n)
      case Some(Cell(l, r)) => Some(if index % 2 == 0 then l else r)
      case _ => None
  }

  function AxisResult(index: Noun, n: Noun): Result<Noun, AxisError> {
    match index
    case Cell(_, _) => Err(CellAsIndex)
    case Atom(bs) =>
      match Slot(LeValue(bs), n)
      case Some(x) => Ok(x)
      case None => Err(IndexOutOfRange)
  }

  /** Walk from the root: each bit steps right (true) or left (false). */
  function Walk(n: Noun, path: seq<bool>): Option<Noun> {
    if path == [] then Some(n)
    else
      match n
      case Atom(_) => None
      case Cell(l, r) => Walk(if path[0] then r else l, path[1..])
  }

  /** The number whose bits are given, most significant first. */
  function BitsValue(bits: seq<bool>): nat {
    if bits == [] then 0
    else 2 * BitsValue(bits[..|bits| - 1]) + if bits[|bits| - 1] then 1 else 0
  }

  /** The low `count` bits of a number, most significant first. */
  function LowBits(r: nat, count: nat): (bits: seq<bool>)
    ensures |bits| == count
  {
    if count == 0 then []
    else [r / Pow2(count - 1) % 2 == 1] + LowBits(r % Pow2(count - 1), count - 1)
  }

  function ByteBits(b: Byte): seq<bool> {
    LowBits(b, 8)
  }

  /** The bits of a little-endian byte string, most significant first. */
  function LeBits(bs: Bytes): seq<bool> {
    if bs == [] then [] else LeBits(bs[1..]) + ByteBits(bs[0])
  }

  lemma {:induction false} LeBitsSnoc(bs: Bytes, b: Byte)
    ensures LeBits(bs + [b]) == ByteBits(b) + LeBits(bs)
  {
    if bs == [] {
      assert [b][1..] == [];
      assert bs + [b] == [b];
    } else {
      LeBitsSnoc(bs[1..], b);
      assert (bs + [b])[1..] == bs[1..] + [b];
      assert (ByteBits(b) + LeBits(bs[1..])) + ByteBits(bs[0]) == ByteBits(b) + (LeBits(bs[1..]) + ByteBits(bs[0]));
    }
  }

  lemma BitsValueSnoc(bits: seq<bool>, b: bool)
    ensures BitsValue(bits + [b]) == 2 * BitsValue(bits) + if b then 1 else 0
  {
    assert (bits + [b])[..|bits|] == bits;
  }

  lemma {:induction false} LowBitsValue(bits: seq<bool>, r: nat, count: nat)
    requires r < Pow2(count)
    ensures BitsValue(bits + LowBits(r, count)) == Pow2(count) * BitsValue(bits) + r
    decreases count
  {
    if count == 0 {
      assert bits + [] == bits;
    } else {
      var p := Pow2(count - 1);
      var top := r / p % 2 == 1;
      SplitTop(r, p);
      LowBitsValue(bits + [top], r % p, count - 1);
      BitsValueSnoc(bits, top);
      assert LowBits(r, count) == [top] + LowBits(r % p, count - 1);
      hide Pow2, BitsValue, LowBits;
      assert (bits + [top]) + LowBits(r % p, count - 1) == bits + LowBits(r, count);
      PushTop(p, BitsValue(bits), if top then 1 else 0, r % p);
    }
  }

  lemma PushTop(p: nat, v: nat, top: nat, rest: nat)
    ensures p * (2 * v + top) + rest == 2 * p * v + (top * p + rest)
  {
  }

  lemma SplitTop(r: nat, p: nat)
    requires p >= 1 && r < 2 * p
    ensures r / p < 2
    ensures r == (if r / p % 2 == 1 then 1 else 0) * p + r % p
    ensures r % p < p
  {
    if r < p {
      assert r / p == 0;
    } else {
      assert r == p * 1 + (r - p);
      assert r / p == 1;
    }
  }

  lemma {:induction false} LeBitsValue(bs: Bytes)
    ensures BitsValue(LeBits(bs)) == LeValue(bs)
  {
    if bs != [] {
      LeBitsValue(bs[1..]);
      assert Pow2(8) == 256;
      LowBitsValue(LeBits(bs[1..]), bs[0], 8);
    }
  }

  lemma {:induction false} WalkSnoc(n: Noun, path: seq<bool>, step: bool)
    ensures Walk(n, path + [step]) ==
            match Walk(n, path)
            case Some(Cell(l, r)) => Some(if step then r else l)
            case _ => None
  {
    if path == [] {
      assert path + [step] == [step];
      assert [step][1..] == [];
    } else if n.Cell? {
      WalkSnoc(if path[0] then n.right else n.left, path[1..], step);
      assert (path + [step])[1..] == path[1..] + [step];
    }
  }

  lemma {:induction false} BitsValuePositive(bits: seq<bool>)
    requires bits != [] && bits[0]
    ensures BitsValue(bits) >= 1
    ensures |bits| > 1 ==> BitsValue(bits) >= 2
  {
    if |bits| > 1 {
      BitsValuePositive(bits[..|bits| - 1]);
    }
  }

  /** The bits after the leading one are the walk from the root. */
  lemma {:induction false} SlotIsWalk(bits: seq<bool>, n: Noun)
    requires bits != [] && bits[0]
    ensures Slot(BitsValue(bits), n) == Walk(n, bits[1..])
  {
    if |bits| == 1 {
      assert bits[..0] == [];
      assert BitsValue(bits) == 1;
    } else {
      var init, last := bits[..|bits| - 1], bits[|bits| - 1];
      SlotIsWalk(init, n);
      BitsValuePositive(bits);
      BitsValuePositive(init);
      assert BitsValue(bits) / 2 == BitsValue(init);
      WalkSnoc(n, init[1..], last);
      assert bits[1..] == init[1..] + [last];
    }
  }

  lemma {:induction false} BitsValueLeadingZero(bits: seq<bool>)
    ensures BitsValue([false] + bits) == BitsValue(bits)
  {
    if bits == [] {
      assert [false] + bits == [false];
      assert [false][..0] == [];
    } else {
      BitsValueLeadingZero(bits[..|bits| - 1]);
      assert ([false] + bits)[..|bits|] == [false] + bits[..|bits| - 1];
    }
  }

  /** A sentinel word holds these bits: bit 8 now and the rest after a shift, until the low byte is clear. */
  ghost predicate Holds(data: nat, bits: seq<bool>)
    decreases |bits|
  {
    if bits == [] then data % 256 == 0
    else data % 256 != 0 && (data / 256 % 2 != 0) == bits[0] && Holds(data * 2 % 65536, bits[1..])
  }

  /** A word whose bits from bit 8 down are the low bits of `r` and then a sentinel. */
  ghost predicate Loaded(data: nat, high: nat, r: nat, count: nat) {
    count <= 8 && r < Pow2(count) && data == 512 * high + (2 * r + 1) * Pow2(8 - count)
  }

  lemma LoadedStep(data: nat, high: nat, r: nat, count: nat)
    requires Loaded(data, high, r, count) && count > 0
    ensures data % 256 != 0 && (data / 256 % 2 != 0) == LowBits(r, count)[0]
    ensures Loaded(data * 2 % 65536, (2 * high + data / 256 % 2) % 128, r % Pow2(count - 1), count - 1)
  {
    var p := Pow2(count - 1);
    SplitTop(r, p);
    UnitTimesTop(count);
    SentinelStep(data, high, r, p, Pow2(8 - count), if r / p % 2 == 1 then 1 else 0, r % p);
    assert Pow2(8 - (count - 1)) == 2 * Pow2(8 - count);
  }

  lemma SentinelStep(data: nat, high: nat, r: nat, p: nat, unit: nat, top: nat, rest: nat)
    requires unit >= 1 && unit * p == 128 && top < 2
    requires r == top * p + rest && rest < p
    requires data == 512 * high + (2 * r + 1) * unit
    ensures data % 256 != 0 && data / 256 % 2 == top
    ensures data * 2 % 65536 == 512 * ((2 * high + top) % 128) + (2 * rest + 1) * (2 * unit)
  {
    SentinelSplit(r, p, unit, top, rest);
    SentinelShift(data, high, top, (2 * rest + 1) * unit);
    assert (2 * rest + 1) * (2 * unit) == 2 * ((2 * rest + 1) * unit);
  }

  lemma {:induction false} SentinelHolds(data: nat, high: nat, r: nat, count: nat)
    requires Loaded(data, high, r, count)
    ensures Holds(data, LowBits(r, count))
    decreases count
  {
    if count == 0 {
      assert data == 512 * high + 256;
    } else {
      LoadedStep(data, high, r, count);
      SentinelHolds(data * 2 % 65536, (2 * high + data / 256 % 2) % 128, r % Pow2(count - 1), count - 1);
      assert LowBits(r, count)[1..] == LowBits(r % Pow2(count - 1), count - 1);
    }
  }

  lemma UnitTimesTop(count: nat)
    requires 1 <= count <= 8
    ensures Pow2(8 - count) * Pow2(count - 1) == 128
  {
    Pow2Sum(8 - count, count - 1);
    assert Pow2(7) == 128;
  }

  lemma SentinelSplit(r: nat, p: nat, unit: nat, top: nat, rest: nat)
    requires unit >= 1 && unit * p == 128 && top < 2
    requires r == top * p + rest && rest < p
    ensures (2 * r + 1) * unit == 256 * top + (2 * rest + 1) * unit
    ensures 0 < (2 * rest + 1) * unit < 256
  {
    if top == 0 {
      assert r == rest;
    } else {
      assert (2 * (p + rest) + 1) * unit == 2 * (unit * p) + (2 * rest + 1) * unit;
    }
    assert (2 * rest + 1) * unit <= (2 * (p - 1) + 1) * unit == 2 * (unit * p) - unit;
  }

  lemma SentinelShift(data: nat, high: nat, top: nat, low: nat)
    requires top < 2 && 0 < low < 256
    requires data == 512 * high + 256 * top + low
    ensures data % 256 != 0 && data / 256 % 2 == top
    ensures data * 2 % 65536 == 512 * ((2 * high + top) % 128) + 2 * low
  {
    assert data == 256 * (2 * high + top) + low;
    assert data / 256 == 2 * high + top;
    var h := 2 * high + top;
    assert data * 2 == 65536 * (h / 128) + (512 * (h % 128) + 2 * low);
  }

  /** The bits of one byte, kept above a sentinel one bit that marks the end. */
  class ByteBitIterator {
    var data: nat
    ghost var bits: seq<bool>

    ghost predicate Valid()
      reads this
    {
      Holds(data, bits)
    }

    constructor (b: Byte)
      ensures Valid() && bits == ByteBits(b)
    {
      data := 2 * b + 1;
      bits := ByteBits(b);
      new;
      assert Pow2(8) == 256;
      assert Pow2(0) == 1;
      SentinelHolds(data, 0, b, 8);
    }

    constructor Empty()
      ensures Valid() && bits == []
    {
      data := 0;
      bits := [];
    }

    method Next() returns (r: Option<bool>)
      requires Valid()
      modifies this
      ensures Valid()
      ensures old(bits) == [] ==> r == None && bits == []
      ensures old(bits) != [] ==> r == Some(old(bits)[0]) && bits == old(bits)[1..]
    {
      if data % 256 == 0 {
        return None;
      }
      r := Some(data / 256 % 2 != 0);
      data := data * 2 % 65536;
      bits := bits[1..];
    }
  }

  /** The bits of a byte slice, from its last byte to its first. */
  class ByteSliceBitIterator {
    var inner: Bytes
    var currentByte: ByteBitIterator

    ghost function Remaining(): seq<bool>
      reads this, currentByte
    {
      currentByte.bits + LeBits(inner)
    }

    ghost predicate Valid()
      reads this, currentByte
    {
      currentByte.Valid()
    }

    constructor (bs: Bytes)
      ensures Valid() && Remaining() == LeBits(bs)
      ensures fresh(currentByte)
    {
      if |bs| > 0 {
        var last := new ByteBitIterator(bs[|bs| - 1]);
        inner := bs[..|bs| - 1];
        currentByte := last;
        LeBitsSnoc(bs[..|bs| - 1], bs[|bs| - 1]);
        assert bs == bs[..|bs| - 1] + [bs[|bs| - 1]];
      } else {
        var none := new ByteBitIterator.Empty();
        inner := bs;
        currentByte := none;
      }
    }

    method Next() returns (r: Option<bool>)
      requires Valid()
      modifies this, currentByte
      ensures Valid()
      ensures currentByte == old(currentByte) || fresh(currentByte)
      ensures old(Remaining()) == [] ==> r == None && Remaining() == []
      ensures old(Remaining()) != [] ==> r == Some(old(Remaining())[0]) && Remaining() == old(Remaining())[1..]
    {
      ghost var before := Remaining();
      var bit := currentByte.Next();
      if bit.Some? {
        assert Remaining() == before[1..];
        return bit;
      }
      if inner == [] {
        return None;
      }
      var last := inner[|inner| - 1];
      LeBitsSnoc(inner[..|inner| - 1], last);
      assert inner == inner[..|inner| - 1] + [last];
      assert before == ByteBits(last) + LeBits(inner[..|inner| - 1]);
      currentByte := new ByteBitIterator(last);
      inner := inner[..|inner| - 1];
      r := currentByte.Next();
      assert Remaining() == before[1..];
    }
  }

  lemma {:induction false} BitsValueZeros(bits: seq<bool>)
    requires forall i :: 0 <= i < |bits| ==> !bits[i]
    ensures BitsValue(bits) == 0
  {
    if bits != [] {
      BitsValueZeros(bits[..|bits| - 1]);
    }
  }

  /** Follow the bits an iterator produces; the first one bit is the root. */
  method AxisFor(subject: Noun, bits: ByteSliceBitIterator) returns (r: Result<Noun, AxisError>)
    requires bits.Valid()
    modifies bits, bits.currentByte
    ensures r == match Slot(BitsValue(old(bits.Remaining())), subject)
                 case Some(x) => Ok(x)
                 case None => Err(IndexOutOfRange)
  {
    ghost var value := BitsValue(bits.Remaining());
    var started := false;
    while !started
      invariant bits.Valid()
      invariant bits.currentByte == old(bits.currentByte) || fresh(bits.currentByte)
      invariant !started ==> BitsValue(bits.Remaining()) == value
      invariant started ==> BitsValue([true] + bits.Remaining()) == value
      decreases !started, |bits.Remaining()|
    {
      ghost var before := bits.Remaining();
      var bit := bits.Next();
      match bit {
        case None =>
          return Err(IndexOutOfRange);
        case Some(b) =>
          assert before == [b] + bits.Remaining();
          if b {
            started := true;
          } else {
            BitsValueLeadingZero(bits.Remaining());
          }
      }
    }
    ghost var path := bits.Remaining();
    SlotIsWalk([true] + path, subject);
    assert ([true] + path)[1..] == path;
    var trace := subject;
    while true
      invariant bits.Valid()
      invariant bits.currentByte == old(bits.currentByte) || fresh(bits.currentByte)
      invariant Walk(trace, bits.Remaining()) == Walk(subject, path)
      decreases |bits.Remaining()|
    {
      var goRight := bits.Next();
      match goRight {
        case None => break;
        case Some(right) =>
          match trace {
            case Cell(x, y) => trace := if right then y else x;
            case Atom(_) => return Err(IndexOutOfRange);
          }
      }
    }
    r := Ok(trace);
  }

  /** `Noun::axis`: the slot named by the index's little-endian value, for atoms of any length. */
  method AxisOf(subject: Noun, index: Noun) returns (r: Result<Noun, AxisError>)
    ensures r == AxisResult(index, subject)
  {
    match index {
      case Atom(bs) =>
        var bits := new ByteSliceBitIterator(bs);
        LeBitsValue(bs);
        r := AxisFor(subject, bits);
      case Cell(_, _) =>
        r := Err(CellAsIndex);
    }
  }
}
