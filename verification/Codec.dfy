/**
 * The encoder and the decoder together: decoding undoes encoding, encodings are unique, and comparing
 * encodings is comparing nouns.
 */
module Codec {
  import opened Basics
  import opened Nouns
  import opened Bits
  import opened Serialize
  import opened Deserialize
  import opened Equal

  /** Every atom's length fits the decoder's nine length groups, as every length in memory does. */
  predicate Storable(n: Noun) {
    match n
    case Atom(bs) => |bs| < Pow2(63)
    case Cell(l, r) => Storable(l) && Storable(r)
  }

  lemma {:induction false} ReadLengthOfVarint(len: nat, group: nat, sum: nat, rest: Bytes)
    requires group < LENGTH_GROUPS && len < Pow2(63 - 7 * group)
    ensures ReadLength(Varint(len) + rest, group, sum) == Ok((sum + len * Pow2(7 * group), rest))
    decreases len
  {
    hide Pow2;
    var stream := Varint(len) + rest;
    if len < 128 {
      assert stream[1..] == rest;
    } else {
      assert stream[1..] == Varint(len / 128) + rest && stream[0] == len % 128 + 128;
      hide Varint;
      DivMod(len % 128 + 128, 1, len % 128, 128);
      VarintStep(len, group);
      ReadLengthOfVarint(len / 128, group + 1, sum + len % 128 * Pow2(7 * group), rest);
    }
  }

  lemma VarintStep(len: nat, group: nat)
    requires group < LENGTH_GROUPS && 128 <= len < Pow2(63 - 7 * group)
    ensures group + 1 < LENGTH_GROUPS && len / 128 < Pow2(63 - 7 * (group + 1))
    ensures len % 128 * Pow2(7 * group) + len / 128 * Pow2(7 * (group + 1)) == len * Pow2(7 * group)
  {
    assert Pow2(7) == 128;
    assert group + 1 < LENGTH_GROUPS;
    Pow2Sum(7, 63 - 7 * (group + 1));
    Pow2Sum(7, 7 * group);
    SplitGroup(len, Pow2(7 * group));
  }

  lemma SplitGroup(len: nat, p: nat)
    ensures len % 128 * p + len / 128 * (128 * p) == len * p
  {
    assert len / 128 * (128 * p) == len / 128 * 128 * p;
    Distribute(len / 128 * 128, len % 128, p);
  }

  lemma ReadAtomOfEncoding(bs: Bytes, rest: Bytes)
    requires |bs| < Pow2(63)
    ensures ReadAtom(EncodeAtom(bs) + rest) == Ok((Atom(bs), rest))
  {
    if |bs| <= 64 {
      ReadShortAtom(bs, rest);
    } else {
      ReadLongAtom(bs, rest);
    }
  }

  lemma ReadShortAtom(bs: Bytes, rest: Bytes)
    requires |bs| <= 64
    ensures ReadAtom(EncodeAtom(bs) + rest) == Ok((Atom(bs), rest))
  {
    hide ReadLength, Varint, ReadBody;
    var stream := EncodeAtom(bs) + rest;
    if IsLiteralByte(bs) {
      assert bs == [bs[0]];
      assert stream[1..] == rest;
    } else {
      assert stream[1..] == bs + rest;
      ReadBodyOf(bs, rest);
    }
  }

  lemma ReadLongAtom(bs: Bytes, rest: Bytes)
    requires 64 < |bs| < Pow2(63)
    ensures ReadAtom(EncodeAtom(bs) + rest) == Ok((Atom(bs), rest))
  {
    hide EncodeAtom, ReadAtom, Pow2, Varint, ReadLength, ReadBody;
    LongAtomStream(bs, rest);
    ReadWholeLength(|bs|, bs + rest);
    ReadBodyOf(bs, rest);
    ReadCounted(EncodeAtom(bs) + rest);
  }

  lemma ReadWholeLength(len: nat, rest: Bytes)
    requires len < Pow2(63)
    ensures ReadLength(Varint(len) + rest, 0, 0) == Ok((len, rest))
  {
    hide Varint, ReadLength;
    ReadLengthOfVarint(len, 0, 0, rest);
    assert Pow2(0) == 1;
  }

  lemma LongAtomStream(bs: Bytes, rest: Bytes)
    requires |bs| > 64
    ensures var stream := EncodeAtom(bs) + rest; stream[0] == 255 && stream[1..] == Varint(|bs|) + (bs + rest)
  {
    hide Varint;
    assert EncodeAtom(bs) == [255] + Varint(|bs|) + bs;
    Headed(255, Varint(|bs|), bs, rest);
  }

  lemma ReadCounted(stream: Bytes)
    requires stream != [] && stream[0] == 255 && ReadLength(stream[1..], 0, 0).Ok?
    ensures ReadAtom(stream) == ReadBody(ReadLength(stream[1..], 0, 0).value.1, ReadLength(stream[1..], 0, 0).value.0)
  {
    hide ReadLength, ReadBody;
  }

  lemma ReadBodyOf(bs: Bytes, rest: Bytes)
    ensures ReadBody(bs + rest, |bs|) == Ok((Atom(bs), rest))
  {
    assert (bs + rest)[..|bs|] == bs && (bs + rest)[|bs|..] == rest;
  }

  /** Decoding the two streams of a noun gives it back and leaves both exactly where they were continued. */
  lemma {:induction false} ReadNounOfEncoding(n: Noun, rest: Bytes, bits: seq<bool>)
    requires Storable(n)
    ensures ReadNoun(EncodeAtoms(n) + rest, StructureBits(n) + bits) == Ok((n, rest, bits))
    decreases n
  {
    hide ReadNoun, ReadAtom, EncodeAtoms, EncodeAtom, StructureBits;
    match n
    case Atom(bs) =>
      AtomStreams(bs, bits);
      ReadAtomOfEncoding(bs, rest);
      ReadOneAtom(EncodeAtom(bs) + rest, [false] + bits);
      assert ([false] + bits)[1..] == bits;
    case Cell(l, r) =>
      CellStreams(l, r, rest, bits);
      ReadNounOfEncoding(l, EncodeAtoms(r) + rest, StructureBits(r) + bits);
      ReadNounOfEncoding(r, rest, bits);
      ReadOneCell(EncodeAtoms(n) + rest, StructureBits(n) + bits);
  }

  lemma AtomStreams(bs: Bytes, bits: seq<bool>)
    ensures EncodeAtoms(Atom(bs)) == EncodeAtom(bs) && StructureBits(Atom(bs)) == [false]
  {
  }

  lemma ReadOneAtom(stream: Bytes, bits: seq<bool>)
    requires bits != [] && !bits[0] && ReadAtom(stream).Ok?
    ensures ReadNoun(stream, bits) == Ok((ReadAtom(stream).value.0, ReadAtom(stream).value.1, bits[1..]))
  {
    hide ReadAtom;
  }

  lemma CellStreams(l: Noun, r: Noun, rest: Bytes, bits: seq<bool>)
    ensures var n := Cell(l, r);
            EncodeAtoms(n) + rest == EncodeAtoms(l) + (EncodeAtoms(r) + rest) &&
            (StructureBits(n) + bits)[0] &&
            (StructureBits(n) + bits)[1..] == StructureBits(l) + (StructureBits(r) + bits)
  {
    hide EncodeAtom;
    Associate(EncodeAtoms(l), EncodeAtoms(r), rest);
    Headed(true, StructureBits(l), StructureBits(r), bits);
  }

  lemma Headed<T>(x: T, a: seq<T>, b: seq<T>, c: seq<T>)
    ensures ([x] + a + b + c)[0] == x && ([x] + a + b + c)[1..] == a + (b + c)
  {
  }

  lemma ReadOneCell(stream: Bytes, bits: seq<bool>)
    requires bits != [] && bits[0] && ReadNoun(stream, bits[1..]).Ok?
    requires ReadNoun(ReadNoun(stream, bits[1..]).value.1, ReadNoun(stream, bits[1..]).value.2).Ok?
    ensures var left := ReadNoun(stream, bits[1..]).value;
            var right := ReadNoun(left.1, left.2).value;
            ReadNoun(stream, bits) == Ok((Cell(left.0, right.0), right.1, right.2))
  {
    hide ReadAtom;
  }

  lemma {:induction false} ReadLengthLocal(stream: Bytes, group: nat, sum: nat, more: Bytes)
    requires ReadLength(stream, group, sum).Ok?
    ensures var (len, rest) := ReadLength(stream, group, sum).value;
            ReadLength(stream + more, group, sum) == Ok((len, rest + more))
    decreases |stream|
  {
    assert (stream + more)[1..] == stream[1..] + more;
    if stream[0] >= 128 {
      ReadLengthLocal(stream[1..], group + 1, sum + stream[0] % 128 * Pow2(7 * group), more);
    }
  }

  lemma ReadAtomLocal(stream: Bytes, more: Bytes)
    requires ReadAtom(stream).Ok?
    ensures var (atom, rest) := ReadAtom(stream).value;
            ReadAtom(stream + more) == Ok((atom, rest + more))
    ensures ReadAtom(stream).value.0.Atom?
  {
    assert (stream + more)[1..] == stream[1..] + more;
    if stream[0] == 255 {
      ReadLengthLocal(stream[1..], 0, 0, more);
      var (len, rest) := ReadLength(stream[1..], 0, 0).value;
      assert (rest + more)[..len] == rest[..len];
      assert (rest + more)[len..] == rest[len..] + more;
    } else if stream[0] >= 190 {
      var len := stream[0] - 190;
      assert (stream[1..] + more)[..len] == stream[1..][..len];
      assert (stream[1..] + more)[len..] == stream[1..][len..] + more;
    }
  }

  /** A successful decoding has consumed exactly the shape of its result, and only looked at what it consumed. */
  lemma {:induction false} ReadNounLocal(stream: Bytes, bits: seq<bool>, more: Bytes, moreBits: seq<bool>)
    requires ReadNoun(stream, bits).Ok?
    ensures var (n, rest, restBits) := ReadNoun(stream, bits).value;
            bits == StructureBits(n) + restBits &&
            ReadNoun(stream + more, StructureBits(n) + moreBits) == Ok((n, rest + more, moreBits))
    decreases |bits|
  {
    var (n, rest, restBits) := ReadNoun(stream, bits).value;
    if bits[0] {
      var (l, rest1, bits1) := ReadNoun(stream, bits[1..]).value;
      ReadNounLocal(stream, bits[1..], more, StructureBits(n.right) + moreBits);
      ReadNounLocal(rest1, bits1, more, moreBits);
      CellBits(bits, n, bits1, restBits, moreBits);
    } else {
      ReadAtomLocal(stream, more);
      assert bits == [false] + bits[1..];
      assert (StructureBits(n) + moreBits)[1..] == moreBits;
    }
  }

  lemma CellBits(bits: seq<bool>, n: Noun, bits1: seq<bool>, restBits: seq<bool>, moreBits: seq<bool>)
    requires n.Cell? && bits != [] && bits[0]
    requires bits[1..] == StructureBits(n.left) + bits1
    requires bits1 == StructureBits(n.right) + restBits
    ensures bits == StructureBits(n) + restBits
    ensures StructureBits(n) + moreBits == [true] + (StructureBits(n.left) + (StructureBits(n.right) + moreBits))
  {
    Regroup([true], StructureBits(n.left), StructureBits(n.right), restBits);
    Regroup([true], StructureBits(n.left), StructureBits(n.right), moreBits);
    assert bits == [true] + bits[1..];
  }

  lemma Regroup<T>(a: seq<T>, b: seq<T>, c: seq<T>, d: seq<T>)
    ensures a + b + c + d == a + (b + (c + d))
  {
  }

  /** The parts of a successful encoding, as the decoder meets them. */
  lemma EncodingParts(n: Noun, max: nat)
    requires max < Pow2(63) && Encode(n, max).Ok?
    ensures Storable(n)
    ensures |EncodeAtoms(n)| < USIZE_LIMIT
    ensures Encode(n, max).value ==
              EncodeAtom(CompactBytes(|EncodeAtoms(n)|)) + (EncodeAtoms(n) + Pack(StructureBits(n)))
    ensures ReadAtom(Encode(n, max).value) ==
              Ok((FromCompact(|EncodeAtoms(n)|), EncodeAtoms(n) + Pack(StructureBits(n))))
  {
    hide EncodeAtom, EncodeAtoms, ReadAtom, Pack, StructureBits, CompactBytes, Storable, AppendAtom, AppendAtoms,
      EndsWithLiteralByte;
    Pow2SixtyThree();
    EncodeShape(n, max);
    ShortAtoms(n);
    var len := |EncodeAtoms(n)|;
    LengthPrefixNeverFails(len);
    ReadAtomOfEncoding(CompactBytes(len), EncodeAtoms(n) + Pack(StructureBits(n)));
    Associate(EncodeAtom(CompactBytes(len)), EncodeAtoms(n), Pack(StructureBits(n)));
  }

  lemma SumParts(a: Bytes, b: Bytes)
    ensures (a + b)[..|a|] == a && (a + b)[|a|..] == b
  {
  }

  lemma {:induction false} ShortAtoms(n: Noun)
    requires |EncodeAtoms(n)| < Pow2(63)
    ensures Storable(n)
  {
    match n
    case Atom(_) =>
    case Cell(l, r) =>
      ShortAtoms(l);
      ShortAtoms(r);
  }

  /** The decoder's two streams, when the length prefix is read as it was meant. */
  lemma DecodeOwnStreams(n: Noun)
    requires Storable(n)
    ensures DecodeStreams(EncodeAtoms(n), Pack(StructureBits(n))) == Ok(n)
  {
    hide ReadNoun, Pack, Unpack, Storable;
    var bits := StructureBits(n);
    UnpackOfPack(bits);
    var padding := Zeros(8 * |Pack(bits)| - |bits|);
    ReadNounOfEncoding(n, [], padding);
    assert EncodeAtoms(n) + [] == EncodeAtoms(n);
  }

  /** Streams split anywhere else do not decode to the noun. */
  lemma DecodeMisplacedStreams(n: Noun, cut: nat)
    requires Storable(n) && cut <= |EncodeAtoms(n) + Pack(StructureBits(n))|
    requires var both := EncodeAtoms(n) + Pack(StructureBits(n));
             DecodeStreams(both[..cut], both[cut..]) == Ok(n)
    ensures cut == |EncodeAtoms(n)|
  {
    var both := EncodeAtoms(n) + Pack(StructureBits(n));
    ReadNounLocal(both[..cut], Unpack(both[cut..]), both[cut..], []);
    ReadNounOfEncoding(n, Pack(StructureBits(n)), []);
    assert both[..cut] + both[cut..] == both;
    assert [] + both[cut..] == both[cut..];
  }

  /**
   * The round trip. The length prefix is written with its most significant byte first and read with its least
   * significant byte first, so a noun comes back exactly when those agree on the length of its atom stream.
   */
  lemma RoundTrip(n: Noun, max: nat)
    requires max < Pow2(63) && Encode(n, max).Ok?
    ensures Decode(Encode(n, max).value) == Ok(n) <==> Readable(|EncodeAtoms(n)|)
  {
    hide Encode, EncodeAtoms, EncodeAtom, AppendAtom, StructureBits, Pack, ReadAtom, Storable, DecodeStreams,
      CompactBytes;
    EncodingParts(n, max);
    var len := |EncodeAtoms(n)|;
    var both := EncodeAtoms(n) + Pack(StructureBits(n));
    LengthPrefixNeverFails(len);
    LeValueBound(CompactBytes(len));
    PrefixFits(CompactBytes(len));
    var cut := LeValue(CompactBytes(len));
    if cut == len {
      SumParts(EncodeAtoms(n), Pack(StructureBits(n)));
      DecodeOwnStreams(n);
    } else if Decode(Encode(n, max).value) == Ok(n) {
      DecodeMisplacedStreams(n, cut);
    }
  }

  lemma PrefixFits(bs: Bytes)
    requires |bs| <= 8
    ensures LeValue(bs) < USIZE_LIMIT
  {
    LeValueBound(bs);
    assert Pow256(4) == 256 * Pow256(3) == 65536 * Pow256(2) == 0x1_0000_0000;
    Pow256Sum(4, 4);
    Pow256Sum(|bs|, 8 - |bs|);
    MultiplyLe(1, Pow256(8 - |bs|), Pow256(|bs|));
  }

  /** In particular every noun whose atom stream is shorter than 256 bytes comes back. */
  lemma ShortRoundTrip(n: Noun, max: nat)
    requires max < Pow2(63) && Encode(n, max).Ok? && |EncodeAtoms(n)| < 256
    ensures Decode(Encode(n, max).value) == Ok(n)
  {
    ByteIsReadable(|EncodeAtoms(n)|);
    RoundTrip(n, max);
  }

  /** Different nouns have different encodings, whatever their size and whatever limits they were encoded under. */
  lemma EncodingsAreUnique(a: Noun, b: Noun, maxA: nat, maxB: nat)
    requires maxA < Pow2(63) && maxB < Pow2(63)
    requires Encode(a, maxA).Ok? && Encode(b, maxB).Ok?
    requires Encode(a, maxA) == Encode(b, maxB)
    ensures a == b
  {
    EncodingParts(a, maxA);
    EncodingParts(b, maxB);
    var lenA, lenB := |EncodeAtoms(a)|, |EncodeAtoms(b)|;
    CompactBytesValue(lenA);
    CompactBytesValue(lenB);
    assert lenA == lenB;
    var both := EncodeAtoms(a) + Pack(StructureBits(a));
    assert both[..lenA] == EncodeAtoms(a) && both[lenA..] == Pack(StructureBits(a));
    assert both[..lenA] == EncodeAtoms(b) && both[lenA..] == Pack(StructureBits(b));
    DecodeOwnStreams(a);
    DecodeOwnStreams(b);
  }

  /** When the meter lasts, `equal` answers true on exactly the nouns whose encodings are byte for byte the same. */
  lemma EqualIffSameEncoding(a: Noun, b: Noun, count: nat, maxA: nat, maxB: nat)
    requires maxA < Pow2(63) && maxB < Pow2(63)
    requires Encode(a, maxA).Ok? && Encode(b, maxB).Ok?
    requires Compare(a, b, count).0.Some?
    ensures Compare(a, b, count).0.value <==> Encode(a, maxA).value == Encode(b, maxB).value
  {
    CompareIsEquality(a, b, count);
    if Encode(a, maxA).value == Encode(b, maxB).value {
      EncodingsAreUnique(a, b, maxA, maxB);
    } else if a == b {
      Pow2SixtyThree();
      EncodeShape(a, maxA);
      EncodeShape(b, maxB);
    }
  }

  /** A noun with a 256-byte atom stream is lost: its length prefix 01 00 is read back as 1. */
  lemma LongNounIsLost(n: Noun, max: nat)
    requires max < Pow2(63) && Encode(n, max).Ok? && |EncodeAtoms(n)| == 256
    ensures Decode(Encode(n, max).value) != Ok(n)
  {
    FirstUnreadable();
    RoundTrip(n, max);
  }
}
