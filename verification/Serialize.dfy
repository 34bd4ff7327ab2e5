/**
 * The noun encoder (`vm/src/serialize.rs`): all atoms, left to right, in one byte stream, and the tree's
 * shape as a bit stream after it, prefixed by the length of the first.
 */
module Serialize {
  import opened Basics
  import opened Nouns
  import opened Bits

  datatype SerializationError = OverlongAtom | MaximumLengthExceeded

  /** A length in 7-bit groups, least significant first; all but the last have their top bit set. */
  function Varint(n: nat): (r: Bytes)
    ensures |r| >= 1
  {
    if n < 128 then [n] else [n % 128 + 128] + Varint(n / 128)
  }

  function AtomHeader(len: nat): (r: Bytes)
    ensures |r| >= 1
  {
    if len <= 64 then [len + 190] else [255] + Varint(len)
  }

  predicate IsLiteralByte(bs: Bytes) {
    |bs| == 1 && bs[0] < 190
  }

  function EncodeAtom(bs: Bytes): (r: Bytes)
    ensures |r| >= 1
  {
    if IsLiteralByte(bs) then bs else AtomHeader(|bs|) + bs
  }

  /** The atom stream of a noun. */
  function EncodeAtoms(n: Noun): (r: Bytes)
    ensures |r| >= Leaves(n)
  {
    match n
    case Atom(bs) => EncodeAtom(bs)
    case Cell(l, r) => EncodeAtoms(l) + EncodeAtoms(r)
  }

  /** The structure stream of a noun: a one for each pair and a zero for each atom, parents first. */
  function StructureBits(n: Noun): (r: seq<bool>)
    ensures |r| == 2 * Leaves(n) - 1
  {
    match n
    case Atom(_) => [false]
    case Cell(l, r) => [true] + StructureBits(l) + StructureBits(r)
  }

  /** Appending one atom to a stream limited to `max` bytes. */
  function AppendAtom(stream: Bytes, bs: Bytes, max: nat): Result<Bytes, SerializationError> {
    if IsLiteralByte(bs) then
      if |stream| >= max then Err(MaximumLengthExceeded) else Ok(stream + bs)
    else
      var headed := stream + AtomHeader(|bs|);
      if |bs| >= max || |headed| >= max - |bs| then Err(MaximumLengthExceeded) else Ok(headed + bs)
  }

  function AppendAtoms(stream: Bytes, n: Noun, max: nat): Result<Bytes, SerializationError>
    decreases n
  {
    match n
    case Atom(bs) => AppendAtom(stream, bs, max)
    case Cell(l, r) =>
      match AppendAtoms(stream, l, max)
      case Err(e) => Err(e)
      case Ok(stream') => AppendAtoms(stream', r, max)
  }

  const LENGTH_PREFIX_MAX: nat := 10

  function Encode(n: Noun, max: nat): Result<Bytes, SerializationError> {
    match AppendAtoms([], n, max)
    case Err(e) => Err(e)
    case Ok(atoms) =>
      match AppendAtom([], CompactBytes(|atoms|), LENGTH_PREFIX_MAX)
      case Err(e) => Err(e)
      case Ok(prefix) => Ok(prefix + atoms + Pack(StructureBits(n)))
  }

  predicate EndsWithLiteralByte(n: Noun) {
    match n
    case Atom(bs) => IsLiteralByte(bs)
    case Cell(_, r) => EndsWithLiteralByte(r)
  }

  /**
   * Exactly when the atom stream fits its limit. The limit itself can only be reached by a final literal byte.
   */
  lemma {:induction false} AppendAtomsFits(stream: Bytes, n: Noun, max: nat)
    ensures var total := |stream| + |EncodeAtoms(n)|;
            AppendAtoms(stream, n, max) ==
              if total < max || (total == max && EndsWithLiteralByte(n)) then Ok(stream + EncodeAtoms(n))
              else Err(MaximumLengthExceeded)
    decreases n
  {
    match n
    case Atom(bs) =>
      Associate(stream, AtomHeader(|bs|), bs);
    case Cell(l, r) =>
      AppendAtomsFits(stream, l, max);
      AppendAtomsFits(stream + EncodeAtoms(l), r, max);
      Associate(stream, EncodeAtoms(l), EncodeAtoms(r));
  }

  /** A 64-bit length always fits the length prefix. */
  lemma LengthPrefixNeverFails(len: nat)
    requires len < USIZE_LIMIT
    ensures AppendAtom([], CompactBytes(len), LENGTH_PREFIX_MAX) == Ok(EncodeAtom(CompactBytes(len)))
    ensures |CompactBytes(len)| <= 8
  {
    assert Pow256(4) == 256 * Pow256(3) == 65536 * Pow256(2) == 0x1_0000_0000;
    Pow256Sum(4, 4);
    CompactBytesLength(len, 8);
    AppendAtomsFits([], Atom(CompactBytes(len)), LENGTH_PREFIX_MAX);
    assert [] + EncodeAtom(CompactBytes(len)) == EncodeAtom(CompactBytes(len));
  }

  /** What an encoding consists of, and that its parts are bounded by the limit given. */
  lemma EncodeShape(n: Noun, max: nat)
    requires max < USIZE_LIMIT
    ensures Encode(n, max).Ok? <==> AppendAtoms([], n, max).Ok?
    ensures Encode(n, max).Ok? ==>
              Encode(n, max).value ==
                EncodeAtom(CompactBytes(|EncodeAtoms(n)|)) + EncodeAtoms(n) + Pack(StructureBits(n))
    ensures Encode(n, max).Ok? ==> Leaves(n) <= |EncodeAtoms(n)| <= max
    ensures |Pack(StructureBits(n))| == (2 * Leaves(n) - 1 + 7) / 8
  {
    AppendAtomsFits([], n, max);
    assert [] + EncodeAtoms(n) == EncodeAtoms(n);
    if AppendAtoms([], n, max).Ok? {
      LengthPrefixNeverFails(|EncodeAtoms(n)|);
    }
  }

  lemma BitsJoined(before: seq<bool>, left: seq<bool>, right: seq<bool>)
    ensures before + [true] + left + right == before + ([true] + left + right)
  {
  }

  class Serializer {
    var atomEncoding: Bytes
    var structure: BitVec
    const maximum: nat

    ghost predicate Valid()
      reads this, structure
    {
      structure.Valid()
    }

    constructor (maximum: nat)
      ensures Valid() && fresh(structure)
      ensures atomEncoding == [] && structure.bits == [] && this.maximum == maximum
    {
      atomEncoding := [];
      structure := new BitVec();
      this.maximum := maximum;
    }

    method SerializeAtom(bs: Bytes) returns (r: Result<(), SerializationError>)
      modifies `atomEncoding
      ensures AppendAtom(old(atomEncoding), bs, maximum) ==
                if r.Ok? then Ok(atomEncoding) else Err(r.error)
    {
      var len := |bs|;
      if IsLiteralByte(bs) {
        if |atomEncoding| >= maximum {
          return Err(MaximumLengthExceeded);
        }
        assert bs == [bs[0]];
        atomEncoding := atomEncoding + [bs[0]];
        return Ok(());
      }
      ghost var stream := atomEncoding;
      if len <= 64 {
        atomEncoding := atomEncoding + [len + 190];
      } else {
        atomEncoding := atomEncoding + [255];
        var remaining: nat := len;
        while remaining >= 128
          invariant atomEncoding + Varint(remaining) == stream + AtomHeader(len)
        {
          assert atomEncoding + Varint(remaining) == atomEncoding + [remaining % 128 + 128] + Varint(remaining / 128);
          atomEncoding := atomEncoding + [remaining % 128 + 128];
          remaining := remaining / 128;
        }
        atomEncoding := atomEncoding + [remaining];
      }
      if len >= maximum || |atomEncoding| >= maximum - len {
        return Err(MaximumLengthExceeded);
      }
      atomEncoding := atomEncoding + bs;
      r := Ok(());
    }

    method SerializeNoun(n: Noun) returns (r: Result<(), SerializationError>)
      requires Valid()
      modifies `atomEncoding, structure
      ensures Valid()
      ensures AppendAtoms(old(atomEncoding), n, maximum) == if r.Ok? then Ok(atomEncoding) else Err(r.error)
      ensures r.Ok? ==> structure.bits == old(structure.bits) + StructureBits(n)
      decreases n
    {
      hide Pack;
      match n {
        case Cell(lhs, rhs) =>
          ghost var before := structure.bits;
          structure.Push(true);
          r := SerializeNoun(lhs);
          if r.Err? {
            return;
          }
          r := SerializeNoun(rhs);
          BitsJoined(before, StructureBits(lhs), StructureBits(rhs));
        case Atom(bs) =>
          structure.Push(false);
          r := SerializeAtom(bs);
      }
    }
  }

  method SerializeToBytes(n: Noun, maximum: nat) returns (r: Result<Bytes, SerializationError>)
    ensures r == Encode(n, maximum)
  {
    var serializer := new Serializer(maximum);
    var done := serializer.SerializeNoun(n);
    if done.Err? {
      return Err(done.error);
    }
    var lengthEncoder := new Serializer(LENGTH_PREFIX_MAX);
    done := lengthEncoder.SerializeNoun(FromCompact(|serializer.atomEncoding|));
    if done.Err? {
      return Err(done.error);
    }
    assert [] + StructureBits(n) == StructureBits(n);
    r := Ok(lengthEncoder.atomEncoding + serializer.atomEncoding + serializer.structure.bytes);
  }
}
