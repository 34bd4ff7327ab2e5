/**
 * Cutting a noun's bytes into another shape (`vm/src/shape.rs`).
 *
 * The bytes come from a reader that walks the data noun and pays a tick for each byte it hands out. When it
 * cannot pay, the bytes it had already taken are lost and the caller's `read_exact` simply tries again. The
 * `Take` functions model that faithfully; the lemmas show that it never matters to a result.
 */
module Shape {
  import opened Basics
  import opened Nouns
  import opened Ticks

  datatype ShapeError = AllocationBoundExceeded | DataTooShort

  /** What the meter of allocations charges for one noun: `size_of::<Noun>()` on a 64-bit machine. */
  const NOUN_SIZE: nat := 24

  /** The atoms of a noun that have any bytes, left to right. */
  function Chunks(n: Noun): (r: seq<Bytes>)
    ensures [] !in r
  {
    match n
    case Atom(bs) => if bs == [] then [] else [bs]
    case Cell(l, r) => Chunks(l) + Chunks(r)
  }

  /** The chunks of a stack of nouns, the last of which is visited first. */
  function StackChunks(stack: seq<Noun>): (r: seq<Bytes>)
    ensures [] !in r
  {
    if stack == [] then [] else Chunks(stack[|stack| - 1]) + StackChunks(stack[..|stack| - 1])
  }

  function Concat(chunks: seq<Bytes>): Bytes {
    if chunks == [] then [] else chunks[0] + Concat(chunks[1..])
  }

  function NonEmpty(bs: Bytes): (r: seq<Bytes>)
    ensures [] !in r && Concat(r) == bs
  {
    if bs == [] then [] else
      assert [bs][1..] == [];
      [bs]
  }

  lemma {:induction false} ConcatAppend(a: seq<Bytes>, b: seq<Bytes>)
    ensures Concat(a + b) == Concat(a) + Concat(b)
  {
    if a == [] {
      assert a + b == b;
    } else {
      assert (a + b)[1..] == a[1..] + b;
      ConcatAppend(a[1..], b);
      Associate(a[0], Concat(a[1..]), Concat(b));
    }
  }

  lemma {:induction false} ChunksFlatten(n: Noun)
    ensures Concat(Chunks(n)) == Flatten(n)
  {
    match n
    case Atom(bs) =>
      if bs != [] {
        assert [bs][1..] == [];
      }
    case Cell(l, r) =>
      ChunksFlatten(l);
      ChunksFlatten(r);
      ConcatAppend(Chunks(l), Chunks(r));
  }

  /** One read: some bytes (none at the end of the data), or a refusal for want of ticks. */
  datatype ReadOutcome = Got(data: Bytes) | Refused

  /** A read of up to `want` bytes, with the chunks and ticks it leaves. A refused read has used its bytes up. */
  function TakeSome(chunks: seq<Bytes>, want: nat, count: nat): (r: (ReadOutcome, seq<Bytes>, nat))
    requires want > 0 && [] !in chunks
    ensures [] !in r.1
    ensures chunks != [] ==> |Concat(r.1)| < |Concat(chunks)|
    ensures r.0.Got? ==> |r.0.data| <= want && (r.0.data == [] <==> chunks == [])
    ensures r.2 <= count
  {
    if chunks == [] then (Got([]), [], count)
    else
      var k := Min(want, |chunks[0]|);
      var rest := NonEmpty(chunks[0][k..]) + chunks[1..];
      assert |Concat(rest)| == |Concat(chunks)| - k by {
        ConcatAppend(NonEmpty(chunks[0][k..]), chunks[1..]);
      }
      if k <= count then (Got(chunks[0][..k]), rest, count - k) else (Refused, rest, count)
  }

  /** `read_exact`: read until the buffer is full, retrying after refusals. */
  function TakeExact(chunks: seq<Bytes>, want: nat, count: nat): (r: (Option<Bytes>, seq<Bytes>, nat))
    requires [] !in chunks
    ensures [] !in r.1
    ensures r.2 <= count
    decreases |Concat(chunks)|, want
  {
    if want == 0 then (Some([]), chunks, count)
    else
      match TakeSome(chunks, want, count)
      case (Refused, chunks', count') => TakeExact(chunks', want, count')
      case (Got(data), chunks', count') =>
        if data == [] then (None, chunks', count')
        else
          var (rest, chunks'', count'') := TakeExact(chunks', want - |data|, count');
          (if rest.Some? then Some(data + rest.value) else None, chunks'', count'')
  }

  /**
   * A read succeeds exactly when the ticks and the data suffice from the start, and then takes just what was
   * asked for; a refusal on the way can never end in success.
   */
  lemma {:induction false} TakeExactSucceeds(chunks: seq<Bytes>, want: nat, count: nat)
    requires [] !in chunks
    ensures var (data, chunks', count') := TakeExact(chunks, want, count);
            if want <= count && want <= |Concat(chunks)| then
              data == Some(Concat(chunks)[..want]) && Concat(chunks') == Concat(chunks)[want..] &&
                count' == count - want
            else data == None
    decreases |Concat(chunks)|, want
  {
    if want > 0 && chunks != [] {
      var (outcome, chunks', count') := TakeSome(chunks, want, count);
      var k := Min(want, |chunks[0]|);
      TakeSomeSplits(chunks, want, count);
      hide TakeSome, Concat, NonEmpty;
      match outcome
      case Refused =>
        TakeExactSucceeds(chunks', want, count');
      case Got(data) =>
        TakeExactSucceeds(chunks', want - k, count');
        if want <= |Concat(chunks)| {
          TakeTail(data, Concat(chunks'), want);
        }
    }
  }

  /** One read's effect: a prefix of what remains goes, whether or not it is paid for. */
  lemma TakeSomeSplits(chunks: seq<Bytes>, want: nat, count: nat)
    requires want > 0 && chunks != [] && [] !in chunks
    ensures var (outcome, chunks', count') := TakeSome(chunks, want, count);
            var k := Min(want, |chunks[0]|);
            k > 0 && Concat(chunks) == chunks[0][..k] + Concat(chunks') &&
            (outcome, count') == if k <= count then (Got(chunks[0][..k]), count - k) else (Refused, count)
  {
    var k := Min(want, |chunks[0]|);
    var tail := chunks[0][k..];
    ConcatAppend(NonEmpty(tail), chunks[1..]);
    assert Concat(chunks) == chunks[0] + Concat(chunks[1..]);
    hide Concat, NonEmpty;
    assert chunks[0] == chunks[0][..k] + tail;
    SplitFirst(chunks[0][..k], tail, Concat(chunks[1..]));
  }

  lemma SplitFirst(a: Bytes, b: Bytes, c: Bytes)
    ensures a + b + c == a + (b + c)
  {
  }

  lemma TakeTail(data: Bytes, rest: Bytes, want: nat)
    requires |data| <= want <= |data| + |rest|
    ensures (data + rest)[..want] == data + rest[..want - |data|]
    ensures (data + rest)[want..] == rest[want - |data|..]
  {
  }

  /** The state a reshape threads: what data is left, what ticks are left, and what allocation is left. */
  datatype Supply = Supply(chunks: seq<Bytes>, count: nat, allowance: nat)

  function Populate(structure: Noun, supply: Supply): (r: (Result<Noun, ShapeError>, Supply))
    requires [] !in supply.chunks
    ensures [] !in r.1.chunks
    ensures r.1.count <= supply.count
    decreases structure
  {
    if supply.allowance < NOUN_SIZE then (Err(AllocationBoundExceeded), supply)
    else
      var supply := supply.(allowance := supply.allowance - NOUN_SIZE);
      match structure
      case Cell(l, r) =>
        (match Populate(l, supply)
         case (Err(e), supply') => (Err(e), supply')
         case (Ok(left), supply') =>
           match Populate(r, supply')
           case (Err(e), supply'') => (Err(e), supply'')
           case (Ok(right), supply'') => (Ok(Cell(left, right)), supply''))
      case Atom(bs) =>
        if AsU64(structure) == None || supply.allowance < LeValue(bs) then (Err(AllocationBoundExceeded), supply)
        else
          var (data, chunks', count') := TakeExact(supply.chunks, LeValue(bs), supply.count);
          var supply' := Supply(chunks', count', supply.allowance - LeValue(bs));
          (if data.Some? then Ok(Atom(data.value)) else Err(DataTooShort), supply')
  }

  /** A reshape's result and the ticks it leaves. */
  function Reshaped(data: Noun, structure: Noun, count: nat, allowance: nat): (r: (Result<Noun, ShapeError>, nat))
    ensures r.1 <= count
  {
    var (result, supply) := Populate(structure, Supply(Chunks(data), count, allowance));
    (result, supply.count)
  }

  /** The bytes a structure asks for, when every atom of it is a length. */
  function Demand(structure: Noun): nat {
    match structure
    case Atom(bs) => LeValue(bs)
    case Cell(l, r) => Demand(l) + Demand(r)
  }

  predicate AllLengths(structure: Noun) {
    match structure
    case Atom(bs) => LeValue(bs) < USIZE_LIMIT
    case Cell(l, r) => AllLengths(l) && AllLengths(r)
  }

  function Allocation(structure: Noun): nat {
    NOUN_SIZE * (2 * Leaves(structure) - 1) + Demand(structure)
  }

  /** The noun of a structure's shape whose atoms are cut in turn from the data. */
  function Cut(structure: Noun, data: Bytes): (r: Noun)
    requires Demand(structure) <= |data|
  {
    match structure
    case Atom(bs) => Atom(data[..LeValue(bs)])
    case Cell(l, r) => Cell(Cut(l, data), Cut(r, data[Demand(l)..]))
  }

  /** A noun has a structure's shape, each atom as long as the structure says. */
  predicate Fits(n: Noun, structure: Noun) {
    match structure
    case Atom(bs) => n.Atom? && |n.bytes| == LeValue(bs)
    case Cell(l, r) => n.Cell? && Fits(n.left, l) && Fits(n.right, r)
  }

  predicate Suffices(structure: Noun, data: nat, count: nat, allowance: nat) {
    AllLengths(structure) && Demand(structure) <= data && Demand(structure) <= count &&
      Allocation(structure) <= allowance
  }

  lemma {:induction false} PopulateSucceeds(structure: Noun, supply: Supply)
    requires [] !in supply.chunks
    ensures var (result, supply') := Populate(structure, supply);
            var data := Concat(supply.chunks);
            if Suffices(structure, |data|, supply.count, supply.allowance) then
              result == Ok(Cut(structure, data)) && Concat(supply'.chunks) == data[Demand(structure)..] &&
              supply'.count == supply.count - Demand(structure) &&
              supply'.allowance == supply.allowance - Allocation(structure)
            else result.Err?
    decreases structure
  {
    if supply.allowance >= NOUN_SIZE {
      var paid := supply.(allowance := supply.allowance - NOUN_SIZE);
      match structure
      case Cell(l, r) =>
        PopulateSucceeds(l, paid);
        var (left, supply') := Populate(l, paid);
        if left.Ok? {
          PopulateSucceeds(r, supply');
          var data := Concat(supply.chunks);
          assert Demand(structure) <= |data| ==> data[Demand(l)..][Demand(r)..] == data[Demand(structure)..];
        }
      case Atom(bs) =>
        if LeValue(bs) < USIZE_LIMIT && paid.allowance >= LeValue(bs) {
          TakeExactSucceeds(supply.chunks, LeValue(bs), supply.count);
        }
    }
  }

  /**
   * Reshaping succeeds exactly when data, ticks and allocation cover what the structure asks for; then it cuts
   * the data's bytes in order and spends one tick for each.
   */
  lemma ReshapeSucceeds(data: Noun, structure: Noun, count: nat, allowance: nat)
    ensures var (result, count') := Reshaped(data, structure, count, allowance);
            if Suffices(structure, |Flatten(data)|, count, allowance) then
              result == Ok(Cut(structure, Flatten(data))) && count' == count - Demand(structure)
            else result.Err?
  {
    ChunksFlatten(data);
    PopulateSucceeds(structure, Supply(Chunks(data), count, allowance));
  }

  /** What cutting gives: the structure's shape and leaf lengths, and the data's leading bytes. */
  lemma {:induction false} CutFits(structure: Noun, data: Bytes)
    requires Demand(structure) <= |data|
    ensures Fits(Cut(structure, data), structure)
    ensures Flatten(Cut(structure, data)) == data[..Demand(structure)]
    decreases structure
  {
    match structure
    case Atom(_) =>
    case Cell(l, r) =>
      CutFits(l, data);
      CutFits(r, data[Demand(l)..]);
      assert data[..Demand(structure)] == data[..Demand(l)] + data[Demand(l)..][..Demand(r)];
  }

  /** The noun of atom lengths. */
  function Lengths(n: Noun): Noun {
    match n
    case Atom(bs) => FromCompact(|bs|)
    case Cell(l, r) => Cell(Lengths(l), Lengths(r))
  }

  /** Every atom's length is read back from its shape as it was written. */
  predicate ReadableLengths(n: Noun) {
    match n
    case Atom(bs) => Readable(|bs|)
    case Cell(l, r) => ReadableLengths(l) && ReadableLengths(r)
  }

  lemma {:induction false} LengthsDemand(n: Noun)
    requires ReadableLengths(n)
    ensures Demand(Lengths(n)) == |Flatten(n)|
    ensures Leaves(Lengths(n)) == Leaves(n)
  {
    match n
    case Atom(_) =>
    case Cell(l, r) =>
      LengthsDemand(l);
      LengthsDemand(r);
  }

  lemma {:induction false} CutOwnLengths(n: Noun, rest: Bytes)
    requires ReadableLengths(n)
    ensures Demand(Lengths(n)) <= |Flatten(n) + rest|
    ensures Cut(Lengths(n), Flatten(n) + rest) == n
    decreases n
  {
    LengthsDemand(n);
    match n
    case Atom(bs) =>
    case Cell(l, r) =>
      LengthsDemand(l);
      CutOwnLengths(l, Flatten(r) + rest);
      CutOwnLengths(r, rest);
      assert Flatten(n) + rest == Flatten(l) + (Flatten(r) + rest);
      assert (Flatten(n) + rest)[|Flatten(l)|..] == Flatten(r) + rest;
  }

  /** A cut noun fits its own lengths, so a noun whose lengths are misread is not what comes out. */
  lemma {:induction false} FitsOwnLengths(n: Noun)
    ensures Fits(n, Lengths(n)) <==> ReadableLengths(n)
  {
    match n
    case Atom(_) =>
    case Cell(l, r) =>
      FitsOwnLengths(l);
      FitsOwnLengths(r);
  }

  /**
   * Reshaping by a noun's own lengths recovers the noun from any data that begins with its bytes, exactly when
   * each atom's length survives being written most significant byte first and read least significant first.
   */
  lemma ReshapeByLengths(data: Noun, x: Noun, count: nat, allowance: nat)
    requires |Flatten(x)| <= |Flatten(data)| && Flatten(data)[..|Flatten(x)|] == Flatten(x)
    requires |Flatten(x)| <= count && |Flatten(x)| < USIZE_LIMIT
    requires NOUN_SIZE * (2 * Leaves(x) - 1) + |Flatten(x)| <= allowance
    ensures Reshaped(data, Lengths(x), count, allowance).0 == Ok(x) <==> ReadableLengths(x)
  {
    hide Cut, Flatten, Lengths, ReadableLengths, Fits, Reshaped, Demand, AllLengths;
    ReshapeSucceeds(data, Lengths(x), count, allowance);
    FitsOwnLengths(x);
    if ReadableLengths(x) {
      LengthsDemand(x);
      LengthsBounded(x);
      var rest := Flatten(data)[|Flatten(x)|..];
      assert Flatten(data) == Flatten(x) + rest;
      CutOwnLengths(x, rest);
    } else if Suffices(Lengths(x), |Flatten(data)|, count, allowance) {
      CutFits(Lengths(x), Flatten(data));
    }
  }

  lemma {:induction false} LengthsBounded(n: Noun)
    requires ReadableLengths(n) && |Flatten(n)| < USIZE_LIMIT
    ensures AllLengths(Lengths(n))
  {
    match n
    case Atom(_) =>
    case Cell(l, r) =>
      LengthsBounded(l);
      LengthsBounded(r);
  }

  /** `length`, one tick a node. */
  function Measured(n: Noun, count: nat): (r: (Option<Noun>, nat))
    ensures r.1 <= count
  {
    if count == 0 then (None, 0)
    else
      match n
      case Atom(bs) => (Some(FromCompact(|bs|)), count - 1)
      case Cell(l, r) =>
        match Measured(l, count - 1)
        case (None, count') => (None, count')
        case (Some(left), count') =>
          match Measured(r, count')
          case (None, count'') => (None, count'')
          case (Some(right), count'') => (Some(Cell(left, right)), count'')
  }

  lemma {:induction false} MeasuredCost(n: Noun, count: nat)
    ensures Measured(n, count) ==
              if 2 * Leaves(n) - 1 <= count then (Some(Lengths(n)), count - (2 * Leaves(n) - 1)) else (None, 0)
    decreases n
  {
    if count > 0 && n.Cell? {
      MeasuredCost(n.left, count - 1);
      var (left, count') := Measured(n.left, count - 1);
      if left.Some? {
        MeasuredCost(n.right, count');
      }
    }
  }

  /** How many nodes are still to be visited. */
  function StackSize(stack: seq<Noun>): nat {
    if stack == [] then 0 else 2 * Leaves(stack[|stack| - 1]) + StackSize(stack[..|stack| - 1])
  }

  /** A reader over the atoms of a noun that pays for what it hands out. */
  class NounReader {
    var currentNode: Option<Bytes>
    var stack: seq<Noun>
    const ticks: Meter

    /** The chunks not yet handed out. */
    ghost function Remaining(): (r: seq<Bytes>)
      reads this
      ensures [] !in r
    {
      (if currentNode.Some? then NonEmpty(currentNode.value) else []) + StackChunks(stack)
    }

    constructor (noun: Noun, ticks: Meter)
      ensures Remaining() == Chunks(noun) && this.ticks == ticks
    {
      currentNode := None;
      stack := [noun];
      this.ticks := ticks;
      new;
      assert stack[..0] == [];
      assert StackChunks(stack) == Chunks(noun) + [];
    }

    /** Descend to the next atom that has bytes, if there is one. */
    method Advance() returns (ended: bool)
      requires currentNode == None
      modifies this
      ensures Remaining() == old(Remaining())
      ensures ended ==> currentNode == None && Remaining() == []
      ensures !ended ==> currentNode.Some? && currentNode.value != []
    {
      while currentNode.None?
        invariant Remaining() == old(Remaining())
        invariant currentNode.Some? ==> currentNode.value != []
        decreases currentNode.None?, StackSize(stack)
      {
        if stack == [] {
          return true;
        }
        ghost var size := StackSize(stack);
        var top := stack[|stack| - 1];
        stack := stack[..|stack| - 1];
        while true
          invariant currentNode == None
          invariant Chunks(top) + StackChunks(stack) == old(Remaining())
          invariant 2 * Leaves(top) + StackSize(stack) <= size
          decreases top
        {
          match top {
            case Atom(xs) =>
              if |xs| > 0 {
                currentNode := Some(xs);
              }
              break;
            case Cell(left, right) =>
              assert (stack + [right])[..|stack|] == stack;
              Associate(Chunks(left), Chunks(right), StackChunks(stack));
              top := left;
              stack := stack + [right];
          }
        }
      }
      ended := false;
    }

    method Read(want: nat) returns (r: ReadOutcome)
      requires want > 0
      modifies this, ticks`count
      ensures (r, Remaining(), ticks.count) == TakeSome(old(Remaining()), want, old(ticks.count))
    {
      if currentNode == Some([]) {
        currentNode := None;
      }
      if currentNode.None? {
        var ended := Advance();
        if ended {
          return Got([]);
        }
      }
      var current := currentNode.value;
      var k := Min(want, |current|);
      assert Remaining() == [current] + StackChunks(stack);
      currentNode := Some(current[k..]);
      var ok := ticks.Incur(k);
      if !ok {
        return Refused;
      }
      r := Got(current[..k]);
    }

    /** The standard library's `read_exact`, which ignores interruptions. */
    method ReadExact(want: nat) returns (r: Option<Bytes>)
      modifies this, ticks`count
      ensures (r, Remaining(), ticks.count) == TakeExact(old(Remaining()), want, old(ticks.count))
    {
      hide TakeExact, TakeSome, Prefixed, Concat;
      var filled: Bytes := [];
      ghost var outcome := TakeExact(Remaining(), want, ticks.count);
      PrefixedNothing(outcome);
      while |filled| < want
        invariant |filled| <= want
        invariant outcome == Prefixed(filled, TakeExact(Remaining(), want - |filled|, ticks.count))
        decreases |Concat(Remaining())|, want - |filled|
      {
        ghost var still := want - |filled|;
        ExactStep(Remaining(), still, ticks.count);
        var got := Read(want - |filled|);
        if got.Got? {
          if got.data == [] {
            PrefixedFailure(filled, Remaining(), ticks.count);
            return None;
          }
          PrefixedTwice(filled, got.data, TakeExact(Remaining(), still - |got.data|, ticks.count));
          filled := filled + got.data;
        }
      }
      ExactDone(filled, Remaining(), ticks.count);
      r := Some(filled);
    }
  }

  lemma ExactStep(chunks: seq<Bytes>, want: nat, count: nat)
    requires want > 0 && [] !in chunks
    ensures var (outcome, chunks', count') := TakeSome(chunks, want, count);
            TakeExact(chunks, want, count) ==
              if outcome.Refused? then TakeExact(chunks', want, count')
              else if outcome.data == [] then (None, chunks', count')
              else Prefixed(outcome.data, TakeExact(chunks', want - |outcome.data|, count'))
    ensures TakeSome(chunks, want, count).0.Refused? ==> chunks != []
  {
    hide Concat;
  }

  lemma ExactDone(filled: Bytes, chunks: seq<Bytes>, count: nat)
    requires [] !in chunks
    ensures Prefixed(filled, TakeExact(chunks, 0, count)) == (Some(filled), chunks, count)
  {
    assert filled + [] == filled;
  }

  lemma PrefixedFailure(filled: Bytes, chunks: seq<Bytes>, count: nat)
    ensures Prefixed(filled, (None, chunks, count)) == (None, chunks, count)
  {
  }

  ghost function Prefixed(data: Bytes, t: (Option<Bytes>, seq<Bytes>, nat)): (Option<Bytes>, seq<Bytes>, nat) {
    (if t.0.Some? then Some(data + t.0.value) else None, t.1, t.2)
  }

  lemma PrefixedNothing(t: (Option<Bytes>, seq<Bytes>, nat))
    ensures Prefixed([], t) == t
  {
    if t.0.Some? {
      assert [] + t.0.value == t.0.value;
    }
  }

  lemma PrefixedTwice(a: Bytes, b: Bytes, t: (Option<Bytes>, seq<Bytes>, nat))
    ensures Prefixed(a, Prefixed(b, t)) == Prefixed(a + b, t)
  {
    if t.0.Some? {
      assert a + b + t.0.value == a + (b + t.0.value);
    }
  }

  method PopulateStructure(structure: Noun, source: NounReader, allowance: Meter) returns (r: Result<Noun, ShapeError>)
    requires source.ticks != allowance
    modifies source, source.ticks`count, allowance`count
    ensures (r, Supply(source.Remaining(), source.ticks.count, allowance.count)) ==
            Populate(structure, Supply(old(source.Remaining()), old(source.ticks.count), old(allowance.count)))
    decreases structure
  {
    var ok := allowance.Incur(NOUN_SIZE);
    if !ok {
      return Err(AllocationBoundExceeded);
    }
    if structure.Cell? {
      var left := PopulateStructure(structure.left, source, allowance);
      if left.Err? {
        return left;
      }
      var right := PopulateStructure(structure.right, source, allowance);
      if right.Err? {
        return right;
      }
      return Ok(Cell(left.value, right.value));
    }
    var expected := AsU64(structure);
    if expected == None {
      return Err(AllocationBoundExceeded);
    }
    ok := allowance.Incur(expected.value);
    if !ok {
      return Err(AllocationBoundExceeded);
    }
    var xs := source.ReadExact(expected.value);
    r := if xs.Some? then Ok(Atom(xs.value)) else Err(DataTooShort);
  }

  method Reshape(data: Noun, structure: Noun, ticks: Meter, allowance: nat) returns (r: Result<Noun, ShapeError>)
    modifies ticks`count
    ensures (r, ticks.count) == Reshaped(data, structure, old(ticks.count), allowance)
  {
    var reader := new NounReader(data, ticks);
    var bound := new Meter(allowance);
    r := PopulateStructure(structure, reader, bound);
  }

  method Length(data: Noun, ticks: Meter) returns (r: Option<Noun>)
    modifies ticks`count
    ensures (r, ticks.count) == Measured(data, old(ticks.count))
    decreases data
  {
    var ok := ticks.Incur(1);
    if !ok {
      return None;
    }
    match data {
      case Atom(xs) =>
        r := Some(FromCompact(|xs|));
      case Cell(left, right) =>
        var l := Length(left, ticks);
        if l == None {
          return None;
        }
        var r' := Length(right, ticks);
        if r' == None {
          return None;
        }
        r := Some(Cell(l.value, r'.value));
    }
  }
}
