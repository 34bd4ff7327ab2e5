/**
 * Dense trees (`lisp/src/compile.rs`): how the compiler packs let-bound values and arguments into one noun,
 * and where it then expects to find each of them.
 *
 * The packing pairs neighbours until one noun is left. The expected addresses are those of a tree whose
 * deepest level comes first. The two agree for exactly the counts of the form 2^k - 2^j.
 */
module DenseTree {
  import opened Basics
  import opened Nouns
  import opened Axis

  /** The assertion in the packing loop allows nine rounds of pairing. */
  const MAX_ROUNDS: nat := 9
  const MAX_COUNT: nat := 512

  function PairUp(ns: seq<Noun>): (r: seq<Noun>)
    ensures |r| == (|ns| + 1) / 2
  {
    if |ns| <= 1 then ns else [Cell(ns[0], ns[1])] + PairUp(ns[2..])
  }

  function Dense(ns: seq<Noun>): Noun
    requires ns != []
    decreases |ns|
  {
    if |ns| == 1 then ns[0] else Dense(PairUp(ns))
  }

  function Rounds(count: nat): nat {
    if count <= 1 then 0 else 1 + Rounds((count + 1) / 2)
  }

  /** The packed tree, or nothing where the program's assertions stop it. */
  function Packed(ns: seq<Noun>): Option<Noun> {
    if ns == [] || |ns| > MAX_COUNT then None else Some(Dense(ns))
  }

  /** The pairing loop stops within its nine rounds for exactly the counts up to 512. */
  lemma {:induction false} RoundsBound(count: nat, k: nat)
    requires count >= 1
    ensures Rounds(count) <= k <==> count <= Pow2(k)
  {
    if count > 1 {
      if k > 0 {
        RoundsBound((count + 1) / 2, k - 1);
      }
    }
  }

  /** Packing succeeds for what can be paired up into one in nine rounds, which is at most 512. */
  lemma PackedWhen(ns: seq<Noun>)
    ensures Packed(ns).Some? <==> ns != [] && Rounds(|ns|) <= 9
    ensures Packed(ns).Some? <==> 1 <= |ns| <= 512
  {
    if ns != [] {
      RoundsBound(|ns|, 9);
    }
    assert Pow2(9) == 512;
  }

  /** The inner loop of the packing. */
  method PairNeighbours(ns: seq<Noun>) returns (packed: seq<Noun>)
    ensures packed == PairUp(ns)
  {
    packed := [];
    var next := 0;
    while next + 1 < |ns|
      invariant next <= |ns|
      invariant packed + PairUp(ns[next..]) == PairUp(ns)
    {
      assert ns[next..][2..] == ns[next + 2..];
      assert packed + PairUp(ns[next..]) == packed + [Cell(ns[next], ns[next + 1])] + PairUp(ns[next + 2..]);
      packed := packed + [Cell(ns[next], ns[next + 1])];
      next := next + 2;
    }
    packed := packed + ns[next..];
  }

  method BuildIntoDenseTree(nodes: seq<Noun>) returns (r: Option<Noun>)
    ensures r == Packed(nodes)
  {
    if nodes == [] {
      return None;
    }
    RoundsBound(|nodes|, MAX_ROUNDS);
    assert Pow2(MAX_ROUNDS) == MAX_COUNT;
    var ns := nodes;
    var round := 0;
    while |ns| > 1
      invariant ns != [] && Dense(ns) == Dense(nodes)
      invariant round <= MAX_ROUNDS && round + Rounds(|ns|) == Rounds(|nodes|)
      decreases |ns|
    {
      round := round + 1;
      if round > MAX_ROUNDS {
        return None;
      }
      ns := PairNeighbours(ns);
    }
    r := Some(ns[0]);
  }

  /** Where pairing neighbours puts item `i` of `count`. */
  function BuildPosition(count: nat, i: nat): (r: nat)
    requires i < count
    ensures r >= 1
    decreases count
  {
    if count == 1 then 1
    else if count % 2 == 1 && i == count - 1 then BuildPosition((count + 1) / 2, i / 2)
    else 2 * BuildPosition((count + 1) / 2, i / 2) + i % 2
  }

  lemma {:induction false} PairUpAt(ns: seq<Noun>, i: nat)
    requires i < |PairUp(ns)|
    ensures PairUp(ns)[i] == if 2 * i + 1 < |ns| then Cell(ns[2 * i], ns[2 * i + 1]) else ns[2 * i]
  {
    if |ns| > 1 && i > 0 {
      PairUpAt(ns[2..], i - 1);
    }
  }

  /** Item `i` is found at its build position. */
  lemma {:induction false} SlotOfDense(ns: seq<Noun>, i: nat)
    requires i < |ns|
    ensures Slot(BuildPosition(|ns|, i), Dense(ns)) == Some(ns[i])
    decreases |ns|
  {
    if |ns| > 1 {
      hide Slot, Dense, PairUp, BuildPosition;
      var half := i / 2;
      BuildStep(|ns|, i);
      PairUpAt(ns, half);
      SlotOfDense(PairUp(ns), half);
      DenseOfPaired(ns);
      SlotFromPaired(ns, half, i % 2, BuildPosition((|ns| + 1) / 2, half), Dense(PairUp(ns)));
    } else {
      OneItem(ns);
    }
  }

  lemma OneItem(ns: seq<Noun>)
    requires |ns| == 1
    ensures Slot(BuildPosition(1, 0), Dense(ns)) == Some(ns[0])
  {
  }

  lemma SlotFromPaired(ns: seq<Noun>, half: nat, step: nat, p: nat, tree: Noun)
    requires p >= 1 && step < 2 && 2 * half + step < |ns|
    requires Slot(p, tree) == Some(if 2 * half + 1 < |ns| then Cell(ns[2 * half], ns[2 * half + 1]) else ns[2 * half])
    ensures Slot(if 2 * half + 1 >= |ns| then p else 2 * p + step, tree) == Some(ns[2 * half + step])
  {
    hide Slot;
    SlotBelow(p, step, tree);
  }

  lemma BuildStep(count: nat, i: nat)
    requires i < count && count > 1
    ensures i / 2 < (count + 1) / 2 && 2 * (i / 2) + i % 2 == i
    ensures 2 * (i / 2) + 1 >= count <==> count % 2 == 1 && i == count - 1
    ensures BuildPosition(count, i) ==
            if 2 * (i / 2) + 1 >= count then BuildPosition((count + 1) / 2, i / 2)
            else 2 * BuildPosition((count + 1) / 2, i / 2) + i % 2
  {
  }

  lemma DenseOfPaired(ns: seq<Noun>)
    requires |ns| > 1
    ensures Dense(ns) == Dense(PairUp(ns))
  {
    hide PairUp;
  }

  /** One more step from an address that finds a pair. */
  lemma SlotBelow(p: nat, step: nat, n: Noun)
    requires p >= 1 && step < 2
    ensures Slot(2 * p + step, n) ==
            match Slot(p, n)
            case Some(Cell(l, r)) => Some(if step == 0 then l else r)
            case _ => None
  {
    assert (2 * p + step) / 2 == p && (2 * p + step) % 2 == step;
  }

  /** Where the compiler expects item `i` of `count`: `dense_tree_positions`. */
  function DensePosition(count: nat, i: nat): nat
    requires i < count
  {
    var spotsInMaxLevel := Pow2(Log2(count) + 1);
    var nounsAtMaxLevel := 2 * count - spotsInMaxLevel;
    if i < nounsAtMaxLevel then spotsInMaxLevel + i else count + (i - nounsAtMaxLevel)
  }

  /**
   * The positions are the leaves of the tree whose nodes are numbered level by level and which has `count` leaves, the
   * numbers from `count` to twice that, taken from left to right: those of the lowest level, which begins at the least
   * power of two above `count`, and then the rest.
   */
  lemma PositionsAreLeaves(count: nat, i: nat, p: nat, k: nat)
    requires Pow2(k) <= count < Pow2(k + 1)
    ensures i < count && DensePosition(count, i) == p <==>
            count <= p < 2 * count && i == if p >= Pow2(k + 1) then p - Pow2(k + 1)
              else p - count + (2 * count - Pow2(k + 1))
  {
    Log2Unique(count, k);
    hide Pow2, Log2;
  }

  /** Counts of the form 2^k - 2^j. */
  ghost predicate IsDenseCount(count: nat) {
    exists k: nat, j: nat :: j < k && count + Pow2(j) == Pow2(k)
  }

  lemma DoubleDense(count: nat)
    ensures IsDenseCount(count) <==> IsDenseCount(2 * count)
  {
    if IsDenseCount(count) {
      var k: nat, j: nat :| j < k && count + Pow2(j) == Pow2(k);
      assert 2 * count + Pow2(j + 1) == Pow2(k + 1);
    }
    if IsDenseCount(2 * count) {
      var k: nat, j: nat :| j < k && 2 * count + Pow2(j) == Pow2(k);
      assert j > 0;
      assert count + Pow2(j - 1) == Pow2(k - 1);
    }
  }

  /** An odd dense count is one less than a power of two. */
  lemma OddDense(count: nat, k: nat)
    requires count % 2 == 1 && IsDenseCount(count)
    requires Pow2(k) <= count < Pow2(k + 1)
    ensures count + 1 == Pow2(k + 1)
  {
    var a: nat, b: nat :| b < a && count + Pow2(b) == Pow2(a);
    assert b == 0;
    assert count + 1 == Pow2(a);
    assert Pow2(k + 2) == 2 * Pow2(k + 1);
    if a < k + 1 {
      Pow2Monotone(a, k);
    } else if a > k + 1 {
      Pow2Monotone(k + 2, a);
    }
  }

  lemma Log2Half(count: nat, double: nat)
    requires count >= 1 && double == 2 * count
    ensures Log2(double) == Log2(count) + 1
  {
    hide Pow2;
    assert double / 2 == count;
  }

  /** Doubling a count moves every expected position one level down. */
  lemma DensePositionDouble(half: nat, i: nat)
    requires i < 2 * half
    ensures DensePosition(2 * half, i) == 2 * DensePosition(half, i / 2) + i % 2
  {
    Log2Half(half, 2 * half);
    assert Pow2(Log2(half) + 2) == 2 * Pow2(Log2(half) + 1);
  }

  lemma {:induction false} FullPosition(k: nat, i: nat)
    requires i < Pow2(k)
    ensures BuildPosition(Pow2(k), i) == Pow2(k) + i
  {
    if k > 0 {
      FullPosition(k - 1, i / 2);
    }
  }

  /** The computed positions are right for every dense count. */
  lemma OddDenseAgrees(count: nat, i: nat, k: nat)
    requires i < count && count % 2 == 1 && Pow2(k) <= count && count + 1 == Pow2(k + 1)
    ensures DensePosition(count, i) == BuildPosition(count, i)
  {
    Log2Unique(count, k);
    if count > 1 {
      assert (count + 1) / 2 == Pow2(k);
      FullPosition(k, i / 2);
    }
  }

  lemma {:induction false} DenseAgrees(count: nat, i: nat)
    requires i < count && IsDenseCount(count)
    ensures DensePosition(count, i) == BuildPosition(count, i)
    decreases count
  {
    hide Pow2, DensePosition, IsDenseCount;
    var k := Log2(count);
    if count % 2 == 0 {
      DoubleDense(count / 2);
      DenseAgrees(count / 2, i / 2);
      DensePositionDouble(count / 2, i);
    } else {
      OddDense(count, k);
      OddDenseAgrees(count, i, k);
    }
    hide *;
  }

  /** The last item is at the end of a path of right steps, one for each round with an even count. */
  function EvenRounds(count: nat): nat
    requires count >= 1
  {
    if count == 1 then 0 else EvenRounds((count + 1) / 2) + if count % 2 == 0 then 1 else 0
  }

  lemma {:induction false} LastPosition(count: nat)
    requires count >= 1
    ensures BuildPosition(count, count - 1) == Pow2(EvenRounds(count) + 1) - 1
    decreases count
  {
    if count > 1 {
      var half := (count + 1) / 2;
      LastPosition(half);
      assert (count - 1) / 2 == half - 1;
      assert BuildPosition(count, count - 1) ==
        if count % 2 == 1 then BuildPosition(half, half - 1) else 2 * BuildPosition(half, half - 1) + 1;
    }
  }

  lemma LastDensePosition(count: nat)
    requires count >= 1
    ensures DensePosition(count, count - 1) == Pow2(Log2(count) + 1) - 1
  {
  }

  lemma {:induction false} PowerRounds(count: nat)
    requires count >= 1
    ensures EvenRounds(count) <= Rounds(count)
    ensures EvenRounds(count) == Rounds(count) ==> exists k: nat :: count == Pow2(k)
  {
    if count == 1 {
      assert Pow2(0) == 1;
    } else {
      PowerRounds((count + 1) / 2);
      if EvenRounds(count) == Rounds(count) {
        assert count % 2 == 0 && (count + 1) / 2 == count / 2;
        var k: nat :| (count + 1) / 2 == Pow2(k);
        assert Pow2(k + 1) == 2 * Pow2(k);
        assert count == Pow2(k + 1);
      }
    }
  }

  lemma RoundsIsLog(count: nat)
    requires count >= 1
    ensures Rounds(count) == if count == Pow2(Log2(count)) then Log2(count) else Log2(count) + 1
  {
    var k := Log2(count);
    RoundsBound(count, k);
    RoundsBound(count, k + 1);
    if k > 0 {
      RoundsBound(count, k - 1);
    }
  }

  /** If even the last item's position is right, the count is dense. */
  lemma EvenBuild(count: nat, half: nat, i: nat, parent: nat)
    requires count == 2 * half && i < count && i / 2 == parent
    ensures BuildPosition(count, i) == 2 * BuildPosition(half, parent) + i % 2
  {
    assert (count + 1) / 2 == half;
  }

  lemma EvenAgreement(count: nat, half: nat)
    requires half >= 1 && count == 2 * half && DensePosition(count, count - 1) == BuildPosition(count, count - 1)
    ensures DensePosition(half, half - 1) == BuildPosition(half, half - 1)
  {
    hide DensePosition, BuildPosition;
    assert (count - 1) / 2 == half - 1;
    DensePositionDouble(half, count - 1);
    EvenBuild(count, half, count - 1, half - 1);
  }

  lemma {:induction false} AgreementIsDense(count: nat)
    requires count >= 1 && DensePosition(count, count - 1) == BuildPosition(count, count - 1)
    ensures IsDenseCount(count)
    decreases count
  {
    if count == 1 {
      assert 1 + Pow2(0) == Pow2(1);
    } else if count % 2 == 0 {
      hide DensePosition, BuildPosition, IsDenseCount, Pow2;
      EvenAgreement(count, count / 2);
      AgreementIsDense(count / 2);
      DoubleDense(count / 2);
    } else {
      OddAgreement(count);
    }
  }

  lemma OddAgreement(count: nat)
    requires count > 1 && count % 2 == 1
    requires DensePosition(count, count - 1) == BuildPosition(count, count - 1)
    ensures IsDenseCount(count)
  {
    var k := Log2(count);
    LastPosition(count);
    LastDensePosition(count);
    PowInjective(EvenRounds(count) + 1, k + 1);
    RoundsIsLog(count);
    OddNotPower(count, k);
    PowerRounds((count + 1) / 2);
    var j: nat :| (count + 1) / 2 == Pow2(j);
    assert count + Pow2(0) == Pow2(j + 1);
  }

  lemma OddNotPower(count: nat, k: nat)
    requires count > 1 && count % 2 == 1
    ensures count != Pow2(k)
  {
  }

  lemma PowInjective(a: nat, b: nat)
    requires Pow2(a) == Pow2(b)
    ensures a == b
  {
    if a < b {
      Pow2Less(a, b);
    } else if b < a {
      Pow2Less(b, a);
    }
  }

  /** The theorem: the compiler's positions are where packing puts things, for exactly the dense counts. */
  lemma DenseIffAgrees(count: nat)
    requires count >= 1
    ensures IsDenseCount(count) <==> forall i: nat :: i < count ==> DensePosition(count, i) == BuildPosition(count, i)
  {
    if IsDenseCount(count) {
      forall i: nat | i < count
        ensures DensePosition(count, i) == BuildPosition(count, i)
      {
        DenseAgrees(count, i);
      }
    }
    if forall i: nat :: i < count ==> DensePosition(count, i) == BuildPosition(count, i) {
      AgreementIsDense(count);
    }
  }

  /** Five is the first count that goes wrong: the third item sits at 10 and is expected at 5. */
  lemma FiveDisagrees()
    ensures BuildPosition(5, 2) == 10 && DensePosition(5, 2) == 5
    ensures forall count: nat :: 1 <= count < 5 ==> IsDenseCount(count)
    ensures !IsDenseCount(5)
  {
    assert Log2(5) == 2;
    assert Pow2(3) == 8;
    assert 1 + Pow2(0) == Pow2(1);
    assert 2 + Pow2(1) == Pow2(2);
    assert 3 + Pow2(0) == Pow2(2);
    assert 4 + Pow2(2) == Pow2(3);
    DenseIffAgrees(5);
  }

  /** So with five bindings or arguments, the third name stands for the third and fourth of them. */
  lemma FiveMisread(a: Noun, b: Noun, c: Noun, d: Noun, e: Noun)
    ensures Slot(DensePosition(5, 2), Dense([a, b, c, d, e])) == Some(Cell(c, d))
  {
    FiveDisagrees();
    DenseOfFive(a, b, c, d, e);
    hide Dense, DensePosition;
    var left := Cell(Cell(a, b), Cell(c, d));
    var whole := Cell(left, e);
    assert Slot(1, whole) == Some(whole) && Slot(2, whole) == Some(left);
  }

  lemma DenseOfFive(a: Noun, b: Noun, c: Noun, d: Noun, e: Noun)
    ensures Dense([a, b, c, d, e]) == Cell(Cell(Cell(a, b), Cell(c, d)), e)
  {
    var ns := [a, b, c, d, e];
    assert ns[2..] == [c, d, e] && ns[2..][2..] == [e];
    assert PairUp([e]) == [e] && PairUp([c, d, e]) == [Cell(c, d), e];
    assert PairUp(ns) == [Cell(a, b), Cell(c, d), e];
    var once := [Cell(a, b), Cell(c, d), e];
    assert once[2..] == [e];
    assert PairUp(once) == [Cell(Cell(a, b), Cell(c, d)), e];
    var twice := [Cell(Cell(a, b), Cell(c, d)), e];
    assert twice[2..] == [];
    assert PairUp(twice) == [Cell(twice[0], e)];
    assert Dense(ns) == Dense(once) == Dense(twice) == Cell(twice[0], e);
  }
}
