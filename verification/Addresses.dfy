/** The compiler's address arithmetic agrees with walking trees. */
module Addresses {
  import opened Basics
  import opened Nouns
  import opened Axis
  import opened Compile

  /** An address seen from one level further up. */
  function Prefixed(position: nat, step: nat): nat
    requires position >= 1
  {
    var lead := Pow2(Log2(position));
    2 * lead + step * lead + (position - lead)
  }

  /** One address followed by another, whatever their size. */
  function Joined(first: nat, second: nat): nat
    requires second >= 1
  {
    var lead := Pow2(Log2(second));
    first * lead + (second - lead)
  }

  lemma PrefixedStep(half: nat, bit: nat, step: nat)
    requires half >= 1 && bit < 2 && step < 2
    ensures Prefixed(2 * half + bit, step) == 2 * Prefixed(half, step) + bit
    ensures Prefixed(half, step) >= 2
  {
    LogStep(half, bit);
    var lead := Pow2(Log2(half));
    assert step * (2 * lead) == 2 * (step * lead);
  }

  lemma JoinedStep(first: nat, half: nat, bit: nat)
    requires half >= 1 && bit < 2
    ensures Joined(first, 2 * half + bit) == 2 * Joined(first, half) + bit
  {
    LogStep(half, bit);
    var lead := Pow2(Log2(half));
    assert first * (2 * lead) == 2 * (first * lead);
  }

  lemma LogStep(half: nat, bit: nat)
    requires half >= 1 && bit < 2
    ensures Log2(2 * half + bit) == Log2(half) + 1
    ensures Pow2(Log2(2 * half + bit)) == 2 * Pow2(Log2(half))
  {
    hide Pow2;
    assert (2 * half + bit) / 2 == half;
    PowStep(Log2(half));
  }

  lemma PowStep(k: nat)
    ensures Pow2(k + 1) == 2 * Pow2(k)
  {
  }

  lemma SlotStep(half: nat, bit: nat, n: Noun)
    requires half >= 1 && bit < 2
    ensures Slot(2 * half + bit, n) ==
            match Slot(half, n)
            case Some(Cell(l, r)) => Some(if bit == 0 then l else r)
            case _ => None
  {
    assert (2 * half + bit) / 2 == half;
  }

  lemma {:induction false} SlotOfPrefixed(position: nat, step: nat, n: Noun)
    requires position >= 1 && step < 2 && n.Cell?
    ensures Slot(Prefixed(position, step), n) == Slot(position, if step == 0 then n.left else n.right)
  {
    if position == 1 {
      assert Prefixed(1, step) == 2 + step;
      SlotStep(1, step, n);
    } else {
      var half, bit := position / 2, position % 2;
      SlotOfPrefixed(half, step, n);
      PrefixedStep(half, bit, step);
      SlotStep(Prefixed(half, step), bit, n);
      SlotStep(half, bit, if step == 0 then n.left else n.right);
    }
  }

  lemma {:induction false} SlotOfJoined(first: nat, second: nat, n: Noun)
    requires first >= 1 && second >= 1
    ensures Joined(first, second) >= 1
    ensures Slot(Joined(first, second), n) ==
            match Slot(first, n)
            case Some(m) => Slot(second, m)
            case None => None
  {
    if second == 1 {
      assert Joined(first, 1) == first;
    } else {
      var half, bit := second / 2, second % 2;
      SlotOfJoined(first, half, n);
      JoinedStep(first, half, bit);
      SlotStep(Joined(first, half), bit, n);
      if Slot(first, n).Some? {
        SlotStep(half, bit, Slot(first, n).value);
      }
    }
  }

  /** `add_initial_step`: the address, in a cell, of what was at the old address in one of its halves. */
  lemma AddInitialStepSlot(position: nat, step: nat, l: Noun, r: Noun)
    requires step < 2
    ensures AddInitialStep(position, step).Some? <==> 1 <= position < TOP_BIT
    ensures AddInitialStep(position, step).Some? ==>
              Slot(AddInitialStep(position, step).value, Cell(l, r)) == Slot(position, if step == 0 then l else r)
  {
    if 1 <= position {
      SlotOfPrefixed(position, step, Cell(l, r));
    }
  }

  /** No bit of the first address is shifted out of a 64-bit word. */
  predicate Combinable(first: nat, second: nat)
    requires second >= 1
  {
    first * Pow2(Log2(second)) < USIZE_LIMIT
  }

  /** `combine_axis_indices` follows one address and then another, exactly as long as no bit is shifted out. */
  lemma CombineSlot(first: nat, second: nat, n: Noun)
    requires first >= 1 && second >= 1
    ensures CombineAxisIndices(first, second) == Some(Joined(first, second)) <==> Combinable(first, second)
    ensures Combinable(first, second) ==>
              Slot(CombineAxisIndices(first, second).value, n) ==
              match Slot(first, n)
              case Some(m) => Slot(second, m)
              case None => None
  {
    SlotOfJoined(first, second, n);
    KeptIffFits(first * Pow2(Log2(second)));
    hide Slot, Pow2, Log2;
  }

  lemma KeptIffFits(v: nat)
    ensures v % USIZE_LIMIT == v <==> v < USIZE_LIMIT
  {
  }

  lemma ScaledRemainder(a: nat, b: nat, lead: nat)
    requires b >= 1 && lead >= 1
    ensures a * lead % (b * lead) == a % b * lead && a % b * lead <= b * lead - lead
  {
    MultiplyLe(a % b, b - 1, lead);
    Distribute(b - 1, 1, lead);
    assert a == a / b * b + a % b;
    Distribute(a / b * b, a % b, lead);
    assert a / b * b * lead == a / b * (b * lead);
    DivMod(a * lead, a / b, a % b * lead, b * lead);
  }

  /** Whatever is lost, the combined address is the joined one in 64 bits. */
  lemma CombineIsTruncated(first: nat, second: nat)
    requires first >= 1 && 1 <= second < USIZE_LIMIT
    ensures CombineAxisIndices(first, second) == Some(Joined(first, second) % USIZE_LIMIT)
  {
    var k := Log2(second);
    var lead := Pow2(k);
    Pow2SixtyThree();
    assert Pow2(64) == 2 * Pow2(63) == USIZE_LIMIT;
    if k >= 64 {
      Pow2Monotone(64, k);
    }
    Pow2Sum(64 - k, k);
    hide Pow2, Log2;
    ScaledRemainder(first, Pow2(64 - k), lead);
    var r := first * lead % USIZE_LIMIT;
    DivMod(first * lead + (second - lead), first * lead / USIZE_LIMIT, r + (second - lead), USIZE_LIMIT);
  }

  /** A bit lost without notice: the combined address names nothing at all. */
  lemma CombineLosesBits(n: Noun)
    ensures CombineAxisIndices(TOP_BIT, 2) == Some(0) && Slot(0, n) == None
    ensures !Combinable(TOP_BIT, 2)
  {
    assert Log2(2) == 1;
    assert Pow2(1) == 2;
  }
}
