/**
 * Metered structural equality (`vm/src/equal.rs`).
 *
 * `Compare` is the comparison with its meter made explicit. It stops at the first difference, so what it
 * costs is the number of pairs of nodes visited before that.
 */
module Equal {
  import opened Basics
  import opened Nouns
  import opened Ticks
  import opened Representation

  /** The answer, when the meter lasted, and what is left on the meter. */
  function Compare(a: Noun, b: Noun, count: nat): (r: (Option<bool>, nat))
    ensures r.1 <= count
  {
    if count == 0 then (None, count)
    else if a.Cell? && b.Cell? then
      var (lefts, count') := Compare(a.left, b.left, count - 1);
      if lefts == Some(true) then Compare(a.right, b.right, count') else (lefts, count')
    else (Some(a == b), count - 1)
  }

  /** How many node pairs a comparison visits. */
  function CompareCost(a: Noun, b: Noun): (r: nat)
    ensures r >= 1
  {
    if a.Cell? && b.Cell? then
      1 + CompareCost(a.left, b.left) + if a.left == b.left then CompareCost(a.right, b.right) else 0
    else 1
  }

  /** With enough ticks the answer is exactly equality; without enough there is no answer. */
  lemma {:induction false} CompareIsEquality(a: Noun, b: Noun, count: nat)
    ensures CompareCost(a, b) <= count ==> Compare(a, b, count) == (Some(a == b), count - CompareCost(a, b))
    ensures CompareCost(a, b) > count ==> Compare(a, b, count).0 == None
  {
    if count > 0 && a.Cell? && b.Cell? {
      CompareIsEquality(a.left, b.left, count - 1);
      var (lefts, count') := Compare(a.left, b.left, count - 1);
      if lefts == Some(true) {
        CompareIsEquality(a.right, b.right, count');
      }
    }
  }

  /** Stored nouns are compared field by field. An inline atom and one in a vector are never equal. */
  method AreEqual(a: Stored, b: Stored, ticks: Meter) returns (r: Option<bool>)
    requires Canonical(a) && Canonical(b)
    modifies ticks`count
    ensures (r, ticks.count) == Compare(Meaning(a), Meaning(b), old(ticks.count))
    decreases a
  {
    CanonicalUnique(a, b);
    var ok := ticks.Incur(1);
    if !ok {
      return None;
    }
    match (a, b) {
      case (StoredCell(l, r'), StoredCell(x, y)) =>
        var lefts := AreEqual(l, x, ticks);
        if lefts != Some(true) {
          return lefts;
        }
        r := AreEqual(r', y, ticks);
      case (SmallAtom(valueA, lengthA), SmallAtom(valueB, lengthB)) =>
        r := Some((valueA, lengthA) == (valueB, lengthB));
      case (LargeAtom(xs), LargeAtom(ys)) =>
        r := Some(xs == ys);
      case _ =>
        r := Some(false);
    }
  }
}
