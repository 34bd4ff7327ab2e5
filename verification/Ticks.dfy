/** The meter that bounds every computation (`vm/src/ticks.rs`). */
module Ticks {
  /** What a meter shows: what is left, of how much. */
  datatype Reading = Reading(count: nat, initial: nat) {
    predicate Valid() {
      count <= initial
    }
  }

  class Meter {
    var count: nat
    var initial: nat

    function Shown(): Reading
      reads this
    {
      Reading(count, initial)
    }

    constructor (limit: nat)
      ensures Shown() == Reading(limit, limit)
    {
      count := limit;
      initial := limit;
    }

    method Incur(cost: nat) returns (ok: bool)
      modifies `count
      ensures ok <==> cost <= old(count)
      ensures count == if ok then old(count) - cost else old(count)
    {
      ok := cost <= count;
      if ok {
        count := count - cost;
      }
    }

    method GetConsumed() returns (consumed: nat)
      requires Shown().Valid()
      ensures count + consumed == initial
    {
      consumed := initial - count;
    }

    /** One meter becomes another. */
    method Become(reading: Reading)
      modifies this
      ensures Shown() == reading
    {
      count, initial := reading.count, reading.initial;
    }
  }
}
