/**
 * The shared table of packets an agent expects, indexed by their identifiers
 * (`src/expected_packet_set.rs`). Two packets may share an identifier, so each entry is a list, and the order
 * of a list is not kept when something is removed from it.
 */
module ExpectedPackets {
  import opened Basics

  type Identity = nat

  datatype ExpectedPacket = ExpectedPacket(streamWith: Identity, streamKey: Bytes, packetNumber: nat)

  type Table = map<nat, seq<ExpectedPacket>>

  function Listed(t: Table, id: nat): seq<ExpectedPacket> {
    if id in t then t[id] else []
  }

  function Added(t: Table, p: ExpectedPacket, id: nat): Table {
    t[id := Listed(t, id) + [p]]
  }

  function Position(list: seq<ExpectedPacket>, p: ExpectedPacket): (i: nat)
    requires p in list
    ensures i < |list| && list[i] == p
  {
    if list[0] == p then 0 else 1 + Position(list[1..], p)
  }

  /** Vec's `swap_remove`: the last item takes the place of the removed one. */
  function SwapRemoved(list: seq<ExpectedPacket>, i: nat): seq<ExpectedPacket>
    requires i < |list|
  {
    list[i := list[|list| - 1]][..|list| - 1]
  }

  function Removed(t: Table, p: ExpectedPacket, id: nat): Table {
    if id !in t then t
    else
      var list := if p in t[id] then SwapRemoved(t[id], Position(t[id], p)) else t[id];
      if list == [] then t - {id} else t[id := list]
  }

  /** How often a packet is expected under an identifier. */
  ghost function Count(t: Table, p: ExpectedPacket, id: nat): nat {
    multiset(Listed(t, id))[p]
  }

  lemma AddedCount(t: Table, p: ExpectedPacket, id: nat, q: ExpectedPacket, j: nat)
    ensures Count(Added(t, p, id), q, j) == Count(t, q, j) + if q == p && j == id then 1 else 0
  {
    assert multiset(Listed(t, id) + [p]) == multiset(Listed(t, id)) + multiset{p};
  }

  lemma SwapRemovedCount(list: seq<ExpectedPacket>, i: nat)
    requires i < |list|
    ensures multiset(SwapRemoved(list, i)) == multiset(list) - multiset{list[i]}
  {
    var n := |list| - 1;
    var init, last := list[..n], list[n];
    assert list == init + [last];
    if i == n {
      assert SwapRemoved(list, i) == init;
    } else {
      assert SwapRemoved(list, i) == init[i := last];
      assert init == init[..i] + [init[i]] + init[i + 1..];
      assert init[i := last] == init[..i] + [last] + init[i + 1..];
    }
  }

  lemma RemovedCount(t: Table, p: ExpectedPacket, id: nat, q: ExpectedPacket, j: nat)
    ensures Count(Removed(t, p, id), q, j) ==
            if q == p && j == id && Count(t, q, j) > 0 then Count(t, q, j) - 1 else Count(t, q, j)
  {
    if id in t && p in t[id] {
      SwapRemovedCount(t[id], Position(t[id], p));
    }
  }

  /** The first place of a packet in a list. */
  predicate FirstAt(list: seq<ExpectedPacket>, p: ExpectedPacket, i: nat) {
    i < |list| && list[i] == p && p !in list[..i]
  }

  /** Where packets stand: an added one last; of a removed one, the first goes, and the list's last takes its place. */
  lemma ListsAre(t: Table, p: ExpectedPacket, id: nat, i: nat, j: nat)
    ensures Listed(Added(t, p, id), j) == if j == id then Listed(t, id) + [p] else Listed(t, j)
    ensures j != id || p !in Listed(t, id) ==> Listed(Removed(t, p, id), j) == Listed(t, j)
    ensures FirstAt(Listed(t, id), p, i) ==>
              var list := Listed(t, id);
              var last := |list| - 1;
              Listed(Removed(t, p, id), id) ==
                if i == last then list[..last] else list[..i] + [list[last]] + list[i + 1..last]
    ensures id in Removed(t, p, id) <==> Listed(Removed(t, p, id), id) != []
  {
    var list := Listed(t, id);
    if FirstAt(list, p, i) {
      FirstPosition(list, p, i);
      var last := |list| - 1;
      if i < last {
        assert SwapRemoved(list, i) == list[..i] + [list[last]] + list[i + 1..last];
      }
    }
  }

  class ExpectedPacketSet {
    var inner: Table

    constructor ()
      ensures inner == map[]
    {
      inner := map[];
    }

    method Add(packet: ExpectedPacket, identifier: nat)
      modifies this
      ensures inner == Added(old(inner), packet, identifier)
    {
      if identifier in inner {
        inner := inner[identifier := inner[identifier] + [packet]];
        return;
      }
      inner := inner[identifier := [packet]];
      assert [] + [packet] == [packet];
    }

    method Remove(packet: ExpectedPacket, identifier: nat)
      modifies this
      ensures inner == Removed(old(inner), packet, identifier)
    {
      if identifier !in inner {
        return;
      }
      var list := inner[identifier];
      var found := 0;
      while found < |list| && list[found] != packet
        invariant found <= |list| && packet !in list[..found]
      {
        assert list[..found + 1] == list[..found] + [list[found]];
        found := found + 1;
      }
      if found < |list| {
        FirstPosition(list, packet, found);
        list := SwapRemoved(list, found);
      } else {
        assert list[..found] == list;
      }
      inner := inner[identifier := list];
      if |list| == 0 {
        inner := inner - {identifier};
      }
    }
  }

  lemma {:induction false} FirstPosition(list: seq<ExpectedPacket>, p: ExpectedPacket, i: nat)
    requires i < |list| && list[i] == p && p !in list[..i]
    ensures Position(list, p) == i
    decreases i
  {
    if i > 0 {
      assert list[..i] == [list[0]] + list[1..][..i - 1];
      FirstPosition(list[1..], p, i - 1);
    }
  }
}
