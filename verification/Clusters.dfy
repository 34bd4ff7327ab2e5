/**
 * The four streams two agents may share while keys rotate (`src/stream.rs`, `StreamCluster`): one for each pair
 * of a current or previous seed of ours and a current or previous key material of the neighbour's.
 */
module Clusters {
  import opened Basics
  import opened Windows
  import opened ExpectedPackets
  import opened Streams

  /** The slots in the order the program searches them: own current or previous, with theirs current or previous. */
  const CC: nat := 0
  const CP: nat := 1
  const PC: nat := 2
  const PP: nat := 3
  const SLOTS: nat := 4

  datatype Cluster = Cluster(
    neighbor: Identity,
    neighborIsLater: bool,
    ownCurrentAcknowledged: bool,
    ownCurrent: Option<Bytes>,
    ownPrevious: Option<Bytes>,
    theirCurrent: Option<Bytes>,
    theirPrevious: Option<Bytes>,
    streams: seq<Option<StreamState>>)

  type ClusterState = cl: Cluster | |cl.streams| == SLOTS
    witness Cluster(0, false, false, None, None, None, None, [None, None, None, None])

  function NewCluster(neighbor: Identity, neighborIsLater: bool): ClusterState {
    Cluster(neighbor, neighborIsLater, false, None, None, None, None, [None, None, None, None])
  }

  function OwnSeedPushed(c: Cipher, cl: ClusterState, seed: Bytes, t: Table): (ClusterState, Table)
  {
    var cc := MaybeStream(c, Some(seed), cl.theirCurrent, cl.neighborIsLater);
    var cp := MaybeStream(c, Some(seed), cl.theirPrevious, cl.neighborIsLater);
    (cl.(ownPrevious := cl.ownCurrent, ownCurrent := Some(seed), streams := [cc, cp, cl.streams[CC], cl.streams[CP]]),
     ExpectFirst(c, cp, cl.neighbor, ExpectFirst(c, cc, cl.neighbor, t)))
  }

  function MaterialPushed(c: Cipher, cl: ClusterState, material: Bytes, t: Table): (ClusterState, Table)
  {
    var cc := MaybeStream(c, cl.ownCurrent, Some(material), cl.neighborIsLater);
    var pc := MaybeStream(c, cl.ownPrevious, Some(material), cl.neighborIsLater);
    (cl.(theirPrevious := cl.theirCurrent, theirCurrent := Some(material),
         streams := [cc, cl.streams[CC], pc, cl.streams[PC]]),
     ExpectFirst(c, pc, cl.neighbor, ExpectFirst(c, cc, cl.neighbor, t)))
  }

  /** The slot to send on: ours acknowledged, the newest; otherwise the previous seed's while there is one. */
  function Chosen(cl: ClusterState): (r: Option<nat>)
    ensures r.Some? ==> r.value < SLOTS && cl.streams[r.value].Some?
    ensures r.None? ==> cl.streams[CC].None? && cl.streams[PC].None?
  {
    var (preferred, backup) := if cl.ownCurrentAcknowledged then (CC, PC) else (PC, CC);
    if cl.streams[preferred].Some? then Some(preferred) else if cl.streams[backup].Some? then Some(backup) else None
  }

  /** Opening with the first stream, from slot `i` on, that has the key. */
  function OpenFrom(streams: seq<Option<StreamState>>, key: Bytes, number: nat, sealed: Sealed, i: nat): Option<Bytes>
    requires i <= |streams|
    decreases |streams| - i
  {
    if i == |streams| then None
    else if streams[i].Some? && streams[i].value.key == key then OpenIncoming(streams[i].value, number, sealed)
    else OpenFrom(streams, key, number, sealed, i + 1)
  }

  /** Every stream with the packet's key, from slot `i` on, hears of it. Nothing where a stream panics. */
  function GotFrom(c: Cipher, streams: seq<Option<StreamState>>, p: ExpectedPacket, t: Table, i: nat)
    : (r: Option<(seq<Option<StreamState>>, Table)>)
    requires i <= |streams|
    ensures r.Some? ==> |r.value.0| == |streams|
    decreases |streams| - i
  {
    if i == |streams| then Some((streams, t))
    else if streams[i].Some? && streams[i].value.key == p.streamKey then
      match GotIncoming(c, streams[i].value, p, t)
      case None => None
      case Some((st, t')) => GotFrom(c, streams[i := Some(st)], p, t', i + 1)
    else GotFrom(c, streams, p, t, i + 1)
  }

  function Got(c: Cipher, cl: ClusterState, p: ExpectedPacket, id: nat, t: Table): Option<(ClusterState, Table)>
  {
    match GotFrom(c, cl.streams, p, t, 0)
    case None => None
    case Some((streams, t')) => Some((cl.(streams := streams), Removed(t', p, id)))
  }

  /** A slot holds the stream of exactly its own seed and neighbour key, and holds one when both are there. */
  predicate SlotHolds(c: Cipher, st: Option<StreamState>, seed: Option<Bytes>, material: Option<Bytes>, later: bool) {
    (st.Some? <==> seed.Some? && material.Some?) &&
    (st.Some? ==> st.value.key == c.exchange(material.value, seed.value) && st.value.neighborIsLater == later &&
                  Cached(c, st.value))
  }

  /** The grid: each of the four slots goes with its row's seed and its column's key material. */
  predicate Grid(c: Cipher, cl: ClusterState) {
    SlotHolds(c, cl.streams[CC], cl.ownCurrent, cl.theirCurrent, cl.neighborIsLater) &&
    SlotHolds(c, cl.streams[CP], cl.ownCurrent, cl.theirPrevious, cl.neighborIsLater) &&
    SlotHolds(c, cl.streams[PC], cl.ownPrevious, cl.theirCurrent, cl.neighborIsLater) &&
    SlotHolds(c, cl.streams[PP], cl.ownPrevious, cl.theirPrevious, cl.neighborIsLater)
  }

  /** Rotating either side's keys keeps every slot with its own pair. */
  lemma PushesKeepGrid(c: Cipher, cl: ClusterState, bytes: Bytes, t: Table)
    requires Grid(c, cl)
    ensures Grid(c, OwnSeedPushed(c, cl, bytes, t).0)
    ensures Grid(c, MaterialPushed(c, cl, bytes, t).0)
  {
    hide ExpectFrom;
  }

  /** A stream on which nothing has happened. */
  predicate Unused(st: Option<StreamState>) {
    st.Some? ==> st.value.outgoingIndex == 0 && st.value.window == Window(0, 0xffff_ffff_ffff_ffff)
  }

  /** Rotating moves streams with all that has happened on them, and what it creates is unused. */
  lemma PushesMoveStreams(c: Cipher, cl: ClusterState, bytes: Bytes, t: Table)
    ensures var s, s' := cl.streams, OwnSeedPushed(c, cl, bytes, t).0.streams;
            Unused(s'[CC]) && Unused(s'[CP]) && s'[PC] == s[CC] && s'[PP] == s[CP]
    ensures var s, s' := cl.streams, MaterialPushed(c, cl, bytes, t).0.streams;
            Unused(s'[CC]) && Unused(s'[PC]) && s'[CP] == s[CC] && s'[PP] == s[PC]
  {
    hide ExpectFrom;
  }

  /** Both orders of rotation lead to the same keys: seed then material, or material then seed. */
  lemma PushesCommuteOnKeys(c: Cipher, cl: ClusterState, seed: Bytes, material: Bytes, t: Table)
    requires Grid(c, cl)
    ensures var ab := MaterialPushed(c, OwnSeedPushed(c, cl, seed, t).0, material, t).0;
            var ba := OwnSeedPushed(c, MaterialPushed(c, cl, material, t).0, seed, t).0;
            forall i: nat :: i < SLOTS ==>
              (ab.streams[i].Some? <==> ba.streams[i].Some?) &&
              (ab.streams[i].Some? ==> ab.streams[i].value.key == ba.streams[i].value.key)
  {
    hide ExpectFrom;
  }

  /**
   * Right after a new seed of ours, sending goes on with the stream that was newest before, which the neighbour has
   * already, unless the neighbour has acknowledged a seed. No code records that it has.
   */
  lemma SendingSurvivesRotation(c: Cipher, cl: ClusterState, seed: Bytes, t: Table)
    requires cl.streams[CC].Some? && !cl.ownCurrentAcknowledged
    ensures var cl' := OwnSeedPushed(c, cl, seed, t).0;
            Chosen(cl').Some? && cl'.streams[Chosen(cl').value] == cl.streams[CC]
  {
    hide ExpectFirst, MaybeStream;
  }

  /** No two streams of a cluster share a key. */
  predicate KeysDistinct(streams: seq<Option<StreamState>>) {
    forall i: nat, j: nat :: i < j < |streams| && streams[i].Some? && streams[j].Some? ==>
      streams[i].value.key != streams[j].value.key
  }

  /** With distinct keys, a packet is heard by its own stream alone. */
  lemma {:induction false} GotFromOne(c: Cipher, streams: seq<Option<StreamState>>, p: ExpectedPacket, t: Table,
                                      i: nat, k: nat)
    requires i <= |streams| && k < |streams| && KeysDistinct(streams)
    requires streams[k].Some? && streams[k].value.key == p.streamKey
    ensures GotFrom(c, streams, p, t, i) ==
      if k < i then Some((streams, t))
      else
        match GotIncoming(c, streams[k].value, p, t)
        case None => None
        case Some((st, t')) => Some((streams[k := Some(st)], t'))
    decreases |streams| - i
  {
    if i < |streams| {
      if i == k {
        var r := GotIncoming(c, streams[k].value, p, t);
        if r.Some? {
          GotKeepsKey(c, streams[k].value, p, t);
          hide GotIncoming;
          GotFromOne(c, streams[k := Some(r.value.0)], p, r.value.1, i + 1, k);
        }
      } else {
        hide GotIncoming;
        GotFromOne(c, streams, p, t, i + 1, k);
      }
    }
  }

  /** A stream's window once it has heard of a packet. */
  function Heard(w: Window, n: nat): Window {
    if n < w.start then w else Received(w, n)
  }

  /** A stream that the packet is beyond. */
  predicate Overruns(st: Option<StreamState>, p: ExpectedPacket) {
    st.Some? && st.value.key == p.streamKey && p.packetNumber >= st.value.window.start + 64
  }

  /** Whatever the keys, each stream with the packet's hears of it, and it panics if one of them does. */
  lemma {:induction false} GotFromEach(c: Cipher, streams: seq<Option<StreamState>>, p: ExpectedPacket, t: Table,
                                       i: nat, j: nat)
    requires i <= |streams|
    ensures GotFrom(c, streams, p, t, i).Some? && i <= j < |streams| ==>
              GotFrom(c, streams, p, t, i).value.0[j] ==
              match streams[j]
              case None => None
              case Some(st) =>
                if st.key == p.streamKey then Some(st.(window := Heard(st.window, p.packetNumber))) else Some(st)
    ensures GotFrom(c, streams, p, t, i).Some? && j < i ==> GotFrom(c, streams, p, t, i).value.0[j] == streams[j]
    ensures GotFrom(c, streams, p, t, i).None? <==> exists k: nat :: i <= k < |streams| && Overruns(streams[k], p)
    decreases |streams| - i
  {
    if i < |streams| {
      if streams[i].Some? && streams[i].value.key == p.streamKey {
        var r := GotIncoming(c, streams[i].value, p, t);
        GotIncomingIs(c, streams[i].value, p, t);
        hide GotIncoming, Received;
        if r.Some? {
          var streams' := streams[i := Some(r.value.0)];
          assert forall k: nat :: i < k < |streams| ==> Overruns(streams[k], p) == Overruns(streams'[k], p);
          GotFromEach(c, streams[i := Some(r.value.0)], p, r.value.1, i + 1, j);
        }
      } else {
        hide GotIncoming, Received;
        GotFromEach(c, streams, p, t, i + 1, j);
      }
    }
  }

  lemma GotIncomingIs(c: Cipher, st: StreamState, p: ExpectedPacket, t: Table)
    ensures GotIncoming(c, st, p, t).None? <==> p.packetNumber >= st.window.start + 64
    ensures GotIncoming(c, st, p, t).Some? ==>
              GotIncoming(c, st, p, t).value.0 == st.(window := Heard(st.window, p.packetNumber))
  {
    hide ExpectFrom, ForgetFrom, Moves, Marked;
  }

  lemma GotKeepsKey(c: Cipher, st: StreamState, p: ExpectedPacket, t: Table)
    requires GotIncoming(c, st, p, t).Some?
    ensures var st' := GotIncoming(c, st, p, t).value.0; st' == st.(window := st'.window)
  {
  }

  /** With distinct keys, a packet is opened by its own stream alone. */
  lemma {:induction false} OpenFromOne(streams: seq<Option<StreamState>>, key: Bytes, number: nat, sealed: Sealed,
                                       i: nat, k: nat)
    requires i <= k < |streams| && KeysDistinct(streams)
    requires streams[k].Some? && streams[k].value.key == key
    ensures OpenFrom(streams, key, number, sealed, i) == OpenIncoming(streams[k].value, number, sealed)
    decreases k - i
  {
    if i < k {
      OpenFromOne(streams, key, number, sealed, i + 1, k);
    }
  }

  /** Whatever is opened is opened by some stream of the cluster with the packet's key. */
  lemma {:induction false} OpenFromSome(streams: seq<Option<StreamState>>, key: Bytes, number: nat, sealed: Sealed,
                                        i: nat) returns (k: nat)
    requires i <= |streams| && OpenFrom(streams, key, number, sealed, i).Some?
    ensures i <= k < |streams| && streams[k].Some? && streams[k].value.key == key
    ensures OpenFrom(streams, key, number, sealed, i) == OpenIncoming(streams[k].value, number, sealed)
    decreases |streams| - i
  {
    if streams[i].Some? && streams[i].value.key == key {
      k := i;
    } else {
      k := OpenFromSome(streams, key, number, sealed, i + 1);
    }
  }

  ghost function Single(stream: Stream?): set<object> {
    if stream == null then {} else {stream}
  }

  ghost predicate Apart(a: Stream?, b: Stream?) {
    a == null || a != b
  }

  class StreamCluster {
    var neighbor: Identity
    var neighborIsLater: bool
    var ownCurrentAcknowledged: bool
    var ownCurrentSeed: Option<Bytes>
    var ownPreviousSeed: Option<Bytes>
    var neighborCurrentKeyMaterial: Option<Bytes>
    var neighborPreviousKeyMaterial: Option<Bytes>
    var ownCurrentNeighborCurrent: Stream?
    var ownCurrentNeighborPrevious: Stream?
    var ownPreviousNeighborCurrent: Stream?
    var ownPreviousNeighborPrevious: Stream?

    function Slots(): (r: seq<Stream?>)
      reads this
      ensures |r| == SLOTS
    {
      [ownCurrentNeighborCurrent, ownCurrentNeighborPrevious, ownPreviousNeighborCurrent, ownPreviousNeighborPrevious]
    }

    /** No stream object stands in two slots. */
    ghost predicate Valid()
      reads this
    {
      Apart(ownCurrentNeighborCurrent, ownCurrentNeighborPrevious) &&
      Apart(ownCurrentNeighborCurrent, ownPreviousNeighborCurrent) &&
      Apart(ownCurrentNeighborCurrent, ownPreviousNeighborPrevious) &&
      Apart(ownCurrentNeighborPrevious, ownPreviousNeighborCurrent) &&
      Apart(ownCurrentNeighborPrevious, ownPreviousNeighborPrevious) &&
      Apart(ownPreviousNeighborCurrent, ownPreviousNeighborPrevious)
    }

    /** The cluster's own objects: itself and its streams. */
    ghost function Footprint(): (r: set<object>)
      reads this
      ensures this in r && forall s :: s in Slots() && s != null ==> s in r
      ensures forall o :: o in r ==> o is StreamCluster || o is Stream
    {
      {this} + Single(ownCurrentNeighborCurrent) + Single(ownCurrentNeighborPrevious) +
      Single(ownPreviousNeighborCurrent) + Single(ownPreviousNeighborPrevious)
    }

    ghost function Value(): ClusterState
      reads Footprint()
    {
      Cluster(neighbor, neighborIsLater, ownCurrentAcknowledged, ownCurrentSeed, ownPreviousSeed,
                   neighborCurrentKeyMaterial, neighborPreviousKeyMaterial,
                   [Held(ownCurrentNeighborCurrent), Held(ownCurrentNeighborPrevious),
                    Held(ownPreviousNeighborCurrent), Held(ownPreviousNeighborPrevious)])
    }

    /** When no stream but that of one slot changed, neither did the rest of the cluster. */
    twostate lemma OneChanged(i: nat)
      requires Valid() && unchanged(this) && i < SLOTS && Slots()[i] != null
      requires ownCurrentNeighborCurrent != Slots()[i] ==>
        Held(ownCurrentNeighborCurrent) == old(Held(ownCurrentNeighborCurrent))
      requires ownCurrentNeighborPrevious != Slots()[i] ==>
        Held(ownCurrentNeighborPrevious) == old(Held(ownCurrentNeighborPrevious))
      requires ownPreviousNeighborCurrent != Slots()[i] ==>
        Held(ownPreviousNeighborCurrent) == old(Held(ownPreviousNeighborCurrent))
      requires ownPreviousNeighborPrevious != Slots()[i] ==>
        Held(ownPreviousNeighborPrevious) == old(Held(ownPreviousNeighborPrevious))
      ensures Value() == old(Value()).(streams := old(Value()).streams[i := Held(Slots()[i])])
    {
    }

    constructor (who: Identity, later: bool)
      ensures Valid() && Value() == NewCluster(who, later)
      ensures Footprint() == {this}
    {
      neighbor, neighborIsLater, ownCurrentAcknowledged := who, later, false;
      ownCurrentSeed, ownPreviousSeed := None, None;
      neighborCurrentKeyMaterial, neighborPreviousKeyMaterial := None, None;
      ownCurrentNeighborCurrent, ownCurrentNeighborPrevious := null, null;
      ownPreviousNeighborCurrent, ownPreviousNeighborPrevious := null, null;
    }

    /** A cluster whose streams are its old ones, or new. */
    twostate lemma OldOrNew()
      requires forall s :: s in Slots() && s != null ==> fresh(s) || s in old(Slots())
      ensures forall o :: o in Footprint() ==> fresh(o) || o in old(Footprint())
    {
      forall o | o in Footprint() && !fresh(o)
        ensures o in old(Footprint())
      {
        if o != this {
          assert o in Slots();
        }
      }
    }

    /** The current seed and its streams become the previous ones. */
    method RetireOwnSeed(seed: Bytes)
      requires Valid()
      modifies this
      ensures Valid() && Slots() == [null, null, old(Slots()[CC]), old(Slots()[CP])]
      ensures Value() == old(Value()).(ownPrevious := old(Value()).ownCurrent, ownCurrent := Some(seed),
                                       streams := [None, None, old(Value()).streams[CC], old(Value()).streams[CP]])
    {
      ownPreviousSeed := ownCurrentSeed;
      ownCurrentSeed := Some(seed);
      ownPreviousNeighborCurrent, ownCurrentNeighborCurrent := ownCurrentNeighborCurrent, null;
      ownPreviousNeighborPrevious, ownCurrentNeighborPrevious := ownCurrentNeighborPrevious, null;
    }

    method PushOwnSeed(c: Cipher, seed: Bytes, upcoming: ExpectedPacketSet)
      requires Valid()
      modifies this, upcoming
      ensures Valid()
      ensures forall s :: s in Slots() && s != null ==> fresh(s) || s in old(Slots())
      ensures (Value(), upcoming.inner) == old(OwnSeedPushed(c, Value(), seed, upcoming.inner))
    {
      hide ExpectFirst, MaybeStream;
      RetireOwnSeed(seed);
      ownCurrentNeighborCurrent :=
        Stream.MaybeNew(c, ownCurrentSeed, neighborCurrentKeyMaterial, neighbor, neighborIsLater, upcoming);
      ownCurrentNeighborPrevious :=
        Stream.MaybeNew(c, ownCurrentSeed, neighborPreviousKeyMaterial, neighbor, neighborIsLater, upcoming);
    }

    /** The current key material and its streams become the previous ones. */
    method RetireMaterial(material: Bytes)
      requires Valid()
      modifies this
      ensures Valid() && Slots() == [null, old(Slots()[CC]), null, old(Slots()[PC])]
      ensures Value() == old(Value()).(theirPrevious := old(Value()).theirCurrent, theirCurrent := Some(material),
                                       streams := [None, old(Value()).streams[CC], None, old(Value()).streams[PC]])
    {
      neighborPreviousKeyMaterial := neighborCurrentKeyMaterial;
      neighborCurrentKeyMaterial := Some(material);
      ownCurrentNeighborPrevious, ownCurrentNeighborCurrent := ownCurrentNeighborCurrent, null;
      ownPreviousNeighborPrevious, ownPreviousNeighborCurrent := ownPreviousNeighborCurrent, null;
    }

    method PushNeighborKeyMaterial(c: Cipher, material: Bytes, upcoming: ExpectedPacketSet)
      requires Valid()
      modifies this, upcoming
      ensures Valid()
      ensures forall s :: s in Slots() && s != null ==> fresh(s) || s in old(Slots())
      ensures (Value(), upcoming.inner) == old(MaterialPushed(c, Value(), material, upcoming.inner))
    {
      hide ExpectFirst, MaybeStream;
      RetireMaterial(material);
      ownCurrentNeighborCurrent :=
        Stream.MaybeNew(c, ownCurrentSeed, neighborCurrentKeyMaterial, neighbor, neighborIsLater, upcoming);
      ownPreviousNeighborCurrent :=
        Stream.MaybeNew(c, ownPreviousSeed, neighborCurrentKeyMaterial, neighbor, neighborIsLater, upcoming);
    }

    /** The identifier of the next packet, and the key and nonce to seal it under. Nothing where no stream is ready. */
    method ProduceOutgoingIdentifier(c: Cipher) returns (r: Option<(nat, Bytes, nat)>)
      requires Valid()
      modifies Slots()
      ensures Slots() == old(Slots())
      ensures r.None? <==> old(Chosen(Value())).None?
      ensures r.None? ==> Value() == old(Value())
      ensures r.Some? ==>
        var i := old(Chosen(Value())).value;
        var st := old(Value()).streams[i].value;
        var (identifier, nonce, st') := Produced(c, st);
        r.value == (identifier, st.key, nonce) &&
        Value() == old(Value()).(streams := old(Value()).streams[i := Some(st')])
    {
      var preferred, backup := ownPreviousNeighborCurrent, ownCurrentNeighborCurrent;
      if ownCurrentAcknowledged {
        preferred, backup := backup, preferred;
      }
      var chosen := if preferred != null then preferred else backup;
      if chosen == null {
        return None;
      }
      assert chosen in Slots();
      var identifier, nonce := chosen.ProduceOutgoingIdentifier(c);
      r := Some((identifier, chosen.key, nonce));
    }

    /** Nothing where no stream has the key, or the one that has it cannot open the payload. */
    method DecryptIncomingPayload(key: Bytes, packetNumber: nat, sealed: Sealed) returns (r: Option<Bytes>)
      ensures r == OpenFrom(Value().streams, key, packetNumber, sealed, 0)
    {
      var streams := Slots();
      for i := 0 to SLOTS
        invariant OpenFrom(Value().streams, key, packetNumber, sealed, 0) ==
          OpenFrom(Value().streams, key, packetNumber, sealed, i)
      {
        var stream := streams[i];
        if stream != null && key == stream.key {
          r := stream.DecryptIncomingPayload(packetNumber, sealed);
          return;
        }
      }
      r := None;
    }

    /** The stream of one slot hears of a packet. */
    method SlotGotIncoming(c: Cipher, i: nat, packet: ExpectedPacket, upcoming: ExpectedPacketSet)
      requires Valid() && i < SLOTS && Slots()[i] != null
      requires GotIncoming(c, Slots()[i].Value(), packet, upcoming.inner).Some?
      modifies Slots()[i], upcoming
      ensures (Value(), upcoming.inner) ==
              old(var (st, t) := GotIncoming(c, Slots()[i].Value(), packet, upcoming.inner).value;
                  (Value().(streams := Value().streams[i := Some(st)]), t))
    {
      hide GotIncoming;
      Slots()[i].GotIncomingPacket(c, packet, upcoming);
      OneChanged(i);
    }

    method GotIncomingPacket(c: Cipher, packet: ExpectedPacket, identifier: nat, upcoming: ExpectedPacketSet)
      requires Valid() && Got(c, Value(), packet, identifier, upcoming.inner).Some?
      modifies Slots(), upcoming
      ensures Slots() == old(Slots())
      ensures (Value(), upcoming.inner) == old(Got(c, Value(), packet, identifier, upcoming.inner).value)
    {
      hide GotIncoming, Removed;
      var streams := Slots();
      ghost var goal := GotFrom(c, Value().streams, packet, upcoming.inner, 0);
      for i := 0 to SLOTS
        invariant Slots() == streams && Value() == old(Value()).(streams := Value().streams)
        invariant goal == GotFrom(c, Value().streams, packet, upcoming.inner, i)
      {
        var stream := streams[i];
        if stream != null && stream.key == packet.streamKey {
          SlotGotIncoming(c, i, packet, upcoming);
        }
      }
      upcoming.Remove(packet, identifier);
    }
  }
}
