/**
 * What every step of an agent keeps: each live stream's entries in the shared table are exactly what its window
 * awaits. Streams rotated out leave their entries behind, so the statement is per live stream, and rests on no
 * neighbour's stream being given a key that a stream with it had before.
 */
module Exactness {
  import opened Basics
  import opened Windows
  import opened ExpectedPackets
  import opened Streams
  import opened Clusters
  import opened Agents

  /**
   * A neighbour's cluster: its keys in their slots, one seed of ours, and no acknowledgement, which no code records.
   */
  ghost predicate KnownNeighbor(c: Cipher, identity: Identity, n: Identity, cl: ClusterState) {
    n != identity && cl.neighbor == n && cl.neighborIsLater == (n > identity) && Grid(c, cl) &&
    cl.ownCurrent.Some? && cl.ownPrevious.None? && !cl.ownCurrentAcknowledged
  }

  /** A stream the agent holds. */
  predicate Live(ag: AgentState, n: Identity, i: nat) {
    n in ag.neighbors && i < SLOTS && ag.neighbors[n].streams.streams[i].Some?
  }

  function LiveStream(ag: AgentState, n: Identity, i: nat): StreamState
    requires Live(ag, n, i)
  {
    ag.neighbors[n].streams.streams[i].value
  }

  /** Every entry is expected from one of these neighbours, on a channel that was in use. */
  ghost predicate Backed(t: Table, whos: set<Identity>, used: set<Channel>) {
    forall p: ExpectedPacket, id: nat {:trigger Count(t, p, id)} :: Count(t, p, id) > 0 ==>
      p.streamWith in whos && ChannelOf(p) in used
  }

  ghost predicate StreamsExact(c: Cipher, ag: AgentState, used: set<Channel>) {
    forall n: Identity, i: nat {:trigger Live(ag, n, i)} :: Live(ag, n, i) ==>
      (n, LiveStream(ag, n, i).key) in used && Exact(c, LiveStream(ag, n, i), n, ag.upcoming)
  }

  /** No two live streams with one neighbour share a key. */
  ghost predicate LiveKeysDistinct(ag: AgentState) {
    forall n: Identity, i: nat, j: nat {:trigger Live(ag, n, i), Live(ag, n, j)} ::
      Live(ag, n, i) && Live(ag, n, j) && LiveStream(ag, n, i).key == LiveStream(ag, n, j).key ==> i == j
  }

  /** The invariant. `used` holds the channels of all streams the agent ever had. */
  ghost predicate Invariant(c: Cipher, ag: AgentState, used: set<Channel>) {
    (forall n :: n in ag.neighbors ==> KnownNeighbor(c, ag.identity, n, ag.neighbors[n].streams)) &&
    (forall ch :: ch in used ==> ch.0 in ag.neighbors) &&
    Backed(ag.upcoming, ag.neighbors.Keys, used) &&
    StreamsExact(c, ag, used) &&
    LiveKeysDistinct(ag)
  }

  lemma NewAgentInvariant(c: Cipher, identity: Identity)
    ensures Invariant(c, NewAgent(identity), {})
  {
  }

  /** Two tables agree on the entries for these channels. */
  ghost predicate SameFor(t: Table, t': Table, used: set<Channel>) {
    forall p: ExpectedPacket, id: nat {:trigger Count(t', p, id)} :: ChannelOf(p) in used ==>
      Count(t', p, id) == Count(t, p, id)
  }

  lemma ExactSame(c: Cipher, st: StreamState, who: Identity, t: Table, t': Table, used: set<Channel>)
    requires Exact(c, st, who, t) && SameFor(t, t', used) && (who, st.key) in used
    ensures Exact(c, st, who, t')
  {
    hide Count;
    forall p: ExpectedPacket, id: nat | ChannelOf(p) == (who, st.key)
      ensures Count(t', p, id) == Count(t, p, id)
    {
    }
  }

  /** Replacing one neighbour's cluster, and the table with it, keeps the invariant if these hold. */
  ghost predicate Replaces(c: Cipher, ag: AgentState, n: Identity, address: Address, cl: ClusterState, t: Table,
                           used: set<Channel>, used': set<Channel>) {
    used <= used' && KnownNeighbor(c, ag.identity, n, cl) && KeysDistinct(cl.streams) &&
    (forall i: nat :: i < SLOTS && cl.streams[i].Some? ==>
      (n, cl.streams[i].value.key) in used' && Exact(c, cl.streams[i].value, n, t)) &&
    (forall m: Identity, i: nat {:trigger Live(ag, m, i)} ::
      m != n && Live(ag, m, i) ==> Exact(c, LiveStream(ag, m, i), m, t)) &&
    (forall ch :: ch in used' ==> ch.0 in ag.neighbors.Keys + {n}) &&
    Backed(t, ag.neighbors.Keys + {n}, used')
  }

  function Replaced(ag: AgentState, n: Identity, address: Address, cl: ClusterState, t: Table): AgentState {
    ag.(neighbors := ag.neighbors[n := NeighborState(address, cl)], upcoming := t)
  }

  lemma ReplacedInvariant(c: Cipher, ag: AgentState, n: Identity, address: Address, cl: ClusterState, t: Table,
                          used: set<Channel>, used': set<Channel>)
    requires Invariant(c, ag, used) && Replaces(c, ag, n, address, cl, t, used, used')
    ensures Invariant(c, Replaced(ag, n, address, cl, t), used')
  {
    hide Grid, Exact, Count, Backed;
    var ag' := Replaced(ag, n, address, cl, t);
    assert ag'.neighbors.Keys == ag.neighbors.Keys + {n};
    forall m: Identity, i: nat | Live(ag', m, i) && m != n
      ensures Live(ag, m, i) && LiveStream(ag', m, i) == LiveStream(ag, m, i)
    {
    }
  }

  /** Expecting the first packets of a stream on a new channel. */
  lemma ExpectOne(c: Cipher, who: Identity, st: Option<StreamState>, t: Table, whos: set<Identity>, used: set<Channel>)
    requires Backed(t, whos, used)
    requires st.Some? ==> st.value.window == FIRST_WINDOW && (who, st.value.key) !in used
    ensures var t' := ExpectFirst(c, st, who, t);
            SameFor(t, t', used) && Backed(t', whos + {who}, used + Elements(ChannelsOf(who, st))) &&
            (st.Some? ==> Exact(c, st.value, who, t'))
  {
    if st.Some? {
      var t' := ExpectFirst(c, st, who, t);
      NewStreamExact(c, st.value, who, t);
      hide Count, ExpectFrom;
      assert (who, st.value.key) in ChannelsOf(who, st);
      forall p: ExpectedPacket, id: nat | Count(t', p, id) > 0
        ensures p.streamWith in whos + {who} && ChannelOf(p) in used + Elements(ChannelsOf(who, st))
      {
        if ChannelOf(p) != (who, st.value.key) {
          assert Count(t, p, id) > 0;
        }
      }
    }
  }

  /** No stream, or one nothing has come in on, on a new channel. */
  predicate Unused(who: Identity, st: Option<StreamState>, used: set<Channel>) {
    st.Some? ==> st.value.window == FIRST_WINDOW && (who, st.value.key) !in used
  }

  lemma ExpectTwo(c: Cipher, who: Identity, st1: Option<StreamState>, st2: Option<StreamState>, t: Table,
                  whos: set<Identity>, used: set<Channel>)
    requires Backed(t, whos, used) && Unused(who, st1, used) && Unused(who, st2, used)
    requires st1.Some? && st2.Some? ==> st1.value.key != st2.value.key
    ensures var t' := ExpectFirst(c, st2, who, ExpectFirst(c, st1, who, t));
            SameFor(t, t', used) &&
            Backed(t', whos + {who}, used + Elements(ChannelsOf(who, st1) + ChannelsOf(who, st2))) &&
            (st1.Some? ==> Exact(c, st1.value, who, t')) && (st2.Some? ==> Exact(c, st2.value, who, t'))
  {
    hide Count, ExpectFirst, Exact;
    var t1 := ExpectFirst(c, st1, who, t);
    var t' := ExpectFirst(c, st2, who, t1);
    var used1 := used + Elements(ChannelsOf(who, st1));
    ExpectOne(c, who, st1, t, whos, used);
    ExpectOne(c, who, st2, t1, whos + {who}, used1);
    if st1.Some? {
      assert (who, st1.value.key) in ChannelsOf(who, st1);
      ExactSame(c, st1.value, who, t1, t', used1);
    }
    assert used1 + Elements(ChannelsOf(who, st2)) == used + Elements(ChannelsOf(who, st1) + ChannelsOf(who, st2));
    assert whos + {who} + {who} == whos + {who};
    SameForTwice(t, t1, t', used, used1);
  }

  lemma SameForTwice(t: Table, t1: Table, t2: Table, used: set<Channel>, more: set<Channel>)
    requires SameFor(t, t1, used) && SameFor(t1, t2, more) && used <= more
    ensures SameFor(t, t2, used)
  {
    hide Count;
    forall p: ExpectedPacket, id: nat | ChannelOf(p) in used
      ensures Count(t2, p, id) == Count(t, p, id)
    {
      assert Count(t2, p, id) == Count(t1, p, id);
    }
  }

  /**
   * Rotating a cluster that is one of the agent's own: two slots are new streams or empty, the others were slots
   * before.
   */
  lemma RotationReplaces(c: Cipher, ag: AgentState, n: Identity, address: Address, cl: ClusterState,
                         st1: Option<StreamState>, st2: Option<StreamState>, at: nat, from1: nat, from2: nat,
                         used: set<Channel>)
    requires Invariant(c, ag, used) && KnownNeighbor(c, ag.identity, n, cl) && (at == CP || at == PC) &&
      from1 < from2 < SLOTS
    requires Unused(n, st1, used) && Unused(n, st2, used) && (st1.Some? && st2.Some? ==> st1.value.key != st2.value.key)
    requires cl.streams[CC] == st1 && cl.streams[at] == st2
    requires cl.streams[CP + PC - at].Some? ==>
      Live(ag, n, from1) && cl.streams[CP + PC - at].value == LiveStream(ag, n, from1)
    requires cl.streams[PP].Some? ==> Live(ag, n, from2) && cl.streams[PP].value == LiveStream(ag, n, from2)
    ensures var t' := ExpectFirst(c, st2, n, ExpectFirst(c, st1, n, ag.upcoming));
            Replaces(c, ag, n, address, cl, t', used, used + Elements(ChannelsOf(n, st1) + ChannelsOf(n, st2))) &&
            SameFor(ag.upcoming, t', used)
  {
    hide Grid, Exact, ExpectFirst, Count, Backed;
    var t' := ExpectFirst(c, st2, n, ExpectFirst(c, st1, n, ag.upcoming));
    var used' := used + Elements(ChannelsOf(n, st1) + ChannelsOf(n, st2));
    ExpectTwo(c, n, st1, st2, ag.upcoming, ag.neighbors.Keys, used);
    assert st1.Some? ==> (n, st1.value.key) in ChannelsOf(n, st1) + ChannelsOf(n, st2);
    assert st2.Some? ==> (n, st2.value.key) in ChannelsOf(n, st1) + ChannelsOf(n, st2);
    forall m: Identity, i: nat | Live(ag, m, i)
      ensures Exact(c, LiveStream(ag, m, i), m, t')
    {
      ExactSame(c, LiveStream(ag, m, i), m, ag.upcoming, t', used);
    }
    forall i: nat | i < SLOTS && cl.streams[i].Some?
      ensures (n, cl.streams[i].value.key) in used' && Exact(c, cl.streams[i].value, n, t')
    {
    }
  }

  /** A neighbour's cluster is pushed new key material. */
  lemma MaterialPushedInvariant(c: Cipher, ag: AgentState, n: Identity, address: Address, material: Bytes,
                                used: set<Channel>)
    requires Invariant(c, ag, used) && n in ag.neighbors
    requires var channels := MaterialChannels(c, n, ag.neighbors[n].streams, material);
             NoRepeats(channels) && forall ch :: ch in channels ==> ch !in used
    ensures var (cl, t) := MaterialPushed(c, ag.neighbors[n].streams, material, ag.upcoming);
            Invariant(c, Replaced(ag, n, address, cl, t),
                      used + Elements(MaterialChannels(c, n, ag.neighbors[n].streams, material))) &&
            SameFor(ag.upcoming, t, used)
  {
    hide Exact, ExpectFirst, Count, Backed, StreamsExact, LiveKeysDistinct;
    var was := ag.neighbors[n].streams;
    var (cl, t) := MaterialPushed(c, was, material, ag.upcoming);
    PushesKeepGrid(c, was, material, ag.upcoming);
    var st1, st2 := cl.streams[CC], cl.streams[PC];
    FirstChannels(n, st1, st2, used);
    RotationReplaces(c, ag, n, address, cl, st1, st2, PC, CC, PC, used);
    ReplacedInvariant(c, ag, n, address, cl, t, used, used + Elements(ChannelsOf(n, st1) + ChannelsOf(n, st2)));
  }

  lemma FirstChannels(n: Identity, st1: Option<StreamState>, st2: Option<StreamState>, used: set<Channel>)
    requires NoRepeats(ChannelsOf(n, st1) + ChannelsOf(n, st2))
    requires forall ch :: ch in ChannelsOf(n, st1) + ChannelsOf(n, st2) ==> ch !in used
    ensures st1.Some? ==> (n, st1.value.key) !in used
    ensures st2.Some? ==> (n, st2.value.key) !in used
    ensures st1.Some? && st2.Some? ==> st1.value.key != st2.value.key
  {
    var channels := ChannelsOf(n, st1) + ChannelsOf(n, st2);
    if st1.Some? {
      assert channels[0] in channels;
    }
    if st2.Some? {
      assert channels[|channels| - 1] in channels;
    }
  }

  /** Someone unknown is answered: one stream comes into being. */
  lemma AnsweredInvariant(c: Cipher, ag: AgentState, n: Identity, address: Address, material: Bytes, seed: Bytes,
                          used: set<Channel>)
    requires Invariant(c, ag, used) && n !in ag.neighbors && n != ag.identity &&
      (n, c.exchange(material, seed)) !in used
    ensures var (cl, t) := Answered(c, n, n > ag.identity, material, seed, ag.upcoming);
            Invariant(c, Replaced(ag, n, address, cl, t), used + Elements([(n, c.exchange(material, seed))])) &&
            SameFor(ag.upcoming, t, used)
  {
    hide Exact, ExpectFirst, Count, Backed, StreamsExact, LiveKeysDistinct;
    var empty := NewCluster(n, n > ag.identity);
    var (cl1, t1) := MaterialPushed(c, empty, material, ag.upcoming);
    var (cl, t) := OwnSeedPushed(c, cl1, seed, t1);
    PushesKeepGrid(c, empty, material, ag.upcoming);
    PushesKeepGrid(c, cl1, seed, t1);
    var st1, st2 := cl.streams[CC], cl.streams[CP];
    NoExpectation(c, n, ag.upcoming);
    assert ChannelsOf(n, st1) + ChannelsOf(n, st2) == [(n, c.exchange(material, seed))];
    RotationReplaces(c, ag, n, address, cl, st1, st2, CP, CC, CP, used);
    ReplacedInvariant(c, ag, n, address, cl, t, used, used + Elements(ChannelsOf(n, st1) + ChannelsOf(n, st2)));
  }

  lemma NoExpectation(c: Cipher, who: Identity, t: Table)
    ensures ExpectFirst(c, None, who, t) == t
  {
  }

  /** Streams already shared with the neighbour are dropped, and none exist until it answers. */
  lemma InitiatedInvariant(c: Cipher, ag: AgentState, n: Identity, address: Address, seed: Bytes, used: set<Channel>)
    requires Invariant(c, ag, used) && n != ag.identity
    ensures var (cl, t) := OwnSeedPushed(c, NewCluster(n, n > ag.identity), seed, ag.upcoming);
            Invariant(c, Replaced(ag, n, address, cl, t), used) && SameFor(ag.upcoming, t, used)
  {
    hide Exact, ExpectFirst, Count, Backed, StreamsExact, LiveKeysDistinct;
    var (cl, t) := OwnSeedPushed(c, NewCluster(n, n > ag.identity), seed, ag.upcoming);
    PushesKeepGrid(c, NewCluster(n, n > ag.identity), seed, ag.upcoming);
    NoExpectation(c, n, ag.upcoming);
    RotationReplaces(c, ag, n, address, cl, None, None, CP, CC, CP, used);
    ReplacedInvariant(c, ag, n, address, cl, t, used, used + Elements(ChannelsOf(n, None) + ChannelsOf(n, None)));
    assert used + Elements(ChannelsOf(n, None) + ChannelsOf(n, None)) == used;
  }

  /** One stream of a neighbour changes, but not its key, its direction, or its batch's soundness. */
  ghost predicate SlotChanges(c: Cipher, ag: AgentState, n: Identity, k: nat, st: StreamState) {
    Live(ag, n, k) && st.key == LiveStream(ag, n, k).key &&
      st.neighborIsLater == LiveStream(ag, n, k).neighborIsLater && Cached(c, st)
  }

  function SlotReplaced(ag: AgentState, n: Identity, k: nat, st: StreamState): ClusterState
    requires Live(ag, n, k)
  {
    var cl := ag.neighbors[n].streams;
    cl.(streams := cl.streams[k := Some(st)])
  }

  lemma SlotReplacedInvariant(c: Cipher, ag: AgentState, n: Identity, k: nat, st: StreamState, t: Table,
                              used: set<Channel>)
    requires Invariant(c, ag, used) && SlotChanges(c, ag, n, k, st) && Exact(c, st, n, t)
    requires Backed(t, ag.neighbors.Keys, used) && SameElsewhere(ag.upcoming, t, (n, st.key))
    ensures Invariant(c, Replaced(ag, n, ag.neighbors[n].address, SlotReplaced(ag, n, k, st), t), used)
  {
    hide Exact, Count, Backed, Cached;
    var cl := SlotReplaced(ag, n, k, st);
    assert ag.neighbors.Keys + {n} == ag.neighbors.Keys;
    forall m: Identity, i: nat | Live(ag, m, i) && (m != n || i != k)
      ensures Exact(c, LiveStream(ag, m, i), m, t)
    {
      ExactElsewhere(c, LiveStream(ag, m, i), m, ag.upcoming, t, (n, st.key));
    }
    forall i: nat | i < SLOTS && cl.streams[i].Some?
      ensures (n, cl.streams[i].value.key) in used && Exact(c, cl.streams[i].value, n, t)
    {
      assert Live(ag, n, i);
      assert LiveStream(ag, n, i).key == cl.streams[i].value.key;
    }
    assert KeysDistinct(cl.streams) by {
      forall i: nat, j: nat | i < j < SLOTS && cl.streams[i].Some? && cl.streams[j].Some?
        ensures cl.streams[i].value.key != cl.streams[j].value.key
      {
        assert Live(ag, n, i) && Live(ag, n, j);
      }
    }
    ReplacedInvariant(c, ag, n, ag.neighbors[n].address, cl, t, used, used);
  }

  lemma ExactElsewhere(c: Cipher, st: StreamState, who: Identity, t: Table, t': Table, ch: Channel)
    requires Exact(c, st, who, t) && SameElsewhere(t, t', ch) && (who, st.key) != ch
    ensures Exact(c, st, who, t')
  {
    hide Count;
    forall p: ExpectedPacket, id: nat | ChannelOf(p) == (who, st.key)
      ensures Count(t', p, id) == Count(t, p, id)
    {
    }
  }

  /** What opens a listed packet is the live stream with its key, and that stream awaits it. */
  lemma {:induction false} FindMeans(c: Cipher, ag: AgentState, list: seq<ExpectedPacket>, sealed: Sealed, id: nat,
                                     used: set<Channel>)
    returns (k: nat)
    requires Invariant(c, ag, used) && forall p :: p in list ==> p in Listed(ag.upcoming, id)
    ensures !Find(ag.neighbors, list, sealed).Stranger?
    ensures var f := Find(ag.neighbors, list, sealed);
            f.Opened? ==>
              Live(ag, f.packet.streamWith, k) &&
              var st := LiveStream(ag, f.packet.streamWith, k);
              st.key == f.packet.streamKey && OpenIncoming(st, f.packet.packetNumber, sealed) == Some(f.payload) &&
              f.packet in list && Awaited(c, st, f.packet.streamWith, f.packet, id)
  {
    hide Exact, Grid, Cached, Awaited, LiveKeysDistinct;
    k := 0;
    if list != [] {
      var p := list[0];
      ListedCounts(ag.upcoming, p, id);
      var streams := ag.neighbors[p.streamWith].streams.streams;
      if OpenFrom(streams, p.streamKey, p.packetNumber, sealed, 0).Some? {
        k := OpenFromSome(streams, p.streamKey, p.packetNumber, sealed, 0);
        assert Live(ag, p.streamWith, k);
        ExactAwaits(c, LiveStream(ag, p.streamWith, k), p.streamWith, ag.upcoming, p, id);
      } else {
        k := FindMeans(c, ag, list[1..], sealed, id, used);
      }
    }
  }

  lemma ListedCounts(t: Table, p: ExpectedPacket, id: nat)
    ensures p in Listed(t, id) <==> Count(t, p, id) > 0
  {
  }

  lemma ExactAwaits(c: Cipher, st: StreamState, who: Identity, t: Table, p: ExpectedPacket, id: nat)
    requires Exact(c, st, who, t) && ChannelOf(p) == (who, st.key) && Count(t, p, id) > 0
    ensures Awaited(c, st, who, p, id)
  {
  }

  /** A stream's window after packets: this number has come in or been given up. */
  predicate Done(w: Window, m: nat) {
    m < w.start + WINDOW && !Awaits(w, m)
  }

  /** Every stream after a step is on a new channel, or is one from before that at most went on sending. */
  ghost predicate StreamsKept(ag: AgentState, ag': AgentState, used: set<Channel>) {
    forall n: Identity, i: nat {:trigger Live(ag', n, i)} :: Live(ag', n, i) ==>
      (n, LiveStream(ag', n, i).key) !in used ||
      exists j: nat {:trigger Live(ag, n, j)} :: Live(ag, n, j) && GoesOn(LiveStream(ag, n, j), LiveStream(ag', n, i))
  }

  predicate GoesOn(st: StreamState, st': StreamState) {
    st.key == st'.key && st.window == st'.window && st.outgoingIndex <= st'.outgoingIndex
  }

  lemma PushedKeeps(c: Cipher, ag: AgentState, n: Identity, address: Address, material: Bytes, used: set<Channel>)
    requires n in ag.neighbors
    requires forall ch :: ch in MaterialChannels(c, n, ag.neighbors[n].streams, material) ==> ch !in used
    ensures var (cl, t) := MaterialPushed(c, ag.neighbors[n].streams, material, ag.upcoming);
            StreamsKept(ag, Replaced(ag, n, address, cl, t), used)
  {
    hide ExpectFirst;
    var (cl, t) := MaterialPushed(c, ag.neighbors[n].streams, material, ag.upcoming);
    var ag' := Replaced(ag, n, address, cl, t);
    var channels := MaterialChannels(c, n, ag.neighbors[n].streams, material);
    assert cl.streams[CC].Some? ==> channels[0] == (n, cl.streams[CC].value.key);
    assert cl.streams[PC].Some? ==> channels[|channels| - 1] == (n, cl.streams[PC].value.key);
    assert cl.streams[CP].Some? ==> Live(ag, n, CC);
    assert cl.streams[PP].Some? ==> Live(ag, n, PC);
    forall m: Identity, i: nat | Live(ag', m, i) && m != n
      ensures Live(ag, m, i)
    {
    }
  }
}
