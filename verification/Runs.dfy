/**
 * Whole runs of one agent, over any network: as long as no neighbour's stream is given a key that a stream with it had
 * before, no packet is accepted twice, and the agent neither panics nor loses track of a neighbour.
 */
module Runs {
  import opened Basics
  import opened Windows
  import opened ExpectedPackets
  import opened Streams
  import opened Clusters
  import opened Agents
  import opened Exactness

  /** The packets accepted so far, with their payloads. */
  type Log = seq<(ExpectedPacket, Bytes)>

  lemma ClusterKeysDistinct(c: Cipher, ag: AgentState, n: Identity, used: set<Channel>)
    requires Invariant(c, ag, used) && n in ag.neighbors
    ensures KeysDistinct(ag.neighbors[n].streams.streams)
  {
    hide Grid, Exact, Backed;
    var streams := ag.neighbors[n].streams.streams;
    forall i: nat, j: nat | i < j < |streams| && streams[i].Some? && streams[j].Some?
      ensures streams[i].value.key != streams[j].value.key
    {
      assert Live(ag, n, i) && Live(ag, n, j);
    }
  }

  /** What a content packet may do: nothing, or be accepted by the live stream that awaits it. */
  lemma HandleContentStep(c: Cipher, ag: AgentState, id: nat, sealed: Sealed, used: set<Channel>) returns (k: nat)
    requires Invariant(c, ag, used)
    ensures var o := HandleContent(c, ag, id, sealed);
      o.Outcome? && o.error != Some(InternalError) && Invariant(c, o.agent, used) &&
      (o.accepted.None? ==> o.agent == ag && o.effects == []) &&
      (o.accepted.Some? ==>
        var (p, payload) := o.accepted.value;
        Live(ag, p.streamWith, k) &&
        var st := LiveStream(ag, p.streamWith, k);
        st.key == p.streamKey && Awaited(c, st, p.streamWith, p, id) &&
        OpenIncoming(st, p.packetNumber, sealed) == Some(payload) &&
        o.effects == (if |payload| / 4 > MEMORY_MAX then [] else [Execute(Task(p.streamWith, payload))]) &&
        o.agent == Replaced(ag, p.streamWith, ag.neighbors[p.streamWith].address,
                            SlotReplaced(ag, p.streamWith, k, st.(window := Received(st.window, p.packetNumber))),
                            o.agent.upcoming) &&
        SameElsewhere(ag.upcoming, o.agent.upcoming, ChannelOf(p)))
  {
    hide Invariant, Exact, Count, Awaited, Removed, GotIncoming, OpenIncoming, OpenFrom, Received;
    var list := Listed(ag.upcoming, id);
    k := FindMeans(c, ag, list, sealed, id, used);
    var f := Find(ag.neighbors, list, sealed);
    if f.Opened? {
      var p := f.packet;
      var st := LiveStream(ag, p.streamWith, k);
      ClusterKeysDistinct(c, ag, p.streamWith, used);
      ListedCounts(ag.upcoming, p, id);
      LiveExact(c, ag, p.streamWith, k, used);
      GotFromOne(c, ag.neighbors[p.streamWith].streams.streams, p, ag.upcoming, 0, k);
      GotIncomingExact(c, st, p.streamWith, p, id, ag.upcoming);
      var (st', t') := GotIncoming(c, st, p, ag.upcoming).value;
      ReceivedBacked(c, ag, p.streamWith, st', Removed(t', p, id), used);
      ReceivedCached(c, st, st');
      SlotReplacedInvariant(c, ag, p.streamWith, k, st', Removed(t', p, id), used);
    }
  }

  lemma ReceivedCached(c: Cipher, st: StreamState, st': StreamState)
    requires Cached(c, st) && st' == st.(window := st'.window)
    ensures Cached(c, st')
  {
  }

  lemma LiveExact(c: Cipher, ag: AgentState, n: Identity, k: nat, used: set<Channel>)
    requires Invariant(c, ag, used) && Live(ag, n, k)
    ensures Exact(c, LiveStream(ag, n, k), n, ag.upcoming) && (n, LiveStream(ag, n, k).key) in used
    ensures Cached(c, LiveStream(ag, n, k)) && LiveStream(ag, n, k).neighborIsLater == (n > ag.identity) &&
      n != ag.identity
  {
    hide Exact, Cached;
  }

  lemma ReceivedBacked(c: Cipher, ag: AgentState, n: Identity, st: StreamState, t: Table, used: set<Channel>)
    requires Invariant(c, ag, used) && n in ag.neighbors && (n, st.key) in used
    requires Exact(c, st, n, t) && SameElsewhere(ag.upcoming, t, (n, st.key))
    ensures Backed(t, ag.neighbors.Keys, used)
  {
    hide Count, Grid, StreamsExact;
    forall p: ExpectedPacket, id: nat | Count(t, p, id) > 0
      ensures p.streamWith in ag.neighbors.Keys && ChannelOf(p) in used
    {
      if ChannelOf(p) != (n, st.key) {
        assert Count(ag.upcoming, p, id) > 0;
      }
    }
  }

  /** Sending changes nothing but one stream's outgoing side. */
  lemma SendToStep(c: Cipher, ag: AgentState, n: Identity, payload: Bytes, used: set<Channel>)
    requires Invariant(c, ag, used)
    ensures var o := SendTo(c, ag, n, payload);
            o.Outcome? && Invariant(c, o.agent, used) && StreamsKept(ag, o.agent, used) &&
              o.agent.upcoming == ag.upcoming
  {
    hide Exact, Count, Grid, Produced, Cached, LiveKeysDistinct, Backed;
    if n in ag.neighbors && Chosen(ag.neighbors[n].streams).Some? {
      var k := Chosen(ag.neighbors[n].streams).value;
      assert Live(ag, n, k);
      var st := LiveStream(ag, n, k);
      LiveExact(c, ag, n, k, used);
      ProducedIdentifier(c, st);
      var st' := Produced(c, st).2;
      ExactIgnoresSending(c, st, st', n, ag.upcoming);
      SlotReplacedInvariant(c, ag, n, k, st', ag.upcoming, used);
    }
    SendKeepsStreams(c, ag, n, payload, used);
    hide StreamsKept;
  }

  lemma SendKeepsStreams(c: Cipher, ag: AgentState, n: Identity, payload: Bytes, used: set<Channel>)
    requires SendTo(c, ag, n, payload).Outcome?
    ensures StreamsKept(ag, SendTo(c, ag, n, payload).agent, used)
  {
    hide Unsendable;
    var ag' := SendTo(c, ag, n, payload).agent;
    forall m: Identity, i: nat | Live(ag', m, i)
      ensures Live(ag, m, i) && GoesOn(LiveStream(ag, m, i), LiveStream(ag', m, i))
    {
    }
  }

  lemma ExactIgnoresSending(c: Cipher, st: StreamState, st': StreamState, who: Identity, t: Table)
    requires Exact(c, st, who, t) && st.key == st'.key && st.neighborIsLater == st'.neighborIsLater &&
      st.window == st'.window
    ensures Exact(c, st', who, t) && SameElsewhere(t, t, (who, st.key))
  {
    forall p: ExpectedPacket, id: nat
      ensures Awaited(c, st, who, p, id) == Awaited(c, st', who, p, id)
    {
    }
  }

  /**
   * Every step keeps the invariant when its channels are new, and panics never. Of the packets that come in, only ones
   * too short to be anything end in an internal error, and only content packets that decode are accepted.
   */
  lemma StepInvariant(c: Cipher, ag: AgentState, e: Event, used: set<Channel>)
    requires Invariant(c, ag, used) && FreshKeys(c, ag, e, used)
    ensures var o := Step(c, ag, e);
            o.Outcome? && Invariant(c, o.agent, used + Elements(NewChannels(c, ag, e))) &&
            (Delivers(e) ==> o == HandleContent(c, ag, e.packet.identifier, e.packet.sealed)) &&
            (!Delivers(e) ==>
              StreamsKept(ag, o.agent, used) && SameFor(ag.upcoming, o.agent.upcoming, used) && o.accepted.None?) &&
            (e.Receive? && o.error == Some(InternalError) ==> e.packet.Content? && e.packet.length < INITIATION_LEN)
  {
    hide Invariant, HandleContent, SendTo, MaterialPushed, OwnSeedPushed, StreamsKept;
    assert used + Elements([]) == used;
    NoChangeKeeps(ag, used);
    match e
    case Receive(packet, source, seed) =>
      if packet.Content? {
        if Delivers(e) {
          var k := HandleContentStep(c, ag, packet.identifier, packet.sealed, used);
        }
      } else if packet.sender in ag.neighbors {
        if packet.recipient == ag.identity && packet.signed {
          MaterialPushedInvariant(c, ag, packet.sender, source, packet.material, used);
          PushedKeeps(c, ag, packet.sender, source, packet.material, used);
        }
      } else if packet.recipient == ag.identity && packet.signed && packet.sender != ag.identity {
        assert NewChannels(c, ag, e)[0] == (packet.sender, c.exchange(packet.material, seed));
        AnsweredInvariant(c, ag, packet.sender, source, packet.material, seed, used);
        AnsweredKeeps(c, ag, packet.sender, source, packet.material, seed, used);
      }
    case Initiate(neighbor, address, seed) =>
      if neighbor != ag.identity {
        InitiatedInvariant(c, ag, neighbor, address, seed, used);
        InitiatedKeeps(c, ag, neighbor, address, seed, used);
      }
    case Transmit(neighbor, payload) =>
      SendToStep(c, ag, neighbor, payload, used);
      SendToAcceptsNothing(c, ag, neighbor, payload);
  }

  lemma NoChangeKeeps(ag: AgentState, used: set<Channel>)
    ensures StreamsKept(ag, ag, used)
  {
  }

  lemma SendToAcceptsNothing(c: Cipher, ag: AgentState, n: Identity, payload: Bytes)
    ensures SendTo(c, ag, n, payload).Outcome? && SendTo(c, ag, n, payload).accepted.None?
  {
  }

  lemma AnsweredKeeps(c: Cipher, ag: AgentState, n: Identity, address: Address, material: Bytes, seed: Bytes,
                      used: set<Channel>)
    requires (n, c.exchange(material, seed)) !in used
    ensures var (cl, t) := Answered(c, n, n > ag.identity, material, seed, ag.upcoming);
            StreamsKept(ag, Replaced(ag, n, address, cl, t), used)
  {
    hide ExpectFirst;
    var (cl, t) := Answered(c, n, n > ag.identity, material, seed, ag.upcoming);
    OthersKept(ag, n, address, cl, t);
  }

  lemma InitiatedKeeps(c: Cipher, ag: AgentState, n: Identity, address: Address, seed: Bytes, used: set<Channel>)
    ensures var (cl, t) := OwnSeedPushed(c, NewCluster(n, n > ag.identity), seed, ag.upcoming);
            StreamsKept(ag, Replaced(ag, n, address, cl, t), used)
  {
    hide ExpectFirst;
    var (cl, t) := OwnSeedPushed(c, NewCluster(n, n > ag.identity), seed, ag.upcoming);
    OthersKept(ag, n, address, cl, t);
  }

  lemma OthersKept(ag: AgentState, n: Identity, address: Address, cl: ClusterState, t: Table)
    ensures var ag' := Replaced(ag, n, address, cl, t);
            forall m: Identity, i: nat {:trigger Live(ag', m, i)} :: m != n && Live(ag', m, i) ==>
              Live(ag, m, i) && LiveStream(ag, m, i) == LiveStream(ag', m, i)
  {
  }

  /** Every accepted packet so far is done with in its stream, should that still be live. */
  ghost predicate Spent(ag: AgentState, used: set<Channel>, log: Log) {
    forall e :: e in log ==>
      ChannelOf(e.0) in used &&
      forall i: nat {:trigger Live(ag, e.0.streamWith, i)} ::
        Live(ag, e.0.streamWith, i) && LiveStream(ag, e.0.streamWith, i).key == e.0.streamKey ==>
          Done(LiveStream(ag, e.0.streamWith, i).window, e.0.packetNumber)
  }

  lemma SpentKept(ag: AgentState, ag': AgentState, used: set<Channel>, used': set<Channel>, log: Log)
    requires Spent(ag, used, log) && StreamsKept(ag, ag', used) && used <= used'
    ensures Spent(ag', used', log)
  {
    forall e, i: nat | e in log && Live(ag', e.0.streamWith, i) &&
      LiveStream(ag', e.0.streamWith, i).key == e.0.streamKey
      ensures Done(LiveStream(ag', e.0.streamWith, i).window, e.0.packetNumber)
    {
      assert (e.0.streamWith, LiveStream(ag', e.0.streamWith, i).key) in used;
    }
  }

  lemma DoneStays(w: Window, n: nat, m: nat)
    requires Valid(w) && Awaits(w, n)
    ensures Done(w, m) || m == n ==> Done(Received(w, n), m)
  {
    ReceivedAwaits(w, n, m);
  }

  /** A newly accepted packet was never accepted before, and is done with from now on. */
  lemma AcceptedIsNew(c: Cipher, ag: AgentState, id: nat, sealed: Sealed, used: set<Channel>, log: Log)
    requires Invariant(c, ag, used) && Spent(ag, used, log)
    ensures var o := HandleContent(c, ag, id, sealed);
            o.Outcome? &&
            (o.accepted.None? ==> o.agent == ag) &&
            (o.accepted.Some? ==>
              (forall e :: e in log ==> e.0 != o.accepted.value.0) &&
              Spent(o.agent, used, log + [o.accepted.value]))
  {
    hide HandleContent, Grid, Exact, Backed, Received, Awaits, KnownNeighbor;
    var k := HandleContentStep(c, ag, id, sealed, used);
    var o := HandleContent(c, ag, id, sealed);
    if o.accepted.Some? {
      var p := o.accepted.value.0;
      var st := LiveStream(ag, p.streamWith, k);
      LiveExact(c, ag, p.streamWith, k, used);
      ExactValid(c, st, p.streamWith, ag.upcoming);
      forall e | e in log + [o.accepted.value]
        ensures ChannelOf(e.0) in used
        ensures forall i: nat {:trigger Live(o.agent, e.0.streamWith, i)} ::
          Live(o.agent, e.0.streamWith, i) && LiveStream(o.agent, e.0.streamWith, i).key == e.0.streamKey ==>
            Done(LiveStream(o.agent, e.0.streamWith, i).window, e.0.packetNumber)
      {
        forall i: nat | Live(o.agent, e.0.streamWith, i) && LiveStream(o.agent, e.0.streamWith, i).key == e.0.streamKey
          ensures Done(LiveStream(o.agent, e.0.streamWith, i).window, e.0.packetNumber)
        {
          assert Live(ag, e.0.streamWith, i);
          DoneStays(st.window, p.packetNumber, e.0.packetNumber);
        }
      }
    }
  }

  lemma ExactValid(c: Cipher, st: StreamState, who: Identity, t: Table)
    requires Exact(c, st, who, t)
    ensures Valid(st.window)
  {
  }

  function Logged(accepted: Option<(ExpectedPacket, Bytes)>): Log {
    if accepted.Some? then [accepted.value] else []
  }

  /** The packets a run accepts, in order. */
  function AcceptedIn(c: Cipher, ag: AgentState, events: seq<Event>): Log
    decreases |events|
  {
    if events == [] then []
    else
      match Step(c, ag, events[0])
      case Panicked => []
      case Outcome(ag', _, _, accepted) => Logged(accepted) + AcceptedIn(c, ag', events[1..])
  }

  /** Throughout a run, the channels of new streams are new. */
  predicate FreshRun(c: Cipher, ag: AgentState, events: seq<Event>, used: set<Channel>)
    decreases |events|
  {
    events == [] ||
    (FreshKeys(c, ag, events[0], used) &&
     match Step(c, ag, events[0])
     case Panicked => true
     case Outcome(ag', _, _, _) => FreshRun(c, ag', events[1..], used + Elements(NewChannels(c, ag, events[0]))))
  }

  /** No step of a run panics, and none that handles a packet of a packet's size ends in an internal error. */
  predicate Survives(c: Cipher, ag: AgentState, events: seq<Event>)
    decreases |events|
  {
    events == [] ||
    match Step(c, ag, events[0])
    case Panicked => false
    case Outcome(ag', _, error, _) =>
      var e := events[0];
      (e.Receive? && error == Some(InternalError) ==> e.packet.Content? && e.packet.length < INITIATION_LEN) &&
      Survives(c, ag', events[1..])
  }

  /** The agent after a run, or where it panicked. */
  function AgentAfter(c: Cipher, ag: AgentState, events: seq<Event>): AgentState
    decreases |events|
  {
    if events == [] then ag
    else
      match Step(c, ag, events[0])
      case Panicked => ag
      case Outcome(ag', _, _, _) => AgentAfter(c, ag', events[1..])
  }

  /** The channels of all streams the agent ever had, after a run. */
  function UsedAfter(c: Cipher, ag: AgentState, events: seq<Event>, used: set<Channel>): set<Channel>
    decreases |events|
  {
    if events == [] then used
    else
      match Step(c, ag, events[0])
      case Panicked => used
      case Outcome(ag', _, _, _) => UsedAfter(c, ag', events[1..], used + Elements(NewChannels(c, ag, events[0])))
  }

  predicate NothingTwice(log: Log) {
    forall i: nat, j: nat :: i < j < |log| ==> log[i].0 != log[j].0
  }

  /** Not even two neighbours' streams share a key. */
  ghost predicate KeysTellNeighbors(used: set<Channel>) {
    forall ch, ch' :: ch in used && ch' in used && ch.1 == ch'.1 ==> ch == ch'
  }

  /** No number of a key twice, whoever it came from. */
  predicate NumbersOnce(log: Log) {
    forall i: nat, j: nat :: i < j < |log| ==>
      log[i].0.streamKey != log[j].0.streamKey || log[i].0.packetNumber != log[j].0.packetNumber
  }

  lemma {:induction false} RunAcceptsOnce(c: Cipher, ag: AgentState, events: seq<Event>, used: set<Channel>, log: Log)
    requires Invariant(c, ag, used) && Spent(ag, used, log) && NothingTwice(log) && FreshRun(c, ag, events, used)
    ensures Survives(c, ag, events) && NothingTwice(log + AcceptedIn(c, ag, events))
    ensures var (ag', used') := (AgentAfter(c, ag, events), UsedAfter(c, ag, events, used));
            Invariant(c, ag', used') && Spent(ag', used', log + AcceptedIn(c, ag, events))
    decreases |events|
  {
    if events == [] {
      assert log + [] == log;
    } else {
      hide Invariant, Spent, Step, FreshKeys, StreamsKept, NothingTwice, NewChannels;
      var e := events[0];
      var o := Step(c, ag, e);
      var used' := used + Elements(NewChannels(c, ag, e));
      StepInvariant(c, ag, e, used);
      StepSpent(c, ag, e, used, log);
      RunAcceptsOnce(c, o.agent, events[1..], used', log + Logged(o.accepted));
      LogSplit(log, Logged(o.accepted), AcceptedIn(c, o.agent, events[1..]));
    }
  }

  lemma LogSplit<T>(log: seq<T>, first: seq<T>, rest: seq<T>)
    ensures log + (first + rest) == log + first + rest
  {
  }

  lemma StepSpent(c: Cipher, ag: AgentState, e: Event, used: set<Channel>, log: Log)
    requires Invariant(c, ag, used) && Spent(ag, used, log) && NothingTwice(log) && FreshKeys(c, ag, e, used)
    ensures var o := Step(c, ag, e);
            o.Outcome? &&
            var log' := log + Logged(o.accepted);
            Spent(o.agent, used + Elements(NewChannels(c, ag, e)), log') && NothingTwice(log')
  {
    hide Invariant, Spent, HandleContent, FreshKeys, StreamsKept;
    var o := Step(c, ag, e);
    StepInvariant(c, ag, e, used);
    assert log + [] == log;
    assert used + Elements([]) == used;
    if Delivers(e) {
      AcceptedIsNew(c, ag, e.packet.identifier, e.packet.sealed, used, log);
    } else {
      SpentKept(ag, o.agent, used, used + Elements(NewChannels(c, ag, e)), log);
    }
  }

  /**
   * From its start, under any packets whatever in any order, an agent whose streams' channels are always new accepts
   * no packet twice, so none runs two tasks. If besides no two neighbours' streams share a key, no number of a key is
   * accepted twice.
   */
  lemma AtMostOnce(c: Cipher, identity: Identity, events: seq<Event>)
    requires FreshRun(c, NewAgent(identity), events, {})
    ensures Survives(c, NewAgent(identity), events)
    ensures NothingTwice(AcceptedIn(c, NewAgent(identity), events))
    ensures KeysTellNeighbors(UsedAfter(c, NewAgent(identity), events, {})) ==>
              NumbersOnce(AcceptedIn(c, NewAgent(identity), events))
  {
    NewAgentInvariant(c, identity);
    RunAcceptsOnce(c, NewAgent(identity), events, {}, []);
    hide FreshRun, AcceptedIn, UsedAfter, AgentAfter, Survives, Invariant;
    var log := AcceptedIn(c, NewAgent(identity), events);
    assert [] + log == log;
    if KeysTellNeighbors(UsedAfter(c, NewAgent(identity), events, {})) {
      forall i: nat, j: nat | i < j < |log|
        ensures log[i].0.streamKey != log[j].0.streamKey || log[i].0.packetNumber != log[j].0.packetNumber
      {
        assert log[i] in log && log[j] in log;
        assert ChannelOf(log[i].0).1 == ChannelOf(log[j].0).1 ==> ChannelOf(log[i].0) == ChannelOf(log[j].0);
      }
    }
  }
}
