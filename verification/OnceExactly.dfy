/**
 * The theorem about packets accepted twice, both ways: after any run with new channels, a next event has new channels
 * if and only if no content packets delivered after it make the agent accept a packet twice.
 */
module OnceExactly {
  import opened Basics
  import opened Windows
  import opened ExpectedPackets
  import opened Streams
  import opened Clusters
  import opened Agents
  import opened Exactness
  import opened Runs
  import opened Acceptance
  import opened Reopening
  import opened Repeating

  function Deliveries(e: Event, count: nat): (r: seq<Event>)
    ensures |r| == count
    ensures forall x :: x in r ==> x == e
  {
    if count == 0 then [] else [e] + Deliveries(e, count - 1)
  }

  predicate Occurs(log: Log, p: ExpectedPacket) {
    exists e :: e in log && e.0 == p
  }

  lemma TwiceBefore(first: Log, log: Log)
    requires !NothingTwice(log)
    ensures !NothingTwice(first + log)
  {
    var i: nat, j: nat :| i < j < |log| && log[i].0 == log[j].0;
    assert (first + log)[|first| + i].0 == (first + log)[|first| + j].0;
  }

  lemma TwiceAcross(log: Log, more: Log, p: ExpectedPacket)
    requires Occurs(log, p) && Occurs(more, p)
    ensures !NothingTwice(log + more)
  {
    var e :| e in log && e.0 == p;
    var f :| f in more && f.0 == p;
    var i: nat :| i < |log| && log[i] == e;
    var j: nat :| j < |more| && more[j] == f;
    assert (log + more)[i].0 == (log + more)[|log| + j].0;
  }

  lemma {:induction false} AcceptedInJoin(c: Cipher, ag: AgentState, a: seq<Event>, b: seq<Event>)
    requires Survives(c, ag, a)
    ensures AcceptedIn(c, ag, a + b) == AcceptedIn(c, ag, a) + AcceptedIn(c, AgentAfter(c, ag, a), b)
    decreases |a|
  {
    hide Step;
    if a == [] {
      assert a + b == b;
      assert [] + AcceptedIn(c, ag, b) == AcceptedIn(c, ag, b);
    } else {
      assert (a + b)[1..] == a[1..] + b;
      var o := Step(c, ag, a[0]);
      AcceptedInJoin(c, o.agent, a[1..], b);
      LogSplit(Logged(o.accepted), AcceptedIn(c, o.agent, a[1..]), AcceptedIn(c, AgentAfter(c, ag, a), b));
    }
  }

  /** A packet of the key and number, from one of these neighbours. */
  ghost predicate AcceptedFrom(log: Log, key: Bytes, number: nat, seen: set<Identity>) {
    exists m :: m in seen && Occurs(log, PacketOn((m, key), number))
  }

  /** What a number of deliveries have led to: something twice, or the channel's own number. */
  ghost predicate Reached(c: Cipher, ag: AgentState, ch: Channel, number: nat, times: nat, events: seq<Event>,
                          seen: set<Identity>) {
    var log := AcceptedIn(c, ag, events);
    Survives(c, ag, events) &&
    (AcceptedFrom(log, ch.1, number, seen) || !NothingTwice(log) ||
     (Occurs(log, PacketOn(ch, number)) && (times == 2 ==> Ready(c, AgentAfter(c, ag, events), ch, number, 1) &&
                                                           AgentAfter(c, ag, events).identity == ag.identity)))
  }

  /** Delivered often enough, a ready number is accepted on its own channel, or something is accepted twice. */
  lemma {:induction false} DeliverUntil(c: Cipher, ag: AgentState, ch: Channel, number: nat, times: nat, payload: Bytes,
                                        seen: set<Identity>) returns (count: nat)
    requires Ready(c, ag, ch, number, times) && seen <= ag.neighbors.Keys && ch.0 !in seen
    ensures Reached(c, ag, ch, number, times, Deliveries(Delivery(c, ag.identity, ch, number, payload), count), seen)
    decreases |ag.neighbors.Keys - seen|
  {
    hide Ready, Step, NothingTwice, AcceptedIn, Deliveries, Delivery;
    var e := Delivery(c, ag.identity, ch, number, payload);
    DeliverReady(c, ag, ch, number, times, payload);
    var o := Step(c, ag, e);
    var m := o.accepted.value.0.streamWith;
    var first := Logged(o.accepted);
    assert first[0] in first;
    if m == ch.0 || m in seen {
      count := 1;
      OneDelivery(c, ag, e);
      assert Occurs(first, PacketOn((m, ch.1), number));
    } else {
      assert ag.neighbors.Keys - (seen + {m}) < ag.neighbors.Keys - seen by {
        assert m in ag.neighbors.Keys - seen;
      }
      SmallerSet(ag.neighbors.Keys - (seen + {m}), ag.neighbors.Keys - seen);
      var rest := DeliverUntil(c, o.agent, ch, number, times, payload, seen + {m});
      count := rest + 1;
      MoreDeliveries(c, ag, e, rest);
      var log := AcceptedIn(c, o.agent, Deliveries(e, rest));
      if AcceptedFrom(log, ch.1, number, seen + {m}) {
        var m' :| m' in seen + {m} && Occurs(log, PacketOn((m', ch.1), number));
        if m' == m {
          TwiceAcross(first, log, PacketOn((m, ch.1), number));
        } else {
          OccursAfter(first, log, PacketOn((m', ch.1), number));
        }
      } else if !NothingTwice(log) {
        TwiceBefore(first, log);
      } else {
        OccursAfter(first, log, PacketOn(ch, number));
      }
    }
  }

  lemma OneDelivery(c: Cipher, ag: AgentState, e: Event)
    requires Step(c, ag, e).Outcome? && Step(c, ag, e).error != Some(InternalError)
    ensures AcceptedIn(c, ag, Deliveries(e, 1)) == Logged(Step(c, ag, e).accepted)
    ensures AgentAfter(c, ag, Deliveries(e, 1)) == Step(c, ag, e).agent && Survives(c, ag, Deliveries(e, 1))
  {
    MoreDeliveries(c, ag, e, 0);
  }

  lemma MoreDeliveries(c: Cipher, ag: AgentState, e: Event, count: nat)
    requires Step(c, ag, e).Outcome? && Step(c, ag, e).error != Some(InternalError)
    ensures var o := Step(c, ag, e);
            AcceptedIn(c, ag, Deliveries(e, count + 1)) ==
              Logged(o.accepted) + AcceptedIn(c, o.agent, Deliveries(e, count)) &&
            AgentAfter(c, ag, Deliveries(e, count + 1)) == AgentAfter(c, o.agent, Deliveries(e, count)) &&
            (Survives(c, ag, Deliveries(e, count + 1)) <==> Survives(c, o.agent, Deliveries(e, count)))
  {
    hide Step;
    assert Deliveries(e, count + 1)[1..] == Deliveries(e, count);
  }

  lemma OccursAfter(first: Log, log: Log, p: ExpectedPacket)
    requires Occurs(log, p)
    ensures Occurs(first + log, p)
  {
    var e :| e in log && e.0 == p;
    assert e in first + log;
  }

  lemma SmallerSet<T>(a: set<T>, b: set<T>)
    requires a < b
    ensures |a| < |b|
  {
    var x :| x in b && x !in a;
    assert a <= b - {x};
    SubsetSize(a, b - {x});
  }

  lemma {:induction false} SubsetSize<T>(a: set<T>, b: set<T>)
    requires a <= b
    ensures |a| <= |b|
    decreases a
  {
    if a != {} {
      var x :| x in a;
      SubsetSize(a - {x}, b - {x});
    }
  }

  /** Key material pushed to a neighbour lists every number of the first window of its channel once more. */
  lemma PushedReady(c: Cipher, ag: AgentState, n: Identity, material: Bytes, source: Address, seed: Bytes,
                    used: set<Channel>, ch: Channel)
    requires Invariant(c, ag, used) && n in ag.neighbors
    requires ch == (n, c.exchange(material, ag.neighbors[n].streams.ownCurrent.value))
    ensures var o := Step(c, ag, Receive(Initiation(n, ag.identity, material, true), source, seed));
            o.Outcome? && o.accepted.None? && o.agent.identity == ag.identity && Newest(o.agent, ch) &&
              EntriesKnown(o.agent) &&
            (forall j: nat {:trigger PacketOn(ch, j)} :: j < WINDOW ==>
              Count(o.agent.upcoming, PacketOn(ch, j), IdentifierOn(c, ag.identity, ch, j)) ==
              Count(ag.upcoming, PacketOn(ch, j), IdentifierOn(c, ag.identity, ch, j)) + 1) &&
            (Untouched(c, ag, ch) ==> Unheard(o.agent.neighbors[n].streams.streams, ch.1))
  {
    hide Count, ExpectFrom, StreamsExact, LiveKeysDistinct, IdentifierOn;
    var cl := ag.neighbors[n].streams;
    var o := Step(c, ag, Receive(Initiation(n, ag.identity, material, true), source, seed));
    var st := NewStream(c, cl.ownCurrent.value, material, cl.neighborIsLater);
    assert o.agent.neighbors[n].streams.streams == [Some(st), cl.streams[CC], None, cl.streams[PC]];
    assert o.agent.upcoming == ExpectFrom(c, st, n, ag.upcoming, 0, WINDOW);
    forall p: ExpectedPacket, id: nat
      ensures Count(o.agent.upcoming, p, id) ==
              Count(ag.upcoming, p, id) + if InRange(c, st, n, p, id, 0, WINDOW) then 1 else 0
    {
      ExpectFromCount(c, st, n, ag.upcoming, 0, WINDOW, p, id);
    }
    forall j: nat | j < WINDOW
      ensures InRange(c, st, n, PacketOn(ch, j), IdentifierOn(c, ag.identity, ch, j), 0, WINDOW)
    {
      StreamIdentifier(c, ag.identity, st, ch, j);
    }
    if Untouched(c, ag, ch) && cl.streams[CC].Some? && cl.streams[CC].value.key == ch.1 {
      assert Live(ag, n, CC);
    }
  }

  lemma StreamIdentifier(c: Cipher, self: Identity, st: StreamState, ch: Channel, number: nat)
    requires st.key == ch.1 && st.neighborIsLater == (ch.0 > self)
    ensures Identifier(c, st, Incoming, number) == IdentifierOn(c, self, ch, number)
  {
  }

  /** When key material makes a channel that was there before, some content packets are accepted twice. */
  lemma ReusedChannelRepeats(c: Cipher, ag: AgentState, n: Identity, material: Bytes, source: Address, seed: Bytes,
                             used: set<Channel>, log: Log) returns (more: seq<Event>)
    requires Invariant(c, ag, used) && Owed(c, ag, used, log) && n in ag.neighbors
    requires (n, c.exchange(material, ag.neighbors[n].streams.ownCurrent.value)) in used
    ensures forall e :: e in more ==> Delivers(e)
    ensures !NothingTwice(log +
              AcceptedIn(c, ag, [Receive(Initiation(n, ag.identity, material, true), source, seed)] + more))
  {
    hide Step, NothingTwice, Unheard;
    var ch := (n, c.exchange(material, ag.neighbors[n].streams.ownCurrent.value));
    hide Invariant;
    var e := Receive(Initiation(n, ag.identity, material, true), source, seed);
    PushedReady(c, ag, n, material, source, seed, used, ch);
    var ag' := Step(c, ag, e).agent;
    if HeardEarly(log, ch) {
      var heard :| heard in log && ChannelOf(heard.0) == ch && heard.0.packetNumber < WINDOW;
      var number := heard.0.packetNumber;
      assert heard.0 == PacketOn(ch, number);
      var count := DeliverUntil(c, ag', ch, number, 1, [], {});
      more := Deliveries(Delivery(c, ag'.identity, ch, number, []), count);
      assert Occurs(log, PacketOn(ch, number));
      if NothingTwice(AcceptedIn(c, ag', more)) {
        TwiceAcross(log, AcceptedIn(c, ag', more), PacketOn(ch, number));
      } else {
        TwiceBefore(log, AcceptedIn(c, ag', more));
      }
    } else {
      more := UntouchedRepeats(c, ag', ch);
      TwiceBefore(log, AcceptedIn(c, ag', more));
    }
    assert ([e] + more)[1..] == more;
    assert [] + AcceptedIn(c, ag', more) == AcceptedIn(c, ag', more);
  }

  lemma UntouchedRepeats(c: Cipher, ag: AgentState, ch: Channel) returns (more: seq<Event>)
    requires Ready(c, ag, ch, 0, 2)
    ensures forall e :: e in more ==> Delivers(e)
    ensures !NothingTwice(AcceptedIn(c, ag, more))
  {
    hide Ready, Step, NothingTwice;
    var e := Delivery(c, ag.identity, ch, 0, []);
    var count := DeliverUntil(c, ag, ch, 0, 2, [], {});
    more := Deliveries(e, count);
    if NothingTwice(AcceptedIn(c, ag, more)) {
      var ag' := AgentAfter(c, ag, more);
      var count' := DeliverUntil(c, ag', ch, 0, 1, [], {});
      var again := Deliveries(e, count');
      AcceptedInJoin(c, ag, more, again);
      if NothingTwice(AcceptedIn(c, ag', again)) {
        TwiceAcross(AcceptedIn(c, ag, more), AcceptedIn(c, ag', again), PacketOn(ch, 0));
      } else {
        TwiceBefore(AcceptedIn(c, ag, more), AcceptedIn(c, ag', again));
      }
      more := more + again;
    }
  }

  /** An event that pushes key material to a neighbour, and the channel it makes. */
  predicate Reuses(c: Cipher, ag: AgentState, e: Event, used: set<Channel>) {
    e.Receive? && e.packet.Initiation? && e.packet.recipient == ag.identity && e.packet.signed &&
    e.packet.sender in ag.neighbors && ag.neighbors[e.packet.sender].streams.ownCurrent.Some? &&
    (e.packet.sender, c.exchange(e.packet.material, ag.neighbors[e.packet.sender].streams.ownCurrent.value)) in used
  }

  /** What an agent can check before the push: only key material that gives a neighbour's earlier key is not new. */
  lemma FreshMeans(c: Cipher, ag: AgentState, e: Event, used: set<Channel>)
    requires Invariant(c, ag, used)
    ensures FreshKeys(c, ag, e, used) <==> !Reuses(c, ag, e, used)
  {
    hide Grid, StreamsExact, LiveKeysDistinct, Backed;
    var channels := NewChannels(c, ag, e);
    if e.Receive? && e.packet.Initiation? && e.packet.sender in ag.neighbors {
      MaterialChannelsOfOne(c, e.packet.sender, ag.neighbors[e.packet.sender].streams,
                            ag.neighbors[e.packet.sender].streams.ownCurrent.value, e.packet.material);
    }
    assert channels != [] ==> channels[0] in channels;
  }

  ghost predicate NeverTwiceAfter(c: Cipher, ag: AgentState, e: Event, log: Log) {
    forall more {:trigger AcceptedIn(c, ag, [e] + more)} :: (forall x :: x in more ==> Delivers(x)) ==>
      NothingTwice(log + AcceptedIn(c, ag, [e] + more))
  }

  lemma {:induction false} ContentRunFresh(c: Cipher, ag: AgentState, events: seq<Event>, used: set<Channel>)
    requires forall x :: x in events ==> Delivers(x)
    ensures FreshRun(c, ag, events, used)
    decreases |events|
  {
    hide Step;
    if events != [] {
      assert events[0] in events;
      assert NewChannels(c, ag, events[0]) == [];
      if Step(c, ag, events[0]).Outcome? {
        ContentRunFresh(c, Step(c, ag, events[0]).agent, events[1..], used + Elements(NewChannels(c, ag, events[0])));
      }
    }
  }

  /**
   * After any run with new channels, whatever event comes next: no content packets after it are accepted twice if and
   * only if it is not key material that gives a neighbour a key it had before.
   */
  lemma OnceExactlyWhenFresh(c: Cipher, identity: Identity, events: seq<Event>, e: Event)
    requires FreshRun(c, NewAgent(identity), events, {})
    ensures var ag := AgentAfter(c, NewAgent(identity), events);
            var used := UsedAfter(c, NewAgent(identity), events, {});
            var log := AcceptedIn(c, NewAgent(identity), events);
            NeverTwiceAfter(c, ag, e, log) <==> !Reuses(c, ag, e, used)
  {
    var start := NewAgent(identity);
    NewAgentInvariant(c, identity);
    RunAcceptsOnce(c, start, events, {}, []);
    RunOwed(c, start, events, {}, []);
    hide FreshRun, AcceptedIn, UsedAfter, AgentAfter, Survives, Invariant, Owed, Spent, NothingTwice, Step, FreshKeys;
    var ag := AgentAfter(c, start, events);
    var used := UsedAfter(c, start, events, {});
    var log := AcceptedIn(c, start, events);
    assert [] + log == log;
    FreshMeans(c, ag, e, used);
    if Reuses(c, ag, e, used) {
      var more := ReusedChannelRepeats(c, ag, e.packet.sender, e.packet.material, e.source, e.seed, used, log);
    } else {
      forall more: seq<Event> | forall x :: x in more ==> Delivers(x)
        ensures NothingTwice(log + AcceptedIn(c, ag, [e] + more))
      {
        FreshThenContent(c, ag, e, more, used);
        RunAcceptsOnce(c, ag, [e] + more, used, log);
      }
    }
  }

  lemma FreshThenContent(c: Cipher, ag: AgentState, e: Event, more: seq<Event>, used: set<Channel>)
    requires FreshKeys(c, ag, e, used) && forall x :: x in more ==> Delivers(x)
    ensures FreshRun(c, ag, [e] + more, used)
  {
    hide Step, FreshKeys, NewChannels;
    assert ([e] + more)[1..] == more;
    if Step(c, ag, e).Outcome? {
      ContentRunFresh(c, Step(c, ag, e).agent, more, used + Elements(NewChannels(c, ag, e)));
    }
  }
}
