/**
 * Exactly when packets are accepted at most once: when no neighbour's stream is given a key that a stream with it had
 * before. Where one is, some content packets make the agent accept a packet twice. Either one of the key's first 64
 * numbers had come in, and is expected again, or none had, and all of them are now expected twice.
 */
module Reopening {
  import opened Basics
  import opened Windows
  import opened ExpectedPackets
  import opened Streams
  import opened Clusters
  import opened Agents
  import opened Exactness
  import opened Runs
  import opened Acceptance

  /** The identifier and nonce of a number coming in on a channel. */
  function IdentifierOn(c: Cipher, self: Identity, ch: Channel, number: nat): nat {
    c.identifier(ch.1, Sequence(Incoming, ch.0 > self), number)
  }

  function NonceOn(self: Identity, ch: Channel, number: nat): nat {
    2 * number + if ch.0 > self then 0 else 1
  }

  function PacketOn(ch: Channel, number: nat): ExpectedPacket {
    ExpectedPacket(ch.0, ch.1, number)
  }

  /** Some number of the first window came in on a channel. */
  ghost predicate HeardEarly(log: Log, ch: Channel) {
    exists e :: e in log && ChannelOf(e.0) == ch && e.0.packetNumber < WINDOW
  }

  /** The first window of a channel is still listed, and its stream, if it still lives, has not moved. */
  ghost predicate Untouched(c: Cipher, ag: AgentState, ch: Channel) {
    (forall j: nat {:trigger PacketOn(ch, j)} :: j < WINDOW ==>
      Count(ag.upcoming, PacketOn(ch, j), IdentifierOn(c, ag.identity, ch, j)) >= 1) &&
    forall i: nat {:trigger Live(ag, ch.0, i)} :: Live(ag, ch.0, i) && LiveStream(ag, ch.0, i).key == ch.1 ==>
      LiveStream(ag, ch.0, i).window == FIRST_WINDOW
  }

  /** What every channel ever used still owes: it was heard on early, or is untouched. */
  ghost predicate Owed(c: Cipher, ag: AgentState, used: set<Channel>, log: Log) {
    forall ch {:trigger ch in used} :: ch in used ==> HeardEarly(log, ch) || Untouched(c, ag, ch)
  }

  lemma HeardStays(log: Log, more: Log, ch: Channel)
    requires HeardEarly(log, ch)
    ensures HeardEarly(log + more, ch)
  {
    var e :| e in log && ChannelOf(e.0) == ch && e.0.packetNumber < WINDOW;
    assert e in log + more;
  }

  /** Streams that go on leave a channel untouched, if the table keeps its entries. */
  lemma UntouchedStays(c: Cipher, ag: AgentState, ag': AgentState, ch: Channel, used: set<Channel>)
    requires Untouched(c, ag, ch) && ch in used && ag'.identity == ag.identity
    requires StreamsKept(ag, ag', used) && SameFor(ag.upcoming, ag'.upcoming, used)
    ensures Untouched(c, ag', ch)
  {
    hide Count, IdentifierOn;
    forall j: nat | j < WINDOW
      ensures Count(ag'.upcoming, PacketOn(ch, j), IdentifierOn(c, ag'.identity, ch, j)) >= 1
    {
      assert ChannelOf(PacketOn(ch, j)) == ch;
    }
    forall i: nat | Live(ag', ch.0, i) && LiveStream(ag', ch.0, i).key == ch.1
      ensures LiveStream(ag', ch.0, i).window == FIRST_WINDOW
    {
      assert (ch.0, LiveStream(ag', ch.0, i).key) == ch;
    }
  }

  /** The streams a step creates are the newest of their clusters, and nothing has come in on them. */
  lemma NewChannelLives(c: Cipher, ag: AgentState, e: Event, used: set<Channel>, ch: Channel)
    requires Invariant(c, ag, used) && ch in NewChannels(c, ag, e)
    ensures var o := Step(c, ag, e);
            o.Outcome? && o.agent.identity == ag.identity && Live(o.agent, ch.0, CC) &&
            LiveStream(o.agent, ch.0, CC).key == ch.1 && LiveStream(o.agent, ch.0, CC).window == FIRST_WINDOW
  {
    hide ExpectFirst, Grid, StreamsExact, LiveKeysDistinct, Backed;
  }

  /** A live stream nothing has come in on leaves its channel untouched. */
  lemma FirstUntouched(c: Cipher, ag: AgentState, used: set<Channel>, n: Identity, k: nat)
    requires Invariant(c, ag, used) && Live(ag, n, k) && LiveStream(ag, n, k).window == FIRST_WINDOW
    ensures Untouched(c, ag, (n, LiveStream(ag, n, k).key))
  {
    hide Grid, Backed, Count, Cached;
    var st := LiveStream(ag, n, k);
    var ch := (n, st.key);
    LiveExact(c, ag, n, k, used);
    FirstAhead();
    forall j: nat | j < WINDOW
      ensures Count(ag.upcoming, PacketOn(ch, j), IdentifierOn(c, ag.identity, ch, j)) >= 1
    {
      assert Awaits(FIRST_WINDOW, j);
      assert Awaited(c, st, n, PacketOn(ch, j), IdentifierOn(c, ag.identity, ch, j));
    }
  }

  /** A step with new channels keeps what is owed. */
  lemma StepOwed(c: Cipher, ag: AgentState, e: Event, used: set<Channel>, log: Log)
    requires Invariant(c, ag, used) && FreshKeys(c, ag, e, used) && Owed(c, ag, used, log)
    ensures var o := Step(c, ag, e);
            o.Outcome? && Owed(c, o.agent, used + Elements(NewChannels(c, ag, e)), log + Logged(o.accepted))
  {
    hide Invariant, Step, NewChannels, Untouched, HeardEarly, StreamsKept, SameFor, HandleContent;
    StepInvariant(c, ag, e, used);
    var o := Step(c, ag, e);
    StepIdentity(c, ag, e);
    var used' := used + Elements(NewChannels(c, ag, e));
    forall ch | ch in used'
      ensures HeardEarly(log + Logged(o.accepted), ch) || Untouched(c, o.agent, ch)
    {
      if ch in NewChannels(c, ag, e) {
        NewChannelLives(c, ag, e, used, ch);
        FirstUntouched(c, o.agent, used', ch.0, CC);
      } else if HeardEarly(log, ch) {
        HeardStays(log, Logged(o.accepted), ch);
      } else if Delivers(e) {
        DeliveryOwed(c, ag, e.packet.identifier, e.packet.sealed, used, log, ch);
      } else {
        UntouchedStays(c, ag, o.agent, ch, used);
      }
    }
  }

  lemma StepIdentity(c: Cipher, ag: AgentState, e: Event)
    ensures var o := Step(c, ag, e); o.Outcome? ==> o.agent.identity == ag.identity
  {
  }

  /** A packet accepted on an untouched channel is one of its first window. */
  lemma DeliveryOwed(c: Cipher, ag: AgentState, id: nat, sealed: Sealed, used: set<Channel>, log: Log, ch: Channel)
    requires Invariant(c, ag, used) && ch in used && Untouched(c, ag, ch)
    ensures var o := HandleContent(c, ag, id, sealed);
            o.Outcome? && (HeardEarly(log + Logged(o.accepted), ch) || Untouched(c, o.agent, ch))
  {
    hide Invariant, HandleContent, Count, IdentifierOn, Received;
    var k := HandleContentStep(c, ag, id, sealed, used);
    var o := HandleContent(c, ag, id, sealed);
    if o.accepted.Some? {
      var p := o.accepted.value.0;
      if ChannelOf(p) == ch {
        assert LiveStream(ag, p.streamWith, k).window == FIRST_WINDOW;
        assert p.packetNumber < WINDOW;
        assert o.accepted.value in log + Logged(o.accepted);
      } else {
        forall j: nat | j < WINDOW
          ensures Count(o.agent.upcoming, PacketOn(ch, j), IdentifierOn(c, o.agent.identity, ch, j)) >= 1
        {
          assert ChannelOf(PacketOn(ch, j)) == ch;
        }
        forall i: nat | Live(o.agent, ch.0, i) && LiveStream(o.agent, ch.0, i).key == ch.1
          ensures LiveStream(o.agent, ch.0, i).window == FIRST_WINDOW
        {
          assert Live(ag, ch.0, i);
        }
      }
    }
  }

  /** So what is owed is owed after every run with new channels. */
  lemma {:induction false} RunOwed(c: Cipher, ag: AgentState, events: seq<Event>, used: set<Channel>, log: Log)
    requires Invariant(c, ag, used) && Owed(c, ag, used, log) && FreshRun(c, ag, events, used)
    ensures Owed(c, AgentAfter(c, ag, events), UsedAfter(c, ag, events, used), log + AcceptedIn(c, ag, events))
    decreases |events|
  {
    if events == [] {
      assert log + [] == log;
    } else {
      hide Invariant, Owed, Step, FreshKeys, NewChannels, StreamsKept, SameFor;
      var e := events[0];
      StepInvariant(c, ag, e, used);
      StepOwed(c, ag, e, used, log);
      var o := Step(c, ag, e);
      RunOwed(c, o.agent, events[1..], used + Elements(NewChannels(c, ag, e)), log + Logged(o.accepted));
      LogSplit(log, Logged(o.accepted), AcceptedIn(c, o.agent, events[1..]));
    }
  }
}
