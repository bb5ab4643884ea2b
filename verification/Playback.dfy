/**
  From a session's datagrams to the output (bridge/agent/cardbridge/server.py): what a session that holds or
  takes the microphone sends is what the output callback reads.
 */
module Playbacks {
  import opened Common
  import opened Devices
  import J = JitterBuffers
  import JitterRuns
  import opened JitterLaws
  import opened AudioLease
  import opened Bridges
  import opened LeaseLaws

  /** The datagrams of one session, one after the other. */
  function Sent(c: Conn, ps: seq<J.Packet>, nowMs: int): seq<Event> {
    seq(|ps|, i requires 0 <= i < |ps| => Datagram(c, ps[i].sequence, ps[i].payload, nowMs, true))
  }

  /** The bridge after some events. */
  function After(d: J.Depths, m: Moment, events: seq<Event>): (n: Moment)
    requires Bridges.Inv(d, m)
    ensures Bridges.Inv(d, n)
  {
    if events == [] then m
    else
      var before := After(d, m, events[..|events| - 1]);
      NextKeepsInv(d, before, events[|events| - 1]);
      Next(d, before, events[|events| - 1])
  }

  /** The session owns the lease, the output reads its buffer, and that holds what was fed to it. */
  ghost predicate OwnsFed(d: J.Depths, r: Registry, m: Moment, c: Conn, start: J.Buffer, ps: seq<J.Packet>) {
    && m.bridge.registry == r && IsRegistered(r, c)
    && m.bridge.lease.owner == Some(r.deviceOf[c]) && m.bridge.lease.reading == Some(c)
    && BufferOf(m.bridge.lease, c) == JitterRuns.FeedAll(d, start, ps)
  }

  lemma DatagramKeepsRegistry(d: J.Depths, m: Moment, ev: Event)
    requires Bridges.Inv(d, m) && ev.Datagram?
    ensures Next(d, m, ev).bridge.registry == m.bridge.registry
  {
  }

  lemma OwnerIsRead(d: J.Depths, m: Moment, c: Conn)
    requires Bridges.Inv(d, m) && IsRegistered(m.bridge.registry, c)
    requires m.bridge.lease.owner == Some(m.bridge.registry.deviceOf[c])
    ensures m.bridge.lease.reading == Some(c)
  {
    OwnerIsCurrent(m.bridge.registry, m.bridge.lease);
  }

  lemma FeedsOne(d: J.Depths, r: Registry, m: Moment, c: Conn, start: J.Buffer, ps: seq<J.Packet>, p: J.Packet,
                 nowMs: int)
    requires Bridges.Inv(d, m) && OwnsFed(d, r, m, c, start, ps)
    ensures OwnsFed(d, r, Next(d, m, Datagram(c, p.sequence, p.payload, nowMs, true)), c, start, ps + [p])
  {
    var ev := Datagram(c, p.sequence, p.payload, nowMs, true);
    var n := Next(d, m, ev);
    DatagramKeepsRegistry(d, m, ev);
    OwnerLosesIff(d, m, ev);
    DatagramLaw(d, m, c, p.sequence, p.payload, nowMs, true);
    NextKeepsInv(d, m, ev);
    OwnerIsRead(d, n, c);
    assert (ps + [p])[..|ps|] == ps;
  }

  lemma FeedsFirst(d: J.Depths, m: Moment, c: Conn, p: J.Packet, nowMs: int)
    requires Bridges.Inv(d, m) && IsRegistered(m.bridge.registry, c) && m.bridge.lease.owner.None?
    ensures OwnsFed(d, m.bridge.registry, Next(d, m, Datagram(c, p.sequence, p.payload, nowMs, true)), c,
                    J.Cleared(BufferOf(m.bridge.lease, c)), [p])
  {
    var ev := Datagram(c, p.sequence, p.payload, nowMs, true);
    DatagramKeepsRegistry(d, m, ev);
    FreeLeaseLaw(d, m, ev);
    DatagramLaw(d, m, c, p.sequence, p.payload, nowMs, true);
    var start := J.Cleared(BufferOf(m.bridge.lease, c));
    assert JitterRuns.FeedAll(d, start, [p]) == J.AfterFeed(d, start, p.sequence, p.payload) by {
      assert [p][..0] == [];
    }
  }

  /** A session that finds the lease free takes it with its first datagram, and its buffer holds what it sends. */
  lemma {:induction false} SendingFeeds(d: J.Depths, m: Moment, c: Conn, ps: seq<J.Packet>, nowMs: int)
    requires Bridges.Inv(d, m) && IsRegistered(m.bridge.registry, c) && m.bridge.lease.owner.None? && ps != []
    ensures OwnsFed(d, m.bridge.registry, After(d, m, Sent(c, ps, nowMs)), c,
                    J.Cleared(BufferOf(m.bridge.lease, c)), ps)
    decreases |ps|
  {
    var front, p := ps[..|ps| - 1], ps[|ps| - 1];
    assert Sent(c, ps, nowMs)[..|ps| - 1] == Sent(c, front, nowMs);
    assert front + [p] == ps;
    if front == [] {
      assert ps == [p];
      FeedsFirst(d, m, c, p, nowMs);
    } else {
      SendingFeeds(d, m, c, front, nowMs);
      FeedsOne(d, m.bridge.registry, After(d, m, Sent(c, front, nowMs)), c,
               J.Cleared(BufferOf(m.bridge.lease, c)), front, p, nowMs);
    }
  }

  /** A callback reads the owner's buffer. */
  lemma CallbackReadsOwner(d: J.Depths, m: Moment, c: Conn, count: nat, used: nat)
    requires Bridges.Inv(d, m) && IsRegistered(m.bridge.registry, c)
    requires m.bridge.lease.owner == Some(m.bridge.registry.deviceOf[c])
    ensures J.Inv(d, Active(m.bridge.lease)) && J.Inv(d, BufferOf(m.bridge.lease, c))
    ensures Output(d, m.bridge.lease, count, used).1 == J.Read(d, BufferOf(m.bridge.lease, c), count).1
    ensures BufferOf(Next(d, m, Callback(count, used)).bridge.lease, c)
            == J.Read(d, BufferOf(m.bridge.lease, c), count).0
  {
    OwnerIsRead(d, m, c);
    assert J.Inv(d, Active(m.bridge.lease));
  }

  /**
    What is sent is heard: once a session that finds the microphone free has sent `target` or more consecutive
    packets, in whatever order they arrive, the callback reads the payloads of the last `max` of them in order.
   */
  lemma SentIsHeard(d: J.Depths, m: Moment, c: Conn, ps: seq<J.Packet>, arrived: seq<J.Packet>, q: nat, n: nat,
                    nowMs: int, used: nat)
    requires Bridges.Inv(d, m) && IsRegistered(m.bridge.registry, c) && m.bridge.lease.owner.None?
    requires Consecutive(ps, q) && multiset(arrived) == multiset(ps) && |ps| >= d.target
    requires 0 < n <= |ps| && n <= d.max
    ensures var l := After(d, m, Sent(c, arrived, nowMs)).bridge.lease;
            && J.Inv(d, Active(l))
            && Output(d, l, J.SAMPLES_PER_FRAME * n, used).1 == Payloads(J.KeepLast(ps, d.max)[..n])
  {
    var start := J.Cleared(BufferOf(m.bridge.lease, c));
    SameLength(arrived, ps);
    SendingFeeds(d, m, c, arrived, nowMs);
    CallbackReadsOwner(d, After(d, m, Sent(c, arrived, nowMs)), c, J.SAMPLES_PER_FRAME * n, used);
    ClearedIsEmpty(d, m, c);
    FedPlaysBack(d, start, ps, arrived, q, n);
  }

  lemma ClearedIsEmpty(d: J.Depths, m: Moment, c: Conn)
    requires Bridges.Inv(d, m)
    ensures var start := J.Cleared(BufferOf(m.bridge.lease, c));
            J.Inv(d, start) && !start.started && start.packets == [] && start.samples == []
  {
  }

  lemma FedPlaysBack(d: J.Depths, start: J.Buffer, ps: seq<J.Packet>, arrived: seq<J.Packet>, q: nat, n: nat)
    requires J.Inv(d, start) && !start.started && start.packets == [] && start.samples == []
    requires Consecutive(ps, q) && multiset(arrived) == multiset(ps) && |ps| >= d.target
    requires 0 < n <= |ps| && n <= d.max
    ensures !JitterRuns.FeedAll(d, start, arrived).started
    ensures J.Read(d, JitterRuns.FeedAll(d, start, arrived), J.SAMPLES_PER_FRAME * n).1
            == Payloads(J.KeepLast(ps, d.max)[..n])
  {
    ConsecutivePlaysBack(d, start, ps, arrived, q, n);
  }

  lemma SameLength(a: seq<J.Packet>, b: seq<J.Packet>)
    requires multiset(a) == multiset(b)
    ensures |a| == |b|
  {
    assert |a| == |multiset(a)| == |multiset(b)| == |b|;
  }
}
