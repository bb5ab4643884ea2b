/**
  Who gets the microphone lease and who loses it (bridge/agent/cardbridge/server.py), told from the event,
  the registry and the lease before it.
 */
module LeaseLaws {
  import opened Common
  import opened Devices
  import K = KeyArbitration
  import J = JitterBuffers
  import opened AudioLease
  import opened Bridges

  /** When a session last sent audio, as the lease has it; 0 if it never did. */
  function LastAudio(l: Lease, c: Conn): int {
    if c in l.lastAudioMs then l.lastAudioMs[c] else 0
  }

  // ---- Losing the lease ------------------------------------------------------------------

  /**
    The events that take an owned lease from its owner: its own session gives it up; it has been silent
    for more than three seconds when that is checked; a session of its id is torn down, replaced or
    unpaired; the service stops.
   */
  predicate TakesLease(b: Bridge, ev: Event)
    requires b.lease.owner.Some? && b.lease.owner.value in b.registry.byId
  {
    var id := b.lease.owner.value;
    var owner := b.registry.byId[id];
    match ev
    case GivenUp(c, capable) => c == owner && capable
    case Checked(nowMs) => LastAudio(b.lease, owner) > 0 && nowMs - LastAudio(b.lease, owner) > 3000
    case Closed(c, _) => c in b.registry.deviceOf && b.registry.deviceOf[c] == id
    case Connected(c, new_, _) => c !in b.registry.deviceOf && new_ == id
    case Unpaired(gone, wasPaired, _) => wasPaired && gone == id
    case Stopped(order, _) => Enumerates(b.registry, order)
    case _ => false
  }

  lemma OwnerIsCurrent(r: Registry, l: Lease)
    requires Devices.Inv(r) && OwnerOk(r, l) && l.owner.Some?
    ensures var c := r.byId[l.owner.value];
            IsCurrent(r, c) && r.deviceOf[c] == l.owner.value && OwnerSession(r, l) == Some(c) && l.reading == Some(c)
  {
    CurrentIsRegistered(r, r.byId[l.owner.value]);
  }

  lemma ClaimKeepsOwner(r: Registry, l: Lease, c: Conn)
    requires Devices.Inv(r) && OwnerOk(r, l) && IsRegistered(r, c) && l.owner.Some? && l.owner != Some(r.deviceOf[c])
    ensures Claim(r, l, c) == l
  {
    OwnerIsCurrent(r, l);
  }

  lemma ClaimedOwner(d: J.Depths, m: Moment, c: Conn, capable: bool)
    requires Bridges.Inv(d, m) && J.Inv(d, Active(m.bridge.lease)) && m.bridge.lease.owner.Some?
    ensures LeaseAfter(d, m.bridge.registry, m.bridge.lease, Claimed(c, capable)) == m.bridge.lease
  {
    var r, l := m.bridge.registry, m.bridge.lease;
    if IsCurrent(r, c) {
      if l.owner == Some(r.deviceOf[c]) {
        SetLeaseOk(d, r, l, c, m.epoch);
      } else {
        ClaimKeepsOwner(r, l, c);
      }
    }
  }

  lemma ReleasedOwner(r: Registry, l: Lease, c: Conn)
    requires Devices.Inv(r) && OwnerOk(r, l) && l.owner.Some?
    ensures ReleaseLease(r, l, Some(c)).owner == if c == r.byId[l.owner.value] then None else l.owner
  {
    OwnerIsCurrent(r, l);
  }

  lemma GivenUpOwner(d: J.Depths, m: Moment, c: Conn, capable: bool)
    requires Bridges.Inv(d, m) && J.Inv(d, Active(m.bridge.lease)) && m.bridge.lease.owner.Some?
    ensures LeaseAfter(d, m.bridge.registry, m.bridge.lease, GivenUp(c, capable)).owner
            == if TakesLease(m.bridge, GivenUp(c, capable)) then None else m.bridge.lease.owner
  {
    OwnerIsCurrent(m.bridge.registry, m.bridge.lease);
    GiveUpIsRelease(m.bridge.registry, m.bridge.lease, c);
    ReleasedOwner(m.bridge.registry, m.bridge.lease, c);
  }

  lemma CheckedOwner(r: Registry, l: Lease, nowMs: int)
    requires Devices.Inv(r) && OwnerOk(r, l) && l.owner.Some?
    ensures var last := LastAudio(l, r.byId[l.owner.value]);
            ExpireLease(r, l, nowMs).owner == if last > 0 && nowMs - last > 3000 then None else l.owner
  {
    OwnerIsCurrent(r, l);
    ReleasedOwner(r, l, r.byId[l.owner.value]);
  }

  lemma DatagramOwner(d: J.Depths, r: Registry, l: Lease, ev: Event)
    requires J.Inv(d, Active(l)) && l.owner.Some? && ev.Datagram?
    ensures LeaseAfter(d, r, l, ev).owner == l.owner
  {
  }

  lemma AudioOwnerLaw(d: J.Depths, m: Moment, ev: Event)
    requires Bridges.Inv(d, m) && J.Inv(d, Active(m.bridge.lease)) && IsAudioEvent(ev) && m.bridge.lease.owner.Some?
    ensures LeaseAfter(d, m.bridge.registry, m.bridge.lease, ev).owner
            == if TakesLease(m.bridge, ev) then None else m.bridge.lease.owner
  {
    match ev
    case Claimed(c, capable) => ClaimedOwner(d, m, c, capable);
    case GivenUp(c, capable) => GivenUpOwner(d, m, c, capable);
    case Checked(nowMs) => CheckedOwner(m.bridge.registry, m.bridge.lease, nowMs);
    case Datagram(_, _, _, _, _) => DatagramOwner(d, m.bridge.registry, m.bridge.lease, ev);
    case Callback(count, used) => OutputOwner(d, m.bridge.lease, count, used);
  }

  lemma ConnectOwnerLaw(d: J.Depths, r: Registry, l: Lease, c: Conn, id: DeviceId, e: Epoch)
    requires AudioLease.Inv(d, r, l, e) && c !in r.deviceOf
    ensures ConnectLease(r, l, c, id).owner == if l.owner == Some(id) then None else l.owner
  {
    if l.owner == Some(id) {
      ReplacingOwnerOk(d, r, l, c, id, e);
    } else {
      NewSessionOk(d, r, l, c, id, e);
      if Get(r, id).Some? {
        CleanupOk(d, AfterRegister(r, c, id), Entered(l, c), r.byId[id], e);
      }
    }
  }

  /** An owned lease goes free exactly in those events, and never passes to another session at once. */
  lemma OwnerLosesIff(d: J.Depths, m: Moment, ev: Event)
    requires Bridges.Inv(d, m) && m.bridge.lease.owner.Some?
    ensures Next(d, m, ev).bridge.lease.owner == if TakesLease(m.bridge, ev) then None else m.bridge.lease.owner
  {
    assert J.Inv(d, Active(m.bridge.lease));
    var r, l := m.bridge.registry, m.bridge.lease;
    if IsAudioEvent(ev) {
      AudioOwnerLaw(d, m, ev);
    } else {
      match ev
      case Connected(c, id, _) =>
        if c !in r.deviceOf {
          ConnectOwnerLaw(d, r, l, c, id, m.epoch);
        }
      case Unpaired(id, wasPaired, _) =>
        if wasPaired && id in r.byId {
          CleanupOk(d, r, l, r.byId[id], m.epoch);
        }
      case Closed(c, _) =>
        if c in r.deviceOf {
          CleanupOk(d, r, l, c, m.epoch);
        }
      case Stopped(order, accepts) =>
        if Enumerates(r, order) {
          EnumeratedAreKnown(r, order);
          StopFrees(m.bridge, order, accepts);
        }
      case KeyMessage(_, _, _, _, _) =>
    }
  }

  // ---- Getting the lease -----------------------------------------------------------------

  /** The session an event would give a free lease to: one that claims it, or sends audio, and may. */
  function Taker(b: Bridge, ev: Event): Option<Conn> {
    match ev
    case Claimed(c, capable) => if IsCurrent(b.registry, c) && capable then Some(c) else None
    case Datagram(c, _, _, _, capable) => if IsRegistered(b.registry, c) && capable then Some(c) else None
    case _ => None
  }

  /** A free lease goes to the session that claims it or sends audio, and to nobody otherwise. */
  lemma FreeLeaseLaw(d: J.Depths, m: Moment, ev: Event)
    requires Bridges.Inv(d, m) && m.bridge.lease.owner.None?
    ensures var l := Next(d, m, ev).bridge.lease;
            match Taker(m.bridge, ev)
            case None => l.owner == None
            case Some(c) => l.owner == Some(m.bridge.registry.deviceOf[c]) && l.reading == Some(c)
  {
    assert J.Inv(d, Active(m.bridge.lease));
    var r, l := m.bridge.registry, m.bridge.lease;
    if Taker(m.bridge, ev).Some? {
      SetLeaseOk(d, r, l, Taker(m.bridge, ev).value, m.epoch);
    } else if IsAudioEvent(ev) {
      FreeAudioLaw(d, m, ev);
    } else {
      match ev
      case Connected(c, id, _) =>
        if c !in r.deviceOf {
          ConnectOwnerLaw(d, r, l, c, id, m.epoch);
        }
      case Unpaired(id, wasPaired, _) =>
        if wasPaired && id in r.byId {
          CleanupOk(d, r, l, r.byId[id], m.epoch);
        }
      case Closed(c, _) =>
        if c in r.deviceOf {
          CleanupOk(d, r, l, c, m.epoch);
        }
      case Stopped(order, accepts) =>
        if Enumerates(r, order) {
          EnumeratedAreKnown(r, order);
          StopFrees(m.bridge, order, accepts);
        }
      case KeyMessage(_, _, _, _, _) =>
    }
  }

  lemma FreeAudioLaw(d: J.Depths, m: Moment, ev: Event)
    requires Bridges.Inv(d, m) && J.Inv(d, Active(m.bridge.lease)) && IsAudioEvent(ev)
    requires m.bridge.lease.owner.None? && Taker(m.bridge, ev).None?
    ensures LeaseAfter(d, m.bridge.registry, m.bridge.lease, ev).owner == None
  {
  }

  /**
    A claim by a current, capable session makes it the owner, and the session read, exactly if the lease is
    free or its own already; any other claim leaves the bridge as it was.
   */
  lemma ClaimLaw(d: J.Depths, m: Moment, c: Conn, capable: bool)
    requires Bridges.Inv(d, m)
    ensures var b, n := m.bridge, Next(d, m, Claimed(c, capable)).bridge;
            if IsCurrent(b.registry, c) && capable && b.lease.owner in {None, Some(b.registry.deviceOf[c])}
            then n.lease.owner == Some(b.registry.deviceOf[c]) && n.lease.reading == Some(c)
                 && n.registry == b.registry && n.keyboard == b.keyboard
                 && (b.lease.owner.Some? ==> n == b)
            else n == b
  {
    assert J.Inv(d, Active(m.bridge.lease));
    var r, l := m.bridge.registry, m.bridge.lease;
    if IsCurrent(r, c) && capable {
      if l.owner in {None, Some(r.deviceOf[c])} {
        SetLeaseOk(d, r, l, c, m.epoch);
      } else {
        ClaimKeepsOwner(r, l, c);
      }
    }
  }

  // ---- Datagrams -------------------------------------------------------------------------

  /**
    A packet is fed to the buffer of the session that sent it: the owner's goes on from what it held, and
    any other session's, one that takes a free lease included, from an empty one.
   */
  lemma DatagramLaw(d: J.Depths, m: Moment, c: Conn, q: J.Sequence, f: J.Frame, nowMs: int, capable: bool)
    requires Bridges.Inv(d, m)
    ensures var b, n := m.bridge, Next(d, m, Datagram(c, q, f, nowMs, capable)).bridge;
            if IsRegistered(b.registry, c) && capable
            then var before := BufferOf(b.lease, c);
                 var start := if b.lease.owner == Some(b.registry.deviceOf[c]) then before else J.Cleared(before);
                 BufferOf(n.lease, c) == J.AfterFeed(d, start, q, f)
            else n == b
  {
    assert J.Inv(d, Active(m.bridge.lease));
    var r, l := m.bridge.registry, m.bridge.lease;
    if IsRegistered(r, c) && capable && l.owner.None? {
      TakeoverShape(r, l, c);
    }
  }

  // ---- Silence ---------------------------------------------------------------------------

  /** The time of the last datagram of `c` that was listened to. */
  function HeardAt(d: J.Depths, events: seq<Event>, c: Conn): int
    requires d.Valid()
  {
    if events == [] then 0
    else
      var front, ev := events[..|events| - 1], events[|events| - 1];
      if ev.Datagram? && ev.c == c && ev.capable && IsRegistered(Run(d, front).bridge.registry, c) then ev.nowMs
      else HeardAt(d, front, c)
  }

  lemma CleanupKeepsTimes(r: Registry, l: Lease, c: Conn)
    requires c in r.deviceOf
    ensures CleanupLease(r, l, c).lastAudioMs == l.lastAudioMs
  {
  }

  lemma {:induction false} CleanupsKeepTimes(r: Registry, l: Lease, order: seq<Conn>)
    requires forall c :: c in order ==> c in r.deviceOf
    ensures CleanupLeases(r, l, order).lastAudioMs == l.lastAudioMs
  {
    if order != [] {
      var front := order[..|order| - 1];
      CleanupsKeepTimes(r, l, front);
      CleanupKeepsTimes(r, CleanupLeases(r, l, front), order[|order| - 1]);
    }
  }

  lemma SetLeaseTimes(r: Registry, l: Lease, c: Conn)
    requires c in r.deviceOf
    ensures SetLease(r, l, c).lastAudioMs == l.lastAudioMs
  {
  }

  lemma ReleaseTimes(r: Registry, l: Lease, only: Option<Conn>)
    ensures ReleaseLease(r, l, only).lastAudioMs == l.lastAudioMs
  {
  }

  lemma ReceiveTimes(d: J.Depths, r: Registry, l: Lease, c: Conn, q: J.Sequence, f: J.Frame, nowMs: int)
    requires c in r.deviceOf
    ensures ReceiveAudio(d, r, l, c, q, f, nowMs).lastAudioMs == l.lastAudioMs[c := nowMs]
  {
    SetLeaseTimes(r, l, c);
  }

  lemma OutputTimes(d: J.Depths, l: Lease, count: nat, used: nat)
    requires J.Inv(d, Active(l))
    ensures Output(d, l, count, used).0.lastAudioMs == l.lastAudioMs
  {
  }

  lemma AudioTimes(d: J.Depths, r: Registry, l: Lease, ev: Event)
    requires J.Inv(d, Active(l)) && IsAudioEvent(ev)
    ensures var after := LeaseAfter(d, r, l, ev).lastAudioMs;
            after == if ev.Datagram? && IsRegistered(r, ev.c) && ev.capable then l.lastAudioMs[ev.c := ev.nowMs]
                     else l.lastAudioMs
  {
    match ev
    case Claimed(c, _) =>
      if IsCurrent(r, c) {
        SetLeaseTimes(r, l, c);
      }
    case GivenUp(c, _) =>
      GiveUpIsRelease(r, l, c);
      ReleaseTimes(r, l, Some(c));
    case Checked(_) => ReleaseTimes(r, l, OwnerSession(r, l));
    case Datagram(c, q, f, nowMs, _) =>
      if IsRegistered(r, c) {
        ReceiveTimes(d, r, l, c, q, f, nowMs);
      }
    case Callback(count, used) => OutputTimes(d, l, count, used);
  }

  lemma TimesLaw(d: J.Depths, m: Moment, ev: Event)
    requires Bridges.Inv(d, m)
    ensures Next(d, m, ev).bridge.lease.lastAudioMs
            == if ev.Datagram? && IsRegistered(m.bridge.registry, ev.c) && ev.capable
               then m.bridge.lease.lastAudioMs[ev.c := ev.nowMs]
               else m.bridge.lease.lastAudioMs
  {
    assert J.Inv(d, Active(m.bridge.lease));
    var r, l := m.bridge.registry, m.bridge.lease;
    if IsAudioEvent(ev) {
      AudioTimes(d, r, l, ev);
    } else {
      match ev
      case Connected(c, id, _) =>
        if c !in r.deviceOf && Get(r, id).Some? {
          CleanupKeepsTimes(AfterRegister(r, c, id), Entered(l, c), r.byId[id]);
        }
      case Unpaired(id, wasPaired, _) =>
        if wasPaired && id in r.byId {
          CleanupKeepsTimes(r, l, r.byId[id]);
        }
      case Closed(c, _) =>
        if c in r.deviceOf {
          CleanupKeepsTimes(r, l, c);
        }
      case Stopped(order, accepts) =>
        if Enumerates(r, order) {
          EnumeratedAreKnown(r, order);
          CleanupsKeepTimes(AfterClear(r), l, order);
        }
      case KeyMessage(_, _, _, _, _) =>
    }
  }

  /** What the idle check goes by is the time of the session's last datagram. */
  lemma {:induction false} LastAudioIsHeard(d: J.Depths, events: seq<Event>, c: Conn)
    requires d.Valid()
    ensures LastAudio(Run(d, events).bridge.lease, c) == HeardAt(d, events, c)
  {
    if events != [] {
      var front, ev := events[..|events| - 1], events[|events| - 1];
      LastAudioIsHeard(d, front, c);
      TimesLaw(d, Run(d, front), ev);
    }
  }

  // ---- The end of a session --------------------------------------------------------------

  lemma CleanupClears(r: Registry, l: Lease, c: Conn)
    requires c in r.deviceOf
    ensures var b := BufferOf(CleanupLease(r, l, c), c);
            b.packets == [] && b.samples == [] && !b.started && b.missing == 0
  {
  }

  /** A connection that ends leaves nothing in the buffer of its session. */
  lemma ClosingClears(d: J.Depths, m: Moment, c: Conn, accepts: bool)
    requires Bridges.Inv(d, m) && c in m.bridge.registry.deviceOf
    ensures var b := BufferOf(Next(d, m, Closed(c, accepts)).bridge.lease, c);
            b.packets == [] && b.samples == [] && !b.started && b.missing == 0
  {
    CleanupClears(m.bridge.registry, m.bridge.lease, c);
  }
}
