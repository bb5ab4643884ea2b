/**
  The bridge as a whole: registry, shared keyboard and microphone lease over every run of
  connections, replacements, unpairings, teardowns, key messages, datagrams and callbacks.

  Each event is one stretch of code between two awaits. What the outside decides (whether the
  injector accepts a press, whether a capability was negotiated, which registered session
  authenticates a datagram) is part of the event.
 */
module Bridges {
  import opened Common
  import opened Devices
  import K = KeyArbitration
  import J = JitterBuffers
  import JitterRuns
  import opened AudioLease

  datatype Bridge = Bridge(registry: Registry, keyboard: K.Keyboard, lease: Lease)

  datatype Event =
    | Connected(c: Conn, id: DeviceId, accepts: bool)
    | Unpaired(id: DeviceId, wasPaired: bool, accepts: bool)
    | Closed(c: Conn, accepts: bool)
    | KeyMessage(c: Conn, key: K.Key, action: string, modifiers: K.Modifiers, accepts: bool)
    | Claimed(c: Conn, capable: bool)
    | GivenUp(c: Conn, capable: bool)
    | Checked(nowMs: int)
    | Datagram(c: Conn, sequence: J.Sequence, payload: J.Frame, nowMs: int, capable: bool)
    | Callback(count: nat, used: nat)
    | Stopped(order: seq<Conn>, accepts: bool)

  const START := Bridge(NOBODY, K.IDLE, FREE)

  // ---- One event -----------------------------------------------------------------------

  /** `_cleanup_session`. */
  function Cleanup(b: Bridge, c: Conn, accepts: bool): Bridge
    requires c in b.registry.deviceOf
  {
    b.(keyboard := K.ReleaseSession(b.keyboard, c, accepts), lease := CleanupLease(b.registry, b.lease, c))
  }

  function Connect(b: Bridge, c: Conn, id: DeviceId, accepts: bool): Bridge
    requires Devices.Inv(b.registry)
  {
    var previous := Get(b.registry, id);
    Bridge(AfterRegister(b.registry, c, id),
           if previous.Some? then K.ReleaseSession(b.keyboard, previous.value, accepts) else b.keyboard,
           ConnectLease(b.registry, b.lease, c, id))
  }

  /** Cleanup and removal, as on unpairing and in the last lines of a connection's task. */
  function Teardown(b: Bridge, c: Conn, accepts: bool): Bridge
    requires c in b.registry.deviceOf
  {
    var clean := Cleanup(b, c, accepts);
    clean.(registry := AfterRemove(clean.registry, c))
  }

  function Claim(r: Registry, l: Lease, c: Conn): Lease
    requires c in r.deviceOf
  {
    var owner := OwnerSession(r, l);
    if owner.Some? && owner.value != c then l else SetLease(r, l, c)
  }

  function GiveUp(r: Registry, l: Lease, c: Conn): Lease {
    if OwnerSession(r, l) == Some(c) then ReleaseLease(r, l, Some(c)) else Resolved(r, l)
  }

  function CleanupLeases(r: Registry, l: Lease, order: seq<Conn>): Lease
    requires forall c :: c in order ==> c in r.deviceOf
  {
    if order == [] then l
    else CleanupLease(r, CleanupLeases(r, l, order[..|order| - 1]), order[|order| - 1])
  }

  function Stop(b: Bridge, order: seq<Conn>, accepts: bool): Bridge
    requires forall c :: c in order ==> c in b.registry.deviceOf
  {
    var r := AfterClear(b.registry);
    var released := K.ReleaseAll(b.keyboard, order, accepts);
    Bridge(r,
           released.(owners := map[], injected := map[]),
           ResetStream(CleanupLeases(r, b.lease, order).(owner := None)))
  }

  /** `order` lists the registered sessions. */
  predicate Enumerates(r: Registry, order: seq<Conn>) {
    (set c | c in order) == r.byId.Values
  }

  lemma EnumeratedAreKnown(r: Registry, order: seq<Conn>)
    requires Devices.Inv(r) && Enumerates(r, order)
    ensures forall c :: c in order ==> c in r.deviceOf
    ensures forall c :: c in order <==> IsRegistered(r, c)
  {
    forall c ensures c in order <==> IsRegistered(r, c) {
      assert c in order <==> c in r.byId.Values;
      if IsRegistered(r, c) {
        assert r.byId[r.deviceOf[c]] == c;
      }
    }
  }

  /** What an event that is about the microphone only does to the lease. */
  function LeaseAfter(d: J.Depths, r: Registry, l: Lease, ev: Event): Lease
    requires d.target >= 1 && (Active(l).started ==> Active(l).next.Some?)
  {
    match ev
    case Claimed(c, capable) => if IsCurrent(r, c) && capable then Claim(r, l, c) else l
    case GivenUp(c, capable) => if IsCurrent(r, c) && capable then GiveUp(r, l, c) else l
    case Checked(nowMs) => ExpireLease(r, l, nowMs)
    case Datagram(c, q, f, nowMs, capable) =>
      if IsRegistered(r, c) && capable then ReceiveAudio(d, r, l, c, q, f, nowMs) else l
    case Callback(count, used) => Output(d, l, count, used).0
    case _ => l
  }

  /** An event the bridge ignores leaves it as it was. */
  function Step(d: J.Depths, b: Bridge, ev: Event): Bridge
    requires Devices.Inv(b.registry)
    requires d.target >= 1 && (Active(b.lease).started ==> Active(b.lease).next.Some?)
  {
    var r := b.registry;
    match ev
    case Connected(c, id, accepts) => if c in r.deviceOf then b else Connect(b, c, id, accepts)
    case Unpaired(id, wasPaired, accepts) =>
      if wasPaired && id in r.byId then Teardown(b, r.byId[id], accepts) else b
    case Closed(c, accepts) => if c in r.deviceOf then Teardown(b, c, accepts) else b
    case KeyMessage(c, key, action, mods, accepts) =>
      if IsCurrent(r, c) then b.(keyboard := K.HandleKey(b.keyboard, c, key, action, mods, accepts)) else b
    case Stopped(order, accepts) =>
      if Enumerates(r, order) then
        EnumeratedAreKnown(r, order);
        Stop(b, order, accepts)
      else b
    case _ => b.(lease := LeaseAfter(d, r, b.lease, ev))
  }

  // ---- Runs ----------------------------------------------------------------------------

  /** The bridge, and what happened since the lease last changed hands. */
  datatype Moment = Moment(bridge: Bridge, epoch: Epoch)

  function NextHistory(d: J.Depths, m: Moment, ev: Event, after: Lease): Epoch
    requires d.target >= 1 && (Active(m.bridge.lease).started ==> Active(m.bridge.lease).next.Some?)
  {
    var next := NextEpoch(m.bridge.lease, after, m.epoch);
    var r := m.bridge.registry;
    match ev
    case Datagram(c, q, f, _, capable) =>
      if IsRegistered(r, c) && capable && after.owner == Some(r.deviceOf[c]) then Heard(next, q, f) else next
    case Callback(count, _) => Listened(d, m.bridge.lease, m.epoch, count)
    case _ => next
  }

  ghost predicate Inv(d: J.Depths, m: Moment) {
    && K.Inv(m.bridge.keyboard)
    && AudioLease.Inv(d, m.bridge.registry, m.bridge.lease, m.epoch)
    && HoldersAreRegistered(m.bridge)
  }

  /** Only a registered session holds a key. */
  ghost predicate HoldersAreRegistered(b: Bridge) {
    forall c :: K.HeldBy(b.keyboard, c) != [] ==> IsRegistered(b.registry, c)
  }

  function Next(d: J.Depths, m: Moment, ev: Event): (n: Moment)
    requires Inv(d, m)
  {
    assert J.Inv(d, Active(m.bridge.lease));
    var after := Step(d, m.bridge, ev);
    Moment(after, NextHistory(d, m, ev, after.lease))
  }

  lemma CleanupKeepsInv(d: J.Depths, m: Moment, c: Conn, accepts: bool)
    requires Inv(d, m) && c in m.bridge.registry.deviceOf
    ensures var after := Teardown(m.bridge, c, accepts);
            Inv(d, Moment(after, NextEpoch(m.bridge.lease, after.lease, m.epoch)))
  {
    var b := m.bridge;
    var clean := Cleanup(b, c, accepts);
    var e := NextEpoch(b.lease, clean.lease, m.epoch);
    K.SessionIsReleased(b.keyboard, c, accepts);
    CleanupOk(d, b.registry, b.lease, c, m.epoch);
    RemoveOk(d, b.registry, clean.lease, c, e);
    RemoveKeepsInv(b.registry, c);
  }

  lemma ConnectKeepsInv(d: J.Depths, m: Moment, c: Conn, id: DeviceId, accepts: bool)
    requires Inv(d, m) && c !in m.bridge.registry.deviceOf
    ensures var after := Connect(m.bridge, c, id, accepts);
            Inv(d, Moment(after, NextEpoch(m.bridge.lease, after.lease, m.epoch)))
  {
    var b := m.bridge;
    ConnectOk(d, b.registry, b.lease, c, id, m.epoch);
    RegisterKeepsInv(b.registry, c, id);
    if id in b.registry.byId {
      K.SessionIsReleased(b.keyboard, b.registry.byId[id], accepts);
    }
  }

  lemma KeyKeepsInv(d: J.Depths, m: Moment, c: Conn, key: K.Key, action: string, mods: K.Modifiers, accepts: bool)
    requires Inv(d, m) && IsCurrent(m.bridge.registry, c)
    ensures Inv(d, m.(bridge := m.bridge.(keyboard := K.HandleKey(m.bridge.keyboard, c, key, action, mods, accepts))))
  {
    K.HandleKeepsInv(m.bridge.keyboard, c, key, action, mods, accepts);
    K.HandleTouchesOne(m.bridge.keyboard, c, key, action, mods, accepts);
  }

  lemma {:induction false} CleanupsOnlyClear(r: Registry, l: Lease, order: seq<Conn>)
    requires r.byId == map[] && forall c :: c in order ==> c in r.deviceOf
    ensures OnlyClears(l, CleanupLeases(r, l, order)) && CleanupLeases(r, l, order).reading == l.reading
  {
    if order != [] {
      var front, c := order[..|order| - 1], order[|order| - 1];
      CleanupsOnlyClear(r, l, front);
      var mid := CleanupLeases(r, l, front);
      ResetBufferClears(mid, c);
      ClearingTwice(l, mid, CleanupLease(r, mid, c));
    }
  }

  lemma StoppedLeaseOk(d: J.Depths, r: Registry, l: Lease, order: seq<Conn>, e: Epoch)
    requires AudioLease.Inv(d, r, l, e) && forall c :: c in order ==> c in r.deviceOf
    ensures var s := ResetStream(CleanupLeases(AfterClear(r), l, order).(owner := None));
            AudioLease.Inv(d, AfterClear(r), s, NextEpoch(l, s, e))
  {
    var none := AfterClear(r);
    var clean := CleanupLeases(none, l, order).(owner := None);
    var s := ResetStream(clean);
    CleanupsOnlyClear(none, l, order);
    ResetStreamClears(clean);
    ClearingTwice(l, clean, s);
    ClearingIsOk(d, l, s);
    FreshEpoch(d, none, s);
  }

  /** Once every session is released, emptying the dictionaries changes nothing. */
  lemma StoppedKeyboardOk(b: Bridge, order: seq<Conn>, accepts: bool)
    requires K.Inv(b.keyboard) && HoldersAreRegistered(b)
    requires forall c :: c in order <==> IsRegistered(b.registry, c)
    ensures var k := K.ReleaseAll(b.keyboard, order, accepts).(owners := map[], injected := map[]);
            K.Inv(k) && forall c :: K.HeldBy(k, c) == []
  {
    var k := K.ReleaseAll(b.keyboard, order, accepts);
    var s := k.(owners := map[], injected := map[]);
    K.ReleaseAllFrees(b.keyboard, order, accepts);
    forall c ensures K.HeldBy(k, c) == [] && K.HeldBy(s, c) == [] {
      assert K.HeldBy(k, c) == if c in order then [] else K.HeldBy(b.keyboard, c);
    }
    forall key ensures K.OwnersAgree(s, key) && K.InjectedAgrees(s, key) {
      assert K.OwnersAgree(k, key) && K.InjectedAgrees(k, key);
      assert K.OwnersOf(k, key) == map[] by {
        forall c ensures c !in K.OwnersOf(k, key) {
          assert K.Grip(k, c, key) == None;
        }
      }
    }
  }

  lemma StopFrees(b: Bridge, order: seq<Conn>, accepts: bool)
    requires forall c :: c in order ==> c in b.registry.deviceOf
    ensures Stop(b, order, accepts).lease.owner == None
  {
    ResetStreamClears(CleanupLeases(AfterClear(b.registry), b.lease, order).(owner := None));
  }

  lemma StopKeepsInv(d: J.Depths, m: Moment, order: seq<Conn>, accepts: bool)
    requires Inv(d, m) && Enumerates(m.bridge.registry, order)
    ensures (forall c :: c in order ==> c in m.bridge.registry.deviceOf)
    ensures var after := Stop(m.bridge, order, accepts);
            Inv(d, Moment(after, NextEpoch(m.bridge.lease, after.lease, m.epoch)))
  {
    EnumeratedAreKnown(m.bridge.registry, order);
    StoppedKeyboardOk(m.bridge, order, accepts);
    StoppedLeaseOk(d, m.bridge.registry, m.bridge.lease, order, m.epoch);
  }

  predicate IsAudioEvent(ev: Event) {
    ev.Claimed? || ev.GivenUp? || ev.Checked? || ev.Datagram? || ev.Callback?
  }

  /** The invariant of lease and stream after an audio event. */
  ghost predicate AudioOk(d: J.Depths, m: Moment, ev: Event)
    requires d.target >= 1 && (Active(m.bridge.lease).started ==> Active(m.bridge.lease).next.Some?)
  {
    var after := LeaseAfter(d, m.bridge.registry, m.bridge.lease, ev);
    AudioLease.Inv(d, m.bridge.registry, after, NextHistory(d, m, ev, after))
  }

  lemma ClaimOk(d: J.Depths, m: Moment, c: Conn, capable: bool)
    requires Inv(d, m) && J.Inv(d, Active(m.bridge.lease))
    ensures AudioOk(d, m, Claimed(c, capable))
  {
    if IsCurrent(m.bridge.registry, c) {
      SetLeaseOk(d, m.bridge.registry, m.bridge.lease, c, m.epoch);
    }
  }

  lemma GiveUpIsRelease(r: Registry, l: Lease, c: Conn)
    ensures GiveUp(r, l, c) == ReleaseLease(r, l, Some(c))
  {
  }

  lemma GiveUpOk(d: J.Depths, m: Moment, c: Conn, capable: bool)
    requires Inv(d, m) && J.Inv(d, Active(m.bridge.lease))
    ensures AudioOk(d, m, GivenUp(c, capable))
  {
    GiveUpIsRelease(m.bridge.registry, m.bridge.lease, c);
    ReleaseOk(d, m.bridge.registry, m.bridge.lease, Some(c), m.epoch);
  }

  lemma DatagramOk(d: J.Depths, m: Moment, c: Conn, q: J.Sequence, f: J.Frame, nowMs: int, capable: bool)
    requires Inv(d, m) && J.Inv(d, Active(m.bridge.lease))
    ensures AudioOk(d, m, Datagram(c, q, f, nowMs, capable))
  {
    if IsRegistered(m.bridge.registry, c) {
      ReceiveOk(d, m.bridge.registry, m.bridge.lease, c, q, f, nowMs, m.epoch);
    }
  }

  lemma CheckedHistory(d: J.Depths, m: Moment, nowMs: int, after: Lease)
    requires Inv(d, m) && J.Inv(d, Active(m.bridge.lease))
    ensures NextHistory(d, m, Checked(nowMs), after) == NextEpoch(m.bridge.lease, after, m.epoch)
  {
  }

  lemma CheckOk(d: J.Depths, m: Moment, nowMs: int)
    requires Inv(d, m) && J.Inv(d, Active(m.bridge.lease))
    ensures AudioOk(d, m, Checked(nowMs))
  {
    var r, l := m.bridge.registry, m.bridge.lease;
    ExpireOk(d, r, l, nowMs, m.epoch);
    CheckedHistory(d, m, nowMs, ExpireLease(r, l, nowMs));
    assert LeaseAfter(d, r, l, Checked(nowMs)) == ExpireLease(r, l, nowMs);
  }

  lemma CallbackOk(d: J.Depths, m: Moment, count: nat, used: nat)
    requires Inv(d, m) && J.Inv(d, Active(m.bridge.lease))
    ensures AudioOk(d, m, Callback(count, used))
  {
    OutputOk(d, m.bridge.registry, m.bridge.lease, count, used, m.epoch);
  }

  lemma AudioIsOk(d: J.Depths, m: Moment, ev: Event)
    requires Inv(d, m) && J.Inv(d, Active(m.bridge.lease)) && IsAudioEvent(ev)
    ensures AudioOk(d, m, ev)
  {
    match ev
    case Claimed(c, capable) => ClaimOk(d, m, c, capable);
    case GivenUp(c, capable) => GiveUpOk(d, m, c, capable);
    case Checked(nowMs) => CheckOk(d, m, nowMs);
    case Datagram(c, q, f, nowMs, capable) => DatagramOk(d, m, c, q, f, nowMs, capable);
    case Callback(count, used) => CallbackOk(d, m, count, used);
  }

  lemma LeaseStepKeepsInv(d: J.Depths, m: Moment, ev: Event)
    requires Inv(d, m) && IsAudioEvent(ev)
    ensures Inv(d, Next(d, m, ev))
  {
    assert J.Inv(d, Active(m.bridge.lease));
    AudioIsOk(d, m, ev);
  }

  lemma ConnectedKeepsInv(d: J.Depths, m: Moment, c: Conn, id: DeviceId, accepts: bool)
    requires Inv(d, m)
    ensures Inv(d, Next(d, m, Connected(c, id, accepts)))
  {
    if c !in m.bridge.registry.deviceOf {
      ConnectKeepsInv(d, m, c, id, accepts);
    }
  }

  lemma UnpairedKeepsInv(d: J.Depths, m: Moment, id: DeviceId, wasPaired: bool, accepts: bool)
    requires Inv(d, m)
    ensures Inv(d, Next(d, m, Unpaired(id, wasPaired, accepts)))
  {
    if id in m.bridge.registry.byId {
      CleanupKeepsInv(d, m, m.bridge.registry.byId[id], accepts);
    }
  }

  lemma ClosedKeepsInv(d: J.Depths, m: Moment, c: Conn, accepts: bool)
    requires Inv(d, m)
    ensures Inv(d, Next(d, m, Closed(c, accepts)))
  {
    if c in m.bridge.registry.deviceOf {
      CleanupKeepsInv(d, m, c, accepts);
    }
  }

  lemma StoppedKeepsInv(d: J.Depths, m: Moment, order: seq<Conn>, accepts: bool)
    requires Inv(d, m)
    ensures Inv(d, Next(d, m, Stopped(order, accepts)))
  {
    if Enumerates(m.bridge.registry, order) {
      StopKeepsInv(d, m, order, accepts);
    }
  }

  lemma MessageKeepsInv(d: J.Depths, m: Moment, ev: Event)
    requires Inv(d, m) && ev.KeyMessage?
    ensures Inv(d, Next(d, m, ev))
  {
    if IsCurrent(m.bridge.registry, ev.c) {
      KeyKeepsInv(d, m, ev.c, ev.key, ev.action, ev.modifiers, ev.accepts);
    }
  }

  lemma NextKeepsInv(d: J.Depths, m: Moment, ev: Event)
    requires Inv(d, m)
    ensures Inv(d, Next(d, m, ev))
  {
    if IsAudioEvent(ev) {
      LeaseStepKeepsInv(d, m, ev);
    } else {
      match ev
      case Connected(c, id, accepts) => ConnectedKeepsInv(d, m, c, id, accepts);
      case Unpaired(id, wasPaired, accepts) => UnpairedKeepsInv(d, m, id, wasPaired, accepts);
      case Closed(c, accepts) => ClosedKeepsInv(d, m, c, accepts);
      case KeyMessage(_, _, _, _, _) => MessageKeepsInv(d, m, ev);
      case Stopped(order, accepts) => StoppedKeepsInv(d, m, order, accepts);
    }
  }

  function Run(d: J.Depths, events: seq<Event>): (m: Moment)
    requires d.Valid()
    ensures Inv(d, m)
  {
    if events == [] then
      StartKeepsInv(d);
      Moment(START, NEW)
    else
      var m := Run(d, events[..|events| - 1]);
      NextKeepsInv(d, m, events[|events| - 1]);
      Next(d, m, events[|events| - 1])
  }

  lemma StartKeepsInv(d: J.Depths)
    requires d.Valid()
    ensures Inv(d, Moment(START, NEW))
  {
    assert K.PressedWith([], "") == None;
    forall key ensures K.OwnersAgree(K.IDLE, key) && K.InjectedAgrees(K.IDLE, key) {
    }
  }

  // ---- What every run guarantees -------------------------------------------------------

  /**
    In every run the lease is free or names a registered session whose buffer is the one the
    output reads, and every other registered session has at most one packet waiting.
   */
  lemma LeaseNamesTheStream(d: J.Depths, events: seq<Event>)
    requires d.Valid()
    ensures var b := Run(d, events).bridge;
            && (b.lease.owner.Some? ==>
                  exists c :: IsCurrent(b.registry, c) && b.lease.owner == Some(b.registry.deviceOf[c])
                              && b.lease.reading == Some(c))
            && (forall c :: IsRegistered(b.registry, c) && b.lease.owner != Some(b.registry.deviceOf[c]) ==>
                  |BufferOf(b.lease, c).packets| <= 1)
  {
    var b := Run(d, events).bridge;
    if b.lease.owner.Some? {
      var c := b.registry.byId[b.lease.owner.value];
      CurrentIsRegistered(b.registry, c);
    }
  }

  // The output goes on reading the same session, unless another takes the lease.

  lemma CleanupReads(r: Registry, l: Lease, c: Conn)
    requires c in r.deviceOf
    ensures CleanupLease(r, l, c).reading == l.reading
  {
  }

  lemma ConnectReads(r: Registry, l: Lease, c: Conn, id: DeviceId)
    requires Devices.Inv(r)
    ensures ConnectLease(r, l, c, id).reading == l.reading
  {
    if Get(r, id).Some? {
      CleanupReads(AfterRegister(r, c, id), Entered(l, c), r.byId[id]);
    }
  }

  lemma {:induction false} StopReads(b: Bridge, order: seq<Conn>, accepts: bool)
    requires forall c :: c in order ==> c in b.registry.deviceOf
    ensures Stop(b, order, accepts).lease.reading == b.lease.reading
  {
    CleanupsOnlyClear(AfterClear(b.registry), b.lease, order);
  }

  lemma SetLeaseReads(d: J.Depths, r: Registry, l: Lease, c: Conn, e: Epoch)
    requires AudioLease.Inv(d, r, l, e) && IsRegistered(r, c)
    ensures SetLease(r, l, c).owner == l.owner ==> SetLease(r, l, c).reading == l.reading
  {
    SetLeaseOk(d, r, l, c, e);
  }

  lemma AudioReads(d: J.Depths, m: Moment, ev: Event)
    requires Inv(d, m) && J.Inv(d, Active(m.bridge.lease)) && m.bridge.lease.owner.Some?
    requires IsAudioEvent(ev)
    ensures var after := LeaseAfter(d, m.bridge.registry, m.bridge.lease, ev);
            after.owner == m.bridge.lease.owner ==> after.reading == m.bridge.lease.reading
  {
    if ev.Claimed? && IsCurrent(m.bridge.registry, ev.c) {
      SetLeaseReads(d, m.bridge.registry, m.bridge.lease, ev.c, m.epoch);
    }
  }

  /** While the lease keeps its owner, the output keeps reading the same session. */
  lemma SameOwnerSameSession(d: J.Depths, m: Moment, ev: Event)
    requires Inv(d, m) && m.bridge.lease.owner.Some?
    requires Next(d, m, ev).bridge.lease.owner == m.bridge.lease.owner
    ensures Next(d, m, ev).bridge.lease.reading == m.bridge.lease.reading
  {
    assert J.Inv(d, Active(m.bridge.lease));
    var r, l := m.bridge.registry, m.bridge.lease;
    if IsAudioEvent(ev) {
      AudioReads(d, m, ev);
    } else {
      match ev
      case Connected(c, id, _) => ConnectReads(r, l, c, id);
      case Unpaired(id, _, _) =>
        if id in r.byId {
          CleanupReads(r, l, r.byId[id]);
        }
      case Closed(c, _) =>
        if c in r.deviceOf {
          CleanupReads(r, l, c);
        }
      case Stopped(order, accepts) =>
        if Enumerates(r, order) {
          EnumeratedAreKnown(r, order);
          StopReads(m.bridge, order, accepts);
        }
      case KeyMessage(_, _, _, _, _) =>
    }
  }

  function OwnerAfter(d: J.Depths, events: seq<Event>): Option<DeviceId>
    requires d.Valid()
  {
    Run(d, events).bridge.lease.owner
  }

  function ReadingAfter(d: J.Depths, events: seq<Event>): Option<Conn>
    requires d.Valid()
  {
    Run(d, events).bridge.lease.reading
  }

  predicate IsSending(ev: Event, p: J.Packet, reading: Option<Conn>) {
    ev.Datagram? && J.Packet(ev.sequence, ev.payload) == p && reading == Some(ev.c)
  }

  /** The lease has had the same owner after event k and after every later event. */
  ghost predicate OwnedSince(d: J.Depths, events: seq<Event>, k: nat)
    requires d.Valid() && k < |events|
  {
    var front := events[..|events| - 1];
    k == |events| - 1 || (OwnerAfter(d, front) == OwnerAfter(d, events) && OwnedSince(d, front, k))
  }

  /**
    The session now being read sent `p` in some datagram of the run, and the lease has had one
    and the same owner ever since.
   */
  ghost predicate WasSent(d: J.Depths, events: seq<Event>, p: J.Packet)
    requires d.Valid()
  {
    OwnerAfter(d, events).Some? &&
    exists k :: 0 <= k < |events| && IsSending(events[k], p, ReadingAfter(d, events)) && OwnedSince(d, events, k)
  }

  lemma SentStays(d: J.Depths, events: seq<Event>, ev: Event, p: J.Packet)
    requires d.Valid() && WasSent(d, events, p)
    requires OwnerAfter(d, events + [ev]) == OwnerAfter(d, events)
    requires ReadingAfter(d, events + [ev]) == ReadingAfter(d, events)
    ensures WasSent(d, events + [ev], p)
  {
    var k :| 0 <= k < |events| && IsSending(events[k], p, ReadingAfter(d, events)) && OwnedSince(d, events, k);
    assert (events + [ev])[..|events + [ev]| - 1] == events;
    assert OwnedSince(d, events + [ev], k);
    assert IsSending((events + [ev])[k], p, ReadingAfter(d, events + [ev]));
  }

  lemma SentNow(d: J.Depths, events: seq<Event>, p: J.Packet)
    requires d.Valid() && events != [] && OwnerAfter(d, events).Some?
    requires IsSending(events[|events| - 1], p, ReadingAfter(d, events))
    ensures WasSent(d, events, p)
  {
    assert OwnedSince(d, events, |events| - 1);
  }

  lemma FedShape(d: J.Depths, m: Moment, ev: Event, after: Lease, p: J.Packet)
    requires Inv(d, m) && J.Inv(d, Active(m.bridge.lease))
    requires p in NextHistory(d, m, ev, after).fed
    ensures (p in m.epoch.fed && (ev.Callback? || after.owner == m.bridge.lease.owner))
            || (ev.Datagram? && J.Packet(ev.sequence, ev.payload) == p && IsRegistered(m.bridge.registry, ev.c)
                && ev.capable && after.owner == Some(m.bridge.registry.deviceOf[ev.c]))
  {
  }

  /** A packet enters the history only as the datagram its owner has just sent. */
  lemma NewlyFed(d: J.Depths, m: Moment, ev: Event, p: J.Packet)
    requires Inv(d, m) && Inv(d, Next(d, m, ev)) && p in Next(d, m, ev).epoch.fed
    ensures Next(d, m, ev).bridge.lease.owner.Some?
    ensures (p in m.epoch.fed && Next(d, m, ev).bridge.lease.owner == m.bridge.lease.owner)
            || IsSending(ev, p, Next(d, m, ev).bridge.lease.reading)
  {
    assert J.Inv(d, Active(m.bridge.lease));
    var after := Next(d, m, ev).bridge.lease;
    FedShape(d, m, ev, after, p);
    if ev.Callback? {
      OutputOwner(d, m.bridge.lease, ev.count, ev.used);
    } else if ev.Datagram? {
      ReceivedReads(d, m.bridge.registry, m.bridge.lease, ev);
    }
  }

  lemma OutputOwner(d: J.Depths, l: Lease, count: nat, used: nat)
    requires J.Inv(d, Active(l))
    ensures Output(d, l, count, used).0.owner == l.owner
  {
  }

  lemma ReceivedReads(d: J.Depths, r: Registry, l: Lease, ev: Event)
    requires J.Inv(d, Active(l)) && ev.Datagram?
    ensures var after := LeaseAfter(d, r, l, ev);
            IsRegistered(r, ev.c) && ev.capable && after.owner == Some(r.deviceOf[ev.c]) ==> after.reading == Some(ev.c)
  {
  }

  lemma RunOfMore(d: J.Depths, events: seq<Event>, ev: Event)
    requires d.Valid()
    ensures Run(d, events + [ev]) == Next(d, Run(d, events), ev)
  {
    assert (events + [ev])[..|events + [ev]| - 1] == events;
  }

  lemma SentOrStays(d: J.Depths, events: seq<Event>, ev: Event, p: J.Packet)
    requires d.Valid() && p in Run(d, events + [ev]).epoch.fed
    requires p in Run(d, events).epoch.fed ==> WasSent(d, events, p)
    ensures WasSent(d, events + [ev], p)
  {
    var before := Run(d, events);
    RunOfMore(d, events, ev);
    NewlyFed(d, before, ev, p);
    if IsSending(ev, p, ReadingAfter(d, events + [ev])) {
      SentNow(d, events + [ev], p);
    } else {
      SameOwnerSameSession(d, before, ev);
      SentStays(d, events, ev, p);
    }
  }

  lemma NothingFedYet(d: J.Depths)
    requires d.Valid()
    ensures Run(d, []).epoch.fed == []
  {
  }

  /** The history names only packets its owner sent since the lease last changed hands. */
  lemma {:induction false} FedWasSent(d: J.Depths, events: seq<Event>, p: J.Packet)
    requires d.Valid() && p in Run(d, events).epoch.fed
    ensures WasSent(d, events, p)
  {
    if events == [] {
      NothingFedYet(d);
    } else {
      var front, ev := events[..|events| - 1], events[|events| - 1];
      assert events == front + [ev];
      if p in Run(d, front).epoch.fed {
        FedWasSent(d, front, p);
      }
      SentOrStays(d, front, ev, p);
    }
  }

  /** What one callback may hear: silence, or packets of the current owner's own stream. */
  ghost predicate IsOwnersStream(d: J.Depths, events: seq<Event>, pulls: seq<J.Pull>)
    requires d.Valid()
  {
    forall i :: 0 <= i < |pulls| && pulls[i].Played? ==> WasSent(d, events, pulls[i].packet)
  }

  /** Each of the samples is silent, or lies in a packet of the owner's own stream. */
  ghost predicate AreOwners(d: J.Depths, events: seq<Event>, samples: seq<int>)
    requires d.Valid()
  {
    forall x :: x in samples ==> IsOwners(d, events, x)
  }

  ghost predicate IsOwners(d: J.Depths, events: seq<Event>, x: int)
    requires d.Valid()
  {
    x == 0 || exists p :: WasSent(d, events, p) && x in p.payload
  }

  lemma FedAreOwners(d: J.Depths, events: seq<Event>, samples: seq<int>)
    requires d.Valid() && AreSamples(samples, Run(d, events).epoch.fed)
    ensures AreOwners(d, events, samples)
  {
    var fed := Run(d, events).epoch.fed;
    forall x | x in samples ensures IsOwners(d, events, x) {
      assert IsSample(x, fed);
      if x != 0 {
        var p :| p in fed && x in p.payload;
        FedWasSent(d, events, p);
      }
    }
  }

  lemma FedIsOwnersStream(d: J.Depths, events: seq<Event>, pulls: seq<J.Pull>)
    requires d.Valid() && ArePulled(pulls, Run(d, events).epoch.fed)
    ensures IsOwnersStream(d, events, pulls)
  {
    forall i | 0 <= i < |pulls| && pulls[i].Played? ensures WasSent(d, events, pulls[i].packet) {
      FedWasSent(d, events, pulls[i].packet);
    }
  }

  /** A callback reads the end of what was left over, then the frames it pulls. */
  lemma ReadIsDecoded(d: J.Depths, b: J.Buffer, count: nat)
    requires J.Inv(d, b)
    ensures |J.Read(d, b, count).1| == count
    ensures J.Read(d, b, count).1 <= b.samples + JitterRuns.Decode(J.Fill(d, b, count).1)
  {
    J.FillReaches(d, b, count);
    JitterRuns.FillDecodes(d, b, count);
  }

  /** `samples`, read with `pulls`, are heard of the owner, or of nobody while the lease is free. */
  ghost predicate IsHeardOfOwner(d: J.Depths, events: seq<Event>, pulls: seq<J.Pull>, samples: seq<int>)
    requires d.Valid()
  {
    var l := Run(d, events).bridge.lease;
    && IsOwnersStream(d, events, pulls)
    && AreOwners(d, events, l.window + samples)
    && (l.owner.None? ==> forall x :: x in l.window + samples ==> x == 0)
  }

  lemma FreeWindowIsSilent(l: Lease, e: Epoch)
    requires IsSourced(l, e) && FreeIsSilent(l, e) && l.owner.None?
    ensures forall x :: x in l.window ==> x == 0
  {
    forall i | 0 <= i < |l.window| ensures l.window[i] == 0 {
      assert l.window[i] in e.read;
    }
  }

  /**
    Whatever a callback reads after any run is a prefix of what was left of an earlier frame of
    the epoch, followed by the frames it pulls. Each of those frames is silence or a packet sent by
    the session that owns the lease, since it last took it; and so is each of the samples that the
    callback interpolates between, those the resampler held included. A free lease gives zeros.
   */
  lemma OnlyTheOwnerIsHeard(d: J.Depths, events: seq<Event>, count: nat)
    requires d.Valid()
    ensures var b := Active(Run(d, events).bridge.lease);
            && J.Inv(d, b)
            && var pulls, samples := J.Fill(d, b, count).1, J.Read(d, b, count).1;
               && |samples| == count && samples <= b.samples + JitterRuns.Decode(pulls)
               && IsHeardOfOwner(d, events, pulls, samples)
  {
    var l, e := Run(d, events).bridge.lease, Run(d, events).epoch;
    assert J.Inv(d, Active(l));
    ReadIsDecoded(d, Active(l), count);
    PullsAreFed(d, Active(l), count, [], e.fed);
    assert [] + J.Fill(d, Active(l), count).1 == J.Fill(d, Active(l), count).1;
    FedIsOwnersStream(d, events, J.Fill(d, Active(l), count).1);
    ReadAreSamples(d, l, count, e);
    TailIsSamples(l.window, e.read, e.fed);
    SumIsSamples(l.window, J.Read(d, Active(l), count).1, e.fed);
    FedAreOwners(d, events, l.window + J.Read(d, Active(l), count).1);
    if l.owner.None? {
      FreeReadsSilence(d, l, count, e);
      FreeWindowIsSilent(l, e);
    }
  }

  /**
    What is left of an earlier frame is the end of the last frame of the owner's stream, what the
    resampler holds is the end of what was read in the epoch, and all of it is the owner's.
   */
  lemma LeftoverIsTheOwners(d: J.Depths, events: seq<Event>)
    requires d.Valid()
    ensures var l, e := Run(d, events).bridge.lease, Run(d, events).epoch;
            && IsOwnersStream(d, events, e.pulled) && IsLeftOf(Active(l).samples, e.pulled)
            && AreOwners(d, events, e.read) && IsTail(l.window, e.read)
            && AreOwners(d, events, Active(l).samples) && AreOwners(d, events, l.window)
  {
    var l, e := Run(d, events).bridge.lease, Run(d, events).epoch;
    FedIsOwnersStream(d, events, e.pulled);
    FedAreOwners(d, events, e.read);
    OnHandAreSamples(l, e);
    FedAreOwners(d, events, Active(l).samples);
    TailIsSamples(l.window, e.read, e.fed);
    FedAreOwners(d, events, l.window);
  }

  /**
    In every run a key is down exactly while some current session holds it, its owner map lists
    exactly the sessions that hold it, and its presses and releases alternate.
   */
  lemma KeyboardIsSafe(d: J.Depths, events: seq<Event>, key: K.Key)
    requires d.Valid()
    ensures var b := Run(d, events).bridge;
            && K.Alternates(b.keyboard.log)
            && (forall c :: c in K.OwnersOf(b.keyboard, key) <==> K.Holds(K.HeldBy(b.keyboard, c), key))
            && (key in b.keyboard.injected <==> K.OwnersOf(b.keyboard, key) != map[])
            && (K.PressedWith(b.keyboard.log, key).Some? <==>
                  exists c :: IsCurrent(b.registry, c) && K.Holds(K.HeldBy(b.keyboard, c), key))
  {
    var b := Run(d, events).bridge;
    var owners := K.OwnersOf(b.keyboard, key);
    assert K.OwnersAgree(b.keyboard, key) && K.InjectedAgrees(b.keyboard, key);
    forall c ensures c in owners <==> K.Holds(K.HeldBy(b.keyboard, c), key) {
      assert K.Grip(b.keyboard, c, key).Some? <==> c in owners;
    }
    if owners != map[] {
      var c :| c in owners;
      CurrentIsRegistered(b.registry, c);
      assert K.HeldBy(b.keyboard, c) != [];
    }
  }

  // ---- The late teardown ---------------------------------------------------------------

  lemma ClosedOwner(d: J.Depths, m: Moment, c: Conn, accepts: bool)
    requires Inv(d, m) && J.Inv(d, Active(m.bridge.lease)) && c in m.bridge.registry.deviceOf
    ensures Step(d, m.bridge, Closed(c, accepts)).lease.owner
            == if m.bridge.lease.owner == Some(m.bridge.registry.deviceOf[c]) then None else m.bridge.lease.owner
  {
    CleanupOk(d, m.bridge.registry, m.bridge.lease, c, m.epoch);
  }

  /**
    Closing a connection takes the lease from whichever session holds it under the same device
    id, its own replacement included: a session keeps the lease through the teardown of another
    exactly if the two have different ids.
   */
  lemma TeardownTakesLeaseIff(d: J.Depths, events: seq<Event>, c: Conn, accepts: bool)
    requires d.Valid() && c in Run(d, events).bridge.registry.deviceOf
    requires Run(d, events).bridge.lease.owner.Some?
    ensures var b := Run(d, events).bridge;
            (Step(d, b, Closed(c, accepts)).lease.owner == b.lease.owner
             <==> b.lease.owner.value != b.registry.deviceOf[c])
    ensures Step(d, Run(d, events).bridge, Closed(c, accepts)).lease.owner
            in {None, Run(d, events).bridge.lease.owner}
  {
    ClosedOwner(d, Run(d, events), c, accepts);
  }

  /**
    So a current session can lose the lease though nobody gave it up, claimed or outwaited it:
    `c` is replaced by `late`, which claims the lease before the task of `c` winds up.
   */
  lemma ReplacementLosesLease(d: J.Depths, m: Moment, c: Conn, late: Conn, accepts: bool)
    requires Inv(d, m) && IsRegistered(m.bridge.registry, c) && late !in m.bridge.registry.deviceOf
    requires m.bridge.lease.owner in {None, Some(m.bridge.registry.deviceOf[c])}
    ensures var id := m.bridge.registry.deviceOf[c];
            var replaced := Next(d, m, Connected(late, id, accepts));
            && Inv(d, replaced)
            && var claimed := Next(d, replaced, Claimed(late, true));
               && Inv(d, claimed)
               && claimed.bridge.lease.owner == Some(id) && IsCurrent(claimed.bridge.registry, late)
               && var closed := Next(d, claimed, Closed(c, accepts));
                  closed.bridge.lease.owner == None && IsCurrent(closed.bridge.registry, late)
  {
    var id := m.bridge.registry.deviceOf[c];
    var replaced := Next(d, m, Connected(late, id, accepts));
    NextKeepsInv(d, m, Connected(late, id, accepts));
    RegisterKeepsInv(m.bridge.registry, late, id);
    CurrentIsRegistered(replaced.bridge.registry, late);
    ReplacedFrees(d, m, late, id, accepts);
    ClaimThenClose(d, replaced, c, late, accepts);
  }

  lemma ReplacedFrees(d: J.Depths, m: Moment, late: Conn, id: DeviceId, accepts: bool)
    requires Inv(d, m) && late !in m.bridge.registry.deviceOf && m.bridge.lease.owner in {None, Some(id)}
    ensures ConnectLease(m.bridge.registry, m.bridge.lease, late, id).owner == None
  {
    var r, l := m.bridge.registry, m.bridge.lease;
    if l.owner == Some(id) {
      ReplacingOwnerOk(d, r, l, late, id, m.epoch);
    } else {
      NewSessionOk(d, r, l, late, id, m.epoch);
      if Get(r, id).Some? {
        CleanupOk(d, AfterRegister(r, late, id), Entered(l, late), r.byId[id], m.epoch);
      }
    }
  }

  lemma ClaimTakes(d: J.Depths, m: Moment, late: Conn)
    requires Inv(d, m) && m.bridge.lease.owner == None && IsCurrent(m.bridge.registry, late)
    ensures var claimed := Next(d, m, Claimed(late, true));
            && Inv(d, claimed)
            && claimed.bridge.lease.owner == Some(m.bridge.registry.deviceOf[late])
            && claimed.bridge.registry == m.bridge.registry
  {
    NextKeepsInv(d, m, Claimed(late, true));
    SetLeaseOk(d, m.bridge.registry, m.bridge.lease, late, m.epoch);
  }

  lemma CloseTakes(d: J.Depths, m: Moment, c: Conn, late: Conn, accepts: bool)
    requires Inv(d, m) && IsCurrent(m.bridge.registry, late) && c != late && c in m.bridge.registry.deviceOf
    requires m.bridge.lease.owner == Some(m.bridge.registry.deviceOf[c])
    ensures var closed := Next(d, m, Closed(c, accepts));
            closed.bridge.lease.owner == None && IsCurrent(closed.bridge.registry, late)
  {
    var r := m.bridge.registry;
    CleanupOk(d, r, m.bridge.lease, c, m.epoch);
    RemoveKeepsInv(r, c);
    CurrentIsRegistered(AfterRemove(r, c), late);
  }

  lemma ClaimThenClose(d: J.Depths, m: Moment, c: Conn, late: Conn, accepts: bool)
    requires Inv(d, m) && m.bridge.lease.owner == None && IsCurrent(m.bridge.registry, late)
    requires c != late && c in m.bridge.registry.deviceOf
    requires m.bridge.registry.deviceOf[c] == m.bridge.registry.deviceOf[late]
    ensures var claimed := Next(d, m, Claimed(late, true));
            && Inv(d, claimed)
            && claimed.bridge.lease.owner == Some(m.bridge.registry.deviceOf[c])
            && claimed.bridge.registry == m.bridge.registry
            && var closed := Next(d, claimed, Closed(c, accepts));
               closed.bridge.lease.owner == None && IsCurrent(closed.bridge.registry, late)
  {
    ClaimTakes(d, m, late);
    CloseTakes(d, Next(d, m, Claimed(late, true)), c, late, accepts);
  }
}
