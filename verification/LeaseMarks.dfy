/**
  Whether each session's own lease state says what the bridge does (bridge/agent/cardbridge/server.py).
  The owner's always does. One event makes another session's lie: the late teardown of a session whose
  replacement holds the lease takes the lease, and leaves the replacement's state as it was.
 */
module LeaseMarks {
  import opened Common
  import opened Devices
  import K = KeyArbitration
  import J = JitterBuffers
  import opened AudioLease
  import opened Bridges

  predicate IsOwner(r: Registry, l: Lease, c: Conn)
    requires c in r.deviceOf
  {
    l.owner == Some(r.deviceOf[c])
  }

  /** A registered session says that it owns the lease exactly if it does. */
  ghost predicate MarksAgree(r: Registry, l: Lease) {
    forall c :: IsRegistered(r, c) ==> (c in l.marked <==> IsOwner(r, l, c))
  }

  /** The task of a replaced session winds up while the lease is held under its id. */
  predicate IsLateTeardown(b: Bridge, ev: Event) {
    ev.Closed? && ev.c in b.registry.deviceOf && !IsRegistered(b.registry, ev.c) && IsOwner(b.registry, b.lease, ev.c)
  }

  // ---- The calls -------------------------------------------------------------------------

  lemma SetLeaseMarks(r: Registry, l: Lease, c: Conn)
    requires Devices.Inv(r) && OwnerOk(r, l) && IsRegistered(r, c) && MarksAgree(r, l)
    ensures MarksAgree(r, SetLease(r, l, c))
  {
    if OwnerSession(r, l) != Some(c) {
      TakeoverShape(r, l, c);
    }
  }

  lemma FreedMarks(r: Registry, l: Lease, c: Conn)
    requires Devices.Inv(r) && MarksAgree(r, l)
    requires forall x :: IsRegistered(r, x) && IsOwner(r, l, x) ==> x == c
    ensures MarksAgree(r, Freed(l, c))
  {
    FreedShape(l, c);
  }

  lemma ReleaseMarks(r: Registry, l: Lease, only: Option<Conn>)
    requires Devices.Inv(r) && OwnerOk(r, l) && MarksAgree(r, l)
    ensures MarksAgree(r, ReleaseLease(r, l, only))
  {
    var owner := OwnerSession(r, l);
    if owner.Some? {
      FreedMarks(r, l, owner.value);
    }
  }

  lemma CleanupShape(r: Registry, l: Lease, c: Conn)
    requires Devices.Inv(r) && OwnerOk(r, l) && c in r.deviceOf
    ensures var s, isOwners := CleanupLease(r, l, c), IsOwner(r, l, c);
            && s.owner == (if isOwners then None else l.owner)
            && s.marked == if isOwners then l.marked - {c} else l.marked
  {
    FreedShape(l, c);
  }

  lemma OtherOwner(r: Registry, l: Lease, c: Conn)
    requires Devices.Inv(r) && OwnerOk(r, l) && c in r.deviceOf && !IsRegistered(r, c) && IsOwner(r, l, c)
    ensures var x := r.byId[l.owner.value];
            IsRegistered(r, x) && x != c && x in l.marked && r.deviceOf[x] == r.deviceOf[c]
  {
    CurrentIsRegistered(r, r.byId[l.owner.value]);
  }

  lemma TeardownMarks(r: Registry, l: Lease, c: Conn)
    requires Devices.Inv(r) && OwnerOk(r, l) && c in r.deviceOf && MarksAgree(r, l)
    ensures MarksAgree(AfterRemove(r, c), CleanupLease(r, l, c)) <==> IsRegistered(r, c) || !IsOwner(r, l, c)
  {
    CleanupShape(r, l, c);
    RemoveKeepsInv(r, c);
    if !IsRegistered(r, c) && IsOwner(r, l, c) {
      OtherOwner(r, l, c);
    }
  }

  lemma ConnectMarks(r: Registry, l: Lease, c: Conn, id: DeviceId)
    requires Devices.Inv(r) && OwnerOk(r, l) && c !in r.deviceOf && MarksAgree(r, l)
    ensures MarksAgree(AfterRegister(r, c, id), ConnectLease(r, l, c, id))
  {
    var known := Entered(l, c);
    RegisterKeepsInv(r, c, id);
    if l.owner == Some(id) {
      ReplacedIsFreed(r, l, c, id);
      FreedShape(known, r.byId[id]);
    }
  }

  // ---- The events ------------------------------------------------------------------------

  lemma AudioMarks(d: J.Depths, m: Moment, ev: Event)
    requires Bridges.Inv(d, m) && J.Inv(d, Active(m.bridge.lease)) && IsAudioEvent(ev)
    requires MarksAgree(m.bridge.registry, m.bridge.lease)
    ensures MarksAgree(m.bridge.registry, LeaseAfter(d, m.bridge.registry, m.bridge.lease, ev))
  {
    var r, l := m.bridge.registry, m.bridge.lease;
    match ev
    case Claimed(c, _) =>
      if IsCurrent(r, c) {
        SetLeaseMarks(r, l, c);
      }
    case GivenUp(c, _) =>
      GiveUpIsRelease(r, l, c);
      ReleaseMarks(r, l, Some(c));
    case Checked(_) => ReleaseMarks(r, l, OwnerSession(r, l));
    case Datagram(c, _, _, _, _) =>
      if IsRegistered(r, c) {
        SetLeaseMarks(r, l, c);
      }
    case Callback(_, _) =>
  }

  /** The states of the sessions agree with the lease after an event exactly if it is no late teardown. */
  lemma MarksAgreeIff(d: J.Depths, m: Moment, ev: Event)
    requires Bridges.Inv(d, m) && MarksAgree(m.bridge.registry, m.bridge.lease)
    ensures var b := Next(d, m, ev).bridge;
            MarksAgree(b.registry, b.lease) <==> !IsLateTeardown(m.bridge, ev)
  {
    assert J.Inv(d, Active(m.bridge.lease));
    var r, l := m.bridge.registry, m.bridge.lease;
    if IsAudioEvent(ev) {
      AudioMarks(d, m, ev);
    } else {
      match ev
      case Connected(c, id, _) =>
        if c !in r.deviceOf {
          ConnectMarks(r, l, c, id);
        }
      case Unpaired(id, _, _) =>
        if id in r.byId {
          TeardownMarks(r, l, r.byId[id]);
        }
      case Closed(c, _) =>
        if c in r.deviceOf {
          TeardownMarks(r, l, c);
        }
      case Stopped(order, accepts) =>
      case KeyMessage(_, _, _, _, _) =>
    }
  }

  // ---- Runs ------------------------------------------------------------------------------

  ghost predicate AgreeAllAlong(d: J.Depths, events: seq<Event>)
    requires d.Valid()
  {
    var b := Run(d, events).bridge;
    MarksAgree(b.registry, b.lease) && (events == [] || AgreeAllAlong(d, events[..|events| - 1]))
  }

  predicate NoneIsLate(d: J.Depths, events: seq<Event>)
    requires d.Valid()
  {
    events == []
    || (NoneIsLate(d, events[..|events| - 1])
        && !IsLateTeardown(Run(d, events[..|events| - 1]).bridge, events[|events| - 1]))
  }

  lemma StartAgrees(d: J.Depths)
    requires d.Valid()
    ensures var b := Run(d, []).bridge; MarksAgree(b.registry, b.lease)
  {
  }

  lemma RunOfFront(d: J.Depths, events: seq<Event>)
    requires d.Valid() && events != []
    ensures Run(d, events) == Next(d, Run(d, events[..|events| - 1]), events[|events| - 1])
  {
  }

  /** The states of the sessions agree with the lease all along a run exactly if no event is a late teardown. */
  lemma {:induction false} RunAgreesIff(d: J.Depths, events: seq<Event>)
    requires d.Valid()
    ensures AgreeAllAlong(d, events) <==> NoneIsLate(d, events)
  {
    if events == [] {
      StartAgrees(d);
    } else {
      var front, last := events[..|events| - 1], events[|events| - 1];
      RunAgreesIff(d, front);
      RunOfFront(d, events);
      if AgreeAllAlong(d, front) {
        MarksAgreeIff(d, Run(d, front), last);
      }
    }
  }

  /** The owner's own state always says so. */
  lemma OwnerIsMarked(d: J.Depths, events: seq<Event>)
    requires d.Valid()
    ensures var b := Run(d, events).bridge;
            forall c :: IsRegistered(b.registry, c) && IsOwner(b.registry, b.lease, c) ==> c in b.lease.marked
  {
    var b := Run(d, events).bridge;
    forall c | IsRegistered(b.registry, c) && IsOwner(b.registry, b.lease, c) ensures c in b.lease.marked {
      assert b.registry.byId[b.lease.owner.value] == c;
    }
  }

  /** After a late teardown the replacement still says that it owns the lease, which is free. */
  lemma ReplacementStaysMarked(d: J.Depths, m: Moment, ev: Event)
    requires Bridges.Inv(d, m) && IsLateTeardown(m.bridge, ev)
    ensures var b, late := Next(d, m, ev).bridge, m.bridge.registry.byId[m.bridge.lease.owner.value];
            b.lease.owner == None && IsCurrent(b.registry, late) && late in b.lease.marked
  {
    var r, l := m.bridge.registry, m.bridge.lease;
    OtherOwner(r, l, ev.c);
    CleanupShape(r, l, ev.c);
    RemoveKeepsInv(r, ev.c);
    CurrentIsRegistered(AfterRemove(r, ev.c), r.byId[l.owner.value]);
  }
}
