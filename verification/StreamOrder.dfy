/**
  The order of what the audio output reads (bridge/agent/cardbridge/server.py and audio.py): within one
  epoch of the lease it is the frames pulled, one after the other and without a gap, except where a
  packet of the owner far behind makes its buffer start over and drop the rest of a frame.
 */
module StreamOrder {
  import opened Common
  import opened Devices
  import J = JitterBuffers
  import JitterRuns
  import opened AudioLease
  import opened Bridges

  /** How many frames were pulled, and samples read, when the buffer last dropped the rest of a frame. */
  datatype Cut = Cut(pulls: nat, samples: nat)

  /** What is on hand of a frame that was begun. */
  function OnHand(m: Moment): seq<int> {
    Active(m.bridge.lease).samples
  }

  function NextCut(m: Moment, n: Moment, ev: Event, cut: Cut): Cut {
    if ev.Callback? then cut
    else if m.bridge.lease.owner != n.bridge.lease.owner then Cut(0, 0)
    else if OnHand(m) == OnHand(n) then cut
    else Cut(|n.epoch.pulled|, |n.epoch.read|)
  }

  function CutAfter(d: J.Depths, events: seq<Event>): Cut
    requires d.Valid()
  {
    if events == [] then Cut(0, 0)
    else
      var front := events[..|events| - 1];
      NextCut(Run(d, front), Run(d, events), events[|events| - 1], CutAfter(d, front))
  }

  /** What was read since the cut, and what is on hand, are the frames pulled since, in order. */
  ghost predicate IsInOrder(e: Epoch, onHand: seq<int>, cut: Cut) {
    && cut.pulls <= |e.pulled| && cut.samples <= |e.read|
    && e.read[cut.samples..] + onHand == JitterRuns.Decode(e.pulled[cut.pulls..])
  }

  // ---- A callback ------------------------------------------------------------------------

  lemma ReadAndLeft(d: J.Depths, b: J.Buffer, count: nat)
    requires J.Inv(d, b)
    ensures J.Read(d, b, count).1 + J.Read(d, b, count).0.samples
            == b.samples + JitterRuns.Decode(J.Fill(d, b, count).1)
  {
    J.FillReaches(d, b, count);
    JitterRuns.FillDecodes(d, b, count);
    var full := J.Fill(d, b, count).0.samples;
    assert full[..count] + full[count..] == full;
  }

  lemma DropOfSum<T>(s: seq<T>, more: seq<T>, n: nat)
    requires n <= |s|
    ensures (s + more)[n..] == s[n..] + more
  {
  }

  lemma GoesOn(e: Epoch, onHand: seq<int>, cut: Cut, ps: seq<J.Pull>, samples: seq<int>, left: seq<int>)
    requires IsInOrder(e, onHand, cut) && samples + left == onHand + JitterRuns.Decode(ps)
    ensures IsInOrder(e.(pulled := e.pulled + ps, read := e.read + samples), left, cut)
  {
    var before := e.read[cut.samples..];
    DropOfSum(e.pulled, ps, cut.pulls);
    DropOfSum(e.read, samples, cut.samples);
    JitterRuns.DecodeAppends(e.pulled[cut.pulls..], ps);
    SumAssociates(before, onHand, JitterRuns.Decode(ps));
    SumAssociates(before, samples, left);
  }

  lemma CallbackGoesOn(d: J.Depths, l: Lease, e: Epoch, count: nat, used: nat, cut: Cut)
    requires J.Inv(d, Active(l)) && IsInOrder(e, Active(l).samples, cut)
    ensures IsInOrder(Listened(d, l, e, count), Active(Output(d, l, count, used).0).samples, cut)
  {
    var b := Active(l);
    OutputShape(d, l, count, used);
    ReadAndLeft(d, b, count);
    GoesOn(e, b.samples, cut, J.Fill(d, b, count).1, J.Read(d, b, count).1, J.Read(d, b, count).0.samples);
  }

  // ---- The other events ------------------------------------------------------------------

  /** What is on hand stays, or is dropped. */
  ghost predicate StaysOrGoes(l: Lease, s: Lease) {
    Active(s).samples == Active(l).samples || Active(s).samples == []
  }

  lemma ClearingDrops(l: Lease, s: Lease)
    requires OnlyClears(l, s) && s.reading == l.reading
    ensures StaysOrGoes(l, s)
  {
  }

  lemma CleanupDrops(r: Registry, l: Lease, c: Conn)
    requires c in r.deviceOf && CleanupLease(r, l, c).owner == l.owner
    ensures StaysOrGoes(l, CleanupLease(r, l, c))
  {
    if l.owner != Some(r.deviceOf[c]) {
      ResetBufferClears(l, c);
      ClearingDrops(l, ResetBuffer(l, c));
    }
  }

  lemma ConnectDrops(r: Registry, l: Lease, c: Conn, id: DeviceId)
    requires Devices.Inv(r) && OwnerOk(r, l) && c !in r.deviceOf && ConnectLease(r, l, c, id).owner == l.owner
    ensures StaysOrGoes(l, ConnectLease(r, l, c, id))
  {
    var known := Entered(l, c);
    assert Active(known) == Active(l);
    if Get(r, id).Some? {
      CleanupDrops(AfterRegister(r, c, id), known, r.byId[id]);
    }
  }

  lemma StopDrops(b: Bridge, order: seq<Conn>, accepts: bool)
    requires forall c :: c in order ==> c in b.registry.deviceOf
    ensures StaysOrGoes(b.lease, Stop(b, order, accepts).lease)
  {
    var clean := CleanupLeases(AfterClear(b.registry), b.lease, order).(owner := None);
    ResetStreamClears(clean);
  }

  /** A packet of the owner so far behind that its buffer starts over. */
  predicate Resyncs(d: J.Depths, r: Registry, l: Lease, ev: Event) {
    && ev.Datagram? && ev.capable && IsRegistered(r, ev.c) && l.owner == Some(r.deviceOf[ev.c])
    && J.IsBehind(Active(l), ev.sequence) && !J.IsLate(d, Active(l), ev.sequence)
  }

  lemma FeedDropsIff(d: J.Depths, b: J.Buffer, q: J.Sequence, f: J.Frame)
    ensures J.AfterFeed(d, b, q, f).samples == if J.IsBehind(b, q) && !J.IsLate(d, b, q) then [] else b.samples
  {
  }

  lemma OwnerFeedDrops(d: J.Depths, r: Registry, l: Lease, ev: Event)
    requires OwnerOk(r, l) && ev.Datagram? && ev.capable && IsRegistered(r, ev.c) && l.owner == Some(r.deviceOf[ev.c])
    ensures var s := ReceiveAudio(d, r, l, ev.c, ev.sequence, ev.payload, ev.nowMs);
            Active(s).samples == if Resyncs(d, r, l, ev) then [] else Active(l).samples
  {
    FeedDropsIff(d, BufferOf(l, ev.c), ev.sequence, ev.payload);
  }

  lemma OtherFeedKeeps(d: J.Depths, r: Registry, l: Lease, c: Conn, q: J.Sequence, f: J.Frame, nowMs: int)
    requires Devices.Inv(r) && OwnerOk(r, l) && IsRegistered(r, c)
    requires l.owner.Some? && l.owner != Some(r.deviceOf[c])
    ensures Active(ReceiveAudio(d, r, l, c, q, f, nowMs)) == Active(l)
  {
  }

  lemma SetLeaseKeeps(d: J.Depths, r: Registry, l: Lease, c: Conn, e: Epoch)
    requires AudioLease.Inv(d, r, l, e) && IsRegistered(r, c) && SetLease(r, l, c).owner == l.owner
    ensures SetLease(r, l, c) == l
  {
    SetLeaseOk(d, r, l, c, e);
  }

  lemma ReleaseKeeps(d: J.Depths, r: Registry, l: Lease, only: Option<Conn>, e: Epoch)
    requires AudioLease.Inv(d, r, l, e) && ReleaseLease(r, l, only).owner == l.owner
    ensures ReleaseLease(r, l, only) == l
  {
    ReleaseOk(d, r, l, only, e);
  }

  /** While the lease keeps its owner, an audio event drops what is on hand only if it resynchronises. */
  lemma AudioDrops(d: J.Depths, m: Moment, ev: Event)
    requires Bridges.Inv(d, m) && J.Inv(d, Active(m.bridge.lease)) && IsAudioEvent(ev) && !ev.Callback?
    requires LeaseAfter(d, m.bridge.registry, m.bridge.lease, ev).owner == m.bridge.lease.owner
    ensures var r, l := m.bridge.registry, m.bridge.lease;
            Active(LeaseAfter(d, r, l, ev)).samples == if Resyncs(d, r, l, ev) then [] else Active(l).samples
  {
    var r, l, e := m.bridge.registry, m.bridge.lease, m.epoch;
    match ev
    case Claimed(c, _) =>
      if IsCurrent(r, c) && LeaseAfter(d, r, l, ev) != l {
        SetLeaseKeeps(d, r, l, c, e);
      }
    case GivenUp(c, _) =>
      GiveUpIsRelease(r, l, c);
      if IsCurrent(r, c) && ev.capable {
        ReleaseKeeps(d, r, l, Some(c), e);
      }
    case Checked(_) =>
      if LeaseAfter(d, r, l, ev) != l {
        ReleaseKeeps(d, r, l, OwnerSession(r, l), e);
      }
    case Datagram(c, q, f, nowMs, _) => DatagramDrops(d, m, ev);
  }

  lemma DatagramDrops(d: J.Depths, m: Moment, ev: Event)
    requires Bridges.Inv(d, m) && J.Inv(d, Active(m.bridge.lease)) && ev.Datagram?
    requires LeaseAfter(d, m.bridge.registry, m.bridge.lease, ev).owner == m.bridge.lease.owner
    ensures var r, l := m.bridge.registry, m.bridge.lease;
            Active(LeaseAfter(d, r, l, ev)).samples == if Resyncs(d, r, l, ev) then [] else Active(l).samples
  {
    var r, l := m.bridge.registry, m.bridge.lease;
    if IsRegistered(r, ev.c) && ev.capable {
      if l.owner == Some(r.deviceOf[ev.c]) {
        OwnerFeedDrops(d, r, l, ev);
      } else if l.owner.Some? {
        OtherFeedKeeps(d, r, l, ev.c, ev.sequence, ev.payload, ev.nowMs);
      } else {
        SetLeaseOk(d, r, l, ev.c, m.epoch);
      }
    }
  }

  lemma EventDrops(d: J.Depths, m: Moment, ev: Event)
    requires Bridges.Inv(d, m) && !ev.Callback? && Next(d, m, ev).bridge.lease.owner == m.bridge.lease.owner
    ensures StaysOrGoes(m.bridge.lease, Next(d, m, ev).bridge.lease)
  {
    assert J.Inv(d, Active(m.bridge.lease));
    var r, l := m.bridge.registry, m.bridge.lease;
    if IsAudioEvent(ev) {
      AudioDrops(d, m, ev);
    } else {
      match ev
      case Connected(c, id, _) =>
        if c !in r.deviceOf {
          ConnectDrops(r, l, c, id);
        }
      case Unpaired(id, wasPaired, _) =>
        if wasPaired && id in r.byId {
          CleanupDrops(r, l, r.byId[id]);
        }
      case Closed(c, _) =>
        if c in r.deviceOf {
          CleanupDrops(r, l, c);
        }
      case Stopped(order, accepts) =>
        if Enumerates(r, order) {
          EnumeratedAreKnown(r, order);
          StopDrops(m.bridge, order, accepts);
        }
      case KeyMessage(_, _, _, _, _) =>
    }
  }

  // ---- Every run -------------------------------------------------------------------------

  lemma OthersReadNothing(d: J.Depths, m: Moment, ev: Event, after: Lease)
    requires J.Inv(d, Active(m.bridge.lease)) && !ev.Callback?
    ensures var h := NextHistory(d, m, ev, after);
            && h.pulled == (if after.owner == m.bridge.lease.owner then m.epoch.pulled else [])
            && h.read == (if after.owner == m.bridge.lease.owner then m.epoch.read else [])
  {
  }

  lemma NextIsInOrder(d: J.Depths, m: Moment, ev: Event, cut: Cut)
    requires Bridges.Inv(d, m) && IsInOrder(m.epoch, OnHand(m), cut)
    ensures var n := Next(d, m, ev); IsInOrder(n.epoch, OnHand(n), NextCut(m, n, ev, cut))
  {
    assert J.Inv(d, Active(m.bridge.lease));
    var n := Next(d, m, ev);
    if ev.Callback? {
      CallbackGoesOn(d, m.bridge.lease, m.epoch, ev.count, ev.used, cut);
    } else {
      NextKeepsInv(d, m, ev);
      OthersReadNothing(d, m, ev, n.bridge.lease);
      if n.bridge.lease.owner == m.bridge.lease.owner {
        EventDrops(d, m, ev);
      }
    }
  }

  /** In every run, what was read since the last cut, and what is on hand, are the frames pulled since, in order. */
  lemma {:induction false} StreamIsInOrder(d: J.Depths, events: seq<Event>)
    requires d.Valid()
    ensures IsInOrder(Run(d, events).epoch, OnHand(Run(d, events)), CutAfter(d, events))
  {
    if events != [] {
      var front, last := events[..|events| - 1], events[|events| - 1];
      StreamIsInOrder(d, front);
      NextIsInOrder(d, Run(d, front), last, CutAfter(d, front));
    }
  }

  /**
    So whatever a callback reads after any run, together with all that was read since the last cut, is
    a prefix of the frames pulled since the cut, one after the other, and these are the owner's.
   */
  lemma ReadsAreContiguous(d: J.Depths, events: seq<Event>, count: nat)
    requires d.Valid()
    ensures var m, cut := Run(d, events), CutAfter(d, events);
            && J.Inv(d, Active(m.bridge.lease))
            && cut.pulls <= |m.epoch.pulled| && cut.samples <= |m.epoch.read|
            && var b := Active(m.bridge.lease);
               var frames := m.epoch.pulled[cut.pulls..] + J.Fill(d, b, count).1;
               && m.epoch.read[cut.samples..] + J.Read(d, b, count).1 <= JitterRuns.Decode(frames)
               && IsOwnersStream(d, events, frames)
  {
    var m, cut := Run(d, events), CutAfter(d, events);
    var b := Active(m.bridge.lease);
    assert J.Inv(d, b);
    StreamIsInOrder(d, events);
    CallbackGoesOn(d, m.bridge.lease, m.epoch, count, 0, cut);
    OutputShape(d, m.bridge.lease, count, 0);
    DropOfSum(m.epoch.pulled, J.Fill(d, b, count).1, cut.pulls);
    DropOfSum(m.epoch.read, J.Read(d, b, count).1, cut.samples);
    PullsAreFed(d, b, count, m.epoch.pulled[cut.pulls..], m.epoch.fed);
    FedIsOwnersStream(d, events, m.epoch.pulled[cut.pulls..] + J.Fill(d, b, count).1);
  }

  lemma CleanupKeeps(r: Registry, l: Lease, c: Conn)
    requires Devices.Inv(r) && l.owner.Some? && c in r.deviceOf && CleanupLease(r, l, c).owner == l.owner
    requires l.reading.Some? && l.reading.value in r.deviceOf && l.owner == Some(r.deviceOf[l.reading.value])
    ensures Active(CleanupLease(r, l, c)) == Active(l)
  {
    if l.owner == Some(r.deviceOf[c]) {
      CleanupFrees(r, l, c);
    }
  }

  lemma CleanupFrees(r: Registry, l: Lease, c: Conn)
    requires c in r.deviceOf && l.owner == Some(r.deviceOf[c])
    ensures CleanupLease(r, l, c).owner == None
  {
  }

  lemma ConnectKeeps(d: J.Depths, r: Registry, l: Lease, c: Conn, id: DeviceId, e: Epoch)
    requires AudioLease.Inv(d, r, l, e) && c !in r.deviceOf && l.owner.Some?
    requires ConnectLease(r, l, c, id).owner == l.owner
    ensures Active(ConnectLease(r, l, c, id)) == Active(l)
  {
    var known := Entered(l, c);
    RegisterKeepsInv(r, c, id);
    assert Active(known) == Active(l);
    if l.owner == Some(id) {
      ReplacingOwnerOk(d, r, l, c, id, e);
    } else if Get(r, id).Some? {
      CleanupKeeps(AfterRegister(r, c, id), known, r.byId[id]);
    }
  }

  lemma EventKeeps(d: J.Depths, m: Moment, ev: Event)
    requires Bridges.Inv(d, m) && m.bridge.lease.owner.Some? && !IsAudioEvent(ev)
    requires Next(d, m, ev).bridge.lease.owner == m.bridge.lease.owner
    ensures OnHand(Next(d, m, ev)) == OnHand(m)
  {
    assert J.Inv(d, Active(m.bridge.lease));
    var r, l := m.bridge.registry, m.bridge.lease;
    match ev
    case Connected(c, id, _) =>
      if c !in r.deviceOf {
        ConnectKeeps(d, r, l, c, id, m.epoch);
      }
    case Unpaired(id, wasPaired, _) =>
      if wasPaired && id in r.byId {
        CleanupKeeps(r, l, r.byId[id]);
      }
    case Closed(c, _) =>
      if c in r.deviceOf {
        CleanupKeeps(r, l, c);
      }
    case Stopped(order, accepts) =>
      if Enumerates(r, order) {
        EnumeratedAreKnown(r, order);
        StopFrees(m.bridge, order, accepts);
      }
    case KeyMessage(_, _, _, _, _) =>
  }

  /** While a session owns the lease, the stream is cut exactly when its buffer starts over in the middle of a frame. */
  lemma CutsIff(d: J.Depths, m: Moment, ev: Event)
    requires Bridges.Inv(d, m) && m.bridge.lease.owner.Some? && !ev.Callback?
    requires Next(d, m, ev).bridge.lease.owner == m.bridge.lease.owner
    ensures OnHand(Next(d, m, ev)) != OnHand(m)
            <==> OnHand(m) != [] && Resyncs(d, m.bridge.registry, m.bridge.lease, ev)
  {
    assert J.Inv(d, Active(m.bridge.lease));
    if IsAudioEvent(ev) {
      AudioDrops(d, m, ev);
    } else {
      EventKeeps(d, m, ev);
    }
  }
}
