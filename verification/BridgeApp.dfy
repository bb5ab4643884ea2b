/**
  `BridgeApp` itself, as far as it arbitrates the keyboard and the microphone.

  The public methods are the events of a run: each moves the object exactly as `Next` moves a
  moment, so what is proved of every run in `Bridge.dfy` holds of every use of the object.
  The dictionaries and buffer of a session are kept per connection.
 */
module BridgeApps {
  import opened Common
  import opened Devices
  import K = KeyArbitration
  import J = JitterBuffers
  import opened AudioLease
  import opened Bridges
  import opened LeaseLaws

  lemma PutTwice<T, U>(m: map<T, U>, key: T, first: U, second: U)
    ensures m[key := first][key := second] == m[key := second]
    ensures m[key := second] - {key} == m - {key}
  {
  }

  class BridgeApp {
    const depths: J.Depths
    const registry: DeviceRegistry
    var heldKeys: map<Conn, seq<K.Hold>>
    var keyOwners: map<K.Key, map<Conn, K.Modifiers>>
    var injectedModifiers: map<K.Key, K.Modifiers>
    var injections: seq<K.Injection>
    var buffers: map<Conn, J.Buffer>
    var ownBuffer: J.Buffer
    var reading: Option<Conn>
    var leaseOwnerId: Option<DeviceId>
    var window: seq<int>
    var lastAudioMs: map<Conn, int>
    var markedOwners: set<Conn>
    ghost var epoch: Epoch

    function Keys(): K.Keyboard
      reads this
    {
      K.Keyboard(heldKeys, keyOwners, injectedModifiers, injections)
    }

    function Mic(): Lease
      reads this
    {
      Lease(buffers, ownBuffer, reading, leaseOwnerId, window, lastAudioMs, markedOwners)
    }

    function Value(): Bridge
      reads this, registry
    {
      Bridge(registry.State(), Keys(), Mic())
    }

    ghost function State(): Moment
      reads this, registry
    {
      Moment(Value(), epoch)
    }

    ghost predicate Valid()
      reads this, registry
    {
      Bridges.Inv(depths, State())
    }

    constructor (depths: J.Depths)
      requires depths.Valid()
      ensures Valid() && fresh(registry) && this.depths == depths
      ensures State() == Moment(START, NEW)
    {
      this.depths := depths;
      registry := new DeviceRegistry();
      heldKeys, keyOwners, injectedModifiers, injections := map[], map[], map[], [];
      buffers, ownBuffer, reading, leaseOwnerId := map[], J.EMPTY, None, None;
      window, lastAudioMs, markedOwners, epoch := [], map[], {}, NEW;
      new;
      StartKeepsInv(depths);
    }

    // ---- Keys --------------------------------------------------------------------------

    /** `_handle_key`; `accepts` is the injector's answer. */
    method HandleKey(c: Conn, key: K.Key, action: string, modifiers: K.Modifiers, accepts: bool)
      modifies this`heldKeys, this`keyOwners, this`injectedModifiers, this`injections
      ensures Keys() == K.HandleKey(old(Keys()), c, key, action, modifiers, accepts)
    {
      if key == "" || |key| > K.MAX_KEY_LENGTH || (action != "down" && action != "up") {
        return;
      }
      if action == "down" {
        PressKey(c, key, modifiers, accepts);
      } else {
        ReleaseKey(c, key, accepts);
      }
    }

    method PressKey(c: Conn, key: K.Key, modifiers: K.Modifiers, accepts: bool)
      modifies this`heldKeys, this`keyOwners, this`injectedModifiers, this`injections
      ensures Keys() == K.PressKey(old(Keys()), c, key, modifiers, accepts)
    {
      var owners := if key in keyOwners then keyOwners[key] else map[];
      var held := if c in heldKeys then heldKeys[c] else [];
      keyOwners := keyOwners[key := owners];
      if K.Holds(held, key) {
        return;
      }
      if owners == map[] {
        injections := injections + [K.Injection(key, K.Down, modifiers, accepts)];
        if !accepts {
          return;
        }
        injectedModifiers := injectedModifiers[key := modifiers];
      }
      keyOwners := keyOwners[key := owners[c := modifiers]];
      heldKeys := heldKeys[c := held + [K.Hold(key, modifiers)]];
    }

    method ReleaseKey(c: Conn, key: K.Key, accepts: bool)
      modifies this`heldKeys, this`keyOwners, this`injectedModifiers, this`injections
      ensures Keys() == K.ReleaseKey(old(Keys()), c, key, accepts)
    {
      var owners := if key in keyOwners then keyOwners[key] else map[];
      var held := if c in heldKeys then heldKeys[c] else [];
      ghost var before := keyOwners;
      keyOwners := keyOwners[key := owners];
      var heldModifiers := K.Stored(held, key);
      if heldModifiers.None? {
        return;
      }
      heldKeys := heldKeys[c := K.Dropped(held, key)];
      var left := owners - {c};
      keyOwners := keyOwners[key := left];
      PutTwice(before, key, owners, left);
      if left == map[] {
        keyOwners := keyOwners - {key};
        InjectRelease(key, heldModifiers.value, accepts);
      }
    }

    /** The last owner has let go of the key. */
    method InjectRelease(key: K.Key, heldModifiers: K.Modifiers, accepts: bool)
      modifies this`injectedModifiers, this`injections
      ensures injectedModifiers == old(injectedModifiers) - {key}
      ensures var injected := if key in old(injectedModifiers) then old(injectedModifiers)[key] else heldModifiers;
              injections == old(injections) + [K.Injection(key, K.Up, K.ReleaseModifiers(key, injected), accepts)]
    {
      var injected := if key in injectedModifiers then injectedModifiers[key] else heldModifiers;
      injectedModifiers := injectedModifiers - {key};
      injections := injections + [K.Injection(key, K.Up, K.ReleaseModifiers(key, injected), accepts)];
    }

    method ReleaseSessionKeys(c: Conn, accepts: bool)
      modifies this`heldKeys, this`keyOwners, this`injectedModifiers, this`injections
      ensures Keys() == K.ReleaseSession(old(Keys()), c, accepts)
    {
      var items := K.HeldBy(Keys(), c);
      for i := 0 to |items|
        invariant K.ReleaseEach(Keys(), c, items[i..], accepts) == K.ReleaseSession(old(Keys()), c, accepts)
      {
        HandleKey(c, items[i].key, "up", items[i].modifiers, accepts);
        assert items[i..][1..] == items[i + 1..];
      }
    }

    // ---- The lease ---------------------------------------------------------------------

    /** Clears one buffer, which may be the one being read. */
    method ResetJitter(c: Conn)
      modifies this`buffers
      ensures Mic() == ResetBuffer(old(Mic()), c)
    {
      buffers := buffers[c := J.Cleared(if c in buffers then buffers[c] else J.EMPTY)];
    }

    method ResetAudioStream()
      modifies this`buffers, this`ownBuffer, this`window
      ensures Mic() == ResetStream(old(Mic()))
    {
      window := [];
      if reading.Some? {
        ResetJitter(reading.value);
      } else {
        ownBuffer := J.Cleared(ownBuffer);
      }
    }

    method AudioOwner() returns (owner: Option<Conn>)
      modifies this`leaseOwnerId
      ensures owner == OwnerSession(registry.State(), old(Mic()))
      ensures Mic() == Resolved(registry.State(), old(Mic()))
    {
      if leaseOwnerId.None? {
        return None;
      }
      owner := Get(registry.State(), leaseOwnerId.value);
      if owner.None? {
        leaseOwnerId := None;
      }
    }

    method SetAudioLease(c: Conn)
      requires c in registry.deviceOf
      modifies this`buffers, this`ownBuffer, this`reading, this`leaseOwnerId, this`window, this`markedOwners
      ensures Mic() == SetLease(registry.State(), old(Mic()), c)
    {
      var previous := AudioOwner();
      if previous == Some(c) {
        markedOwners := markedOwners + {c};
        return;
      }
      if previous.Some? {
        markedOwners := markedOwners - {previous.value};
        ResetJitter(previous.value);
      }
      ResetJitter(c);
      leaseOwnerId := Some(registry.deviceOf[c]);
      markedOwners := markedOwners + {c};
      ResetAudioStream();
      reading := Some(c);
    }

    method ReleaseAudioLease(only: Option<Conn>)
      modifies this`buffers, this`ownBuffer, this`leaseOwnerId, this`window, this`markedOwners
      ensures Mic() == ReleaseLease(registry.State(), old(Mic()), only)
    {
      var owner := AudioOwner();
      if owner.None? {
        return;
      }
      if only.Some? && owner != only {
        return;
      }
      FreeLease(owner.value);
    }

    method CleanupSession(c: Conn, accepts: bool)
      requires c in registry.deviceOf
      modifies this`heldKeys, this`keyOwners, this`injectedModifiers, this`injections
      modifies this`buffers, this`ownBuffer, this`leaseOwnerId, this`window, this`markedOwners
      ensures Keys() == K.ReleaseSession(old(Keys()), c, accepts)
      ensures Mic() == CleanupLease(registry.State(), old(Mic()), c)
    {
      ReleaseSessionKeys(c, accepts);
      CleanupAudio(c);
    }

    method CleanupAudio(c: Conn)
      requires c in registry.deviceOf
      modifies this`buffers, this`ownBuffer, this`leaseOwnerId, this`window, this`markedOwners
      ensures Mic() == CleanupLease(registry.State(), old(Mic()), c)
    {
      if leaseOwnerId == Some(registry.deviceOf[c]) {
        var current := Get(registry.State(), registry.deviceOf[c]);
        if current == Some(c) || current.None? {
          ReleaseAudioLease(Some(c));
        } else {
          FreeLease(c);
        }
      }
      ResetJitter(c);
    }

    /** The lease goes back, and `c` is the session that loses it. */
    method FreeLease(c: Conn)
      modifies this`buffers, this`ownBuffer, this`leaseOwnerId, this`window, this`markedOwners
      ensures Mic() == Freed(old(Mic()), c)
    {
      markedOwners := markedOwners - {c};
      ResetJitter(c);
      leaseOwnerId := None;
      ResetAudioStream();
    }

    /** The registration at the end of a handshake. */
    method Register(c: Conn, id: DeviceId, accepts: bool)
      requires Devices.Inv(registry.State())
      modifies this, registry
      ensures registry.State() == AfterRegister(old(registry.State()), c, id)
      ensures Keys() == (var previous := Get(old(registry.State()), id);
                         if previous.Some? then K.ReleaseSession(old(Keys()), previous.value, accepts) else old(Keys()))
      ensures Mic() == ConnectLease(old(registry.State()), old(Mic()), c, id)
      ensures epoch == old(epoch)
    {
      buffers, markedOwners := buffers[c := J.EMPTY], markedOwners - {c};
      var previous := registry.Register(c, id);
      if previous.Some? {
        CleanupSession(previous.value, accepts);
      }
    }

    method ClaimLease(c: Conn)
      requires c in registry.deviceOf
      modifies this`buffers, this`ownBuffer, this`reading, this`leaseOwnerId, this`window, this`markedOwners
      ensures Mic() == Claim(registry.State(), old(Mic()), c)
    {
      var owner := AudioOwner();
      if owner.Some? && owner.value != c {
        return;
      }
      SetAudioLease(c);
    }

    /** Only a current session with the capability may claim. */
    method TakeClaim(c: Conn, capable: bool)
      requires J.Inv(depths, Active(Mic()))
      modifies this`buffers, this`ownBuffer, this`reading, this`leaseOwnerId, this`window, this`markedOwners
      ensures Mic() == LeaseAfter(depths, registry.State(), old(Mic()), Claimed(c, capable))
    {
      if IsCurrent(registry.State(), c) && capable {
        ClaimLease(c);
      }
    }

    method FeedAudio(c: Conn, sequence: J.Sequence, payload: J.Frame, nowMs: int)
      requires c in registry.deviceOf
      modifies this`buffers, this`ownBuffer, this`reading, this`leaseOwnerId, this`window, this`markedOwners
      modifies this`lastAudioMs
      ensures Mic() == AudioLease.ReceiveAudio(depths, registry.State(), old(Mic()), c, sequence, payload, nowMs)
    {
      var id := registry.deviceOf[c];
      if leaseOwnerId.None? {
        SetAudioLease(c);
      } else if leaseOwnerId != Some(id) {
        ResetJitter(c);
      }
      buffers := buffers[c := J.AfterFeed(depths, BufferOf(Mic(), c), sequence, payload)];
      lastAudioMs := lastAudioMs[c := nowMs];
      if leaseOwnerId == Some(id) {
        reading := Some(c);
      }
    }

    /** Only a registered session with the capability is listened to. */
    method TakeDatagram(c: Conn, sequence: J.Sequence, payload: J.Frame, nowMs: int, capable: bool)
      requires J.Inv(depths, Active(Mic()))
      modifies this`buffers, this`ownBuffer, this`reading, this`leaseOwnerId, this`window, this`markedOwners
      modifies this`lastAudioMs
      ensures Mic() == LeaseAfter(depths, registry.State(), old(Mic()),
                                  Datagram(c, sequence, payload, nowMs, capable))
    {
      if IsRegistered(registry.State(), c) && capable {
        FeedAudio(c, sequence, payload, nowMs);
      }
    }

    method ReadAudio(count: nat, used: nat) returns (samples: seq<int>)
      requires depths.target >= 1 && (Active(Mic()).started ==> Active(Mic()).next.Some?)
      modifies this`buffers, this`ownBuffer, this`window
      ensures (Mic(), samples) == Output(depths, old(Mic()), count, used)
    {
      var (after, read) := J.Read(depths, Active(Mic()), count);
      samples := read;
      if reading.Some? {
        buffers := buffers[reading.value := after];
      } else {
        ownBuffer := after;
      }
      window := window + samples;
      window := if used <= |window| then window[used..] else [];
    }

    // ---- The events --------------------------------------------------------------------

    /** Records in the history what an event has done to the object. */
    ghost method Record(was: Moment, ev: Event)
      requires Bridges.Inv(depths, was)
      requires J.Inv(depths, Active(was.bridge.lease)) ==> Value() == Step(depths, was.bridge, ev)
      modifies this`epoch
      ensures Valid() && State() == Next(depths, was, ev)
    {
      assert J.Inv(depths, Active(was.bridge.lease));
      NextKeepsInv(depths, was, ev);
      epoch := Next(depths, was, ev).epoch;
      assert State() == Next(depths, was, ev);
    }

    /** Records an event that is about the microphone only. */
    ghost method RecordAudio(was: Moment, ev: Event)
      requires Bridges.Inv(depths, was) && IsAudioEvent(ev)
      requires registry.State() == was.bridge.registry && Keys() == was.bridge.keyboard
      requires J.Inv(depths, Active(was.bridge.lease)) ==>
                 Mic() == LeaseAfter(depths, was.bridge.registry, was.bridge.lease, ev)
      modifies this`epoch
      ensures Valid() && State() == Next(depths, was, ev)
    {
      Record(was, ev);
    }

    /** The new session replaces any of the same id. */
    method RegisterSession(c: Conn, id: DeviceId, accepts: bool)
      requires Valid() && c !in registry.deviceOf
      modifies this, registry
      ensures Valid() && State() == Next(depths, old(State()), Connected(c, id, accepts))
    {
      ghost var was := State();
      Register(c, id, accepts);
      Record(was, Connected(c, id, accepts));
    }

    method TeardownSession(c: Conn, accepts: bool)
      requires Valid() && c in registry.deviceOf
      modifies this, registry
      ensures Valid() && State() == Next(depths, old(State()), Closed(c, accepts))
    {
      ghost var was := State();
      CleanupSession(c, accepts);
      var _ := registry.Remove(c);
      Record(was, Closed(c, accepts));
    }

    method Unpair(id: DeviceId, wasPaired: bool, accepts: bool)
      requires Valid()
      modifies this, registry
      ensures Valid() && State() == Next(depths, old(State()), Unpaired(id, wasPaired, accepts))
    {
      var session := Get(registry.State(), id);
      if wasPaired && session.Some? {
        TeardownSession(session.value, accepts);
      }
    }

    method ReceiveKey(c: Conn, key: K.Key, action: string, modifiers: K.Modifiers, accepts: bool)
      requires Valid()
      modifies this
      ensures Valid() && State() == Next(depths, old(State()), KeyMessage(c, key, action, modifiers, accepts))
    {
      ghost var was := State();
      if IsCurrent(registry.State(), c) {
        HandleKey(c, key, action, modifiers, accepts);
      }
      Record(was, KeyMessage(c, key, action, modifiers, accepts));
    }

    method HandleAudioClaim(c: Conn, capable: bool)
      requires Valid()
      modifies this
      ensures Valid() && State() == Next(depths, old(State()), Claimed(c, capable))
      ensures var r := old(registry.State());
              if IsCurrent(r, c) && capable && old(leaseOwnerId) in {None, Some(r.deviceOf[c])}
              then leaseOwnerId == Some(r.deviceOf[c]) && reading == Some(c)
              else State().bridge == old(State()).bridge
    {
      ghost var was := State();
      assert J.Inv(depths, Active(Mic()));
      TakeClaim(c, capable);
      RecordAudio(was, Claimed(c, capable));
      ClaimLaw(depths, was, c, capable);
    }

    method HandleAudioRelease(c: Conn, capable: bool)
      requires Valid()
      modifies this
      ensures Valid() && State() == Next(depths, old(State()), GivenUp(c, capable))
    {
      ghost var was := State();
      if IsCurrent(registry.State(), c) && capable {
        var owner := AudioOwner();
        if owner == Some(c) {
          ReleaseAudioLease(Some(c));
        }
      }
      RecordAudio(was, GivenUp(c, capable));
    }

    method ExpireAudioLease(nowMs: int)
      requires Valid()
      modifies this
      ensures Valid() && State() == Next(depths, old(State()), Checked(nowMs))
    {
      ghost var was := State();
      var owner := AudioOwner();
      if owner.Some? {
        var last := if owner.value in lastAudioMs then lastAudioMs[owner.value] else 0;
        if last > 0 && nowMs - last > IDLE_MS {
          ReleaseAudioLease(owner);
        }
      }
      RecordAudio(was, Checked(nowMs));
    }

    /** `receive_audio`, for the registered session that authenticated the packet. */
    method ReceiveAudio(c: Conn, sequence: J.Sequence, payload: J.Frame, nowMs: int, capable: bool)
      requires Valid()
      modifies this
      ensures Valid() && State() == Next(depths, old(State()), Datagram(c, sequence, payload, nowMs, capable))
    {
      ghost var was := State();
      assert J.Inv(depths, Active(Mic()));
      TakeDatagram(c, sequence, payload, nowMs, capable);
      RecordAudio(was, Datagram(c, sequence, payload, nowMs, capable));
    }

    /** The output callback reads `count` samples and deletes `used` of those it holds. */
    method PlayAudio(count: nat, used: nat) returns (samples: seq<int>)
      requires Valid()
      modifies this
      ensures Valid() && State() == Next(depths, old(State()), Callback(count, used))
      ensures samples == J.Read(depths, old(Active(Mic())), count).1
    {
      ghost var was := State();
      assert J.Inv(depths, Active(Mic()));
      samples := ReadAudio(count, used);
      RecordAudio(was, Callback(count, used));
    }

    /** The end of the service: every registered session is cleaned up, in the given order. */
    method Stop(order: seq<Conn>, accepts: bool)
      requires Valid() && Enumerates(registry.State(), order)
      modifies this, registry
      ensures Valid() && State() == Next(depths, old(State()), Stopped(order, accepts))
    {
      ghost var was := State();
      EnumeratedAreKnown(registry.State(), order);
      EndService(order, accepts);
      Record(was, Stopped(order, accepts));
    }

    method EndService(order: seq<Conn>, accepts: bool)
      requires forall c :: c in order ==> c in registry.deviceOf
      modifies this, registry
      ensures registry.State() == AfterClear(old(registry.State()))
      ensures Keys() == K.ReleaseAll(old(Keys()), order, accepts).(owners := map[], injected := map[])
      ensures Mic() == ResetStream(CleanupLeases(registry.State(), old(Mic()), order).(owner := None))
      ensures epoch == old(epoch)
    {
      var _ := registry.Clear();
      CleanupSessions(order, accepts);
      keyOwners, injectedModifiers := map[], map[];
      ForgetLease();
    }

    method ForgetLease()
      modifies this`buffers, this`ownBuffer, this`leaseOwnerId, this`window
      ensures Mic() == ResetStream(old(Mic()).(owner := None))
    {
      leaseOwnerId := None;
      ResetAudioStream();
    }

    method CleanupSessions(order: seq<Conn>, accepts: bool)
      requires forall c :: c in order ==> c in registry.deviceOf
      modifies this`heldKeys, this`keyOwners, this`injectedModifiers, this`injections
      modifies this`buffers, this`ownBuffer, this`leaseOwnerId, this`window, this`markedOwners
      ensures Keys() == K.ReleaseAll(old(Keys()), order, accepts)
      ensures Mic() == CleanupLeases(registry.State(), old(Mic()), order)
    {
      for i := 0 to |order|
        invariant Keys() == K.ReleaseAll(old(Keys()), order[..i], accepts)
        invariant Mic() == CleanupLeases(registry.State(), old(Mic()), order[..i])
      {
        assert order[..i + 1][..i] == order[..i];
        CleanupSession(order[i], accepts);
      }
      assert order[..|order|] == order;
    }
  }
}
