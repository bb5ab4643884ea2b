/**
  What key messages achieve (bridge/agent/cardbridge/server.py): who holds which key after a message,
  with which modifiers, what the injector is told, and what that comes to over every run of the bridge.
 */
module KeyLaws {
  import opened Common
  import opened Devices
  import K = KeyArbitration
  import J = JitterBuffers
  import AudioLease
  import opened Bridges

  predicate HoldsKey(k: K.Keyboard, c: Conn, key: K.Key) {
    K.Holds(K.HeldBy(k, c), key)
  }

  ghost predicate IsHeldBySome(k: K.Keyboard, key: K.Key) {
    exists c :: HoldsKey(k, c, key)
  }

  ghost predicate IsHeldByOther(k: K.Keyboard, c: Conn, key: K.Key) {
    exists s :: s != c && HoldsKey(k, s, key)
  }

  lemma HolderOwns(k: K.Keyboard, c: Conn, key: K.Key)
    requires K.Inv(k)
    ensures HoldsKey(k, c, key) <==> c in K.OwnersOf(k, key)
    ensures HoldsKey(k, c, key) ==> K.Grip(k, c, key) == Some(K.OwnersOf(k, key)[c])
  {
    assert K.OwnersAgree(k, key);
    assert K.Grip(k, c, key).Some? <==> c in K.OwnersOf(k, key);
  }

  lemma SomeOwns(k: K.Keyboard, key: K.Key)
    requires K.Inv(k)
    ensures IsHeldBySome(k, key) <==> K.OwnersOf(k, key) != map[]
  {
    if K.OwnersOf(k, key) != map[] {
      var c :| c in K.OwnersOf(k, key);
      HolderOwns(k, c, key);
    }
    if c :| HoldsKey(k, c, key) {
      HolderOwns(k, c, key);
    }
  }

  lemma OtherOwns(k: K.Keyboard, c: Conn, key: K.Key)
    requires K.Inv(k)
    ensures IsHeldByOther(k, c, key) <==> K.OwnersOf(k, key) - {c} != map[]
  {
    var left := K.OwnersOf(k, key) - {c};
    if left != map[] {
      var s :| s in left;
      HolderOwns(k, s, key);
    }
    if s :| s != c && HoldsKey(k, s, key) {
      HolderOwns(k, s, key);
      assert s in left;
    }
  }

  // ---- One message -----------------------------------------------------------------------

  /** A press: `c` holds the key after it if it did, if some session does, or if the injector takes the press. */
  lemma DownLaw(k: K.Keyboard, c: Conn, key: K.Key, mods: K.Modifiers, accepts: bool)
    requires K.Inv(k) && 0 < |key| <= 64
    ensures var r := K.HandleKey(k, c, key, "down", mods, accepts);
            && (HoldsKey(r, c, key) <==> HoldsKey(k, c, key) || IsHeldBySome(k, key) || accepts)
            && (HoldsKey(r, c, key) ==>
                  K.Grip(r, c, key) == if HoldsKey(k, c, key) then K.Grip(k, c, key) else Some(mods))
            && r.log == k.log + if IsHeldBySome(k, key) then [] else [K.Injection(key, K.Down, mods, accepts)]
  {
    SomeOwns(k, key);
    K.PressKeepsInv(k, c, key, mods, accepts);
    HolderOwns(k, c, key);
    HolderOwns(K.PressKey(k, c, key, mods, accepts), c, key);
  }

  /** A release: `c` does not hold the key after it, and it goes up if nobody else does. */
  lemma UpLaw(k: K.Keyboard, c: Conn, key: K.Key, mods: K.Modifiers, accepts: bool)
    requires K.Inv(k) && 0 < |key| <= 64
    ensures var r := K.HandleKey(k, c, key, "up", mods, accepts);
            && !HoldsKey(r, c, key)
            && (if HoldsKey(k, c, key) && !IsHeldByOther(k, c, key)
                then K.PressedWith(k.log, key).Some?
                     && r.log
                        == k.log + [K.Injection(key, K.Up, Released(key, K.PressedWith(k.log, key).value), accepts)]
                else r.log == k.log)
  {
    var r := K.ReleaseKey(k, c, key, accepts);
    HolderOwns(k, c, key);
    OtherOwns(k, c, key);
    K.ReleaseKeepsInv(k, c, key, accepts);
    HolderOwns(r, c, key);
    ReleasedOwner(k, c, key, accepts);
    assert K.InjectedAgrees(k, key);
    if HoldsKey(k, c, key) && !IsHeldByOther(k, c, key) {
      ReleasedIsFiltered(key, K.PressedWith(k.log, key).value);
    }
  }

  lemma ReleasedOwner(k: K.Keyboard, c: Conn, key: K.Key, accepts: bool)
    requires K.Inv(k)
    ensures c !in K.OwnersOf(K.ReleaseKey(k, c, key, accepts), key)
  {
    HolderOwns(k, c, key);
  }

  /** The modifiers of a release: those of the press, in order, without a modifier's own. */
  function Released(key: K.Key, mods: K.Modifiers): K.Modifiers {
    if key in {"cmd", "shift", "alt", "ctrl"} then Filtered(mods, key) else mods
  }

  function Filtered(mods: K.Modifiers, key: K.Key): (r: K.Modifiers)
    ensures key !in r && forall m :: m != key ==> multiset(r)[m] == multiset(mods)[m]
  {
    if mods == [] then []
    else
      assert mods == mods[..|mods| - 1] + [mods[|mods| - 1]];
      Filtered(mods[..|mods| - 1], key) + if mods[|mods| - 1] == key then [] else [mods[|mods| - 1]]
  }

  lemma {:induction false} FilteredFromFront(mods: K.Modifiers, key: K.Key)
    requires mods != []
    ensures Filtered(mods, key) == (if mods[0] == key then [] else [mods[0]]) + Filtered(mods[1..], key)
  {
    var n := |mods| - 1;
    if n > 0 {
      FilteredFromFront(mods[..n], key);
      assert mods[..n][1..] == mods[1..][..n - 1] && mods[1..][n - 1] == mods[n];
      SumAssociates(if mods[0] == key then [] else [mods[0]], Filtered(mods[1..][..n - 1], key),
                    if mods[n] == key then [] else [mods[n]]);
    }
  }

  lemma {:induction false} WithoutIsFiltered(mods: K.Modifiers, key: K.Key)
    ensures K.Without(mods, key) == Filtered(mods, key)
  {
    if mods != [] {
      WithoutIsFiltered(mods[1..], key);
      FilteredFromFront(mods, key);
    }
  }

  lemma ReleasedIsFiltered(key: K.Key, mods: K.Modifiers)
    ensures K.ReleaseModifiers(key, mods) == Released(key, mods)
  {
    WithoutIsFiltered(mods, key);
  }

  /** A message that names no key, a name too long, or another action changes nothing. */
  lemma BadMessageLaw(k: K.Keyboard, c: Conn, key: K.Key, action: string, mods: K.Modifiers, accepts: bool)
    requires key == "" || |key| > 64 || (action != "down" && action != "up")
    ensures K.HandleKey(k, c, key, action, mods, accepts) == k
  {
  }

  // ---- Every run -------------------------------------------------------------------------

  predicate IsMessageOf(ev: Event, c: Conn, key: K.Key) {
    ev.KeyMessage? && ev.c == c && ev.key == key && 0 < |key| <= 64 && (ev.action == "down" || ev.action == "up")
  }

  /**
    How `c` holds `key` after the events, told from the messages alone: since it was last registered,
    its last press that counted, with no release after it. A press counts if some session held the
    key, or the injector took it.
   */
  ghost function HeldAfter(d: J.Depths, events: seq<Event>, c: Conn, key: K.Key): Option<K.Modifiers>
    requires d.Valid()
    decreases |events|, 0
  {
    if events == [] || !IsRegistered(Run(d, events).bridge.registry, c) then None
    else
      var front, ev := events[..|events| - 1], events[|events| - 1];
      if !IsMessageOf(ev, c, key) then HeldAfter(d, front, c, key)
      else if ev.action == "up" then None
      else if HeldAfter(d, front, c, key).Some? then HeldAfter(d, front, c, key)
      else if ev.accepts || IsHeldAfter(d, front, key) then Some(ev.modifiers)
      else None
  }

  ghost predicate IsHeldAfter(d: J.Depths, events: seq<Event>, key: K.Key)
    requires d.Valid()
    decreases |events|, 1
  {
    exists s: Conn :: HeldAfter(d, events, s, key).Some?
  }

  /** The keyboard before and after an event that is no message of `c` about `key`, if `c` is still registered. */
  lemma OthersKeepGrip(d: J.Depths, m: Moment, ev: Event, c: Conn, key: K.Key)
    requires Bridges.Inv(d, m) && !IsMessageOf(ev, c, key)
    requires IsRegistered(Next(d, m, ev).bridge.registry, c)
    ensures K.Grip(Next(d, m, ev).bridge.keyboard, c, key) == K.Grip(m.bridge.keyboard, c, key)
  {
    assert J.Inv(d, AudioLease.Active(m.bridge.lease));
    var b := m.bridge;
    match ev
    case Connected(x, id, accepts) => ConnectKeepsGrip(b, x, id, accepts, c);
    case Unpaired(id, wasPaired, accepts) =>
      if wasPaired && id in b.registry.byId {
        TeardownKeepsGrip(b, b.registry.byId[id], accepts, c);
      }
    case Closed(x, accepts) =>
      if x in b.registry.deviceOf {
        TeardownKeepsGrip(b, x, accepts, c);
      }
    case KeyMessage(x, other, action, mods, accepts) =>
      if IsCurrent(b.registry, x) {
        MessageKeepsGrip(b.keyboard, x, other, action, mods, accepts, c, key);
      }
    case Stopped(order, accepts) =>
    case _ =>
  }

  lemma ConnectKeepsGrip(b: Bridge, x: Conn, id: DeviceId, accepts: bool, c: Conn)
    requires K.Inv(b.keyboard) && Devices.Inv(b.registry)
    requires x !in b.registry.deviceOf ==> IsRegistered(AfterRegister(b.registry, x, id), c)
    ensures x !in b.registry.deviceOf ==>
              K.HeldBy(Connect(b, x, id, accepts).keyboard, c) == K.HeldBy(b.keyboard, c)
  {
    if x !in b.registry.deviceOf {
      RegisterKeepsInv(b.registry, x, id);
      if id in b.registry.byId {
        K.SessionIsReleased(b.keyboard, b.registry.byId[id], accepts);
      }
    }
  }

  lemma TeardownKeepsGrip(b: Bridge, x: Conn, accepts: bool, c: Conn)
    requires K.Inv(b.keyboard) && Devices.Inv(b.registry) && x in b.registry.deviceOf
    requires IsRegistered(AfterRemove(b.registry, x), c)
    ensures K.HeldBy(Teardown(b, x, accepts).keyboard, c) == K.HeldBy(b.keyboard, c)
  {
    RemoveKeepsInv(b.registry, x);
    K.SessionIsReleased(b.keyboard, x, accepts);
  }

  lemma MessageKeepsGrip(k: K.Keyboard, x: Conn, other: K.Key, action: string, mods: K.Modifiers, accepts: bool,
                         c: Conn, key: K.Key)
    requires K.Inv(k) && (x != c || other != key || other == "" || |other| > 64 || (action != "down" && action != "up"))
    ensures K.Grip(K.HandleKey(k, x, other, action, mods, accepts), c, key) == K.Grip(k, c, key)
  {
    if x != c {
      K.HandleTouchesOne(k, x, other, action, mods, accepts);
    } else if K.IsKeyName(other) && action == "down" {
      K.PressHolds(k, x, other, mods, accepts);
    } else if K.IsKeyName(other) && action == "up" {
      K.ReleaseHolds(k, x, other, accepts);
    }
  }

  lemma NobodyHoldsUnregistered(d: J.Depths, events: seq<Event>, c: Conn, key: K.Key)
    requires d.Valid() && !IsRegistered(Run(d, events).bridge.registry, c)
    ensures K.Grip(Run(d, events).bridge.keyboard, c, key) == None
  {
    var b := Run(d, events).bridge;
    assert K.HeldBy(b.keyboard, c) == [];
  }

  /** In every run who holds a key, and with which modifiers, is what the messages tell. */
  lemma {:induction false} MessagesDecide(d: J.Depths, events: seq<Event>, c: Conn, key: K.Key)
    requires d.Valid()
    ensures K.Grip(Run(d, events).bridge.keyboard, c, key) == HeldAfter(d, events, c, key)
    decreases |events|
  {
    if !IsRegistered(Run(d, events).bridge.registry, c) {
      NobodyHoldsUnregistered(d, events, c, key);
    } else if events == [] {
      NothingHeldYet(d, c, key);
    } else {
      var front, ev := events[..|events| - 1], events[|events| - 1];
      MessagesDecide(d, front, c, key);
      RunIsNext(d, events);
      if IsMessageOf(ev, c, key) {
        forall s ensures K.Grip(Run(d, front).bridge.keyboard, s, key) == HeldAfter(d, front, s, key) {
          MessagesDecide(d, front, s, key);
        }
        HeldAgrees(d, front, key);
        MessageDecides(d, Run(d, front), ev);
      } else {
        OthersKeepGrip(d, Run(d, front), ev, c, key);
      }
    }
  }

  lemma NothingHeldYet(d: J.Depths, c: Conn, key: K.Key)
    requires d.Valid()
    ensures K.Grip(Run(d, []).bridge.keyboard, c, key) == None
  {
  }

  lemma RunIsNext(d: J.Depths, events: seq<Event>)
    requires d.Valid() && events != []
    ensures Run(d, events) == Next(d, Run(d, events[..|events| - 1]), events[|events| - 1])
  {
  }

  lemma HeldAgrees(d: J.Depths, events: seq<Event>, key: K.Key)
    requires d.Valid()
    requires forall s: Conn :: K.Grip(Run(d, events).bridge.keyboard, s, key) == HeldAfter(d, events, s, key)
    ensures IsHeldBySome(Run(d, events).bridge.keyboard, key) <==> IsHeldAfter(d, events, key)
  {
    var k := Run(d, events).bridge.keyboard;
    if s :| HoldsKey(k, s, key) {
      assert K.Grip(k, s, key).Some?;
    }
    if s: Conn :| HeldAfter(d, events, s, key).Some? {
      assert HoldsKey(k, s, key);
    }
  }

  /** What a message leaves of its sender's hold. */
  lemma MessageDecides(d: J.Depths, m: Moment, ev: Event)
    requires Bridges.Inv(d, m) && ev.KeyMessage? && IsMessageOf(ev, ev.c, ev.key)
    requires IsRegistered(Next(d, m, ev).bridge.registry, ev.c)
    ensures var k, r := m.bridge.keyboard, Next(d, m, ev).bridge.keyboard;
            K.Grip(r, ev.c, ev.key)
            == if ev.action == "up" then None
               else if K.Grip(k, ev.c, ev.key).Some? then K.Grip(k, ev.c, ev.key)
               else if ev.accepts || IsHeldBySome(k, ev.key) then Some(ev.modifiers)
               else None
  {
    assert J.Inv(d, AudioLease.Active(m.bridge.lease));
    CurrentIsRegistered(m.bridge.registry, ev.c);
    if ev.action == "down" {
      DownLaw(m.bridge.keyboard, ev.c, ev.key, ev.modifiers, ev.accepts);
    } else {
      UpLaw(m.bridge.keyboard, ev.c, ev.key, ev.modifiers, ev.accepts);
    }
  }

  /** So a key is down exactly if, by the messages, some session holds it. */
  lemma DownIff(d: J.Depths, events: seq<Event>, key: K.Key)
    requires d.Valid()
    ensures K.PressedWith(Run(d, events).bridge.keyboard.log, key).Some? <==> IsHeldAfter(d, events, key)
  {
    forall s ensures K.Grip(Run(d, events).bridge.keyboard, s, key) == HeldAfter(d, events, s, key) {
      MessagesDecide(d, events, s, key);
    }
    HeldAgrees(d, events, key);
    SomeOwns(Run(d, events).bridge.keyboard, key);
    assert K.InjectedAgrees(Run(d, events).bridge.keyboard, key);
  }
}
