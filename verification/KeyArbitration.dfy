/**
  The shared keyboard of `BridgeApp`: many device sessions hold keys, one keyboard presses them.

  A session object is named by its connection. `held` gives each session's `held_keys` in
  insertion order, and `log` the calls made to the key injector.
 */
module KeyArbitration {
  import opened Common

  type Key = string
  type Modifiers = seq<string>

  const MODIFIER_KEYS: set<Key> := {"cmd", "shift", "alt", "ctrl"}
  const MAX_KEY_LENGTH := 64

  datatype Hold = Hold(key: Key, modifiers: Modifiers)

  datatype Direction = Down | Up

  /** One call to `inject`, with its answer. */
  datatype Injection = Injection(key: Key, direction: Direction, modifiers: Modifiers, accepted: bool)

  datatype Keyboard = Keyboard(
    held: map<Conn, seq<Hold>>,
    owners: map<Key, map<Conn, Modifiers>>,
    injected: map<Key, Modifiers>,
    log: seq<Injection>)

  const IDLE := Keyboard(map[], map[], map[], [])

  // ---- One session's dictionary --------------------------------------------------------

  function HeldBy(k: Keyboard, c: Conn): seq<Hold> {
    if c in k.held then k.held[c] else []
  }

  predicate Holds(hs: seq<Hold>, key: Key) {
    exists i :: 0 <= i < |hs| && hs[i].key == key
  }

  ghost predicate DistinctKeys(hs: seq<Hold>) {
    forall i, j :: 0 <= i < j < |hs| ==> hs[i].key != hs[j].key
  }

  /** The modifiers a session stored with a key it holds. */
  function Stored(hs: seq<Hold>, key: Key): (r: Option<Modifiers>)
    ensures r.Some? <==> Holds(hs, key)
  {
    if hs == [] then None
    else if hs[0].key == key then Some(hs[0].modifiers)
    else
      assert hs == [hs[0]] + hs[1..];
      Stored(hs[1..], key)
  }

  function Dropped(hs: seq<Hold>, key: Key): seq<Hold> {
    if hs == [] then []
    else if hs[0].key == key then hs[1..]
    else [hs[0]] + Dropped(hs[1..], key)
  }

  lemma {:induction false} DroppedKey(hs: seq<Hold>, key: Key)
    requires DistinctKeys(hs)
    ensures DistinctKeys(Dropped(hs, key))
    ensures forall h :: h in Dropped(hs, key) <==> h in hs && h.key != key
    ensures forall other :: Stored(Dropped(hs, key), other) == if other == key then None else Stored(hs, other)
  {
    if hs != [] {
      assert hs == [hs[0]] + hs[1..];
      DroppedKey(hs[1..], key);
      var rest := Dropped(hs[1..], key);
      if hs[0].key != key {
        forall i | 0 <= i < |rest| ensures rest[i].key != hs[0].key {
          assert rest[i] in hs[1..];
        }
      } else {
        forall other ensures Stored(hs[1..], other) == if other == key then None else Stored(hs, other) {
        }
      }
    }
  }

  /** How session `c` holds `key`, if it does. */
  function Grip(k: Keyboard, c: Conn, key: Key): Option<Modifiers> {
    Stored(HeldBy(k, c), key)
  }

  // ---- The calls -----------------------------------------------------------------------

  function OwnersOf(k: Keyboard, key: Key): map<Conn, Modifiers> {
    if key in k.owners then k.owners[key] else map[]
  }

  /** A modifier's own release carries no flag of its own. */
  function ReleaseModifiers(key: Key, injected: Modifiers): Modifiers {
    if key in MODIFIER_KEYS then Without(injected, key) else injected
  }

  function Without(ms: Modifiers, key: Key): Modifiers {
    if ms == [] then []
    else (if ms[0] == key then [] else [ms[0]]) + Without(ms[1..], key)
  }

  predicate IsKeyName(key: Key) {
    0 < |key| <= MAX_KEY_LENGTH
  }

  function PressKey(k: Keyboard, c: Conn, key: Key, mods: Modifiers, accepts: bool): Keyboard {
    var owners := OwnersOf(k, key);
    var known := k.(owners := k.owners[key := owners]);
    if Holds(HeldBy(k, c), key) then known
    else
      var held := k.held[c := HeldBy(k, c) + [Hold(key, mods)]];
      var shared := known.owners[key := owners[c := mods]];
      if owners != map[] then known.(owners := shared, held := held)
      else
        var tried := known.(log := k.log + [Injection(key, Down, mods, accepts)]);
        if !accepts then tried
        else tried.(owners := shared, held := held, injected := k.injected[key := mods])
  }

  function ReleaseKey(k: Keyboard, c: Conn, key: Key, accepts: bool): Keyboard {
    var owners := OwnersOf(k, key);
    var known := k.(owners := k.owners[key := owners]);
    match Grip(k, c, key)
    case None => known
    case Some(mods) =>
      var left := owners - {c};
      var freed := known.(held := k.held[c := Dropped(HeldBy(k, c), key)]);
      if left != map[] then freed.(owners := k.owners[key := left])
      else
        var injected := if key in k.injected then k.injected[key] else mods;
        freed.(owners := k.owners - {key},
               injected := k.injected - {key},
               log := k.log + [Injection(key, Up, ReleaseModifiers(key, injected), accepts)])
  }

  /** `accepts` is the injector's answer, should it be asked. */
  function HandleKey(k: Keyboard, c: Conn, key: Key, action: string, mods: Modifiers, accepts: bool): Keyboard {
    if !IsKeyName(key) then k
    else if action == "down" then PressKey(k, c, key, mods, accepts)
    else if action == "up" then ReleaseKey(k, c, key, accepts)
    else k
  }

  /** Releases the listed keys in order; the answers to the releases are never looked at. */
  function ReleaseEach(k: Keyboard, c: Conn, hs: seq<Hold>, accepts: bool): Keyboard
    decreases |hs|
  {
    if hs == [] then k
    else ReleaseEach(HandleKey(k, c, hs[0].key, "up", hs[0].modifiers, accepts), c, hs[1..], accepts)
  }

  function ReleaseSession(k: Keyboard, c: Conn, accepts: bool): Keyboard {
    ReleaseEach(k, c, HeldBy(k, c), accepts)
  }

  // ---- What the keyboard has been told -------------------------------------------------

  /** The modifiers of the press the keyboard is still in, or none when the key is up. */
  function PressedWith(log: seq<Injection>, key: Key): Option<Modifiers> {
    if log == [] then None
    else
      var e := log[|log| - 1];
      if e.key != key || (e.direction.Down? && !e.accepted) then PressedWith(log[..|log| - 1], key)
      else if e.direction.Down? then Some(e.modifiers)
      else None
  }

  /**
    Presses are tried only on a key that is up, and a release only on one that is down, with
    the modifiers of its press: the accepted presses and the releases of a key alternate.
   */
  ghost predicate IsFitting(log: seq<Injection>, e: Injection) {
    var pressed := PressedWith(log, e.key);
    match e.direction
    case Down => pressed == None
    case Up => pressed.Some? && e.modifiers == ReleaseModifiers(e.key, pressed.value)
  }

  ghost predicate Alternates(log: seq<Injection>) {
    forall i :: 0 <= i < |log| ==> IsFitting(log[..i], log[i])
  }

  ghost predicate IsHeldList(hs: seq<Hold>) {
    DistinctKeys(hs) && forall i :: 0 <= i < |hs| ==> IsKeyName(hs[i].key)
  }

  /** The owner map of a key lists exactly the sessions that hold it, as they hold it. */
  ghost predicate OwnersAgree(k: Keyboard, key: Key) {
    forall c :: Grip(k, c, key)
                == (if c in OwnersOf(k, key) then Some(OwnersOf(k, key)[c]) else None)
  }

  /** A key is down, with the modifiers on record, exactly while it has an owner. */
  ghost predicate InjectedAgrees(k: Keyboard, key: Key) {
    && (key in k.injected <==> OwnersOf(k, key) != map[])
    && PressedWith(k.log, key) == (if key in k.injected then Some(k.injected[key]) else None)
  }

  ghost predicate Inv(k: Keyboard) {
    && (forall c :: IsHeldList(HeldBy(k, c)))
    && (forall key :: OwnersAgree(k, key))
    && (forall key :: InjectedAgrees(k, key))
    && Alternates(k.log)
  }

  function After(log: seq<Injection>, e: Injection, key: Key): Option<Modifiers> {
    if key != e.key || (e.direction.Down? && !e.accepted) then PressedWith(log, key)
    else if e.direction.Down? then Some(e.modifiers)
    else None
  }

  lemma LogGrows(log: seq<Injection>, e: Injection)
    requires Alternates(log) && IsFitting(log, e)
    ensures Alternates(log + [e])
    ensures forall key :: PressedWith(log + [e], key) == After(log, e, key)
  {
    var more := log + [e];
    assert more[..|more| - 1] == log;
    forall i | 0 <= i < |more| ensures IsFitting(more[..i], more[i]) {
      assert more[..i] == log[..i];
      assert i == |log| ==> log[..i] == log;
    }
  }

  /** Appending a key the session did not hold. */
  lemma AppendedHold(hs: seq<Hold>, key: Key, mods: Modifiers)
    requires IsHeldList(hs) && !Holds(hs, key) && IsKeyName(key)
    ensures IsHeldList(hs + [Hold(key, mods)])
    ensures forall other :: Stored(hs + [Hold(key, mods)], other)
                            == (if other == key then Some(mods) else Stored(hs, other))
  {
    var more := hs + [Hold(key, mods)];
    forall other ensures Stored(more, other) == (if other == key then Some(mods) else Stored(hs, other)) {
      StoredAppends(hs, Hold(key, mods), other);
    }
  }

  lemma {:induction false} StoredAppends(hs: seq<Hold>, h: Hold, key: Key)
    ensures Stored(hs + [h], key)
            == (if Stored(hs, key).Some? then Stored(hs, key)
                else if h.key == key then Some(h.modifiers) else None)
  {
    if hs != [] {
      assert (hs + [h])[1..] == hs[1..] + [h];
      StoredAppends(hs[1..], h, key);
    }
  }

  /** A call about one key leaves the log of every other key alone. */
  ghost predicate LogFits(k: Keyboard, r: Keyboard, key: Key) {
    && InjectedAgrees(r, key) && Alternates(r.log)
    && (forall other :: other != key ==> PressedWith(r.log, other) == PressedWith(k.log, other))
  }

  /** So it does their owners. */
  ghost predicate OwnersFit(k: Keyboard, r: Keyboard, key: Key) {
    && (forall other :: other != key ==> OwnersOf(r, other) == OwnersOf(k, other))
    && (forall other :: other != key ==> (other in r.injected <==> other in k.injected))
    && (forall other :: other != key && other in k.injected ==> r.injected[other] == k.injected[other])
  }

  /** And how every session holds them; other sessions are not touched at all. */
  ghost predicate HoldsFit(k: Keyboard, r: Keyboard, c: Conn, key: Key) {
    && OwnersAgree(r, key)
    && IsHeldList(HeldBy(r, c))
    && (forall s :: s != c ==> HeldBy(r, s) == HeldBy(k, s))
    && (forall other :: other != key ==> Grip(r, c, other) == Grip(k, c, other))
  }

  lemma InvByKey(k: Keyboard, r: Keyboard, c: Conn, key: Key)
    requires Inv(k) && LogFits(k, r, key) && OwnersFit(k, r, key) && HoldsFit(k, r, c, key)
    ensures Inv(r)
  {
    forall s ensures IsHeldList(HeldBy(r, s)) {
      assert IsHeldList(HeldBy(k, s));
    }
    forall other ensures OwnersAgree(r, other) {
      assert OwnersAgree(k, other);
    }
    forall other ensures InjectedAgrees(r, other) {
      assert InjectedAgrees(k, other);
    }
  }

  lemma PressLog(k: Keyboard, c: Conn, key: Key, mods: Modifiers, accepts: bool)
    requires Inv(k)
    ensures LogFits(k, PressKey(k, c, key, mods, accepts), key)
  {
    assert InjectedAgrees(k, key);
    if !Holds(HeldBy(k, c), key) {
      assert c in OwnersOf(k, key)[c := mods];
      if OwnersOf(k, key) == map[] {
        LogGrows(k.log, Injection(key, Down, mods, accepts));
      }
    }
  }

  /** A hold added to the list and to the owners of its key. */
  lemma HoldAdded(k: Keyboard, r: Keyboard, c: Conn, key: Key, mods: Modifiers)
    requires Inv(k) && IsKeyName(key) && !Holds(HeldBy(k, c), key)
    requires r.held == k.held[c := HeldBy(k, c) + [Hold(key, mods)]]
    requires r.owners == k.owners[key := OwnersOf(k, key)[c := mods]]
    ensures HoldsFit(k, r, c, key)
  {
    assert OwnersAgree(k, key) && IsHeldList(HeldBy(k, c));
    AppendedHold(HeldBy(k, c), key, mods);
  }

  lemma NothingHeldAnew(k: Keyboard, r: Keyboard, c: Conn, key: Key)
    requires Inv(k) && r.held == k.held && r.owners == k.owners[key := OwnersOf(k, key)]
    ensures HoldsFit(k, r, c, key)
  {
    assert OwnersAgree(k, key) && IsHeldList(HeldBy(k, c));
  }

  lemma PressHolds(k: Keyboard, c: Conn, key: Key, mods: Modifiers, accepts: bool)
    requires Inv(k) && IsKeyName(key)
    ensures HoldsFit(k, PressKey(k, c, key, mods, accepts), c, key)
  {
    var r, owners := PressKey(k, c, key, mods, accepts), OwnersOf(k, key);
    if !Holds(HeldBy(k, c), key) && (owners != map[] || accepts) {
      assert k.owners[key := owners][key := owners[c := mods]] == k.owners[key := owners[c := mods]];
      HoldAdded(k, r, c, key, mods);
    } else {
      NothingHeldAnew(k, r, c, key);
    }
  }

  lemma PressOwners(k: Keyboard, c: Conn, key: Key, mods: Modifiers, accepts: bool)
    ensures OwnersFit(k, PressKey(k, c, key, mods, accepts), key)
  {
  }

  lemma PressKeepsInv(k: Keyboard, c: Conn, key: Key, mods: Modifiers, accepts: bool)
    requires Inv(k) && IsKeyName(key)
    ensures Inv(PressKey(k, c, key, mods, accepts))
  {
    PressLog(k, c, key, mods, accepts);
    PressHolds(k, c, key, mods, accepts);
    PressOwners(k, c, key, mods, accepts);
    InvByKey(k, PressKey(k, c, key, mods, accepts), c, key);
  }

  lemma ReleaseLog(k: Keyboard, c: Conn, key: Key, accepts: bool)
    requires Inv(k)
    ensures LogFits(k, ReleaseKey(k, c, key, accepts), key)
  {
    assert InjectedAgrees(k, key) && OwnersAgree(k, key);
    if Grip(k, c, key).Some? {
      assert c in OwnersOf(k, key);
      if OwnersOf(k, key) - {c} == map[] {
        LogGrows(k.log, Injection(key, Up, ReleaseModifiers(key, k.injected[key]), accepts));
      }
    }
  }

  lemma ReleaseHeld(k: Keyboard, c: Conn, key: Key, accepts: bool)
    ensures HeldBy(ReleaseKey(k, c, key, accepts), c) == Dropped(HeldBy(k, c), key)
    ensures forall s :: s != c ==> HeldBy(ReleaseKey(k, c, key, accepts), s) == HeldBy(k, s)
    ensures OwnersFit(k, ReleaseKey(k, c, key, accepts), key)
  {
    if Grip(k, c, key).None? {
      DroppedNothing(HeldBy(k, c), key);
    }
  }

  lemma ReleaseOwners(k: Keyboard, c: Conn, key: Key, accepts: bool)
    requires OwnersAgree(k, key)
    ensures OwnersOf(ReleaseKey(k, c, key, accepts), key) == OwnersOf(k, key) - {c}
  {
  }

  lemma ReleaseHolds(k: Keyboard, c: Conn, key: Key, accepts: bool)
    requires Inv(k)
    ensures HoldsFit(k, ReleaseKey(k, c, key, accepts), c, key)
  {
    assert OwnersAgree(k, key) && IsHeldList(HeldBy(k, c));
    ReleaseHeld(k, c, key, accepts);
    ReleaseOwners(k, c, key, accepts);
    DroppedKey(HeldBy(k, c), key);
    ReleaseAgrees(k, ReleaseKey(k, c, key, accepts), c, key);
  }

  lemma ReleaseAgrees(k: Keyboard, r: Keyboard, c: Conn, key: Key)
    requires OwnersAgree(k, key) && OwnersOf(r, key) == OwnersOf(k, key) - {c}
    requires Grip(r, c, key) == None
    requires forall s :: s != c ==> HeldBy(r, s) == HeldBy(k, s)
    ensures OwnersAgree(r, key)
  {
  }

  lemma ReleaseKeepsInv(k: Keyboard, c: Conn, key: Key, accepts: bool)
    requires Inv(k)
    ensures Inv(ReleaseKey(k, c, key, accepts))
  {
    ReleaseLog(k, c, key, accepts);
    ReleaseHolds(k, c, key, accepts);
    ReleaseHeld(k, c, key, accepts);
    InvByKey(k, ReleaseKey(k, c, key, accepts), c, key);
  }

  lemma {:induction false} DroppedNothing(hs: seq<Hold>, key: Key)
    requires !Holds(hs, key)
    ensures Dropped(hs, key) == hs
  {
    if hs != [] {
      assert hs == [hs[0]] + hs[1..];
      DroppedNothing(hs[1..], key);
    }
  }

  lemma HandleKeepsInv(k: Keyboard, c: Conn, key: Key, action: string, mods: Modifiers, accepts: bool)
    requires Inv(k)
    ensures Inv(HandleKey(k, c, key, action, mods, accepts))
  {
    if IsKeyName(key) && action == "down" {
      PressKeepsInv(k, c, key, mods, accepts);
    } else if IsKeyName(key) && action == "up" {
      ReleaseKeepsInv(k, c, key, accepts);
    }
  }

  lemma HandleTouchesOne(k: Keyboard, c: Conn, key: Key, action: string, mods: Modifiers, accepts: bool)
    ensures forall s :: s != c ==> HeldBy(HandleKey(k, c, key, action, mods, accepts), s) == HeldBy(k, s)
  {
  }

  // ---- Cleaning up sessions ------------------------------------------------------------

  /** A key some other session holds keeps the press it is in. */
  ghost predicate OthersStay(k: Keyboard, r: Keyboard, c: Conn) {
    forall s, key :: s != c && Grip(k, s, key).Some? ==> PressedWith(r.log, key) == PressedWith(k.log, key)
  }

  ghost predicate IsReleased(k: Keyboard, r: Keyboard, c: Conn) {
    && Inv(r)
    && HeldBy(r, c) == []
    && (forall s :: s != c ==> HeldBy(r, s) == HeldBy(k, s))
    && OthersStay(k, r, c)
  }

  lemma ReleaseLetsOthersStay(k: Keyboard, c: Conn, key: Key, accepts: bool)
    requires Inv(k)
    ensures OthersStay(k, ReleaseKey(k, c, key, accepts), c)
  {
    var r := ReleaseKey(k, c, key, accepts);
    ReleaseLog(k, c, key, accepts);
    forall s, other | s != c && Grip(k, s, other).Some?
      ensures PressedWith(r.log, other) == PressedWith(k.log, other)
    {
      assert OwnersAgree(k, other);
      if other == key {
        assert s in OwnersOf(k, key) - {c};
        assert r.log == k.log;
      }
    }
  }

  lemma {:induction false} ReleaseEachFrees(k: Keyboard, c: Conn, hs: seq<Hold>, accepts: bool)
    requires Inv(k) && HeldBy(k, c) == hs
    ensures IsReleased(k, ReleaseEach(k, c, hs, accepts), c)
    decreases |hs|
  {
    if hs != [] {
      var key := hs[0].key;
      assert IsHeldList(HeldBy(k, c));
      var next := ReleaseKey(k, c, key, accepts);
      ReleaseKeepsInv(k, c, key, accepts);
      ReleaseHeld(k, c, key, accepts);
      ReleaseLetsOthersStay(k, c, key, accepts);
      ReleaseEachFrees(next, c, hs[1..], accepts);
      OthersStayTwice(k, next, ReleaseEach(next, c, hs[1..], accepts), c);
    }
  }

  lemma OthersStayTwice(k: Keyboard, mid: Keyboard, r: Keyboard, c: Conn)
    requires OthersStay(k, mid, c) && OthersStay(mid, r, c)
    requires forall s :: s != c ==> HeldBy(mid, s) == HeldBy(k, s)
    ensures OthersStay(k, r, c)
  {
    forall s, key | s != c && Grip(k, s, key).Some?
      ensures PressedWith(r.log, key) == PressedWith(k.log, key)
    {
      assert Grip(mid, s, key).Some?;
    }
  }

  lemma SessionIsReleased(k: Keyboard, c: Conn, accepts: bool)
    requires Inv(k)
    ensures IsReleased(k, ReleaseSession(k, c, accepts), c)
  {
    ReleaseEachFrees(k, c, HeldBy(k, c), accepts);
  }

  function ReleaseAll(k: Keyboard, cs: seq<Conn>, accepts: bool): Keyboard {
    if cs == [] then k
    else ReleaseSession(ReleaseAll(k, cs[..|cs| - 1], accepts), cs[|cs| - 1], accepts)
  }

  predicate IsHeldOutside(k: Keyboard, cs: seq<Conn>, key: Key) {
    exists c :: c in k.held && c !in cs && Grip(k, c, key).Some?
  }

  lemma {:induction false} ReleaseAllFrees(k: Keyboard, cs: seq<Conn>, accepts: bool)
    requires Inv(k)
    ensures var r := ReleaseAll(k, cs, accepts);
            && Inv(r)
            && (forall c :: HeldBy(r, c) == if c in cs then [] else HeldBy(k, c))
            && (forall key :: IsHeldOutside(k, cs, key) ==> PressedWith(r.log, key) == PressedWith(k.log, key))
  {
    if cs != [] {
      var front, c := cs[..|cs| - 1], cs[|cs| - 1];
      ReleaseAllFrees(k, front, accepts);
      var mid := ReleaseAll(k, front, accepts);
      SessionIsReleased(mid, c, accepts);
      assert cs == front + [c];
      forall key | IsHeldOutside(k, cs, key)
        ensures PressedWith(ReleaseAll(k, cs, accepts).log, key) == PressedWith(k.log, key)
      {
        var s :| s in k.held && s !in cs && Grip(k, s, key).Some?;
        assert IsHeldOutside(k, front, key);
        assert Grip(mid, s, key).Some?;
      }
    }
  }

  /**
    After any sessions are cleaned up, in any order and any number of times, a key is down
    exactly if a session outside them held it, and then still by the same press.
   */
  lemma CleanedKeysAreUp(k: Keyboard, cs: seq<Conn>, accepts: bool, key: Key)
    requires Inv(k)
    ensures PressedWith(ReleaseAll(k, cs, accepts).log, key)
            == if IsHeldOutside(k, cs, key) then PressedWith(k.log, key) else None
    ensures IsHeldOutside(k, cs, key) ==> PressedWith(k.log, key).Some?
  {
    ReleaseAllFrees(k, cs, accepts);
    var r := ReleaseAll(k, cs, accepts);
    assert OwnersAgree(r, key) && InjectedAgrees(r, key);
    assert OwnersAgree(k, key) && InjectedAgrees(k, key);
    if IsHeldOutside(k, cs, key) {
      var s :| s in k.held && s !in cs && Grip(k, s, key).Some?;
      assert s in OwnersOf(k, key);
    } else {
      forall c ensures c !in OwnersOf(r, key) {
        assert HeldBy(r, c) == if c in cs then [] else HeldBy(k, c);
      }
      assert OwnersOf(r, key) == map[];
    }
  }
}
