/**
  What the key transmitter's names are worth (key_tx.cpp:35-103 and keymap.cpp of the firmware): the
  ups and downs of every name alternate, and a switch that stays down keeps its name as long as there
  is room for it.
 */
module KeyNames {
  import opened Common
  import opened KeyTransmissions

  const COLUMNS := KEYS_PER_ROW
  const ROWS := 4
  const SWITCHES := ROWS * COLUMNS

  // ---- The keys of a reading, without the limit ------------------------------------------

  function One(k: Option<ActiveKey>): seq<ActiveKey> {
    if k.Some? then [k.value] else []
  }

  function ModifiersOf(m: Keymap, r: Reading, positions: seq<Position>): seq<ActiveKey> {
    if positions == [] then []
    else
      var front, last := positions[..|positions| - 1], positions[|positions| - 1];
      ModifiersOf(m, r, front) + One(ModifierAt(m, r, last))
  }

  function KeysOf(m: Keymap, r: Reading, previous: seq<ActiveKey>, positions: seq<Position>): seq<ActiveKey> {
    if positions == [] then []
    else
      var front, last := positions[..|positions| - 1], positions[|positions| - 1];
      KeysOf(m, r, previous, front) + One(KeyAt(m, r, previous, last))
  }

  /** What the list would be if it could hold any number of keys. */
  function Wanted(m: Keymap, r: Reading, previous: seq<ActiveKey>): seq<ActiveKey> {
    ModifiersOf(m, r, r.positions) + KeysOf(m, r, previous, r.positions)
  }

  function Fitting(keys: seq<ActiveKey>): (s: seq<ActiveKey>)
    ensures |s| <= CAPACITY && s <= keys
  {
    if |keys| <= CAPACITY then keys else keys[..CAPACITY]
  }

  lemma AddedFits(keys: seq<ActiveKey>, k: Option<ActiveKey>)
    ensures Added(Fitting(keys), k) == Fitting(keys + One(k))
  {
  }

  lemma {:induction false} ModifiersFit(m: Keymap, r: Reading, i: nat)
    requires i <= |r.positions|
    ensures WithModifiers(m, r, Fitting(ModifiersOf(m, r, r.positions[..i])), i)
         == Fitting(ModifiersOf(m, r, r.positions))
    decreases |r.positions| - i
  {
    if i == |r.positions| {
      assert r.positions[..i] == r.positions;
    } else {
      assert r.positions[..i + 1][..i] == r.positions[..i];
      AddedFits(ModifiersOf(m, r, r.positions[..i]), ModifierAt(m, r, r.positions[i]));
      ModifiersFit(m, r, i + 1);
    }
  }

  lemma NextKeyFits(m: Keymap, r: Reading, previous: seq<ActiveKey>, modifiers: seq<ActiveKey>, i: nat)
    requires i < |r.positions|
    ensures Added(Fitting(modifiers + KeysOf(m, r, previous, r.positions[..i])), KeyAt(m, r, previous, r.positions[i]))
         == Fitting(modifiers + KeysOf(m, r, previous, r.positions[..i + 1]))
  {
    var keys, k := KeysOf(m, r, previous, r.positions[..i]), KeyAt(m, r, previous, r.positions[i]);
    assert r.positions[..i + 1][..i] == r.positions[..i];
    AddedFits(modifiers + keys, k);
    assert modifiers + (keys + One(k)) == (modifiers + keys) + One(k);
  }

  lemma {:induction false} KeysFit(m: Keymap, r: Reading, previous: seq<ActiveKey>, modifiers: seq<ActiveKey>, i: nat)
    requires i <= |r.positions|
    ensures WithKeys(m, r, previous, Fitting(modifiers + KeysOf(m, r, previous, r.positions[..i])), i)
         == Fitting(modifiers + KeysOf(m, r, previous, r.positions))
    decreases |r.positions| - i
  {
    if i == |r.positions| {
      assert r.positions[..i] == r.positions;
    } else {
      NextKeyFits(m, r, previous, modifiers, i);
      KeysFit(m, r, previous, modifiers, i + 1);
    }
  }

  /** `buildCurrent` keeps the first six keys: the modifiers, then the others, each in the order of the reading. */
  lemma CurrentFits(m: Keymap, r: Reading, previous: seq<ActiveKey>)
    ensures Current(m, r, previous) == Fitting(Wanted(m, r, previous))
  {
    assert r.positions[..0] == [];
    ModifiersFit(m, r, 0);
    var modifiers := ModifiersOf(m, r, r.positions);
    assert modifiers + [] == modifiers;
    KeysFit(m, r, previous, modifiers, 0);
  }

  // ---- Where the keys come from ----------------------------------------------------------

  lemma {:induction false} ModifierIsFrom(m: Keymap, r: Reading, positions: seq<Position>, k: ActiveKey)
    requires k in ModifiersOf(m, r, positions)
    ensures exists i :: 0 <= i < |positions| && ModifierAt(m, r, positions[i]) == Some(k)
  {
    var front, last := positions[..|positions| - 1], positions[|positions| - 1];
    if k in ModifiersOf(m, r, front) {
      ModifierIsFrom(m, r, front, k);
      var i :| 0 <= i < |front| && ModifierAt(m, r, front[i]) == Some(k);
      assert positions[i] == front[i];
    } else {
      assert positions[|positions| - 1] == last;
    }
  }

  lemma {:induction false} KeyIsFrom(m: Keymap, r: Reading, previous: seq<ActiveKey>, positions: seq<Position>,
                                     k: ActiveKey)
    requires k in KeysOf(m, r, previous, positions)
    ensures exists i :: 0 <= i < |positions| && KeyAt(m, r, previous, positions[i]) == Some(k)
  {
    var front, last := positions[..|positions| - 1], positions[|positions| - 1];
    if k in KeysOf(m, r, previous, front) {
      KeyIsFrom(m, r, previous, front, k);
      var i :| 0 <= i < |front| && KeyAt(m, r, previous, front[i]) == Some(k);
      assert positions[i] == front[i];
    } else {
      assert positions[|positions| - 1] == last;
    }
  }

  lemma KeyIsOfSwitch(m: Keymap, r: Reading, previous: seq<ActiveKey>, p: Position, k: ActiveKey)
    requires KeyAt(m, r, previous, p) == Some(k)
    ensures k.physical == p.Physical() && !m.isModifier(p.value)
  {
  }

  /** The switch a key comes from. */
  lemma SwitchOfKey(m: Keymap, r: Reading, previous: seq<ActiveKey>, positions: seq<Position>, k: ActiveKey)
    returns (i: nat)
    requires k in KeysOf(m, r, previous, positions)
    ensures i < |positions| && k.physical == positions[i].Physical() && !m.isModifier(positions[i].value)
  {
    KeyIsFrom(m, r, previous, positions, k);
    i :| 0 <= i < |positions| && KeyAt(m, r, previous, positions[i]) == Some(k);
    KeyIsOfSwitch(m, r, previous, positions[i], k);
  }

  /** The switch a modifier comes from. */
  lemma SwitchOfModifier(m: Keymap, r: Reading, positions: seq<Position>, k: ActiveKey) returns (i: nat)
    requires k in ModifiersOf(m, r, positions)
    ensures i < |positions| && k.physical == positions[i].Physical() && m.isModifier(positions[i].value)
  {
    ModifierIsFrom(m, r, positions, k);
    i :| 0 <= i < |positions| && ModifierAt(m, r, positions[i]) == Some(k);
  }

  /** `k` is what one of the switches that are down gave. */
  ghost predicate IsFrom(m: Keymap, r: Reading, previous: seq<ActiveKey>, k: ActiveKey) {
    exists i :: 0 <= i < |r.positions|
                && (ModifierAt(m, r, r.positions[i]) == Some(k) || KeyAt(m, r, previous, r.positions[i]) == Some(k))
  }

  lemma WantedIsFrom(m: Keymap, r: Reading, previous: seq<ActiveKey>, k: ActiveKey)
    requires k in Wanted(m, r, previous)
    ensures IsFrom(m, r, previous, k)
  {
    if k in ModifiersOf(m, r, r.positions) {
      ModifierIsFrom(m, r, r.positions, k);
    } else {
      KeyIsFrom(m, r, previous, r.positions, k);
    }
  }

  lemma CurrentIsFrom(m: Keymap, r: Reading, previous: seq<ActiveKey>, k: ActiveKey)
    requires k in Current(m, r, previous)
    ensures IsFrom(m, r, previous, k)
  {
    CurrentFits(m, r, previous);
    WantedIsFrom(m, r, previous, k);
  }

  ghost predicate AreShort(keys: seq<ActiveKey>) {
    forall i :: 0 <= i < |keys| ==> |keys[i].name| <= NAME_ROOM
  }

  lemma FromIsShort(m: Keymap, r: Reading, previous: seq<ActiveKey>, k: ActiveKey)
    requires IsFrom(m, r, previous, k)
    ensures |k.name| <= NAME_ROOM
  {
  }

  lemma CurrentIsShort(m: Keymap, r: Reading, previous: seq<ActiveKey>)
    ensures AreShort(Current(m, r, previous))
  {
    var current := Current(m, r, previous);
    forall i | 0 <= i < |current| ensures |current[i].name| <= NAME_ROOM {
      CurrentIsFrom(m, r, previous, current[i]);
      FromIsShort(m, r, previous, current[i]);
    }
  }

  lemma {:induction false} HeldAreShort(m: Keymap, ticks: seq<Tick>)
    ensures AreShort(Run(m, ticks).held)
  {
    if ticks != [] {
      var before, t := Run(m, ticks[..|ticks| - 1]), ticks[|ticks| - 1];
      if t.Read? {
        CurrentIsShort(m, t.reading, before.held);
      }
    }
  }

  // ---- Names stay ------------------------------------------------------------------------

  /** Neither Fn nor a modifier, and no chord with an Fn key that is down. */
  predicate IsPlain(m: Keymap, r: Reading, p: Position) {
    p.value != m.fnKey && !m.isModifier(p.value) && !(r.fn && m.chord(p.value, r.functionKey).Some?)
  }

  /** How many keys the reading puts before the key of its switch `i`. */
  function Rank(m: Keymap, r: Reading, previous: seq<ActiveKey>, i: nat): nat
    requires i < |r.positions|
  {
    |ModifiersOf(m, r, r.positions)| + |KeysOf(m, r, previous, r.positions[..i])|
  }

  lemma {:induction false} KeyIsAt(m: Keymap, r: Reading, previous: seq<ActiveKey>, positions: seq<Position>, i: nat)
    requires i < |positions| && KeyAt(m, r, previous, positions[i]).Some?
    ensures var keys, n := KeysOf(m, r, previous, positions), |KeysOf(m, r, previous, positions[..i])|;
            n < |keys| && keys[n] == KeyAt(m, r, previous, positions[i]).value
  {
    var front := positions[..|positions| - 1];
    if i < |front| {
      assert front[..i] == positions[..i] && front[i] == positions[i];
      KeyIsAt(m, r, previous, front, i);
    }
  }

  lemma KeyIsAtRank(m: Keymap, r: Reading, previous: seq<ActiveKey>, i: nat)
    requires i < |r.positions| && KeyAt(m, r, previous, r.positions[i]).Some?
    ensures Rank(m, r, previous, i) < |Wanted(m, r, previous)|
    ensures Wanted(m, r, previous)[Rank(m, r, previous, i)] == KeyAt(m, r, previous, r.positions[i]).value
  {
    KeyIsAt(m, r, previous, r.positions, i);
  }

  /** A switch gives one key at most. */
  lemma {:induction false} OneKeyEach(m: Keymap, r: Reading, previous: seq<ActiveKey>, positions: seq<Position>)
    ensures |ModifiersOf(m, r, positions)| + |KeysOf(m, r, previous, positions)| <= |positions|
  {
    if positions != [] {
      OneKeyEach(m, r, previous, positions[..|positions| - 1]);
    }
  }

  lemma LatchedIsGiven(m: Keymap, r: Reading, previous: seq<ActiveKey>, p: Position)
    requires IsPlain(m, r, p) && AreShort(previous) && Latched(previous, p.Physical()).Some?
    ensures KeyAt(m, r, previous, p) == Some(Active(r, Latched(previous, p.Physical()).value.name, p.Physical()))
  {
  }

  lemma LatchedIsWanted(m: Keymap, r: Reading, previous: seq<ActiveKey>, i: nat)
    requires i < |r.positions| && IsPlain(m, r, r.positions[i])
    requires AreShort(previous) && Latched(previous, r.positions[i].Physical()).Some?
    ensures Rank(m, r, previous, i) < |Wanted(m, r, previous)|
    ensures Wanted(m, r, previous)[Rank(m, r, previous, i)].name
         == Latched(previous, r.positions[i].Physical()).value.name
  {
    LatchedIsGiven(m, r, previous, r.positions[i]);
    KeyIsAtRank(m, r, previous, i);
  }

  lemma SixHaveRoom(m: Keymap, r: Reading, previous: seq<ActiveKey>, i: nat)
    requires i < |r.positions| <= CAPACITY && Rank(m, r, previous, i) < |Wanted(m, r, previous)|
    ensures Rank(m, r, previous, i) < CAPACITY
  {
    OneKeyEach(m, r, previous, r.positions);
  }

  /**
    While a switch stays down it keeps the name it was pressed with, though Fn is released or pressed
    meanwhile, unless it now makes a chord with Fn, or six keys come before it. With six switches down
    there is always room.
   */
  lemma NameStays(m: Keymap, ticks: seq<Tick>, r: Reading, i: nat)
    requires i < |r.positions| && IsPlain(m, r, r.positions[i])
    requires Latched(Run(m, ticks).held, r.positions[i].Physical()).Some?
    ensures var held := Run(m, ticks).held;
            Rank(m, r, held, i) < CAPACITY ==>
              Contains(Current(m, r, held), Latched(held, r.positions[i].Physical()).value.name)
    ensures |r.positions| <= CAPACITY ==> Rank(m, r, Run(m, ticks).held, i) < CAPACITY
  {
    var held := Run(m, ticks).held;
    var n := Rank(m, r, held, i);
    HeldAreShort(m, ticks);
    LatchedIsWanted(m, r, held, i);
    CurrentFits(m, r, held);
    if |r.positions| <= CAPACITY {
      SixHaveRoom(m, r, held, i);
    }
    if n < CAPACITY {
      assert Current(m, r, held)[n] == Wanted(m, r, held)[n];
    }
  }

  // ---- Keyboards and tables --------------------------------------------------------------

  /** The value printed on each switch; no two switches have the same. */
  ghost predicate IsLayout(layout: nat -> nat) {
    forall p, q :: 0 <= p < q < SWITCHES ==> layout(p) != layout(q)
  }

  /** The switches of a reading are different ones, each with the value printed on it. */
  ghost predicate OfKeyboard(layout: nat -> nat, r: Reading) {
    && (forall i :: 0 <= i < |r.positions| ==> IsSwitch(layout, r.positions[i]))
    && (forall i, j :: 0 <= i < j < |r.positions| ==> r.positions[i] != r.positions[j])
  }

  ghost predicate IsSwitch(layout: nat -> nat, p: Position) {
    p.x < COLUMNS && p.y < ROWS && p.value == layout(p.Physical())
  }

  ghost predicate AllOfKeyboard(layout: nat -> nat, ticks: seq<Tick>) {
    forall i :: 0 <= i < |ticks| && ticks[i].Read? ==> OfKeyboard(layout, ticks[i].reading)
  }

  lemma SwitchIsNumbered(p: Position)
    requires p.x < COLUMNS && p.y < ROWS
    ensures p.Physical() == p.y * COLUMNS + p.x < SWITCHES
  {
    assert p.y * KEYS_PER_ROW + p.x < 256;
  }

  lemma SwitchesAreNumbered(layout: nat -> nat, p: Position, q: Position)
    requires IsSwitch(layout, p) && IsSwitch(layout, q)
    ensures p.Physical() < SWITCHES && (p.Physical() == q.Physical() ==> p == q)
  {
    SwitchIsNumbered(p);
    SwitchIsNumbered(q);
  }

  /** A key with this value is called so, with Fn or without, under some setting of Fn+Space. */
  ghost predicate IsCalled(m: Keymap, value: nat, name: Name) {
    if m.isModifier(value) then value != m.leftShift && IsCopy(m.modifier(value), name)
    else
      value != m.fnKey
      && (IsChord(m, value, name) || IsCopy(m.special(value), name) || IsCharacter(value, name))
  }

  predicate IsCopy(entry: Option<Name>, name: Name) {
    entry.Some? && name == Copied(entry.value)
  }

  ghost predicate IsChord(m: Keymap, value: nat, name: Name) {
    exists functionKey :: IsCopy(m.chord(value, functionKey), name)
  }

  predicate IsCharacter(value: nat, name: Name) {
    32 <= value <= 126 && name == [value as char]
  }

  /** No name belongs to two values. */
  ghost predicate IsUnambiguous(m: Keymap) {
    forall v, w, name :: IsCalled(m, v, name) && IsCalled(m, w, name) ==> v == w
  }

  /** Each key held is called as the tables have it. */
  ghost predicate AreNamed(m: Keymap, layout: nat -> nat, keys: seq<ActiveKey>) {
    forall i :: 0 <= i < |keys| ==> IsNamed(m, layout, keys[i])
  }

  ghost predicate IsNamed(m: Keymap, layout: nat -> nat, k: ActiveKey) {
    k.physical < SWITCHES && IsCalled(m, layout(k.physical), k.name)
  }

  ghost predicate AreSeparate(keys: seq<ActiveKey>) {
    forall i, j :: 0 <= i < j < |keys| ==> keys[i].physical != keys[j].physical
  }

  lemma GivenIsNamed(m: Keymap, layout: nat -> nat, r: Reading, previous: seq<ActiveKey>, p: Position, k: ActiveKey)
    requires IsSwitch(layout, p) && AreNamed(m, layout, previous)
    requires ModifierAt(m, r, p) == Some(k) || KeyAt(m, r, previous, p) == Some(k)
    ensures IsNamed(m, layout, k) && k.physical == p.Physical()
  {
    SwitchesAreNumbered(layout, p, p);
    if !m.isModifier(p.value) {
      var latched := Latched(previous, p.Physical());
      if latched.Some? {
        assert IsNamed(m, layout, latched.value);
      }
      if r.fn && m.chord(p.value, r.functionKey).Some? {
        assert IsCopy(m.chord(p.value, r.functionKey), k.name);
      }
    }
  }

  lemma WantedAreNamed(m: Keymap, layout: nat -> nat, r: Reading, previous: seq<ActiveKey>)
    requires OfKeyboard(layout, r) && AreNamed(m, layout, previous)
    ensures AreNamed(m, layout, Wanted(m, r, previous))
  {
    var wanted := Wanted(m, r, previous);
    forall i | 0 <= i < |wanted| ensures IsNamed(m, layout, wanted[i]) {
      var k := wanted[i];
      WantedIsFrom(m, r, previous, k);
      var j :| 0 <= j < |r.positions|
               && (ModifierAt(m, r, r.positions[j]) == Some(k) || KeyAt(m, r, previous, r.positions[j]) == Some(k));
      GivenIsNamed(m, layout, r, previous, r.positions[j], k);
    }
  }

  lemma {:induction false} ModifiersAreSeparate(m: Keymap, layout: nat -> nat, r: Reading, n: nat)
    requires OfKeyboard(layout, r) && n <= |r.positions|
    ensures AreSeparate(ModifiersOf(m, r, r.positions[..n]))
  {
    if n > 0 {
      var front, last := r.positions[..n - 1], r.positions[n - 1];
      assert r.positions[..n][..n - 1] == front;
      ModifiersAreSeparate(m, layout, r, n - 1);
      forall k | k in ModifiersOf(m, r, front) ensures k.physical != last.Physical() {
        var i := SwitchOfModifier(m, r, front, k);
        SwitchesAreNumbered(layout, r.positions[i], last);
      }
    }
  }

  lemma OneMoreIsSeparate(keys: seq<ActiveKey>, k: Option<ActiveKey>, physical: nat)
    requires AreSeparate(keys) && (k.Some? ==> k.value.physical == physical)
    requires forall l :: l in keys ==> l.physical != physical
    ensures AreSeparate(keys + One(k))
  {
  }

  lemma KeyIsApart(m: Keymap, layout: nat -> nat, r: Reading, previous: seq<ActiveKey>, n: nat, k: ActiveKey)
    requires OfKeyboard(layout, r) && n < |r.positions|
    requires k in KeysOf(m, r, previous, r.positions[..n])
    ensures k.physical != r.positions[n].Physical()
  {
    var i := SwitchOfKey(m, r, previous, r.positions[..n], k);
    SwitchesAreNumbered(layout, r.positions[i], r.positions[n]);
  }

  lemma {:induction false} KeysAreSeparate(m: Keymap, layout: nat -> nat, r: Reading, previous: seq<ActiveKey>, n: nat)
    requires OfKeyboard(layout, r) && n <= |r.positions|
    ensures AreSeparate(KeysOf(m, r, previous, r.positions[..n]))
  {
    if n > 0 {
      var front, last := r.positions[..n - 1], r.positions[n - 1];
      assert r.positions[..n][..n - 1] == front;
      KeysAreSeparate(m, layout, r, previous, n - 1);
      var keys, k := KeysOf(m, r, previous, front), KeyAt(m, r, previous, last);
      forall l | l in keys ensures l.physical != last.Physical() {
        KeyIsApart(m, layout, r, previous, n - 1, l);
      }
      if k.Some? {
        KeyIsOfSwitch(m, r, previous, last, k.value);
      }
      OneMoreIsSeparate(keys, k, last.Physical());
    }
  }

  /** A switch is a modifier or another key, never both. */
  lemma KindsAreSeparate(m: Keymap, layout: nat -> nat, r: Reading, previous: seq<ActiveKey>, k: ActiveKey,
                         l: ActiveKey)
    requires OfKeyboard(layout, r)
    requires k in ModifiersOf(m, r, r.positions) && l in KeysOf(m, r, previous, r.positions)
    ensures k.physical != l.physical
  {
    var i := SwitchOfModifier(m, r, r.positions, k);
    var j := SwitchOfKey(m, r, previous, r.positions, l);
    SwitchesAreNumbered(layout, r.positions[i], r.positions[j]);
  }

  lemma WantedAreSeparate(m: Keymap, layout: nat -> nat, r: Reading, previous: seq<ActiveKey>)
    requires OfKeyboard(layout, r)
    ensures AreSeparate(Wanted(m, r, previous))
  {
    assert r.positions[..|r.positions|] == r.positions;
    ModifiersAreSeparate(m, layout, r, |r.positions|);
    KeysAreSeparate(m, layout, r, previous, |r.positions|);
    var modifiers, wanted := ModifiersOf(m, r, r.positions), Wanted(m, r, previous);
    forall i, j | 0 <= i < |modifiers| <= j < |wanted| ensures wanted[i].physical != wanted[j].physical {
      KindsAreSeparate(m, layout, r, previous, wanted[i], wanted[j]);
    }
  }

  // ---- Ups and downs alternate -----------------------------------------------------------

  lemma NamesDiffer(m: Keymap, layout: nat -> nat, keys: seq<ActiveKey>, i: nat, j: nat)
    requires IsUnambiguous(m) && IsLayout(layout)
    requires AreNamed(m, layout, keys) && AreSeparate(keys) && i < j < |keys|
    ensures keys[i].name != keys[j].name
  {
    assert IsNamed(m, layout, keys[i]) && IsNamed(m, layout, keys[j]);
    assert layout(keys[i].physical) != layout(keys[j].physical);
  }

  lemma NamedIsOnce(m: Keymap, layout: nat -> nat, keys: seq<ActiveKey>, other: seq<ActiveKey>)
    requires IsUnambiguous(m) && IsLayout(layout) && AreNamed(m, layout, keys) && AreSeparate(keys)
    ensures IsOnce(keys, other)
  {
    forall i, j | 0 <= i < j < |keys| ensures keys[i].name != keys[j].name {
      NamesDiffer(m, layout, keys, i, j);
    }
  }

  lemma HeldIsNamed(m: Keymap, layout: nat -> nat, previous: seq<ActiveKey>, t: Tick)
    requires AreNamed(m, layout, previous) && (t.Read? ==> OfKeyboard(layout, t.reading))
    ensures AreNamed(m, layout, Held(m, previous, t)) && AreSeparate(Held(m, previous, t))
  {
    if t.Read? {
      CurrentFits(m, t.reading, previous);
      WantedAreNamed(m, layout, t.reading, previous);
      WantedAreSeparate(m, layout, t.reading, previous);
    }
  }

  lemma {:induction false} RunIsNamed(m: Keymap, layout: nat -> nat, ticks: seq<Tick>)
    requires AllOfKeyboard(layout, ticks)
    ensures AreNamed(m, layout, Run(m, ticks).held) && AreSeparate(Run(m, ticks).held)
  {
    if ticks != [] {
      RunIsNamed(m, layout, ticks[..|ticks| - 1]);
      HeldIsNamed(m, layout, Run(m, ticks[..|ticks| - 1]).held, ticks[|ticks| - 1]);
    }
  }

  lemma {:induction false} RunIsClean(m: Keymap, layout: nat -> nat, ticks: seq<Tick>)
    requires IsUnambiguous(m) && IsLayout(layout) && AllOfKeyboard(layout, ticks)
    ensures AllClean(m, ticks)
  {
    if ticks != [] {
      var front := ticks[..|ticks| - 1];
      RunIsClean(m, layout, front);
      RunIsNamed(m, layout, front);
      RunIsNamed(m, layout, ticks);
      NamedIsOnce(m, layout, Run(m, front).held, Run(m, ticks).held);
      NamedIsOnce(m, layout, Run(m, ticks).held, Run(m, front).held);
    }
  }

  /** On a keyboard with tables in which no name has two values, the ups and downs of every name alternate. */
  lemma EventsAlternate(m: Keymap, layout: nat -> nat, ticks: seq<Tick>)
    requires IsUnambiguous(m) && IsLayout(layout) && AllOfKeyboard(layout, ticks)
    ensures Alternates({}, Run(m, ticks).sent)
  {
    RunIsClean(m, layout, ticks);
    EventsAlternateIff(m, ticks);
  }

  lemma LateNameIsLost(m: Keymap, layout: nat -> nat, keys: seq<ActiveKey>, n: nat)
    requires IsUnambiguous(m) && IsLayout(layout) && AreNamed(m, layout, keys) && AreSeparate(keys)
    requires CAPACITY <= n < |keys|
    ensures !Contains(Fitting(keys), keys[n].name)
  {
    forall j | 0 <= j < CAPACITY ensures keys[j].name != keys[n].name {
      NamesDiffer(m, layout, keys, j, n);
    }
  }

  /** On such a keyboard, a switch that stays down keeps its name exactly if there is room for it. */
  lemma NameStaysIff(m: Keymap, layout: nat -> nat, ticks: seq<Tick>, r: Reading, i: nat)
    requires IsUnambiguous(m) && IsLayout(layout) && AllOfKeyboard(layout, ticks) && OfKeyboard(layout, r)
    requires i < |r.positions| && IsPlain(m, r, r.positions[i])
    requires Latched(Run(m, ticks).held, r.positions[i].Physical()).Some?
    ensures var held := Run(m, ticks).held;
            Contains(Current(m, r, held), Latched(held, r.positions[i].Physical()).value.name)
            <==> Rank(m, r, held, i) < CAPACITY
  {
    var held := Run(m, ticks).held;
    NameStays(m, ticks, r, i);
    if Rank(m, r, held, i) >= CAPACITY {
      HeldAreShort(m, ticks);
      LatchedIsWanted(m, r, held, i);
      CurrentFits(m, r, held);
      RunIsNamed(m, layout, ticks);
      WantedAreNamed(m, layout, r, held);
      WantedAreSeparate(m, layout, r, held);
      LateNameIsLost(m, layout, Wanted(m, r, held), Rank(m, r, held, i));
    }
  }

  // ---- The tables of the firmware --------------------------------------------------------

  /** The numbers the keyboard library has for the keys without a character. */
  datatype Codes = Codes(leftCtrl: nat, leftShift: nat, leftAlt: nat, opt: nat, fn: nat,
                         backspace: nat, tab: nat, enter: nat)

  /** `mapFnKey`, by the arrow legends printed on the keys. */
  function ChordName(c: Codes, value: nat, functionKey: nat): Option<Name> {
    if value == ' ' as nat then
      Some(if functionKey == 14 then "f14" else if functionKey == 15 then "f15"
           else if functionKey == 16 then "f16" else "f13")
    else if value == ';' as nat then Some("up")
    else if value == ',' as nat then Some("left")
    else if value == '.' as nat then Some("down")
    else if value == '/' as nat then Some("right")
    else if value == '`' as nat then Some("escape")
    else if value == '[' as nat then Some("home")
    else if value == ']' as nat then Some("end")
    else if value == c.backspace then Some("delete_forward")
    else None
  }

  /** `mapSpecialKey`. */
  function SpecialName(c: Codes, value: nat): Option<Name> {
    if value == c.backspace then Some("backspace")
    else if value == c.tab then Some("tab")
    else if value == c.enter then Some("enter")
    else None
  }

  /** `isKeyboardModifier`. */
  predicate IsModifier(c: Codes, value: nat) {
    value == c.leftCtrl || value == c.leftShift || value == c.leftAlt || value == c.opt
  }

  /** `mapModifier`. */
  function ModifierName(c: Codes, value: nat): Option<Name> {
    if value == c.leftCtrl then Some("ctrl")
    else if value == c.leftAlt then Some("cmd")
    else if value == c.opt then Some("alt")
    else None
  }

  function Firmware(c: Codes): Keymap {
    Keymap((v: nat) => IsModifier(c, v), c.leftShift, c.fn,
           (v: nat) => ModifierName(c, v), (v: nat) => SpecialName(c, v),
           (v: nat, functionKey: nat) => ChordName(c, v, functionKey))
  }

  /** The value a name of these tables belongs to. */
  function ValueOf(c: Codes, name: Name): nat {
    if |name| == 1 then name[0] as nat
    else if name == "ctrl" then c.leftCtrl
    else if name == "cmd" then c.leftAlt
    else if name == "alt" then c.opt
    else if name == "backspace" || name == "delete_forward" then c.backspace
    else if name == "tab" then c.tab
    else if name == "enter" then c.enter
    else ArrowValueOf(name) as nat
  }

  function ArrowValueOf(name: Name): char {
    if name == "up" then ';'
    else if name == "left" then ','
    else if name == "down" then '.'
    else if name == "right" then '/'
    else if name == "escape" then '`'
    else if name == "home" then '['
    else if name == "end" then ']'
    else ' '
  }

  lemma ChordHasValue(c: Codes, value: nat, functionKey: nat, name: Name)
    requires IsCopy(ChordName(c, value, functionKey), name)
    ensures ValueOf(c, name) == value
  {
  }

  lemma NameHasValue(c: Codes, value: nat, name: Name)
    requires IsCalled(Firmware(c), value, name)
    ensures ValueOf(c, name) == value
  {
    if !IsModifier(c, value) && IsChord(Firmware(c), value, name) {
      var functionKey :| IsCopy(Firmware(c).chord(value, functionKey), name);
      ChordHasValue(c, value, functionKey, name);
    }
  }

  /** Whatever numbers the keyboard library has, no name in the tables of the firmware belongs to two values. */
  lemma TablesAreUnambiguous(c: Codes)
    ensures IsUnambiguous(Firmware(c))
  {
    forall v, w, name | IsCalled(Firmware(c), v, name) && IsCalled(Firmware(c), w, name) ensures v == w {
      NameHasValue(c, v, name);
      NameHasValue(c, w, name);
    }
  }

  /** So on every keyboard with a value of its own on each switch, the ups and downs of every name alternate. */
  lemma FirmwareAlternates(c: Codes, layout: nat -> nat, ticks: seq<Tick>)
    requires IsLayout(layout) && AllOfKeyboard(layout, ticks)
    ensures Alternates({}, Run(Firmware(c), ticks).sent)
  {
    TablesAreUnambiguous(c);
    EventsAlternate(Firmware(c), layout, ticks);
  }

  // ---- Seven keys ------------------------------------------------------------------------

  /** Six letters of one row. */
  function SixLetters(): seq<Position> {
    [Position(2, 2, 'a' as nat), Position(3, 2, 's' as nat), Position(4, 2, 'd' as nat),
     Position(5, 2, 'f' as nat), Position(6, 2, 'g' as nat), Position(7, 2, 'h' as nat)]
  }

  function Letters(): Reading {
    Reading(false, false, false, false, false, SixLetters(), 13)
  }

  function LettersAndCtrl(c: Codes): Reading {
    Reading(false, false, false, false, true, SixLetters() + [Position(0, 3, c.leftCtrl)], 13)
  }

  /** None of the keys without a character has the value of a letter. */
  predicate KeepsLetters(c: Codes) {
    c.leftCtrl > 122 && c.leftShift > 122 && c.leftAlt > 122 && c.fn > 122
    && c.opt < 97 && c.backspace < 97 && c.tab < 97 && c.enter < 97 && c.leftCtrl != c.leftShift
  }

  function LetterKey(r: Reading, p: Position): ActiveKey
    requires 97 <= p.value <= 122
  {
    Active(r, [p.value as char], p.Physical())
  }

  /** Each letter held so far is held under its own name. */
  ghost predicate AreLetters(r: Reading, keys: seq<ActiveKey>, n: nat) {
    |keys| == n <= 6 && forall i :: 0 <= i < n ==> keys[i] == LetterKey(r, SixLetters()[i])
  }

  lemma LetterIsGiven(c: Codes, r: Reading, previous: seq<ActiveKey>, p: Position)
    requires KeepsLetters(c) && 97 <= p.value <= 122 && !r.fn
    requires var latched := Latched(previous, p.Physical()); latched.Some? ==> latched.value.name == [p.value as char]
    ensures KeyAt(Firmware(c), r, previous, p) == Some(LetterKey(r, p)) && ModifierAt(Firmware(c), r, p).None?
  {
  }

  lemma LettersAreNumbered(i: nat)
    requires i < 6
    ensures SixLetters()[i].Physical() == 30 + i
  {
  }

  lemma LetterIsLatched(r: Reading, previous: seq<ActiveKey>, i: nat)
    requires i < 6 && (previous == [] || AreLetters(r, previous, 6))
    ensures var p := SixLetters()[i]; var latched := Latched(previous, p.Physical());
            latched.Some? ==> latched.value.name == [p.value as char]
  {
    LettersAreNumbered(i);
    var latched := Latched(previous, 30 + i);
    if latched.Some? {
      var j :| 0 <= j < 6 && previous[j] == latched.value;
      LettersAreNumbered(j);
    }
  }

  lemma OneMore(m: Keymap, r: Reading, previous: seq<ActiveKey>, positions: seq<Position>, p: Position)
    ensures KeysOf(m, r, previous, positions + [p]) == KeysOf(m, r, previous, positions) + One(KeyAt(m, r, previous, p))
    ensures ModifiersOf(m, r, positions + [p]) == ModifiersOf(m, r, positions) + One(ModifierAt(m, r, p))
  {
    assert (positions + [p])[..|positions|] == positions;
  }

  lemma OneMoreLetter(r: Reading, keys: seq<ActiveKey>, n: nat)
    requires n < 6 && AreLetters(r, keys, n)
    ensures AreLetters(r, keys + [LetterKey(r, SixLetters()[n])], n + 1)
  {
  }

  lemma {:induction false} LettersAreGiven(c: Codes, r: Reading, r0: Reading, previous: seq<ActiveKey>, n: nat)
    requires KeepsLetters(c) && !r.fn && n <= 6 && (previous == [] || AreLetters(r0, previous, 6))
    ensures AreLetters(r, KeysOf(Firmware(c), r, previous, SixLetters()[..n]), n)
  {
    if n > 0 {
      var front, last := SixLetters()[..n - 1], SixLetters()[n - 1];
      assert SixLetters()[..n] == front + [last];
      LettersAreGiven(c, r, r0, previous, n - 1);
      OneMoreLetter(r, KeysOf(Firmware(c), r, previous, front), n - 1);
      LetterIsLatched(r0, previous, n - 1);
      LetterIsGiven(c, r, previous, last);
      OneMore(Firmware(c), r, previous, front, last);
    }
  }

  lemma {:induction false} LettersAreNoModifiers(c: Codes, r: Reading, n: nat)
    requires KeepsLetters(c) && !r.fn && n <= 6
    ensures ModifiersOf(Firmware(c), r, SixLetters()[..n]) == []
  {
    if n > 0 {
      var front, last := SixLetters()[..n - 1], SixLetters()[n - 1];
      assert SixLetters()[..n] == front + [last];
      LettersAreNoModifiers(c, r, n - 1);
      LetterIsGiven(c, r, [], last);
      OneMore(Firmware(c), r, [], front, last);
    }
  }

  lemma LettersAreHeld(c: Codes)
    requires KeepsLetters(c)
    ensures AreLetters(Letters(), Current(Firmware(c), Letters(), []), 6)
  {
    assert SixLetters()[..6] == SixLetters();
    LettersAreGiven(c, Letters(), Letters(), [], 6);
    LettersAreNoModifiers(c, Letters(), 6);
    CurrentFits(Firmware(c), Letters(), []);
  }

  lemma SumOfOne(k: ActiveKey, keys: seq<ActiveKey>)
    ensures ([] + One(Some(k))) + (keys + One(None)) == [k] + keys
  {
  }

  lemma ModifierComesFirst(m: Keymap, r: Reading, previous: seq<ActiveKey>, positions: seq<Position>, p: Position)
    requires r.positions == positions + [p] && ModifiersOf(m, r, positions) == []
    requires ModifierAt(m, r, p).Some? && KeyAt(m, r, previous, p).None?
    ensures Current(m, r, previous) == Fitting([ModifierAt(m, r, p).value] + KeysOf(m, r, previous, positions))
  {
    var k, keys := ModifierAt(m, r, p).value, KeysOf(m, r, previous, positions);
    OneMore(m, r, previous, positions, p);
    SumOfOne(k, keys);
    CurrentFits(m, r, previous);
  }

  lemma CtrlIsGiven(c: Codes, previous: seq<ActiveKey>)
    requires KeepsLetters(c)
    ensures var m, r, p := Firmware(c), LettersAndCtrl(c), Position(0, 3, c.leftCtrl);
            && ModifierAt(m, r, p) == Some(Active(r, "ctrl", p.Physical())) && KeyAt(m, r, previous, p).None?
  {
  }

  lemma SixAfterCtrl(r: Reading, ctrl: ActiveKey, keys: seq<ActiveKey>)
    requires AreLetters(r, keys, 6) && ctrl.name == "ctrl"
    ensures !Contains(Fitting([ctrl] + keys), "h")
  {
    forall i | 0 <= i < 6 ensures ([ctrl] + keys)[i].name != "h" {
      if i > 0 {
        assert keys[i - 1] == LetterKey(r, SixLetters()[i - 1]);
        assert SixLetters()[i - 1].value != 'h' as nat;
      }
    }
  }

  lemma CtrlTakesAPlace(c: Codes, previous: seq<ActiveKey>)
    requires KeepsLetters(c) && AreLetters(Letters(), previous, 6)
    ensures !Contains(Current(Firmware(c), LettersAndCtrl(c), previous), "h")
  {
    var m, r, ctrl := Firmware(c), LettersAndCtrl(c), Position(0, 3, c.leftCtrl);
    assert SixLetters()[..6] == SixLetters();
    LettersAreGiven(c, r, Letters(), previous, 6);
    LettersAreNoModifiers(c, r, 6);
    CtrlIsGiven(c, previous);
    ModifierComesFirst(m, r, previous, SixLetters(), ctrl);
    SixAfterCtrl(r, ModifierAt(m, r, ctrl).value, KeysOf(m, r, previous, SixLetters()));
  }

  /** With six letters down, Ctrl takes a place of the list, and a letter goes up though its switch is down. */
  lemma SeventhKeyGoesUp(c: Codes)
    requires KeepsLetters(c)
    ensures var ticks := [Read(Letters()), Read(LettersAndCtrl(c))];
            && Contains(Run(Firmware(c), ticks[..1]).held, "h")
            && SixLetters()[5] in LettersAndCtrl(c).positions
            && IsPlain(Firmware(c), LettersAndCtrl(c), SixLetters()[5])
            && !Contains(Run(Firmware(c), ticks).held, "h")
  {
    var m, ticks := Firmware(c), [Read(Letters()), Read(LettersAndCtrl(c))];
    assert ticks[..1] == [Read(Letters())] && ticks[..1][..0] == [];
    assert Run(m, ticks[..1]).held == Current(m, Letters(), []);
    LettersAreHeld(c);
    assert Run(m, ticks[..1]).held[5].name == "h";
    CtrlTakesAPlace(c, Run(m, ticks[..1]).held);
    assert LettersAndCtrl(c).positions[5] == SixLetters()[5];
  }
}
