/**
  The key transmitter (firmware/m5stack-cardputer-adv/src/key_tx.cpp): the difference between two
  readings of the keyboard becomes up and down events.
 */
module KeyTransmissions {
  import opened Common

  const CAPACITY := 6
  const NAME_ROOM := 19
  const KEYS_PER_ROW := 14

  type Name = string

  /** A key switch that is down, and the value printed on it. */
  datatype Position = Position(x: nat, y: nat, value: nat) {
    function Physical(): nat {
      (y * KEYS_PER_ROW + x) % 256
    }
  }

  /** One reading: the modifier flags, the switches that are down, and the setting for Fn+Space. */
  datatype Reading = Reading(fn: bool, alt: bool, shift: bool, opt: bool, ctrl: bool, positions: seq<Position>,
                             functionKey: nat)

  datatype ActiveKey = ActiveKey(name: Name, physical: nat, cmd: bool, shift: bool, option: bool, control: bool)

  /** The tables of names; a value without a name is `None`. */
  datatype Keymap = Keymap(
    isModifier: nat -> bool,
    leftShift: nat,
    fnKey: nat,
    modifier: nat -> Option<Name>,
    special: nat -> Option<Name>,
    chord: (nat, nat) -> Option<Name>)

  /** `strlcpy` into a key's name. */
  function Copied(name: Name): Name {
    if |name| <= NAME_ROOM then name else name[..NAME_ROOM]
  }

  // ---- One reading -----------------------------------------------------------------------

  function Active(r: Reading, name: Name, physical: nat): ActiveKey {
    ActiveKey(name, physical, r.alt, r.shift, r.opt, r.ctrl)
  }

  /** Ctrl, Cmd and Option are keys of their own; Shift only ever is a flag. */
  function ModifierAt(m: Keymap, r: Reading, p: Position): Option<ActiveKey> {
    if !m.isModifier(p.value) || p.value == m.leftShift then None
    else
      match m.modifier(p.value)
      case None => None
      case Some(name) => Some(Active(r, Copied(name), p.Physical()))
  }

  /** `previousPhysical`. */
  function Latched(previous: seq<ActiveKey>, physical: nat): (k: Option<ActiveKey>)
    ensures k.Some? ==> k.value in previous && k.value.physical == physical
    ensures k.None? ==> forall i :: 0 <= i < |previous| ==> previous[i].physical != physical
  {
    if previous == [] then None
    else if previous[0].physical == physical then Some(previous[0])
    else Latched(previous[1..], physical)
  }

  /** A chord with Fn wins; else a switch keeps the name it was pressed with; else its own name. */
  function NameAt(m: Keymap, r: Reading, latched: Option<ActiveKey>, value: nat): Option<Name> {
    if value == m.fnKey || m.isModifier(value) then None
    else
      var mapped := if r.fn then m.chord(value, r.functionKey) else m.special(value);
      if r.fn && mapped.Some? then Some(Copied(mapped.value))
      else if latched.Some? then Some(Copied(latched.value.name))
      else if r.fn then None
      else if mapped.Some? then Some(Copied(mapped.value))
      else if 32 <= value <= 126 then Some([value as char])
      else None
  }

  function KeyAt(m: Keymap, r: Reading, previous: seq<ActiveKey>, p: Position): Option<ActiveKey> {
    match NameAt(m, r, Latched(previous, p.Physical()), p.value)
    case None => None
    case Some(name) => Some(Active(r, name, p.Physical()))
  }

  function Added(keys: seq<ActiveKey>, k: Option<ActiveKey>): seq<ActiveKey> {
    if k.Some? && |keys| < CAPACITY then keys + [k.value] else keys
  }

  function WithModifiers(m: Keymap, r: Reading, keys: seq<ActiveKey>, i: nat): (s: seq<ActiveKey>)
    requires i <= |r.positions| && |keys| <= CAPACITY
    ensures |s| <= CAPACITY && keys <= s
    decreases |r.positions| - i
  {
    if i == |r.positions| then keys
    else WithModifiers(m, r, Added(keys, ModifierAt(m, r, r.positions[i])), i + 1)
  }

  function WithKeys(m: Keymap, r: Reading, previous: seq<ActiveKey>, keys: seq<ActiveKey>, i: nat): (s: seq<ActiveKey>)
    requires i <= |r.positions| && |keys| <= CAPACITY
    ensures |s| <= CAPACITY && keys <= s
    decreases |r.positions| - i
  {
    if i == |r.positions| then keys
    else WithKeys(m, r, previous, Added(keys, KeyAt(m, r, previous, r.positions[i])), i + 1)
  }

  /** `buildCurrent`. */
  function Current(m: Keymap, r: Reading, previous: seq<ActiveKey>): (s: seq<ActiveKey>)
    ensures |s| <= CAPACITY
  {
    WithKeys(m, r, previous, WithModifiers(m, r, [], 0), 0)
  }

  // ---- Events ----------------------------------------------------------------------------

  datatype KeyEvent = KeyEvent(name: Name, down: bool, cmd: bool, shift: bool, option: bool, control: bool)

  predicate Contains(keys: seq<ActiveKey>, name: Name) {
    exists i :: 0 <= i < |keys| && keys[i].name == name
  }

  /** A modifier's own release does not carry its flag any more. */
  function UpEvent(k: ActiveKey): KeyEvent {
    KeyEvent(k.name, false, k.cmd && k.name != "cmd", k.shift, k.option && k.name != "alt",
             k.control && k.name != "ctrl")
  }

  function DownEvent(k: ActiveKey): KeyEvent {
    KeyEvent(k.name, true, k.cmd, k.shift, k.option, k.control)
  }

  /** The events of the keys whose names `other` lacks, in their order. */
  function Changes(keys: seq<ActiveKey>, other: seq<ActiveKey>, down: bool): seq<KeyEvent> {
    if keys == [] then []
    else
      var front, last := keys[..|keys| - 1], keys[|keys| - 1];
      if Contains(other, last.name) then Changes(front, other, down)
      else Changes(front, other, down) + [if down then DownEvent(last) else UpEvent(last)]
  }

  /** What one tick does: the keys now held, and the events it sends. */
  datatype Tick = Ignored | Read(reading: Reading)

  function Held(m: Keymap, previous: seq<ActiveKey>, t: Tick): seq<ActiveKey> {
    match t
    case Ignored => []
    case Read(r) => Current(m, r, previous)
  }

  function Sent(m: Keymap, previous: seq<ActiveKey>, t: Tick): seq<KeyEvent> {
    match t
    case Ignored => Changes(previous, [], false)
    case Read(r) =>
      var current := Current(m, r, previous);
      Changes(previous, current, false) + Changes(current, previous, true)
  }

  // ---- Replaying the events --------------------------------------------------------------

  function Replay(pressed: set<Name>, events: seq<KeyEvent>): set<Name> {
    if events == [] then pressed
    else
      var e := events[|events| - 1];
      var before := Replay(pressed, events[..|events| - 1]);
      if e.down then before + {e.name} else before - {e.name}
  }

  function Names(keys: seq<ActiveKey>): (names: set<Name>)
    ensures forall n :: n in names <==> Contains(keys, n)
  {
    set i | 0 <= i < |keys| :: keys[i].name
  }

  lemma {:induction false} ReplayOfSum(pressed: set<Name>, a: seq<KeyEvent>, b: seq<KeyEvent>)
    ensures Replay(pressed, a + b) == Replay(Replay(pressed, a), b)
  {
    if b == [] {
      assert a + b == a;
    } else {
      assert (a + b)[..|a + b| - 1] == a + b[..|b| - 1];
      ReplayOfSum(pressed, a, b[..|b| - 1]);
    }
  }

  lemma NamesOfFront(keys: seq<ActiveKey>)
    requires keys != []
    ensures Names(keys) == Names(keys[..|keys| - 1]) + {keys[|keys| - 1].name}
  {
    var front, last := keys[..|keys| - 1], keys[|keys| - 1];
    forall n ensures n in Names(keys) <==> n in Names(front) + {last.name} {
      if Contains(keys, n) {
        var i :| 0 <= i < |keys| && keys[i].name == n;
        assert i < |front| ==> front[i].name == n;
      }
      if Contains(front, n) {
        var i :| 0 <= i < |front| && front[i].name == n;
        assert keys[i].name == n;
      }
      assert keys[|keys| - 1].name == last.name;
    }
  }

  lemma {:induction false} ReplayUps(pressed: set<Name>, keys: seq<ActiveKey>, other: seq<ActiveKey>)
    ensures Replay(pressed, Changes(keys, other, false)) == pressed - (Names(keys) - Names(other))
  {
    if keys != [] {
      var front, last := keys[..|keys| - 1], keys[|keys| - 1];
      ReplayUps(pressed, front, other);
      NamesOfFront(keys);
      if !Contains(other, last.name) {
        ReplayOfSum(pressed, Changes(front, other, false), [UpEvent(last)]);
      }
    }
  }

  lemma {:induction false} ReplayDowns(pressed: set<Name>, keys: seq<ActiveKey>, other: seq<ActiveKey>)
    ensures Replay(pressed, Changes(keys, other, true)) == pressed + (Names(keys) - Names(other))
  {
    if keys != [] {
      var front, last := keys[..|keys| - 1], keys[|keys| - 1];
      ReplayDowns(pressed, front, other);
      NamesOfFront(keys);
      if !Contains(other, last.name) {
        ReplayOfSum(pressed, Changes(front, other, true), [DownEvent(last)]);
      }
    }
  }

  lemma TickReplays(m: Keymap, previous: seq<ActiveKey>, t: Tick)
    ensures Replay(Names(previous), Sent(m, previous, t)) == Names(Held(m, previous, t))
  {
    match t
    case Ignored => ReplayUps(Names(previous), previous, []);
    case Read(r) =>
      var current := Current(m, r, previous);
      ReplayUps(Names(previous), previous, current);
      ReplayDowns(Names(previous) - (Names(previous) - Names(current)), current, previous);
      ReplayOfSum(Names(previous), Changes(previous, current, false), Changes(current, previous, true));
  }

  datatype Log = Log(held: seq<ActiveKey>, sent: seq<KeyEvent>)

  function Run(m: Keymap, ticks: seq<Tick>): Log {
    if ticks == [] then Log([], [])
    else
      var before, t := Run(m, ticks[..|ticks| - 1]), ticks[|ticks| - 1];
      Log(Held(m, before.held, t), before.sent + Sent(m, before.held, t))
  }

  /** Whatever is pressed when, replaying all events sent gives exactly the names held now. */
  lemma {:induction false} EventsTellWhatIsHeld(m: Keymap, ticks: seq<Tick>)
    ensures Replay({}, Run(m, ticks).sent) == Names(Run(m, ticks).held)
  {
    if ticks != [] {
      var before, t := Run(m, ticks[..|ticks| - 1]), ticks[|ticks| - 1];
      EventsTellWhatIsHeld(m, ticks[..|ticks| - 1]);
      ReplayOfSum({}, before.sent, Sent(m, before.held, t));
      TickReplays(m, before.held, t);
    }
  }

  // ---- Alternation -----------------------------------------------------------------------

  /** Each down is of a name that is up, each up of one that is down. */
  predicate Alternates(pressed: set<Name>, events: seq<KeyEvent>) {
    events == []
    || (var front, e := events[..|events| - 1], events[|events| - 1];
        Alternates(pressed, front) && (e.down <==> e.name !in Replay(pressed, front)))
  }

  /** No name that `other` lacks is there twice. */
  predicate IsOnce(keys: seq<ActiveKey>, other: seq<ActiveKey>) {
    forall i, j :: 0 <= i < j < |keys| && keys[i].name == keys[j].name ==> Contains(other, keys[i].name)
  }

  lemma OnceOfFront(keys: seq<ActiveKey>, other: seq<ActiveKey>)
    requires keys != []
    ensures var front, last := keys[..|keys| - 1], keys[|keys| - 1];
            IsOnce(keys, other) <==> IsOnce(front, other) && (Contains(front, last.name) ==> Contains(other, last.name))
  {
    var front, last := keys[..|keys| - 1], keys[|keys| - 1];
    if IsOnce(front, other) && (Contains(front, last.name) ==> Contains(other, last.name)) {
      forall i, j | 0 <= i < j < |keys| && keys[i].name == keys[j].name ensures Contains(other, keys[i].name) {
        assert front[i] == keys[i];
        if j < |front| {
          assert front[j] == keys[j];
        }
      }
    }
  }

  /** Whether `pressed` is right for all events of these keys: the ups are of names in it, the downs are not. */
  predicate Fits(pressed: set<Name>, keys: seq<ActiveKey>, other: seq<ActiveKey>, down: bool) {
    forall n :: n in Names(keys) - Names(other) ==> (n in pressed <==> !down)
  }

  lemma LastAlternates(pressed: set<Name>, keys: seq<ActiveKey>, other: seq<ActiveKey>, down: bool)
    requires keys != [] && Fits(pressed, keys, other, down) && !Contains(other, keys[|keys| - 1].name)
    ensures var front, last := keys[..|keys| - 1], keys[|keys| - 1];
            Alternates(pressed, Changes(keys, other, down))
            <==> Alternates(pressed, Changes(front, other, down)) && !Contains(front, last.name)
  {
    var front, last := keys[..|keys| - 1], keys[|keys| - 1];
    NamesOfFront(keys);
    assert last.name in Names(keys) - Names(other);
    if down {
      ReplayDowns(pressed, front, other);
    } else {
      ReplayUps(pressed, front, other);
    }
    var c := Changes(keys, other, down);
    assert c[..|c| - 1] == Changes(front, other, down);
  }

  lemma {:induction false} ChangesAlternate(pressed: set<Name>, keys: seq<ActiveKey>, other: seq<ActiveKey>, down: bool)
    requires Fits(pressed, keys, other, down)
    ensures Alternates(pressed, Changes(keys, other, down)) <==> IsOnce(keys, other)
  {
    if keys != [] {
      var front, last := keys[..|keys| - 1], keys[|keys| - 1];
      NamesOfFront(keys);
      OnceOfFront(keys, other);
      ChangesAlternate(pressed, front, other, down);
      if !Contains(other, last.name) {
        LastAlternates(pressed, keys, other, down);
      }
    }
  }

  lemma {:induction false} AlternatesInParts(pressed: set<Name>, a: seq<KeyEvent>, b: seq<KeyEvent>)
    ensures Alternates(pressed, a + b) <==> Alternates(pressed, a) && Alternates(Replay(pressed, a), b)
  {
    if b == [] {
      assert a + b == a;
    } else {
      assert (a + b)[..|a + b| - 1] == a + b[..|b| - 1];
      AlternatesInParts(pressed, a, b[..|b| - 1]);
      ReplayOfSum(pressed, a, b[..|b| - 1]);
    }
  }

  /** No key that comes or goes in this tick shares its name with another that does. */
  predicate IsClean(m: Keymap, previous: seq<ActiveKey>, t: Tick) {
    IsOnce(previous, Held(m, previous, t)) && IsOnce(Held(m, previous, t), previous)
  }

  lemma TickAlternates(m: Keymap, previous: seq<ActiveKey>, t: Tick)
    ensures Alternates(Names(previous), Sent(m, previous, t)) <==> IsClean(m, previous, t)
  {
    var current := Held(m, previous, t);
    ChangesAlternate(Names(previous), previous, current, false);
    if t.Read? {
      ReplayUps(Names(previous), previous, current);
      ChangesAlternate(Names(previous) - (Names(previous) - Names(current)), current, previous, true);
      AlternatesInParts(Names(previous), Changes(previous, current, false), Changes(current, previous, true));
    }
  }

  predicate AllClean(m: Keymap, ticks: seq<Tick>) {
    ticks == []
    || (AllClean(m, ticks[..|ticks| - 1]) && IsClean(m, Run(m, ticks[..|ticks| - 1]).held, ticks[|ticks| - 1]))
  }

  /** The events of every name alternate exactly if two switches never share a name that comes or goes. */
  lemma {:induction false} EventsAlternateIff(m: Keymap, ticks: seq<Tick>)
    ensures Alternates({}, Run(m, ticks).sent) <==> AllClean(m, ticks)
  {
    if ticks != [] {
      var before, t := Run(m, ticks[..|ticks| - 1]), ticks[|ticks| - 1];
      EventsAlternateIff(m, ticks[..|ticks| - 1]);
      EventsTellWhatIsHeld(m, ticks[..|ticks| - 1]);
      TickAlternates(m, before.held, t);
      AlternatesInParts({}, before.sent, Sent(m, before.held, t));
    }
  }

  /** A layout that printed one value on two switches would send two downs of the same name. */
  lemma SharedNamesRepeat(m: Keymap)
    requires !m.isModifier(97) && m.fnKey != 97 && m.special(97).None?
    ensures var r := Reading(false, false, false, false, false, [Position(0, 0, 97), Position(1, 0, 97)], 13);
            !Alternates({}, Run(m, [Read(r)]).sent)
  {
    var r := Reading(false, false, false, false, false, [Position(0, 0, 97), Position(1, 0, 97)], 13);
    var k0, k1 := Active(r, "a", 0), Active(r, "a", 1);
    assert WithModifiers(m, r, [], 0) == [];
    assert KeyAt(m, r, [], r.positions[0]) == Some(k0);
    assert KeyAt(m, r, [], r.positions[1]) == Some(k1);
    assert WithKeys(m, r, [], [k0, k1], 2) == [k0, k1];
    assert WithKeys(m, r, [], [k0], 1) == [k0, k1];
    assert Current(m, r, []) == [k0, k1];
    assert [Read(r)][..0] == [];
    assert Held(m, [], Read(r)) == [k0, k1];
    assert [k0, k1][0].name == [k0, k1][1].name && !Contains([], "a");
    assert !IsOnce([k0, k1], []);
    assert !IsClean(m, [], Read(r));
    EventsAlternateIff(m, [Read(r)]);
  }
}
