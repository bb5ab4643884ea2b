/**
  What a key pressed or released makes the transmitter send (key_tx.cpp:35-103 of the firmware): which name,
  and with which modifiers.
 */
module KeyPresses {
  import opened Common
  import opened KeyTransmissions
  import opened KeyNames

  /** The name of a switch newly pressed: its chord while Fn is down, else its special name, else its character. */
  predicate IsFreshName(m: Keymap, r: Reading, value: nat, name: Name) {
    && value != m.fnKey && !m.isModifier(value) && |name| <= 19
    && if r.fn then m.chord(value, r.functionKey) == Some(name)
       else if m.special(value).Some? then m.special(value) == Some(name)
       else 32 <= value <= 126 && name == [value as char]
  }

  /** Ctrl, Cmd and Option have names of their own; Shift has none. */
  predicate IsModifierName(m: Keymap, value: nat, name: Name) {
    m.isModifier(value) && value != m.leftShift && m.modifier(value) == Some(name) && |name| <= 19
  }

  /** A press carries the modifiers of the reading: Alt is Cmd, Opt is Option. */
  function Pressed(r: Reading, name: Name): KeyEvent {
    KeyEvent(name, true, r.alt, r.shift, r.opt, r.ctrl)
  }

  /** A release carries those of the key as it was last seen, but no modifier carries its own flag. */
  function Released(k: ActiveKey): KeyEvent {
    KeyEvent(k.name, false, if k.name == "cmd" then false else k.cmd, k.shift,
             if k.name == "alt" then false else k.option, if k.name == "ctrl" then false else k.control)
  }

  lemma {:induction false} ChangesTell(keys: seq<ActiveKey>, other: seq<ActiveKey>, down: bool, i: nat)
    requires i < |keys| && !Contains(other, keys[i].name)
    ensures (if down then DownEvent(keys[i]) else UpEvent(keys[i])) in Changes(keys, other, down)
  {
    if i < |keys| - 1 {
      ChangesTell(keys[..|keys| - 1], other, down, i);
    }
  }

  lemma {:induction false} ModifierIsAt(m: Keymap, r: Reading, positions: seq<Position>, i: nat)
    requires i < |positions| && ModifierAt(m, r, positions[i]).Some?
    ensures var n := |ModifiersOf(m, r, positions[..i])|;
            n < |ModifiersOf(m, r, positions)|
            && ModifiersOf(m, r, positions)[n] == ModifierAt(m, r, positions[i]).value
  {
    var last := |positions| - 1;
    if i < last {
      ModifierIsAt(m, r, positions[..last], i);
      assert positions[..last][..i] == positions[..i];
    }
  }

  /** The place of a modifier's key among those wanted. */
  function ModifierRank(m: Keymap, r: Reading, i: nat): nat
    requires i < |r.positions|
  {
    |ModifiersOf(m, r, r.positions[..i])|
  }

  lemma WantedGoesDown(m: Keymap, r: Reading, previous: seq<ActiveKey>, n: nat)
    requires n < |Wanted(m, r, previous)| && n < CAPACITY
    requires !Contains(previous, Wanted(m, r, previous)[n].name)
    ensures DownEvent(Wanted(m, r, previous)[n]) in Sent(m, previous, Read(r))
  {
    CurrentFits(m, r, previous);
    ChangesTell(Current(m, r, previous), previous, true, n);
  }

  /**
    A switch newly pressed, with fewer than six keys before its own, sends a press of its name with the
    modifiers of the reading, unless a key of that name is held.
   */
  lemma PressIsSent(m: Keymap, r: Reading, previous: seq<ActiveKey>, i: nat, name: Name)
    requires i < |r.positions| && IsFreshName(m, r, r.positions[i].value, name)
    requires forall j :: 0 <= j < |previous| ==> previous[j].physical != r.positions[i].Physical()
    requires Rank(m, r, previous, i) < 6 && !Contains(previous, name)
    ensures Pressed(r, name) in Sent(m, previous, Read(r))
  {
    KeyIsAtRank(m, r, previous, i);
    WantedGoesDown(m, r, previous, Rank(m, r, previous, i));
  }

  /** So does Ctrl, Cmd or Option, which come before all other keys. */
  lemma ModifierPressIsSent(m: Keymap, r: Reading, previous: seq<ActiveKey>, i: nat, name: Name)
    requires i < |r.positions| && IsModifierName(m, r.positions[i].value, name)
    requires ModifierRank(m, r, i) < 6 && !Contains(previous, name)
    ensures Pressed(r, name) in Sent(m, previous, Read(r))
  {
    ModifierIsAt(m, r, r.positions, i);
    WantedGoesDown(m, r, previous, ModifierRank(m, r, i));
  }

  /** A key whose name is held no more sends its release, also when the keyboard is taken away. */
  lemma ReleaseIsSent(m: Keymap, previous: seq<ActiveKey>, t: Tick, i: nat)
    requires i < |previous| && !Contains(Held(m, previous, t), previous[i].name)
    ensures Released(previous[i]) in Sent(m, previous, t)
  {
    ChangesTell(previous, Held(m, previous, t), false, i);
  }

  /** A switch gives no key if it has no name: Shift, Fn, and while Fn is down whatever makes no chord with it. */
  lemma GivesKeyIff(m: Keymap, r: Reading, previous: seq<ActiveKey>, p: Position)
    requires forall j :: 0 <= j < |previous| ==> previous[j].physical != p.Physical()
    ensures KeyAt(m, r, previous, p).Some?
            <==> && p.value != m.fnKey && !m.isModifier(p.value)
                 && if r.fn then m.chord(p.value, r.functionKey).Some?
                    else m.special(p.value).Some? || 32 <= p.value <= 126
    ensures ModifierAt(m, r, p).Some?
            <==> m.isModifier(p.value) && p.value != m.leftShift && m.modifier(p.value).Some?
  {
  }

  /** A switch that stays down keeps the name it was pressed with, unless it makes a chord with Fn. */
  lemma HeldKeepsName(m: Keymap, r: Reading, previous: seq<ActiveKey>, p: Position, k: ActiveKey)
    requires Latched(previous, p.Physical()) == Some(k) && |k.name| <= 19
    requires p.value != m.fnKey && !m.isModifier(p.value)
    ensures var after := KeyAt(m, r, previous, p);
            && after.Some? && after.value == ActiveKey(after.value.name, p.Physical(), r.alt, r.shift, r.opt, r.ctrl)
            && if r.fn && m.chord(p.value, r.functionKey).Some?
               then IsCopy(m.chord(p.value, r.functionKey), after.value.name)
               else after.value.name == k.name
  {
  }
}
