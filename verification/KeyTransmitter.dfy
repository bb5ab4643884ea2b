/** The transmitter itself, with the keys last seen in an array of six. */
module KeyTransmitters {
  import opened Common
  import opened KeyTransmissions

  class KeyTransmitter {
    const keymap: Keymap
    const previous: array<ActiveKey>
    var previousCount: nat
    var sentKeys: nat
    ghost var sent: seq<KeyEvent>

    constructor (keymap: Keymap)
      ensures Valid() && fresh(previous) && this.keymap == keymap && Keys() == [] && sent == []
    {
      this.keymap := keymap;
      previous := new ActiveKey[CAPACITY](_ => ActiveKey("", 0xFF, false, false, false, false));
      previousCount, sentKeys, sent := 0, 0, [];
    }

    ghost predicate Valid()
      reads this
    {
      previous.Length == CAPACITY && previousCount <= CAPACITY
    }

    ghost function Keys(): seq<ActiveKey>
      reads this, previous
      requires Valid()
    {
      previous[..previousCount]
    }

    method Tick(uiConsumesKeyboard: bool, connected: bool, r: Reading)
      requires Valid()
      modifies this, previous
      ensures Valid()
      ensures var t := if uiConsumesKeyboard || !connected then Ignored else Read(r);
              Keys() == Held(keymap, old(Keys()), t) && sent == old(sent) + Sent(keymap, old(Keys()), t)
    {
      if uiConsumesKeyboard || !connected {
        ReleaseAll();
        return;
      }
      var current := new ActiveKey[CAPACITY](_ => ActiveKey("", 0xFF, false, false, false, false));
      var count := BuildCurrent(r, current);
      Exchange(current, count);
    }

    /** Sends what changed, and remembers the keys that are down now. */
    method Exchange(current: array<ActiveKey>, count: nat)
      requires Valid() && current.Length == CAPACITY && count <= CAPACITY && current != previous
      modifies this, previous
      ensures Valid() && Keys() == current[..count]
      ensures sent == old(sent) + (Changes(old(Keys()), current[..count], false)
                                   + Changes(current[..count], old(Keys()), true))
    {
      SendChanges(previous, previousCount, current, count, false);
      SendChanges(current, count, previous, previousCount, true);
      CopyKeys(current, count);
      previousCount := count;
    }

    /** `memcpy` into the keys last seen. */
    method CopyKeys(source: array<ActiveKey>, count: nat)
      requires previous.Length == source.Length == CAPACITY && count <= CAPACITY && source != previous
      modifies previous
      ensures previous[..count] == source[..count]
    {
      forall i | 0 <= i < count {
        previous[i] := source[i];
      }
    }

    method SendChanges(keys: array<ActiveKey>, count: nat, other: array<ActiveKey>, otherCount: nat, down: bool)
      requires count <= keys.Length && otherCount <= other.Length
      modifies this`sentKeys, this`sent
      ensures sent == old(sent) + Changes(keys[..count], other[..otherCount], down)
    {
      var i := 0;
      while i < count
        invariant i <= count
        invariant sent == old(sent) + Changes(keys[..i], other[..otherCount], down)
      {
        var found := HasName(other, otherCount, keys[i].name);
        assert keys[..i + 1][..i] == keys[..i];
        if !found {
          Send(keys[i], down);
        }
        i := i + 1;
      }
    }

    method HasName(keys: array<ActiveKey>, count: nat, name: Name) returns (found: bool)
      requires count <= keys.Length
      ensures found == Contains(keys[..count], name)
    {
      for i := 0 to count
        invariant forall j :: 0 <= j < i ==> keys[j].name != name
      {
        if keys[i].name == name {
          assert keys[..count][i].name == name;
          return true;
        }
      }
      found := false;
    }

    /** `send`, to a connection that may or may not deliver it. */
    method Send(k: ActiveKey, down: bool)
      modifies this`sentKeys, this`sent
      ensures sent == old(sent) + [if down then DownEvent(k) else UpEvent(k)]
      ensures sentKeys == old(sentKeys) + if down then 1 else 0
    {
      var cmd, option, control := k.cmd, k.option, k.control;
      if !down {
        if k.name == "cmd" {
          cmd := false;
        }
        if k.name == "alt" {
          option := false;
        }
        if k.name == "ctrl" {
          control := false;
        }
      } else {
        sentKeys := sentKeys + 1;
      }
      sent := sent + [KeyEvent(k.name, down, cmd, k.shift, option, control)];
    }

    method ReleaseAll()
      requires Valid()
      modifies this
      ensures Valid() && Keys() == [] && sent == old(sent) + Changes(old(Keys()), [], false)
    {
      var i := 0;
      while i < previousCount
        invariant i <= previousCount == old(previousCount)
        invariant sent == old(sent) + Changes(previous[..i], [], false)
      {
        assert previous[..i + 1][..i] == previous[..i];
        Send(previous[i], false);
        i := i + 1;
      }
      previousCount := 0;
    }

    method PreviousPhysical(physical: nat) returns (k: Option<ActiveKey>)
      requires Valid()
      ensures k == Latched(Keys(), physical)
    {
      var i := 0;
      while i < previousCount && previous[i].physical != physical
        invariant i <= previousCount
        invariant Latched(Keys()[i..], physical) == Latched(Keys(), physical)
      {
        i := i + 1;
      }
      k := if i < previousCount then Some(previous[i]) else None;
    }

    method Add(output: array<ActiveKey>, count: nat, k: Option<ActiveKey>) returns (n: nat)
      requires output.Length == CAPACITY && count <= CAPACITY
      modifies output
      ensures n <= CAPACITY && output[..n] == Added(old(output[..count]), k)
    {
      n := count;
      if k.Some? && count < CAPACITY {
        output[count] := k.value;
        n := count + 1;
      }
    }

    method AddModifiers(r: Reading, output: array<ActiveKey>) returns (count: nat)
      requires output.Length == CAPACITY
      modifies output
      ensures count <= CAPACITY && output[..count] == WithModifiers(keymap, r, [], 0)
    {
      count := 0;
      for i := 0 to |r.positions|
        invariant count <= CAPACITY
        invariant WithModifiers(keymap, r, output[..count], i) == WithModifiers(keymap, r, [], 0)
      {
        count := Add(output, count, ModifierAt(keymap, r, r.positions[i]));
      }
    }

    method BuildCurrent(r: Reading, output: array<ActiveKey>) returns (count: nat)
      requires Valid() && output.Length == CAPACITY && output != previous
      modifies output
      ensures count <= CAPACITY && output[..count] == Current(keymap, r, Keys())
    {
      count := AddModifiers(r, output);
      for i := 0 to |r.positions|
        invariant count <= CAPACITY
        invariant WithKeys(keymap, r, Keys(), output[..count], i) == Current(keymap, r, Keys())
      {
        var k := FindKey(r, r.positions[i]);
        ghost var keys := output[..count];
        count := Add(output, count, k);
        assert output[..count] == Added(keys, k);
      }
    }

    method FindKey(r: Reading, p: Position) returns (k: Option<ActiveKey>)
      requires Valid()
      ensures k == KeyAt(keymap, r, Keys(), p)
    {
      if p.value == keymap.fnKey || keymap.isModifier(p.value) {
        return None;
      }
      var latched := PreviousPhysical(p.Physical());
      var mapped := if r.fn then keymap.chord(p.value, r.functionKey) else keymap.special(p.value);
      var name;
      if r.fn && mapped.Some? {
        name := Copied(mapped.value);
      } else if latched.Some? {
        name := Copied(latched.value.name);
      } else if r.fn {
        return None;
      } else if mapped.Some? {
        name := Copied(mapped.value);
      } else if 32 <= p.value <= 126 {
        name := [p.value as char];
      } else {
        return None;
      }
      k := Some(ActiveKey(name, p.Physical(), r.alt, r.shift, r.opt, r.ctrl));
    }
  }
}
