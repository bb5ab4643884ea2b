/** The hooks file in memory, edited in place event by event and group by group. */
module HooksFiles {
  import opened CodexHooks

  class HooksFile {
    const show: Show
    const events: seq<string>
    var document: Document

    constructor (show: Show, document: Document)
      ensures this.show == show && this.events == EVENTS && this.document == document
    {
      this.show, this.events, this.document := show, EVENTS, document;
    }

    method Transform(command: string, install: bool) returns (ok: bool)
      modifies this
      ensures (document, ok) == Transformed(show, old(document), events, command, install)
    {
      if HOOKS in document && !document[HOOKS].Obj? {
        return false;
      }
      var root := if HOOKS in document then document[HOOKS].fields else map[];
      root, ok := TransformEvents(root, command, install);
      if ok && root == map[] {
        document := document - {HOOKS};
      } else {
        document := document[HOOKS := Obj(root)];
      }
    }

    method TransformEvents(before: Document, command: string, install: bool) returns (root: Document, ok: bool)
      ensures (root, ok) == EachEvent(show, before, events, command, install)
    {
      root := before;
      var i := 0;
      assert events[0..] == events;
      while i < |events|
        invariant i <= |events|
        invariant EachEvent(show, root, events[i..], command, install)
                  == EachEvent(show, before, events, command, install)
      {
        var event := events[i];
        assert events[i..][1..] == events[i + 1..];
        if event in root && !root[event].Arr? {
          return root, false;
        }
        var groups := if event in root then root[event].items else [];
        var cleaned := CleanGroups(groups);
        assert cleaned + [] == cleaned;
        if install {
          cleaned := cleaned + [OwnGroup(command)];
        }
        if cleaned != [] {
          root := root[event := Arr(cleaned)];
        } else {
          root := root - {event};
        }
        i := i + 1;
      }
      ok := true;
    }

    method CleanGroups(groups: seq<Json>) returns (cleaned: seq<Json>)
      ensures cleaned == Cleaned(show, groups)
    {
      cleaned := [];
      assert groups[..0] == [];
      for i := 0 to |groups|
        invariant cleaned == Cleaned(show, groups[..i])
      {
        var group := groups[i];
        assert groups[..i + 1] == groups[..i] + [group];
        CleanedOfSum(show, groups[..i], [group]);
        assert Cleaned(show, [group]) == CleanedGroup(show, group) + [];
        if !HasHooks(group) {
          cleaned := cleaned + [group];
          continue;
        }
        var remaining := Foreign(show, group.fields[HOOKS].items);
        if remaining != [] {
          cleaned := cleaned + [Obj(group.fields[HOOKS := Arr(remaining)])];
        }
      }
      assert groups[..|groups|] == groups;
    }

    method HooksInstalled() returns (installed: bool)
      ensures installed == IsInstalled(show, document, events)
    {
      if HOOKS !in document || !document[HOOKS].Obj? {
        return false;
      }
      var root := document[HOOKS].fields;
      for i := 0 to |events|
        invariant forall k :: 0 <= k < i ==> HasCurrent(show, Groups(root, events[k]))
      {
        var found := FindCurrent(Groups(root, events[i]));
        if !found {
          return false;
        }
      }
      installed := true;
    }

    method FindCurrent(groups: seq<Json>) returns (found: bool)
      ensures found == HasCurrent(show, groups)
    {
      for i := 0 to |groups|
        invariant forall k :: 0 <= k < i ==> !AnyCurrent(show, HooksOf(groups[k]))
      {
        if AnyCurrent(show, HooksOf(groups[i])) {
          return true;
        }
      }
      found := false;
    }
  }
}
