/**
  Installing and removing the hook in the user's hooks file (bridge/agent/cardbridge/codex_hooks.py).

  A document is a JSON value; objects are maps, so the order of their keys is not modelled. How a
  value other than a string is turned into text is an arbitrary function.
 */
module CodexHooks {

  datatype Json = Obj(fields: map<string, Json>) | Arr(items: seq<Json>) | Str(text: string) | Num(value: int) | Other

  type Document = map<string, Json>

  type Show = Json -> string

  const HOOKS := "hooks"
  const CURRENT_MARKER := "--cardbridge-codex-hook"
  const OLD_MARKER := "cardbridge_codex.py"
  const EVENTS: seq<string> :=
    ["SessionStart", "UserPromptSubmit", "PreToolUse", "PermissionRequest", "PostToolUse", "Stop"]

  // ---- Hooks -----------------------------------------------------------------------------

  predicate Mentions(text: string, marker: string) {
    exists i :: 0 <= i <= |text| && marker <= text[i..]
  }

  /** `str(hook.get("command", ""))`. */
  function CommandText(show: Show, hook: Json): string
    requires hook.Obj?
  {
    if "command" !in hook.fields then ""
    else if hook.fields["command"].Str? then hook.fields["command"].text
    else show(hook.fields["command"])
  }

  predicate IsCommand(hook: Json) {
    hook.Obj? && "type" in hook.fields && hook.fields["type"] == Str("command")
  }

  predicate IsOurs(show: Show, hook: Json) {
    IsCommand(hook)
    && (Mentions(CommandText(show, hook), CURRENT_MARKER) || Mentions(CommandText(show, hook), OLD_MARKER))
  }

  predicate IsCurrent(show: Show, hook: Json) {
    IsCommand(hook) && Mentions(CommandText(show, hook), CURRENT_MARKER)
  }

  function OwnHook(command: string): Json {
    Obj(map["type" := Str("command"), "command" := Str(command), "timeout" := Num(2)])
  }

  function OwnGroup(command: string): Json {
    Obj(map[HOOKS := Arr([OwnHook(command)])])
  }

  // ---- Groups ----------------------------------------------------------------------------

  predicate HasHooks(group: Json) {
    group.Obj? && HOOKS in group.fields && group.fields[HOOKS].Arr?
  }

  function HooksOf(group: Json): seq<Json> {
    if HasHooks(group) then group.fields[HOOKS].items else []
  }

  function Foreign(show: Show, hooks: seq<Json>): seq<Json> {
    if hooks == [] then []
    else if IsOurs(show, hooks[0]) then Foreign(show, hooks[1..])
    else [hooks[0]] + Foreign(show, hooks[1..])
  }

  function Owned(show: Show, hooks: seq<Json>): seq<Json> {
    if hooks == [] then []
    else if IsOurs(show, hooks[0]) then [hooks[0]] + Owned(show, hooks[1..])
    else Owned(show, hooks[1..])
  }

  /** A group without its owned hooks; one that has no others goes away. */
  function CleanedGroup(show: Show, group: Json): seq<Json> {
    if !HasHooks(group) then [group]
    else
      var remaining := Foreign(show, HooksOf(group));
      if remaining == [] then [] else [Obj(group.fields[HOOKS := Arr(remaining)])]
  }

  function Cleaned(show: Show, groups: seq<Json>): seq<Json> {
    if groups == [] then [] else CleanedGroup(show, groups[0]) + Cleaned(show, groups[1..])
  }

  function NewGroups(show: Show, groups: seq<Json>, command: string, install: bool): seq<Json> {
    Cleaned(show, groups) + if install then [OwnGroup(command)] else []
  }

  // ---- Documents -------------------------------------------------------------------------

  function Groups(root: Document, event: string): seq<Json> {
    if event in root && root[event].Arr? then root[event].items else []
  }

  function WithGroups(root: Document, event: string, groups: seq<Json>): Document {
    if groups == [] then root - {event} else root[event := Arr(groups)]
  }

  predicate IsListed(root: Document, event: string) {
    event in root ==> root[event].Arr?
  }

  /** The events in turn; stops at one that is not a list. */
  function EachEvent(show: Show, root: Document, events: seq<string>, command: string, install: bool): (Document, bool)
    decreases |events|
  {
    if events == [] then (root, true)
    else if !IsListed(root, events[0]) then (root, false)
    else
      EachEvent(show, WithGroups(root, events[0], NewGroups(show, Groups(root, events[0]), command, install)),
                events[1..], command, install)
  }

  function RootOf(d: Document): Document {
    if HOOKS in d && d[HOOKS].Obj? then d[HOOKS].fields else map[]
  }

  function WithRoot(d: Document, root: Document): Document {
    if root == map[] then d - {HOOKS} else d[HOOKS := Obj(root)]
  }

  /** The document afterwards, and whether no error was raised; after an error some events may be done. */
  function Transformed(show: Show, d: Document, events: seq<string>, command: string, install: bool): (Document, bool) {
    if HOOKS in d && !d[HOOKS].Obj? then (d, false)
    else
      var (root, ok) := EachEvent(show, RootOf(d), events, command, install);
      if ok then (WithRoot(d, root), true) else (d[HOOKS := Obj(root)], false)
  }

  predicate AnyCurrent(show: Show, hooks: seq<Json>) {
    exists k :: 0 <= k < |hooks| && IsCurrent(show, hooks[k])
  }

  predicate HasCurrent(show: Show, groups: seq<Json>) {
    exists i :: 0 <= i < |groups| && AnyCurrent(show, HooksOf(groups[i]))
  }

  predicate IsInstalled(show: Show, d: Document, events: seq<string>) {
    && HOOKS in d && d[HOOKS].Obj?
    && forall k :: 0 <= k < |events| ==> HasCurrent(show, Groups(RootOf(d), events[k]))
  }

  predicate IsWellFormed(d: Document, events: seq<string>) {
    (HOOKS in d ==> d[HOOKS].Obj?) && AreListed(RootOf(d), events)
  }

  predicate AreListed(root: Document, events: seq<string>) {
    forall k :: 0 <= k < |events| ==> IsListed(root, events[k])
  }

  // ---- Cleaning --------------------------------------------------------------------------

  lemma {:induction false} ForeignTwice(show: Show, hooks: seq<Json>)
    ensures Foreign(show, Foreign(show, hooks)) == Foreign(show, hooks)
    ensures Owned(show, Foreign(show, hooks)) == []
  {
    if hooks != [] {
      ForeignTwice(show, hooks[1..]);
      if !IsOurs(show, hooks[0]) {
        assert Foreign(show, hooks)[1..] == Foreign(show, hooks[1..]);
      }
    }
  }

  lemma {:induction false} CleanedOfSum(show: Show, a: seq<Json>, b: seq<Json>)
    ensures Cleaned(show, a + b) == Cleaned(show, a) + Cleaned(show, b)
  {
    if a == [] {
      assert a + b == b;
    } else {
      assert (a + b)[1..] == a[1..] + b;
      CleanedOfSum(show, a[1..], b);
    }
  }

  lemma CleanedGroupTwice(show: Show, group: Json)
    ensures Cleaned(show, CleanedGroup(show, group)) == CleanedGroup(show, group)
  {
    ForeignTwice(show, HooksOf(group));
    var g := CleanedGroup(show, group);
    if g != [] {
      assert g[1..] == [];
      assert CleanedGroup(show, g[0]) == g by {
        if HasHooks(group) {
          assert g[0].fields[HOOKS := Arr(Foreign(show, HooksOf(group)))] == g[0].fields;
        }
      }
      assert Cleaned(show, g) == g + [];
    }
  }

  lemma {:induction false} CleanedTwice(show: Show, groups: seq<Json>)
    ensures Cleaned(show, Cleaned(show, groups)) == Cleaned(show, groups)
  {
    if groups != [] {
      CleanedTwice(show, groups[1..]);
      CleanedGroupTwice(show, groups[0]);
      CleanedOfSum(show, CleanedGroup(show, groups[0]), Cleaned(show, groups[1..]));
    }
  }

  lemma OwnIsOurs(show: Show, command: string)
    ensures IsOurs(show, OwnHook(command)) <==> Mentions(command, CURRENT_MARKER) || Mentions(command, OLD_MARKER)
    ensures IsCurrent(show, OwnHook(command)) <==> Mentions(command, CURRENT_MARKER)
  {
    assert CommandText(show, OwnHook(command)) == command;
  }

  lemma OwnIsCleaned(show: Show, command: string)
    requires Mentions(command, CURRENT_MARKER)
    ensures Cleaned(show, [OwnGroup(command)]) == []
  {
    OwnIsOurs(show, command);
    assert HooksOf(OwnGroup(command)) == [OwnHook(command)];
    assert Foreign(show, [OwnHook(command)]) == [];
  }

  /** Cleaning again undoes an installation, and nothing else. */
  lemma NewGroupsTwice(show: Show, groups: seq<Json>, command: string, first: bool, second: bool)
    requires Mentions(command, CURRENT_MARKER)
    ensures NewGroups(show, NewGroups(show, groups, command, first), command, second)
            == NewGroups(show, groups, command, second)
  {
    CleanedTwice(show, groups);
    OwnIsCleaned(show, command);
    CleanedOfSum(show, Cleaned(show, groups), if first then [OwnGroup(command)] else []);
    assert Cleaned(show, groups) + [] == Cleaned(show, groups);
  }

  // ---- All hooks of an event -------------------------------------------------------------

  /** The hooks of all groups, one group after the other. */
  function AllHooks(groups: seq<Json>): seq<Json> {
    if groups == [] then [] else HooksOf(groups[0]) + AllHooks(groups[1..])
  }

  lemma {:induction false} ForeignOfSum(show: Show, a: seq<Json>, b: seq<Json>)
    ensures Foreign(show, a + b) == Foreign(show, a) + Foreign(show, b)
  {
    if a == [] {
      assert a + b == b;
    } else {
      assert (a + b)[1..] == a[1..] + b;
      ForeignOfSum(show, a[1..], b);
    }
  }

  lemma {:induction false} OwnedOfSum(show: Show, a: seq<Json>, b: seq<Json>)
    ensures Owned(show, a + b) == Owned(show, a) + Owned(show, b)
  {
    if a == [] {
      assert a + b == b;
    } else {
      assert (a + b)[1..] == a[1..] + b;
      OwnedOfSum(show, a[1..], b);
    }
  }

  lemma {:induction false} AllHooksOfSum(a: seq<Json>, b: seq<Json>)
    ensures AllHooks(a + b) == AllHooks(a) + AllHooks(b)
  {
    if a == [] {
      assert a + b == b;
    } else {
      assert (a + b)[1..] == a[1..] + b;
      AllHooksOfSum(a[1..], b);
    }
  }

  lemma CleanedGroupHooks(show: Show, group: Json)
    ensures AllHooks(CleanedGroup(show, group)) == Foreign(show, HooksOf(group))
  {
    var g := CleanedGroup(show, group);
    if g != [] {
      assert AllHooks(g) == HooksOf(g[0]) + AllHooks(g[1..]);
      assert AllHooks(g[1..]) == [];
      if !HasHooks(group) {
        assert Foreign(show, []) == [];
      }
    }
  }

  /** Cleaning leaves every foreign hook of an event, in its order, and none that is owned. */
  lemma {:induction false} CleanedHooks(show: Show, groups: seq<Json>)
    ensures AllHooks(Cleaned(show, groups)) == Foreign(show, AllHooks(groups))
  {
    if groups != [] {
      CleanedHooks(show, groups[1..]);
      CleanedGroupHooks(show, groups[0]);
      AllHooksOfSum(CleanedGroup(show, groups[0]), Cleaned(show, groups[1..]));
      ForeignOfSum(show, HooksOf(groups[0]), AllHooks(groups[1..]));
    }
  }

  lemma AnyOfSum(show: Show, a: seq<Json>, b: seq<Json>)
    ensures AnyCurrent(show, a + b) <==> AnyCurrent(show, a) || AnyCurrent(show, b)
  {
    forall k | 0 <= k < |a| ensures (a + b)[k] == a[k] {
    }
    forall k | 0 <= k < |b| ensures (a + b)[|a| + k] == b[k] {
    }
  }

  lemma FirstOrRest(show: Show, groups: seq<Json>)
    requires groups != []
    ensures HasCurrent(show, groups) <==> AnyCurrent(show, HooksOf(groups[0])) || HasCurrent(show, groups[1..])
  {
    forall i | 0 <= i < |groups| - 1 ensures groups[1..][i] == groups[i + 1] {
    }
  }

  lemma {:induction false} CurrentIsThere(show: Show, groups: seq<Json>)
    ensures HasCurrent(show, groups) <==> AnyCurrent(show, AllHooks(groups))
  {
    if groups != [] {
      CurrentIsThere(show, groups[1..]);
      FirstOrRest(show, groups);
      AnyOfSum(show, HooksOf(groups[0]), AllHooks(groups[1..]));
    }
  }

  lemma {:induction false} ForeignIsNotOurs(show: Show, hooks: seq<Json>)
    ensures forall k :: 0 <= k < |Foreign(show, hooks)| ==> !IsOurs(show, Foreign(show, hooks)[k])
  {
    if hooks != [] {
      ForeignIsNotOurs(show, hooks[1..]);
    }
  }

  /** The hooks of an event after an installation or a removal. */
  ghost predicate HooksAre(show: Show, before: seq<Json>, after: seq<Json>, command: string, install: bool) {
    && Foreign(show, AllHooks(after)) == Foreign(show, AllHooks(before))
    && Owned(show, AllHooks(after)) == (if install then [OwnHook(command)] else [])
    && (HasCurrent(show, after) <==> install)
  }

  lemma NewHooks(show: Show, groups: seq<Json>, command: string, install: bool)
    requires Mentions(command, CURRENT_MARKER)
    ensures HooksAre(show, groups, NewGroups(show, groups, command, install), command, install)
  {
    var own := if install then [OwnHook(command)] else [];
    var after := NewGroups(show, groups, command, install);
    var foreign := Foreign(show, AllHooks(groups));
    NewAllHooks(show, groups, command, install);
    ForeignTwice(show, AllHooks(groups));
    OwnIsOurs(show, command);
    ForeignOfSum(show, foreign, own);
    OwnedOfSum(show, foreign, own);
    assert Foreign(show, own) == [] && Owned(show, own) == own;
    CurrentIsThere(show, after);
    ForeignIsNotOurs(show, AllHooks(groups));
    if install {
      assert AllHooks(after)[|foreign|] == OwnHook(command);
    }
  }

  lemma NewAllHooks(show: Show, groups: seq<Json>, command: string, install: bool)
    ensures AllHooks(NewGroups(show, groups, command, install))
            == Foreign(show, AllHooks(groups)) + (if install then [OwnHook(command)] else [])
  {
    CleanedHooks(show, groups);
    if install {
      AllHooksOfSum(Cleaned(show, groups), [OwnGroup(command)]);
      assert HooksOf(OwnGroup(command)) == [OwnHook(command)];
      assert AllHooks([OwnGroup(command)]) == [OwnHook(command)];
    } else {
      assert NewGroups(show, groups, command, install) == Cleaned(show, groups);
    }
  }

  // ---- All events ------------------------------------------------------------------------

  ghost predicate Distinct(events: seq<string>) {
    forall i, j :: 0 <= i < j < |events| ==> events[i] != events[j]
  }

  function NewAt(show: Show, root: Document, event: string, command: string, install: bool): seq<Json> {
    NewGroups(show, Groups(root, event), command, install)
  }

  /** `after` has the new groups at the events, and is `root` elsewhere. */
  ghost predicate IsRenewed(show: Show, root: Document, after: Document, events: seq<string>, command: string,
                            install: bool) {
    forall e: string ::
      if e in events then IsSet(after, e, NewAt(show, root, e, command, install)) else IsSame(root, after, e)
  }

  /** What `WithGroups` leaves at `event`. */
  predicate IsSet(root: Document, event: string, groups: seq<Json>) {
    if groups == [] then event !in root else event in root && root[event] == Arr(groups)
  }

  predicate IsSame(root: Document, after: Document, e: string) {
    (e in root <==> e in after) && (e in root ==> after[e] == root[e])
  }

  lemma OneEvent(show: Show, root: Document, event: string, groups: seq<Json>, e: string)
    ensures var next := WithGroups(root, event, groups);
            if e == event then IsSet(next, e, groups) && Groups(next, e) == groups else IsSame(root, next, e)
  {
  }

  lemma {:induction false} EachIsRenewed(show: Show, root: Document, events: seq<string>, command: string,
                                         install: bool)
    requires Distinct(events)
    ensures EachEvent(show, root, events, command, install).1 <==> AreListed(root, events)
    ensures AreListed(root, events) ==>
              IsRenewed(show, root, EachEvent(show, root, events, command, install).0, events, command, install)
    decreases |events|
  {
    if events != [] && IsListed(root, events[0]) {
      var first, rest := events[0], events[1..];
      var next := WithGroups(root, first, NewAt(show, root, first, command, install));
      assert Distinct(rest);
      EachIsRenewed(show, next, rest, command, install);
      ListedOn(show, root, events, NewAt(show, root, first, command, install));
      if AreListed(root, events) {
        RenewedOn(show, root, next, EachEvent(show, next, rest, command, install).0, events, command, install);
      }
    }
  }

  lemma ListedOn(show: Show, root: Document, events: seq<string>, groups: seq<Json>)
    requires Distinct(events) && events != [] && IsListed(root, events[0])
    ensures AreListed(WithGroups(root, events[0], groups), events[1..]) <==> AreListed(root, events)
  {
    var next := WithGroups(root, events[0], groups);
    forall k | 0 <= k < |events| - 1
      ensures events[1..][k] == events[k + 1] && (IsListed(next, events[k + 1]) <==> IsListed(root, events[k + 1]))
    {
      OneEvent(show, root, events[0], groups, events[k + 1]);
    }
  }

  lemma RenewedOn(show: Show, root: Document, next: Document, after: Document, events: seq<string>, command: string,
                  install: bool)
    requires Distinct(events) && events != []
    requires next == WithGroups(root, events[0], NewAt(show, root, events[0], command, install))
    requires IsRenewed(show, next, after, events[1..], command, install)
    ensures IsRenewed(show, root, after, events, command, install)
  {
    var first, rest := events[0], events[1..];
    assert events == [first] + rest;
    forall e: string
      ensures if e in events then IsSet(after, e, NewAt(show, root, e, command, install)) else IsSame(root, after, e)
    {
      OneEvent(show, root, first, NewAt(show, root, first, command, install), e);
      if e == first {
        assert e !in rest;
      } else if e in rest {
        assert NewAt(show, next, e, command, install) == NewAt(show, root, e, command, install);
      }
    }
  }

  /** The six events of the source. */
  lemma EventsAreDistinct()
    ensures Distinct(EVENTS)
  {
    assert |EVENTS[0]| == 12 && |EVENTS[1]| == 16 && |EVENTS[2]| == 10 && |EVENTS[3]| == 17 && |EVENTS[4]| == 11
           && |EVENTS[5]| == 4;
  }

  /** An error is raised exactly if the document does not have the form of a hooks file. */
  lemma FailsIffMalformed(show: Show, d: Document, events: seq<string>, command: string, install: bool)
    requires Distinct(events)
    ensures Transformed(show, d, events, command, install).1 <==> IsWellFormed(d, events)
  {
    EachIsRenewed(show, RootOf(d), events, command, install);
  }

  /** The root before `WithRoot` may drop an empty one. */
  function NewRoot(show: Show, d: Document, events: seq<string>, command: string, install: bool): Document {
    EachEvent(show, RootOf(d), events, command, install).0
  }

  lemma RootIsRenewed(show: Show, d: Document, events: seq<string>, command: string, install: bool)
    requires IsWellFormed(d, events) && Distinct(events)
    ensures var after := Transformed(show, d, events, command, install).0;
            && Transformed(show, d, events, command, install).1
            && RootOf(after) == NewRoot(show, d, events, command, install)
            && IsRenewed(show, RootOf(d), RootOf(after), events, command, install)
            && after == WithRoot(d, NewRoot(show, d, events, command, install))
  {
    EachIsRenewed(show, RootOf(d), events, command, install);
  }

  lemma RenewedIsListed(show: Show, root: Document, after: Document, events: seq<string>, command: string,
                        install: bool)
    requires IsRenewed(show, root, after, events, command, install)
    ensures AreListed(after, events)
    ensures forall k :: 0 <= k < |events| ==> Groups(after, events[k]) == NewAt(show, root, events[k], command, install)
  {
    forall k | 0 <= k < |events|
      ensures IsListed(after, events[k]) && Groups(after, events[k]) == NewAt(show, root, events[k], command, install)
    {
      assert events[k] in events;
    }
  }

  lemma StaysWellFormed(show: Show, d: Document, events: seq<string>, command: string, install: bool)
    requires IsWellFormed(d, events) && Distinct(events)
    ensures IsWellFormed(Transformed(show, d, events, command, install).0, events)
  {
    RootIsRenewed(show, d, events, command, install);
    RenewedIsListed(show, RootOf(d), NewRoot(show, d, events, command, install), events, command, install);
  }

  /** Two renewals in a row come to the second one alone. */
  lemma RenewedTwice(show: Show, root: Document, middle: Document, after: Document, once: Document,
                     events: seq<string>, command: string, first: bool, second: bool)
    requires Mentions(command, CURRENT_MARKER)
    requires IsRenewed(show, root, middle, events, command, first)
    requires IsRenewed(show, middle, after, events, command, second)
    requires IsRenewed(show, root, once, events, command, second)
    ensures after == once
  {
    RenewedIsListed(show, root, middle, events, command, first);
    forall e: string ensures IsSame(once, after, e) {
      if e in events {
        var k :| 0 <= k < |events| && events[k] == e;
        NewGroupsTwice(show, Groups(root, e), command, first, second);
        assert NewAt(show, middle, e, command, second) == NewAt(show, root, e, command, second);
      }
    }
    SameIsEqual(once, after);
  }

  lemma SameIsEqual(a: Document, b: Document)
    requires forall e: string :: IsSame(a, b, e)
    ensures a == b
  {
    forall e: string ensures e in a <==> e in b {
      assert IsSame(a, b, e);
    }
    forall e | e in a ensures a[e] == b[e] {
      assert IsSame(a, b, e);
    }
    assert a.Keys == b.Keys;
  }

  lemma WithRootTwice(d: Document, some: Document, root: Document)
    ensures WithRoot(WithRoot(d, some), root) == WithRoot(d, root)
  {
  }

  /** Whatever was done before, a second installation or removal leaves what it would have left alone. */
  lemma LastOneCounts(show: Show, d: Document, events: seq<string>, command: string, first: bool, second: bool)
    requires IsWellFormed(d, events) && Distinct(events) && Mentions(command, CURRENT_MARKER)
    ensures Transformed(show, Transformed(show, d, events, command, first).0, events, command, second)
            == Transformed(show, d, events, command, second)
  {
    var middle := Transformed(show, d, events, command, first).0;
    StaysWellFormed(show, d, events, command, first);
    RootIsRenewed(show, d, events, command, first);
    RootIsRenewed(show, d, events, command, second);
    RootIsRenewed(show, middle, events, command, second);
    RenewedTwice(show, RootOf(d), RootOf(middle), NewRoot(show, middle, events, command, second),
                 NewRoot(show, d, events, command, second), events, command, first, second);
    WithRootTwice(d, NewRoot(show, d, events, command, first), NewRoot(show, d, events, command, second));
  }

  /** Installing twice is installing once, and removing undoes an installation entirely. */
  lemma InstallIsIdempotentAndUndone(show: Show, d: Document, events: seq<string>, command: string)
    requires IsWellFormed(d, events) && Distinct(events) && Mentions(command, CURRENT_MARKER)
    ensures Transformed(show, Transformed(show, d, events, command, true).0, events, command, true)
            == Transformed(show, d, events, command, true)
    ensures Transformed(show, Transformed(show, d, events, command, true).0, events, command, false)
            == Transformed(show, d, events, command, false)
  {
    LastOneCounts(show, d, events, command, true, true);
    LastOneCounts(show, d, events, command, true, false);
  }

  ghost predicate EventHooksAre(show: Show, root: Document, after: Document, event: string, command: string,
                                install: bool) {
    HooksAre(show, Groups(root, event), Groups(after, event), command, install)
  }

  /**
    Foreign hooks keep their order in every event, and exactly one owned hook is there after
    installing, none after removing.
   */
  lemma ForeignHooksStay(show: Show, d: Document, events: seq<string>, command: string, install: bool, k: nat)
    requires IsWellFormed(d, events) && Distinct(events) && Mentions(command, CURRENT_MARKER) && k < |events|
    ensures var after := RootOf(Transformed(show, d, events, command, install).0);
            EventHooksAre(show, RootOf(d), after, events[k], command, install)
  {
    RootIsRenewed(show, d, events, command, install);
    RenewedIsListed(show, RootOf(d), NewRoot(show, d, events, command, install), events, command, install);
    NewHooks(show, Groups(RootOf(d), events[k]), command, install);
  }

  /** The check says yes after an installation, and no after a removal. */
  lemma CheckTellsWhich(show: Show, d: Document, events: seq<string>, command: string, install: bool)
    requires IsWellFormed(d, events) && Distinct(events) && Mentions(command, CURRENT_MARKER)
    requires events != []
    ensures IsInstalled(show, Transformed(show, d, events, command, install).0, events) <==> install
  {
    RootIsRenewed(show, d, events, command, install);
    var after := Transformed(show, d, events, command, install).0;
    forall k | 0 <= k < |events| ensures HasCurrent(show, Groups(RootOf(after), events[k])) <==> install {
      ForeignHooksStay(show, d, events, command, install, k);
    }
    assert HasCurrent(show, Groups(RootOf(after), events[0])) <==> install;
  }

  /** Nothing else in the document changes. */
  lemma RestStays(show: Show, d: Document, events: seq<string>, command: string, install: bool, key: string)
    requires IsWellFormed(d, events) && Distinct(events)
    ensures key != HOOKS ==> IsSame(d, Transformed(show, d, events, command, install).0, key)
    ensures key !in events ==> IsSame(RootOf(d), RootOf(Transformed(show, d, events, command, install).0), key)
  {
    RootIsRenewed(show, d, events, command, install);
  }

  /** A transformed document has a hooks object exactly if any of it is left. */
  lemma EmptyHooksGo(show: Show, d: Document, events: seq<string>, command: string, install: bool)
    requires IsWellFormed(d, events) && Distinct(events)
    ensures var after := Transformed(show, d, events, command, install).0;
            HOOKS in after ==> after[HOOKS].Obj? && after[HOOKS].fields != map[]
  {
    RootIsRenewed(show, d, events, command, install);
  }

  lemma {:induction false} NothingToRemove(show: Show, events: seq<string>, command: string)
    ensures EachEvent(show, map[], events, command, false) == (map[], true)
    decreases |events|
  {
    if events != [] {
      NothingToRemove(show, events[1..], command);
      assert NewGroups(show, [], command, false) == [];
      assert WithGroups(map[], events[0], []) == map[];
    }
  }

  /** Installing into a document without hooks and removing again gives back the document itself. */
  lemma InstallingIsUndone(show: Show, d: Document, events: seq<string>, command: string)
    requires HOOKS !in d && Distinct(events) && Mentions(command, CURRENT_MARKER)
    ensures Transformed(show, Transformed(show, d, events, command, true).0, events, command, false) == (d, true)
  {
    assert RootOf(d) == map[] && d - {HOOKS} == d;
    NothingToRemove(show, events, command);
    assert Transformed(show, d, events, command, false) == (d, true);
    LastOneCounts(show, d, events, command, true, false);
  }
}
