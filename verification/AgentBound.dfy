/**
  How many sessions the store holds (bridge/agent/cardbridge/agents.py). It is meant to hold 32, and
  some events return before they trim it: this says which, and when the bound holds.
 */
module AgentBounds {
  import opened Common
  import opened AgentSessions

  // ---- Which events trim, and which make a session ---------------------------------------

  /** A turn of this id would start, as it is neither the one announced last nor, without an id, running. */
  predicate StartsTurn(st: Store, id: Id, turn: string) {
    if turn != "" then !(id in st.turns && st.turns[id] == turn) else Get(st.sessions, id).status != Running
  }

  predicate ItemTrims(st: Store, id: Id, item: Item, started: bool) {
    match item
    case Reasoning => false
    case UserMessage(turn) => started && StartsTurn(st, id, turn)
    case AgentMessage(text) => text != ""
    case Plan(text) => started && text != ""
    case OtherItem(text) => started ==> text != ""
  }

  /** The events that reach `_trim`. */
  predicate Trims(st: Store, e: Event) {
    match e
    case PublicActivity(id, text, _, _) => id != "" && text != ""
    case NameUpdated(_, _) => false
    case TurnStarted(id, turn, _, _) => id != "" && StartsTurn(st, id, turn)
    case TurnCompleted(id, _, _) => id != ""
    case Progress(id, text, _) => id != "" && text != ""
    case ItemStarted(id, item, _) => id != "" && ItemTrims(st, id, item, true)
    case ItemCompleted(id, item, _) => id != "" && ItemTrims(st, id, item, false)
    case OtherEvent(_) => false
    case Threads(_) => true
    case HookFired(id, hook, _, _) => id != "" && hook != OtherHook
    case Acknowledged(_) => false
  }

  /** The id an event makes a session for, if it has none yet. */
  function MadeId(e: Event): Id {
    match e
    case PublicActivity(id, text, _, _) => if text == "" then "" else id
    case NameUpdated(id, title) => if title == "" then "" else id
    case Threads(_) => ""
    case Acknowledged(_) => ""
    case _ => e.id
  }

  /** How many sessions an event adds. */
  function Added(st: Store, e: Event): nat {
    if MadeId(e) != "" && !IsStored(st.sessions, MadeId(e)) then 1 else 0
  }

  // ---- One event -------------------------------------------------------------------------

  lemma {:induction false} PutStores(ss: seq<Session>, s: Session, id: Id)
    ensures |Put(ss, s)| == |ss| + if IsStored(ss, s.id) then 0 else 1
    ensures IsStored(Put(ss, s), id) <==> IsStored(ss, id) || id == s.id
  {
    var put := Put(ss, s);
    if IsStored(ss, id) {
      assert put[Find(ss, id)].id == id;
    }
    if id == s.id {
      assert put[Find(ss, id)].id == id;
    }
    if IsStored(put, id) && !IsStored(ss, id) {
      assert put[Find(put, id)].id == id;
    }
  }

  /** The store with this session put into it, and nothing trimmed. */
  ghost predicate HasOneMore(s: Store, t: Store, id: Id) {
    && |t.sessions| == |s.sessions| + (if id != "" && !IsStored(s.sessions, id) then 1 else 0)
    && forall i :: IsStored(t.sessions, i) <==> IsStored(s.sessions, i) || (id != "" && i == id)
  }

  lemma StoredHasOneMore(st: Store, s: Session)
    requires s.id != ""
    ensures HasOneMore(st, Stored(st, s), s.id)
  {
    forall i ensures IsStored(Put(st.sessions, s), i) <==> IsStored(st.sessions, i) || i == s.id {
      PutStores(st.sessions, s, i);
    }
    PutStores(st.sessions, s, s.id);
  }

  lemma TurnTrims(st: Store, id: Id, turn: string, startedAt: nat, now: nat)
    requires id != "" && StartsTurn(st, id, turn)
    ensures |AfterTurnStarted(st, id, turn, startedAt, now).sessions| <= MAX_SESSIONS
  {
  }

  lemma TurnOnlyMakes(st: Store, id: Id, turn: string, startedAt: nat, now: nat)
    requires id != "" && !StartsTurn(st, id, turn)
    ensures AfterTurnStarted(st, id, turn, startedAt, now) == Stored(st, Get(st.sessions, id))
  {
  }

  /** Making a session does not change whether a turn would start. */
  lemma MadeStartsToo(st: Store, id: Id, turn: string)
    ensures StartsTurn(Stored(st, Get(st.sessions, id)), id, turn) <==> StartsTurn(st, id, turn)
  {
    PutGets(st.sessions, Get(st.sessions, id));
  }

  lemma PutGets(ss: seq<Session>, s: Session)
    ensures Get(Put(ss, s), s.id) == s
  {
    PutStores(ss, s, s.id);
    var put := Put(ss, s);
    var i := Find(ss, s.id);
    assert put[i].id == s.id;
    assert forall j :: 0 <= j < i ==> put[j] == ss[j];
  }

  lemma MadeAgain(st: Store, id: Id)
    ensures var made := Stored(st, Get(st.sessions, id)); Stored(made, Get(made.sessions, id)) == made
  {
    var s := Get(st.sessions, id);
    PutGets(st.sessions, s);
    PutStores(st.sessions, s, id);
    var put := Put(st.sessions, s);
    assert put[Find(put, id)] == s;
    assert Put(put, s) == put;
  }

  lemma ItemFits(st: Store, id: Id, item: Item, started: bool, now: nat)
    requires id != "" && ItemTrims(st, id, item, started)
    ensures |AfterItem(st, id, item, started, now).sessions| <= MAX_SESSIONS
  {
    var made := Stored(st, Get(st.sessions, id));
    if item.UserMessage? {
      MadeStartsToo(st, id, item.turn);
      TurnTrims(made, id, item.turn, 0, now);
    }
  }

  lemma ItemOnlyMakes(st: Store, id: Id, item: Item, started: bool, now: nat)
    requires id != "" && !ItemTrims(st, id, item, started)
    ensures AfterItem(st, id, item, started, now) == Stored(st, Get(st.sessions, id))
  {
    var made := Stored(st, Get(st.sessions, id));
    if item.UserMessage? && started {
      MadeStartsToo(st, id, item.turn);
      TurnOnlyMakes(made, id, item.turn, 0, now);
      MadeAgain(st, id);
    }
  }

  lemma HookFits(st: Store, id: Id, hook: Hook, project: Option<string>, time: nat)
    requires id != "" && hook != OtherHook
    ensures |AfterHook(st, id, hook, project, time).sessions| <= MAX_SESSIONS
  {
  }

  lemma UpdateFits(st: Store, threads: seq<Thread>)
    ensures |AfterUpdate(st, threads).sessions| <= MAX_SESSIONS
  {
  }

  lemma CompletedFits(x: Texts, st: Store, e: Event)
    requires e.TurnCompleted? && e.id != ""
    ensures |Step(x, st, e).sessions| <= MAX_SESSIONS
  {
  }

  lemma ActivityFits(st: Store, id: Id, text: string, isTool: bool, time: nat)
    requires id != "" && text != ""
    ensures |AfterActivity(st, id, text, isTool, time).sessions| <= MAX_SESSIONS
  {
  }

  lemma TrimmingFits(x: Texts, st: Store, e: Event)
    requires Trims(st, e)
    ensures |Step(x, st, e).sessions| <= MAX_SESSIONS
  {
    match e
    case PublicActivity(id, text, isTool, time) => ActivityFits(st, id, text, isTool, time);
    case TurnStarted(id, turn, startedAt, now) => TurnTrims(st, id, turn, startedAt, now);
    case TurnCompleted(id, failed, now) => CompletedFits(x, st, e);
    case Progress(id, text, now) => ActivityFits(Stored(st, Get(st.sessions, id)), id, text, true, now);
    case ItemStarted(id, item, now) => ItemFits(st, id, item, true, now);
    case ItemCompleted(id, item, now) => ItemFits(st, id, item, false, now);
    case Threads(threads) => UpdateFits(st, threads);
    case HookFired(id, hook, project, time) => HookFits(st, id, hook, project, time);
    case _ =>
  }

  lemma AcknowledgedStays(st: Store, id: Id)
    ensures |AfterAcknowledge(st, id).sessions| == |st.sessions|
    ensures forall i :: IsStored(AfterAcknowledge(st, id).sessions, i) <==> IsStored(st.sessions, i)
  {
    if IsStored(st.sessions, id) {
      var s := AfterAcknowledge(st, id).sessions[Find(st.sessions, id)];
      assert AfterAcknowledge(st, id).sessions == Put(st.sessions, s);
      forall i ensures IsStored(Put(st.sessions, s), i) <==> IsStored(st.sessions, i) {
        PutStores(st.sessions, s, i);
      }
      PutStores(st.sessions, s, id);
    }
  }

  lemma NameOnlyMakes(x: Texts, st: Store, id: Id, title: string)
    ensures HasOneMore(st, Step(x, st, NameUpdated(id, title)), MadeId(NameUpdated(id, title)))
  {
    if id != "" && title != "" {
      StoredHasOneMore(st, Get(st.sessions, id));
      StoredHasOneMore(st, Get(st.sessions, id).(title := title));
    }
  }

  lemma OtherHookOnlyMakes(st: Store, id: Id, project: Option<string>, time: nat)
    requires id != ""
    ensures HasOneMore(st, AfterHook(st, id, OtherHook, project, time), id)
  {
    var s := Get(st.sessions, id).(updated := time);
    StoredHasOneMore(st, if project.Some? then s.(project := project.value) else s);
  }

  lemma ItemHasOneMore(st: Store, id: Id, item: Item, started: bool, now: nat)
    requires id != "" && !ItemTrims(st, id, item, started)
    ensures HasOneMore(st, AfterItem(st, id, item, started, now), id)
  {
    ItemOnlyMakes(st, id, item, started, now);
    StoredHasOneMore(st, Get(st.sessions, id));
  }

  lemma OtherOnlyMakes(x: Texts, st: Store, e: Event)
    requires !Trims(st, e)
    ensures HasOneMore(st, Step(x, st, e), MadeId(e))
  {
    match e
    case PublicActivity(id, text, isTool, time) =>
    case NameUpdated(id, title) => NameOnlyMakes(x, st, id, title);
    case TurnStarted(id, turn, startedAt, now) =>
      if id != "" {
        TurnOnlyMakes(st, id, turn, startedAt, now);
        StoredHasOneMore(st, Get(st.sessions, id));
      }
    case TurnCompleted(id, failed, now) =>
    case Progress(id, text, now) =>
      if id != "" {
        StoredHasOneMore(st, Get(st.sessions, id));
      }
    case ItemStarted(id, item, now) =>
      if id != "" {
        ItemHasOneMore(st, id, item, true, now);
      }
    case ItemCompleted(id, item, now) =>
      if id != "" {
        ItemHasOneMore(st, id, item, false, now);
      }
    case OtherEvent(id) =>
      if id != "" {
        StoredHasOneMore(st, Get(st.sessions, id));
      }
    case Threads(threads) =>
    case HookFired(id, hook, project, time) =>
      if id != "" {
        OtherHookOnlyMakes(st, id, project, time);
      }
    case Acknowledged(id) => AcknowledgedStays(st, id);
  }

  /** The store is within its bound after an event exactly if the event trims it, or leaves room as it is. */
  lemma StepIsBoundedIff(x: Texts, st: Store, e: Event)
    ensures |Step(x, st, e).sessions| <= MAX_SESSIONS <==> Trims(st, e) || |st.sessions| + Added(st, e) <= MAX_SESSIONS
  {
    if Trims(st, e) {
      TrimmingFits(x, st, e);
    } else {
      OtherOnlyMakes(x, st, e);
    }
  }

  // ---- Runs ------------------------------------------------------------------------------

  /** The store is within its bound all along. */
  predicate StaysBounded(x: Texts, st: Store, events: seq<Event>)
    decreases |events|
  {
    |st.sessions| <= MAX_SESSIONS && (events == [] || StaysBounded(x, Step(x, st, events[0]), events[1..]))
  }

  /** Each event trims the store, or leaves room in it. */
  predicate LeaveRoom(x: Texts, st: Store, events: seq<Event>)
    decreases |events|
  {
    events != [] ==>
      && (Trims(st, events[0]) || |st.sessions| + Added(st, events[0]) <= MAX_SESSIONS)
      && LeaveRoom(x, Step(x, st, events[0]), events[1..])
  }

  /** The store is within its bound all along a run exactly if no event finds it full and adds to it untrimmed. */
  lemma {:induction false} RunIsBoundedIff(x: Texts, st: Store, events: seq<Event>)
    requires |st.sessions| <= MAX_SESSIONS
    ensures StaysBounded(x, st, events) <==> LeaveRoom(x, st, events)
    decreases |events|
  {
    if events != [] {
      StepIsBoundedIff(x, st, events[0]);
      if |Step(x, st, events[0]).sessions| <= MAX_SESSIONS {
        RunIsBoundedIff(x, Step(x, st, events[0]), events[1..]);
      }
    }
  }

  /** None of the events trims. */
  predicate NeverTrims(x: Texts, st: Store, events: seq<Event>)
    decreases |events|
  {
    events == [] || (!Trims(st, events[0]) && NeverTrims(x, Step(x, st, events[0]), events[1..]))
  }

  /** The ids the events make sessions for. */
  function NewIds(st: Store, events: seq<Event>): (ids: set<Id>) {
    set i | 0 <= i < |events| && MadeId(events[i]) != "" && !IsStored(st.sessions, MadeId(events[i]))
      :: MadeId(events[i])
  }

  lemma RestIsNew(s: Store, t: Store, events: seq<Event>, i: Id)
    requires events != [] && HasOneMore(s, t, MadeId(events[0])) && i in NewIds(t, events[1..])
    ensures i in NewIds(s, events) && i != MadeId(events[0])
  {
    var k :| 0 <= k < |events[1..]| && MadeId(events[1..][k]) == i;
    assert events[k + 1] == events[1..][k];
    assert !IsStored(t.sessions, i);
  }

  lemma NewIsOfRest(s: Store, t: Store, events: seq<Event>, i: Id)
    requires events != [] && HasOneMore(s, t, MadeId(events[0])) && i in NewIds(s, events)
    ensures i in NewIds(t, events[1..]) || i == MadeId(events[0])
  {
    var k :| 0 <= k < |events| && MadeId(events[k]) == i;
    if i != MadeId(events[0]) {
      assert events[1..][k - 1] == events[k];
      assert !IsStored(t.sessions, i);
    }
  }

  lemma FirstIsNewIff(st: Store, events: seq<Event>)
    requires events != []
    ensures MadeId(events[0]) in NewIds(st, events) <==> Added(st, events[0]) == 1
  {
    if Added(st, events[0]) == 1 {
      assert MadeId(events[0]) in NewIds(st, events);
    }
  }

  lemma OneMoreId(all: set<Id>, rest: set<Id>, id: Id)
    requires id !in rest && all - {id} == rest
    ensures |all| == |rest| + if id in all then 1 else 0
  {
    assert all == rest + if id in all then {id} else {};
  }

  lemma NewIdsOfRest(s: Store, t: Store, events: seq<Event>)
    requires events != [] && HasOneMore(s, t, MadeId(events[0]))
    ensures |NewIds(s, events)| == |NewIds(t, events[1..])| + Added(s, events[0])
  {
    var id, all, rest := MadeId(events[0]), NewIds(s, events), NewIds(t, events[1..]);
    forall i | i in rest ensures i in all && i != id {
      RestIsNew(s, t, events, i);
    }
    forall i | i in all && i != id ensures i in rest {
      NewIsOfRest(s, t, events, i);
    }
    FirstIsNewIff(s, events);
    OneMoreId(all, rest, id);
  }

  /**
    While no event trims it, the store grows by as many sessions as there are new ids in the events:
    a store that was just trimmed is within its bound again exactly if they fit.
   */
  lemma {:induction false} GrowsByNewIds(x: Texts, st: Store, events: seq<Event>)
    requires NeverTrims(x, st, events)
    ensures |Run(x, st, events).sessions| == |st.sessions| + |NewIds(st, events)|
    decreases |events|
  {
    if events != [] {
      OtherOnlyMakes(x, st, events[0]);
      NewIdsOfRest(st, Step(x, st, events[0]), events);
      GrowsByNewIds(x, Step(x, st, events[0]), events[1..]);
    }
  }
  // ---- The bound -------------------------------------------------------------------------

  function OtherEvents(ids: seq<Id>): seq<Event> {
    if ids == [] then [] else [OtherEvent(ids[0])] + OtherEvents(ids[1..])
  }

  /** Events that only make a session do not trim: any number of sessions can pile up, until one does. */
  lemma {:induction false} SessionsPileUp(x: Texts, st: Store, ids: seq<Id>)
    requires forall i :: 0 <= i < |ids| ==> ids[i] != "" && !IsStored(st.sessions, ids[i])
    requires forall i, j :: 0 <= i < j < |ids| ==> ids[i] != ids[j]
    ensures |Run(x, st, OtherEvents(ids)).sessions| == |st.sessions| + |ids|
    ensures |Trimmed(Run(x, st, OtherEvents(ids))).sessions| <= MAX_SESSIONS
    decreases |ids|
  {
    if ids != [] {
      var next := Step(x, st, OtherEvent(ids[0]));
      assert next.sessions == st.sessions + [NewSession(ids[0])];
      forall i | 1 <= i < |ids| ensures !IsStored(next.sessions, ids[i]) {
        assert !IsStored(st.sessions, ids[i]);
      }
      assert OtherEvents(ids)[1..] == OtherEvents(ids[1..]);
      SessionsPileUp(x, next, ids[1..]);
    }
  }
}
