/**
  The store of agent sessions (bridge/agent/cardbridge/agents.py), on values.

  What the source reads out of a message (an id, a title, the public text of an activity, a time) is
  given with the event. `Texts.isPublic` says whether anything public is left of an activity.
 */
module AgentSessions {
  import opened Common

  type Id = string

  datatype Status = Idle | Running | NeedsInput | Ready | Blocked

  datatype Phase = NoPhase | Thinking | Tool

  datatype Session = Session(
    id: Id, title: string, project: string, status: Status, phase: Phase, activity: string, unread: bool,
    updated: nat, prompt: nat)
  {
    /** What the history is ordered by. */
    function Recency(): nat {
      if prompt != 0 then prompt else updated
    }

    /** A phase belongs to running, and only what waits for the user is unread. */
    predicate WellFormed() {
      (phase != NoPhase <==> status == Running) && (unread ==> status.NeedsInput? || status.Ready? || status.Blocked?)
    }
  }

  datatype Store = Store(
    sessions: seq<Session>, focus: Id, focusSeq: nat, seqNo: nat, turns: map<Id, string>, latestPrompt: nat)

  datatype Texts = Texts(isPublic: string -> bool)

  const AGENT_LIMIT := 8
  const MAX_SESSIONS := 32
  const READY_TEXT := "Session ready"

  function NewSession(id: Id): Session {
    Session(id, "Codex session", "", Idle, NoPhase, READY_TEXT, false, 0, 0)
  }

  function NewStore(): Store {
    Store([], "", 0, 0, map[], 0)
  }

  function Max(a: nat, b: nat): nat {
    if a > b then a else b
  }

  // ---- The dictionary --------------------------------------------------------------------

  function Find(ss: seq<Session>, id: Id): (i: nat)
    ensures i <= |ss|
    ensures i < |ss| ==> ss[i].id == id
    ensures forall j :: 0 <= j < i ==> ss[j].id != id
  {
    if ss == [] || ss[0].id == id then 0 else 1 + Find(ss[1..], id)
  }

  predicate IsStored(ss: seq<Session>, id: Id) {
    Find(ss, id) < |ss|
  }

  /** `_session`: the session of this id, made when it is not there. */
  function Get(ss: seq<Session>, id: Id): (s: Session)
    ensures s.id == id
  {
    if IsStored(ss, id) then ss[Find(ss, id)] else NewSession(id)
  }

  function Put(ss: seq<Session>, s: Session): seq<Session> {
    var i := Find(ss, s.id);
    if i < |ss| then ss[i := s] else ss + [s]
  }

  // ---- Sorting ---------------------------------------------------------------------------

  /** Puts `s` before the first that has no larger key: a stable sort, largest first. */
  function Insert(key: Session -> int, s: Session, ss: seq<Session>): seq<Session> {
    if ss == [] || key(ss[0]) <= key(s) then [s] + ss else [ss[0]] + Insert(key, s, ss[1..])
  }

  function Sorted(key: Session -> int, ss: seq<Session>): seq<Session> {
    if ss == [] then [] else Insert(key, ss[0], Sorted(key, ss[1..]))
  }

  function ByRecency(): Session -> int {
    (s: Session) => s.Recency()
  }

  function ByUpdate(): Session -> int {
    (s: Session) => s.updated
  }

  function Take<T>(s: seq<T>, n: nat): seq<T> {
    if |s| <= n then s else s[..n]
  }

  /** `_trim`: past 32 sessions, the 32 last updated stay, in that order. */
  function Trimmed(st: Store): Store {
    if |st.sessions| <= MAX_SESSIONS then st
    else
      var keep := Take(Sorted(ByUpdate(), st.sessions), MAX_SESSIONS);
      st.(sessions := keep, turns := map id | id in st.turns && IsStored(keep, id) :: st.turns[id])
  }

  // ---- Events ----------------------------------------------------------------------------

  datatype Item =
    | Reasoning
    | UserMessage(turn: string)
    | AgentMessage(text: string)
    | Plan(text: string)
    | OtherItem(text: string)

  datatype Hook =
    | SessionStart
    | UserPromptSubmit
    | PermissionRequest
    | PreToolUse(asksUser: bool, toolText: string)
    | PostToolUse
    | Stop(hint: string)
    | Failure
    | OtherHook

  datatype Thread = Thread(id: Id, title: string, project: string, updated: nat, prompt: nat)

  /** `now` is the time the event is handled; a time of 0 was missing from the message. */
  datatype Event =
    | PublicActivity(id: Id, text: string, isTool: bool, time: nat)
    | NameUpdated(id: Id, title: string)
    | TurnStarted(id: Id, turn: string, startedAt: nat, now: nat)
    | TurnCompleted(id: Id, failed: bool, now: nat)
    | Progress(id: Id, text: string, now: nat)
    | ItemStarted(id: Id, item: Item, now: nat)
    | ItemCompleted(id: Id, item: Item, now: nat)
    | OtherEvent(id: Id)
    | Threads(threads: seq<Thread>)
    | HookFired(id: Id, hook: Hook, project: Option<string>, time: nat)
    | Acknowledged(id: Id)

  function Changed(st: Store): Store {
    st.(seqNo := st.seqNo + 1)
  }

  function Stored(st: Store, s: Session): Store {
    st.(sessions := Put(st.sessions, s))
  }

  function AfterActivity(st: Store, id: Id, text: string, isTool: bool, time: nat): Store {
    if id == "" || text == "" then st
    else
      var s := Get(st.sessions, id);
      var phase := if isTool then Tool else Thinking;
      var changed := s.activity != text || s.status != Running || s.phase != phase || s.unread;
      var t := Trimmed(Stored(st, s.(activity := text, status := Running, phase := phase, unread := false,
                                     updated := Max(s.updated, time))));
      if changed then Changed(t) else t
  }

  function Began(s: Session, text: string, time: nat): Session {
    s.(status := Running, phase := Thinking, activity := text, unread := false, updated := time,
       prompt := Max(s.prompt, time))
  }

  /** A prompt: its session gets the focus, even if it had it. */
  function Prompted(st: Store, s: Session, text: string, time: nat): Store {
    Changed(Trimmed(Stored(st, Began(s, text, time)).(focus := s.id, focusSeq := st.focusSeq + 1,
                                                      latestPrompt := Max(st.latestPrompt, time))))
  }

  /** The session is made in any case; a turn that was already announced starts nothing. */
  function AfterTurnStarted(st: Store, id: Id, turn: string, startedAt: nat, now: nat): Store {
    if id == "" then st
    else
      var s := Get(st.sessions, id);
      var made := Stored(st, s);
      var time := if startedAt != 0 then startedAt else now;
      if turn != "" then
        if id in st.turns && st.turns[id] == turn then made
        else Prompted(made.(turns := st.turns[id := turn]), s, "Understanding the task", time)
      else if s.status == Running then made
      else Prompted(made, s, "Understanding the task", time)
  }

  function Completed(x: Texts, s: Session, failed: bool, now: nat): Session {
    if failed then
      s.(phase := NoPhase, updated := now, status := Blocked, activity := "Task encountered a problem", unread := true)
    else
      s.(phase := NoPhase, updated := now, status := Ready, unread := true,
         activity := if s.phase == Tool || !x.isPublic(s.activity) then "Task completed" else s.activity)
  }

  function AfterItem(st: Store, id: Id, item: Item, started: bool, now: nat): Store {
    var made := Stored(st, Get(st.sessions, id));
    match item
    case Reasoning => made
    case UserMessage(turn) => if started then AfterTurnStarted(made, id, turn, 0, now) else made
    case AgentMessage(text) => AfterActivity(made, id, text, false, now)
    case Plan(text) => if started then AfterActivity(made, id, text, false, now) else made
    case OtherItem(text) =>
      if started then AfterActivity(made, id, text, true, now)
      else AfterActivity(made, id, "Reviewing the result", false, now)
  }

  function Refreshed(s: Session, t: Thread): Session {
    s.(prompt := Max(s.prompt, t.prompt),
       title := if t.title != "" then t.title else s.title,
       project := t.project,
       updated := Max(s.updated, t.updated))
  }

  /** The store with every thread entered, and whether any of them changed it. */
  function AfterThreads(st: Store, threads: seq<Thread>): (Store, bool) {
    if threads == [] then (st, false)
    else
      var (before, changed) := AfterThreads(st, threads[..|threads| - 1]);
      var t := threads[|threads| - 1];
      if t.id == "" then (before, changed)
      else
        var s := Get(before.sessions, t.id);
        (Stored(before, Refreshed(s, t)), changed || !IsStored(before.sessions, t.id) || Refreshed(s, t) != s)
  }

  /** The first thread with the latest prompt, if any prompt is later than 0. */
  function Latest(threads: seq<Thread>): (Id, nat) {
    if threads == [] then ("", 0)
    else
      var best, t := Latest(threads[..|threads| - 1]), threads[|threads| - 1];
      if t.id != "" && t.prompt > best.1 then (t.id, t.prompt) else best
  }

  function Focused(st: Store, id: Id): Store {
    st.(focus := id, focusSeq := st.focusSeq + 1)
  }

  function AfterFocus(st: Store, threads: seq<Thread>): Store {
    var (id, prompt) := Latest(threads);
    if id != "" && prompt > st.latestPrompt then Focused(st, id).(latestPrompt := prompt)
    else if st.focus == "" && threads != [] && threads[0].id != "" then Focused(st, threads[0].id)
    else st
  }

  function AfterUpdate(st: Store, threads: seq<Thread>): Store {
    var (entered, changed) := AfterThreads(st, threads);
    var t := AfterFocus(entered, threads);
    if changed || t.focusSeq != entered.focusSeq then Changed(Trimmed(t)) else Trimmed(t)
  }

  function Hooked(s: Session, hook: Hook): Session {
    match hook
    case SessionStart => s.(status := Idle, phase := NoPhase, activity := READY_TEXT, unread := false)
    case UserPromptSubmit => Began(s, "Understanding the task...", s.updated)
    case PermissionRequest =>
      s.(status := NeedsInput, phase := NoPhase, activity := "Waiting for your approval", unread := true)
    case PreToolUse(asksUser, text) =>
      if asksUser then
        s.(status := NeedsInput, phase := NoPhase, activity := "Waiting for your answer", unread := true)
      else s.(status := Running, phase := Tool, activity := text, unread := false)
    case PostToolUse => s.(status := Running, phase := Thinking, activity := "Thinking...", unread := false)
    case Stop(hint) =>
      s.(status := Ready, phase := NoPhase, activity := if hint != "" then hint else "Task completed", unread := true)
    case Failure =>
      s.(status := Blocked, phase := NoPhase, activity := "Task encountered a problem", unread := true)
    case OtherHook => s
  }

  function AfterHook(st: Store, id: Id, hook: Hook, project: Option<string>, time: nat): Store {
    if id == "" then st
    else
      var was := Get(st.sessions, id);
      var s := was.(project := if project.Some? then project.value else was.project, updated := time);
      if hook == UserPromptSubmit then Prompted(st, s, "Understanding the task...", time)
      else
        var t := Stored(st, Hooked(s, hook));
        if hook == OtherHook then t
        else Changed(Trimmed(if hook == SessionStart && st.focus == "" then t.(focus := id) else t))
  }

  function AfterAcknowledge(st: Store, id: Id): Store {
    if !IsStored(st.sessions, id) then st
    else
      var s := Get(st.sessions, id);
      var done := s.status == Ready || s.status == Blocked;
      var quiet := if done then s.(unread := false, status := Idle, phase := NoPhase, activity := READY_TEXT)
                   else s.(unread := false);
      if s.unread || done then Changed(Stored(st, quiet)) else Stored(st, quiet)
  }

  function Step(x: Texts, st: Store, e: Event): Store {
    match e
    case PublicActivity(id, text, isTool, time) => AfterActivity(st, id, text, isTool, time)
    case NameUpdated(id, title) =>
      if id == "" || title == "" then st
      else
        var s := Get(st.sessions, id);
        if s.title == title then Stored(st, s) else Changed(Stored(st, s.(title := title)))
    case TurnStarted(id, turn, startedAt, now) => AfterTurnStarted(st, id, turn, startedAt, now)
    case TurnCompleted(id, failed, now) =>
      if id == "" then st else Changed(Trimmed(Stored(st, Completed(x, Get(st.sessions, id), failed, now))))
    case Progress(id, text, now) =>
      if id == "" then st else AfterActivity(Stored(st, Get(st.sessions, id)), id, text, true, now)
    case ItemStarted(id, item, now) => if id == "" then st else AfterItem(st, id, item, true, now)
    case ItemCompleted(id, item, now) => if id == "" then st else AfterItem(st, id, item, false, now)
    case OtherEvent(id) => if id == "" then st else Stored(st, Get(st.sessions, id))
    case Threads(threads) => AfterUpdate(st, threads)
    case HookFired(id, hook, project, time) => AfterHook(st, id, hook, project, time)
    case Acknowledged(id) => AfterAcknowledge(st, id)
  }

  function Run(x: Texts, st: Store, events: seq<Event>): Store
    decreases |events|
  {
    if events == [] then st else Run(x, Step(x, st, events[0]), events[1..])
  }

  // ---- The dictionary keeps its shape ----------------------------------------------------

  ghost predicate Distinct(ss: seq<Session>) {
    forall i, j :: 0 <= i < j < |ss| ==> ss[i].id != ss[j].id
  }

  ghost predicate AllWellFormed(ss: seq<Session>) {
    forall i :: 0 <= i < |ss| ==> ss[i].WellFormed()
  }

  ghost predicate Inv(st: Store) {
    Distinct(st.sessions) && AllWellFormed(st.sessions)
  }

  /** Counters only grow, and a focus, once there, only moves with a larger number. */
  ghost predicate Advances(s: Store, t: Store) {
    && t.seqNo >= s.seqNo && t.focusSeq >= s.focusSeq && t.latestPrompt >= s.latestPrompt
    && (t.focus != s.focus ==> s.focus == "" || t.focusSeq > s.focusSeq)
  }

  ghost predicate Keeps(s: Store, t: Store) {
    Inv(t) && Advances(s, t)
  }

  lemma KeepsOn(s: Store, t: Store, u: Store)
    requires Keeps(s, t) && Keeps(t, u)
    ensures Keeps(s, u)
  {
  }

  lemma GetIsWellFormed(ss: seq<Session>, id: Id)
    requires AllWellFormed(ss)
    ensures Get(ss, id).WellFormed()
  {
  }

  lemma PutKeeps(st: Store, s: Session)
    requires Inv(st) && s.WellFormed()
    ensures Keeps(st, Stored(st, s))
  {
  }

  lemma {:induction false} InsertHolds(key: Session -> int, s: Session, ss: seq<Session>)
    ensures forall x :: x in Insert(key, s, ss) <==> x == s || x in ss
    ensures |Insert(key, s, ss)| == |ss| + 1
  {
    if ss != [] && key(ss[0]) > key(s) {
      InsertHolds(key, s, ss[1..]);
      assert ss == [ss[0]] + ss[1..];
    }
  }

  lemma {:induction false} SortedHolds(key: Session -> int, ss: seq<Session>)
    ensures forall x :: x in Sorted(key, ss) <==> x in ss
    ensures |Sorted(key, ss)| == |ss|
  {
    if ss != [] {
      SortedHolds(key, ss[1..]);
      InsertHolds(key, ss[0], Sorted(key, ss[1..]));
      assert ss == [ss[0]] + ss[1..];
    }
  }

  ghost predicate IsDescending(key: Session -> int, ss: seq<Session>) {
    forall i, j :: 0 <= i < j < |ss| ==> key(ss[i]) >= key(ss[j])
  }

  lemma {:induction false} InsertDescends(key: Session -> int, s: Session, ss: seq<Session>)
    requires IsDescending(key, ss)
    ensures IsDescending(key, Insert(key, s, ss))
  {
    if ss != [] && key(ss[0]) > key(s) {
      var rest := Insert(key, s, ss[1..]);
      InsertDescends(key, s, ss[1..]);
      InsertHolds(key, s, ss[1..]);
      forall j | 0 <= j < |rest| ensures key(ss[0]) >= key(rest[j]) {
        assert rest[j] in rest;
        if rest[j] != s {
          var k :| 0 <= k < |ss[1..]| && ss[1..][k] == rest[j];
        }
      }
    }
  }

  lemma {:induction false} SortedDescends(key: Session -> int, ss: seq<Session>)
    ensures IsDescending(key, Sorted(key, ss))
  {
    if ss != [] {
      SortedDescends(key, ss[1..]);
      InsertDescends(key, ss[0], Sorted(key, ss[1..]));
    }
  }

  lemma {:induction false} InsertIsDistinct(key: Session -> int, s: Session, ss: seq<Session>)
    requires Distinct(ss) && forall x :: x in ss ==> x.id != s.id
    ensures Distinct(Insert(key, s, ss))
  {
    if ss != [] && key(ss[0]) > key(s) {
      var rest := Insert(key, s, ss[1..]);
      InsertIsDistinct(key, s, ss[1..]);
      InsertHolds(key, s, ss[1..]);
      forall j | 0 <= j < |rest| ensures rest[j].id != ss[0].id {
        assert rest[j] in rest;
        if rest[j] != s {
          var k :| 0 <= k < |ss[1..]| && ss[1..][k] == rest[j];
        } else {
          assert ss[0] in ss;
        }
      }
    } else {
      forall j | 0 <= j < |ss| ensures ss[j].id != s.id {
        assert ss[j] in ss;
      }
    }
  }

  lemma {:induction false} SortedIsDistinct(key: Session -> int, ss: seq<Session>)
    requires Distinct(ss)
    ensures Distinct(Sorted(key, ss))
  {
    if ss != [] {
      SortedIsDistinct(key, ss[1..]);
      SortedHolds(key, ss[1..]);
      forall x | x in Sorted(key, ss[1..]) ensures x.id != ss[0].id {
        var k :| 0 <= k < |ss[1..]| && ss[1..][k] == x;
      }
      InsertIsDistinct(key, ss[0], Sorted(key, ss[1..]));
    }
  }

  lemma SortedIsWellFormed(key: Session -> int, ss: seq<Session>)
    requires AllWellFormed(ss)
    ensures AllWellFormed(Sorted(key, ss))
  {
    SortedHolds(key, ss);
    var r := Sorted(key, ss);
    forall i | 0 <= i < |r| ensures r[i].WellFormed() {
      assert r[i] in r;
      var k :| 0 <= k < |ss| && ss[k] == r[i];
    }
  }

  lemma TrimmedKeeps(st: Store)
    requires Inv(st)
    ensures Keeps(st, Trimmed(st))
  {
    SortedIsDistinct(ByUpdate(), st.sessions);
    SortedIsWellFormed(ByUpdate(), st.sessions);
  }

  // ---- Every event -----------------------------------------------------------------------

  lemma MarkedKeeps(st: Store)
    requires Inv(st)
    ensures Keeps(st, Changed(st)) && Keeps(st, Trimmed(st)) && Keeps(st, Changed(Trimmed(st)))
  {
    TrimmedKeeps(st);
  }

  lemma EnteredKeeps(st: Store, s: Session)
    requires Inv(st) && s.WellFormed()
    ensures Keeps(st, Stored(st, s)) && Keeps(st, Changed(Stored(st, s)))
    ensures Keeps(st, Trimmed(Stored(st, s))) && Keeps(st, Changed(Trimmed(Stored(st, s))))
  {
    PutKeeps(st, s);
    MarkedKeeps(Stored(st, s));
    KeepsOn(st, Stored(st, s), Trimmed(Stored(st, s)));
    KeepsOn(st, Stored(st, s), Changed(Trimmed(Stored(st, s))));
  }

  lemma ActivityKeeps(st: Store, id: Id, text: string, isTool: bool, time: nat)
    requires Inv(st)
    ensures Keeps(st, AfterActivity(st, id, text, isTool, time))
  {
    if id != "" && text != "" {
      var s := Get(st.sessions, id);
      EnteredKeeps(st, s.(activity := text, status := Running, phase := if isTool then Tool else Thinking,
                          unread := false, updated := Max(s.updated, time)));
    }
  }

  lemma PromptedKeeps(st: Store, s: Session, text: string, time: nat)
    requires Inv(st)
    ensures Keeps(st, Prompted(st, s, text, time))
  {
    var b := Began(s, text, time);
    PutKeeps(st, b);
    var t := Stored(st, b).(focus := s.id, focusSeq := st.focusSeq + 1, latestPrompt := Max(st.latestPrompt, time));
    assert Keeps(st, t);
    MarkedKeeps(t);
    KeepsOn(st, t, Changed(Trimmed(t)));
  }

  lemma MadeKeeps(st: Store, id: Id)
    requires Inv(st)
    ensures Keeps(st, Stored(st, Get(st.sessions, id)))
  {
    GetIsWellFormed(st.sessions, id);
    PutKeeps(st, Get(st.sessions, id));
  }

  lemma TurnsKeep(st: Store, turns: map<Id, string>)
    requires Inv(st)
    ensures Keeps(st, st.(turns := turns))
  {
  }

  lemma TurnStartedKeeps(st: Store, id: Id, turn: string, startedAt: nat, now: nat)
    requires Inv(st)
    ensures Keeps(st, AfterTurnStarted(st, id, turn, startedAt, now))
  {
    MadeKeeps(st, id);
    var s := Get(st.sessions, id);
    var made := Stored(st, s);
    var time := if startedAt != 0 then startedAt else now;
    var noted := made.(turns := st.turns[id := turn]);
    TurnsKeep(made, noted.turns);
    KeepsOn(st, made, noted);
    PromptedKeeps(noted, s, "Understanding the task", time);
    KeepsOn(st, noted, Prompted(noted, s, "Understanding the task", time));
    PromptedKeeps(made, s, "Understanding the task", time);
    KeepsOn(st, made, Prompted(made, s, "Understanding the task", time));
  }

  lemma ItemKeeps(st: Store, id: Id, item: Item, started: bool, now: nat)
    requires Inv(st)
    ensures Keeps(st, AfterItem(st, id, item, started, now))
  {
    MadeKeeps(st, id);
    var made := Stored(st, Get(st.sessions, id));
    if item.UserMessage? {
      TurnStartedKeeps(made, id, item.turn, 0, now);
    } else if !item.Reasoning? {
      var text := if item.OtherItem? && !started then "Reviewing the result" else item.text;
      ActivityKeeps(made, id, text, item.OtherItem? && started, now);
    }
    if AfterItem(st, id, item, started, now) != made {
      KeepsOn(st, made, AfterItem(st, id, item, started, now));
    }
  }

  lemma {:induction false} ThreadsKeep(st: Store, threads: seq<Thread>)
    requires Inv(st)
    ensures Keeps(st, AfterThreads(st, threads).0) && AfterThreads(st, threads).0.latestPrompt == st.latestPrompt
  {
    if threads != [] {
      var before, t := AfterThreads(st, threads[..|threads| - 1]).0, threads[|threads| - 1];
      ThreadsKeep(st, threads[..|threads| - 1]);
      GetIsWellFormed(before.sessions, t.id);
      PutKeeps(before, Refreshed(Get(before.sessions, t.id), t));
      KeepsOn(st, before, AfterThreads(st, threads).0);
    }
  }

  lemma FocusKeeps(st: Store, threads: seq<Thread>)
    requires Inv(st)
    ensures Keeps(st, AfterFocus(st, threads))
  {
  }

  lemma UpdateKeeps(st: Store, threads: seq<Thread>)
    requires Inv(st)
    ensures Keeps(st, AfterUpdate(st, threads))
  {
    ThreadsKeep(st, threads);
    var entered := AfterThreads(st, threads).0;
    FocusKeeps(entered, threads);
    var t := AfterFocus(entered, threads);
    KeepsOn(st, entered, t);
    MarkedKeeps(t);
    KeepsOn(st, t, AfterUpdate(st, threads));
  }

  lemma HookKeeps(st: Store, id: Id, hook: Hook, project: Option<string>, time: nat)
    requires Inv(st)
    ensures Keeps(st, AfterHook(st, id, hook, project, time))
  {
    if id != "" {
      GetIsWellFormed(st.sessions, id);
      var was := Get(st.sessions, id);
      var s := was.(project := if project.Some? then project.value else was.project, updated := time);
      if hook == UserPromptSubmit {
        PromptedKeeps(st, s, "Understanding the task...", time);
      } else {
        PutKeeps(st, Hooked(s, hook));
        var t := Stored(st, Hooked(s, hook));
        var f := if hook == SessionStart && st.focus == "" then t.(focus := id) else t;
        assert Keeps(st, f);
        MarkedKeeps(f);
        KeepsOn(st, f, Changed(Trimmed(f)));
      }
    }
  }

  lemma AcknowledgeKeeps(st: Store, id: Id)
    requires Inv(st)
    ensures Keeps(st, AfterAcknowledge(st, id))
  {
    if IsStored(st.sessions, id) {
      GetIsWellFormed(st.sessions, id);
      var s := Get(st.sessions, id);
      EnteredKeeps(st, s.(unread := false));
      EnteredKeeps(st, s.(unread := false, status := Idle, phase := NoPhase, activity := READY_TEXT));
    }
  }

  lemma NameKeeps(x: Texts, st: Store, id: Id, title: string)
    requires Inv(st)
    ensures Keeps(st, Step(x, st, NameUpdated(id, title)))
  {
    GetIsWellFormed(st.sessions, id);
    MadeKeeps(st, id);
    EnteredKeeps(st, Get(st.sessions, id).(title := title));
  }

  lemma CompletedKeeps(x: Texts, st: Store, id: Id, failed: bool, now: nat)
    requires Inv(st)
    ensures Keeps(st, Step(x, st, TurnCompleted(id, failed, now)))
  {
    EnteredKeeps(st, Completed(x, Get(st.sessions, id), failed, now));
  }

  lemma ProgressKeeps(st: Store, id: Id, text: string, now: nat)
    requires Inv(st)
    ensures Keeps(st, AfterActivity(Stored(st, Get(st.sessions, id)), id, text, true, now))
  {
    var made := Stored(st, Get(st.sessions, id));
    MadeKeeps(st, id);
    ActivityKeeps(made, id, text, true, now);
    KeepsOn(st, made, AfterActivity(made, id, text, true, now));
  }

  lemma MadeStepKeeps(x: Texts, st: Store, e: Event)
    requires Inv(st) && (e.Progress? || e.ItemStarted? || e.ItemCompleted? || e.OtherEvent?)
    ensures Keeps(st, Step(x, st, e))
  {
    match e
    case Progress(id, text, now) => ProgressKeeps(st, id, text, now);
    case ItemStarted(id, item, now) => ItemKeeps(st, id, item, true, now);
    case ItemCompleted(id, item, now) => ItemKeeps(st, id, item, false, now);
    case OtherEvent(id) => MadeKeeps(st, id);
  }

  lemma StepKeeps(x: Texts, st: Store, e: Event)
    requires Inv(st)
    ensures Keeps(st, Step(x, st, e))
  {
    match e
    case PublicActivity(id, text, isTool, time) => ActivityKeeps(st, id, text, isTool, time);
    case NameUpdated(id, title) => NameKeeps(x, st, id, title);
    case TurnStarted(id, turn, startedAt, now) => TurnStartedKeeps(st, id, turn, startedAt, now);
    case TurnCompleted(id, failed, now) => CompletedKeeps(x, st, id, failed, now);
    case Threads(threads) => UpdateKeeps(st, threads);
    case HookFired(id, hook, project, time) => HookKeeps(st, id, hook, project, time);
    case Acknowledged(id) => AcknowledgeKeeps(st, id);
    case _ => MadeStepKeeps(x, st, e);
  }

  /**
    Over every run of events, in any mix: ids stay distinct, a phase goes with running, what is
    unread waits for the user, and the counters and the focus only advance.
   */
  lemma {:induction false} RunKeeps(x: Texts, st: Store, events: seq<Event>)
    requires Inv(st)
    ensures Keeps(st, Run(x, st, events))
    decreases |events|
  {
    if events != [] {
      StepKeeps(x, st, events[0]);
      RunKeeps(x, Step(x, st, events[0]), events[1..]);
      KeepsOn(st, Step(x, st, events[0]), Run(x, st, events));
    }
  }

  // ---- Snapshots -------------------------------------------------------------------------

  function Limit(limit: int): nat {
    if limit < 1 then 1 else if limit > AGENT_LIMIT then AGENT_LIMIT else limit
  }

  /** The sessions a snapshot shows. */
  function Selected(st: Store, limit: int): seq<Session> {
    var top := Take(Sorted(ByRecency(), st.sessions), Limit(limit));
    if !IsStored(st.sessions, st.focus) || Get(st.sessions, st.focus) in top || top == [] then top
    else Sorted(ByRecency(), top[|top| - 1 := Get(st.sessions, st.focus)])
  }

  /** What is left out of `shown` is no more recent than anything in it but the focused session. */
  ghost predicate IsMostRecent(st: Store, shown: seq<Session>) {
    forall i, j :: 0 <= i < |shown| && 0 <= j < |st.sessions| && shown[i].id != st.focus && st.sessions[j] !in shown ==>
      shown[i].Recency() >= st.sessions[j].Recency()
  }

  /** A good view of the store. */
  ghost predicate IsView(st: Store, shown: seq<Session>, limit: nat) {
    && IsDescending(ByRecency(), shown)
    && Distinct(shown)
    && |shown| == (if |st.sessions| < limit then |st.sessions| else limit)
    && (forall s :: s in shown ==> s in st.sessions)
    && (IsStored(st.sessions, st.focus) ==> Get(st.sessions, st.focus) in shown)
    && IsMostRecent(st, shown)
  }

  lemma TopIsMostRecent(st: Store, k: nat, i: nat, j: nat)
    requires var all := Sorted(ByRecency(), st.sessions);
             i < |Take(all, k)| && j < |st.sessions| && st.sessions[j] !in Take(all, k)
    ensures Take(Sorted(ByRecency(), st.sessions), k)[i].Recency() >= st.sessions[j].Recency()
  {
    var all := Sorted(ByRecency(), st.sessions);
    SortedDescends(ByRecency(), st.sessions);
    SortedHolds(ByRecency(), st.sessions);
    assert st.sessions[j] in all;
    var n :| 0 <= n < |all| && all[n] == st.sessions[j];
    assert forall m :: 0 <= m < |Take(all, k)| ==> Take(all, k)[m] == all[m];
    assert ByRecency()(all[i]) >= ByRecency()(all[n]);
  }

  lemma TopIsView(st: Store, k: nat)
    requires Inv(st) && k >= 1
    ensures var top := Take(Sorted(ByRecency(), st.sessions), k);
            && IsDescending(ByRecency(), top) && Distinct(top) && IsMostRecent(st, top)
            && |top| == (if |st.sessions| < k then |st.sessions| else k)
            && (forall s :: s in top ==> s in st.sessions)
  {
    var all, top := Sorted(ByRecency(), st.sessions), Take(Sorted(ByRecency(), st.sessions), k);
    SortedDescends(ByRecency(), st.sessions);
    SortedHolds(ByRecency(), st.sessions);
    SortedIsDistinct(ByRecency(), st.sessions);
    forall s | s in top ensures s in st.sessions {
      assert s in all;
    }
    forall i, j | 0 <= i < |top| && 0 <= j < |st.sessions| && st.sessions[j] !in top
      ensures top[i].Recency() >= st.sessions[j].Recency()
    {
      TopIsMostRecent(st, k, i, j);
    }
  }

  /** The focused session in place of the least recent one. */
  lemma ReplacedIsView(st: Store, top: seq<Session>, f: Session)
    requires Distinct(st.sessions) && IsMostRecent(st, top) && Distinct(top) && top != []
    requires forall s :: s in top ==> s in st.sessions
    requires f in st.sessions && f !in top && f.id == st.focus && IsDescending(ByRecency(), top)
    ensures var r := top[|top| - 1 := f];
            Distinct(r) && IsMostRecent(st, r) && f in r && forall s :: s in r ==> s in st.sessions
  {
    var r, last := top[|top| - 1 := f], top[|top| - 1];
    assert r[|top| - 1] == f;
    forall i | 0 <= i < |top| - 1 ensures r[i] == top[i] && top[i].id != f.id {
      assert top[i] in top;
      DistinctIds(st.sessions, top[i], f);
    }
    forall i, j | 0 <= i < |r| && 0 <= j < |st.sessions| && r[i].id != st.focus && st.sessions[j] !in r
      ensures r[i].Recency() >= st.sessions[j].Recency()
    {
      assert r[i] == top[i];
      if st.sessions[j] in top {
        var k :| 0 <= k < |top| && top[k] == st.sessions[j];
        assert forall m :: 0 <= m < |top| - 1 ==> r[m] == top[m];
        assert ByRecency()(top[i]) >= ByRecency()(top[k]);
      }
    }
  }

  lemma DistinctIds(ss: seq<Session>, a: Session, b: Session)
    requires Distinct(ss) && a in ss && b in ss && a != b
    ensures a.id != b.id
  {
  }

  lemma ResortedIsView(st: Store, r: seq<Session>)
    requires Distinct(r) && IsMostRecent(st, r) && forall s :: s in r ==> s in st.sessions
    ensures var t := Sorted(ByRecency(), r);
            && IsDescending(ByRecency(), t) && Distinct(t) && |t| == |r| && IsMostRecent(st, t)
            && forall s :: s in t <==> s in r
  {
    SortedDescends(ByRecency(), r);
    SortedHolds(ByRecency(), r);
    SortedIsDistinct(ByRecency(), r);
    var t := Sorted(ByRecency(), r);
    forall i, j | 0 <= i < |t| && 0 <= j < |st.sessions| && t[i].id != st.focus && st.sessions[j] !in t
      ensures t[i].Recency() >= st.sessions[j].Recency()
    {
      assert t[i] in t;
      var k :| 0 <= k < |r| && r[k] == t[i];
    }
  }

  /**
    In every state of every run a snapshot is ordered by recency, as long as it may be and no
    longer, holds the focused session if it is stored, and otherwise the most recent ones.
   */
  lemma SnapshotIsView(x: Texts, events: seq<Event>, limit: int)
    ensures var st := Run(x, NewStore(), events);
            && IsView(st, Selected(st, limit), Limit(limit))
            && Limit(limit) == (if limit < 1 then 1 else if limit > 8 then 8 else limit)
  {
    RunKeeps(x, NewStore(), events);
    ViewOf(Run(x, NewStore(), events), limit);
  }

  lemma FocusedIsView(st: Store, top: seq<Session>, f: Session)
    requires Distinct(st.sessions) && IsMostRecent(st, top) && Distinct(top) && top != []
    requires forall s :: s in top ==> s in st.sessions
    requires f in st.sessions && f !in top && f.id == st.focus && IsDescending(ByRecency(), top)
    ensures var t := Sorted(ByRecency(), top[|top| - 1 := f]);
            && IsDescending(ByRecency(), t) && Distinct(t) && |t| == |top| && IsMostRecent(st, t)
            && f in t && forall s :: s in t ==> s in st.sessions
  {
    ReplacedIsView(st, top, f);
    ResortedIsView(st, top[|top| - 1 := f]);
  }

  lemma StoredIsThere(st: Store, id: Id)
    requires IsStored(st.sessions, id)
    ensures Get(st.sessions, id) in st.sessions && st.sessions != []
  {
  }

  lemma ViewOf(st: Store, limit: int)
    requires Inv(st)
    ensures IsView(st, Selected(st, limit), Limit(limit))
  {
    var k := Limit(limit);
    TopIsView(st, k);
    if IsStored(st.sessions, st.focus) {
      StoredIsThere(st, st.focus);
      var top, f := Take(Sorted(ByRecency(), st.sessions), k), Get(st.sessions, st.focus);
      if f !in top {
        FocusedIsView(st, top, f);
      }
    }
  }

  // ---- What one device sees --------------------------------------------------------------

  /** A session as a device sees it that acknowledged it at this update, if it did. */
  function Presented(s: Session, acknowledgedAt: Option<nat>): Session {
    var acknowledged := acknowledgedAt == Some(s.updated);
    var quiet := acknowledged && (s.status == Ready || s.status == Blocked);
    s.(status := if quiet then Idle else s.status,
       phase := if quiet then NoPhase else s.phase,
       activity := if quiet then READY_TEXT else s.activity,
       unread := s.unread && !acknowledged)
  }

  /** Acknowledging quiets a finished session until its next update, and for this device only. */
  lemma PresentedIsWellFormed(s: Session, acknowledgedAt: Option<nat>)
    requires s.WellFormed()
    ensures var p := Presented(s, acknowledgedAt);
            && p.WellFormed()
            && (if acknowledgedAt == Some(s.updated) then !p.unread && p.status != Ready && p.status != Blocked
                else p == s)
  {
  }
}
