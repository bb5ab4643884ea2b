/**
  What each event does to the session it names, to the others and to the focus
  (bridge/agent/cardbridge/agents.py), told from the event and the session before it.
 */
module AgentLaws {
  import opened Common
  import opened AgentSessions
  import opened AgentBounds

  // ---- One session changes ---------------------------------------------------------------

  /** Session `id`, if it is stored after, is `s`; any other stored after was stored before, and is the same. */
  ghost predicate Becomes(before: Store, after: Store, id: Id, s: Session) {
    && (IsStored(after.sessions, id) ==> Get(after.sessions, id) == s)
    && forall other :: other != id && IsStored(after.sessions, other) ==>
         IsStored(before.sessions, other) && Get(after.sessions, other) == Get(before.sessions, other)
  }

  lemma PutKeepsOther(ss: seq<Session>, s: Session, other: Id)
    requires other != s.id
    ensures Get(Put(ss, s), other) == Get(ss, other)
  {
    PutStores(ss, s, other);
    if IsStored(ss, other) {
      var put, i := Put(ss, s), Find(ss, other);
      assert put[i] == ss[i];
      FindIsFirst(put, i);
    }
  }

  /** What is found is the first of its id. */
  lemma FindIsFirst(ss: seq<Session>, i: nat)
    requires i < |ss| && forall j :: 0 <= j < i ==> ss[j].id != ss[i].id
    ensures Find(ss, ss[i].id) == i
  {
  }

  lemma StoredBecomes(st: Store, s: Session)
    ensures Becomes(st, Stored(st, s), s.id, s)
  {
    PutGets(st.sessions, s);
    forall other | other != s.id && IsStored(Put(st.sessions, s), other)
      ensures IsStored(st.sessions, other) && Get(Put(st.sessions, s), other) == Get(st.sessions, other)
    {
      PutStores(st.sessions, s, other);
      PutKeepsOther(st.sessions, s, other);
    }
  }

  lemma MemberIsGot(ss: seq<Session>, s: Session)
    requires Distinct(ss) && s in ss
    ensures IsStored(ss, s.id) && Get(ss, s.id) == s
  {
    var k :| 0 <= k < |ss| && ss[k] == s;
    FindIsFirst(ss, k);
  }

  lemma TrimmedHolds(st: Store, id: Id)
    requires Inv(st) && IsStored(Trimmed(st).sessions, id)
    ensures IsStored(st.sessions, id) && Get(Trimmed(st).sessions, id) == Get(st.sessions, id)
  {
    if |st.sessions| > MAX_SESSIONS {
      var all := Sorted(ByUpdate(), st.sessions);
      SortedHolds(ByUpdate(), st.sessions);
      var s := Get(Trimmed(st).sessions, id);
      assert s in all;
      MemberIsGot(st.sessions, s);
    }
  }

  lemma TrimmedBecomes(st: Store, s: Session, after: Store)
    requires Inv(Stored(st, s))
    requires after.sessions == Trimmed(Stored(st, s)).sessions
    ensures Becomes(st, after, s.id, s)
  {
    StoredBecomes(st, s);
    forall id | IsStored(after.sessions, id)
      ensures IsStored(Stored(st, s).sessions, id) && Get(after.sessions, id) == Get(Stored(st, s).sessions, id)
    {
      TrimmedHolds(Stored(st, s), id);
    }
  }

  lemma EnteredBecomes(st: Store, s: Session, after: Store)
    requires Inv(st) && s.WellFormed()
    requires after.sessions == Stored(st, s).sessions || after.sessions == Trimmed(Stored(st, s)).sessions
    ensures Becomes(st, after, s.id, s)
  {
    PutKeeps(st, s);
    StoredBecomes(st, s);
    if after.sessions == Trimmed(Stored(st, s)).sessions {
      TrimmedBecomes(st, s, after);
    }
  }

  // ---- Hooks -----------------------------------------------------------------------------

  /** The status a hook announces. */
  function HookStatus(hook: Hook, was: Status): Status {
    match hook
    case SessionStart => Idle
    case UserPromptSubmit => Running
    case PermissionRequest => NeedsInput
    case PreToolUse(asksUser, _) => if asksUser then NeedsInput else Running
    case PostToolUse => Running
    case Stop(_) => Ready
    case Failure => Blocked
    case OtherHook => was
  }

  /** The session after a hook: a status of its own, unread exactly if it waits for the user. */
  ghost predicate IsHooked(s: Session, t: Session, hook: Hook, project: Option<string>, time: nat) {
    && t.id == s.id && t.title == s.title && t.updated == time
    && t.project == (if project.Some? then project.value else s.project)
    && t.status == HookStatus(hook, s.status)
    && (hook != OtherHook ==> t.unread == (t.status in {NeedsInput, Ready, Blocked}))
    && (hook != OtherHook && t.status == Running ==> t.phase == if hook.PreToolUse? then Tool else Thinking)
    && (hook == OtherHook ==> t.unread == s.unread && t.phase == s.phase && t.activity == s.activity)
    && t.prompt == (if hook == UserPromptSubmit && time > s.prompt then time else s.prompt)
    && (hook.PreToolUse? && !hook.asksUser ==> t.activity == hook.toolText)
    && (hook.Stop? && hook.hint != "" ==> t.activity == hook.hint)
  }

  /** The session as a hook leaves it. */
  function AfterHooked(was: Session, hook: Hook, project: Option<string>, time: nat): Session {
    var s := was.(project := if project.Some? then project.value else was.project, updated := time);
    if hook == UserPromptSubmit then Began(s, "Understanding the task...", time) else Hooked(s, hook)
  }

  lemma HookedIsWellFormed(was: Session, hook: Hook, project: Option<string>, time: nat)
    requires was.WellFormed()
    ensures AfterHooked(was, hook, project, time).WellFormed() && AfterHooked(was, hook, project, time).id == was.id
  {
  }

  lemma HookEnters(st: Store, id: Id, hook: Hook, project: Option<string>, time: nat, t: Session)
    requires id != "" && t == AfterHooked(Get(st.sessions, id), hook, project, time)
    ensures var after := AfterHook(st, id, hook, project, time).sessions;
            after == Stored(st, t).sessions || after == Trimmed(Stored(st, t)).sessions
  {
  }

  lemma HookBecomes(st: Store, id: Id, hook: Hook, project: Option<string>, time: nat, t: Session)
    requires Inv(st) && id != "" && t == AfterHooked(Get(st.sessions, id), hook, project, time)
    ensures Becomes(st, AfterHook(st, id, hook, project, time), id, t)
  {
    GetIsWellFormed(st.sessions, id);
    HookedIsWellFormed(Get(st.sessions, id), hook, project, time);
    HookEnters(st, id, hook, project, time, t);
    EnteredBecomes(st, t, AfterHook(st, id, hook, project, time));
  }

  lemma HookShows(was: Session, hook: Hook, project: Option<string>, time: nat)
    ensures IsHooked(was, AfterHooked(was, hook, project, time), hook, project, time)
  {
  }

  /** A hook leaves its session with the status it announces, and the others as they were. */
  lemma HookLaw(st: Store, id: Id, hook: Hook, project: Option<string>, time: nat) returns (t: Session)
    requires Inv(st) && id != ""
    ensures Becomes(st, AfterHook(st, id, hook, project, time), id, t)
    ensures IsHooked(Get(st.sessions, id), t, hook, project, time)
  {
    var was := Get(st.sessions, id);
    t := AfterHooked(was, hook, project, time);
    HookBecomes(st, id, hook, project, time, t);
    HookShows(was, hook, project, time);
  }

  // ---- Turns -----------------------------------------------------------------------------

  /** The end of a turn leaves its session unread, blocked if it failed and ready if not. */
  lemma TurnEndLaw(x: Texts, st: Store, id: Id, failed: bool, now: nat)
    requires Inv(st) && id != ""
    ensures var s, after := Get(st.sessions, id), Step(x, st, TurnCompleted(id, failed, now));
            Becomes(st, after, id,
                    s.(status := if failed then Blocked else Ready, phase := NoPhase, unread := true, updated := now,
                       activity := if failed then "Task encountered a problem"
                                   else if s.phase == Tool || !x.isPublic(s.activity) then "Task completed"
                                   else s.activity))
  {
    EnteredBecomes(st, Completed(x, Get(st.sessions, id), failed, now), Step(x, st, TurnCompleted(id, failed, now)));
  }

  lemma PutTwice(ss: seq<Session>, s: Session, t: Session)
    requires s.id == t.id
    ensures Put(Put(ss, s), t) == Put(ss, t)
  {
    var i := Find(ss, s.id);
    assert forall j :: 0 <= j < i ==> Put(ss, s)[j] == ss[j];
    FindIsFirst(Put(ss, s), i);
  }

  lemma PromptedBecomes(st: Store, made: Store, s: Session, text: string, time: nat)
    requires Inv(st) && made.sessions == Put(st.sessions, s)
    ensures Becomes(st, Prompted(made, s, text, time), s.id, Began(s, text, time))
  {
    var t := Began(s, text, time);
    PutTwice(st.sessions, s, t);
    EnteredBecomes(st, t, Prompted(made, s, text, time));
  }

  /** A turn that is new sets its session running, prompted when it started; another one changes nothing. */
  lemma TurnStartLaw(st: Store, id: Id, turn: string, startedAt: nat, now: nat)
    requires Inv(st) && id != ""
    ensures var s, time := Get(st.sessions, id), if startedAt != 0 then startedAt else now;
            Becomes(st, AfterTurnStarted(st, id, turn, startedAt, now), id,
                    if (turn != "" && !(id in st.turns && st.turns[id] == turn)) || (turn == "" && s.status != Running)
                    then s.(status := Running, phase := Thinking, unread := false, updated := time,
                            activity := "Understanding the task", prompt := if time > s.prompt then time else s.prompt)
                    else s)
  {
    GetIsWellFormed(st.sessions, id);
    var s := Get(st.sessions, id);
    var made, time := Stored(st, s), if startedAt != 0 then startedAt else now;
    StoredBecomes(st, s);
    PromptedBecomes(st, made, s, "Understanding the task", time);
    PromptedBecomes(st, made.(turns := st.turns[id := turn]), s, "Understanding the task", time);
  }

  // ---- Activity, titles and acknowledgements ---------------------------------------------

  /** A public activity is shown, and its session runs on. */
  lemma ActivityLaw(st: Store, id: Id, text: string, isTool: bool, time: nat)
    requires Inv(st) && id != "" && text != ""
    ensures var s, after := Get(st.sessions, id), AfterActivity(st, id, text, isTool, time);
            && Becomes(st, after, id,
                       s.(activity := text, status := Running, phase := if isTool then Tool else Thinking,
                          unread := false, updated := if time > s.updated then time else s.updated))
            && (after.seqNo > st.seqNo
                <==> s.activity != text || s.status != Running || s.phase != (if isTool then Tool else Thinking))
  {
    GetIsWellFormed(st.sessions, id);
    var s := Get(st.sessions, id);
    EnteredBecomes(st, s.(activity := text, status := Running, phase := if isTool then Tool else Thinking,
                          unread := false, updated := Max(s.updated, time)),
                   AfterActivity(st, id, text, isTool, time));
  }

  /** What an item of a turn makes its session show, if anything. */
  function ItemText(item: Item, started: bool): string {
    match item
    case AgentMessage(text) => text
    case Plan(text) => if started then text else ""
    case OtherItem(text) => if started then text else "Reviewing the result"
    case _ => ""
  }

  lemma MadeBecomes(st: Store, id: Id, text: string, isTool: bool, time: nat, s: Session)
    requires Inv(st) && id != "" && text != "" && s == Get(st.sessions, id)
    ensures Becomes(st, AfterActivity(Stored(st, s), id, text, isTool, time), id,
                    s.(activity := text, status := Running, phase := if isTool then Tool else Thinking,
                       unread := false, updated := if time > s.updated then time else s.updated))
  {
    var t := s.(activity := text, status := Running, phase := if isTool then Tool else Thinking,
                unread := false, updated := Max(s.updated, time));
    PutGets(st.sessions, s);
    PutTwice(st.sessions, s, t);
    EnteredBecomes(st, t, AfterActivity(Stored(st, s), id, text, isTool, time));
  }

  /** An item of a turn is shown as an activity of a tool while it runs; only a user's message starts a turn. */
  lemma ItemLaw(st: Store, id: Id, item: Item, started: bool, now: nat)
    requires Inv(st) && id != "" && !(item.UserMessage? && started)
    ensures var s, text := Get(st.sessions, id), ItemText(item, started);
            Becomes(st, AfterItem(st, id, item, started, now), id,
                    if text == "" then s
                    else s.(activity := text, status := Running, unread := false,
                            phase := if item.OtherItem? && started then Tool else Thinking,
                            updated := if now > s.updated then now else s.updated))
  {
    var s, text := Get(st.sessions, id), ItemText(item, started);
    StoredBecomes(st, s);
    if text != "" {
      MadeBecomes(st, id, text, item.OtherItem? && started, now, s);
    }
  }

  /** A title is stored, and reported exactly if it is new. */
  lemma TitleLaw(x: Texts, st: Store, id: Id, title: string)
    requires Inv(st) && id != "" && title != ""
    ensures var s, after := Get(st.sessions, id), Step(x, st, NameUpdated(id, title));
            Becomes(st, after, id, s.(title := title)) && (after.seqNo > st.seqNo <==> s.title != title)
  {
    StoredBecomes(st, Get(st.sessions, id));
    StoredBecomes(st, Get(st.sessions, id).(title := title));
  }

  /** Acknowledged, a session is read, and idle if it had finished; it is reported exactly if either is news. */
  lemma AcknowledgeLaw(st: Store, id: Id)
    requires Inv(st) && IsStored(st.sessions, id)
    ensures var s, after := Get(st.sessions, id), AfterAcknowledge(st, id);
            && IsStored(after.sessions, id)
            && Becomes(st, after, id,
                       if s.status in {Ready, Blocked}
                       then s.(status := Idle, phase := NoPhase, activity := "Session ready", unread := false)
                       else s.(unread := false))
            && (after.seqNo > st.seqNo <==> s.unread || s.status in {Ready, Blocked})
  {
    var s := Get(st.sessions, id);
    var t := if s.status in {Ready, Blocked}
             then s.(status := Idle, phase := NoPhase, activity := READY_TEXT, unread := false)
             else s.(unread := false);
    PutStores(st.sessions, t, id);
    StoredBecomes(st, t);
  }

  // ---- Focus -----------------------------------------------------------------------------

  /** The prompts: they take the focus, even for the session that has it. */
  predicate IsPrompt(st: Store, e: Event) {
    match e
    case TurnStarted(id, turn, _, _) => id != "" && StartsTurn(st, id, turn)
    case ItemStarted(id, UserMessage(turn), _) => id != "" && StartsTurn(st, id, turn)
    case HookFired(id, hook, _, _) => id != "" && hook == UserPromptSubmit
    case _ => false
  }

  /** The focus after an event other than a list of threads. */
  ghost predicate FocusMoves(st: Store, e: Event, after: Store)
    requires !e.Threads?
  {
    if IsPrompt(st, e) then after.focus == e.id && after.focusSeq == st.focusSeq + 1
    else
      && after.focusSeq == st.focusSeq
      && after.focus == if e.HookFired? && e.hook == SessionStart && st.focus == "" then e.id else st.focus
  }

  lemma TurnFocus(st: Store, id: Id, turn: string, startedAt: nat, now: nat)
    requires id != ""
    ensures var after, starts := AfterTurnStarted(st, id, turn, startedAt, now), StartsTurn(st, id, turn);
            && after.focus == (if starts then id else st.focus)
            && after.focusSeq == (if starts then st.focusSeq + 1 else st.focusSeq)
  {
  }

  lemma ActivityFocus(st: Store, id: Id, text: string, isTool: bool, time: nat)
    ensures var after := AfterActivity(st, id, text, isTool, time);
            after.focus == st.focus && after.focusSeq == st.focusSeq
  {
  }

  lemma ItemFocus(st: Store, id: Id, item: Item, started: bool, now: nat)
    requires id != ""
    ensures var after := AfterItem(st, id, item, started, now);
            var starts := started && item.UserMessage? && StartsTurn(st, id, item.turn);
            && after.focus == (if starts then id else st.focus)
            && after.focusSeq == (if starts then st.focusSeq + 1 else st.focusSeq)
  {
    var made := Stored(st, Get(st.sessions, id));
    match item
    case Reasoning =>
    case UserMessage(turn) =>
      MadeStartsToo(st, id, turn);
      TurnFocus(made, id, turn, 0, now);
    case AgentMessage(text) => ActivityFocus(made, id, text, false, now);
    case Plan(text) => ActivityFocus(made, id, text, false, now);
    case OtherItem(text) =>
      ActivityFocus(made, id, text, true, now);
      ActivityFocus(made, id, "Reviewing the result", false, now);
  }

  lemma HookFocus(st: Store, id: Id, hook: Hook, project: Option<string>, time: nat)
    ensures FocusMoves(st, HookFired(id, hook, project, time), AfterHook(st, id, hook, project, time))
  {
  }

  /** The focus goes to the session of a prompt, to a first session started, and nowhere else. */
  lemma FocusLaw(x: Texts, st: Store, e: Event)
    requires !e.Threads?
    ensures FocusMoves(st, e, Step(x, st, e))
  {
    match e
    case TurnStarted(id, turn, startedAt, now) =>
      if id != "" {
        TurnFocus(st, id, turn, startedAt, now);
      }
    case ItemStarted(id, item, now) =>
      if id != "" {
        ItemFocus(st, id, item, true, now);
      }
    case ItemCompleted(id, item, now) =>
      if id != "" {
        ItemFocus(st, id, item, false, now);
      }
    case Progress(id, text, now) => ActivityFocus(Stored(st, Get(st.sessions, id)), id, text, true, now);
    case PublicActivity(id, text, isTool, time) => ActivityFocus(st, id, text, isTool, time);
    case HookFired(id, hook, project, time) => HookFocus(st, id, hook, project, time);
    case _ =>
  }

  /** The first of the threads with the latest prompt. */
  ghost predicate IsLatest(threads: seq<Thread>, i: nat) {
    && i < |threads| && threads[i].id != "" && threads[i].prompt > 0
    && (forall j :: 0 <= j < |threads| && threads[j].id != "" ==> threads[j].prompt <= threads[i].prompt)
    && (forall j :: 0 <= j < i && threads[j].id != "" ==> threads[j].prompt < threads[i].prompt)
  }

  ghost predicate HasPrompt(threads: seq<Thread>) {
    exists i :: 0 <= i < |threads| && threads[i].id != "" && threads[i].prompt > 0
  }

  lemma {:induction false} LatestIsLatest(threads: seq<Thread>) returns (i: nat)
    ensures if HasPrompt(threads) then IsLatest(threads, i) && Latest(threads) == (threads[i].id, threads[i].prompt)
            else Latest(threads) == ("", 0)
  {
    i := 0;
    if threads != [] {
      var front, t := threads[..|threads| - 1], threads[|threads| - 1];
      i := LatestIsLatest(front);
      assert forall j :: 0 <= j < |front| ==> front[j] == threads[j];
      if HasPrompt(front) {
        assert threads[i] == front[i];
      }
      if t.id != "" && t.prompt > Latest(front).1 {
        i := |front|;
      }
    }
  }

  lemma {:induction false} ThreadsKeepFocus(st: Store, threads: seq<Thread>)
    ensures var t := AfterThreads(st, threads).0;
            t.focus == st.focus && t.focusSeq == st.focusSeq && t.latestPrompt == st.latestPrompt && t.seqNo == st.seqNo
  {
    if threads != [] {
      ThreadsKeepFocus(st, threads[..|threads| - 1]);
    }
  }

  /**
    A list of threads moves the focus to the first with the latest prompt, if that is later than any seen
    before, and otherwise to the first listed, if there is no focus yet.
   */
  lemma ThreadsFocusLaw(st: Store, threads: seq<Thread>) returns (i: nat)
    ensures HasPrompt(threads) ==> IsLatest(threads, i)
    ensures var after := AfterUpdate(st, threads);
            if HasPrompt(threads) && threads[i].prompt > st.latestPrompt
            then after.focus == threads[i].id && after.focusSeq == st.focusSeq + 1
                 && after.latestPrompt == threads[i].prompt
            else if st.focus == "" && threads != [] && threads[0].id != ""
            then after.focus == threads[0].id && after.focusSeq == st.focusSeq + 1
            else after.focus == st.focus && after.focusSeq == st.focusSeq
  {
    i := LatestIsLatest(threads);
    ThreadsKeepFocus(st, threads);
  }

  // ---- Threads ---------------------------------------------------------------------------

  ghost predicate AreDistinct(threads: seq<Thread>) {
    forall i, j :: 0 <= i < j < |threads| ==> threads[i].id != threads[j].id
  }

  lemma {:induction false} UnlistedStays(st: Store, threads: seq<Thread>, id: Id)
    requires forall j :: 0 <= j < |threads| ==> threads[j].id != id
    ensures Get(AfterThreads(st, threads).0.sessions, id) == Get(st.sessions, id)
    ensures IsStored(AfterThreads(st, threads).0.sessions, id) <==> IsStored(st.sessions, id)
  {
    if threads != [] {
      var front, t := threads[..|threads| - 1], threads[|threads| - 1];
      var before := AfterThreads(st, front).0;
      assert t.id != id && forall j :: 0 <= j < |front| ==> front[j] == threads[j];
      UnlistedStays(st, front, id);
      if t.id != "" {
        PutStores(before.sessions, Refreshed(Get(before.sessions, t.id), t), id);
        PutKeepsOther(before.sessions, Refreshed(Get(before.sessions, t.id), t), id);
      }
    }
  }

  lemma {:induction false} ListedIsRefreshed(st: Store, threads: seq<Thread>, i: nat)
    requires AreDistinct(threads) && i < |threads| && threads[i].id != ""
    ensures Get(AfterThreads(st, threads).0.sessions, threads[i].id)
            == Refreshed(Get(st.sessions, threads[i].id), threads[i])
  {
    var front, t := threads[..|threads| - 1], threads[|threads| - 1];
    var before := AfterThreads(st, front).0;
    assert AreDistinct(front);
    if i == |front| {
      UnlistedStays(st, front, t.id);
      PutGets(before.sessions, Refreshed(Get(before.sessions, t.id), t));
    } else {
      assert t.id != threads[i].id && front[i] == threads[i];
      ListedIsRefreshed(st, front, i);
      if t.id != "" {
        PutKeepsOther(before.sessions, Refreshed(Get(before.sessions, t.id), t), threads[i].id);
      }
    }
  }

  lemma UpdateHolds(st: Store, threads: seq<Thread>, id: Id)
    requires Inv(st) && IsStored(AfterUpdate(st, threads).sessions, id)
    ensures var entered := AfterThreads(st, threads).0;
            && IsStored(entered.sessions, id)
            && Get(AfterUpdate(st, threads).sessions, id) == Get(entered.sessions, id)
  {
    ThreadsKeep(st, threads);
    FocusKeeps(AfterThreads(st, threads).0, threads);
    TrimmedHolds(AfterFocus(AfterThreads(st, threads).0, threads), id);
  }

  /**
    Of threads listed once, each session stored after has the title and project listed (its own title if none
    is) and the later of its times and those listed; a session that is not listed stays as it was.
   */
  lemma ThreadsLaw(st: Store, threads: seq<Thread>, id: Id)
    requires Inv(st) && AreDistinct(threads) && id != "" && IsStored(AfterUpdate(st, threads).sessions, id)
    ensures var s, t := Get(st.sessions, id), Get(AfterUpdate(st, threads).sessions, id);
            && (forall i :: 0 <= i < |threads| && threads[i].id == id ==>
                  t == s.(title := if threads[i].title != "" then threads[i].title else s.title,
                          project := threads[i].project,
                          prompt := if threads[i].prompt > s.prompt then threads[i].prompt else s.prompt,
                          updated := if threads[i].updated > s.updated then threads[i].updated else s.updated))
            && ((forall i :: 0 <= i < |threads| ==> threads[i].id != id) ==> IsStored(st.sessions, id) && t == s)
  {
    UpdateHolds(st, threads, id);
    forall i | 0 <= i < |threads| && threads[i].id == id
      ensures Get(AfterThreads(st, threads).0.sessions, id) == Refreshed(Get(st.sessions, id), threads[i])
    {
      ListedIsRefreshed(st, threads, i);
    }
    if forall i :: 0 <= i < |threads| ==> threads[i].id != id {
      UnlistedStays(st, threads, id);
    }
  }

  // ---- Trimming, and what is reported ----------------------------------------------------

  /** Past 32 sessions, 32 stay, and none that goes was updated later than one that stays. */
  lemma TrimKeepsLatest(st: Store, kept: Session, dropped: Session)
    requires kept in Trimmed(st).sessions && dropped in st.sessions && dropped !in Trimmed(st).sessions
    ensures |Trimmed(st).sessions| == 32 && kept.updated >= dropped.updated
  {
    var all, keep := Sorted(ByUpdate(), st.sessions), Trimmed(st).sessions;
    SortedHolds(ByUpdate(), st.sessions);
    SortedDescends(ByUpdate(), st.sessions);
    assert |st.sessions| > MAX_SESSIONS && keep == all[..MAX_SESSIONS];
    assert dropped in all;
    var i :| 0 <= i < |keep| && keep[i] == kept;
    var n :| 0 <= n < |all| && all[n] == dropped;
    assert n >= MAX_SESSIONS && all[i] == kept;
    assert ByUpdate()(all[i]) >= ByUpdate()(all[n]);
  }

  lemma PutGot(ss: seq<Session>, id: Id)
    requires IsStored(ss, id)
    ensures Put(ss, Get(ss, id)) == ss
  {
  }

  /** A turn takes the focus once: announced again while its session is stored, it changes nothing. */
  lemma AnnouncedOnce(st: Store, id: Id, turn: string, startedAt: nat, now: nat, again: nat, later: nat)
    requires id != "" && turn != ""
    requires IsStored(AfterTurnStarted(st, id, turn, startedAt, now).sessions, id)
    ensures var after := AfterTurnStarted(st, id, turn, startedAt, now);
            AfterTurnStarted(after, id, turn, again, later) == after
  {
    PutGot(AfterTurnStarted(st, id, turn, startedAt, now).sessions, id);
  }

  /** A listed thread has no session yet, or tells something new of it. */
  predicate IsNews(st: Store, t: Thread) {
    t.id != ""
    && (!IsStored(st.sessions, t.id)
        || var s := Get(st.sessions, t.id);
           || (t.title != "" && t.title != s.title) || t.project != s.project
           || t.updated > s.updated || t.prompt > s.prompt)
  }

  lemma LastIsNews(st: Store, front: seq<Thread>, t: Thread)
    requires forall j :: 0 <= j < |front| ==> front[j].id != t.id
    ensures AfterThreads(st, front + [t]).1 <==> AfterThreads(st, front).1 || IsNews(st, t)
  {
    assert (front + [t])[..|front|] == front;
    UnlistedStays(st, front, t.id);
  }

  lemma {:induction false} ChangedIffNews(st: Store, threads: seq<Thread>)
    requires AreDistinct(threads)
    ensures AfterThreads(st, threads).1 <==> exists i :: 0 <= i < |threads| && IsNews(st, threads[i])
  {
    if threads != [] {
      var front, t := threads[..|threads| - 1], threads[|threads| - 1];
      assert threads == front + [t] && forall j :: 0 <= j < |front| ==> front[j] == threads[j];
      assert AreDistinct(front);
      ChangedIffNews(st, front);
      LastIsNews(st, front, t);
    }
  }

  /** A list of threads is reported exactly if one of them is news, or the focus moves. */
  lemma ThreadsReportIff(st: Store, threads: seq<Thread>)
    requires AreDistinct(threads)
    ensures var after := AfterUpdate(st, threads);
            after.seqNo > st.seqNo
            <==> (exists i :: 0 <= i < |threads| && IsNews(st, threads[i])) || after.focusSeq > st.focusSeq
  {
    ChangedIffNews(st, threads);
    ThreadsKeepFocus(st, threads);
  }

  /** The progress of a command is shown as the activity of a tool. */
  lemma ProgressLaw(x: Texts, st: Store, id: Id, text: string, now: nat)
    requires Inv(st) && id != ""
    ensures var s := Get(st.sessions, id);
            Becomes(st, Step(x, st, Progress(id, text, now)), id,
                    if text == "" then s
                    else s.(activity := text, status := Running, unread := false, phase := Tool,
                            updated := if now > s.updated then now else s.updated))
  {
    var s := Get(st.sessions, id);
    StoredBecomes(st, s);
    if text != "" {
      MadeBecomes(st, id, text, true, now, s);
    }
  }

  /** A snapshot shows the sessions by their last prompts, and by their updates those without one. */
  lemma SnapshotIsByPrompt(x: Texts, events: seq<Event>, limit: int, i: nat, j: nat)
    requires i < j < |Selected(Run(x, NewStore(), events), limit)|
    ensures var shown := Selected(Run(x, NewStore(), events), limit);
            (if shown[i].prompt > 0 then shown[i].prompt else shown[i].updated)
            >= (if shown[j].prompt > 0 then shown[j].prompt else shown[j].updated)
  {
    var shown := Selected(Run(x, NewStore(), events), limit);
    SnapshotIsView(x, events, limit);
    assert ByRecency()(shown[i]) >= ByRecency()(shown[j]);
  }
}
