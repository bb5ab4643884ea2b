/** The store of agent sessions as one object that every event changes in place. */
module AgentStores {
  import opened Common
  import opened AgentSessions

  class AgentStore {
    const texts: Texts
    var sessions: seq<Session>
    var focusId: Id
    var focusSeq: nat
    var seqNo: nat
    var lastAppTurnIds: map<Id, string>
    var latestPromptMs: nat

    constructor (texts: Texts)
      ensures Valid() && this.texts == texts && State() == NewStore()
    {
      this.texts := texts;
      sessions, focusId, focusSeq, seqNo, lastAppTurnIds, latestPromptMs := [], "", 0, 0, map[], 0;
    }

    ghost function State(): Store
      reads this
    {
      Store(sessions, focusId, focusSeq, seqNo, lastAppTurnIds, latestPromptMs)
    }

    ghost predicate Valid()
      reads this
    {
      Inv(State())
    }

    method Trim()
      modifies this`sessions, this`lastAppTurnIds
      ensures State() == Trimmed(old(State()))
    {
      if |sessions| <= MAX_SESSIONS {
        return;
      }
      var keep := Take(Sorted(ByUpdate(), sessions), MAX_SESSIONS);
      sessions := keep;
      lastAppTurnIds := map id | id in lastAppTurnIds && IsStored(keep, id) :: lastAppTurnIds[id];
    }

    method TrimAndChange()
      modifies this`sessions, this`lastAppTurnIds, this`seqNo
      ensures State() == Changed(Trimmed(old(State())))
    {
      Trim();
      seqNo := seqNo + 1;
    }

    /** Writes a session back, made or changed. */
    method Write(s: Session)
      modifies this`sessions
      ensures State() == Stored(old(State()), s)
    {
      var i := Find(sessions, s.id);
      if i < |sessions| {
        sessions := sessions[i := s];
      } else {
        sessions := sessions + [s];
      }
    }

    method ApplyPublicActivity(id: Id, text: string, isTool: bool, time: nat) returns (changed: bool)
      requires Valid()
      modifies this
      ensures Valid() && State() == AfterActivity(old(State()), id, text, isTool, time)
      ensures changed <==> seqNo == old(seqNo) + 1
    {
      ActivityKeeps(State(), id, text, isTool, time);
      if id == "" || text == "" {
        return false;
      }
      var s := Get(sessions, id);
      var phase := if isTool then Tool else Thinking;
      changed := s.activity != text || s.status != Running || s.phase != phase || s.unread;
      Write(s.(activity := text, status := Running, phase := phase, unread := false, updated := Max(s.updated, time)));
      Trim();
      if changed {
        seqNo := seqNo + 1;
      }
    }

    method ApplyNameUpdated(id: Id, title: string)
      requires Valid()
      modifies this
      ensures Valid() && State() == Step(texts, old(State()), NameUpdated(id, title))
    {
      NameKeeps(texts, State(), id, title);
      if id == "" || title == "" {
        return;
      }
      var s := Get(sessions, id);
      if s.title != title {
        Write(s.(title := title));
        seqNo := seqNo + 1;
      } else {
        Write(s);
      }
    }

    method Prompt(s: Session, text: string, time: nat)
      modifies this
      ensures State() == Prompted(old(State()), s, text, time)
    {
      Write(s.(status := Running, phase := Thinking, activity := text, unread := false, updated := time,
               prompt := Max(s.prompt, time)));
      latestPromptMs := Max(latestPromptMs, time);
      focusId := s.id;
      focusSeq := focusSeq + 1;
      TrimAndChange();
    }

    method ApplyTurnStarted(id: Id, turn: string, startedAt: nat, now: nat)
      requires Valid()
      modifies this
      ensures Valid() && State() == AfterTurnStarted(old(State()), id, turn, startedAt, now)
    {
      TurnStartedKeeps(State(), id, turn, startedAt, now);
      if id == "" {
        return;
      }
      var s := Get(sessions, id);
      Write(s);
      if turn != "" {
        if id in lastAppTurnIds && lastAppTurnIds[id] == turn {
          return;
        }
        lastAppTurnIds := lastAppTurnIds[id := turn];
      } else if s.status == Running {
        return;
      }
      Prompt(s, "Understanding the task", if startedAt != 0 then startedAt else now);
    }

    method ApplyTurnCompleted(id: Id, failed: bool, now: nat)
      requires Valid()
      modifies this
      ensures Valid() && State() == Step(texts, old(State()), TurnCompleted(id, failed, now))
    {
      CompletedKeeps(texts, State(), id, failed, now);
      if id == "" {
        return;
      }
      var s := Get(sessions, id);
      var previousPhase := s.phase;
      s := s.(phase := NoPhase, updated := now, unread := true);
      if failed {
        s := s.(status := Blocked, activity := "Task encountered a problem");
      } else {
        s := s.(status := Ready);
        if previousPhase == Tool || !texts.isPublic(s.activity) {
          s := s.(activity := "Task completed");
        }
      }
      Write(s);
      TrimAndChange();
    }

    method ApplyItem(id: Id, item: Item, started: bool, now: nat)
      requires Valid() && id != ""
      modifies this
      ensures Valid() && State() == AfterItem(old(State()), id, item, started, now)
    {
      MadeKeeps(State(), id);
      Write(Get(sessions, id));
      match item {
        case Reasoning =>
        case UserMessage(turn) =>
          if started {
            ApplyTurnStarted(id, turn, 0, now);
          }
        case AgentMessage(text) => var _ := ApplyPublicActivity(id, text, false, now);
        case Plan(text) =>
          if started {
            var _ := ApplyPublicActivity(id, text, false, now);
          }
        case OtherItem(text) =>
          if started {
            var _ := ApplyPublicActivity(id, text, true, now);
          } else {
            var _ := ApplyPublicActivity(id, "Reviewing the result", false, now);
          }
      }
    }

    method EnterThread(t: Thread) returns (changed: bool)
      requires t.id != ""
      modifies this`sessions
      ensures var s := Get(old(sessions), t.id);
              State() == Stored(old(State()), Refreshed(s, t))
              && changed == (!IsStored(old(sessions), t.id) || Refreshed(s, t) != s)
    {
      var s := Get(sessions, t.id);
      changed := !IsStored(sessions, t.id);
      var r := s;
      if t.prompt > r.prompt {
        r := r.(prompt := t.prompt);
        changed := true;
      }
      if t.title != "" && t.title != r.title {
        r := r.(title := t.title);
        changed := true;
      }
      if t.project != r.project {
        r := r.(project := t.project);
        changed := true;
      }
      if t.updated > r.updated {
        r := r.(updated := t.updated);
        changed := true;
      }
      Write(r);
    }

    method EnterThreads(threads: seq<Thread>) returns (changed: bool, latestId: Id, latestMs: nat)
      modifies this`sessions
      ensures (State(), changed) == AfterThreads(old(State()), threads)
      ensures (latestId, latestMs) == Latest(threads)
    {
      changed, latestId, latestMs := false, "", 0;
      assert threads[..0] == [];
      for i := 0 to |threads|
        invariant (State(), changed) == AfterThreads(old(State()), threads[..i])
        invariant (latestId, latestMs) == Latest(threads[..i])
      {
        assert threads[..i + 1][..i] == threads[..i];
        var t := threads[i];
        if t.id == "" {
          continue;
        }
        var entered := EnterThread(t);
        changed := changed || entered;
        if t.prompt > latestMs {
          latestId, latestMs := t.id, t.prompt;
        }
      }
      assert threads[..|threads|] == threads;
    }

    /** A later prompt takes the focus; without any focus, the first thread does. */
    method FocusLatest(threads: seq<Thread>, latestId: Id, latestMs: nat) returns (moved: bool)
      requires (latestId, latestMs) == Latest(threads)
      modifies this`focusId, this`focusSeq, this`latestPromptMs
      ensures State() == AfterFocus(old(State()), threads)
      ensures moved <==> focusSeq != old(focusSeq)
    {
      moved := false;
      if latestId != "" && latestMs > latestPromptMs {
        latestPromptMs := latestMs;
        focusId := latestId;
        focusSeq := focusSeq + 1;
        moved := true;
      } else if focusId == "" && threads != [] {
        if threads[0].id != "" {
          focusId := threads[0].id;
          focusSeq := focusSeq + 1;
          moved := true;
        }
      }
    }

    method UpdateThreads(threads: seq<Thread>)
      requires Valid()
      modifies this
      ensures Valid() && State() == AfterUpdate(old(State()), threads)
    {
      UpdateKeeps(State(), threads);
      var changed, latestId, latestMs := EnterThreads(threads);
      var moved := FocusLatest(threads, latestId, latestMs);
      Trim();
      if changed || moved {
        seqNo := seqNo + 1;
      }
    }

    method ApplyHookEvent(id: Id, hook: Hook, project: Option<string>, time: nat)
      requires Valid()
      modifies this
      ensures Valid() && State() == AfterHook(old(State()), id, hook, project, time)
    {
      HookKeeps(State(), id, hook, project, time);
      if id == "" {
        return;
      }
      var s := Get(sessions, id);
      s := s.(project := if project.Some? then project.value else s.project, updated := time);
      if hook == UserPromptSubmit {
        Prompt(s, "Understanding the task...", time);
        return;
      }
      Write(Hooked(s, hook));
      if hook == OtherHook {
        return;
      }
      if hook == SessionStart && focusId == "" {
        focusId := id;
      }
      TrimAndChange();
    }

    method Acknowledge(id: Id) returns (changed: bool)
      requires Valid()
      modifies this
      ensures Valid() && State() == AfterAcknowledge(old(State()), id)
      ensures changed <==> seqNo == old(seqNo) + 1
    {
      AcknowledgeKeeps(State(), id);
      if !IsStored(sessions, id) {
        return false;
      }
      var s := Get(sessions, id);
      var done := s.status == Ready || s.status == Blocked;
      changed := s.unread || done;
      s := s.(unread := false);
      if done {
        s := s.(status := Idle, phase := NoPhase, activity := READY_TEXT);
      }
      Write(s);
      if changed {
        seqNo := seqNo + 1;
      }
    }

    method Snapshot(limit: int) returns (selected: seq<Session>)
      requires Valid()
      ensures selected == Selected(State(), limit) && IsView(State(), selected, Limit(limit))
    {
      ViewOf(State(), limit);
      SortedHolds(ByRecency(), sessions);
      selected := Take(Sorted(ByRecency(), sessions), Limit(limit));
      if IsStored(sessions, focusId) {
        var focused := Get(sessions, focusId);
        if focused !in selected {
          selected := selected[|selected| - 1 := focused];
          selected := Sorted(ByRecency(), selected);
        }
      }
    }
  }
}
