/** The token usage store as one object whose tables each notification updates. */
module UsageStores {
  import opened Common
  import opened UsageLedgers

  class TokenUsageStore {
    var available: bool
    var source: string
    var reason: string
    var updatedAtMs: nat
    var sessions: seq<Session>
    var previous: map<Thread, Previous>

    constructor ()
      ensures Valid() && State() == Empty()
    {
      available, source, reason, updatedAtMs := false, "unavailable", "not_observed", 0;
      sessions, previous := [], map[];
    }

    ghost function State(): Ledger
      reads this
    {
      Ledger(available, source, reason, updatedAtMs, sessions, previous)
    }

    ghost predicate Valid()
      reads this
    {
      Inv(State())
    }

    method SetUnavailable(why: string, now: nat) returns (changed: bool)
      requires Valid()
      modifies this
      ensures Valid() && (State(), changed) == AfterUnavailable(old(State()), why, now)
    {
      var clean := if why != "" then why else "unavailable";
      changed := available || source != "unavailable" || reason != clean || sessions != [];
      available := false;
      source := "unavailable";
      reason := clean;
      updatedAtMs := now;
      sessions := [];
      previous := map[];
    }

    method UpdateNotification(n: Notice, from: string, cumulative: bool) returns (changed: bool)
      requires Valid()
      modifies this
      ensures Valid() && (State(), changed) == AfterNotice(old(State()), n, from, cumulative)
    {
      if n.thread.None? || n.thread.value == "" || n.usage.None? {
        return false;
      }
      var thread := Cut(n.thread.value, MAX_ID);
      var before := if thread in previous then Some(previous[thread]) else None;
      var record := MakeRecord(before, n, cumulative);
      if record.None? {
        return false;
      }
      EnteredKeepsInv(State(), record.value, from);
      Enter(record.value, from);
      changed := true;
    }

    /** The record a usable notification makes after `before`, or none if it is late or a duplicate. */
    method MakeRecord(before: Option<Previous>, n: Notice, cumulative: bool) returns (record: Option<Session>)
      requires IsUsable(n)
      ensures record == if IsStale(before, n, cumulative) || IsDuplicate(before, n) then None
                        else Some(Record(before, n, cumulative))
    {
      var turn := if n.turn.Some? then Cut(n.turn.value, MAX_ID) else "";
      var usage := n.usage.value;
      var eventMs := if n.timestamp != 0 then n.timestamp else n.now;
      var sameCounter := before.Some? && (cumulative || before.value.turn == turn);
      if sameCounter && eventMs < before.value.eventMs {
        return None;
      }
      var delta, windowMs := Zero(), 0;
      if sameCounter && usage.total.NonDecreasingFrom(before.value.total) {
        delta := usage.total.Subtract(before.value.total);
        windowMs := Minus(eventMs, before.value.eventMs);
      }
      if before.Some? && before.value.turn == turn && usage.total == before.value.total {
        return None;
      }
      var window := if usage.contextWindow == 0 then None else Some(usage.contextWindow);
      record := Some(Session(Cut(n.thread.value, MAX_ID), turn, usage.total, usage.last, window, delta, windowMs,
                             eventMs));
    }

    method Enter(record: Session, from: string)
      modifies this
      ensures State() == Entered(old(State()), record, from)
    {
      sessions := Put(sessions, record);
      previous := previous[record.id := Previous(record.turn, record.total, record.updatedAt)];
      available := true;
      source := if from != "" then Cut(from, MAX_SOURCE) else "unknown";
      reason := "";
      updatedAtMs := if updatedAtMs > record.updatedAt then updatedAtMs else record.updatedAt;
      Trim();
    }

    method Trim()
      modifies this`sessions, this`previous
      ensures sessions == Trimmed(old(sessions))
      ensures previous == if |old(sessions)| <= MAX_SESSIONS then old(previous)
                          else Kept(old(previous), Ids(Trimmed(old(sessions))))
    {
      if |sessions| <= MAX_SESSIONS {
        return;
      }
      sessions := Trimmed(sessions);
      previous := Kept(previous, Ids(sessions));
    }
  }
}
