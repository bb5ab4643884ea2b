/**
  The token ledger (bridge/agent/cardbridge/usage.py): cumulative counters of each thread become
  deltas since a baseline.
 */
module UsageLedgers {
  import opened Common

  datatype Breakdown = Breakdown(total: nat, input: nat, cachedInput: nat, output: nat, reasoningOutput: nat) {
    predicate NonDecreasingFrom(previous: Breakdown) {
      && total >= previous.total
      && input >= previous.input
      && cachedInput >= previous.cachedInput
      && output >= previous.output
      && reasoningOutput >= previous.reasoningOutput
    }

    function Subtract(previous: Breakdown): Breakdown {
      Breakdown(Minus(total, previous.total), Minus(input, previous.input),
                Minus(cachedInput, previous.cachedInput), Minus(output, previous.output),
                Minus(reasoningOutput, previous.reasoningOutput))
    }

    function Plus(other: Breakdown): Breakdown {
      Breakdown(total + other.total, input + other.input, cachedInput + other.cachedInput,
                output + other.output, reasoningOutput + other.reasoningOutput)
    }
  }

  function Minus(a: nat, b: nat): nat {
    if a > b then a - b else 0
  }

  function Zero(): Breakdown {
    Breakdown(0, 0, 0, 0, 0)
  }

  const MAX_SESSIONS := 8
  const MAX_ID := 128
  const MAX_SOURCE := 64

  type Thread = string

  /** What is stored, and reported, of one thread; the rate is `delta.total` over `windowMs`. */
  datatype Session = Session(
    id: Thread, turn: string, total: Breakdown, last: Breakdown, contextWindow: Option<nat>,
    delta: Breakdown, windowMs: nat, updatedAt: nat)

  datatype Previous = Previous(turn: string, total: Breakdown, eventMs: nat)

  /** The store: `sessions` in the order of the dictionary. */
  datatype Ledger = Ledger(
    available: bool, source: string, reason: string, updatedAt: nat,
    sessions: seq<Session>, previous: map<Thread, Previous>)

  function Empty(): Ledger {
    Ledger(false, "unavailable", "not_observed", 0, [], map[])
  }

  datatype Usage = Usage(total: Breakdown, last: Breakdown, contextWindow: nat)

  /** A notification with the time it arrives at; what is missing or of the wrong type is `None`, a missing time 0. */
  datatype Notice = Notice(thread: Option<Thread>, turn: Option<string>, usage: Option<Usage>, timestamp: nat, now: nat)

  function Cut(s: string, n: nat): string {
    if |s| <= n then s else s[..n]
  }

  predicate IsUsable(n: Notice) {
    n.thread.Some? && n.thread.value != "" && n.usage.Some?
  }

  function ThreadOf(n: Notice): Thread
    requires IsUsable(n)
  {
    Cut(n.thread.value, MAX_ID)
  }

  function TurnOf(n: Notice): string {
    if n.turn.Some? then Cut(n.turn.value, MAX_ID) else ""
  }

  function TimeOf(n: Notice): nat {
    if n.timestamp != 0 then n.timestamp else n.now
  }

  // ---- One notification ------------------------------------------------------------------

  function PreviousOf(l: Ledger, id: Thread): Option<Previous> {
    if id in l.previous then Some(l.previous[id]) else None
  }

  predicate SameCounter(p: Option<Previous>, n: Notice, cumulative: bool) {
    p.Some? && (cumulative || p.value.turn == TurnOf(n))
  }

  predicate IsStale(p: Option<Previous>, n: Notice, cumulative: bool) {
    SameCounter(p, n, cumulative) && TimeOf(n) < p.value.eventMs
  }

  predicate IsDuplicate(p: Option<Previous>, n: Notice)
    requires IsUsable(n)
  {
    p.Some? && p.value.turn == TurnOf(n) && p.value.total == n.usage.value.total
  }

  /** Whether the notification goes on from the one before it; otherwise it sets a new baseline. */
  predicate GoesOn(p: Option<Previous>, n: Notice, cumulative: bool)
    requires IsUsable(n)
  {
    SameCounter(p, n, cumulative) && n.usage.value.total.NonDecreasingFrom(p.value.total)
  }

  function Record(p: Option<Previous>, n: Notice, cumulative: bool): Session
    requires IsUsable(n)
  {
    var u := n.usage.value;
    Session(ThreadOf(n), TurnOf(n), u.total, u.last, if u.contextWindow == 0 then None else Some(u.contextWindow),
            if GoesOn(p, n, cumulative) then u.total.Subtract(p.value.total) else Zero(),
            if GoesOn(p, n, cumulative) then Minus(TimeOf(n), p.value.eventMs) else 0,
            TimeOf(n))
  }

  /** The place of a thread's session, or the end. */
  function Find(sessions: seq<Session>, id: Thread): (i: nat)
    ensures i <= |sessions|
    ensures i < |sessions| ==> sessions[i].id == id
    ensures forall j :: 0 <= j < i ==> sessions[j].id != id
  {
    if sessions == [] || sessions[0].id == id then 0 else 1 + Find(sessions[1..], id)
  }

  /** Assignment to a dictionary: in place, or at the end. */
  function Put(sessions: seq<Session>, s: Session): seq<Session> {
    var i := Find(sessions, s.id);
    if i < |sessions| then sessions[i := s] else sessions + [s]
  }

  /** The session that a stable sort by recency puts last: the last of the least recent. */
  function Least(sessions: seq<Session>): (i: nat)
    requires sessions != []
    ensures i < |sessions|
    ensures forall j :: 0 <= j < |sessions| ==> sessions[i].updatedAt <= sessions[j].updatedAt
    ensures forall j :: i < j < |sessions| ==> sessions[i].updatedAt < sessions[j].updatedAt
  {
    if |sessions| == 1 then 0
    else
      var i := 1 + Least(sessions[1..]);
      if sessions[0].updatedAt < sessions[i].updatedAt then 0 else i
  }

  function WithoutLeast(sessions: seq<Session>): seq<Session>
    requires sessions != []
  {
    sessions[..Least(sessions)] + sessions[Least(sessions) + 1..]
  }

  /** The eight that a stable sort by recency puts first, in their own order. */
  function Trimmed(sessions: seq<Session>): (r: seq<Session>)
    ensures |r| <= MAX_SESSIONS
    decreases |sessions|
  {
    if |sessions| <= MAX_SESSIONS then sessions else Trimmed(WithoutLeast(sessions))
  }

  ghost predicate IsId(sessions: seq<Session>, id: Thread) {
    exists i :: 0 <= i < |sessions| && sessions[i].id == id
  }

  function Ids(sessions: seq<Session>): (ids: set<Thread>)
    ensures forall id :: id in ids <==> IsId(sessions, id)
  {
    set i | 0 <= i < |sessions| :: sessions[i].id
  }

  function Kept(previous: map<Thread, Previous>, ids: set<Thread>): map<Thread, Previous> {
    map id | id in previous && id in ids :: previous[id]
  }

  function Entered(l: Ledger, s: Session, source: string): Ledger {
    var sessions := Put(l.sessions, s);
    var previous := l.previous[s.id := Previous(s.turn, s.total, s.updatedAt)];
    var kept := Trimmed(sessions);
    Ledger(true, if source == "" then "unknown" else Cut(source, MAX_SOURCE), "",
           if l.updatedAt > s.updatedAt then l.updatedAt else s.updatedAt,
           kept, if |sessions| <= MAX_SESSIONS then previous else Kept(previous, Ids(kept)))
  }

  /** What a notification adds to the store, if it is neither unusable, stale nor a duplicate. */
  function Emitted(l: Ledger, n: Notice, cumulative: bool): Option<Session> {
    if !IsUsable(n) then None
    else
      var p := PreviousOf(l, ThreadOf(n));
      if IsStale(p, n, cumulative) || IsDuplicate(p, n) then None else Some(Record(p, n, cumulative))
  }

  function AfterNotice(l: Ledger, n: Notice, source: string, cumulative: bool): (Ledger, bool) {
    match Emitted(l, n, cumulative)
    case None => (l, false)
    case Some(s) => (Entered(l, s, source), true)
  }

  function AfterUnavailable(l: Ledger, reason: string, now: nat): (Ledger, bool) {
    var clean := if reason == "" then "unavailable" else reason;
    (Ledger(false, "unavailable", clean, now, [], map[]),
     l.available || l.source != "unavailable" || l.reason != clean || l.sessions != [])
  }

  // ---- The invariant ---------------------------------------------------------------------

  ghost predicate Distinct(sessions: seq<Session>) {
    forall i, j :: 0 <= i < j < |sessions| ==> sessions[i].id != sessions[j].id
  }

  ghost predicate Agrees(sessions: seq<Session>, previous: map<Thread, Previous>) {
    && Distinct(sessions)
    && (forall id :: id in previous <==> IsId(sessions, id))
    && (forall i :: 0 <= i < |sessions| ==>
          var s := sessions[i];
          s.id in previous && previous[s.id] == Previous(s.turn, s.total, s.updatedAt))
  }

  /** Both tables hold the same threads, at most eight, with equal turns, totals and times. */
  ghost predicate Inv(l: Ledger) {
    |l.sessions| <= MAX_SESSIONS && Agrees(l.sessions, l.previous)
  }

  lemma IsIdAt(sessions: seq<Session>, i: nat)
    requires i < |sessions|
    ensures IsId(sessions, sessions[i].id)
  {
  }

  lemma PutIds(sessions: seq<Session>, s: Session, id: Thread)
    ensures IsId(Put(sessions, s), id) <==> id == s.id || IsId(sessions, id)
  {
    var i, r := Find(sessions, s.id), Put(sessions, s);
    IsIdAt(r, i);
    if k :| 0 <= k < |sessions| && sessions[k].id == id {
      IsIdAt(r, k);
    }
    if k :| 0 <= k < |r| && r[k].id == id {
      if k != i {
        IsIdAt(sessions, k);
      }
    }
  }

  lemma PutIsDistinct(sessions: seq<Session>, s: Session)
    requires Distinct(sessions)
    ensures Distinct(Put(sessions, s))
  {
  }

  lemma PutAgrees(sessions: seq<Session>, previous: map<Thread, Previous>, s: Session)
    requires Agrees(sessions, previous)
    ensures Agrees(Put(sessions, s), previous[s.id := Previous(s.turn, s.total, s.updatedAt)])
    ensures IsId(Put(sessions, s), s.id) && |Put(sessions, s)| <= |sessions| + 1
  {
    PutIsDistinct(sessions, s);
    PutIds(sessions, s, s.id);
    forall id: Thread ensures IsId(Put(sessions, s), id) <==> id == s.id || IsId(sessions, id) {
      PutIds(sessions, s, id);
    }
  }

  /** `r` is `sessions` without the one at `i`. */
  ghost predicate Removes(sessions: seq<Session>, i: nat, r: seq<Session>) {
    && i < |sessions| == |r| + 1
    && forall k :: 0 <= k < |r| ==> r[k] == sessions[if k < i then k else k + 1]
  }

  lemma RemovedIsDistinct(sessions: seq<Session>, i: nat, r: seq<Session>)
    requires Distinct(sessions) && Removes(sessions, i, r)
    ensures Distinct(r)
  {
  }

  lemma RemovedAgrees(sessions: seq<Session>, previous: map<Thread, Previous>, i: nat, r: seq<Session>)
    requires Agrees(sessions, previous) && Removes(sessions, i, r)
    ensures Agrees(r, Kept(previous, Ids(r)))
  {
    RemovedIsDistinct(sessions, i, r);
    var kept := Kept(previous, Ids(r));
    forall k | 0 <= k < |r|
      ensures r[k].id in kept && kept[r[k].id] == Previous(r[k].turn, r[k].total, r[k].updatedAt)
    {
      var s := sessions[if k < i then k else k + 1];
      assert r[k] == s && s.id in previous;
      assert IsId(r, r[k].id);
    }
    forall id: Thread ensures id in kept <==> IsId(r, id) {
    }
  }

  lemma WithoutLeastAgrees(sessions: seq<Session>, previous: map<Thread, Previous>)
    requires Agrees(sessions, previous) && sessions != []
    ensures Agrees(WithoutLeast(sessions), Kept(previous, Ids(WithoutLeast(sessions))))
  {
    RemovedAgrees(sessions, previous, Least(sessions), WithoutLeast(sessions));
  }

  lemma KeptTwice(previous: map<Thread, Previous>, some: set<Thread>, fewer: set<Thread>)
    requires fewer <= some
    ensures Kept(Kept(previous, some), fewer) == Kept(previous, fewer)
  {
  }

  lemma {:induction false} TrimmedAreSome(sessions: seq<Session>)
    ensures forall s :: s in Trimmed(sessions) ==> s in sessions
    decreases |sessions|
  {
    if |sessions| > MAX_SESSIONS {
      TrimmedAreSome(WithoutLeast(sessions));
    }
  }

  lemma TrimmedIds(sessions: seq<Session>)
    ensures Ids(Trimmed(sessions)) <= Ids(sessions)
  {
    TrimmedAreSome(sessions);
    forall id | id in Ids(Trimmed(sessions)) ensures id in Ids(sessions) {
      var i :| 0 <= i < |Trimmed(sessions)| && Trimmed(sessions)[i].id == id;
      assert Trimmed(sessions)[i] in sessions;
      var k :| 0 <= k < |sessions| && sessions[k] == Trimmed(sessions)[i];
    }
  }

  lemma KeepingAll(sessions: seq<Session>, previous: map<Thread, Previous>)
    requires Agrees(sessions, previous)
    ensures Kept(previous, Ids(sessions)) == previous
  {
  }

  lemma {:induction false} TrimmedAgrees(sessions: seq<Session>, previous: map<Thread, Previous>)
    requires Agrees(sessions, previous)
    ensures Agrees(Trimmed(sessions), Kept(previous, Ids(Trimmed(sessions))))
    decreases |sessions|
  {
    KeepingAll(sessions, previous);
    if |sessions| > MAX_SESSIONS {
      var r := WithoutLeast(sessions);
      WithoutLeastAgrees(sessions, previous);
      TrimmedAgrees(r, Kept(previous, Ids(r)));
      TrimmedIds(r);
      KeptTwice(previous, Ids(r), Ids(Trimmed(r)));
    }
  }

  lemma EnteredKeepsInv(l: Ledger, s: Session, source: string)
    requires Inv(l)
    ensures Inv(Entered(l, s, source))
  {
    PutAgrees(l.sessions, l.previous, s);
    TrimmedAgrees(Put(l.sessions, s), l.previous[s.id := Previous(s.turn, s.total, s.updatedAt)]);
  }

  // ---- Runs ------------------------------------------------------------------------------

  datatype Event = Notified(notice: Notice, source: string, cumulative: bool) | Unavailable(reason: string, now: nat)

  /** What the store took in: a session that sets a baseline, or one with a delta since the last. */
  datatype Entry = Baseline(session: Session) | Delta(session: Session)

  datatype Log = Log(ledger: Ledger, entries: seq<Entry>)

  function Entries(l: Ledger, e: Event): seq<Entry> {
    match e
    case Unavailable(_, _) => []
    case Notified(n, _, cumulative) =>
      match Emitted(l, n, cumulative)
      case None => []
      case Some(s) => [if GoesOn(PreviousOf(l, ThreadOf(n)), n, cumulative) then Delta(s) else Baseline(s)]
  }

  function Apply(l: Ledger, e: Event): Ledger {
    match e
    case Notified(n, source, cumulative) => AfterNotice(l, n, source, cumulative).0
    case Unavailable(reason, now) => AfterUnavailable(l, reason, now).0
  }

  function Run(events: seq<Event>): Log {
    if events == [] then Log(Empty(), [])
    else
      var before := Run(events[..|events| - 1]);
      var e := events[|events| - 1];
      Log(Apply(before.ledger, e), before.entries + Entries(before.ledger, e))
  }

  /** The last baseline of a thread. */
  function Base(entries: seq<Entry>, id: Thread): Option<Session> {
    if entries == [] then None
    else
      var e := entries[|entries| - 1];
      if e.Baseline? && e.session.id == id then Some(e.session) else Base(entries[..|entries| - 1], id)
  }

  /** The sum of the deltas of a thread since its last baseline. */
  function Deltas(entries: seq<Entry>, id: Thread): Breakdown {
    if entries == [] then Zero()
    else
      var e, front := entries[|entries| - 1], entries[..|entries| - 1];
      if e.session.id != id then Deltas(front, id)
      else if e.Baseline? then Zero()
      else Deltas(front, id).Plus(e.session.delta)
  }

  /** The sum of the windows of a thread since its last baseline. */
  function Windows(entries: seq<Entry>, id: Thread): nat {
    if entries == [] then 0
    else
      var e, front := entries[|entries| - 1], entries[..|entries| - 1];
      if e.session.id != id then Windows(front, id)
      else if e.Baseline? then 0
      else Windows(front, id) + e.session.windowMs
  }

  ghost predicate Telescopes(entries: seq<Entry>, id: Thread, p: Previous) {
    match Base(entries, id)
    case None => false
    case Some(base) =>
      p.total == base.total.Plus(Deltas(entries, id)) && p.eventMs == base.updatedAt + Windows(entries, id)
  }

  ghost predicate AllTelescope(log: Log) {
    forall id :: id in log.ledger.previous ==> Telescopes(log.entries, id, log.ledger.previous[id])
  }

  lemma SubtractPlus(a: Breakdown, b: Breakdown, c: Breakdown)
    requires a.NonDecreasingFrom(b.Plus(c))
    ensures a == b.Plus(c.Plus(a.Subtract(b.Plus(c))))
  {
  }

  lemma AppendOther(entries: seq<Entry>, e: Entry, id: Thread, p: Previous)
    requires e.session.id != id && Telescopes(entries, id, p)
    ensures Telescopes(entries + [e], id, p)
  {
    assert (entries + [e])[..|entries|] == entries;
  }

  lemma AppendBaseline(entries: seq<Entry>, s: Session)
    ensures Telescopes(entries + [Baseline(s)], s.id, Previous(s.turn, s.total, s.updatedAt))
  {
    assert (entries + [Baseline(s)])[..|entries|] == entries;
  }

  lemma AppendDelta(entries: seq<Entry>, s: Session, p: Previous)
    requires Telescopes(entries, s.id, p)
    requires s.total.NonDecreasingFrom(p.total) && s.delta == s.total.Subtract(p.total)
    requires s.updatedAt == p.eventMs + s.windowMs
    ensures Telescopes(entries + [Delta(s)], s.id, Previous(s.turn, s.total, s.updatedAt))
  {
    assert (entries + [Delta(s)])[..|entries|] == entries;
    SubtractPlus(s.total, Base(entries, s.id).value.total, Deltas(entries, s.id));
  }

  /** Only the thread that was entered changes its counter; others keep theirs or are dropped. */
  lemma EnteredChangesOne(l: Ledger, s: Session, source: string, id: Thread)
    requires id in Entered(l, s, source).previous
    ensures Entered(l, s, source).previous[id]
            == if id == s.id then Previous(s.turn, s.total, s.updatedAt) else l.previous[id]
    ensures id == s.id || id in l.previous
  {
  }

  lemma NewEntryTelescopes(log: Log, n: Notice, cumulative: bool)
    requires AllTelescope(log) && Emitted(log.ledger, n, cumulative).Some?
    ensures var s := Emitted(log.ledger, n, cumulative).value;
            var e := if GoesOn(PreviousOf(log.ledger, ThreadOf(n)), n, cumulative) then Delta(s) else Baseline(s);
            Telescopes(log.entries + [e], s.id, Previous(s.turn, s.total, s.updatedAt))
  {
    var s := Emitted(log.ledger, n, cumulative).value;
    var p := PreviousOf(log.ledger, ThreadOf(n));
    if GoesOn(p, n, cumulative) {
      AppendDelta(log.entries, s, p.value);
    } else {
      AppendBaseline(log.entries, s);
    }
  }

  lemma NoticeTelescopes(log: Log, n: Notice, source: string, cumulative: bool)
    requires AllTelescope(log) && Emitted(log.ledger, n, cumulative).Some?
    ensures var e := Notified(n, source, cumulative);
            AllTelescope(Log(Apply(log.ledger, e), log.entries + Entries(log.ledger, e)))
  {
    var s := Emitted(log.ledger, n, cumulative).value;
    var next := Entered(log.ledger, s, source);
    var e := Entries(log.ledger, Notified(n, source, cumulative))[0];
    forall id | id in next.previous ensures Telescopes(log.entries + [e], id, next.previous[id]) {
      EnteredChangesOne(log.ledger, s, source, id);
      if id == s.id {
        NewEntryTelescopes(log, n, cumulative);
      } else {
        AppendOther(log.entries, e, id, log.ledger.previous[id]);
      }
    }
  }

  /**
    While a thread stays in the store, the deltas handed out since its last baseline sum, in all
    five fields, to its current total less the total at the baseline, and the windows to the time
    between the two. The tables agree and hold at most eight threads throughout.
   */
  lemma {:induction false} LedgerTelescopes(events: seq<Event>)
    ensures Inv(Run(events).ledger) && AllTelescope(Run(events))
    ensures |Run(events).ledger.sessions| <= 8
  {
    if events != [] {
      LedgerTelescopes(events[..|events| - 1]);
      var before, e := Run(events[..|events| - 1]), events[|events| - 1];
      if e.Notified? {
        match Emitted(before.ledger, e.notice, e.cumulative)
        case None => assert before.entries + [] == before.entries;
        case Some(s) =>
          EnteredKeepsInv(before.ledger, s, e.source);
          NoticeTelescopes(before, e.notice, e.source, e.cumulative);
      }
    }
  }

  // ---- What a notification adds, field by field ------------------------------------------

  /** No field is less than before. */
  predicate NoneFell(was: Breakdown, now: Breakdown) {
    && now.total >= was.total && now.input >= was.input && now.cachedInput >= was.cachedInput
    && now.output >= was.output && now.reasoningOutput >= was.reasoningOutput
  }

  /** Cumulative counters go on through a thread, others through a turn. */
  predicate IsSameCount(p: Previous, turn: string, cumulative: bool) {
    cumulative || p.turn == turn
  }

  /**
    A session enters the store exactly for a notification that names a thread and carries counters, unless it
    is older than the one before it in the same count, or repeats its turn and total.
   */
  lemma EntersIff(l: Ledger, n: Notice, cumulative: bool)
    ensures Emitted(l, n, cumulative).Some?
            <==> && n.thread.Some? && n.thread.value != "" && n.usage.Some?
                 && var id := if |n.thread.value| > 128 then n.thread.value[..128] else n.thread.value;
                    id in l.previous ==>
                      && !(IsSameCount(l.previous[id], TurnOf(n), cumulative) && TimeOf(n) < l.previous[id].eventMs)
                      && !(l.previous[id].turn == TurnOf(n) && l.previous[id].total == n.usage.value.total)
  {
  }

  /**
    Its delta, added to the total before, is its total in every field, if the count goes on and none of its
    fields fell; otherwise it starts again from a delta of nothing.
   */
  lemma DeltaLaw(l: Ledger, n: Notice, source: string, cumulative: bool)
    requires Emitted(l, n, cumulative).Some?
    ensures var s, id := Emitted(l, n, cumulative).value, ThreadOf(n);
            && s.id == id && s.total == n.usage.value.total && s.last == n.usage.value.last && s.turn == TurnOf(n)
            && s.updatedAt == (if n.timestamp != 0 then n.timestamp else n.now)
            && s.contextWindow == (if n.usage.value.contextWindow == 0 then None else Some(n.usage.value.contextWindow))
            && if id in l.previous && IsSameCount(l.previous[id], TurnOf(n), cumulative)
                  && NoneFell(l.previous[id].total, s.total)
               then && l.previous[id].total.Plus(s.delta) == s.total
                    && l.previous[id].eventMs + s.windowMs == s.updatedAt
                    && Entries(l, Notified(n, source, cumulative)) == [Delta(s)]
               else && s.delta == Breakdown(0, 0, 0, 0, 0) && s.windowMs == 0
                    && Entries(l, Notified(n, source, cumulative)) == [Baseline(s)]
  {
    var s := Emitted(l, n, cumulative).value;
    if GoesOn(PreviousOf(l, ThreadOf(n)), n, cumulative) {
      SubtractPlus(s.total, l.previous[ThreadOf(n)].total, Zero());
    }
  }

  /** A store that changes is available, says where from, and is dated by the latest session it took in. */
  lemma StatusLaw(l: Ledger, n: Notice, source: string, cumulative: bool)
    ensures var (after, changed) := AfterNotice(l, n, source, cumulative);
            changed ==>
              && after.available && after.reason == ""
              && (if source == "" then after.source == "unknown"
                  else after.source <= source && |after.source| == if |source| < 64 then |source| else 64)
              && after.updatedAt >= l.updatedAt && after.updatedAt >= TimeOf(n)
              && (after.updatedAt == l.updatedAt || after.updatedAt == TimeOf(n))
  {
  }

  /** A notification changes the store exactly if it is usable, not late, and not a repetition. */
  lemma ChangesIffNews(l: Ledger, n: Notice, source: string, cumulative: bool)
    ensures var (after, changed) := AfterNotice(l, n, source, cumulative);
            && (changed <==> IsUsable(n) && !IsStale(PreviousOf(l, ThreadOf(n)), n, cumulative)
                             && !IsDuplicate(PreviousOf(l, ThreadOf(n)), n))
            && (!changed ==> after == l)
  {
  }

  /** The same notification again is a duplicate and changes nothing, unless its thread was not kept. */
  lemma RepetitionChangesNothing(l: Ledger, n: Notice, source: string, cumulative: bool)
    requires Inv(l)
    ensures var (after, _) := AfterNotice(l, n, source, cumulative);
            IsUsable(n) && ThreadOf(n) in after.previous ==> AfterNotice(after, n, source, cumulative) == (after, false)
  {
    match Emitted(l, n, cumulative)
    case None =>
    case Some(s) =>
      var after := AfterNotice(l, n, source, cumulative).0;
      if s.id in after.previous {
        EnteredChangesOne(l, s, source, s.id);
      }
  }

  lemma LeastIsLeast(sessions: seq<Session>, kept: Session)
    requires kept in sessions
    ensures sessions[Least(sessions)].updatedAt <= kept.updatedAt
  {
  }

  lemma RemovalKeeps(sessions: seq<Session>, i: nat, k: nat)
    requires i < |sessions| && k < |sessions| && k != i
    ensures sessions[k] in sessions[..i] + sessions[i + 1..]
  {
    assert (sessions[..i] + sessions[i + 1..])[if k < i then k else k - 1] == sessions[k];
  }

  /** What is not the least recent stays when that goes. */
  lemma OthersStay(sessions: seq<Session>, s: Session)
    requires s in sessions && s != sessions[Least(sessions)]
    ensures s in WithoutLeast(sessions)
  {
    var k :| 0 <= k < |sessions| && sessions[k] == s;
    RemovalKeeps(sessions, Least(sessions), k);
  }

  /** Trimming drops no session that is more recent than one it keeps. */
  lemma {:induction false} TrimKeepsRecent(sessions: seq<Session>, kept: Session, dropped: Session)
    requires kept in Trimmed(sessions) && dropped in sessions && dropped !in Trimmed(sessions)
    ensures kept.updatedAt >= dropped.updatedAt
    decreases |sessions|
  {
    if |sessions| > MAX_SESSIONS {
      if dropped == sessions[Least(sessions)] {
        TrimmedAreSome(sessions);
        LeastIsLeast(sessions, kept);
      } else {
        OthersStay(sessions, dropped);
        TrimKeepsRecent(WithoutLeast(sessions), kept, dropped);
      }
    }
  }
}
