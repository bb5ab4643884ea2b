/**
  Topic subscriptions of one device session (bridge/agent/cardbridge/server.py).

  Sending an update is two steps, since the send is awaited: whatever else the session handles can
  come between. A session that is no longer current, or whose connection failed, sends no more.
 */
module Subscriptions {
  import opened Common

  type Topic = string
  type Capability = string

  const SUBSCRIBE: Capability := "sync.subscribe.v1"
  const MIN_INTERVAL_MS := 250
  const MAX_INTERVAL_MS := 60000
  const DEFAULT_INTERVAL_MS := 1000

  /** The tables of topics: what reading one takes, and what subscribing to it takes besides. */
  datatype Tables = Tables(read: map<Topic, Capability>, subscribe: map<Topic, seq<Capability>>)

  function DeviceTables(): Tables {
    Tables(
      map["bridge.status" := "bridge.status.v1", "network.status" := "network.status.v1",
          "codex.sessions" := "agents.snapshot.v1", "codex.usage" := "usage.tokens.v1"],
      map["bridge.status" := [SUBSCRIBE], "network.status" := [SUBSCRIBE],
          "codex.sessions" := [SUBSCRIBE], "codex.usage" := [SUBSCRIBE, "usage.tokens.stream.v1"]])
  }

  /** What a device was sent, and when it gave topics up. */
  datatype Entry =
    | Update(topic: Topic, sequence: nat, time: nat, interval: nat)
    | Snapshot(topic: Topic, sequence: nat)
    | Left(topics: set<Topic>)
    | LeftAll

  datatype Sending = Sending(topic: Topic, time: nat)

  /** `dirty` are the topics with a change that no update has carried since. */
  datatype Session = Session(
    subscriptions: set<Topic>,
    minInterval: nat,
    lastSent: map<Topic, nat>,
    pending: set<Topic>,
    sequences: map<Topic, nat>,
    sending: Option<Sending>,
    open: bool,
    log: seq<Entry>,
    dirty: set<Topic>)

  function Opened(): Session {
    Session({}, DEFAULT_INTERVAL_MS, map[], {}, map[], None, true, [], {})
  }

  // ---- Requests --------------------------------------------------------------------------

  predicate MayRead(b: Tables, caps: set<Capability>, t: Topic) {
    t in b.read && b.read[t] in caps
  }

  predicate MaySubscribe(b: Tables, caps: set<Capability>, t: Topic) {
    MayRead(b, caps, t) && t in b.subscribe && forall c :: c in b.subscribe[t] ==> c in caps
  }

  /** `_requested_topics`: the known ones, each once. */
  function Requested(b: Tables, topics: seq<Topic>): seq<Topic> {
    if topics == [] then []
    else
      var front, last := Requested(b, topics[..|topics| - 1]), topics[|topics| - 1];
      if last in b.read && last !in front then front + [last] else front
  }

  function Accepted(b: Tables, caps: set<Capability>, topics: seq<Topic>): set<Topic> {
    set t | t in Requested(b, topics) && MaySubscribe(b, caps, t)
  }

  /** A missing interval, or one that is not a number, is `None`. */
  function Interval(raw: Option<int>): (n: nat)
    ensures MIN_INTERVAL_MS <= n <= MAX_INTERVAL_MS
  {
    match raw
    case None => DEFAULT_INTERVAL_MS
    case Some(n) => if n < MIN_INTERVAL_MS then MIN_INTERVAL_MS else if n > MAX_INTERVAL_MS then MAX_INTERVAL_MS else n
  }

  function AfterSubscribe(b: Tables, caps: set<Capability>, s: Session, topics: seq<Topic>, raw: Option<int>): Session {
    if SUBSCRIBE !in caps then s
    else
      var accepted := Accepted(b, caps, topics);
      s.(subscriptions := s.subscriptions + accepted,
         minInterval := if accepted == {} then s.minInterval else Interval(raw),
         pending := s.pending + accepted,
         dirty := s.dirty + accepted)
  }

  /** Without a list of topics, all are given up. */
  function AfterUnsubscribe(caps: set<Capability>, s: Session, topics: Option<set<Topic>>): Session {
    if SUBSCRIBE !in caps then s
    else
      match topics
      case None =>
        s.(subscriptions := {}, pending := {}, dirty := {}, lastSent := map[], log := s.log + [LeftAll])
      case Some(removed) =>
        s.(subscriptions := s.subscriptions - removed,
           pending := s.pending - removed,
           dirty := s.dirty - removed,
           lastSent := s.lastSent - removed,
           log := s.log + [Left(removed)])
  }

  function NextSequence(s: Session, t: Topic): nat {
    if t in s.sequences then s.sequences[t] + 1 else 1
  }

  function Numbered(s: Session, t: Topic, e: Entry): Session {
    s.(sequences := s.sequences[t := NextSequence(s, t)], log := s.log + [e])
  }

  /** One topic of a `sync_req`. */
  function AfterRequest(b: Tables, caps: set<Capability>, s: Session, t: Topic): Session {
    if MayRead(b, caps, t) then Numbered(s, t, Snapshot(t, NextSequence(s, t))) else s
  }

  function AfterChange(s: Session, topics: set<Topic>): Session {
    s.(pending := s.pending + topics, dirty := s.dirty + topics)
  }

  // ---- Updates ---------------------------------------------------------------------------

  function LastSent(s: Session, t: Topic): nat {
    if t in s.lastSent then s.lastSent[t] else 0
  }

  /**
    One topic of a flush that began at `now`, up to where its send is awaited. The flush goes through the
    topics that waited when it came to the session; one that waits no more by its turn was given up.
   */
  function AfterFlush(s: Session, t: Topic, now: nat): Session {
    if !s.open || s.sending.Some? || t !in s.pending then s
    else if t !in s.subscriptions then s.(pending := s.pending - {t}, dirty := s.dirty - {t})
    else if now - LastSent(s, t) < s.minInterval then s
    else
      Numbered(s, t, Update(t, NextSequence(s, t), now, s.minInterval))
      .(sending := Some(Sending(t, now)), dirty := s.dirty - {t})
  }

  /** The awaited send returns: `ok` unless it failed, `current` unless the session was replaced meanwhile. */
  function AfterSend(s: Session, ok: bool, current: bool): Session {
    if s.sending.None? then s
    else if !ok || !current then s.(sending := None, open := false)
    else
      var t := s.sending.value.topic;
      s.(sending := None, lastSent := s.lastSent[t := s.sending.value.time], pending := s.pending - {t})
  }

  function AfterCleanup(s: Session): Session {
    s.(subscriptions := {}, pending := {}, dirty := {}, open := false)
  }

  datatype Event =
    | Subscribes(topics: seq<Topic>, interval: Option<int>)
    | Unsubscribes(removed: Option<set<Topic>>)
    | Requests(topic: Topic)
    | Changes(changed: set<Topic>)
    | Flushes(due: Topic, now: nat)
    | SendReturns(ok: bool, current: bool)
    | CleansUp

  function Step(b: Tables, caps: set<Capability>, s: Session, e: Event): Session {
    match e
    case Subscribes(topics, interval) => AfterSubscribe(b, caps, s, topics, interval)
    case Unsubscribes(removed) => AfterUnsubscribe(caps, s, removed)
    case Requests(topic) => AfterRequest(b, caps, s, topic)
    case Changes(changed) => AfterChange(s, changed)
    case Flushes(due, now) => AfterFlush(s, due, now)
    case SendReturns(ok, current) => AfterSend(s, ok, current)
    case CleansUp => AfterCleanup(s)
  }

  function Run(b: Tables, caps: set<Capability>, events: seq<Event>): Session {
    if events == [] then Opened() else Step(b, caps, Run(b, caps, events[..|events| - 1]), events[|events| - 1])
  }

  // ---- What every run keeps --------------------------------------------------------------

  predicate IsNumbered(e: Entry, t: Topic) {
    (e.Update? || e.Snapshot?) && e.topic == t
  }

  function CountOf(log: seq<Entry>, t: Topic): nat {
    if log == [] then 0 else CountOf(log[..|log| - 1], t) + if IsNumbered(log[|log| - 1], t) then 1 else 0
  }

  /** The time of the last update of a topic since it was last given up. */
  function LastUpdate(log: seq<Entry>, t: Topic): Option<nat> {
    if log == [] then None
    else
      var e := log[|log| - 1];
      if e.Update? && e.topic == t then Some(e.time)
      else if e.LeftAll? || (e.Left? && t in e.topics) then None
      else LastUpdate(log[..|log| - 1], t)
  }

  /** The device may have it; its number is one more than that of the one before; and updates are spaced. */
  ghost predicate IsProper(b: Tables, caps: set<Capability>, log: seq<Entry>, e: Entry) {
    match e
    case Snapshot(t, n) => MayRead(b, caps, t) && n == CountOf(log, t) + 1
    case Update(t, n, time, interval) =>
      && MaySubscribe(b, caps, t)
      && n == CountOf(log, t) + 1
      && MIN_INTERVAL_MS <= interval <= MAX_INTERVAL_MS
      && (LastUpdate(log, t).Some? ==> time - LastUpdate(log, t).value >= interval)
    case _ => true
  }

  ghost predicate AllProper(b: Tables, caps: set<Capability>, log: seq<Entry>) {
    forall i :: 0 <= i < |log| ==> IsProper(b, caps, log[..i], log[i])
  }

  ghost predicate Remembers(s: Session, t: Topic) {
    && CountOf(s.log, t) == (if t in s.sequences then s.sequences[t] else 0)
    && (s.open && LastUpdate(s.log, t).Some? ==>
          if s.sending.Some? && s.sending.value.topic == t then LastUpdate(s.log, t) == Some(s.sending.value.time)
          else t in s.lastSent && s.lastSent[t] == LastUpdate(s.log, t).value)
  }

  ghost predicate Inv(b: Tables, caps: set<Capability>, s: Session) {
    && (forall t :: t in s.subscriptions ==> MaySubscribe(b, caps, t))
    && MIN_INTERVAL_MS <= s.minInterval <= MAX_INTERVAL_MS
    && (forall t: Topic :: Remembers(s, t))
    && AllProper(b, caps, s.log)
  }

  lemma ProperOn(b: Tables, caps: set<Capability>, log: seq<Entry>, e: Entry)
    requires AllProper(b, caps, log) && IsProper(b, caps, log, e)
    ensures AllProper(b, caps, log + [e])
  {
    forall i | 0 <= i <= |log| ensures IsProper(b, caps, (log + [e])[..i], (log + [e])[i]) {
      assert (log + [e])[..i] == log[..i];
      assert log[..|log|] == log;
    }
  }

  /** The session after a numbered message, whose send is awaited if it is an update. */
  function Messaged(s: Session, t: Topic, e: Entry): Session {
    var r := Numbered(s, t, e);
    if e.Update? then r.(sending := Some(Sending(t, e.time)), dirty := s.dirty - {t}) else r
  }

  lemma CountOfMore(log: seq<Entry>, e: Entry, u: Topic)
    ensures CountOf(log + [e], u) == CountOf(log, u) + if IsNumbered(e, u) then 1 else 0
    ensures LastUpdate(log + [e], u)
         == if e.Update? && e.topic == u then Some(e.time)
            else if e.LeftAll? || (e.Left? && u in e.topics) then None
            else LastUpdate(log, u)
  {
    assert (log + [e])[..|log|] == log;
  }

  lemma MessagedRemembers(s: Session, t: Topic, e: Entry, u: Topic)
    requires Remembers(s, u) && IsNumbered(e, t)
    requires e.Update? ==> s.open && s.sending.None?
    ensures Remembers(Messaged(s, t, e), u)
  {
    CountOfMore(s.log, e, u);
  }

  lemma NumberedKeeps(b: Tables, caps: set<Capability>, s: Session, t: Topic, e: Entry)
    requires Inv(b, caps, s) && IsProper(b, caps, s.log, e) && IsNumbered(e, t)
    requires e.Update? ==> s.open && s.sending.None?
    ensures Inv(b, caps, Messaged(s, t, e))
  {
    ProperOn(b, caps, s.log, e);
    forall u: Topic ensures Remembers(Messaged(s, t, e), u) {
      assert Remembers(s, u);
      MessagedRemembers(s, t, e, u);
    }
  }

  lemma SubscribeKeeps(b: Tables, caps: set<Capability>, s: Session, topics: seq<Topic>, raw: Option<int>)
    requires Inv(b, caps, s)
    ensures Inv(b, caps, AfterSubscribe(b, caps, s, topics, raw))
  {
    var r := AfterSubscribe(b, caps, s, topics, raw);
    forall u: Topic ensures Remembers(r, u) {
      assert Remembers(s, u);
    }
  }

  lemma LeavingKeeps(b: Tables, caps: set<Capability>, s: Session, r: Session, e: Entry)
    requires Inv(b, caps, s) && (e.Left? || e.LeftAll?)
    requires r.subscriptions <= s.subscriptions && r.minInterval == s.minInterval && r.log == s.log + [e]
    requires forall u: Topic :: Remembers(r, u)
    ensures Inv(b, caps, r)
  {
    ProperOn(b, caps, s.log, e);
  }

  lemma LeavingRemembers(s: Session, r: Session, e: Entry, u: Topic)
    requires Remembers(s, u) && (e.Left? || e.LeftAll?)
    requires r.log == s.log + [e] && r.sequences == s.sequences && r.open == s.open && r.sending == s.sending
    requires r.lastSent == if e.LeftAll? then map[] else s.lastSent - e.topics
    ensures Remembers(r, u)
  {
    CountOfMore(s.log, e, u);
  }

  lemma UnsubscribeKeeps(b: Tables, caps: set<Capability>, s: Session, topics: Option<set<Topic>>)
    requires Inv(b, caps, s)
    ensures Inv(b, caps, AfterUnsubscribe(caps, s, topics))
  {
    if SUBSCRIBE in caps {
      var r := AfterUnsubscribe(caps, s, topics);
      var e := if topics.None? then LeftAll else Left(topics.value);
      forall u: Topic ensures Remembers(r, u) {
        assert Remembers(s, u);
        LeavingRemembers(s, r, e, u);
      }
      LeavingKeeps(b, caps, s, r, e);
    }
  }

  lemma RequestKeeps(b: Tables, caps: set<Capability>, s: Session, t: Topic)
    requires Inv(b, caps, s)
    ensures Inv(b, caps, AfterRequest(b, caps, s, t))
  {
    if MayRead(b, caps, t) {
      assert Remembers(s, t);
      NumberedKeeps(b, caps, s, t, Snapshot(t, NextSequence(s, t)));
    }
  }

  lemma FlushKeeps(b: Tables, caps: set<Capability>, s: Session, t: Topic, now: nat)
    requires Inv(b, caps, s)
    ensures Inv(b, caps, AfterFlush(s, t, now))
  {
    assert Remembers(s, t);
    if s.open && s.sending.None? && t in s.pending && t in s.subscriptions && now - LastSent(s, t) >= s.minInterval {
      NumberedKeeps(b, caps, s, t, Update(t, NextSequence(s, t), now, s.minInterval));
    } else {
      var r := AfterFlush(s, t, now);
      forall u: Topic ensures Remembers(r, u) {
        assert Remembers(s, u);
      }
    }
  }

  lemma SendKeeps(b: Tables, caps: set<Capability>, s: Session, ok: bool, current: bool)
    requires Inv(b, caps, s)
    ensures Inv(b, caps, AfterSend(s, ok, current))
  {
    var r := AfterSend(s, ok, current);
    forall u: Topic ensures Remembers(r, u) {
      assert Remembers(s, u);
    }
  }

  lemma OthersKeep(b: Tables, caps: set<Capability>, s: Session, topics: set<Topic>)
    requires Inv(b, caps, s)
    ensures Inv(b, caps, AfterChange(s, topics)) && Inv(b, caps, AfterCleanup(s))
  {
    forall u: Topic ensures Remembers(AfterChange(s, topics), u) && Remembers(AfterCleanup(s), u) {
      assert Remembers(s, u);
    }
  }

  lemma OpenedIsProper(b: Tables, caps: set<Capability>)
    ensures Inv(b, caps, Opened())
  {
    forall u: Topic ensures Remembers(Opened(), u) {
    }
  }

  lemma StepKeepsInv(b: Tables, caps: set<Capability>, s: Session, e: Event)
    requires Inv(b, caps, s)
    ensures Inv(b, caps, Step(b, caps, s, e))
  {
    match e
    case Subscribes(topics, interval) => SubscribeKeeps(b, caps, s, topics, interval);
    case Unsubscribes(removed) => UnsubscribeKeeps(b, caps, s, removed);
    case Requests(topic) => RequestKeeps(b, caps, s, topic);
    case Changes(changed) => OthersKeep(b, caps, s, changed);
    case Flushes(due, now) => FlushKeeps(b, caps, s, due, now);
    case SendReturns(ok, current) => SendKeeps(b, caps, s, ok, current);
    case CleansUp => OthersKeep(b, caps, s, {});
  }

  /**
    In every run a device is sent only topics it negotiated the capabilities for; the messages of
    a topic are numbered one by one; and two updates of a topic that it did not give up in between
    are at least the interval then in force apart, which is always within its bounds.
   */
  lemma {:induction false} MessagesAreProper(b: Tables, caps: set<Capability>, events: seq<Event>)
    ensures Inv(b, caps, Run(b, caps, events))
  {
    if events == [] {
      OpenedIsProper(b, caps);
    } else {
      MessagesAreProper(b, caps, events[..|events| - 1]);
      StepKeepsInv(b, caps, Run(b, caps, events[..|events| - 1]), events[|events| - 1]);
    }
  }

  /** Two updates of a topic in a row, without the topic being given up between. */
  lemma UpdatesAreSpaced(b: Tables, caps: set<Capability>, events: seq<Event>, i: nat, j: nat)
    requires var log := Run(b, caps, events).log;
             i < j < |log| && log[i].Update? && log[j].Update? && log[i].topic == log[j].topic
             && forall k :: i < k < j ==>
                  !log[k].LeftAll? && !(log[k].Left? && log[i].topic in log[k].topics)
                  && !(log[k].Update? && log[k].topic == log[i].topic)
    ensures var log := Run(b, caps, events).log;
            log[j].time - log[i].time >= log[j].interval >= MIN_INTERVAL_MS
  {
    MessagesAreProper(b, caps, events);
    var log := Run(b, caps, events).log;
    LastIsThere(log[..j], i);
    assert IsProper(b, caps, log[..j], log[j]);
  }

  lemma {:induction false} LastIsThere(log: seq<Entry>, i: nat)
    requires i < |log| && log[i].Update?
    requires forall k :: i < k < |log| ==>
               !log[k].LeftAll? && !(log[k].Left? && log[i].topic in log[k].topics)
               && !(log[k].Update? && log[k].topic == log[i].topic)
    ensures LastUpdate(log, log[i].topic) == Some(log[i].time)
  {
    if i < |log| - 1 {
      assert log[..|log| - 1][i] == log[i];
      LastIsThere(log[..|log| - 1], i);
    }
  }
}
