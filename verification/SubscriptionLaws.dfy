/**
  What a device is subscribed to, and what it is sent (bridge/agent/cardbridge/server.py), told from the
  requests and changes so far.
 */
module SubscriptionLaws {
  import opened Common
  import opened Subscriptions

  // ---- Subscriptions ---------------------------------------------------------------------

  /** The capabilities that reading a topic and subscribing to it take. */
  ghost predicate IsGranted(b: Tables, caps: set<Capability>, t: Topic) {
    && SUBSCRIBE in caps && t in b.read && b.read[t] in caps
    && t in b.subscribe && forall c :: c in b.subscribe[t] ==> c in caps
  }

  lemma {:induction false} RequestedAreKnown(b: Tables, topics: seq<Topic>, t: Topic)
    ensures t in Requested(b, topics) <==> t in topics && t in b.read
  {
    if topics != [] {
      RequestedAreKnown(b, topics[..|topics| - 1], t);
      assert topics == topics[..|topics| - 1] + [topics[|topics| - 1]];
    }
  }

  /** Known topics are taken up once, in the order they were first asked for. */
  lemma {:induction false} RequestedOnce(b: Tables, topics: seq<Topic>)
    ensures forall i, j :: 0 <= i < j < |Requested(b, topics)| ==> Requested(b, topics)[i] != Requested(b, topics)[j]
  {
    if topics != [] {
      RequestedOnce(b, topics[..|topics| - 1]);
    }
  }

  /** Whether a topic is subscribed to after these events: the last that concerns it decides. */
  ghost predicate IsSubscribed(b: Tables, caps: set<Capability>, events: seq<Event>, t: Topic) {
    if events == [] then false
    else
      var before := IsSubscribed(b, caps, events[..|events| - 1], t);
      match events[|events| - 1]
      case Subscribes(topics, _) => before || (t in topics && IsGranted(b, caps, t))
      case Unsubscribes(None) => before && SUBSCRIBE !in caps
      case Unsubscribes(Some(removed)) => before && (SUBSCRIBE !in caps || t !in removed)
      case CleansUp => false
      case _ => before
  }

  lemma AcceptedIff(b: Tables, caps: set<Capability>, topics: seq<Topic>, t: Topic)
    requires SUBSCRIBE in caps
    ensures t in Accepted(b, caps, topics) <==> t in topics && IsGranted(b, caps, t)
  {
    RequestedAreKnown(b, topics, t);
  }

  /** A topic is subscribed to exactly if it was asked for with the capabilities it takes, and not given up. */
  lemma {:induction false} SubscribedIff(b: Tables, caps: set<Capability>, events: seq<Event>, t: Topic)
    ensures t in Run(b, caps, events).subscriptions <==> IsSubscribed(b, caps, events, t)
  {
    if events != [] {
      var e := events[|events| - 1];
      SubscribedIff(b, caps, events[..|events| - 1], t);
      if e.Subscribes? && SUBSCRIBE in caps {
        AcceptedIff(b, caps, e.topics, t);
      }
    }
  }

  /** What an interval asked for comes to, in milliseconds. */
  ghost predicate IsBounded(raw: Option<int>, n: nat) {
    match raw
    case None => n == 1000
    case Some(asked) =>
      && 250 <= n <= 60000
      && (250 <= asked <= 60000 ==> n == asked)
      && (asked < 250 ==> n == 250) && (asked > 60000 ==> n == 60000)
  }

  /** The interval is that of the last request that was granted a topic, within its bounds. */
  lemma IntervalLaw(b: Tables, caps: set<Capability>, s: Session, e: Event)
    ensures var after := Step(b, caps, s, e);
            if e.Subscribes? && exists t :: t in e.topics && IsGranted(b, caps, t)
            then IsBounded(e.interval, after.minInterval)
            else after.minInterval == s.minInterval
  {
    if e.Subscribes? && SUBSCRIBE in caps {
      if t :| t in e.topics && IsGranted(b, caps, t) {
        AcceptedIff(b, caps, e.topics, t);
      } else {
        forall t ensures t !in Accepted(b, caps, e.topics) {
          AcceptedIff(b, caps, e.topics, t);
        }
        assert Accepted(b, caps, e.topics) == {};
      }
    }
  }

  // ---- Messages --------------------------------------------------------------------------

  /** An update may go out: the topic waits, is subscribed to and due, and nothing else is being sent. */
  predicate IsDue(s: Session, t: Topic, now: nat) {
    && s.open && s.sending.None? && t in s.pending && t in s.subscriptions
    && now >= s.minInterval + if t in s.lastSent then s.lastSent[t] else 0
  }

  /** What an event adds to the messages. */
  function Sent(b: Tables, caps: set<Capability>, s: Session, e: Event): seq<Entry> {
    match e
    case Requests(t) =>
      if t in b.read && b.read[t] in caps then [Snapshot(t, CountOf(s.log, t) + 1)] else []
    case Flushes(t, now) =>
      if IsDue(s, t, now) then [Update(t, CountOf(s.log, t) + 1, now, s.minInterval)] else []
    case Unsubscribes(removed) =>
      if SUBSCRIBE !in caps then [] else if removed.None? then [LeftAll] else [Left(removed.value)]
    case _ => []
  }

  lemma RequestSends(b: Tables, caps: set<Capability>, s: Session, t: Topic)
    requires Remembers(s, t)
    ensures AfterRequest(b, caps, s, t).log == s.log + Sent(b, caps, s, Requests(t))
  {
    assert s.log + [] == s.log;
  }

  lemma FlushSends(b: Tables, caps: set<Capability>, s: Session, t: Topic, now: nat)
    requires Remembers(s, t)
    ensures AfterFlush(s, t, now).log == s.log + Sent(b, caps, s, Flushes(t, now))
  {
    assert s.log + [] == s.log;
  }

  lemma OthersSend(b: Tables, caps: set<Capability>, s: Session, e: Event)
    requires !e.Requests? && !e.Flushes?
    ensures Step(b, caps, s, e).log == s.log + Sent(b, caps, s, e)
  {
    assert s.log + [] == s.log;
  }

  /**
    A device is sent a snapshot for each request it may make, and an update of a topic exactly when that is
    due; each carries the topic's next number.
   */
  lemma SentIff(b: Tables, caps: set<Capability>, events: seq<Event>, e: Event)
    ensures var s := Run(b, caps, events);
            Step(b, caps, s, e).log == s.log + Sent(b, caps, s, e)
  {
    var s := Run(b, caps, events);
    MessagesAreProper(b, caps, events);
    match e
    case Requests(t) =>
      assert Remembers(s, t);
      RequestSends(b, caps, s, t);
    case Flushes(t, now) =>
      assert Remembers(s, t);
      FlushSends(b, caps, s, t, now);
    case _ => OthersSend(b, caps, s, e);
  }

  // ---- Waiting ---------------------------------------------------------------------------

  /** Whether a topic waits for an update after an event. */
  ghost predicate WaitsAfter(b: Tables, caps: set<Capability>, s: Session, e: Event, t: Topic) {
    match e
    case Subscribes(topics, _) => t in s.pending || (t in topics && IsGranted(b, caps, t))
    case Unsubscribes(None) => t in s.pending && SUBSCRIBE !in caps
    case Unsubscribes(Some(removed)) => t in s.pending && (SUBSCRIBE !in caps || t !in removed)
    case Changes(changed) => t in s.pending || t in changed
    case Flushes(due, _) =>
      t in s.pending && !(t == due && t !in s.subscriptions && s.open && s.sending.None?)
    case SendReturns(ok, current) =>
      t in s.pending && !(ok && current && s.sending.Some? && s.sending.value.topic == t)
    case CleansUp => false
    case _ => t in s.pending
  }

  /** A topic waits from a change or a subscription until its update was sent, or it was given up. */
  lemma WaitsIff(b: Tables, caps: set<Capability>, s: Session, e: Event, t: Topic)
    ensures t in Step(b, caps, s, e).pending <==> WaitsAfter(b, caps, s, e, t)
  {
    if e.Subscribes? && SUBSCRIBE in caps {
      AcceptedIff(b, caps, e.topics, t);
    }
  }

  /** A session goes on exactly until a send fails or finds it replaced, or it is cleaned up. */
  lemma OpenIff(b: Tables, caps: set<Capability>, s: Session, e: Event)
    ensures Step(b, caps, s, e).open
            <==> s.open && !e.CleansUp? && !(e.SendReturns? && s.sending.Some? && !(e.ok && e.current))
    ensures Step(b, caps, s, e).sending.Some?
            <==> (s.sending.Some? && !e.SendReturns?) || (e.Flushes? && IsDue(s, e.due, e.now))
  {
  }

  /** A device gives a topic up by name, or with all others. */
  predicate GivesUp(caps: set<Capability>, e: Event, t: Topic) {
    SUBSCRIBE in caps && e.Unsubscribes? && (e.removed.None? || t in e.removed.value)
  }

  /** The time of a topic's last update is kept from the return of its send until the topic is given up. */
  lemma LastSentLaw(b: Tables, caps: set<Capability>, s: Session, e: Event, t: Topic)
    ensures var after := Step(b, caps, s, e);
            if e.SendReturns? && s.sending.Some? && s.sending.value.topic == t && e.ok && e.current
            then t in after.lastSent && after.lastSent[t] == s.sending.value.time
            else && (t in after.lastSent <==> t in s.lastSent && !GivesUp(caps, e, t))
                 && (t in after.lastSent ==> after.lastSent[t] == s.lastSent[t])
  {
  }
}
