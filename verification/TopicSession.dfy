/** The subscription state of one device session, changed in place by its requests. */
module TopicSessions {
  import opened Common
  import opened Subscriptions

  class TopicSession {
    const tables: Tables
    const caps: set<Capability>
    var subscriptions: set<Topic>
    var minIntervalMs: nat
    var lastSentMs: map<Topic, nat>
    var pendingTopics: set<Topic>
    var topicSequences: map<Topic, nat>
    var sending: Option<Sending>
    var open: bool
    ghost var log: seq<Entry>
    ghost var dirty: set<Topic>

    constructor (caps: set<Capability>)
      ensures Valid() && this.tables == DeviceTables() && this.caps == caps && State() == Opened()
    {
      this.tables, this.caps := DeviceTables(), caps;
      subscriptions, minIntervalMs, lastSentMs, pendingTopics := {}, DEFAULT_INTERVAL_MS, map[], {};
      topicSequences, sending, open, log, dirty := map[], None, true, [], {};
      new;
      OpenedIsProper(tables, caps);
    }

    ghost function State(): Session
      reads this
    {
      Session(subscriptions, minIntervalMs, lastSentMs, pendingTopics, topicSequences, sending, open, log, dirty)
    }

    ghost predicate Valid()
      reads this
    {
      Subscriptions.Inv(tables, caps, State())
    }

    method RequestedTopics(raw: seq<Topic>) returns (result: seq<Topic>)
      ensures result == Requested(tables, raw)
    {
      result := [];
      assert raw[..0] == [];
      for i := 0 to |raw|
        invariant result == Requested(tables, raw[..i])
      {
        assert raw[..i + 1][..i] == raw[..i];
        if raw[i] in tables.read && raw[i] !in result {
          result := result + [raw[i]];
        }
      }
      assert raw[..|raw|] == raw;
    }

    method HasCapabilities(needed: seq<Capability>) returns (yes: bool)
      ensures yes <==> forall c :: c in needed ==> c in caps
    {
      for i := 0 to |needed|
        invariant forall j :: 0 <= j < i ==> needed[j] in caps
      {
        if needed[i] !in caps {
          return false;
        }
      }
      yes := true;
    }

    method AcceptedTopics(raw: seq<Topic>) returns (accepted: set<Topic>)
      ensures accepted == Accepted(tables, caps, raw)
    {
      accepted := {};
      var topics := RequestedTopics(raw);
      for i := 0 to |topics|
        invariant accepted == set t | t in topics[..i] && MaySubscribe(tables, caps, t)
      {
        var t := topics[i];
        assert topics[..i + 1] == topics[..i] + [t];
        if t in tables.read && t in tables.subscribe {
          var granted := HasCapabilities([tables.read[t]] + tables.subscribe[t]);
          assert granted <==> MaySubscribe(tables, caps, t) by {
            assert ([tables.read[t]] + tables.subscribe[t])[0] == tables.read[t];
            assert forall c :: c in [tables.read[t]] + tables.subscribe[t]
                               <==> c == tables.read[t] || c in tables.subscribe[t];
          }
          if granted {
            accepted := accepted + {t};
          }
        }
      }
      assert topics[..|topics|] == topics;
    }

    method HandleSubscribe(topics: seq<Topic>, rawInterval: Option<int>)
      requires Valid()
      modifies this
      ensures Valid() && State() == AfterSubscribe(tables, caps, old(State()), topics, rawInterval)
    {
      SubscribeKeeps(tables, caps, State(), topics, rawInterval);
      if SUBSCRIBE !in caps {
        return;
      }
      var accepted := AcceptedTopics(topics);
      var minInterval := Interval(rawInterval);
      subscriptions := subscriptions + accepted;
      if accepted != {} {
        minIntervalMs := minInterval;
      }
      pendingTopics := pendingTopics + accepted;
      dirty := dirty + accepted;
    }

    method HandleUnsubscribe(topics: Option<set<Topic>>)
      requires Valid()
      modifies this
      ensures Valid() && State() == AfterUnsubscribe(caps, old(State()), topics)
    {
      UnsubscribeKeeps(tables, caps, State(), topics);
      if SUBSCRIBE !in caps {
        return;
      }
      if topics.Some? {
        var removed := topics.value;
        subscriptions := subscriptions - removed;
        pendingTopics := pendingTopics - removed;
        lastSentMs := lastSentMs - removed;
        dirty, log := dirty - removed, log + [Left(removed)];
      } else {
        subscriptions := {};
        pendingTopics := {};
        lastSentMs := map[];
        dirty, log := {}, log + [LeftAll];
      }
    }

    method NextTopicSequence(t: Topic) returns (sequence: nat)
      modifies this`topicSequences
      ensures sequence == NextSequence(old(State()), t)
      ensures State() == old(State()).(sequences := old(topicSequences)[t := sequence])
    {
      sequence := (if t in topicSequences then topicSequences[t] else 0) + 1;
      topicSequences := topicSequences[t := sequence];
    }

    method HandleRequest(t: Topic)
      requires Valid()
      modifies this
      ensures Valid() && State() == AfterRequest(tables, caps, old(State()), t)
    {
      RequestKeeps(tables, caps, State(), t);
      if t in tables.read && tables.read[t] in caps {
        var sequence := NextTopicSequence(t);
        log := log + [Snapshot(t, sequence)];
      }
    }

    method Change(topics: set<Topic>)
      requires Valid()
      modifies this
      ensures Valid() && State() == AfterChange(old(State()), topics)
    {
      OthersKeep(tables, caps, State(), topics);
      pendingTopics := pendingTopics + topics;
      dirty := dirty + topics;
    }

    /** One turn of the flush loop, up to its `await`. */
    method FlushTopic(t: Topic, timestamp: nat)
      requires Valid()
      modifies this
      ensures Valid() && State() == AfterFlush(old(State()), t, timestamp)
    {
      FlushKeeps(tables, caps, State(), t, timestamp);
      if !open || sending.Some? || t !in pendingTopics {
        return;
      }
      if t !in subscriptions {
        pendingTopics := pendingTopics - {t};
        dirty := dirty - {t};
        return;
      }
      var lastSent := if t in lastSentMs then lastSentMs[t] else 0;
      if timestamp - lastSent < minIntervalMs {
        return;
      }
      var sequence := NextTopicSequence(t);
      sending := Some(Sending(t, timestamp));
      log, dirty := log + [Update(t, sequence, timestamp, minIntervalMs)], dirty - {t};
    }

    /** The rest of the turn, after the `await`. */
    method FinishSend(ok: bool, current: bool)
      requires Valid()
      modifies this
      ensures Valid() && State() == AfterSend(old(State()), ok, current)
    {
      SendKeeps(tables, caps, State(), ok, current);
      if sending.None? {
        return;
      }
      var sent := sending.value;
      sending := None;
      if !ok || !current {
        open := false;
        return;
      }
      lastSentMs := lastSentMs[sent.topic := sent.time];
      pendingTopics := pendingTopics - {sent.topic};
    }

    method Cleanup()
      requires Valid()
      modifies this
      ensures Valid() && State() == AfterCleanup(old(State()))
    {
      OthersKeep(tables, caps, State(), {});
      subscriptions := {};
      pendingTopics := {};
      dirty, open := {}, false;
    }
  }
}
