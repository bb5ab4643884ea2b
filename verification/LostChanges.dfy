/**
  Changes of a topic that no update tells of (bridge/agent/cardbridge/server.py): when an awaited send
  returns, its topic is taken off the waiting ones, changed meanwhile or not.
 */
module LostChanges {
  import opened Common
  import opened Subscriptions

  /** A change of `t`: by the bridge, or because the device subscribes to it. */
  predicate Marks(b: Tables, caps: set<Capability>, e: Event, t: Topic) {
    (e.Changes? && t in e.changed) || (e.Subscribes? && SUBSCRIBE in caps && t in Accepted(b, caps, e.topics))
  }

  /** The device gives `t` up, or the session is cleaned up. */
  predicate Clears(caps: set<Capability>, e: Event, t: Topic) {
    e.CleansUp? || (e.Unsubscribes? && SUBSCRIBE in caps && (e.removed.None? || t in e.removed.value))
  }

  /** A flush comes to `t`, which waits for it: it begins a send, or finds the topic given up. */
  predicate IsDue(s: Session, e: Event, t: Topic) {
    e.Flushes? && e.due == t && s.open && s.sending.None? && t in s.pending
    && (t !in s.subscriptions || e.now - LastSent(s, t) >= s.minInterval)
  }

  predicate BeginsSend(s: Session, e: Event, t: Topic) {
    IsDue(s, e, t) && t in s.subscriptions
  }

  /** `t` has a change that no update has carried, and waits for none. */
  predicate Missed(s: Session, t: Topic) {
    t in s.dirty && t !in s.pending
  }

  // ---- One step --------------------------------------------------------------------------

  lemma DirtyIff(b: Tables, caps: set<Capability>, s: Session, e: Event, t: Topic)
    ensures t in Step(b, caps, s, e).dirty
            <==> Marks(b, caps, e, t) || (t in s.dirty && !Clears(caps, e, t) && !IsDue(s, e, t))
  {
  }

  /** A missed change stays missed exactly until the topic changes again or is given up: no flush sends it. */
  lemma StaysMissedIff(b: Tables, caps: set<Capability>, s: Session, e: Event, t: Topic)
    requires Missed(s, t)
    ensures Missed(Step(b, caps, s, e), t) <==> !Marks(b, caps, e, t) && !Clears(caps, e, t)
  {
  }

  /** One step loses a change exactly if a send returns whose topic has changed since it began. */
  lemma LosesIff(b: Tables, caps: set<Capability>, s: Session, e: Event, t: Topic)
    requires !Missed(s, t)
    ensures Missed(Step(b, caps, s, e), t)
            <==> e == SendReturns(true, true) && s.sending.Some? && s.sending.value.topic == t && t in s.dirty
  {
  }

  lemma SendingStays(b: Tables, caps: set<Capability>, s: Session, e: Event)
    requires s.sending.Some? && !e.SendReturns?
    ensures Step(b, caps, s, e).sending == s.sending
  {
  }

  // ---- While a send is awaited -----------------------------------------------------------

  function RunFrom(b: Tables, caps: set<Capability>, s: Session, events: seq<Event>): Session {
    if events == [] then s else Step(b, caps, RunFrom(b, caps, s, events[..|events| - 1]), events[|events| - 1])
  }

  predicate NoneReturns(events: seq<Event>) {
    forall i :: 0 <= i < |events| ==> !events[i].SendReturns?
  }

  /** The `i`th event is a change of `t`, and `t` is not given up after it. */
  predicate LeavesChange(b: Tables, caps: set<Capability>, events: seq<Event>, t: Topic, i: nat) {
    i < |events| && Marks(b, caps, events[i], t) && forall j :: i < j < |events| ==> !Clears(caps, events[j], t)
  }

  /** One of the events is a change of `t`, and `t` is not given up after it. */
  ghost predicate Overtaken(b: Tables, caps: set<Capability>, events: seq<Event>, t: Topic) {
    exists i :: LeavesChange(b, caps, events, t, i)
  }

  lemma OvertakenLater(b: Tables, caps: set<Capability>, events: seq<Event>, e: Event, t: Topic)
    ensures Overtaken(b, caps, events + [e], t)
            <==> Marks(b, caps, e, t) || (Overtaken(b, caps, events, t) && !Clears(caps, e, t))
  {
    var n, more := |events|, events + [e];
    assert forall j :: 0 <= j < n ==> more[j] == events[j];
    if Marks(b, caps, e, t) {
      assert LeavesChange(b, caps, more, t, n);
    }
    if i :| LeavesChange(b, caps, events, t, i) && !Clears(caps, e, t) {
      assert LeavesChange(b, caps, more, t, i);
    }
    if i :| LeavesChange(b, caps, more, t, i) && i != n {
      assert LeavesChange(b, caps, events, t, i) && !Clears(caps, more[n], t);
    }
  }

  lemma {:induction false} DirtyIfOvertaken(b: Tables, caps: set<Capability>, s: Session, events: seq<Event>, t: Topic)
    requires s.sending.Some? && s.sending.value.topic == t && t !in s.dirty && NoneReturns(events)
    ensures RunFrom(b, caps, s, events).sending == s.sending
    ensures t in RunFrom(b, caps, s, events).dirty <==> Overtaken(b, caps, events, t)
  {
    if events != [] {
      var front, e := events[..|events| - 1], events[|events| - 1];
      assert events == front + [e];
      DirtyIfOvertaken(b, caps, s, front, t);
      OvertakenLater(b, caps, front, e, t);
      SendingStays(b, caps, RunFrom(b, caps, s, front), e);
      DirtyIff(b, caps, RunFrom(b, caps, s, front), e, t);
    }
  }

  /** The send of `t` that an event begins loses a change exactly if the events up to its return overtake it. */
  lemma SendLosesIff(b: Tables, caps: set<Capability>, s: Session, begins: Event, t: Topic, events: seq<Event>)
    requires BeginsSend(s, begins, t) && NoneReturns(events)
    ensures var r := RunFrom(b, caps, Step(b, caps, s, begins), events);
            Missed(Step(b, caps, r, SendReturns(true, true)), t) <==> Overtaken(b, caps, events, t)
  {
    DirtyIfOvertaken(b, caps, Step(b, caps, s, begins), events, t);
  }

  // ---- Whole runs ------------------------------------------------------------------------

  lemma {:induction false} RunInParts(b: Tables, caps: set<Capability>, events: seq<Event>, i: nat, k: nat)
    requires i <= k <= |events|
    ensures Run(b, caps, events[..k]) == RunFrom(b, caps, Run(b, caps, events[..i]), events[i..k])
    decreases k - i
  {
    if i < k {
      RunInParts(b, caps, events, i, k - 1);
      assert events[..k][..k - 1] == events[..k - 1];
      assert events[i..k][..k - 1 - i] == events[i..k - 1];
    }
  }

  /** The send of `t` begun by event `i` returns at event `k`, and was overtaken. */
  ghost predicate LosesAt(b: Tables, caps: set<Capability>, events: seq<Event>, i: nat, k: nat, t: Topic) {
    && i < k < |events|
    && BeginsSend(Run(b, caps, events[..i]), events[i], t)
    && NoneReturns(events[i + 1..k])
    && events[k] == SendReturns(true, true)
    && Overtaken(b, caps, events[i + 1..k], t)
  }

  /** After event `k`, `t` neither changes again nor is it given up. */
  predicate IsLeftAlone(b: Tables, caps: set<Capability>, events: seq<Event>, k: nat, t: Topic) {
    forall j :: k < j < |events| ==> !Marks(b, caps, events[j], t) && !Clears(caps, events[j], t)
  }

  lemma SendBegins(b: Tables, caps: set<Capability>, s: Session, e: Event)
    requires s.sending.None? && Step(b, caps, s, e).sending.Some?
    ensures BeginsSend(s, e, Step(b, caps, s, e).sending.value.topic)
  {
  }

  lemma SendGoesOn(b: Tables, caps: set<Capability>, s: Session, e: Event)
    requires s.sending.Some? && Step(b, caps, s, e).sending.Some?
    ensures !e.SendReturns? && Step(b, caps, s, e).sending == s.sending
  {
  }

  /** Where the send that is awaited began. */
  lemma {:induction false} SendBegan(b: Tables, caps: set<Capability>, events: seq<Event>) returns (i: nat)
    requires Run(b, caps, events).sending.Some?
    ensures i < |events| && BeginsSend(Run(b, caps, events[..i]), events[i], Run(b, caps, events).sending.value.topic)
    ensures NoneReturns(events[i + 1..])
  {
    var front, e := events[..|events| - 1], events[|events| - 1];
    var s := Run(b, caps, front);
    if s.sending.Some? {
      SendGoesOn(b, caps, s, e);
      i := SendBegan(b, caps, front);
      assert front[..i] == events[..i] && front[i] == events[i];
      assert events[i + 1..] == front[i + 1..] + [e];
    } else {
      SendBegins(b, caps, s, e);
      i := |events| - 1;
    }
  }

  lemma LossIsMissed(b: Tables, caps: set<Capability>, events: seq<Event>, i: nat, k: nat, t: Topic)
    requires LosesAt(b, caps, events, i, k, t)
    ensures Missed(Run(b, caps, events[..k + 1]), t)
  {
    assert events[..k + 1][..k] == events[..k];
    assert events[..i + 1][..i] == events[..i];
    RunInParts(b, caps, events, i + 1, k);
    SendLosesIff(b, caps, Run(b, caps, events[..i]), events[i], t, events[i + 1..k]);
  }

  lemma {:induction false} MissedStays(b: Tables, caps: set<Capability>, events: seq<Event>, k: nat, n: nat, t: Topic)
    requires k < n <= |events| && Missed(Run(b, caps, events[..k + 1]), t) && IsLeftAlone(b, caps, events, k, t)
    ensures Missed(Run(b, caps, events[..n]), t)
    decreases n
  {
    if k + 1 < n {
      MissedStays(b, caps, events, k, n - 1, t);
      assert events[..n][..n - 1] == events[..n - 1];
      StaysMissedIff(b, caps, Run(b, caps, events[..n - 1]), events[n - 1], t);
    }
  }

  /** Where a missed change was lost. */
  lemma {:induction false} MissedWasLost(b: Tables, caps: set<Capability>, events: seq<Event>, n: nat, t: Topic)
    returns (i: nat, k: nat)
    requires n <= |events| && Missed(Run(b, caps, events[..n]), t)
    ensures LosesAt(b, caps, events[..n], i, k, t) && IsLeftAlone(b, caps, events[..n], k, t)
    decreases n
  {
    var all, e := events[..n], events[n - 1];
    assert n > 0;
    assert all[..n - 1] == events[..n - 1];
    var s := Run(b, caps, events[..n - 1]);
    if Missed(s, t) {
      i, k := MissedWasLost(b, caps, events, n - 1, t);
      StaysMissedIff(b, caps, s, e, t);
      LossIsOfMore(b, caps, all, n - 1, i, k, t);
    } else {
      LosesIff(b, caps, s, e, t);
      k := n - 1;
      i := SendBegan(b, caps, events[..n - 1]);
      assert events[..n - 1] == all[..k];
      WasLostHere(b, caps, all, i, k, t);
    }
  }

  lemma WasLostHere(b: Tables, caps: set<Capability>, events: seq<Event>, i: nat, k: nat, t: Topic)
    requires i < k == |events| - 1 && BeginsSend(Run(b, caps, events[..k][..i]), events[..k][i], t)
    requires NoneReturns(events[..k][i + 1..]) && events[k] == SendReturns(true, true)
    requires t in Run(b, caps, events[..k]).dirty
    ensures LosesAt(b, caps, events, i, k, t) && IsLeftAlone(b, caps, events, k, t)
  {
    assert events[..k][..i] == events[..i] && events[..k][i + 1..] == events[i + 1..k];
    assert events[..i + 1][..i] == events[..i];
    RunInParts(b, caps, events, i + 1, k);
    DirtyIfOvertaken(b, caps, Run(b, caps, events[..i + 1]), events[i + 1..k], t);
  }

  lemma LossIsOfMore(b: Tables, caps: set<Capability>, events: seq<Event>, n: nat, i: nat, k: nat, t: Topic)
    requires n == |events| - 1 && LosesAt(b, caps, events[..n], i, k, t) && IsLeftAlone(b, caps, events[..n], k, t)
    requires !Marks(b, caps, events[n], t) && !Clears(caps, events[n], t)
    ensures LosesAt(b, caps, events, i, k, t) && IsLeftAlone(b, caps, events, k, t)
  {
    assert events[..n][..i] == events[..i] && events[..n][i + 1..k] == events[i + 1..k];
    assert forall j :: k < j < n ==> events[..n][j] == events[j];
  }

  /**
    After any run, a change of `t` is missed exactly if some send of `t` was overtaken by it, and
    since then `t` has neither changed again nor been given up.
   */
  lemma MissedIff(b: Tables, caps: set<Capability>, events: seq<Event>, t: Topic)
    ensures Missed(Run(b, caps, events), t)
            <==> exists i, k :: LosesAt(b, caps, events, i, k, t) && IsLeftAlone(b, caps, events, k, t)
  {
    assert events[..|events|] == events;
    if Missed(Run(b, caps, events), t) {
      var i, k := MissedWasLost(b, caps, events, |events|, t);
    }
    if i, k :| LosesAt(b, caps, events, i, k, t) && IsLeftAlone(b, caps, events, k, t) {
      LossIsMissed(b, caps, events, i, k, t);
      MissedStays(b, caps, events, k, |events|, t);
    }
  }

  /** Every change leads to an update or waits for one exactly if each loss was made up for since. */
  lemma NoChangeIsLostIff(b: Tables, caps: set<Capability>, events: seq<Event>)
    ensures Run(b, caps, events).dirty <= Run(b, caps, events).pending
            <==> forall t, i, k :: LosesAt(b, caps, events, i, k, t) ==> !IsLeftAlone(b, caps, events, k, t)
  {
    var s := Run(b, caps, events);
    if s.dirty <= s.pending {
      forall t, i, k | LosesAt(b, caps, events, i, k, t) ensures !IsLeftAlone(b, caps, events, k, t) {
        MissedIff(b, caps, events, t);
      }
    } else {
      var t: Topic :| t in s.dirty && t !in s.pending;
      MissedIff(b, caps, events, t);
    }
  }

  /** A change that overtakes the send of its topic is lost. */
  lemma ChangeCanBeLost(b: Tables, caps: set<Capability>, t: Topic)
    requires SUBSCRIBE in caps && MaySubscribe(b, caps, t)
    ensures var events := [Subscribes([t], None), Flushes(t, 5000), Changes({t}), SendReturns(true, true)];
            t in Run(b, caps, events).subscriptions && Missed(Run(b, caps, events), t)
  {
    var s0 := Opened();
    assert Requested(b, [t]) == [t] by {
      assert [t][..0] == [];
      assert Requested(b, []) == [];
    }
    var s1 := Step(b, caps, s0, Subscribes([t], None));
    assert Accepted(b, caps, [t]) == {t};
    var s2 := Step(b, caps, s1, Flushes(t, 5000));
    assert s2.sending == Some(Sending(t, 5000));
    var s3 := Step(b, caps, s2, Changes({t}));
    var s4 := Step(b, caps, s3, SendReturns(true, true));
    assert Missed(s4, t) && t in s4.subscriptions;
    var e := [Subscribes([t], None), Flushes(t, 5000), Changes({t}), SendReturns(true, true)];
    assert e[..3][..2] == e[..2] && e[..2][..1] == e[..1] && e[..1][..0] == [];
    assert Run(b, caps, e[..1]) == s1;
    assert Run(b, caps, e[..2]) == s2;
    assert Run(b, caps, e[..3]) == s3;
  }
}
