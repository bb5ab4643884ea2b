/**
  What the connection machine (firmware/m5stack-cardputer-adv/src/pairing.cpp) achieves, told from the
  state before a call and the answers of the world, numbered from the first question of the call.
 */
module PairingLaws {
  import opened Common
  import opened Pairings
  import opened PairingRuns

  /** Whether the k-th question from here is answered with yes. */
  predicate Answers(o: Oracle, s: Link, k: nat) {
    o.yes(s.outside.asked + k)
  }

  function Clock(o: Oracle, s: Link, k: nat): Millis {
    o.now(s.outside.asked + k)
  }

  /** What is due `delay` from `start` on is due once that has passed, whatever the clock showed. */
  ghost predicate IsDueAfter(next: Millis, start: Millis, delay: nat, elapsed: nat) {
    DeadlineReached((start + elapsed) % CLOCK, next) <==> elapsed >= delay
  }

  /** Offline, and the next attempt due once the delay has passed from `start` on, after a new search. */
  ghost predicate WaitsFrom(s: Link, t: Link, start: Millis) {
    && t.state == Offline && t.discovery.required
    && t.nextConnect == (start + s.reconnectDelay) % CLOCK
    && t.reconnectDelay == (if 2 * s.reconnectDelay < 20000 then 2 * s.reconnectDelay else 20000)
    && forall elapsed: nat :: elapsed < CLOCK / 2 ==> IsDueAfter(t.nextConnect, start, s.reconnectDelay, elapsed)
  }

  lemma ScheduledWaits(o: Oracle, s: Link)
    requires RECONNECT_MIN_MS <= s.reconnectDelay <= RECONNECT_MAX_MS
    ensures WaitsFrom(s, Failed(o, s), Clock(o, s, 0))
    ensures s.state == Offline ==> WaitsFrom(s, ScheduleReconnect(o, s), Clock(o, s, 0))
  {
    forall elapsed: nat | elapsed < CLOCK / 2
      ensures IsDueAfter(ScheduleReconnect(o, s).nextConnect, Clock(o, s, 0), s.reconnectDelay, elapsed)
    {
      WaitsOutTheDelay(o, s, elapsed);
    }
  }

  // ---- The result of an attempt ----------------------------------------------------------

  function NextHello(s: Link): Hello {
    Hello(s.target.id, PairedToken(s.paired, s.target.id), Open(s.target.id))
  }

  /** Question 0 is WiFi, 1 the time, 2 the socket, 3 the hello's write. */
  predicate Greets(o: Oracle, s: Link)
    requires s.outside.queue.Some?
  {
    !s.cancelled && Answers(o, s, 0) && s.outside.queue.value.connected && Answers(o, s, 2)
  }

  lemma HelloOfSend(o: Oracle, s: Link)
    requires Alone(s) && s.outside.socket == Open(s.target.id)
    ensures SendHello(o, s).history.hellos
            == if Answers(o, s, 0) then s.history.hellos + [NextHello(s)] else s.history.hellos
  {
    var named := s.(target := s.target.(token := PairedToken(s.paired, s.target.id)));
    TokenKeeps(s, PairedToken(s.paired, s.target.id));
    ConnectedKeeps(o, named);
    var (t, up) := ClientConnected(o, named);
    if up {
      LostSaysNothing(o, Ask(o, Greeted(Touched(t))).0);
    } else {
      LostSaysNothing(o, t);
    }
  }

  lemma LostShows(o: Oracle, s: Link)
    requires !s.inFlight
    ensures ConnectionLost(o, s).state == Offline && ConnectionLost(o, s).paired == s.paired
    ensures ConnectionLost(o, s).discovery.required
    ensures !ConnectionLost(o, s).outside.socket.Open? && !ConnectionLost(o, s).inFlight
  {
  }

  lemma StoppedSaysNothing(o: Oracle, s: Link)
    requires !s.inFlight
    ensures CancelConnectionAttempt(o, s).history == s.history
  {
    assert Touched(s) == s;
  }

  lemma LostSaysNothing(o: Oracle, s: Link)
    requires !s.inFlight
    ensures ConnectionLost(o, s).history == s.history
  {
    StoppedSaysNothing(o, s);
  }

  lemma HelloOfAdopt(o: Oracle, s: Link)
    requires Alone(s) && s.outside.socket == Open(s.target.id)
    ensures Adopt(o, s).history.hellos
            == if Answers(o, s, 1) then s.history.hellos + [NextHello(s)] else s.history.hellos
  {
    var u := Fresh(o, s);
    assert Alone(u);
    HelloOfSend(o, u);
  }

  lemma TakenIsAlone(s: Link)
    requires Inv(s) && s.outside.queue.Some? && !s.cancelled
    ensures s.inFlight && Alone(Taken(s))
    ensures s.outside.queue.value.connected ==> s.outside.socket == Open(s.target.id)
  {
    TakenKeeps(s);
  }

  lemma HelloOfJudge(o: Oracle, s: Link, connected: bool)
    requires Alone(s) && (connected ==> s.outside.socket == Open(s.target.id))
    ensures Judge(o, s, connected).history.hellos
            == if Answers(o, s, 0) && connected && Answers(o, s, 2) then s.history.hellos + [NextHello(s)]
               else s.history.hellos
  {
    JustAskKeeps(o, s);
    var t := Ask(o, s).0;
    assert !t.inFlight;
    if connected {
      HelloOfAdopt(o, t);
    }
  }

  /**
    A result leads to a hello exactly if its attempt was not cancelled, WiFi is up, the worker connected and
    the socket still answers. The hello names the target, carries the token stored for it and goes out on
    the socket opened for it.
   */
  lemma HelloIff(o: Oracle, s: Link)
    requires Inv(s) && s.outside.queue.Some?
    ensures PollConnectionAttempt(o, s).history.hellos
            == if Greets(o, s) then s.history.hellos + [NextHello(s)] else s.history.hellos
  {
    if !s.cancelled {
      TakenIsAlone(s);
      HelloOfJudge(o, Taken(s), s.outside.queue.value.connected);
    }
  }

  /** The hello was written: the answer is waited for, or a pair code if no token is stored. */
  ghost predicate AwaitsAnswer(s: Link, t: Link, start: Millis) {
    && t.state == (if PairedToken(s.paired, s.target.id) == "" then AwaitingPairCode else Authenticating)
    && t.target == s.target.(token := PairedToken(s.paired, s.target.id))
    && t.outside.socket == Open(s.target.id) && !t.inFlight
    && t.missedPongs == 0 && t.lastHeartbeat == start && t.nextConnect == s.nextConnect
  }

  lemma SentAwaits(o: Oracle, s: Link)
    requires Alone(s) && s.outside.socket == Open(s.target.id) && s.missedPongs == 0
    requires Answers(o, s, 0) && Answers(o, s, 1)
    ensures AwaitsAnswer(s, SendHello(o, s), s.lastHeartbeat)
  {
  }

  /** A hello that was written leaves the device waiting for its answer. */
  lemma GreetsAwaits(o: Oracle, s: Link)
    requires Inv(s) && s.outside.queue.Some? && Greets(o, s) && Answers(o, s, 3)
    ensures AwaitsAnswer(s, PollConnectionAttempt(o, s), Clock(o, s, 1))
  {
    TakenIsAlone(s);
    var t := Ask(o, Taken(s)).0;
    assert Alone(t);
    SentAwaits(o, Fresh(o, t));
  }

  /** A hello that could not be said, with the state it leaves. */
  ghost predicate IsLost(t: Link) {
    t.state == Offline && !t.inFlight && !t.outside.socket.Open? && t.discovery.required
  }

  lemma UnwrittenIsLost(o: Oracle, s: Link)
    requires Alone(s) && !Answers(o, s, 0)
    ensures IsLost(Greet(o, s))
  {
    LostShows(o, Ask(o, Greeted(Touched(s))).0);
  }

  lemma UnsentIsLost(o: Oracle, s: Link)
    requires Alone(s) && s.outside.socket.Open? && !(Answers(o, s, 0) && Answers(o, s, 1))
    ensures IsLost(SendHello(o, s))
  {
    var named := s.(target := s.target.(token := PairedToken(s.paired, s.target.id)));
    TokenKeeps(s, PairedToken(s.paired, s.target.id));
    ConnectedKeeps(o, named);
    var (t, up) := ClientConnected(o, named);
    if up {
      UnwrittenIsLost(o, t);
    } else {
      LostShows(o, t);
    }
  }

  /** A hello that could not be written, like a socket that no longer answers, ends the connection. */
  lemma UnsaidIsLost(o: Oracle, s: Link)
    requires Inv(s) && s.outside.queue.Some? && s.outside.queue.value.connected
    requires !s.cancelled && Answers(o, s, 0) && !(Answers(o, s, 2) && Answers(o, s, 3))
    ensures IsLost(PollConnectionAttempt(o, s))
  {
    TakenIsAlone(s);
    var t := Ask(o, Taken(s)).0;
    assert Alone(t);
    UnsentIsLost(o, Fresh(o, t));
  }

  /** An attempt that did not connect leaves the device offline until its delay has passed. */
  lemma RefusedWaits(o: Oracle, s: Link)
    requires Inv(s) && s.outside.queue.Some? && !s.outside.queue.value.connected
    requires !s.cancelled && Answers(o, s, 0)
    ensures var t := PollConnectionAttempt(o, s);
            WaitsFrom(s, t, Clock(o, s, 1)) && !t.inFlight && t.history == s.history
  {
    TakenIsAlone(s);
    ScheduledWaits(o, Ask(o, Taken(s)).0);
  }

  /** A cancelled attempt, and one whose WiFi is gone, leave nothing open and nothing scheduled. */
  lemma CancelledIsDropped(o: Oracle, s: Link)
    requires Inv(s) && s.outside.queue.Some? && (s.cancelled || !Answers(o, s, 0))
    ensures var t := PollConnectionAttempt(o, s);
            && t.state == Offline && !t.inFlight && !t.cancelled && t.outside.socket == Closed
            && t.nextConnect == s.nextConnect && t.reconnectDelay == s.reconnectDelay && t.history == s.history
  {
  }

  // ---- The next attempt ------------------------------------------------------------------

  /** The socket was stopped and a worker is on its way to `m`, unless memory or the task were refused. */
  ghost predicate Dials(o: Oracle, s: Link, t: Link, m: Mac, k: nat) {
    if Answers(o, s, k) && Answers(o, s, k + 1) then
      && t.inFlight && !t.cancelled && t.state == Connecting && t.outside.socket == Closed
      && t.history.attempts
         == s.history.attempts + [Attempt(s.target.id, m.ip, m.port, (s.generation + 1) % CLOCK, true)]
      && t.outside.worker == Some(t.history.attempts[|s.history.attempts|])
    else WaitsFrom(s, t, Clock(o, s, if Answers(o, s, k) then k + 2 else k + 1)) && !t.inFlight
         && t.history.attempts == s.history.attempts
  }

  lemma CreateDials(o: Oracle, s: Link, m: Mac)
    requires Alone(s) && s.target.ip == m.ip && s.target.port == m.port && IsListed(s)
    requires s.state == Connecting && s.outside.socket == Closed
    ensures var t := CreateTask(o, s);
            if Answers(o, s, 0) then
              && t.inFlight && !t.cancelled && t.state == Connecting && t.outside.socket == Closed
              && t.history.attempts
                 == s.history.attempts + [Attempt(s.target.id, m.ip, m.port, (s.generation + 1) % CLOCK, true)]
              && t.outside.worker == Some(t.history.attempts[|s.history.attempts|])
            else WaitsFrom(s, t, Clock(o, s, 1)) && !t.inFlight && t.history.attempts == s.history.attempts
  {
    ScheduledWaits(o, Ask(o, s.(generation := NextGeneration(s.generation), cancelled := false)).0);
  }

  /** With a queue and a listed address, an attempt dials the address it was listed with. */
  lemma AttemptDials(o: Oracle, s: Link, m: Mac)
    requires Alone(s) && s.hasQueue && m in s.discovered && m.id == s.target.id && m.ip != 0
    ensures Dials(o, s, AttemptConnection(o, Retarget(s, m)), m, 0)
  {
    RetargetKeeps(s, m);
    var r := Retarget(s, m);
    ClearedKeeps(o, r);
    var (t, hasContext) := Ask(o, ClientStop(r).(state := Connecting));
    if hasContext {
      CreateDials(o, t, m);
    } else {
      ScheduledWaits(o, t);
    }
  }

  /** Without a queue for the result, or without an address, it waits for the delay and a new search. */
  lemma AttemptWaits(o: Oracle, s: Link)
    requires Alone(s) && (s.target.ip == 0 || !s.hasQueue)
    ensures var t := AttemptConnection(o, s);
            && t.history == s.history && !t.inFlight && t.state == s.state && t.outside.socket == s.outside.socket
            && t.nextConnect == (Clock(o, s, 0) + s.reconnectDelay) % CLOCK && t.discovery.required
  {
  }

  /** Where a reconnect goes once the deadline is reached: to the target as last listed, or on a search. */
  function Listed(s: Link): Option<Mac> {
    if s.discovery.required then None else FindMac(s.discovered, s.target.id)
  }

  lemma ReconnectIs(o: Oracle, s: Link, t: Link)
    requires t == Now(o, s).0
    ensures Reconnect(o, s)
            == if !DeadlineReached(Clock(o, s, 0), s.nextConnect) then t
               else match Listed(s) case Some(m) => AttemptConnection(o, Retarget(t, m))
                                    case None => StartDiscovery(o, t, true)
  {
  }

  /**
    A device that reconnects by itself dials its target once the deadline is reached, if the last search
    listed it and no new search is wanted; otherwise it searches, or waits.
   */
  lemma ReconnectDials(o: Oracle, s: Link)
    requires Alone(s) && s.hasQueue && (forall m :: m in s.discovered ==> m.ip != 0)
    ensures if DeadlineReached(Clock(o, s, 0), s.nextConnect) && Listed(s).Some?
            then Dials(o, s, Reconnect(o, s), Listed(s).value, 1)
            else Reconnect(o, s).history == s.history && !Reconnect(o, s).inFlight
  {
    JustAskKeeps(o, s);
    var (t, now) := Now(o, s);
    ReconnectIs(o, s, t);
    if DeadlineReached(now, s.nextConnect) {
      match Listed(s)
      case Some(m) =>
        AttemptDials(o, t, m);
        DialsFrom(o, s, t, AttemptConnection(o, Retarget(t, m)), m, 0, 1);
      case None => SearchSaysNothing(o, t, true);
    }
  }

  /** What Dials tells, seen from an earlier state: its questions come later by those asked between. */
  lemma DialsFrom(o: Oracle, s: Link, t: Link, u: Link, m: Mac, j: nat, k: nat)
    requires Dials(o, t, u, m, j) && t.outside.asked + j == s.outside.asked + k && t.history == s.history
    requires t.target == s.target && t.generation == s.generation && t.reconnectDelay == s.reconnectDelay
    ensures Dials(o, s, u, m, k)
  {
  }

  lemma SearchFailedSaysNothing(o: Oracle, s: Link, forReconnect: bool)
    requires !s.inFlight
    ensures SearchFailed(o, s, forReconnect).history == s.history && !SearchFailed(o, s, forReconnect).inFlight
  {
  }

  lemma StartSearchSaysNothing(o: Oracle, s: Link, forReconnect: bool)
    requires !s.inFlight
    ensures StartSearch(o, s, forReconnect).history == s.history && !StartSearch(o, s, forReconnect).inFlight
  {
    var t := Ask(o, s).0;
    SearchFailedSaysNothing(o, t.(discovery := t.discovery.(requested := false, forReconnect := false)), forReconnect);
  }

  lemma SearchSaysNothing(o: Oracle, s: Link, forReconnect: bool)
    requires !s.inFlight
    ensures StartDiscovery(o, s, forReconnect).history == s.history && !StartDiscovery(o, s, forReconnect).inFlight
  {
    var t := Ask(o, s).0;
    var (u, up) := ClientConnected(o, t);
    StartSearchSaysNothing(o, u.(state := if up then u.state else Discovering), forReconnect);
  }

  /**
    A Mac just chosen is due at once only while the clock is in the first half of its range: its deadline is
    0, which from 2^31 ms on is not reached before the clock starts over.
   */
  lemma ChoiceIsDueIff(o: Oracle, s: Link, index: nat, now: Millis)
    requires index < |s.discovered|
    ensures var t, m := ConnectToDiscovered(o, s, index), s.discovered[index];
            && (DeadlineReached(now, t.nextConnect) <==> now < CLOCK / 2)
            && t.target == Target(m.id, PairedToken(t.paired, m.id), m.ip, m.port)
            && !t.manualDisconnect && t.reconnectDelay == 1000 && !t.discovery.required && t.state == Offline
  {
  }

  // ---- Searches --------------------------------------------------------------------------

  /** The answers that came with an address. */
  function Usable(adverts: seq<Advert>): seq<Advert> {
    if adverts == [] then []
    else (if adverts[0].ip != 0 then [adverts[0]] else []) + Usable(adverts[1..])
  }

  ghost predicate Lists(m: Mac, a: Advert) {
    && m.ip == a.ip
    && m.id == (if a.id != "" then a.id else a.hostname)
    && m.port == (if a.port != 0 then a.port else 7788)
  }

  /** `macs` lists the first `room` of `adverts`, in order. */
  ghost predicate ListsFirst(macs: seq<Mac>, adverts: seq<Advert>, room: nat) {
    && |macs| == (if |adverts| < room then |adverts| else room)
    && forall i :: 0 <= i < |macs| ==> Lists(macs[i], adverts[i])
  }

  lemma ListsOneMore(m: Mac, a: Advert, macs: seq<Mac>, adverts: seq<Advert>, room: nat)
    requires Lists(m, a) && ListsFirst(macs, adverts, room)
    ensures ListsFirst([m] + macs, [a] + adverts, room + 1)
  {
  }

  /** A search lists its first eight usable answers, in order. */
  lemma {:induction false} CollectedListsFirst(adverts: seq<Advert>, room: nat)
    ensures ListsFirst(Collected(adverts, room), Usable(adverts), room)
  {
    if adverts != [] && room > 0 {
      var a, rest := adverts[0], adverts[1..];
      if a.ip == 0 {
        assert Usable(adverts) == Usable(rest);
        CollectedListsFirst(rest, room);
      } else {
        CollectedListsFirst(rest, room - 1);
        var m := Mac(if a.id == "" then a.hostname else a.id, a.ip, if a.port == 0 then CONTROL_PORT else a.port);
        ListsOneMore(m, a, Collected(rest, room - 1), Usable(rest), room - 1);
      }
    }
  }

  lemma {:induction false} CollectedHaveAddresses(adverts: seq<Advert>, room: nat)
    ensures forall m :: m in Collected(adverts, room) ==> m.ip != 0
  {
    if adverts != [] && room > 0 {
      CollectedHaveAddresses(adverts[1..], if adverts[0].ip == 0 then room else room - 1);
    }
  }

  lemma StartSearchSearches(o: Oracle, s: Link, forReconnect: bool)
    requires !s.inFlight && !s.discovery.searching
    ensures StartSearch(o, s, forReconnect).discovery.searching <==> Answers(o, s, 0)
  {
    var t := Ask(o, s).0;
    SearchFailedSearchesNot(o, t.(discovery := t.discovery.(requested := false, forReconnect := false)), forReconnect);
  }

  lemma SearchFailedSearchesNot(o: Oracle, s: Link, forReconnect: bool)
    requires !s.inFlight
    ensures SearchFailed(o, s, forReconnect).discovery.searching == s.discovery.searching
  {
  }

  lemma ShowSearchSearches(o: Oracle, s: Link, forReconnect: bool)
    requires !s.inFlight && !s.discovery.searching
    ensures ShowSearch(o, s, forReconnect).discovery.searching <==> Answers(o, s, 1)
  {
    var (t, up) := ClientConnected(o, s);
    StartSearchSearches(o, t.(state := if up then t.state else Discovering), forReconnect);
  }

  /** A search is under way after a request for one exactly if one was, or it can start and does. */
  lemma SearchesIff(o: Oracle, s: Link, forReconnect: bool)
    requires Alone(s)
    ensures StartDiscovery(o, s, forReconnect).discovery.searching
            <==> s.discovery.searching || (Answers(o, s, 0) && s.discovery.mdnsStarted && Answers(o, s, 2))
  {
    if !s.discovery.searching {
      ShowSearchSearches(o, Ask(o, s).0, forReconnect);
    }
  }

  /** The Mac a finished search is followed to, if it was made to reconnect. */
  function Found(s: Link, adverts: seq<Advert>): Option<Mac> {
    if s.discovery.forReconnect && !s.manualDisconnect && s.target.id != ""
    then FindMac(Collected(adverts, 8), s.target.id) else None
  }

  lemma FollowDials(o: Oracle, s: Link, found: Option<Mac>)
    requires Alone(s) && s.hasQueue && ReconnectsByItself(s)
    requires found.Some? ==> found.value in s.discovered && found.value.id == s.target.id && found.value.ip != 0
    ensures if found.Some? then Dials(o, s, Follow(o, s, true, found), found.value, 0)
            else Follow(o, s, true, found).history == s.history && !Follow(o, s, true, found).inFlight
  {
    if found.Some? {
      AttemptDials(o, s, found.value);
    }
  }

  lemma FollowsFound(o: Oracle, s: Link, v: Link, forReconnect: bool, found: Option<Mac>)
    requires Alone(v) && v.hasQueue && v.outside.asked == s.outside.asked + 2 && v.history == s.history
    requires v.target == s.target && v.generation == s.generation && v.reconnectDelay == s.reconnectDelay
    requires found.Some? ==> found.value in v.discovered && found.value.id == v.target.id && found.value.ip != 0
    ensures var t := Follow(o, v, forReconnect, found);
            if forReconnect && ReconnectsByItself(v) && found.Some? then Dials(o, s, t, found.value, 2)
            else t.history == s.history && !t.inFlight
  {
    if forReconnect && ReconnectsByItself(v) {
      FollowDials(o, v, found);
      if found.Some? {
        DialsFrom(o, s, v, Follow(o, v, true, found), found.value, 0, 2);
      }
    }
  }

  /** What a finished search shows before it is followed. */
  function Shown(o: Oracle, t: Link): Link {
    var (u, up) := ClientConnected(o, t);
    Noted(u, if up then u.state else Offline, if u.target.id == "" then None else FindMac(u.discovered, u.target.id))
  }

  lemma ShownKeepsTarget(o: Oracle, t: Link)
    requires Alone(t)
    ensures var v := Shown(o, t);
            && Alone(v) && v.outside.asked == t.outside.asked + 1 && v.history == t.history
            && v == t.(outside := v.outside, state := v.state, discovery := v.discovery)
  {
    ConnectedKeeps(o, t);
    ConnectedAsksOnce(o, t);
    var (u, up) := ClientConnected(o, t);
    var found := if u.target.id == "" then None else FindMac(u.discovered, u.target.id);
    NotedKeeps(u, if up then u.state else Offline, found);
  }

  lemma FinishDials(o: Oracle, s: Link, t: Link, forReconnect: bool, adverts: seq<Advert>)
    requires Alone(s) && s.hasQueue && !s.discovery.searching && s.discovery.forReconnect == forReconnect
    requires t.outside.asked == s.outside.asked + 1 && t.discovered == Collected(adverts, 8)
    requires t == s.(outside := t.outside, discovered := t.discovered, discovery := t.discovery)
    requires t.outside == s.outside.(asked := t.outside.asked) && !t.discovery.searching
    ensures var u := FinishDiscovery(o, t, forReconnect);
            if Found(s, adverts).Some? then Dials(o, s, u, Found(s, adverts).value, 2)
            else u.history == s.history && !u.inFlight
  {
    assert Alone(t);
    var v := Shown(o, t);
    ShownKeepsTarget(o, t);
    CollectedHaveAddresses(adverts, 8);
    FollowsFound(o, s, v, forReconnect, if t.target.id == "" then None else FindMac(t.discovered, t.target.id));
  }

  lemma ConnectedAsksOnce(o: Oracle, s: Link)
    requires Alone(s)
    ensures var t := ClientConnected(o, s).0;
            t.outside.asked == s.outside.asked + 1 && t.history == s.history
  {
  }

  /**
    A search made to reconnect dials the target at the address it was just found at; any other search, and
    one that does not find it, starts no attempt.
   */
  lemma FinishedSearchDials(o: Oracle, s: Link, adverts: seq<Advert>)
    requires Alone(s) && s.hasQueue && s.discovery.searching
    ensures var t := PollDiscovery(o, s, Some(adverts));
            if Answers(o, s, 0) && Found(s, adverts).Some? then Dials(o, s, t, Found(s, adverts).value, 2)
            else t.history == s.history && !t.inFlight
  {
    if Answers(o, s, 0) {
      var ended := s.(discovery := s.discovery.(searching := false));
      var t := Ask(o, s.(discovery := s.discovery.(searching := false, forReconnect := false))).0;
      PollFinishes(o, s, t, adverts);
      assert Alone(ended);
      FinishDials(o, ended, t.(discovered := Collected(adverts, 8)), s.discovery.forReconnect, adverts);
      if Found(s, adverts).Some? {
        DialsFrom(o, s, ended, PollDiscovery(o, s, Some(adverts)), Found(s, adverts).value, 2, 2);
      }
    }
  }

  lemma PollFinishes(o: Oracle, s: Link, t: Link, adverts: seq<Advert>)
    requires s.discovery.searching && Answers(o, s, 0)
    requires t == Ask(o, s.(discovery := s.discovery.(searching := false, forReconnect := false))).0
    ensures PollDiscovery(o, s, Some(adverts))
            == FinishDiscovery(o, t.(discovered := Collected(adverts, 8)), s.discovery.forReconnect)
  {
  }

  // ---- A tick without a live socket ------------------------------------------------------

  /**
    A device without a connection dials its target in a tick exactly if it reconnects by itself, no search
    runs, and the target is listed and due; question 0 is the socket, 1 the time.
   */
  lemma ServeDials(o: Oracle, s: Link, lines: seq<Message>)
    requires Alone(s) && s.hasQueue && (forall m :: m in s.discovered ==> m.ip != 0)
    requires !s.outside.socket.Open? && !ExpectsSocket(s.state)
    ensures var t := Serve(o, s, lines);
            if ReconnectsByItself(s) && !s.discovery.searching
               && DeadlineReached(Clock(o, s, 1), s.nextConnect) && Listed(s).Some?
            then Dials(o, s, t, Listed(s).value, 2)
            else t.history == s.history && !t.inFlight
  {
    ConnectedKeeps(o, s);
    var t := ClientConnected(o, s).0;
    if ReconnectsByItself(t) && !t.discovery.searching {
      ReconnectDials(o, t);
      if DeadlineReached(Clock(o, s, 1), s.nextConnect) && Listed(s).Some? {
        DialsFrom(o, s, t, Serve(o, s, lines), Listed(s).value, 1, 2);
      }
    }
  }

  // ---- Messages --------------------------------------------------------------------------

  lemma {:induction false} StoredTokenIsFound(paired: seq<PairedMac>, id: Id, token: Token, other: Id)
    ensures PairedToken(StoreToken(paired, id, token), other)
            == if other == id then token else PairedToken(paired, other)
    ensures |StoreToken(paired, id, token)| == if IsPaired(paired, id) then |paired| else |paired| + 1
  {
    if paired != [] && paired[0].id != id {
      var rest := paired[1..];
      StoredTokenIsFound(rest, id, token, other);
      IsPairedInRest(paired, id);
      assert StoreToken(paired, id, token)[1..] == StoreToken(rest, id, token);
    } else if paired != [] {
      assert StoreToken(paired, id, token)[1..] == paired[1..];
    }
  }

  lemma IsPairedInRest(paired: seq<PairedMac>, id: Id)
    requires paired != [] && paired[0].id != id
    ensures IsPaired(paired, id) <==> IsPaired(paired[1..], id)
  {
    assert paired == [paired[0]] + paired[1..];
  }

  lemma {:induction false} ForgottenTokenIsGone(paired: seq<PairedMac>, id: Id, other: Id)
    ensures PairedToken(ForgetToken(paired, id), other) == if other == id then "" else PairedToken(paired, other)
  {
    if paired != [] {
      ForgottenTokenIsGone(paired[1..], id, other);
      assert paired[0].id != id ==> ForgetToken(paired, id)[1..] == ForgetToken(paired[1..], id);
      assert paired[0].id == id ==> ForgetToken(paired, id)[1..] == paired[1..];
    }
  }

  /** A pairing is accepted with a whole token, from a Mac known or with room for one more. */
  predicate AcceptsPairing(s: Link, token: Token) {
    |token| >= 64 && (IsPaired(s.paired, s.target.id) || |s.paired| < 4)
  }

  /** A message that a connected device ignores: a forged one. */
  predicate Ignores(s: Link, m: Message) {
    match m
    case Pong(token) => s.state == Connected && token != s.target.token
    case Ping(token) => s.state == Connected && token != s.target.token
    case Snapshot(token) => s.state == Connected && token != s.target.token
    case _ => false
  }

  lemma ForgedIsIgnored(o: Oracle, s: Link, m: Message)
    requires Ignores(s, m)
    ensures HandleLine(o, s, m) == s
  {
  }

  /** The state the device shows after a message it does not ignore. */
  ghost predicate ShowsAfter(o: Oracle, s: Link, m: Message, shown: LinkState) {
    match m
    case UpgradeRequired => shown == Incompatible
    case PairRequired => shown == AwaitingPairCode
    case PairError => shown == AwaitingPairCode
    case Paired(token) => shown == if AcceptsPairing(s, token) then Connected else Offline
    case HelloOk => shown == Connected
    case AuthError => shown == if Answers(o, s, 0) && Answers(o, s, 1) then AwaitingPairCode else Offline
    case _ => shown == s.state
  }

  lemma LinkUpShows(o: Oracle, s: Link)
    requires !s.inFlight
    ensures LinkUp(o, s).state == Connected && LinkUp(o, s).reconnectDelay == 1000
    ensures LinkUp(o, s).paired == s.paired && LinkUp(o, s).target == s.target
  {
  }

  lemma PairedShows(o: Oracle, s: Link, token: Token)
    requires !s.inFlight
    ensures TakePaired(o, s, token).state == if AcceptsPairing(s, token) then Connected else Offline
    ensures TakePaired(o, s, token).paired
            == if AcceptsPairing(s, token) then StoreToken(s.paired, s.target.id, token) else s.paired
  {
    LostShows(o, s);
    var t := s.(target := s.target.(token := token));
    LostShows(o, t);
    LinkUpShows(o, t.(paired := StoreToken(s.paired, s.target.id, token)));
  }

  lemma ForgottenIsAlone(s: Link)
    requires Alone(s) && s.outside.socket.Open?
    ensures var t := Forgotten(s);
            && Alone(t) && t.outside == s.outside && t.history == s.history
            && t.outside.socket == Open(t.target.id) && NextHello(t) == Hello(s.target.id, "", Open(s.target.id))
  {
    ForgottenTokenIsGone(s.paired, s.target.id, s.target.id);
    var t := Forgotten(s);
    MessageKeeps(s, t.paired, "", AwaitingPairCode, s.missedPongs, s.manualDisconnect, s.reconnectDelay);
  }

  lemma GreetingAsksCode(o: Oracle, s: Link)
    requires Alone(s) && s.outside.socket.Open? && PairedToken(s.paired, s.target.id) == ""
    requires Answers(o, s, 0) && Answers(o, s, 1)
    ensures SendHello(o, s).state == AwaitingPairCode
  {
  }

  lemma RefusalShows(o: Oracle, s: Link)
    requires Alone(s) && s.outside.socket.Open?
    ensures TakeRefusal(o, s).state == if Answers(o, s, 0) && Answers(o, s, 1) then AwaitingPairCode else Offline
  {
    ForgottenIsAlone(s);
    if Answers(o, s, 0) && Answers(o, s, 1) {
      GreetingAsksCode(o, Forgotten(s));
    } else {
      UnsentIsLost(o, Forgotten(s));
    }
  }

  /** A token refused is followed by a hello without one, while the socket answers. */
  lemma RefusalGreets(o: Oracle, s: Link)
    requires Alone(s) && s.outside.socket.Open?
    ensures HandleLine(o, s, AuthError).history.hellos
            == if Answers(o, s, 0) then s.history.hellos + [Hello(s.target.id, "", Open(s.target.id))]
               else s.history.hellos
  {
    ForgottenIsAlone(s);
    HelloOfSend(o, Forgotten(s));
  }

  /** While the socket is open, each message leads to the state it stands for. */
  lemma MessageShows(o: Oracle, s: Link, m: Message)
    requires Alone(s) && s.outside.socket.Open? && !Ignores(s, m)
    ensures ShowsAfter(o, s, m, HandleLine(o, s, m).state)
  {
    match m
    case Paired(token) => PairedShows(o, s, token);
    case HelloOk => LinkUpShows(o, s);
    case AuthError => RefusalShows(o, s);
    case _ =>
  }

  /** The device becomes connected exactly by a hello that is accepted or a pairing it accepts. */
  lemma ConnectedIff(o: Oracle, s: Link, m: Message)
    requires Alone(s) && s.outside.socket.Open? && s.state != Connected
    ensures HandleLine(o, s, m).state == Connected
            <==> m.HelloOk? || (m.Paired? && AcceptsPairing(s, m.token))
  {
    MessageShows(o, s, m);
  }

  /** The pairings after a message. */
  function PairedAfter(s: Link, m: Message): seq<PairedMac> {
    match m
    case Paired(token) => if AcceptsPairing(s, token) then StoreToken(s.paired, s.target.id, token) else s.paired
    case AuthError => ForgetToken(s.paired, s.target.id)
    case _ => s.paired
  }

  lemma HelloKeepsPaired(o: Oracle, s: Link)
    requires !s.inFlight
    ensures SendHello(o, s).paired == s.paired
  {
    var named := s.(target := s.target.(token := PairedToken(s.paired, s.target.id)));
    var (t, up) := ClientConnected(o, named);
    LostShows(o, t);
    LostShows(o, Ask(o, Greeted(Touched(t))).0);
  }

  lemma MessagePairs(o: Oracle, s: Link, m: Message)
    requires Alone(s)
    ensures HandleLine(o, s, m).paired == PairedAfter(s, m)
  {
    match m
    case Paired(token) => PairedShows(o, s, token);
    case AuthError => HelloKeepsPaired(o, Forgotten(s));
    case HelloOk => LinkUpShows(o, s);
    case _ =>
  }

  /** A pairing accepted is stored for its Mac, a token refused is forgotten, and no other Mac's changes. */
  lemma TokensAfter(o: Oracle, s: Link, m: Message, id: Id)
    requires Alone(s)
    ensures PairedToken(HandleLine(o, s, m).paired, id)
            == if id == s.target.id && m.Paired? && AcceptsPairing(s, m.token) then m.token
               else if id == s.target.id && m.AuthError? then ""
               else PairedToken(s.paired, id)
  {
    MessagePairs(o, s, m);
    if m.Paired? {
      StoredTokenIsFound(s.paired, s.target.id, m.token, id);
    }
    ForgottenTokenIsGone(s.paired, s.target.id, id);
  }

  // ---- Heartbeat -------------------------------------------------------------------------

  /** Question 0 is the time, 1 the socket, 2 the ping's write. */
  predicate IsBeatDue(o: Oracle, s: Link) {
    Elapsed(Clock(o, s, 0), s.lastHeartbeat) >= 5000
  }

  /**
    A connection outlives a heartbeat exactly if none is due, or the ping goes out and fewer than three
    stand unanswered.
   */
  lemma OutlivesBeatIff(o: Oracle, s: Link)
    requires Alone(s) && s.outside.socket.Open? && s.missedPongs < 255
    ensures Heartbeat(o, s).outside.socket.Open?
            <==> (IsBeatDue(o, s) ==> Answers(o, s, 1) && Answers(o, s, 2) && s.missedPongs + 1 < 3)
  {
    JustAskKeeps(o, s);
    BeatOutlives(o, Now(o, s).0, Now(o, s).1);
  }

  lemma SendOutlives(o: Oracle, s: Link)
    requires Alone(s) && s.outside.socket.Open?
    ensures var (t, sent) := SendDocument(o, s);
            && Alone(t) && t.missedPongs == s.missedPongs && sent == (Answers(o, s, 0) && Answers(o, s, 1))
            && t.outside.socket.Open? == Answers(o, s, 0)
  {
    SendKeeps(o, s);
  }

  lemma PingedOutlives(o: Oracle, s: Link, sent: bool, now: Millis)
    requires Alone(s) && s.missedPongs < 255
    ensures Pinged(o, s, sent, now).outside.socket.Open?
            <==> s.outside.socket.Open? && sent && s.missedPongs + 1 < 3
  {
    LostShows(o, s);
    LostShows(o, s.(missedPongs := s.missedPongs + 1));
  }

  lemma BeatOutlives(o: Oracle, s: Link, now: Millis)
    requires Alone(s) && s.outside.socket.Open? && s.missedPongs < 255
    ensures Beat(o, s, now).outside.socket.Open? <==> Answers(o, s, 0) && Answers(o, s, 1) && s.missedPongs + 1 < 3
  {
    SendOutlives(o, s);
    var (t, sent) := SendDocument(o, s);
    PingedOutlives(o, t, sent, now);
  }

  // ---- What the user sends ---------------------------------------------------------------

  /** A key goes out exactly while connected, on a socket that answers twice and takes the line. */
  lemma KeySendsIff(o: Oracle, s: Link)
    requires Alone(s)
    ensures KeySends(o, s)
            <==> s.state == Connected && s.outside.socket.Open?
                 && Answers(o, s, 0) && Answers(o, s, 1) && Answers(o, s, 2)
  {
  }

  /** A pair code goes out exactly if it has six digits, whatever the state, on a socket that answers twice. */
  lemma SubmitSendsIff(o: Oracle, s: Link, isSixDigits: bool)
    requires Alone(s)
    ensures SubmitSends(o, s, isSixDigits)
            <==> isSixDigits && s.outside.socket.Open? && Answers(o, s, 0) && Answers(o, s, 1) && Answers(o, s, 2)
  {
  }

  // ---- A run that ends in a hello --------------------------------------------------------

  /** The search for "m", whose stored token is "t", is under way; nothing was said yet. */
  ghost predicate SearchesM(s: Link) {
    && Searches(s) && Inv(s) && !s.discovery.requested && s.paired == [PairedMac("m", "t")] && s.history.hellos == []
  }

  /** A worker dials "m". */
  ghost predicate DialsM(s: Link) {
    && Inv(s) && s.inFlight && !s.cancelled && s.outside.worker.Some?
    && s.discovery.mdnsStarted && !s.discovery.requested
    && s.target.id == "m" && s.paired == [PairedMac("m", "t")] && s.history.hellos == []
  }

  /** The worker has connected to "m". */
  ghost predicate ReachesM(s: Link) {
    && Inv(s) && s.hasQueue && !s.cancelled && s.outside.queue.Some? && s.outside.queue.value.connected
    && s.discovery.mdnsStarted && !s.discovery.requested
    && s.target.id == "m" && s.paired == [PairedMac("m", "t")] && s.history.hellos == []
  }

  /** "m" was greeted, and its answer is waited for. */
  ghost predicate HasGreetedM(s: Link) {
    && Alone(s) && s.outside.socket == Open("m") && s.lastHeartbeat == 0
    && s.discovery.mdnsStarted && !s.discovery.requested
    && s.history.hellos == [Hello("m", "t", Open("m"))] && s.state == Authenticating
  }

  lemma SearchMBegins(s: Link, tick: Event)
    requires s == Begin([PairedMac("m", "t")], "m", true) && tick == Ticks(None, [])
    ensures SearchesM(Step(Yes(), s, tick))
  {
    StepFollows(Yes(), s, tick);
    SearchBegins();
  }

  lemma FindsM(s: Link)
    requires SearchesM(s)
    ensures DialsM(PollDiscovery(Yes(), s, Some([Advert("m", "", 1, 0)])))
  {
    var adverts := [Advert("m", "", 1, 0)];
    var m := Mac("m", 1, CONTROL_PORT);
    assert Collected(adverts, 8) == [m];
    assert FindMac([m], "m") == Some(m);
    PollDiscoveryKeeps(Yes(), s, Some(adverts));
    FinishedSearchDials(Yes(), s, adverts);
  }

  lemma DialingTicks(s: Link, search: Option<seq<Advert>>)
    requires DialsM(PollDiscovery(Yes(), s, search))
    ensures DialsM(Tick(Yes(), s, search, []))
  {
    var t := PollDiscovery(Yes(), s, search);
    assert PollConnectionAttempt(Yes(), t) == t;
    JustAskKeeps(Yes(), t);
  }

  lemma WorkerReaches(s: Link)
    requires DialsM(s)
    ensures ReachesM(WorkerDone(s, true))
  {
    WorkerKeeps(s, true);
  }

  lemma PollGreets(s: Link)
    requires ReachesM(s)
    ensures HasGreetedM(PollConnectionAttempt(Yes(), s))
  {
    var t := PollConnectionAttempt(Yes(), s);
    PollConnectionKeeps(Yes(), s);
    HelloIff(Yes(), s);
    GreetsAwaits(Yes(), s);
    PollKeepsDiscovery(s);
    assert PairedToken(s.paired, "m") == "t";
  }

  lemma PollKeepsDiscovery(s: Link)
    requires ReachesM(s)
    ensures PollConnectionAttempt(Yes(), s).discovery == s.discovery
  {
    TakenIsAlone(s);
  }

  lemma GreetedServes(s: Link)
    requires HasGreetedM(s)
    ensures HasGreetedM(Serve(Yes(), ServeRequest(Yes(), StartMdns(Yes(), Ask(Yes(), s).0)), []))
  {
    var t := Ask(Yes(), s).0;
    JustAskKeeps(Yes(), s);
    assert ServeRequest(Yes(), StartMdns(Yes(), t)) == t;
    ConnectedKeeps(Yes(), t);
    var u := ClientConnected(Yes(), t).0;
    HeartbeatKeeps(Yes(), u);
    assert ReadIncoming(Yes(), u, []) == u;
    assert Heartbeat(Yes(), u) == Now(Yes(), u).0;
  }

  lemma ReachedTicks(s: Link)
    requires ReachesM(s)
    ensures HasGreetedM(Tick(Yes(), s, None, []))
  {
    assert PollDiscovery(Yes(), s, None) == s;
    PollGreets(s);
    GreetedServes(PollConnectionAttempt(Yes(), s));
  }

  lemma {:induction false} InTurns(o: Oracle, s: Link, a: Event, b: Event, c: Event, d: Event)
    ensures Run(o, s, [a, b, c, d]) == Step(o, Step(o, Step(o, Step(o, s, a), b), c), d)
  {
    assert [a, b, c, d][1..] == [b, c, d];
    InTurn(o, Step(o, s, a), b, c, d);
  }

  lemma GreetsInTurn(s: Link, tick: Event, search: Event, done: Event)
    requires SearchesM(s) && tick == Ticks(None, []) && done == Finishes(true)
    requires search == Ticks(Some([Advert("m", "", 1, 0)]), [])
    ensures HasGreetedM(Step(Yes(), Step(Yes(), Step(Yes(), s, search), done), tick))
  {
    FindsM(s);
    DialingTicks(s, search.search);
    WorkerReaches(Step(Yes(), s, search));
    ReachedTicks(Step(Yes(), Step(Yes(), s, search), done));
  }

  lemma GreetingIn(begin: Link, tick: Event, search: Event, done: Event)
    requires begin == Begin([PairedMac("m", "t")], "m", true) && tick == Ticks(None, []) && done == Finishes(true)
    requires search == Ticks(Some([Advert("m", "", 1, 0)]), [])
    ensures HasGreetedM(Run(Yes(), begin, [tick, search, done, tick]))
  {
    SearchMBegins(begin, tick);
    GreetsInTurn(Step(Yes(), begin, tick), tick, search, done);
    InTurns(Yes(), begin, tick, search, done, tick);
  }

  /**
    From the start: a search finds the Mac, the worker connects to it, and the one hello said goes out on the
    socket opened for it, with its token.
   */
  lemma HelloHappens()
    ensures var events := [Ticks(None, []), Ticks(Some([Advert("m", "", 1, 0)]), []), Finishes(true), Ticks(None, [])];
            var s := Run(Yes(), Begin([PairedMac("m", "t")], "m", true), events);
            s.history.hellos == [Hello("m", "t", Open("m"))] && s.state == Authenticating
  {
    GreetingIn(Begin([PairedMac("m", "t")], "m", true), Ticks(None, []),
               Ticks(Some([Advert("m", "", 1, 0)]), []), Finishes(true));
  }

  // ---- A run that ends connected ---------------------------------------------------------

  ghost predicate IsConnectedM(s: Link) {
    && Alone(s) && s.outside.socket == Open("m") && s.lastHeartbeat == 0 && s.state == Connected
  }

  lemma LinkUpConnectsM(s: Link)
    requires HasGreetedM(s)
    ensures IsConnectedM(ReadIncoming(Yes(), s, [HelloOk]))
  {
    assert Touched(s) == s;
    var t := HandleLine(Yes(), s, HelloOk);
    HandleKeeps(Yes(), s, HelloOk);
    LinkUpShows(Yes(), s);
    assert IsConnectedM(t);
    assert [HelloOk][1..] == [];
    assert ReadIncoming(Yes(), t, []) == t;
    assert ReadIncoming(Yes(), s, [HelloOk]) == ReadIncoming(Yes(), t, [HelloOk][1..]);
  }

  lemma BeatlessKeepsM(s: Link)
    requires IsConnectedM(s)
    ensures IsConnectedM(Heartbeat(Yes(), s))
  {
    assert Heartbeat(Yes(), s) == Now(Yes(), s).0;
    HeartbeatKeeps(Yes(), s);
  }

  lemma AnsweredTicks(s: Link)
    requires HasGreetedM(s)
    ensures IsConnectedM(Tick(Yes(), s, None, [HelloOk]))
  {
    assert Polled(Yes(), s, None) == s;
    var t := Ask(Yes(), s).0;
    JustAskKeeps(Yes(), s);
    assert ServeRequest(Yes(), StartMdns(Yes(), t)) == t;
    ConnectedKeeps(Yes(), t);
    var u := ClientConnected(Yes(), t).0;
    assert HasGreetedM(u);
    LinkUpConnectsM(u);
    BeatlessKeepsM(ReadIncoming(Yes(), u, [HelloOk]));
  }

  lemma {:induction false} RunAppends(o: Oracle, s: Link, events: seq<Event>, e: Event)
    ensures Run(o, s, events + [e]) == Step(o, Run(o, s, events), e)
    decreases |events|
  {
    if events == [] {
      assert events + [e] == [e] && [e][1..] == [];
    } else {
      assert (events + [e])[1..] == events[1..] + [e];
      RunAppends(o, Step(o, s, events[0]), events[1..], e);
    }
  }

  lemma AnswerConnects(begin: Link, events: seq<Event>, answer: Event)
    requires HasGreetedM(Run(Yes(), begin, events)) && answer == Ticks(None, [HelloOk])
    ensures IsConnectedM(Run(Yes(), begin, events + [answer]))
  {
    AnsweredTicks(Run(Yes(), begin, events));
    RunAppends(Yes(), begin, events, answer);
  }

  lemma ConnectingIn(begin: Link, tick: Event, search: Event, done: Event, answer: Event)
    requires begin == Begin([PairedMac("m", "t")], "m", true) && tick == Ticks(None, []) && done == Finishes(true)
    requires search == Ticks(Some([Advert("m", "", 1, 0)]), []) && answer == Ticks(None, [HelloOk])
    ensures IsConnectedM(Run(Yes(), begin, [tick, search, done, tick, answer]))
  {
    GreetingIn(begin, tick, search, done);
    AnswerConnects(begin, [tick, search, done, tick], answer);
    assert [tick, search, done, tick] + [answer] == [tick, search, done, tick, answer];
  }

  /** The hello is answered, and the device is connected to the Mac it greeted. */
  lemma ConnectedHappens()
    ensures var events := [Ticks(None, []), Ticks(Some([Advert("m", "", 1, 0)]), []), Finishes(true), Ticks(None, []),
                           Ticks(None, [HelloOk])];
            var s := Run(Yes(), Begin([PairedMac("m", "t")], "m", true), events);
            s.state == Connected && s.outside.socket == Open("m")
  {
    ConnectingIn(Begin([PairedMac("m", "t")], "m", true), Ticks(None, []), Ticks(Some([Advert("m", "", 1, 0)]), []),
                 Finishes(true), Ticks(None, [HelloOk]));
  }

  // ---- Losing WiFi -----------------------------------------------------------------------

  lemma WifiLostShows(o: Oracle, s: Link)
    requires Inv(s)
    ensures var t := WifiLost(o, s);
            && t.state == Offline && t.discovered == [] && t.discovery.required && !t.discovery.requested
            && (t.discovery.mdnsStarted <==> s.discovery.mdnsStarted && s.discovery.searching)
  {
    CancelSaysNothing(o, s);
  }

  /**
    A tick that finds WiFi gone leaves the device offline, without a list of Macs and wanting a new search; a
    worker in flight is cancelled, and otherwise no socket stays open; mDNS goes on only for a search under way.
   */
  lemma WifiLossLaw(o: Oracle, s: Link, search: Option<seq<Advert>>, lines: seq<Message>)
    requires Inv(s) && !Ask(o, Polled(o, s, search)).1
    ensures var polled, t := Polled(o, s, search), Tick(o, s, search, lines);
            && t.state == Offline && t.discovered == [] && t.discovery.required && !t.discovery.requested
            && (if t.inFlight then t.cancelled else !t.outside.socket.Open?)
            && (t.discovery.mdnsStarted <==> polled.discovery.mdnsStarted && polled.discovery.searching)
  {
    TickKeeps(o, s, search, lines);
    PollsKeep(o, s, search);
    WifiLostShows(o, Ask(o, Polled(o, s, search)).0);
  }

  // ---- Requests, messages in turn, and lost sockets --------------------------------------

  /** A request for a search is noted while WiFi is up. */
  lemma RequestIsNotedIff(o: Oracle, s: Link)
    ensures RequestDiscovery(o, s).discovery.requested <==> s.discovery.requested || Answers(o, s, 0)
  {
  }

  /** A search that was asked for starts with the next tick that can start one. */
  lemma RequestIsServedIff(o: Oracle, s: Link)
    requires Alone(s)
    ensures var k := if ReconnectsByItself(s) then 1 else 0;
            ServeRequest(o, s).discovery.searching
            <==> s.discovery.searching
                 || (s.discovery.requested && Answers(o, s, k) && s.discovery.mdnsStarted && Answers(o, s, k + 2))
  {
    if s.discovery.requested {
      var t := if ReconnectsByItself(s) then Now(o, s).0 else s;
      JustAskKeeps(o, s);
      SearchesIff(o, t, ReconnectsByItself(s) && DeadlineReached(Now(o, s).1, s.nextConnect));
    }
  }

  lemma StartedIsFor(o: Oracle, s: Link, forReconnect: bool)
    requires !s.inFlight && !s.discovery.searching
    ensures var t := StartSearch(o, s, forReconnect);
            t.discovery.searching ==> t.discovery.forReconnect == forReconnect
  {
    var t := Ask(o, s).0;
    SearchFailedSearchesNot(o, t.(discovery := t.discovery.(requested := false, forReconnect := false)), forReconnect);
  }

  lemma ShownIsFor(o: Oracle, s: Link, forReconnect: bool)
    requires !s.inFlight && !s.discovery.searching
    ensures var t := ShowSearch(o, s, forReconnect);
            t.discovery.searching ==> t.discovery.forReconnect == forReconnect
  {
    var (t, up) := ClientConnected(o, s);
    StartedIsFor(o, t.(state := if up then t.state else Discovering), forReconnect);
  }

  /** A search is made to reconnect if it was started, or asked for meanwhile, to that end. */
  lemma SearchIsForReconnectIff(o: Oracle, s: Link, forReconnect: bool)
    requires Alone(s) && Answers(o, s, 0) && s.discovery.mdnsStarted
    ensures var t := StartDiscovery(o, s, forReconnect);
            t.discovery.searching ==>
              t.discovery.forReconnect == (forReconnect || (s.discovery.searching && s.discovery.forReconnect))
  {
    if !s.discovery.searching {
      ShownIsFor(o, Ask(o, s).0, forReconnect);
    }
  }

  /** A Mac that asks for an upgrade is left, and not tried again by itself. */
  lemma UpgradeStops(o: Oracle, s: Link)
    requires Alone(s)
    ensures var t := HandleLine(o, s, UpgradeRequired);
            t.state == Incompatible && t.outside.socket == Closed && !ReconnectsByItself(t) && Alone(t)
  {
    UpgradeKeeps(s);
  }

  /** A pairing is deleted, the others keep their order; its own connection ends, and its target is forgotten. */
  lemma DeletionLaw(o: Oracle, s: Link, index: nat, i: nat)
    requires index < |s.paired|
    ensures var t := DeletePairing(o, s, index);
            && |t.paired| == |s.paired| - 1
            && (i < |t.paired| ==> t.paired[i] == s.paired[if i < index then i else i + 1])
            && (if s.state == Connected && s.paired[index].id == s.target.id
                then t.state == Offline && t.target.id == "" && t.target.token == "" && t.manualDisconnect
                else t.state == s.state && t.target == s.target && t.manualDisconnect == s.manualDisconnect)
  {
  }

  /** Lines are handled one after the other, all that have come. */
  lemma {:induction false} ReadsInTurn(o: Oracle, s: Link, a: seq<Message>, b: seq<Message>)
    requires Alone(s)
    ensures ReadIncoming(o, s, a + b) == ReadIncoming(o, ReadIncoming(o, s, a), b)
    decreases |a|
  {
    assert Touched(s) == s;
    if a == [] {
      assert a + b == b;
    } else if s.outside.socket.Closed? {
      assert ReadIncoming(o, s, a) == s;
    } else {
      HandleKeeps(o, s, a[0]);
      assert (a + b)[1..] == a[1..] + b;
      ReadsInTurn(o, HandleLine(o, s, a[0]), a[1..], b);
    }
  }

  /** A line alone is handled unless the socket was stopped. */
  lemma ReadsOne(o: Oracle, s: Link, m: Message)
    requires Alone(s)
    ensures ReadIncoming(o, s, [m]) == if s.outside.socket.Closed? then s else HandleLine(o, s, m)
  {
    HandleKeeps(o, s, m);
    assert [m][1..] == [];
  }

  /** A pong clears the count of missed ones; a ping is answered, on the socket if it still is one. */
  lemma PongLaw(o: Oracle, s: Link, m: Message)
    requires Alone(s) && s.outside.socket.Open? && !Ignores(s, m) && (m.Pong? || m.Ping?)
    ensures var t := HandleLine(o, s, m);
            && t.missedPongs == (if m.Pong? then 0 else s.missedPongs)
            && (t.outside.socket.Open? <==> m.Pong? || Answers(o, s, 0))
  {
  }

  lemma BeatenCounts(o: Oracle, s: Link, now: Millis)
    requires Alone(s) && s.outside.socket.Open? && s.missedPongs + 1 < 3 && Answers(o, s, 0) && Answers(o, s, 1)
    ensures Beat(o, s, now).missedPongs == s.missedPongs + 1 && Beat(o, s, now).lastHeartbeat == now
  {
    SendOutlives(o, s);
  }

  /** A heartbeat survived counts one more missing pong, and the next is due 5 s after it. */
  lemma BeatCounts(o: Oracle, s: Link)
    requires Alone(s) && s.outside.socket.Open? && s.missedPongs + 1 < 3 && Answers(o, s, 1) && Answers(o, s, 2)
    ensures var t := Heartbeat(o, s);
            if IsBeatDue(o, s) then t.missedPongs == s.missedPongs + 1 && t.lastHeartbeat == Clock(o, s, 0)
            else t.missedPongs == s.missedPongs && t.lastHeartbeat == s.lastHeartbeat
  {
    JustAskKeeps(o, s);
    if IsBeatDue(o, s) {
      BeatenCounts(o, Now(o, s).0, Now(o, s).1);
    }
  }

  // ---- A socket that died ----------------------------------------------------------------

  /** A state that takes a connection for granted. */
  predicate TakesConnection(state: LinkState) {
    state == Connected || state == Authenticating || state == AwaitingPairCode
  }

  lemma FailedSearchShows(o: Oracle, s: Link, forReconnect: bool)
    requires !s.inFlight && !TakesConnection(s.state)
    ensures !TakesConnection(SearchFailed(o, s, forReconnect).state)
  {
  }

  lemma StartSearchShows(o: Oracle, s: Link, forReconnect: bool)
    requires !s.inFlight && !TakesConnection(s.state)
    ensures !TakesConnection(StartSearch(o, s, forReconnect).state)
  {
    var t := Ask(o, s).0;
    FailedSearchShows(o, t.(discovery := t.discovery.(requested := false, forReconnect := false)), forReconnect);
  }

  lemma SearchShows(o: Oracle, s: Link, forReconnect: bool)
    requires !s.inFlight && !TakesConnection(s.state)
    ensures !TakesConnection(StartDiscovery(o, s, forReconnect).state)
  {
    var (t, up) := ClientConnected(o, Ask(o, s).0);
    StartSearchShows(o, t.(state := if up then t.state else Discovering), forReconnect);
  }

  lemma AttemptShows(o: Oracle, s: Link)
    requires !TakesConnection(s.state)
    ensures !TakesConnection(AttemptConnection(o, s).state)
  {
  }

  lemma ReconnectShows(o: Oracle, s: Link)
    requires !s.inFlight && !TakesConnection(s.state)
    ensures !TakesConnection(Reconnect(o, s).state)
  {
    var t := Now(o, s).0;
    ReconnectIs(o, s, t);
    SearchShows(o, t, true);
    if Listed(s).Some? {
      AttemptShows(o, Retarget(t, Listed(s).value));
    }
  }

  /** A tick that finds the socket dead does not leave the device in a state that takes it for alive. */
  lemma DeadSocketShows(o: Oracle, s: Link, lines: seq<Message>)
    requires Alone(s) && !(s.outside.socket.Open? && Answers(o, s, 0))
    ensures !TakesConnection(Serve(o, s, lines).state)
  {
    ConnectedKeeps(o, s);
    var t := ClientConnected(o, s).0;
    LostShows(o, t);
    ReconnectShows(o, if TakesConnection(t.state) then ConnectionLost(o, t) else t);
  }

  // ---- What a finished search leaves -----------------------------------------------------

  lemma UnfollowedShows(o: Oracle, s: Link)
    requires Alone(s)
    ensures var t := FinishDiscovery(o, s, false);
            && t.discovered == s.discovered && t.discovery.searching == s.discovery.searching
            && (t.discovery.required <==> s.target.id != "" && FindMac(s.discovered, s.target.id).None?)
            && t.state == (if s.outside.socket.Open? && Answers(o, s, 0) then s.state else Offline)
  {
    ConnectedKeeps(o, s);
  }

  /** A search not made to reconnect leaves the list it found, and wants another if the target is not in it. */
  lemma FinishedSearchShows(o: Oracle, s: Link, adverts: seq<Advert>)
    requires Alone(s) && s.discovery.searching && !s.discovery.forReconnect && Answers(o, s, 0)
    ensures var t, macs := PollDiscovery(o, s, Some(adverts)), Collected(adverts, 8);
            && t.discovered == macs && !t.discovery.searching
            && (t.discovery.required <==> s.target.id != "" && forall m :: m in macs ==> m.id != s.target.id)
            && t.state == (if s.outside.socket.Open? && Answers(o, s, 1) then s.state else Offline)
  {
    var t := Ask(o, s.(discovery := s.discovery.(searching := false, forReconnect := false))).0;
    PollFinishes(o, s, t, adverts);
    assert Alone(t.(discovered := Collected(adverts, 8)));
    UnfollowedShows(o, t.(discovered := Collected(adverts, 8)));
    FoundIff(Collected(adverts, 8), s.target.id);
  }

  lemma {:induction false} FoundIff(macs: seq<Mac>, id: Id)
    ensures FindMac(macs, id).Some? <==> exists m :: m in macs && m.id == id
  {
    if macs != [] && macs[0].id != id {
      FoundIff(macs[1..], id);
      assert macs == [macs[0]] + macs[1..];
    }
  }

  /** A search that ends after WiFi was lost leaves no list, and wants another. */
  lemma LostSearchShows(o: Oracle, s: Link, adverts: seq<Advert>)
    requires s.discovery.searching && !Answers(o, s, 0)
    ensures var t := PollDiscovery(o, s, Some(adverts));
            t.discovered == [] && !t.discovery.searching && t.discovery.required && t.history == s.history
  {
  }

  /** Once mDNS starts, a search is wanted, and a reconnect needs one. */
  lemma MdnsAsksForSearch(o: Oracle, s: Link)
    requires !s.discovery.mdnsStarted
    ensures var t := StartMdns(o, s);
            && (t.discovery.mdnsStarted <==> Answers(o, s, 0))
            && (t.discovery.mdnsStarted ==> t.discovery.requested && t.discovery.required && t.nextConnect == 0)
  {
  }

  /** A pair code that is tried shows as authenticating, and nothing else changes the state. */
  lemma SubmitShows(o: Oracle, s: Link, isSixDigits: bool)
    requires Alone(s)
    ensures SubmitPairCode(o, s, isSixDigits).state
            == if isSixDigits && s.outside.socket.Open? && Answers(o, s, 0) then Authenticating else s.state
  {
  }
}
