/** What the connection machine keeps over every run, whatever the world answers. */
module PairingRuns {
  import opened Common
  import opened Pairings

  // ---- The invariant ---------------------------------------------------------------------

  function Last(h: History): Attempt
    requires h.attempts != []
  {
    h.attempts[|h.attempts| - 1]
  }

  /** A worker runs or its result waits, never both, and it is the latest attempt's. */
  ghost predicate OneWorker(s: Link) {
    && (s.inFlight <==> s.outside.worker.Some? || s.outside.queue.Some?)
    && !(s.outside.worker.Some? && s.outside.queue.Some?)
    && (s.inFlight ==> s.history.attempts != [] && s.hasQueue)
    && (s.outside.worker.Some? ==>
          s.outside.worker.value == Last(s.history) && s.outside.worker.value.generation == s.generation)
    && (s.outside.queue.Some? ==> s.outside.queue.value.generation == s.generation)
  }

  /** The socket is open only for the latest attempt, and, once adopted, for the current target. */
  ghost predicate SocketFits(s: Link) {
    && (s.outside.queue.Some? && s.inFlight && s.history.attempts != [] ==>
          s.outside.socket == if s.outside.queue.value.connected then Open(Last(s.history).id) else Closed)
    && (s.inFlight && !s.cancelled && s.history.attempts != [] ==>
          var a := Last(s.history);
          a.id == s.target.id && a.ip == s.target.ip && a.port == s.target.port)
    && (!s.inFlight && s.outside.socket.Open? ==> s.outside.socket.id == s.target.id)
  }

  ghost predicate IsFor(h: Hello) {
    h.socket == Open(h.target)
  }

  ghost predicate Inv(s: Link) {
    && !(s.discovery.searching && s.inFlight)
    && OneWorker(s)
    && SocketFits(s)
    && (s.inFlight ==> s.state != Connected)
    && RECONNECT_MIN_MS <= s.reconnectDelay <= RECONNECT_MAX_MS
    && (forall i :: 0 <= i < |s.history.hellos| ==> IsFor(s.history.hellos[i]))
    && (forall i :: 0 <= i < |s.history.attempts| ==> s.history.attempts[i].listed)
  }

  /** Nothing can be said to a Mac: an attempt in flight is cancelled, or no socket is open. */
  ghost predicate Quiet(s: Link) {
    if s.inFlight then s.cancelled else !s.outside.socket.Open?
  }

  /** What a part of a tick does to a state, and two parts in a row do as well. */
  ghost predicate Evolves(s: Link, t: Link) {
    && Inv(t)
    && s.history.attempts <= t.history.attempts
    && t.history.raced == s.history.raced
    && t.target.id == s.target.id && (s.manualDisconnect ==> t.manualDisconnect)
    && (!ReconnectsByItself(s) ==> t.history.attempts == s.history.attempts)
    && (Quiet(s) && t.history.attempts == s.history.attempts ==> Quiet(t) && t.history.hellos == s.history.hellos)
  }

  lemma EvolvesOn(s: Link, t: Link, u: Link)
    requires Evolves(s, t) && Evolves(t, u)
    ensures Evolves(s, u)
  {
  }

  // ---- Parts outside an attempt ----------------------------------------------------------

  /** The main loop alone with its socket. */
  ghost predicate Alone(s: Link) {
    Inv(s) && !s.inFlight
  }

  ghost predicate StaysAlone(s: Link, t: Link) {
    Evolves(s, t) && !t.inFlight && t.history.attempts == s.history.attempts
    && t.discovery.searching == s.discovery.searching
  }

  lemma AloneOn(s: Link, t: Link, u: Link)
    requires StaysAlone(s, t) && StaysAlone(t, u)
    ensures StaysAlone(s, u)
  {
  }

  lemma AskKeeps(o: Oracle, s: Link)
    requires Alone(s)
    ensures StaysAlone(s, Ask(o, Touched(s)).0) && Ask(o, Touched(s)).0.outside.socket == s.outside.socket
  {
  }

  lemma DropKeeps(s: Link, t: Link)
    requires Alone(s) && t == s.(outside := s.outside.(socket := Dropped))
    ensures StaysAlone(s, t)
  {
  }

  lemma ConnectedKeeps(o: Oracle, s: Link)
    requires Alone(s)
    ensures var (t, up) := ClientConnected(o, s);
            StaysAlone(s, t) && t.outside.socket.Open? == up && t == s.(outside := t.outside)
  {
    var t := Ask(o, Touched(s)).0;
    AskKeeps(o, s);
    DropKeeps(t, t.(outside := t.outside.(socket := Dropped)));
  }

  lemma StopKeeps(s: Link)
    requires Alone(s)
    ensures StaysAlone(s, ClientStop(s)) && !ClientStop(s).outside.socket.Open?
  {
  }

  lemma SendKeeps(o: Oracle, s: Link)
    requires Alone(s)
    ensures StaysAlone(s, SendDocument(o, s).0)
  {
    ConnectedKeeps(o, s);
    var (t, up) := ClientConnected(o, s);
    if up {
      AskKeeps(o, t);
      AloneOn(s, t, Ask(o, Touched(t)).0);
    }
  }

  lemma ScheduleKeeps(o: Oracle, s: Link)
    requires Alone(s)
    ensures StaysAlone(s, ScheduleReconnect(o, s))
    ensures ScheduleReconnect(o, s).outside.socket == s.outside.socket
  {
  }

  /** Only the state the device shows changes. */
  lemma ShownKeeps(s: Link, shown: LinkState)
    requires Alone(s)
    ensures StaysAlone(s, s.(state := shown))
  {
  }

  lemma CancelKeeps(o: Oracle, s: Link)
    requires Alone(s)
    ensures var t := CancelConnectionAttempt(o, s); StaysAlone(s, t) && !t.outside.socket.Open?
  {
    ConnectedKeeps(o, s);
    var (t, up) := ClientConnected(o, s);
    if up {
      StopKeeps(t);
      AloneOn(s, t, ClientStop(t));
    }
  }

  lemma LostKeeps(o: Oracle, s: Link)
    requires Alone(s)
    ensures var t := ConnectionLost(o, s); StaysAlone(s, t) && !t.outside.socket.Open?
  {
    CancelKeeps(o, s);
    var t := CancelConnectionAttempt(o, s);
    ShownKeeps(t, Offline);
    ScheduleKeeps(o, t.(state := Offline));
    AloneOn(s, t, t.(state := Offline));
    AloneOn(s, t.(state := Offline), ConnectionLost(o, s));
  }

  lemma GreetedKeeps(s: Link)
    requires Alone(s) && s.outside.socket.Open?
    ensures StaysAlone(s, Greeted(s))
  {
  }

  lemma GreetKeeps(o: Oracle, s: Link)
    requires Alone(s) && s.outside.socket.Open?
    ensures StaysAlone(s, Greet(o, s))
  {
    var g := Greeted(Touched(s));
    GreetedKeeps(s);
    var (t, sent) := Ask(o, g);
    AskKeeps(o, g);
    AloneOn(s, g, t);
    if sent {
      ShownKeeps(t, if t.target.token == "" then AwaitingPairCode else Authenticating);
    } else {
      LostKeeps(o, t);
    }
    AloneOn(s, t, Greet(o, s));
  }

  lemma TokenKeeps(s: Link, token: Token)
    requires Alone(s)
    ensures StaysAlone(s, s.(target := s.target.(token := token)))
  {
  }

  lemma HelloKeeps(o: Oracle, s: Link)
    requires Alone(s)
    ensures StaysAlone(s, SendHello(o, s))
  {
    var named := s.(target := s.target.(token := PairedToken(s.paired, s.target.id)));
    TokenKeeps(s, PairedToken(s.paired, s.target.id));
    ConnectedKeeps(o, named);
    var (t, up) := ClientConnected(o, named);
    AloneOn(s, named, t);
    if up {
      GreetKeeps(o, t);
    } else {
      LostKeeps(o, t);
    }
    AloneOn(s, t, SendHello(o, s));
  }

  // ---- Attempts --------------------------------------------------------------------------

  lemma LaunchedKeeps(s: Link)
    requires Alone(s) && s.hasQueue && !s.discovery.searching && s.state != Connected && ReconnectsByItself(s)
    requires !s.cancelled && IsListed(s)
    ensures Evolves(s, Launched(s))
  {
  }

  lemma FailedKeeps(o: Oracle, s: Link)
    requires Alone(s)
    ensures StaysAlone(s, Failed(o, s))
  {
    ScheduleKeeps(o, s);
    ShownKeeps(ScheduleReconnect(o, s), Offline);
    AloneOn(s, ScheduleReconnect(o, s), Failed(o, s));
  }

  lemma RenewedKeeps(o: Oracle, s: Link)
    requires Alone(s)
    ensures StaysAlone(s, Ask(o, s.(generation := NextGeneration(s.generation), cancelled := false)).0)
  {
  }

  lemma ClearedKeeps(o: Oracle, s: Link)
    requires Alone(s)
    ensures StaysAlone(s, Ask(o, ClientStop(s).(state := Connecting)).0)
  {
  }

  lemma AttemptKeeps(o: Oracle, s: Link)
    requires Alone(s) && !s.discovery.searching && ReconnectsByItself(s)
    requires s.target.ip != 0 ==> IsListed(s)
    ensures Evolves(s, AttemptConnection(o, s))
  {
    if s.target.ip == 0 || !s.hasQueue {
      ScheduleKeeps(o, s);
    } else {
      ClearedKeeps(o, s);
      var (t, hasContext) := Ask(o, ClientStop(s).(state := Connecting));
      if !hasContext {
        FailedKeeps(o, t);
        EvolvesOn(s, t, Failed(o, t));
      } else {
        CreateKeeps(o, s, t);
      }
    }
  }

  lemma CreateKeeps(o: Oracle, s: Link, t: Link)
    requires Alone(t) && StaysAlone(s, t) && ReconnectsByItself(t)
    requires t.hasQueue && !t.discovery.searching && t.state != Connected && IsListed(t)
    ensures Evolves(s, CreateTask(o, t))
  {
    RenewedKeeps(o, t);
    var (u, created) := Ask(o, t.(generation := NextGeneration(t.generation), cancelled := false));
    AloneOn(s, t, u);
    if created {
      LaunchedKeeps(u);
    } else {
      FailedKeeps(o, u);
    }
    EvolvesOn(s, u, CreateTask(o, t));
  }

  lemma RetargetKeeps(s: Link, m: Mac)
    requires Alone(s)
    ensures StaysAlone(s, Retarget(s, m))
    ensures m in s.discovered && m.id == s.target.id && m.ip != 0 ==> IsListed(Retarget(s, m))
  {
  }

  /** A result taken from the queue. */
  function Taken(s: Link): Link {
    s.(inFlight := false, outside := s.outside.(queue := None))
  }

  lemma AbandonedKeeps(o: Oracle, s: Link, connected: bool)
    requires Inv(s) && s.inFlight && s.outside.queue == Some(ConnectResult(s.generation, connected))
    ensures Evolves(s, Abandoned(Taken(s), connected))
    ensures Evolves(s, Abandoned(Ask(o, Taken(s)).0, connected))
  {
  }

  lemma TakenKeeps(s: Link)
    requires Inv(s) && s.inFlight && s.outside.queue.Some? && !s.cancelled
    ensures Evolves(s, Taken(s))
  {
  }

  lemma AdoptKeeps(o: Oracle, s: Link)
    requires Alone(s)
    ensures Evolves(s, Adopt(o, s))
  {
    var u := Fresh(o, s);
    assert StaysAlone(s, u);
    HelloKeeps(o, u);
    AloneOn(s, u, SendHello(o, u));
  }

  lemma JudgeKeeps(o: Oracle, s: Link, t: Link, connected: bool)
    requires Inv(s) && Evolves(s, t) && !t.inFlight
    requires Evolves(s, Abandoned(Ask(o, t).0, connected))
    ensures Evolves(s, Judge(o, t, connected))
  {
    JustAskKeeps(o, t);
    var (u, wifi) := Ask(o, t);
    EvolvesOn(s, t, u);
    if wifi {
      if connected {
        AdoptKeeps(o, u);
      } else {
        FailedKeeps(o, u);
      }
      EvolvesOn(s, u, Judge(o, t, connected));
    }
  }

  lemma PollConnectionKeeps(o: Oracle, s: Link)
    requires Inv(s)
    ensures Evolves(s, PollConnectionAttempt(o, s))
  {
    if s.inFlight && s.hasQueue && s.outside.queue.Some? {
      var connected := s.outside.queue.value.connected;
      AbandonedKeeps(o, s, connected);
      if !s.cancelled {
        TakenKeeps(s);
        JudgeKeeps(o, s, Taken(s), connected);
      }
    }
  }

  // ---- Discovery -------------------------------------------------------------------------

  /** Only what was discovered, and what is wanted of discovery, changes. */
  lemma DiscoveryKeeps(s: Link, d: Discovery, macs: seq<Mac>)
    requires Inv(s) && !(d.searching && s.inFlight)
    ensures Evolves(s, s.(discovery := d)) && Evolves(s, s.(discovery := d, discovered := macs))
  {
  }

  lemma JustAskKeeps(o: Oracle, s: Link)
    requires Inv(s)
    ensures Evolves(s, Ask(o, s).0)
  {
  }

  lemma SearchFailedKeeps(o: Oracle, s: Link, forReconnect: bool)
    requires Alone(s)
    ensures StaysAlone(s, SearchFailed(o, s, forReconnect))
  {
    ConnectedKeeps(o, s);
    var (t, up) := ClientConnected(o, s);
    ShownKeeps(t, Offline);
    var u := if up then t else t.(state := Offline);
    AloneOn(s, t, u);
    if forReconnect {
      ScheduleKeeps(o, u);
      AloneOn(s, u, ScheduleReconnect(o, u));
    }
  }

  lemma StartSearchKeeps(o: Oracle, s: Link, forReconnect: bool)
    requires Alone(s)
    ensures Evolves(s, StartSearch(o, s, forReconnect))
  {
    JustAskKeeps(o, s);
    var (t, found) := Ask(o, s);
    var d := if found then t.discovery.(requested := false, forReconnect := forReconnect, searching := true)
             else t.discovery.(requested := false, forReconnect := false);
    DiscoveryKeeps(t, d, []);
    EvolvesOn(s, t, t.(discovery := d));
    if !found {
      SearchFailedKeeps(o, t.(discovery := d), forReconnect);
      EvolvesOn(s, t.(discovery := d), SearchFailed(o, t.(discovery := d), forReconnect));
    }
  }

  lemma StartDiscoveryKeeps(o: Oracle, s: Link, forReconnect: bool)
    requires Inv(s)
    ensures Evolves(s, StartDiscovery(o, s, forReconnect))
  {
    JustAskKeeps(o, s);
    var t := Ask(o, s).0;
    if !t.inFlight {
      if t.discovery.searching {
        DiscoveryKeeps(t, t.discovery.(forReconnect := true), []);
        EvolvesOn(s, t, t.(discovery := t.discovery.(forReconnect := true)));
      } else {
        StartFreshKeeps(o, s, t, forReconnect);
      }
    }
  }

  lemma StartFreshKeeps(o: Oracle, s: Link, t: Link, forReconnect: bool)
    requires Inv(s) && Evolves(s, t) && !t.inFlight
    ensures Evolves(s, ShowSearch(o, t, forReconnect))
  {
    ConnectedKeeps(o, t);
    var (u, up) := ClientConnected(o, t);
    EvolvesOn(s, t, u);
    ShownSearchKeeps(o, s, u, if up then u.state else Discovering, forReconnect);
  }

  lemma ShownSearchKeeps(o: Oracle, s: Link, u: Link, shown: LinkState, forReconnect: bool)
    requires Inv(s) && Evolves(s, u) && !u.inFlight
    ensures Evolves(s, StartSearch(o, u.(state := shown), forReconnect))
  {
    ShownKeeps(u, shown);
    EvolvesOn(s, u, u.(state := shown));
    StartSearchKeeps(o, u.(state := shown), forReconnect);
    EvolvesOn(s, u.(state := shown), StartSearch(o, u.(state := shown), forReconnect));
  }

  lemma FollowKeeps(o: Oracle, s: Link, forReconnect: bool, found: Option<Mac>)
    requires Alone(s) && !s.discovery.searching
    requires found.Some? ==> found.value in s.discovered && found.value.id == s.target.id
    ensures Evolves(s, Follow(o, s, forReconnect, found))
  {
    if forReconnect && ReconnectsByItself(s) {
      if found.None? {
        ScheduleKeeps(o, s);
      } else {
        RetargetKeeps(s, found.value);
        AttemptKeeps(o, Retarget(s, found.value));
        EvolvesOn(s, Retarget(s, found.value), AttemptConnection(o, Retarget(s, found.value)));
      }
    }
  }

  lemma NotedKeeps(s: Link, shown: LinkState, found: Option<Mac>)
    requires Alone(s)
    ensures StaysAlone(s, Noted(s, shown, found))
  {
  }

  lemma FinishKeeps(o: Oracle, s: Link, forReconnect: bool)
    requires Alone(s) && !s.discovery.searching
    ensures Evolves(s, FinishDiscovery(o, s, forReconnect))
  {
    ConnectedKeeps(o, s);
    var (t, up) := ClientConnected(o, s);
    var found := if t.target.id == "" then None else FindMac(t.discovered, t.target.id);
    NotedKeeps(t, if up then t.state else Offline, found);
    var u := Noted(t, if up then t.state else Offline, found);
    EvolvesOn(s, t, u);
    FollowKeeps(o, u, forReconnect, found);
    EvolvesOn(s, u, FinishDiscovery(o, s, forReconnect));
  }

  lemma PollDiscoveryKeeps(o: Oracle, s: Link, search: Option<seq<Advert>>)
    requires Inv(s)
    ensures Evolves(s, PollDiscovery(o, s, search))
  {
    if s.discovery.searching && search.Some? {
      var ended := s.(discovery := s.discovery.(searching := false, forReconnect := false));
      DiscoveryKeeps(s, ended.discovery, []);
      JustAskKeeps(o, ended);
      var t := Ask(o, ended).0;
      EvolvesOn(s, ended, t);
      DiscoveryKeeps(t, t.discovery.(required := true), []);
      EvolvesOn(s, t, t.(discovered := [], discovery := t.discovery.(required := true)));
      var macs := Collected(search.value, MAX_DISCOVERED_MACS);
      DiscoveryKeeps(t, t.discovery, macs);
      EvolvesOn(s, t, t.(discovered := macs));
      FinishKeeps(o, t.(discovered := macs), s.discovery.forReconnect);
      EvolvesOn(s, t.(discovered := macs), FinishDiscovery(o, t.(discovered := macs), s.discovery.forReconnect));
    }
  }

  // ---- Messages --------------------------------------------------------------------------

  /** The fields that messages change, at once. */
  lemma MessageKeeps(s: Link, paired: seq<PairedMac>, token: Token, shown: LinkState, missed: nat, manual: bool,
                     delay: nat)
    requires Alone(s) && RECONNECT_MIN_MS <= delay <= RECONNECT_MAX_MS && (s.manualDisconnect ==> manual)
    ensures StaysAlone(s, s.(paired := paired, target := s.target.(token := token), state := shown,
                             missedPongs := missed, manualDisconnect := manual, reconnectDelay := delay))
  {
  }

  lemma LinkUpKeeps(o: Oracle, s: Link)
    requires Alone(s)
    ensures StaysAlone(s, LinkUp(o, s))
  {
    var t := s.(state := Connected, reconnectDelay := RECONNECT_MIN_MS);
    MessageKeeps(s, s.paired, s.target.token, Connected, s.missedPongs, s.manualDisconnect, RECONNECT_MIN_MS);
    assert s.target.(token := s.target.token) == s.target;
    SendKeeps(o, t);
    AloneOn(s, t, LinkUp(o, s));
  }

  lemma PairedKeeps(o: Oracle, s: Link, token: Token)
    requires Alone(s)
    ensures StaysAlone(s, TakePaired(o, s, token))
  {
    LostKeeps(o, s);
    var t := s.(target := s.target.(token := token));
    TokenKeeps(s, token);
    LostKeeps(o, t);
    AloneOn(s, t, ConnectionLost(o, t));
    var u := t.(paired := StoreToken(s.paired, s.target.id, token));
    MessageKeeps(s, u.paired, token, s.state, s.missedPongs, s.manualDisconnect, s.reconnectDelay);
    LinkUpKeeps(o, u);
    AloneOn(s, u, LinkUp(o, u));
  }

  lemma RefusalKeeps(o: Oracle, s: Link)
    requires Alone(s)
    ensures StaysAlone(s, TakeRefusal(o, s))
  {
    var t := Forgotten(s);
    MessageKeeps(s, t.paired, "", AwaitingPairCode, s.missedPongs, s.manualDisconnect, s.reconnectDelay);
    HelloKeeps(o, t);
    AloneOn(s, t, SendHello(o, t));
  }

  lemma UpgradeKeeps(s: Link)
    requires Alone(s)
    ensures StaysAlone(s, ClientStop(s).(state := Incompatible, manualDisconnect := true, missedPongs := 0))
  {
  }

  lemma PlainKeeps(s: Link, shown: LinkState)
    requires Alone(s)
    ensures StaysAlone(s, s) && StaysAlone(s, s.(state := shown)) && StaysAlone(s, s.(missedPongs := 0))
  {
  }

  lemma HandleKeeps(o: Oracle, s: Link, m: Message)
    requires Alone(s)
    ensures StaysAlone(s, HandleLine(o, s, m))
  {
    PlainKeeps(s, AwaitingPairCode);
    if !IsForged(s, m) {
      match m
      case Ping(_) => SendKeeps(o, s);
      case UpgradeRequired => UpgradeKeeps(s);
      case Paired(token) => PairedKeeps(o, s, token);
      case HelloOk => LinkUpKeeps(o, s);
      case AuthError => RefusalKeeps(o, s);
      case _ =>
    }
  }

  lemma {:induction false} ReadKeeps(o: Oracle, s: Link, lines: seq<Message>)
    requires Alone(s)
    ensures StaysAlone(s, ReadIncoming(o, s, lines))
    decreases |lines|
  {
    assert Touched(s) == s;
    PlainKeeps(s, Offline);
    if lines != [] && !s.outside.socket.Closed? {
      HandleKeeps(o, s, lines[0]);
      var t := HandleLine(o, s, lines[0]);
      ReadKeeps(o, t, lines[1..]);
      AloneOn(s, t, ReadIncoming(o, t, lines[1..]));
    }
  }

  lemma BeatKeeps(s: Link, missed: nat, now: Millis)
    requires Alone(s)
    ensures StaysAlone(s, s.(missedPongs := missed)) && StaysAlone(s, s.(missedPongs := missed, lastHeartbeat := now))
  {
  }

  lemma LostLater(o: Oracle, s: Link, t: Link)
    requires Alone(s) && StaysAlone(s, t)
    ensures StaysAlone(s, ConnectionLost(o, t))
  {
    LostKeeps(o, t);
    AloneOn(s, t, ConnectionLost(o, t));
  }

  lemma BeatenKeeps(o: Oracle, s: Link, missed: nat, now: Millis)
    requires Alone(s)
    ensures StaysAlone(s, Beaten(o, s, missed, now))
  {
    BeatKeeps(s, missed, now);
    if missed >= HEARTBEAT_MISS_LIMIT {
      LostLater(o, s, s.(missedPongs := missed));
    }
  }

  lemma PingedKeeps(o: Oracle, s: Link, sent: bool, now: Millis)
    requires Alone(s)
    ensures StaysAlone(s, Pinged(o, s, sent, now))
  {
    if sent {
      BeatenKeeps(o, s, NextByte(s.missedPongs), now);
    } else {
      LostKeeps(o, s);
    }
  }

  lemma BeatsKeep(o: Oracle, s: Link, now: Millis)
    requires Alone(s)
    ensures StaysAlone(s, Beat(o, s, now))
  {
    SendKeeps(o, s);
    var (t, sent) := SendDocument(o, s);
    PingedKeeps(o, t, sent, now);
    AloneOn(s, t, Pinged(o, t, sent, now));
  }

  lemma HeartbeatKeeps(o: Oracle, s: Link)
    requires Alone(s)
    ensures StaysAlone(s, Heartbeat(o, s))
  {
    AskKeeps(o, s);
    assert Touched(s) == s;
    var (t, now) := Now(o, s);
    BeatsKeep(o, t, now);
    AloneOn(s, t, Beat(o, t, now));
  }

  // ---- One tick --------------------------------------------------------------------------

  lemma InFlightCancelKeeps(s: Link)
    requires Inv(s) && s.inFlight
    ensures Evolves(s, s.(cancelled := true)) && Quiet(s.(cancelled := true))
  {
  }

  lemma AnyCancelKeeps(o: Oracle, s: Link)
    requires Inv(s)
    ensures Evolves(s, CancelConnectionAttempt(o, s)) && Quiet(CancelConnectionAttempt(o, s))
  {
    if s.inFlight {
      InFlightCancelKeeps(s);
    } else {
      CancelKeeps(o, s);
    }
  }

  lemma OfflineKeeps(s: Link, d: Discovery, next: Millis)
    requires Inv(s) && d.searching == s.discovery.searching
    ensures Evolves(s, s.(state := Offline, discovered := [], discovery := d, nextConnect := next))
    ensures Quiet(s) ==> Quiet(s.(state := Offline, discovered := [], discovery := d, nextConnect := next))
  {
  }

  lemma WifiLostKeeps(o: Oracle, s: Link)
    requires Inv(s)
    ensures Evolves(s, WifiLost(o, s)) && Quiet(WifiLost(o, s))
  {
    AnyCancelKeeps(o, s);
    var t := CancelConnectionAttempt(o, s);
    var d := t.discovery.(requested := false, required := true);
    var stops := d.mdnsStarted && !d.searching;
    OfflineKeeps(t, if stops then d.(mdnsStarted := false) else d, if stops then 0 else t.nextConnect);
    EvolvesOn(s, t, WifiLost(o, s));
  }

  lemma StartedKeeps(s: Link, d: Discovery)
    requires Inv(s) && d.searching == s.discovery.searching
    ensures Evolves(s, s.(discovery := d, nextConnect := 0))
  {
  }

  lemma MdnsKeeps(o: Oracle, s: Link)
    requires Inv(s)
    ensures Evolves(s, StartMdns(o, s))
  {
    JustAskKeeps(o, s);
    if !s.discovery.mdnsStarted {
      var (t, started) := Ask(o, s);
      StartedKeeps(t, t.discovery.(mdnsStarted := true, requested := true, required := true));
      EvolvesOn(s, t, StartMdns(o, s));
    }
  }

  lemma RequestKeeps(o: Oracle, s: Link)
    requires Inv(s)
    ensures Evolves(s, ServeRequest(o, s))
  {
    JustAskKeeps(o, s);
    if s.discovery.requested && !s.inFlight {
      if ReconnectsByItself(s) {
        var (t, now) := Now(o, s);
        StartDiscoveryKeeps(o, t, DeadlineReached(now, t.nextConnect));
        EvolvesOn(s, t, ServeRequest(o, s));
      } else {
        StartDiscoveryKeeps(o, s, false);
      }
    }
  }

  lemma FoundAgainKeeps(o: Oracle, s: Link, m: Mac)
    requires Alone(s) && !s.discovery.searching && ReconnectsByItself(s)
    requires m in s.discovered && m.id == s.target.id
    ensures Evolves(s, AttemptConnection(o, Retarget(s, m)))
  {
    RetargetKeeps(s, m);
    AttemptKeeps(o, Retarget(s, m));
    EvolvesOn(s, Retarget(s, m), AttemptConnection(o, Retarget(s, m)));
  }

  lemma ReconnectKeeps(o: Oracle, s: Link)
    requires Alone(s) && !s.discovery.searching && ReconnectsByItself(s)
    ensures Evolves(s, Reconnect(o, s))
  {
    JustAskKeeps(o, s);
    var (t, now) := Now(o, s);
    if DeadlineReached(now, t.nextConnect) {
      StartDiscoveryKeeps(o, t, true);
      var found := FindMac(t.discovered, t.target.id);
      if found.Some? {
        FoundAgainKeeps(o, t, found.value);
      }
      EvolvesOn(s, t, Reconnect(o, s));
    }
  }

  lemma DownKeeps(o: Oracle, s: Link, t: Link)
    requires Alone(s) && StaysAlone(s, t)
    ensures Evolves(s, Down(o, t))
  {
    LostKeeps(o, t);
    var u := if ExpectsSocket(t.state) then ConnectionLost(o, t) else t;
    EvolvesOn(s, t, t);
    EvolvesOn(s, t, u);
    if ReconnectsByItself(u) && !u.discovery.searching {
      ReconnectKeeps(o, u);
      EvolvesOn(s, u, Reconnect(o, u));
    }
  }

  lemma UpKeeps(o: Oracle, s: Link, t: Link, lines: seq<Message>)
    requires Alone(s) && StaysAlone(s, t)
    ensures Evolves(s, Heartbeat(o, ReadIncoming(o, t, lines)))
  {
    ReadKeeps(o, t, lines);
    var u := ReadIncoming(o, t, lines);
    HeartbeatKeeps(o, u);
    EvolvesOn(s, t, u);
    EvolvesOn(s, u, Heartbeat(o, u));
  }

  lemma ServeKeeps(o: Oracle, s: Link, lines: seq<Message>)
    requires Inv(s)
    ensures Evolves(s, Serve(o, s, lines))
  {
    if !s.inFlight {
      ConnectedKeeps(o, s);
      var (t, up) := ClientConnected(o, s);
      if up {
        UpKeeps(o, s, t, lines);
      } else {
        DownKeeps(o, s, t);
      }
    }
  }

  /** The tick up to where it asks whether WiFi is up. */
  lemma PollsKeep(o: Oracle, s: Link, search: Option<seq<Advert>>)
    requires Inv(s)
    ensures Evolves(s, Ask(o, Polled(o, s, search)).0)
  {
    PollDiscoveryKeeps(o, s, search);
    var t := PollDiscovery(o, s, search);
    PollConnectionKeeps(o, t);
    var u := PollConnectionAttempt(o, t);
    EvolvesOn(s, t, u);
    JustAskKeeps(o, u);
    EvolvesOn(s, u, Ask(o, u).0);
  }

  lemma ServicesKeep(o: Oracle, s: Link, lines: seq<Message>)
    requires Inv(s)
    ensures Evolves(s, Serve(o, ServeRequest(o, StartMdns(o, s)), lines))
  {
    MdnsKeeps(o, s);
    var t := StartMdns(o, s);
    RequestKeeps(o, t);
    var u := ServeRequest(o, t);
    EvolvesOn(s, t, u);
    ServeKeeps(o, u, lines);
    EvolvesOn(s, u, Serve(o, u, lines));
  }

  lemma TickKeeps(o: Oracle, s: Link, search: Option<seq<Advert>>, lines: seq<Message>)
    requires Inv(s)
    ensures Evolves(s, Tick(o, s, search, lines))
    ensures !Ask(o, Polled(o, s, search)).1 ==> Quiet(Tick(o, s, search, lines))
  {
    PollsKeep(o, s, search);
    var (t, wifi) := Ask(o, Polled(o, s, search));
    if wifi {
      ServicesKeep(o, t, lines);
    } else {
      WifiLostKeeps(o, t);
    }
    EvolvesOn(s, t, Tick(o, s, search, lines));
  }

  // ---- Calls from the user interface -----------------------------------------------------

  /** What any step does to a state. */
  ghost predicate Follows(s: Link, t: Link) {
    && Inv(t)
    && s.history.attempts <= t.history.attempts
    && (Quiet(s) && t.history.attempts == s.history.attempts ==> Quiet(t) && t.history.hellos == s.history.hellos)
  }

  /** A call that says nothing and starts nothing. */
  ghost predicate Calls(s: Link, t: Link) {
    && Inv(t)
    && t.history.attempts == s.history.attempts && t.history.hellos == s.history.hellos
    && (Quiet(s) ==> Quiet(t))
  }

  lemma DisconnectKeeps(o: Oracle, s: Link, manual: bool)
    requires Inv(s)
    ensures var t := Disconnect(o, s, manual);
            Calls(s, t) && Quiet(t) && t.history == s.history && t.state == Offline && t.manualDisconnect == manual
            && t.discovery.searching == s.discovery.searching
            && (manual ==> t.target.id == "")
  {
    AnyCancelKeeps(o, s);
    CancelSaysNothing(o, s);
    ShownDisconnectKeeps(s, CancelConnectionAttempt(o, s), manual);
  }

  lemma CancelSaysNothing(o: Oracle, s: Link)
    requires Inv(s)
    ensures var t := CancelConnectionAttempt(o, s);
            t.history == s.history && t.discovery == s.discovery
  {
    if !s.inFlight {
      ConnectedKeeps(o, s);
    }
  }

  lemma ShownDisconnectKeeps(s: Link, t: Link, manual: bool)
    requires Inv(s) && Evolves(s, t) && Quiet(t) && t.history == s.history && t.discovery == s.discovery
    ensures var u := t.(state := Offline, manualDisconnect := manual, missedPongs := 0);
            Calls(s, u) && Quiet(u)
            && Calls(s, u.(target := u.target.(id := "", token := "")))
            && Quiet(u.(target := u.target.(id := "", token := "")))
  {
  }

  lemma ChosenKeeps(s: Link, m: Mac)
    requires Inv(s) && Quiet(s)
    ensures Calls(s, Chosen(s, m)) && Quiet(Chosen(s, m)) && Chosen(s, m).history == s.history
  {
  }

  lemma ConnectKeeps(o: Oracle, s: Link, index: nat)
    requires Inv(s)
    ensures var t := ConnectToDiscovered(o, s, index);
            Calls(s, t) && t.history == s.history && (index < |s.discovered| ==> Quiet(t))
  {
    if index < |s.discovered| {
      DisconnectKeeps(o, s, false);
      ChosenKeeps(Disconnect(o, s, false), s.discovered[index]);
    }
  }

  lemma ListSaved(o: Oracle, s: Link, paired: seq<PairedMac>)
    requires Inv(s)
    ensures var t := Ask(o, s.(paired := paired)).0;
            && Calls(s, t) && (Quiet(s) ==> Quiet(t)) && t.history == s.history
            && t.target == s.target && t.manualDisconnect == s.manualDisconnect
  {
  }

  lemma ConnectPairedKeeps(o: Oracle, s: Link, index: nat)
    requires Inv(s)
    ensures var t := ConnectToPaired(o, s, index); Calls(s, t) && t.history == s.history
  {
    if index < |s.paired| {
      ConnectKeeps(o, s, IndexOf(s.discovered, s.paired[index].id));
    }
  }

  lemma DeleteKeeps(o: Oracle, s: Link, index: nat)
    requires Inv(s)
    ensures var t := DeletePairing(o, s, index);
            Calls(s, t) && t.history == s.history && (IsCurrent(s, index) ==> Quiet(t) && t.target.id == "")
            && (!IsCurrent(s, index) ==> t.target == s.target && t.manualDisconnect == s.manualDisconnect)
  {
    if index < |s.paired| {
      DisconnectKeeps(o, s, true);
      var t := if IsCurrent(s, index) then Disconnect(o, s, true) else s;
      ListSaved(o, t, s.paired[..index] + s.paired[index + 1..]);
    }
  }

  lemma RequestsKeep(o: Oracle, s: Link)
    requires Inv(s)
    ensures Calls(s, RequestDiscovery(o, s)) && RequestDiscovery(o, s).history == s.history
  {
  }

  /** Beside a worker the socket may answer anything: the calls below only note the race. */
  ghost predicate OnlyRaces(s: Link, t: Link) {
    && t.history == s.history.(raced := true) && t.target == s.target && t.manualDisconnect == s.manualDisconnect
    && t.outside == s.outside.(asked := t.outside.asked) && t.inFlight == s.inFlight && t.cancelled == s.cancelled
    && t.generation == s.generation && t.hasQueue == s.hasQueue && t.discovery == s.discovery
    && t.reconnectDelay == s.reconnectDelay
  }

  lemma RacingKeeps(s: Link, t: Link)
    requires Inv(s) && s.inFlight && OnlyRaces(s, t) && t.state != Connected
    ensures Calls(s, t) && ReconnectsByItself(s) == ReconnectsByItself(t)
  {
  }

  lemma AskedRaces(o: Oracle, s: Link)
    requires s.inFlight
    ensures OnlyRaces(s, ClientConnected(o, s).0) && ClientConnected(o, s).0.state == s.state
  {
  }

  lemma SentRaces(o: Oracle, s: Link)
    requires s.inFlight
    ensures OnlyRaces(s, SendDocument(o, s).0) && SendDocument(o, s).0.state == s.state
  {
  }

  lemma RacesOn(s: Link, t: Link, u: Link)
    requires OnlyRaces(s, t) && OnlyRaces(t, u)
    ensures OnlyRaces(s, u)
  {
  }

  lemma SubmitOnlyRaces(o: Oracle, s: Link, isSixDigits: bool)
    requires Inv(s) && s.inFlight
    ensures OnlyRaces(s, SubmitPairCode(o, s, isSixDigits)) && SubmitPairCode(o, s, isSixDigits).state != Connected
  {
    AskedRaces(o, s);
    var t := ClientConnected(o, s).0;
    var u := t.(state := Authenticating);
    SentRaces(o, u);
    RacesOn(s, u, SendDocument(o, u).0);
  }

  lemma SentLater(o: Oracle, s: Link, t: Link)
    requires Alone(s) && StaysAlone(s, t)
    ensures StaysAlone(s, SendDocument(o, t).0)
  {
    SendKeeps(o, t);
    AloneOn(s, t, SendDocument(o, t).0);
  }

  lemma SubmitKeeps(o: Oracle, s: Link, isSixDigits: bool)
    requires Inv(s)
    ensures var t := SubmitPairCode(o, s, isSixDigits);
            Follows(s, t) && t.history.attempts == s.history.attempts
            && t.history.raced == (s.history.raced || s.inFlight)
            && (!ReconnectsByItself(s) ==> !ReconnectsByItself(t))
  {
    if s.inFlight {
      SubmitOnlyRaces(o, s, isSixDigits);
      RacingKeeps(s, SubmitPairCode(o, s, isSixDigits));
    } else {
      ConnectedKeeps(o, s);
      var (t, up) := ClientConnected(o, s);
      ShownKeeps(t, Authenticating);
      AloneOn(s, t, t.(state := Authenticating));
      SentLater(o, s, t.(state := Authenticating));
    }
  }

  lemma SendKeyKeeps(o: Oracle, s: Link)
    requires Inv(s)
    ensures Evolves(s, SendKey(o, s)) && SendKey(o, s).history.attempts == s.history.attempts
  {
    if s.state == Connected {
      ConnectedKeeps(o, s);
      SentLater(o, s, ClientConnected(o, s).0);
    }
  }

  lemma SendAckKeeps(o: Oracle, s: Link, sessionId: string)
    requires Inv(s)
    ensures Evolves(s, SendAgentAck(o, s, sessionId))
    ensures SendAgentAck(o, s, sessionId).history.attempts == s.history.attempts
  {
    if s.state == Connected {
      SendKeeps(o, s);
    }
  }

  lemma WorkerKeeps(s: Link, connected: bool)
    requires Inv(s)
    ensures var t := WorkerDone(s, connected);
            Calls(s, t) && t.history == s.history && t.target == s.target && t.manualDisconnect == s.manualDisconnect
  {
  }

  // ---- Theorems --------------------------------------------------------------------------

  lemma StepFollows(o: Oracle, s: Link, e: Event)
    requires Inv(s)
    ensures Follows(s, Step(o, s, e))
  {
    match e
    case Ticks(search, lines) => TickKeeps(o, s, search, lines);
    case Requests => RequestsKeep(o, s);
    case Connects(index) => ConnectKeeps(o, s, index);
    case ConnectsPaired(index) => ConnectPairedKeeps(o, s, index);
    case Disconnects(manual) => DisconnectKeeps(o, s, manual);
    case Deletes(index) => DeleteKeeps(o, s, index);
    case Submits(isSixDigits) => SubmitKeeps(o, s, isSixDigits);
    case SendsKey => SendKeyKeeps(o, s);
    case SendsAck(sessionId) => SendAckKeeps(o, s, sessionId);
    case Finishes(connected) => WorkerKeeps(s, connected);
  }

  lemma FollowsOn(s: Link, t: Link, u: Link)
    requires Follows(s, t) && Follows(t, u)
    ensures Follows(s, u)
  {
  }

  lemma {:induction false} RunFollows(o: Oracle, s: Link, events: seq<Event>)
    requires Inv(s)
    ensures Follows(s, Run(o, s, events))
    decreases |events|
  {
    if events != [] {
      StepFollows(o, s, events[0]);
      RunFollows(o, Step(o, s, events[0]), events[1..]);
      FollowsOn(s, Step(o, s, events[0]), Run(o, s, events));
    }
  }

  /**
    In every state of every run: a search and an attempt never coexist, at most one worker is in
    flight and it is the latest attempt's, every attempt went to an address that discovery listed
    for its Mac, every hello went out on a socket opened for the target it greets, and the backoff
    stays within its bounds.
   */
  lemma RunsAreSafe(o: Oracle, paired: seq<PairedMac>, lastMacId: Id, hasQueue: bool, events: seq<Event>)
    ensures Inv(Run(o, Begin(paired, lastMacId, hasQueue), events))
  {
    RunFollows(o, Begin(paired, lastMacId, hasQueue), events);
  }

  /** The calls that put an end to the connection or attempt there is. */
  predicate Cancels(o: Oracle, s: Link, e: Event) {
    match e
    case Ticks(search, lines) => !Ask(o, Polled(o, s, search)).1
    case Connects(index) => index < |s.discovered|
    case ConnectsPaired(index) =>
      index < |s.paired| && IndexOf(s.discovered, s.paired[index].id) < |s.discovered|
    case Disconnects(_) => true
    case Deletes(index) => IsCurrent(s, index)
    case _ => false
  }

  lemma CancelIsQuiet(o: Oracle, s: Link, e: Event)
    requires Inv(s) && Cancels(o, s, e)
    ensures Inv(Step(o, s, e)) && Quiet(Step(o, s, e))
  {
    match e
    case Ticks(search, lines) => TickKeeps(o, s, search, lines);
    case Connects(index) => ConnectKeeps(o, s, index);
    case ConnectsPaired(index) => ConnectKeeps(o, s, IndexOf(s.discovered, s.paired[index].id));
    case Disconnects(manual) => DisconnectKeeps(o, s, manual);
    case Deletes(index) => DeleteKeeps(o, s, index);
  }

  /**
    A result is adopted only if nothing cancelled its attempt: after a disconnect, a new choice of
    Mac, the deletion of the current pairing or an observed loss of WiFi, no hello goes out before
    a new attempt has been started, however the worker ends and whatever else happens.
   */
  lemma CancelledIsNeverAdopted(o: Oracle, s: Link, e: Event, events: seq<Event>)
    requires Inv(s) && Cancels(o, s, e)
    requires Run(o, Step(o, s, e), events).history.attempts == Step(o, s, e).history.attempts
    ensures Run(o, Step(o, s, e), events).history.hellos == Step(o, s, e).history.hellos
  {
    CancelIsQuiet(o, s, e);
    RunFollows(o, Step(o, s, e), events);
  }

  /** The comparison of generations never decides anything. */
  lemma GenerationCheckIsDead(o: Oracle, paired: seq<PairedMac>, lastMacId: Id, hasQueue: bool, events: seq<Event>)
    ensures var s := Run(o, Begin(paired, lastMacId, hasQueue), events);
            s.outside.queue.Some? ==> s.inFlight && s.outside.queue.value.generation == s.generation
  {
    RunsAreSafe(o, paired, lastMacId, hasQueue, events);
  }

  predicate Resumes(e: Event) {
    e.Connects? || e.ConnectsPaired? || e == Disconnects(false)
  }

  predicate NoneResumes(events: seq<Event>) {
    forall i :: 0 <= i < |events| ==> !Resumes(events[i])
  }

  lemma IdleStep(o: Oracle, s: Link, e: Event)
    requires Inv(s) && !ReconnectsByItself(s) && !Resumes(e)
    ensures var t := Step(o, s, e);
            Inv(t) && !ReconnectsByItself(t) && t.history.attempts == s.history.attempts
  {
    match e
    case Ticks(search, lines) => TickKeeps(o, s, search, lines);
    case Requests => RequestsKeep(o, s);
    case Disconnects(manual) => DisconnectKeeps(o, s, manual);
    case Deletes(index) => DeleteKeeps(o, s, index);
    case Submits(isSixDigits) => SubmitKeeps(o, s, isSixDigits);
    case SendsKey => SendKeyKeeps(o, s);
    case SendsAck(sessionId) => SendAckKeeps(o, s, sessionId);
    case Finishes(connected) => WorkerKeeps(s, connected);
  }

  /** Once told to stay away, or without a target, the device connects to nothing by itself. */
  lemma {:induction false} StaysAway(o: Oracle, s: Link, events: seq<Event>)
    requires Inv(s) && !ReconnectsByItself(s) && NoneResumes(events)
    ensures Run(o, s, events).history.attempts == s.history.attempts
    decreases |events|
  {
    if events != [] {
      IdleStep(o, s, events[0]);
      assert NoneResumes(events[1..]);
      StaysAway(o, Step(o, s, events[0]), events[1..]);
    }
  }

  // ---- The race ----------------------------------------------------------------------------

  /** At some point of the run a pair code is submitted while a worker is in flight. */
  predicate SubmitsInFlight(o: Oracle, s: Link, events: seq<Event>)
    decreases |events|
  {
    events != []
    && ((events[0].Submits? && s.inFlight) || SubmitsInFlight(o, Step(o, s, events[0]), events[1..]))
  }

  lemma StepRaces(o: Oracle, s: Link, e: Event)
    requires Inv(s)
    ensures Step(o, s, e).history.raced == (s.history.raced || (e.Submits? && s.inFlight))
  {
    match e
    case Ticks(search, lines) => TickKeeps(o, s, search, lines);
    case Requests => RequestsKeep(o, s);
    case Connects(index) => ConnectKeeps(o, s, index);
    case ConnectsPaired(index) => ConnectPairedKeeps(o, s, index);
    case Disconnects(manual) => DisconnectKeeps(o, s, manual);
    case Deletes(index) => DeleteKeeps(o, s, index);
    case Submits(isSixDigits) => SubmitKeeps(o, s, isSixDigits);
    case SendsKey => SendKeyKeeps(o, s);
    case SendsAck(sessionId) => SendAckKeeps(o, s, sessionId);
    case Finishes(connected) => WorkerKeeps(s, connected);
  }

  /** The main loop touches the socket beside a worker exactly if a pair code is submitted then. */
  lemma {:induction false} RacesIffSubmitted(o: Oracle, s: Link, events: seq<Event>)
    requires Inv(s)
    ensures Run(o, s, events).history.raced <==> s.history.raced || SubmitsInFlight(o, s, events)
    decreases |events|
  {
    if events != [] {
      StepRaces(o, s, events[0]);
      StepFollows(o, s, events[0]);
      RacesIffSubmitted(o, Step(o, s, events[0]), events[1..]);
    }
  }

  /** A search to reconnect to "m" is under way. */
  predicate Searches(s: Link) {
    && s.discovery.searching && s.discovery.forReconnect && s.discovery.mdnsStarted
    && s.target.id == "m" && !s.manualDisconnect && s.hasQueue && !s.inFlight
    && s.outside.queue.None?
  }

  predicate IsConnecting(s: Link) {
    s.inFlight && s.outside.queue.None? && s.discovery.mdnsStarted
  }

  function Yes(): Oracle {
    Oracle(_ => true, _ => 0)
  }

  lemma SearchBegins()
    ensures Searches(Step(Yes(), Begin([PairedMac("m", "t")], "m", true), Ticks(None, [])))
  {
  }

  lemma AttemptStarts(s: Link)
    requires !s.inFlight && s.hasQueue && s.target.ip != 0 && s.outside.queue.None? && s.discovery.mdnsStarted
    ensures IsConnecting(AttemptConnection(Yes(), s))
  {
  }

  lemma SearchFinds(s: Link)
    requires Searches(s)
    ensures IsConnecting(PollDiscovery(Yes(), s, Some([Advert("m", "", 1, 0)])))
  {
    var m := Mac("m", 1, CONTROL_PORT);
    assert Collected([Advert("m", "", 1, 0)], MAX_DISCOVERED_MACS) == [m];
    var t := s.(discovery := s.discovery.(searching := false, forReconnect := false), discovered := [m]);
    var u := FinishDiscovery(Yes(), Ask(Yes(), t).0, true);
    assert FindMac([m], "m") == Some(m);
    var (v, up) := ClientConnected(Yes(), Ask(Yes(), t).0);
    AttemptStarts(Retarget(Noted(v, if up then v.state else Offline, Some(m)), m));
    assert IsConnecting(u);
  }

  lemma ConnectingGoesOn(s: Link, search: Option<seq<Advert>>)
    requires IsConnecting(PollDiscovery(Yes(), s, search))
    ensures Tick(Yes(), s, search, []).inFlight
  {
  }

  lemma SubmitRaces(s: Link)
    requires s.inFlight
    ensures SubmitPairCode(Yes(), s, true).history.raced
  {
  }

  lemma ThenRaces(s: Link, search: Event, submit: Event)
    requires Searches(s) && search == Ticks(Some([Advert("m", "", 1, 0)]), []) && submit == Submits(true)
    ensures Step(Yes(), Step(Yes(), s, search), submit).history.raced
  {
    SearchFinds(s);
    ConnectingGoesOn(s, search.search);
    SubmitRaces(Step(Yes(), s, search));
  }

  lemma {:induction false} InTurn(o: Oracle, s: Link, a: Event, b: Event, c: Event)
    ensures Run(o, s, [a, b, c]) == Step(o, Step(o, Step(o, s, a), b), c)
  {
    assert [a, b, c][1..] == [b, c] && [b, c][1..] == [c] && [c][1..] == [];
    var t := Step(o, s, a);
    var u := Step(o, t, b);
    assert Run(o, u, [c]) == Step(o, u, c);
    assert Run(o, t, [b, c]) == Run(o, u, [c]);
  }

  lemma RaceIn(begin: Link, tick: Event, search: Event, submit: Event)
    requires Searches(Step(Yes(), begin, tick))
    requires search == Ticks(Some([Advert("m", "", 1, 0)]), []) && submit == Submits(true)
    ensures Run(Yes(), begin, [tick, search, submit]).history.raced
  {
    var s := Step(Yes(), begin, tick);
    ThenRaces(s, search, submit);
    InTurn(Yes(), begin, tick, search, submit);
  }

  /** From the start: a search finds the Mac, a worker connects to it, and a pair code is submitted. */
  lemma RaceHappens()
    ensures var events := [Ticks(None, []), Ticks(Some([Advert("m", "", 1, 0)]), []), Submits(true)];
            Run(Yes(), Begin([PairedMac("m", "t")], "m", true), events).history.raced
  {
    SearchBegins();
    RaceIn(Begin([PairedMac("m", "t")], "m", true), Ticks(None, []),
           Ticks(Some([Advert("m", "", 1, 0)]), []), Submits(true));
  }

  // ---- Backoff -----------------------------------------------------------------------------

  /** The wait holds across the wrap of the clock: due once the delay has passed, for 24 days. */
  lemma WaitsOutTheDelay(o: Oracle, s: Link, elapsed: nat)
    requires RECONNECT_MIN_MS <= s.reconnectDelay <= RECONNECT_MAX_MS && elapsed < CLOCK / 2
    ensures var start, t := Now(o, s).1, ScheduleReconnect(o, s);
            DeadlineReached((start + elapsed) % CLOCK, t.nextConnect) <==> elapsed >= s.reconnectDelay
  {
  }
}
