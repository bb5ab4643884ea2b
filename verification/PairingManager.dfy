/** The connection machine as the firmware has it: one object whose fields every call updates. */
module PairingManagers {
  import opened Common
  import opened Pairings
  import PairingRuns

  // ---- Lists searched by index -----------------------------------------------------------

  /** `i` is the first place in `paired` with this id, or the length if there is none. */
  ghost predicate IsFirstPaired(paired: seq<PairedMac>, id: Id, i: nat) {
    && i <= |paired|
    && (forall j :: 0 <= j < i ==> paired[j].id != id)
    && (i < |paired| ==> paired[i].id == id)
  }

  lemma {:induction false} TokenOfFirst(paired: seq<PairedMac>, id: Id, i: nat)
    requires IsFirstPaired(paired, id, i)
    ensures PairedToken(paired, id) == if i < |paired| then paired[i].token else ""
    decreases |paired|
  {
    if i > 0 {
      TokenOfFirst(paired[1..], id, i - 1);
    }
  }

  lemma {:induction false} ForgetFirst(paired: seq<PairedMac>, id: Id, i: nat)
    requires IsFirstPaired(paired, id, i)
    ensures ForgetToken(paired, id) == if i < |paired| then paired[i := paired[i].(token := "")] else paired
    decreases |paired|
  {
    if i > 0 {
      ForgetFirst(paired[1..], id, i - 1);
    }
  }

  lemma {:induction false} StoreFirst(paired: seq<PairedMac>, id: Id, i: nat, token: Token)
    requires IsFirstPaired(paired, id, i)
    ensures IsPaired(paired, id) <==> i < |paired|
    ensures StoreToken(paired, id, token)
            == if i < |paired| then paired[i := PairedMac(id, token)] else paired + [PairedMac(id, token)]
    decreases |paired|
  {
    if i > 0 {
      StoreFirst(paired[1..], id, i - 1, token);
    }
  }

  lemma {:induction false} FirstDiscovered(macs: seq<Mac>, id: Id, i: nat)
    requires i <= |macs| && (forall j :: 0 <= j < i ==> macs[j].id != id) && (i < |macs| ==> macs[i].id == id)
    ensures FindMac(macs, id) == if i < |macs| then Some(macs[i]) else None
    ensures IndexOf(macs, id) == i
    decreases |macs|
  {
    if i > 0 {
      FirstDiscovered(macs[1..], id, i - 1);
    }
  }

  lemma {:induction false} CollectedAfter(adverts: seq<Advert>, i: nat, macs: seq<Mac>)
    requires i <= |adverts| && |macs| <= MAX_DISCOVERED_MACS
    requires macs + Collected(adverts[i..], MAX_DISCOVERED_MACS - |macs|) == Collected(adverts, MAX_DISCOVERED_MACS)
    ensures i == |adverts| || |macs| == MAX_DISCOVERED_MACS ==> macs == Collected(adverts, MAX_DISCOVERED_MACS)
    ensures i < |adverts| && adverts[i].ip == 0 ==>
              macs + Collected(adverts[i + 1..], MAX_DISCOVERED_MACS - |macs|)
              == Collected(adverts, MAX_DISCOVERED_MACS)
    ensures i < |adverts| && adverts[i].ip != 0 && |macs| < MAX_DISCOVERED_MACS ==>
              var a := adverts[i];
              var m := Mac(if a.id == "" then a.hostname else a.id, a.ip, if a.port == 0 then CONTROL_PORT else a.port);
              macs + [m] + Collected(adverts[i + 1..], MAX_DISCOVERED_MACS - |macs| - 1)
              == Collected(adverts, MAX_DISCOVERED_MACS)
  {
    if i < |adverts| {
      assert adverts[i..][1..] == adverts[i + 1..];
    }
  }

  class PairingManager {
    const world: Oracle
    var paired: seq<PairedMac>
    var discovered: seq<Mac>
    var target: Target
    var state: LinkState
    var discovery: Discovery
    var manualDisconnect: bool
    var hasQueue: bool
    var inFlight: bool
    var cancelled: bool
    var generation: nat
    var missedPongs: nat
    var lastHeartbeat: Millis
    var nextConnect: Millis
    var reconnectDelay: nat
    var outside: Outside
    ghost var history: History

    ghost function State(): Link
      reads this
    {
      Link(paired, discovered, target, state, discovery, manualDisconnect, hasQueue, inFlight, cancelled, generation,
           missedPongs, lastHeartbeat, nextConnect, reconnectDelay, outside, history)
    }

    /** Between two calls from outside; what the parts of a tick keep is proved of `Pairings`. */
    ghost predicate Valid()
      reads this
    {
      PairingRuns.Inv(State())
    }

    constructor (world: Oracle, paired: seq<PairedMac>, lastMacId: Id, hasQueue: bool)
      ensures Valid() && this.world == world && State() == Begin(paired, lastMacId, hasQueue)
    {
      this.world, this.paired, this.hasQueue := world, paired, hasQueue;
      discovered, target, state := [], Target(lastMacId, "", 0, CONTROL_PORT), Offline;
      discovery, manualDisconnect := Discovery(false, false, false, false, true), false;
      inFlight, cancelled, generation, missedPongs := false, false, 0, 0;
      lastHeartbeat, nextConnect, reconnectDelay := 0, 0, RECONNECT_MIN_MS;
      outside, history := Outside(0, None, None, Closed), History([], [], false);
    }

    // ---- The world -----------------------------------------------------------------------

    method Ask() returns (answer: bool)
      modifies this`outside
      ensures (State(), answer) == Pairings.Ask(world, old(State()))
    {
      answer := world.yes(outside.asked);
      outside := outside.(asked := outside.asked + 1);
    }

    method Now() returns (now: Millis)
      modifies this`outside
      ensures (State(), now) == Pairings.Now(world, old(State()))
    {
      now := world.now(outside.asked);
      outside := outside.(asked := outside.asked + 1);
    }

    ghost method Touch()
      modifies this`history
      ensures State() == Touched(old(State()))
    {
      history := history.(raced := history.raced || inFlight);
    }

    method ClientConnected() returns (up: bool)
      modifies this`outside, this`history
      ensures (State(), up) == Pairings.ClientConnected(world, old(State()))
    {
      Touch();
      up := Ask();
      if !inFlight {
        if !outside.socket.Open? {
          up := false;
        } else if !up {
          outside := outside.(socket := Dropped);
        }
      }
    }

    method ClientStop()
      modifies this`outside, this`history
      ensures State() == Pairings.ClientStop(old(State()))
    {
      Touch();
      outside := outside.(socket := Closed);
    }

    method SendDocument() returns (sent: bool)
      modifies this`outside, this`history
      ensures (State(), sent) == Pairings.SendDocument(world, old(State()))
    {
      var up := ClientConnected();
      if !up {
        return false;
      }
      Touch();
      sent := Ask();
    }

    // ---- Losing and scheduling connections -----------------------------------------------

    method ScheduleReconnect()
      modifies this
      ensures State() == Pairings.ScheduleReconnect(world, old(State()))
    {
      var now := Now();
      nextConnect := (now + reconnectDelay) % CLOCK;
      reconnectDelay := if reconnectDelay * 2 < RECONNECT_MAX_MS then reconnectDelay * 2 else RECONNECT_MAX_MS;
      discovery := discovery.(required := true);
    }

    method CancelConnectionAttempt()
      modifies this
      ensures State() == Pairings.CancelConnectionAttempt(world, old(State()))
    {
      if inFlight {
        cancelled := true;
      } else {
        var up := ClientConnected();
        if up {
          ClientStop();
        }
      }
    }

    method ConnectionLost()
      modifies this
      ensures State() == Pairings.ConnectionLost(world, old(State()))
    {
      CancelConnectionAttempt();
      state := Offline;
      ScheduleReconnect();
    }

    method Disconnect(manual: bool)
      requires Valid()
      modifies this
      ensures Valid() && State() == Pairings.Disconnect(world, old(State()), manual)
    {
      PairingRuns.DisconnectKeeps(world, State(), manual);
      HangUp(manual);
    }

    method HangUp(manual: bool)
      modifies this
      ensures State() == Pairings.Disconnect(world, old(State()), manual)
    {
      CancelConnectionAttempt();
      state := Offline;
      manualDisconnect := manual;
      missedPongs := 0;
      if manual {
        target := target.(id := "", token := "");
      }
    }

    // ---- Opening a connection ------------------------------------------------------------

    method PairedIndexById(id: Id) returns (i: nat)
      ensures IsFirstPaired(paired, id, i)
    {
      i := 0;
      while i < |paired| && paired[i].id != id
        invariant i <= |paired| && forall j :: 0 <= j < i ==> paired[j].id != id
      {
        i := i + 1;
      }
    }

    method DiscoveredIndexById(id: Id) returns (i: nat)
      ensures i == IndexOf(discovered, id) && i <= |discovered|
      ensures FindMac(discovered, id) == if i < |discovered| then Some(discovered[i]) else None
    {
      i := 0;
      while i < |discovered| && discovered[i].id != id
        invariant i <= |discovered| && forall j :: 0 <= j < i ==> discovered[j].id != id
      {
        i := i + 1;
      }
      FirstDiscovered(discovered, id, i);
    }

    method Fail()
      modifies this
      ensures State() == Failed(world, old(State()))
    {
      ScheduleReconnect();
      state := Offline;
    }

    method AttemptConnection()
      modifies this
      ensures State() == Pairings.AttemptConnection(world, old(State()))
    {
      if inFlight {
        return;
      }
      if target.ip == 0 || !hasQueue {
        ScheduleReconnect();
        return;
      }
      state := Connecting;
      ClientStop();
      var hasContext := Ask();
      if !hasContext {
        Fail();
        return;
      }
      CreateTask();
    }

    method CreateTask()
      modifies this
      ensures State() == Pairings.CreateTask(world, old(State()))
    {
      generation := NextGeneration(generation);
      cancelled := false;
      var created := Ask();
      if created {
        Launch();
      } else {
        Fail();
      }
    }

    method Launch()
      modifies this
      ensures State() == Launched(old(State()))
    {
      var listed := target.ip != 0 && Mac(target.id, target.ip, target.port) in discovered;
      var attempt := Attempt(target.id, target.ip, target.port, generation, listed);
      inFlight := true;
      outside := outside.(worker := Some(attempt));
      history := history.(attempts := history.attempts + [attempt]);
    }

    /** The worker task, whose `connect` ends as `connected` says. */
    method ConnectTaskEntry(connected: bool)
      requires Valid()
      modifies this
      ensures Valid() && State() == WorkerDone(old(State()), connected)
    {
      PairingRuns.WorkerKeeps(State(), connected);
      if outside.worker.Some? {
        var a := outside.worker.value;
        outside := outside.(worker := None, queue := Some(ConnectResult(a.generation, connected)),
                            socket := if connected then Open(a.id) else Closed);
      }
    }

    method SendHello()
      modifies this
      ensures State() == Pairings.SendHello(world, old(State()))
    {
      LoadToken();
      var up := ClientConnected();
      if up {
        Greet();
      } else {
        ConnectionLost();
      }
    }

    method LoadToken()
      modifies this`target
      ensures State() == old(State()).(target := old(target).(token := PairedToken(paired, old(target).id)))
    {
      var i := PairedIndexById(target.id);
      TokenOfFirst(paired, target.id, i);
      target := target.(token := if i < |paired| then paired[i].token else "");
    }

    method Greet()
      modifies this
      ensures State() == Pairings.Greet(world, old(State()))
    {
      Touch();
      history := history.(hellos := history.hellos + [Hello(target.id, target.token, outside.socket)]);
      var sent := Ask();
      if sent {
        state := if target.token == "" then AwaitingPairCode else Authenticating;
      } else {
        ConnectionLost();
      }
    }

    method Abandon(connected: bool)
      modifies this
      ensures State() == Abandoned(old(State()), connected)
    {
      cancelled := false;
      if connected {
        ClientStop();
      }
      state := Offline;
    }

    method PollConnectionAttempt()
      modifies this
      ensures State() == Pairings.PollConnectionAttempt(world, old(State()))
    {
      if !inFlight || !hasQueue || outside.queue.None? {
        return;
      }
      var result := outside.queue.value;
      outside := outside.(queue := None);
      inFlight := false;
      if cancelled || result.generation != generation {
        Abandon(result.connected);
      } else {
        Judge(result.connected);
      }
    }

    method Judge(connected: bool)
      modifies this
      ensures State() == Pairings.Judge(world, old(State()), connected)
    {
      var wifi := Ask();
      if !wifi {
        Abandon(connected);
        return;
      }
      if !connected {
        Fail();
        return;
      }
      Adopt();
    }

    method Adopt()
      modifies this
      ensures State() == Pairings.Adopt(world, old(State()))
    {
      Freshen();
      SendHello();
    }

    method Freshen()
      modifies this
      ensures State() == Fresh(world, old(State()))
    {
      missedPongs := 0;
      lastHeartbeat := Now();
    }

    // ---- Discovery -----------------------------------------------------------------------

    method CollectDiscoveryResults(adverts: seq<Advert>)
      modifies this`discovered
      ensures discovered == Collected(adverts, MAX_DISCOVERED_MACS)
    {
      discovered := [];
      var i := 0;
      CollectedAfter(adverts, 0, []);
      while i < |adverts| && |discovered| < MAX_DISCOVERED_MACS
        invariant i <= |adverts| && |discovered| <= MAX_DISCOVERED_MACS
        invariant discovered + Collected(adverts[i..], MAX_DISCOVERED_MACS - |discovered|)
                  == Collected(adverts, MAX_DISCOVERED_MACS)
      {
        CollectedAfter(adverts, i, discovered);
        var a := adverts[i];
        i := i + 1;
        if a.ip == 0 {
          continue;
        }
        var id := if a.id == "" then a.hostname else a.id;
        discovered := discovered + [Mac(id, a.ip, if a.port == 0 then CONTROL_PORT else a.port)];
      }
      CollectedAfter(adverts, i, discovered);
    }

    method SearchFailed(forReconnect: bool)
      modifies this
      ensures State() == Pairings.SearchFailed(world, old(State()), forReconnect)
      ensures discovery.searching == old(discovery).searching
    {
      var up := ClientConnected();
      if !up {
        state := Offline;
      }
      if forReconnect {
        ScheduleReconnect();
      }
    }

    method StartSearch(forReconnect: bool) returns (found: bool)
      requires !discovery.searching
      modifies this
      ensures State() == Pairings.StartSearch(world, old(State()), forReconnect)
      ensures found == discovery.searching
    {
      found := Ask();
      if found {
        discovery := discovery.(requested := false, forReconnect := forReconnect, searching := true);
      } else {
        discovery := discovery.(requested := false, forReconnect := false);
        SearchFailed(forReconnect);
      }
    }

    /** Whether a search is under way then, if one may be. */
    method StartDiscovery(forReconnect: bool) returns (started: bool)
      modifies this
      ensures State() == Pairings.StartDiscovery(world, old(State()), forReconnect)
      ensures started == (Pairings.Ask(world, old(State())).1 && old(discovery).mdnsStarted && !old(inFlight)
                          && discovery.searching)
    {
      var wifi := Ask();
      if !wifi || !discovery.mdnsStarted || inFlight {
        return false;
      }
      if discovery.searching {
        if forReconnect {
          discovery := discovery.(forReconnect := true);
        }
        return true;
      }
      started := ShowSearch(forReconnect);
    }

    method ShowSearch(forReconnect: bool) returns (found: bool)
      requires !discovery.searching
      modifies this
      ensures State() == Pairings.ShowSearch(world, old(State()), forReconnect)
      ensures found == discovery.searching
    {
      var up := ClientConnected();
      state := if up then state else Discovering;
      found := StartSearch(forReconnect);
    }

    method FinishDiscovery(forReconnect: bool)
      modifies this
      ensures State() == Pairings.FinishDiscovery(world, old(State()), forReconnect)
    {
      var up := ClientConnected();
      if !up {
        state := Offline;
      }
      var i := DiscoveredIndexById(target.id);
      var found := if target.id != "" && i < |discovered| then Some(discovered[i]) else None;
      discovery := discovery.(required := target.id != "" && found.None?);
      Follow(forReconnect, found);
    }

    method Follow(forReconnect: bool, found: Option<Mac>)
      modifies this
      ensures State() == Pairings.Follow(world, old(State()), forReconnect, found)
    {
      if !forReconnect || manualDisconnect || target.id == "" {
        return;
      }
      if found.None? {
        ScheduleReconnect();
        return;
      }
      target := target.(ip := found.value.ip, port := found.value.port);
      AttemptConnection();
    }

    method PollDiscovery(search: Option<seq<Advert>>)
      modifies this
      ensures State() == Pairings.PollDiscovery(world, old(State()), search)
    {
      if !discovery.searching || search.None? {
        return;
      }
      var forReconnect := discovery.forReconnect;
      discovery := discovery.(searching := false, forReconnect := false);
      var wifi := Ask();
      if !wifi {
        discovered := [];
        discovery := discovery.(required := true);
        return;
      }
      CollectDiscoveryResults(search.value);
      FinishDiscovery(forReconnect);
    }

    // ---- Messages ------------------------------------------------------------------------

    method LinkUp()
      modifies this
      ensures State() == Pairings.LinkUp(world, old(State()))
    {
      state := Connected;
      reconnectDelay := RECONNECT_MIN_MS;
      var _ := SendDocument();
    }

    method TakePaired(token: Token)
      modifies this
      ensures State() == Pairings.TakePaired(world, old(State()), token)
    {
      if |token| < TOKEN_LENGTH {
        ConnectionLost();
        return;
      }
      target := target.(token := token);
      var i := PairedIndexById(target.id);
      StoreFirst(paired, target.id, i, token);
      if i == |paired| {
        if |paired| >= MAX_PAIRED_MACS {
          ConnectionLost();
          return;
        }
        paired := paired + [PairedMac(target.id, token)];
      } else {
        paired := paired[i := PairedMac(target.id, token)];
      }
      LinkUp();
    }

    method Forget()
      modifies this
      ensures State() == Forgotten(old(State()))
    {
      var i := PairedIndexById(target.id);
      ForgetFirst(paired, target.id, i);
      if i < |paired| {
        paired := paired[i := paired[i].(token := "")];
      }
      target := target.(token := "");
      state := AwaitingPairCode;
    }

    method TakeRefusal()
      modifies this
      ensures State() == Pairings.TakeRefusal(world, old(State()))
    {
      Forget();
      SendHello();
    }

    method HandleLine(m: Message)
      modifies this
      ensures State() == Pairings.HandleLine(world, old(State()), m)
    {
      if state == Connected && (m.Pong? || m.Ping? || m.Snapshot?) && m.token != target.token {
        return;
      }
      match m
      case Pong(_) => missedPongs := 0;
      case Ping(_) => var _ := SendDocument();
      case UpgradeRequired =>
        ClientStop();
        state := Incompatible;
        manualDisconnect := true;
        missedPongs := 0;
      case PairRequired => state := AwaitingPairCode;
      case PairError => state := AwaitingPairCode;
      case Paired(token) => TakePaired(token);
      case HelloOk => LinkUp();
      case AuthError => TakeRefusal();
      case Snapshot(_) =>
      case Unknown =>
    }

    method ReadIncoming(lines: seq<Message>)
      modifies this
      ensures State() == Pairings.ReadIncoming(world, old(State()), lines)
    {
      var i := 0;
      while i < |lines| && !outside.socket.Closed?
        invariant i <= |lines|
        invariant Pairings.ReadIncoming(world, State(), lines[i..]) == Pairings.ReadIncoming(world, old(State()), lines)
      {
        assert lines[i..][1..] == lines[i + 1..];
        Touch();
        HandleLine(lines[i]);
        i := i + 1;
      }
      Touch();
    }

    // ---- One tick ------------------------------------------------------------------------

    method Heartbeat()
      modifies this
      ensures State() == Pairings.Heartbeat(world, old(State()))
    {
      var now := Now();
      if Elapsed(now, lastHeartbeat) < HEARTBEAT_MS {
        return;
      }
      Beat(now);
    }

    method Beat(now: Millis)
      modifies this
      ensures State() == Pairings.Beat(world, old(State()), now)
    {
      var sent := SendDocument();
      if !sent {
        ConnectionLost();
        return;
      }
      Beaten(NextByte(missedPongs), now);
    }

    method Beaten(missed: nat, now: Millis)
      modifies this
      ensures State() == Pairings.Beaten(world, old(State()), missed, now)
    {
      missedPongs := missed;
      if missedPongs >= HEARTBEAT_MISS_LIMIT {
        ConnectionLost();
        return;
      }
      lastHeartbeat := now;
    }

    method WifiLost()
      modifies this
      ensures State() == Pairings.WifiLost(world, old(State()))
    {
      CancelConnectionAttempt();
      state := Offline;
      discovered := [];
      discovery := discovery.(requested := false, required := true);
      if discovery.mdnsStarted && !discovery.searching {
        discovery := discovery.(mdnsStarted := false);
        nextConnect := 0;
      }
    }

    method StartMdns()
      modifies this
      ensures State() == Pairings.StartMdns(world, old(State()))
    {
      if !discovery.mdnsStarted {
        var started := Ask();
        if started {
          discovery := discovery.(mdnsStarted := true, requested := true, required := true);
          nextConnect := 0;
        }
      }
    }

    method IsDue() returns (due: bool)
      modifies this`outside
      ensures State() == Pairings.Now(world, old(State())).0
      ensures due == DeadlineReached(Pairings.Now(world, old(State())).1, nextConnect)
    {
      var now := Now();
      due := DeadlineReached(now, nextConnect);
    }

    method ServeRequest()
      modifies this
      ensures State() == Pairings.ServeRequest(world, old(State()))
    {
      if discovery.requested && !inFlight {
        var forReconnect := false;
        if !manualDisconnect && target.id != "" {
          forReconnect := IsDue();
        }
        var _ := StartDiscovery(forReconnect);
      }
    }

    method Reconnect()
      modifies this
      ensures State() == Pairings.Reconnect(world, old(State()))
    {
      var due := IsDue();
      if !due {
        return;
      }
      var i := DiscoveredIndexById(target.id);
      if i < |discovered| && !discovery.required {
        target := target.(ip := discovered[i].ip, port := discovered[i].port);
        AttemptConnection();
      } else {
        var _ := StartDiscovery(true);
      }
    }

    method Serve(lines: seq<Message>)
      modifies this
      ensures State() == Pairings.Serve(world, old(State()), lines)
    {
      if inFlight {
        return;
      }
      var up := ClientConnected();
      if up {
        ReadIncoming(lines);
        Heartbeat();
        return;
      }
      if state == Connected || state == Authenticating || state == AwaitingPairCode {
        ConnectionLost();
      }
      if !manualDisconnect && target.id != "" && !discovery.searching {
        Reconnect();
      }
    }

    method Tick(search: Option<seq<Advert>>, lines: seq<Message>)
      requires Valid()
      modifies this
      ensures Valid() && State() == Pairings.Tick(world, old(State()), search, lines)
    {
      PairingRuns.TickKeeps(world, State(), search, lines);
      PollDiscovery(search);
      PollConnectionAttempt();
      var wifi := Ask();
      if !wifi {
        WifiLost();
        return;
      }
      StartMdns();
      ServeRequest();
      Serve(lines);
    }

    // ---- Calls from the user interface ---------------------------------------------------

    method RequestDiscovery()
      requires Valid()
      modifies this
      ensures Valid() && State() == Pairings.RequestDiscovery(world, old(State()))
    {
      PairingRuns.RequestsKeep(world, State());
      var wifi := Ask();
      if wifi {
        discovery := discovery.(requested := true);
      }
    }

    method ConnectToDiscovered(index: nat) returns (done: bool)
      requires Valid()
      modifies this
      ensures done == (index < |old(discovered)|)
      ensures Valid() && State() == Pairings.ConnectToDiscovered(world, old(State()), index)
    {
      PairingRuns.ConnectKeeps(world, State(), index);
      done := Pick(index);
    }

    method Pick(index: nat) returns (done: bool)
      modifies this
      ensures done == (index < |old(discovered)|)
      ensures State() == Pairings.ConnectToDiscovered(world, old(State()), index)
    {
      if index >= |discovered| {
        return false;
      }
      HangUp(false);
      manualDisconnect := false;
      Choose(discovered[index]);
      done := true;
    }

    method Choose(m: Mac)
      modifies this
      ensures State() == Chosen(old(State()), m)
    {
      var i := PairedIndexById(m.id);
      TokenOfFirst(paired, m.id, i);
      target := Target(m.id, if i < |paired| then paired[i].token else "", m.ip, m.port);
      nextConnect := 0;
      reconnectDelay := RECONNECT_MIN_MS;
      discovery := discovery.(required := false);
    }

    method ConnectToPaired(index: nat) returns (done: bool)
      requires Valid()
      modifies this
      ensures Valid() && State() == Pairings.ConnectToPaired(world, old(State()), index)
      ensures done == (index < |old(paired)|
                       && IndexOf(old(discovered), old(paired)[index].id) < |old(discovered)|)
    {
      PairingRuns.ConnectPairedKeeps(world, State(), index);
      if index >= |paired| {
        return false;
      }
      var i := DiscoveredIndexById(paired[index].id);
      if i >= |discovered| {
        return false;
      }
      done := ConnectToDiscovered(i);
    }

    /** The answer is that of the store, which is asked last. */
    method DeletePairing(index: nat) returns (saved: bool)
      requires Valid()
      modifies this
      ensures saved == (index < |old(paired)| && Pairings.Ask(world, WithoutPairing(world, old(State()), index)).1)
      ensures Valid() && State() == Pairings.DeletePairing(world, old(State()), index)
    {
      PairingRuns.DeleteKeeps(world, State(), index);
      saved := Delete(index);
    }

    method Delete(index: nat) returns (saved: bool)
      modifies this
      ensures saved == (index < |old(paired)| && Pairings.Ask(world, WithoutPairing(world, old(State()), index)).1)
      ensures State() == Pairings.DeletePairing(world, old(State()), index)
    {
      if index >= |paired| {
        return false;
      }
      if state == Connected && paired[index].id == target.id {
        HangUp(true);
      }
      Shift(index);
      saved := Ask();
    }

    /** Moves every later pairing one place down, over the deleted one. */
    method Shift(index: nat)
      requires index < |paired|
      modifies this`paired
      ensures paired == old(paired)[..index] + old(paired)[index + 1..]
    {
      ghost var was := paired;
      var i := index;
      while i + 1 < |paired|
        invariant index <= i < |paired| == |was|
        invariant forall j :: 0 <= j < index || i <= j < |was| ==> paired[j] == was[j]
        invariant forall j :: index <= j < i ==> paired[j] == was[j + 1]
      {
        paired := paired[i := paired[i + 1]];
        i := i + 1;
      }
      var kept := paired[..|paired| - 1];
      assert forall j :: index <= j < |kept| ==> kept[j] == was[index + 1..][j - index];
      paired := kept;
    }

    method SubmitPairCode(isSixDigits: bool) returns (sent: bool)
      requires Valid()
      modifies this
      ensures Valid() && State() == Pairings.SubmitPairCode(world, old(State()), isSixDigits)
      ensures sent == SubmitSends(world, old(State()), isSixDigits)
    {
      PairingRuns.SubmitKeeps(world, State(), isSixDigits);
      sent := Submit(isSixDigits);
    }

    method Submit(isSixDigits: bool) returns (sent: bool)
      modifies this
      ensures State() == Pairings.SubmitPairCode(world, old(State()), isSixDigits)
      ensures sent == SubmitSends(world, old(State()), isSixDigits)
    {
      var up := ClientConnected();
      if !up || !isSixDigits {
        return false;
      }
      state := Authenticating;
      sent := SendDocument();
    }

    method SendKey() returns (sent: bool)
      requires Valid()
      modifies this
      ensures Valid() && State() == Pairings.SendKey(world, old(State()))
      ensures sent == KeySends(world, old(State()))
    {
      PairingRuns.SendKeyKeeps(world, State());
      if state != Connected {
        return false;
      }
      var up := ClientConnected();
      if !up {
        return false;
      }
      sent := SendDocument();
    }

    method SendAgentAck(sessionId: string) returns (sent: bool)
      requires Valid()
      modifies this
      ensures Valid() && State() == Pairings.SendAgentAck(world, old(State()), sessionId)
      ensures sent == (old(state) == Connected && sessionId != "" && Pairings.SendDocument(world, old(State())).1)
    {
      PairingRuns.SendAckKeeps(world, State(), sessionId);
      if state != Connected || sessionId == "" {
        return false;
      }
      sent := SendDocument();
    }
  }
}
