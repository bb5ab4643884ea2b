/**
  The device's connection machine (firmware/m5stack-cardputer-adv/src/pairing.cpp), on values.

  One main loop ticks; at most one worker task opens the socket meanwhile. Everything the code
  asks of the world (is WiFi up, is the socket alive, did a send succeed, what time is it) is
  answered by an `Oracle`, one answer for each question in the order they are asked.
 */
module Pairings {
  import opened Common

  type Id = string
  type Token = string
  type Ip = nat

  const CONTROL_PORT := 7788
  const HEARTBEAT_MS := 5000
  const HEARTBEAT_MISS_LIMIT := 3
  const RECONNECT_MIN_MS := 1000
  const RECONNECT_MAX_MS := 20000
  const MAX_PAIRED_MACS := 4
  const MAX_DISCOVERED_MACS := 8
  const TOKEN_LENGTH := 64

  datatype Oracle = Oracle(yes: nat -> bool, now: nat -> Millis)

  datatype LinkState = Offline | Discovering | Connecting | AwaitingPairCode | Authenticating | Connected | Incompatible

  datatype PairedMac = PairedMac(id: Id, token: Token)

  datatype Mac = Mac(id: Id, ip: Ip, port: nat)

  /** One mDNS answer; the address is 0 when the service came without its A record. */
  datatype Advert = Advert(id: Id, hostname: Id, ip: Ip, port: nat)

  datatype Target = Target(id: Id, token: Token, ip: Ip, port: nat)

  datatype Discovery = Discovery(
    mdnsStarted: bool, searching: bool, requested: bool, forReconnect: bool, required: bool)

  /** A started worker; `listed` notes that discovery listed this address for this Mac. */
  datatype Attempt = Attempt(id: Id, ip: Ip, port: nat, generation: nat, listed: bool)

  datatype ConnectResult = ConnectResult(generation: nat, connected: bool)

  /** `client_`: stopped, open to the Mac it was opened for, or found dead but not stopped. */
  datatype Socket = Closed | Open(id: Id) | Dropped

  /** What lives outside the main loop: the questions asked so far, the worker, its queue, the socket. */
  datatype Outside = Outside(asked: nat, worker: Option<Attempt>, queue: Option<ConnectResult>, socket: Socket)

  datatype Hello = Hello(target: Id, token: Token, socket: Socket)

  /** What happened so far; `raced` notes that the main loop touched the socket beside a worker. */
  datatype History = History(attempts: seq<Attempt>, hellos: seq<Hello>, raced: bool)

  datatype Link = Link(
    paired: seq<PairedMac>,
    discovered: seq<Mac>,
    target: Target,
    state: LinkState,
    discovery: Discovery,
    manualDisconnect: bool,
    hasQueue: bool,
    inFlight: bool,
    cancelled: bool,
    generation: nat,
    missedPongs: nat,
    lastHeartbeat: Millis,
    nextConnect: Millis,
    reconnectDelay: nat,
    outside: Outside,
    history: History)

  // ---- Questions to the world ------------------------------------------------------------

  function Ask(o: Oracle, s: Link): (Link, bool) {
    (s.(outside := s.outside.(asked := s.outside.asked + 1)), o.yes(s.outside.asked))
  }

  function Now(o: Oracle, s: Link): (Link, Millis) {
    (s.(outside := s.outside.(asked := s.outside.asked + 1)), o.now(s.outside.asked))
  }

  function Touched(s: Link): Link {
    s.(history := s.history.(raced := s.history.raced || s.inFlight))
  }

  /** `client_.connected()`. Beside a worker any answer is possible; otherwise a dead socket stays dead. */
  function ClientConnected(o: Oracle, s: Link): (Link, bool) {
    var (t, alive) := Ask(o, Touched(s));
    if s.inFlight then (t, alive)
    else if !s.outside.socket.Open? then (t, false)
    else if alive then (t, true)
    else (t.(outside := t.outside.(socket := Dropped)), false)
  }

  /** `client_.stop()`. */
  function ClientStop(s: Link): Link {
    Touched(s).(outside := s.outside.(socket := Closed))
  }

  /** `sendDocument`: whether the line was written in full is the world's answer. */
  function SendDocument(o: Oracle, s: Link): (Link, bool) {
    var (t, up) := ClientConnected(o, s);
    if !up then (t, false) else Ask(o, Touched(t))
  }

  predicate DeadlineReached(now: Millis, deadline: Millis) {
    Elapsed(now, deadline) < CLOCK / 2
  }

  function PairedToken(paired: seq<PairedMac>, id: Id): Token {
    if paired == [] then ""
    else if paired[0].id == id then paired[0].token
    else PairedToken(paired[1..], id)
  }

  /** `discoveredIndexById`. */
  function FindMac(macs: seq<Mac>, id: Id): (m: Option<Mac>)
    ensures m.Some? ==> m.value in macs && m.value.id == id
  {
    if macs == [] then None else if macs[0].id == id then Some(macs[0]) else FindMac(macs[1..], id)
  }

  // ---- Losing and scheduling connections -------------------------------------------------

  function ScheduleReconnect(o: Oracle, s: Link): Link {
    var (t, now) := Now(o, s);
    t.(nextConnect := (now + s.reconnectDelay) % CLOCK,
       reconnectDelay := if s.reconnectDelay * 2 < RECONNECT_MAX_MS then s.reconnectDelay * 2 else RECONNECT_MAX_MS,
       discovery := s.discovery.(required := true))
  }

  function CancelConnectionAttempt(o: Oracle, s: Link): Link {
    if s.inFlight then s.(cancelled := true)
    else
      var (t, up) := ClientConnected(o, s);
      if up then ClientStop(t) else t
  }

  function ConnectionLost(o: Oracle, s: Link): Link {
    ScheduleReconnect(o, CancelConnectionAttempt(o, s).(state := Offline))
  }

  function Disconnect(o: Oracle, s: Link, manual: bool): Link {
    var t := CancelConnectionAttempt(o, s).(state := Offline, manualDisconnect := manual, missedPongs := 0);
    if manual then t.(target := t.target.(id := "", token := "")) else t
  }

  predicate ReconnectsByItself(s: Link) {
    !s.manualDisconnect && s.target.id != ""
  }

  // ---- Opening a connection --------------------------------------------------------------

  function NextGeneration(g: nat): nat {
    (g + 1) % CLOCK
  }

  function Failed(o: Oracle, s: Link): Link {
    ScheduleReconnect(o, s).(state := Offline)
  }

  function AttemptConnection(o: Oracle, s: Link): Link {
    if s.inFlight then s
    else if s.target.ip == 0 || !s.hasQueue then ScheduleReconnect(o, s)
    else
      var (t, hasContext) := Ask(o, ClientStop(s).(state := Connecting));
      if hasContext then CreateTask(o, t) else Failed(o, t)
  }

  function CreateTask(o: Oracle, s: Link): Link {
    var (t, created) := Ask(o, s.(generation := NextGeneration(s.generation), cancelled := false));
    if created then Launched(t) else Failed(o, t)
  }

  predicate IsListed(s: Link) {
    s.target.ip != 0 && Mac(s.target.id, s.target.ip, s.target.port) in s.discovered
  }

  function Launched(s: Link): Link {
    var a := Attempt(s.target.id, s.target.ip, s.target.port, s.generation, IsListed(s));
    s.(inFlight := true,
       outside := s.outside.(worker := Some(a)),
       history := s.history.(attempts := s.history.attempts + [a]))
  }

  function Retarget(s: Link, m: Mac): Link {
    s.(target := s.target.(ip := m.ip, port := m.port))
  }

  function SendHello(o: Oracle, s: Link): Link {
    var named := s.(target := s.target.(token := PairedToken(s.paired, s.target.id)));
    var (t, up) := ClientConnected(o, named);
    if up then Greet(o, t) else ConnectionLost(o, t)
  }

  function Greet(o: Oracle, s: Link): Link {
    var (t, sent) := Ask(o, Greeted(Touched(s)));
    if sent then t.(state := if t.target.token == "" then AwaitingPairCode else Authenticating)
    else ConnectionLost(o, t)
  }

  function Greeted(s: Link): Link {
    s.(history := s.history.(hellos := s.history.hellos + [Hello(s.target.id, s.target.token, s.outside.socket)]))
  }

  function PollConnectionAttempt(o: Oracle, s: Link): Link {
    if !s.inFlight || !s.hasQueue || s.outside.queue.None? then s
    else
      var result := s.outside.queue.value;
      var t := s.(inFlight := false, outside := s.outside.(queue := None));
      if s.cancelled || result.generation != s.generation then Abandoned(t, result.connected)
      else Judge(o, t, result.connected)
  }

  /** The rest of the poll, for a result of the current generation that was not cancelled. */
  function Judge(o: Oracle, s: Link, connected: bool): Link {
    var (t, wifi) := Ask(o, s);
    if !wifi then Abandoned(t, connected)
    else if !connected then Failed(o, t)
    else Adopt(o, t)
  }

  function Adopt(o: Oracle, s: Link): Link {
    SendHello(o, Fresh(o, s))
  }

  function Fresh(o: Oracle, s: Link): Link {
    var (t, now) := Now(o, s);
    t.(missedPongs := 0, lastHeartbeat := now)
  }

  function Abandoned(s: Link, connected: bool): Link {
    (if connected then ClientStop(s) else s).(state := Offline, cancelled := false)
  }

  // ---- Discovery -------------------------------------------------------------------------

  function Collected(adverts: seq<Advert>, room: nat): seq<Mac> {
    if adverts == [] || room == 0 then []
    else
      var a := adverts[0];
      if a.ip == 0 then Collected(adverts[1..], room)
      else
        [Mac(if a.id == "" then a.hostname else a.id, a.ip, if a.port == 0 then CONTROL_PORT else a.port)]
        + Collected(adverts[1..], room - 1)
  }

  function StartDiscovery(o: Oracle, s: Link, forReconnect: bool): Link {
    var (t, wifi) := Ask(o, s);
    if !wifi || !t.discovery.mdnsStarted || t.inFlight then t
    else if t.discovery.searching then
      if forReconnect then t.(discovery := t.discovery.(forReconnect := true)) else t
    else ShowSearch(o, t, forReconnect)
  }

  function ShowSearch(o: Oracle, s: Link, forReconnect: bool): Link {
    var (t, up) := ClientConnected(o, s);
    StartSearch(o, t.(state := if up then t.state else Discovering), forReconnect)
  }

  function StartSearch(o: Oracle, s: Link, forReconnect: bool): Link {
    var (t, found) := Ask(o, s);
    if found then
      t.(discovery := t.discovery.(requested := false, forReconnect := forReconnect, searching := true))
    else SearchFailed(o, t.(discovery := t.discovery.(requested := false, forReconnect := false)), forReconnect)
  }

  function SearchFailed(o: Oracle, s: Link, forReconnect: bool): Link {
    var (t, up) := ClientConnected(o, s);
    var u := if up then t else t.(state := Offline);
    if forReconnect then ScheduleReconnect(o, u) else u
  }

  /** `search` holds what a finished search found. */
  function PollDiscovery(o: Oracle, s: Link, search: Option<seq<Advert>>): Link {
    if !s.discovery.searching || search.None? then s
    else
      var (t, wifi) := Ask(o, s.(discovery := s.discovery.(searching := false, forReconnect := false)));
      if !wifi then t.(discovered := [], discovery := t.discovery.(required := true))
      else FinishDiscovery(o, t.(discovered := Collected(search.value, MAX_DISCOVERED_MACS)), s.discovery.forReconnect)
  }

  function FinishDiscovery(o: Oracle, s: Link, forReconnect: bool): Link {
    var (t, up) := ClientConnected(o, s);
    var found := if t.target.id == "" then None else FindMac(t.discovered, t.target.id);
    Follow(o, Noted(t, if up then t.state else Offline, found), forReconnect, found)
  }

  function Noted(s: Link, shown: LinkState, found: Option<Mac>): Link {
    s.(state := shown, discovery := s.discovery.(required := s.target.id != "" && found.None?))
  }

  /** A search made to reconnect leads to an attempt, or to waiting. */
  function Follow(o: Oracle, s: Link, forReconnect: bool, found: Option<Mac>): Link {
    if !forReconnect || s.manualDisconnect || s.target.id == "" then s
    else if found.None? then ScheduleReconnect(o, s)
    else AttemptConnection(o, Retarget(s, found.value))
  }

  // ---- Messages --------------------------------------------------------------------------

  /** A received line: an authenticated kind carries its token, `Paired` the new one. */
  datatype Message =
    | Pong(token: Token)
    | Ping(token: Token)
    | UpgradeRequired
    | PairRequired
    | PairError
    | Paired(token: Token)
    | HelloOk
    | AuthError
    | Snapshot(token: Token)
    | Unknown

  predicate IsForged(s: Link, m: Message) {
    s.state == Connected && (m.Pong? || m.Ping? || m.Snapshot?) && m.token != s.target.token
  }

  function ForgetToken(paired: seq<PairedMac>, id: Id): seq<PairedMac> {
    if paired == [] then []
    else if paired[0].id == id then [paired[0].(token := "")] + paired[1..]
    else [paired[0]] + ForgetToken(paired[1..], id)
  }

  function StoreToken(paired: seq<PairedMac>, id: Id, token: Token): seq<PairedMac> {
    if paired == [] then [PairedMac(id, token)]
    else if paired[0].id == id then [PairedMac(id, token)] + paired[1..]
    else [paired[0]] + StoreToken(paired[1..], id, token)
  }

  predicate IsPaired(paired: seq<PairedMac>, id: Id) {
    exists i :: 0 <= i < |paired| && paired[i].id == id
  }

  /** Connected: the backoff starts over and the agent list is asked for. */
  function LinkUp(o: Oracle, s: Link): Link {
    SendDocument(o, s.(state := Connected, reconnectDelay := RECONNECT_MIN_MS)).0
  }

  function TakePaired(o: Oracle, s: Link, token: Token): Link {
    if |token| < TOKEN_LENGTH then ConnectionLost(o, s)
    else
      var t := s.(target := s.target.(token := token));
      if !IsPaired(s.paired, s.target.id) && |s.paired| >= MAX_PAIRED_MACS then ConnectionLost(o, t)
      else LinkUp(o, t.(paired := StoreToken(s.paired, s.target.id, token)))
  }

  function Forgotten(s: Link): Link {
    s.(paired := ForgetToken(s.paired, s.target.id), target := s.target.(token := ""), state := AwaitingPairCode)
  }

  /** The token was not accepted: it is forgotten, and the greeting repeated without one. */
  function TakeRefusal(o: Oracle, s: Link): Link {
    SendHello(o, Forgotten(s))
  }

  function HandleLine(o: Oracle, s: Link, m: Message): Link {
    if IsForged(s, m) then s
    else
      match m
      case Pong(_) => s.(missedPongs := 0)
      case Ping(_) => SendDocument(o, s).0
      case UpgradeRequired => ClientStop(s).(state := Incompatible, manualDisconnect := true, missedPongs := 0)
      case PairRequired => s.(state := AwaitingPairCode)
      case PairError => s.(state := AwaitingPairCode)
      case Paired(token) => TakePaired(o, s, token)
      case HelloOk => LinkUp(o, s)
      case AuthError => TakeRefusal(o, s)
      case Snapshot(_) => s
      case Unknown => s
  }

  /** Lines are read for as long as the socket has not been stopped. */
  function ReadIncoming(o: Oracle, s: Link, lines: seq<Message>): Link
    decreases |lines|
  {
    if lines == [] || s.outside.socket.Closed? then Touched(s)
    else ReadIncoming(o, HandleLine(o, Touched(s), lines[0]), lines[1..])
  }

  // ---- One tick --------------------------------------------------------------------------

  function WifiLost(o: Oracle, s: Link): Link {
    var t := CancelConnectionAttempt(o, s).(state := Offline, discovered := []);
    var d := t.discovery.(requested := false, required := true);
    if d.mdnsStarted && !d.searching then t.(discovery := d.(mdnsStarted := false), nextConnect := 0)
    else t.(discovery := d)
  }

  function StartMdns(o: Oracle, s: Link): Link {
    if s.discovery.mdnsStarted then s
    else
      var (t, started) := Ask(o, s);
      if !started then t
      else
        t.(discovery := t.discovery.(mdnsStarted := true, requested := true, required := true), nextConnect := 0)
  }

  function Heartbeat(o: Oracle, s: Link): Link {
    var (t, now) := Now(o, s);
    if Elapsed(now, t.lastHeartbeat) < HEARTBEAT_MS then t else Beat(o, t, now)
  }

  function Beat(o: Oracle, s: Link, now: Millis): Link {
    var (t, sent) := SendDocument(o, s);
    Pinged(o, t, sent, now)
  }

  function NextByte(b: nat): nat {
    if b >= 255 then 0 else b + 1
  }

  function Pinged(o: Oracle, s: Link, sent: bool, now: Millis): Link {
    if sent then Beaten(o, s, NextByte(s.missedPongs), now) else ConnectionLost(o, s)
  }

  /** A ping was sent: one more pong is missing, until one too many is. */
  function Beaten(o: Oracle, s: Link, missed: nat, now: Millis): Link {
    if missed >= HEARTBEAT_MISS_LIMIT then ConnectionLost(o, s.(missedPongs := missed))
    else s.(missedPongs := missed, lastHeartbeat := now)
  }

  predicate ExpectsSocket(state: LinkState) {
    state == Connected || state == Authenticating || state == AwaitingPairCode
  }

  function Reconnect(o: Oracle, s: Link): Link {
    var (t, now) := Now(o, s);
    if !DeadlineReached(now, t.nextConnect) then t
    else
      match FindMac(t.discovered, t.target.id)
      case Some(m) =>
        if !t.discovery.required then AttemptConnection(o, Retarget(t, m)) else StartDiscovery(o, t, true)
      case None => StartDiscovery(o, t, true)
  }

  function ServeRequest(o: Oracle, s: Link): Link {
    if !s.discovery.requested || s.inFlight then s
    else if !ReconnectsByItself(s) then StartDiscovery(o, s, false)
    else
      var (t, now) := Now(o, s);
      StartDiscovery(o, t, DeadlineReached(now, t.nextConnect))
  }

  /** No live socket: a connection that was expected is lost, and the next one may be due. */
  function Down(o: Oracle, s: Link): Link {
    var t := if ExpectsSocket(s.state) then ConnectionLost(o, s) else s;
    if ReconnectsByItself(t) && !t.discovery.searching then Reconnect(o, t) else t
  }

  function Serve(o: Oracle, s: Link, lines: seq<Message>): Link {
    if s.inFlight then s
    else
      var (t, up) := ClientConnected(o, s);
      if up then Heartbeat(o, ReadIncoming(o, t, lines)) else Down(o, t)
  }

  function Polled(o: Oracle, s: Link, search: Option<seq<Advert>>): Link {
    PollConnectionAttempt(o, PollDiscovery(o, s, search))
  }

  function Tick(o: Oracle, s: Link, search: Option<seq<Advert>>, lines: seq<Message>): Link {
    var (t, wifi) := Ask(o, Polled(o, s, search));
    if !wifi then WifiLost(o, t) else Serve(o, ServeRequest(o, StartMdns(o, t)), lines)
  }

  // ---- Calls from the user interface, and the worker -------------------------------------

  function RequestDiscovery(o: Oracle, s: Link): Link {
    var (t, wifi) := Ask(o, s);
    if wifi then t.(discovery := t.discovery.(requested := true)) else t
  }

  function ConnectToDiscovered(o: Oracle, s: Link, index: nat): Link {
    if index >= |s.discovered| then s
    else
      Chosen(Disconnect(o, s, false), s.discovered[index])
  }

  function Chosen(s: Link, m: Mac): Link {
    s.(target := Target(m.id, PairedToken(s.paired, m.id), m.ip, m.port),
       nextConnect := 0,
       reconnectDelay := RECONNECT_MIN_MS,
       discovery := s.discovery.(required := false))
  }

  /** `discoveredIndexById`, as a position. */
  function IndexOf(macs: seq<Mac>, id: Id): (i: nat)
    ensures i <= |macs| && (i < |macs| ==> macs[i].id == id)
  {
    if macs == [] || macs[0].id == id then 0 else 1 + IndexOf(macs[1..], id)
  }

  function ConnectToPaired(o: Oracle, s: Link, index: nat): Link {
    if index >= |s.paired| then s else ConnectToDiscovered(o, s, IndexOf(s.discovered, s.paired[index].id))
  }

  predicate IsCurrent(s: Link, index: nat) {
    index < |s.paired| && s.state == Connected && s.paired[index].id == s.target.id
  }

  function WithoutPairing(o: Oracle, s: Link, index: nat): Link
    requires index < |s.paired|
  {
    var t := if IsCurrent(s, index) then Disconnect(o, s, true) else s;
    t.(paired := s.paired[..index] + s.paired[index + 1..])
  }

  /** The last question is whether the store was saved. */
  function DeletePairing(o: Oracle, s: Link, index: nat): Link {
    if index >= |s.paired| then s else Ask(o, WithoutPairing(o, s, index)).0
  }

  /** `isSixDigits` is the check of the code's length and digits. */
  function SubmitPairCode(o: Oracle, s: Link, isSixDigits: bool): Link {
    var (t, up) := ClientConnected(o, s);
    if !up || !isSixDigits then t else SendDocument(o, t.(state := Authenticating)).0
  }

  /** Whether the code is sent. */
  predicate SubmitSends(o: Oracle, s: Link, isSixDigits: bool) {
    var (t, up) := ClientConnected(o, s);
    up && isSixDigits && SendDocument(o, t.(state := Authenticating)).1
  }

  function SendKey(o: Oracle, s: Link): Link {
    if s.state != Connected then s
    else
      var (t, up) := ClientConnected(o, s);
      if up then SendDocument(o, t).0 else t
  }

  /** Whether the key is sent. */
  predicate KeySends(o: Oracle, s: Link) {
    var (t, up) := ClientConnected(o, s);
    s.state == Connected && up && SendDocument(o, t).1
  }

  function SendAgentAck(o: Oracle, s: Link, sessionId: string): Link {
    if s.state != Connected || sessionId == "" then s else SendDocument(o, s).0
  }

  /** The worker's `connect` returns: the result is queued, the socket open or not. */
  function WorkerDone(s: Link, connected: bool): Link {
    if s.outside.worker.None? then s
    else
      var a := s.outside.worker.value;
      s.(outside := s.outside.(worker := None,
                               queue := Some(ConnectResult(a.generation, connected)),
                               socket := if connected then Open(a.id) else Closed))
  }

  datatype Event =
    | Ticks(search: Option<seq<Advert>>, lines: seq<Message>)
    | Requests
    | Connects(index: nat)
    | ConnectsPaired(index: nat)
    | Disconnects(manual: bool)
    | Deletes(index: nat)
    | Submits(isSixDigits: bool)
    | SendsKey
    | SendsAck(sessionId: string)
    | Finishes(connected: bool)

  function Step(o: Oracle, s: Link, e: Event): Link {
    match e
    case Ticks(search, lines) => Tick(o, s, search, lines)
    case Requests => RequestDiscovery(o, s)
    case Connects(index) => ConnectToDiscovered(o, s, index)
    case ConnectsPaired(index) => ConnectToPaired(o, s, index)
    case Disconnects(manual) => Disconnect(o, s, manual)
    case Deletes(index) => DeletePairing(o, s, index)
    case Submits(isSixDigits) => SubmitPairCode(o, s, isSixDigits)
    case SendsKey => SendKey(o, s)
    case SendsAck(sessionId) => SendAgentAck(o, s, sessionId)
    case Finishes(connected) => WorkerDone(s, connected)
  }

  /** `begin`, and the initial values of the fields. */
  function Begin(paired: seq<PairedMac>, lastMacId: Id, hasQueue: bool): Link {
    Link(paired, [], Target(lastMacId, "", 0, CONTROL_PORT), Offline, Discovery(false, false, false, false, true),
         false, hasQueue, false, false, 0, 0, 0, 0, RECONNECT_MIN_MS,
         Outside(0, None, None, Closed), History([], [], false))
  }

  function Run(o: Oracle, s: Link, events: seq<Event>): Link
    decreases |events|
  {
    if events == [] then s else Run(o, Step(o, s, events[0]), events[1..])
  }
}
