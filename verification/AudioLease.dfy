/**
  The microphone lease of `BridgeApp`: one audio output, one owner at a time.

  Sessions are named by their connections. `audio.jitter` is a reference to one session's
  buffer, so it is modelled by that session's name; before the first takeover it is the buffer
  the output was built with.
 */
module AudioLease {
  import opened Common
  import opened Devices
  import opened JitterBuffers
  import JitterRuns

  const IDLE_MS := 3000

  /** `marked` are the sessions whose own lease state says that they are the owner. */
  datatype Lease = Lease(
    buffers: map<Conn, Buffer>,
    own: Buffer,
    reading: Option<Conn>,
    owner: Option<DeviceId>,
    window: seq<int>,
    lastAudioMs: map<Conn, int>,
    marked: set<Conn>)

  const FREE := Lease(map[], EMPTY, None, None, [], map[], {})

  function BufferOf(l: Lease, c: Conn): Buffer {
    if c in l.buffers then l.buffers[c] else EMPTY
  }

  /** The buffer the output callback reads. */
  function Active(l: Lease): Buffer {
    match l.reading
    case None => l.own
    case Some(c) => BufferOf(l, c)
  }

  function WithActive(l: Lease, b: Buffer): Lease {
    match l.reading
    case None => l.(own := b)
    case Some(c) => l.(buffers := l.buffers[c := b])
  }

  function ResetBuffer(l: Lease, c: Conn): Lease {
    l.(buffers := l.buffers[c := Cleared(BufferOf(l, c))])
  }

  /** `reset_stream`: the resampler's samples and the buffer being read. */
  function ResetStream(l: Lease): Lease {
    WithActive(l, Cleared(Active(l))).(window := [])
  }

  // ---- The calls -----------------------------------------------------------------------

  /** `_audio_owner` forgets an owner that is no longer registered. */
  function Resolved(r: Registry, l: Lease): Lease {
    if l.owner.Some? && Get(r, l.owner.value).None? then l.(owner := None) else l
  }

  function OwnerSession(r: Registry, l: Lease): Option<Conn> {
    if l.owner.Some? then Get(r, l.owner.value) else None
  }

  function SetLease(r: Registry, l: Lease, c: Conn): Lease
    requires c in r.deviceOf
  {
    var previous := OwnerSession(r, l);
    var known := Resolved(r, l);
    if previous == Some(c) then known.(marked := known.marked + {c})
    else
      var quiet := if previous.Some? then Unmarked(known, previous.value) else known;
      var chosen := ResetBuffer(quiet, c).(owner := Some(r.deviceOf[c]), marked := quiet.marked + {c});
      ResetStream(chosen).(reading := Some(c))
  }

  /** A session that is the owner no more: its state says so, and its buffer is cleared. */
  function Unmarked(l: Lease, c: Conn): Lease {
    ResetBuffer(l, c).(marked := l.marked - {c})
  }

  /** The lease goes back: `c` is the session that loses it. */
  function Freed(l: Lease, c: Conn): Lease {
    ResetStream(Unmarked(l, c).(owner := None))
  }

  function ReleaseLease(r: Registry, l: Lease, only: Option<Conn>): Lease {
    var owner := OwnerSession(r, l);
    var known := Resolved(r, l);
    if owner.None? || (only.Some? && owner != only) then known
    else Freed(known, owner.value)
  }

  function ExpireLease(r: Registry, l: Lease, nowMs: int): Lease {
    var owner := OwnerSession(r, l);
    if owner.None? then Resolved(r, l)
    else
      var last := if owner.value in l.lastAudioMs then l.lastAudioMs[owner.value] else 0;
      if last <= 0 || nowMs - last <= IDLE_MS then l else ReleaseLease(r, l, owner)
  }

  /** The audio part of `_cleanup_session`. */
  function CleanupLease(r: Registry, l: Lease, c: Conn): Lease
    requires c in r.deviceOf
  {
    var current := Get(r, r.deviceOf[c]);
    var freed :=
      if l.owner != Some(r.deviceOf[c]) then l
      else if current == Some(c) || current.None? then ReleaseLease(r, l, Some(c))
      else Freed(l, c);
    ResetBuffer(freed, c)
  }

  /** `receive_audio`, once a registered session has authenticated the packet. */
  function ReceiveAudio(d: Depths, r: Registry, l: Lease, c: Conn, q: Sequence, f: Frame, nowMs: int): Lease
    requires c in r.deviceOf
  {
    var mine := Some(r.deviceOf[c]);
    var ready :=
      if l.owner.None? then SetLease(r, l, c)
      else if l.owner != mine then ResetBuffer(l, c)
      else l;
    var fed := ready.(buffers := ready.buffers[c := AfterFeed(d, BufferOf(ready, c), q, f)],
                      lastAudioMs := ready.lastAudioMs[c := nowMs]);
    if fed.owner == mine then fed.(reading := Some(c)) else fed
  }

  /** One output callback: it reads `count` samples and deletes `used` from the front. */
  function Output(d: Depths, l: Lease, count: nat, used: nat): (Lease, seq<int>)
    requires d.target >= 1 && (Active(l).started ==> Active(l).next.Some?)
  {
    var (b, samples) := Read(d, Active(l), count);
    var held := l.window + samples;
    (WithActive(l, b).(window := if used <= |held| then held[used..] else []), samples)
  }

  // ---- What a listener may hear --------------------------------------------------------

  /**
    What happened since the lease last changed hands: the packets its owner sent, the frames
    playback took, and the samples the output read.
   */
  datatype Epoch = Epoch(fed: seq<Packet>, pulled: seq<Pull>, read: seq<int>)

  const NEW := Epoch([], [], [])

  ghost predicate IsTail<T>(s: seq<T>, of: seq<T>) {
    |s| <= |of| && s == of[|of| - |s|..]
  }

  ghost predicate BuffersOk(d: Depths, l: Lease) {
    d.Valid() && JitterBuffers.Inv(d, l.own) && forall c :: JitterBuffers.Inv(d, BufferOf(l, c))
  }

  /** The lease is free, or it names a registered session and the output reads that one. */
  ghost predicate OwnerOk(r: Registry, l: Lease) {
    && (l.owner.Some? ==> l.owner.value in r.byId && l.reading == Some(r.byId[l.owner.value]))
    && (l.owner.Some? ==> r.byId[l.owner.value] in l.marked)
    && (l.reading.Some? ==> l.reading.value in r.deviceOf)
  }

  ghost predicate OthersAreBare(r: Registry, l: Lease) {
    forall c :: IsRegistered(r, c) && l.owner != Some(r.deviceOf[c]) ==> |BufferOf(l, c).packets| <= 1
  }

  /** Silence, or a sample of one of the packets. */
  ghost predicate IsSample(x: int, fed: seq<Packet>) {
    x == 0 || exists p :: p in fed && x in p.payload
  }

  ghost predicate AreSamples(xs: seq<int>, fed: seq<Packet>) {
    forall x :: x in xs ==> IsSample(x, fed)
  }

  ghost predicate ArePulled(ps: seq<Pull>, fed: seq<Packet>) {
    forall i :: 0 <= i < |ps| && ps[i].Played? ==> ps[i].packet in fed
  }

  ghost predicate AreFed(ps: seq<Packet>, fed: seq<Packet>) {
    forall p :: p in ps ==> p in fed
  }

  /** What is left over of a frame ends the last frame pulled. */
  ghost predicate IsLeftOf(left: seq<int>, pulled: seq<Pull>) {
    left == [] || (pulled != [] && IsTail(left, PullSamples(pulled[|pulled| - 1])))
  }

  /** Everything buffered, played or read was sent by the owner in this epoch. */
  ghost predicate IsSourced(l: Lease, e: Epoch) {
    && AreFed(Active(l).packets, e.fed)
    && ArePulled(e.pulled, e.fed)
    && IsLeftOf(Active(l).samples, e.pulled)
    && IsTail(l.window, e.read)
    && AreSamples(e.read, e.fed)
  }

  ghost predicate FreeIsSilent(l: Lease, e: Epoch) {
    l.owner.None? ==> e.fed == [] && !Active(l).started && forall x :: x in e.read ==> x == 0
  }

  ghost predicate Inv(d: Depths, r: Registry, l: Lease, e: Epoch) {
    && Devices.Inv(r)
    && BuffersOk(d, l)
    && OwnerOk(r, l)
    && OthersAreBare(r, l)
    && IsSourced(l, e)
    && FreeIsSilent(l, e)
  }

  /** A new epoch begins whenever the owner changes, and only then. */
  function NextEpoch(before: Lease, after: Lease, e: Epoch): Epoch {
    if before.owner == after.owner then e else NEW
  }

  // ---- Every call keeps the invariant --------------------------------------------------

  /** `s` has the buffers of `l`, some of them cleared. */
  ghost predicate OnlyClears(l: Lease, s: Lease) {
    && (forall c :: BufferOf(s, c) == BufferOf(l, c) || BufferOf(s, c) == Cleared(BufferOf(l, c)))
    && (s.own == l.own || s.own == Cleared(l.own))
  }

  lemma ClearingIsOk(d: Depths, l: Lease, s: Lease)
    requires BuffersOk(d, l) && OnlyClears(l, s)
    ensures BuffersOk(d, s)
    ensures forall c :: |BufferOf(s, c).packets| <= |BufferOf(l, c).packets|
  {
  }

  lemma ClearingTwice(l: Lease, m: Lease, s: Lease)
    requires OnlyClears(l, m) && OnlyClears(m, s)
    ensures OnlyClears(l, s)
  {
  }

  lemma ResetBufferClears(l: Lease, c: Conn)
    ensures OnlyClears(l, ResetBuffer(l, c))
    ensures BufferOf(ResetBuffer(l, c), c) == Cleared(BufferOf(l, c))
  {
  }

  lemma ResetStreamClears(l: Lease)
    ensures OnlyClears(l, ResetStream(l))
    ensures Active(ResetStream(l)) == Cleared(Active(l))
    ensures ResetStream(l).owner == l.owner && ResetStream(l).reading == l.reading
    ensures ResetStream(l).window == []
  {
  }

  /** The state in which a lease starts: a cleared buffer being read, nothing heard yet. */
  lemma FreshEpoch(d: Depths, r: Registry, l: Lease)
    requires Devices.Inv(r) && BuffersOk(d, l) && OwnerOk(r, l) && OthersAreBare(r, l)
    requires Active(l).packets == [] && Active(l).samples == [] && !Active(l).started && l.window == []
    ensures Inv(d, r, l, NEW)
  {
  }

  lemma TakeoverShape(r: Registry, l: Lease, c: Conn)
    requires OwnerOk(r, l) && c in r.deviceOf && OwnerSession(r, l) != Some(c)
    ensures var s, previous := SetLease(r, l, c), OwnerSession(r, l);
            && OnlyClears(l, s)
            && s.owner == Some(r.deviceOf[c]) && s.reading == Some(c) && s.window == []
            && s.marked == (if previous.Some? then l.marked - {previous.value} else l.marked) + {c}
            && BufferOf(s, c) == Cleared(BufferOf(l, c))
            && (l.owner.Some? ==> BufferOf(s, r.byId[l.owner.value]).packets == [])
  {
    var previous := OwnerSession(r, l);
    var quiet := if previous.Some? then Unmarked(l, previous.value) else l;
    if previous.Some? {
      ResetBufferClears(l, previous.value);
    }
    ResetBufferClears(quiet, c);
    ClearingTwice(l, quiet, ResetBuffer(quiet, c));
    var chosen := ResetBuffer(quiet, c).(owner := Some(r.deviceOf[c]), marked := quiet.marked + {c});
    ResetStreamClears(chosen);
    ClearingTwice(l, chosen, ResetStream(chosen));
  }

  lemma SetLeaseOk(d: Depths, r: Registry, l: Lease, c: Conn, e: Epoch)
    requires Inv(d, r, l, e) && IsRegistered(r, c)
    ensures var s := SetLease(r, l, c);
            && Inv(d, r, s, NextEpoch(l, s, e))
            && s.owner == Some(r.deviceOf[c])
            && (l.owner == s.owner ==> s == l)
            && (l.owner != s.owner ==> BufferOf(s, c).packets == [])
  {
    if OwnerSession(r, l) != Some(c) {
      var s := SetLease(r, l, c);
      TakeoverShape(r, l, c);
      ClearingIsOk(d, l, s);
      FreshEpoch(d, r, s);
    } else {
      assert l.marked + {c} == l.marked;
    }
  }

  lemma FreedShape(l: Lease, c: Conn)
    ensures var s := Freed(l, c);
            && OnlyClears(l, s)
            && s.owner == None && s.reading == l.reading && s.window == [] && s.marked == l.marked - {c}
            && Active(s) == Cleared(Active(l))
            && BufferOf(s, c) == Cleared(BufferOf(l, c))
  {
    var released := Unmarked(l, c).(owner := None);
    ResetBufferClears(l, c);
    ResetStreamClears(released);
    ClearingTwice(l, released, ResetStream(released));
  }

  lemma FreedOk(d: Depths, r: Registry, l: Lease, c: Conn)
    requires Devices.Inv(r) && BuffersOk(d, l) && (l.reading.Some? ==> l.reading.value in r.deviceOf)
    requires forall x :: IsRegistered(r, x) && x != c ==> |BufferOf(l, x).packets| <= 1
    ensures Inv(d, r, Freed(l, c), NEW)
  {
    FreedShape(l, c);
    ClearingIsOk(d, l, Freed(l, c));
    FreshEpoch(d, r, Freed(l, c));
  }

  lemma ReleaseOk(d: Depths, r: Registry, l: Lease, only: Option<Conn>, e: Epoch)
    requires Inv(d, r, l, e)
    ensures var s := ReleaseLease(r, l, only);
            && Inv(d, r, s, NextEpoch(l, s, e))
            && (s == l || s.owner == None)
            && (OwnerSession(r, l).Some? && (only.None? || OwnerSession(r, l) == only) ==> s.owner == None)
  {
    var owner := OwnerSession(r, l);
    if owner.Some? && (only.None? || owner == only) {
      FreedOk(d, r, l, owner.value);
    }
  }

  lemma ExpireOk(d: Depths, r: Registry, l: Lease, nowMs: int, e: Epoch)
    requires Inv(d, r, l, e)
    ensures Inv(d, r, ExpireLease(r, l, nowMs), NextEpoch(l, ExpireLease(r, l, nowMs), e))
  {
    ReleaseOk(d, r, l, OwnerSession(r, l), e);
  }

  /** Clearing a buffer that is not being read for an owner changes nothing anyone hears. */
  lemma ResetBufferOk(d: Depths, r: Registry, l: Lease, c: Conn, e: Epoch)
    requires Inv(d, r, l, e) && (l.owner.Some? ==> l.reading != Some(c))
    ensures Inv(d, r, ResetBuffer(l, c), e)
  {
    ResetBufferClears(l, c);
    ClearingIsOk(d, l, ResetBuffer(l, c));
  }

  /**
    Cleaning up a session, in a registry that may already name its replacement, leaves the
    lease with nobody of that name.
   */
  lemma CleanupOk(d: Depths, r: Registry, l: Lease, c: Conn, e: Epoch)
    requires Inv(d, r, l, e) && c in r.deviceOf
    ensures var s := CleanupLease(r, l, c);
            && Inv(d, r, s, NextEpoch(l, s, e))
            && s.owner == (if l.owner == Some(r.deviceOf[c]) then None else l.owner)
  {
    var id := r.deviceOf[c];
    var current := Get(r, id);
    if l.owner != Some(id) {
      ResetBufferOk(d, r, l, c, e);
    } else if current == Some(c) {
      ReleaseOk(d, r, l, Some(c), e);
      var s := ReleaseLease(r, l, Some(c));
      ResetBufferOk(d, r, s, c, NEW);
    } else {
      FreedOkForReplaced(d, r, l, c, e);
      ResetBufferOk(d, r, Freed(l, c), c, NEW);
    }
  }

  /** The late teardown of a replaced session takes the lease from its replacement. */
  lemma FreedOkForReplaced(d: Depths, r: Registry, l: Lease, c: Conn, e: Epoch)
    requires Inv(d, r, l, e) && c in r.deviceOf && l.owner == Some(r.deviceOf[c]) && !IsRegistered(r, c)
    ensures Inv(d, r, Freed(l, c), NEW)
  {
    var s := Freed(l, c);
    FreedShape(l, c);
    ClearingIsOk(d, l, s);
    assert BufferOf(s, r.byId[l.owner.value]) == Active(s);
    FreshEpoch(d, r, s);
  }

  /** A session leaves the registry once it does not hold the lease. */
  lemma RemoveOk(d: Depths, r: Registry, l: Lease, c: Conn, e: Epoch)
    requires Inv(d, r, l, e) && c in r.deviceOf && l.owner != Some(r.deviceOf[c])
    ensures Inv(d, AfterRemove(r, c), l, e)
  {
    RemoveKeepsInv(r, c);
  }

  /** A new session has an empty buffer, and owns nothing. */
  function Entered(l: Lease, c: Conn): Lease {
    l.(buffers := l.buffers[c := EMPTY], marked := l.marked - {c})
  }

  /** A new session registers with an empty buffer, and the one it replaces is cleaned up. */
  function ConnectLease(r: Registry, l: Lease, c: Conn, id: DeviceId): Lease
    requires Devices.Inv(r)
  {
    var known := Entered(l, c);
    var previous := Get(r, id);
    if previous.None? then known else CleanupLease(AfterRegister(r, c, id), known, previous.value)
  }

  /** One session's buffer is `b` now and nothing else about the buffers has changed. */
  lemma PutBuffer(d: Depths, l: Lease, c: Conn, b: Buffer, s: Lease)
    requires BuffersOk(d, l) && JitterBuffers.Inv(d, b)
    requires s.buffers == l.buffers[c := b] && s.own == l.own
    ensures BuffersOk(d, s)
    ensures forall x :: BufferOf(s, x) == if x == c then b else BufferOf(l, x)
  {
    forall x ensures BufferOf(s, x) == if x == c then b else BufferOf(l, x) {
    }
  }

  lemma ReplacedIsBare(d: Depths, r: Registry, l: Lease, c: Conn, id: DeviceId, e: Epoch, known: Lease)
    requires Inv(d, r, l, e) && c !in r.deviceOf && l.owner == Some(id)
    requires known == Entered(l, c)
    ensures BuffersOk(d, known)
    ensures forall x :: IsRegistered(AfterRegister(r, c, id), x) && x != r.byId[id] ==>
                          |BufferOf(known, x).packets| <= 1
  {
    RegisterKeepsInv(r, c, id);
    PutBuffer(d, l, c, EMPTY, known);
  }

  /** The replaced owner is cleaned up while the registry names its replacement. */
  lemma ReplacedIsFreed(r: Registry, l: Lease, c: Conn, id: DeviceId)
    requires Devices.Inv(r) && c !in r.deviceOf && id in r.byId && l.owner == Some(id)
    ensures var known, previous := Entered(l, c), r.byId[id];
            ConnectLease(r, l, c, id) == ResetBuffer(Freed(known, previous), previous)
  {
  }

  lemma ReplacingOwnerOk(d: Depths, r: Registry, l: Lease, c: Conn, id: DeviceId, e: Epoch)
    requires Inv(d, r, l, e) && c !in r.deviceOf && l.owner == Some(id)
    ensures Inv(d, AfterRegister(r, c, id), ConnectLease(r, l, c, id), NEW)
    ensures ConnectLease(r, l, c, id).owner == None
  {
    var after, previous := AfterRegister(r, c, id), r.byId[id];
    var known := Entered(l, c);
    ReplacedIsFreed(r, l, c, id);
    RegisterKeepsInv(r, c, id);
    ReplacedIsBare(d, r, l, c, id, e, known);
    FreedOk(d, after, known, previous);
    FreedShape(known, previous);
    ResetBufferOk(d, after, Freed(known, previous), previous, NEW);
  }

  lemma NewSessionOk(d: Depths, r: Registry, l: Lease, c: Conn, id: DeviceId, e: Epoch)
    requires Inv(d, r, l, e) && c !in r.deviceOf && l.owner != Some(id)
    ensures Inv(d, AfterRegister(r, c, id), Entered(l, c), e)
  {
    RegisterKeepsInv(r, c, id);
    PutBuffer(d, l, c, EMPTY, Entered(l, c));
  }

  lemma ConnectOk(d: Depths, r: Registry, l: Lease, c: Conn, id: DeviceId, e: Epoch)
    requires Inv(d, r, l, e) && c !in r.deviceOf
    ensures var s := ConnectLease(r, l, c, id);
            Inv(d, AfterRegister(r, c, id), s, NextEpoch(l, s, e))
  {
    if l.owner == Some(id) {
      ReplacingOwnerOk(d, r, l, c, id, e);
    } else {
      NewSessionOk(d, r, l, c, id, e);
      if Get(r, id).Some? {
        CleanupOk(d, AfterRegister(r, c, id), Entered(l, c), r.byId[id], e);
      }
    }
  }

  // ---- Packets and playback ------------------------------------------------------------

  /** A fed buffer holds only what it held and the packet fed. */
  lemma FedPackets(d: Depths, b: Buffer, q: Sequence, f: Frame)
    requires JitterBuffers.Inv(d, b)
    ensures JitterBuffers.Inv(d, AfterFeed(d, b, q, f))
    ensures forall p :: p in AfterFeed(d, b, q, f).packets ==> p in b.packets || p == Packet(q, f)
    ensures AfterFeed(d, b, q, f).samples == b.samples || AfterFeed(d, b, q, f).samples == []
    ensures b.packets == [] ==> |AfterFeed(d, b, q, f).packets| <= 1
  {
    FeedKeepsInv(d, b, q, f);
    var before := if IsBehind(b, q) then [] else b.packets;
    InsertContents(before, Packet(q, f));
    assert forall p :: p in KeepLast(Stored(before, q, f), d.max) ==> p in Stored(before, q, f);
  }

  /** The epoch of the owner's stream after it sent a packet. */
  function Heard(e: Epoch, q: Sequence, f: Frame): Epoch {
    e.(fed := e.fed + [Packet(q, f)])
  }

  lemma SamplesStay(xs: seq<int>, fed: seq<Packet>, p: Packet)
    requires AreSamples(xs, fed)
    ensures AreSamples(xs, fed + [p])
  {
    forall x | x in xs ensures IsSample(x, fed + [p]) {
      if x != 0 {
        var q :| q in fed && x in q.payload;
        assert q in fed + [p];
      }
    }
  }

  /** A packet of the owner goes to the buffer being read. */
  lemma OwnerFeedsOk(d: Depths, r: Registry, l: Lease, c: Conn, q: Sequence, f: Frame, nowMs: int, e: Epoch)
    requires Inv(d, r, l, e) && IsRegistered(r, c) && l.owner == Some(r.deviceOf[c])
    ensures Inv(d, r, ReceiveAudio(d, r, l, c, q, f, nowMs), Heard(e, q, f))
    ensures ReceiveAudio(d, r, l, c, q, f, nowMs).owner == l.owner
  {
    FedPackets(d, BufferOf(l, c), q, f);
    SamplesStay(e.read, e.fed, Packet(q, f));
    PutBuffer(d, l, c, AfterFeed(d, BufferOf(l, c), q, f), ReceiveAudio(d, r, l, c, q, f, nowMs));
  }

  lemma OtherFeedsOk(d: Depths, r: Registry, l: Lease, c: Conn, q: Sequence, f: Frame, nowMs: int, e: Epoch)
    requires Inv(d, r, l, e) && IsRegistered(r, c) && l.owner.Some? && l.owner != Some(r.deviceOf[c])
    ensures Inv(d, r, ReceiveAudio(d, r, l, c, q, f, nowMs), e)
    ensures ReceiveAudio(d, r, l, c, q, f, nowMs).owner == l.owner
  {
    ResetBufferOk(d, r, l, c, e);
    var b := Cleared(BufferOf(l, c));
    FedPackets(d, b, q, f);
    PutBuffer(d, ResetBuffer(l, c), c, AfterFeed(d, b, q, f), ReceiveAudio(d, r, l, c, q, f, nowMs));
  }

  /** The packet that takes a free lease is the first of the new epoch. */
  lemma ReceiveOk(d: Depths, r: Registry, l: Lease, c: Conn, q: Sequence, f: Frame, nowMs: int, e: Epoch)
    requires Inv(d, r, l, e) && IsRegistered(r, c)
    ensures var s := ReceiveAudio(d, r, l, c, q, f, nowMs);
            var next := NextEpoch(l, s, e);
            Inv(d, r, s, if s.owner == Some(r.deviceOf[c]) then Heard(next, q, f) else next)
  {
    if l.owner.None? {
      var taken := SetLease(r, l, c);
      SetLeaseOk(d, r, l, c, e);
      OwnerFeedsOk(d, r, taken, c, q, f, nowMs, NEW);
      assert ReceiveAudio(d, r, l, c, q, f, nowMs) == ReceiveAudio(d, r, taken, c, q, f, nowMs);
    } else if l.owner == Some(r.deviceOf[c]) {
      OwnerFeedsOk(d, r, l, c, q, f, nowMs, e);
    } else {
      OtherFeedsOk(d, r, l, c, q, f, nowMs, e);
    }
  }

  /** The epoch after the output read `count` samples. */
  function Listened(d: Depths, l: Lease, e: Epoch, count: nat): Epoch
    requires d.target >= 1 && (Active(l).started ==> Active(l).next.Some?)
  {
    e.(pulled := e.pulled + Fill(d, Active(l), count).1, read := e.read + Read(d, Active(l), count).1)
  }

  lemma TailOfSum<T>(s: seq<T>, before: seq<T>, of: seq<T>)
    requires IsTail(s, of)
    ensures IsTail(s, before + of)
  {
  }

  lemma DropIsTail<T>(of: seq<T>, count: nat)
    requires count <= |of|
    ensures IsTail(of[count..], of)
  {
  }

  lemma EndOfSum<T>(before: seq<T>, of: seq<T>, last: seq<T>, count: nat)
    requires IsTail(last, of) && count <= |before + of| <= count + |last|
    ensures IsTail((before + of)[count..], last)
  {
    TailOfSum(last, before, of);
    DropIsTail(before + of, count);
    TailOfTail((before + of)[count..], last, before + of);
  }

  lemma {:induction false} EndsWithLastFrame(ps: seq<Pull>)
    requires ps != []
    ensures IsTail(PullSamples(ps[|ps| - 1]), JitterRuns.Decode(ps))
  {
    if |ps| == 1 {
      assert JitterRuns.Decode(ps) == PullSamples(ps[0]);
    } else {
      EndsWithLastFrame(ps[1..]);
      TailOfSum(PullSamples(ps[|ps| - 1]), PullSamples(ps[0]), JitterRuns.Decode(ps[1..]));
    }
  }

  lemma TailOfTail<T>(s: seq<T>, m: seq<T>, of: seq<T>)
    requires IsTail(m, of) && (IsTail(s, m) || (IsTail(s, of) && |s| <= |m|))
    ensures IsTail(s, of) && IsTail(s, m)
  {
  }

  lemma TailExtends<T>(s: seq<T>, of: seq<T>, more: seq<T>, used: nat)
    requires IsTail(s, of)
    ensures IsTail(s + more, of + more)
    ensures used <= |s + more| ==> IsTail((s + more)[used..], of + more)
  {
  }

  lemma LeftOfNothing(samples: seq<int>, pulled: seq<Pull>, count: nat)
    requires IsLeftOf(samples, pulled) && count <= |samples|
    ensures IsLeftOf(samples[count..], pulled)
  {
    if samples != [] {
      TailOfTail(samples[count..], samples, PullSamples(pulled[|pulled| - 1]));
    }
  }

  lemma LeftOfLast(before: seq<int>, ps: seq<Pull>, pulled: seq<Pull>, count: nat)
    requires ps != [] && count <= |before + JitterRuns.Decode(ps)| < count + SAMPLES_PER_FRAME
    ensures IsLeftOf((before + JitterRuns.Decode(ps))[count..], pulled + ps)
  {
    EndsWithLastFrame(ps);
    EndOfSum(before, JitterRuns.Decode(ps), PullSamples(ps[|ps| - 1]), count);
    assert (pulled + ps)[|pulled + ps| - 1] == ps[|ps| - 1];
  }

  /** The samples a read leaves over are the end of the last frame pulled. */
  lemma LeftoverIsTail(d: Depths, b: Buffer, pulled: seq<Pull>, count: nat)
    requires JitterBuffers.Inv(d, b) && IsLeftOf(b.samples, pulled)
    ensures IsLeftOf(Read(d, b, count).0.samples, pulled + Fill(d, b, count).1)
  {
    var (full, ps) := Fill(d, b, count);
    FillReaches(d, b, count);
    JitterRuns.FillDecodes(d, b, count);
    ReadKeepsInv(d, b, count);
    if ps == [] {
      assert b.samples + [] == b.samples && pulled + ps == pulled;
      LeftOfNothing(b.samples, pulled, count);
    } else {
      LeftOfLast(b.samples, ps, pulled, count);
    }
  }

  lemma PullIsSamples(p: Pull, fed: seq<Packet>)
    requires p.Played? ==> p.packet in fed
    ensures AreSamples(PullSamples(p), fed)
  {
  }

  lemma {:induction false} DecodedAreSamples(ps: seq<Pull>, fed: seq<Packet>)
    requires ArePulled(ps, fed)
    ensures AreSamples(JitterRuns.Decode(ps), fed)
  {
    if ps != [] {
      PullIsSamples(ps[0], fed);
      DecodedAreSamples(ps[1..], fed);
    }
  }

  lemma TailIsSamples(xs: seq<int>, of: seq<int>, fed: seq<Packet>)
    requires IsTail(xs, of) && AreSamples(of, fed)
    ensures AreSamples(xs, fed)
  {
  }

  lemma SumIsSamples(a: seq<int>, b: seq<int>, fed: seq<Packet>)
    requires AreSamples(a, fed) && AreSamples(b, fed)
    ensures AreSamples(a + b, fed)
  {
  }

  /** What is on hand in the buffer being read are samples of the owner's. */
  lemma OnHandAreSamples(l: Lease, e: Epoch)
    requires IsSourced(l, e)
    ensures AreSamples(Active(l).samples, e.fed)
  {
    if Active(l).samples != [] {
      var last := e.pulled[|e.pulled| - 1];
      PullIsSamples(last, e.fed);
      TailIsSamples(Active(l).samples, PullSamples(last), e.fed);
    }
  }

  lemma ReadAreSamples(d: Depths, l: Lease, count: nat, e: Epoch)
    requires JitterBuffers.Inv(d, Active(l)) && IsSourced(l, e)
    ensures AreSamples(Read(d, Active(l), count).1, e.fed)
  {
    var b := Active(l);
    var (full, ps) := Fill(d, b, count);
    FillReaches(d, b, count);
    JitterRuns.FillDecodes(d, b, count);
    JitterRuns.FillIsOnHand(d, b, count);
    OnHandAreSamples(l, e);
    DecodedAreSamples(ps, e.fed);
    SumIsSamples(b.samples, JitterRuns.Decode(ps), e.fed);
    assert full.samples[..count] <= full.samples;
  }

  lemma PullsAreFed(d: Depths, b: Buffer, count: nat, pulled: seq<Pull>, fed: seq<Packet>)
    requires JitterBuffers.Inv(d, b) && AreFed(b.packets, fed) && ArePulled(pulled, fed)
    ensures AreFed(Read(d, b, count).0.packets, fed)
    ensures ArePulled(pulled + Fill(d, b, count).1, fed)
  {
    JitterRuns.FillIsOnHand(d, b, count);
  }

  lemma OutputShape(d: Depths, l: Lease, count: nat, used: nat)
    requires JitterBuffers.Inv(d, Active(l))
    ensures var s, samples := Output(d, l, count, used).0, Read(d, Active(l), count).1;
            && Active(s) == Read(d, Active(l), count).0
            && s.window == if used <= |l.window + samples| then (l.window + samples)[used..] else []
  {
  }

  lemma OutputIsSourced(d: Depths, l: Lease, count: nat, used: nat, e: Epoch)
    requires JitterBuffers.Inv(d, Active(l)) && IsSourced(l, e)
    ensures IsSourced(Output(d, l, count, used).0, Listened(d, l, e, count))
  {
    var samples := Read(d, Active(l), count).1;
    OutputShape(d, l, count, used);
    PullsAreFed(d, Active(l), count, e.pulled, e.fed);
    LeftoverIsTail(d, Active(l), e.pulled, count);
    TailExtends(l.window, e.read, samples, used);
    ReadAreSamples(d, l, count, e);
    SumIsSamples(e.read, samples, e.fed);
  }

  lemma {:induction false} SilenceDecodes(ps: seq<Pull>)
    requires forall i :: 0 <= i < |ps| ==> ps[i].Silence?
    ensures forall x :: x in JitterRuns.Decode(ps) ==> x == 0
  {
    if ps != [] {
      SilenceDecodes(ps[1..]);
    }
  }

  lemma FreeIsEmpty(l: Lease, e: Epoch)
    requires IsSourced(l, e) && FreeIsSilent(l, e) && l.owner.None?
    ensures Active(l).packets == [] && forall x :: x in Active(l).samples ==> x == 0
  {
    EmptyOrHas(Active(l).packets);
  }

  /** While the lease is free, the output reads nothing but zeros. */
  lemma FreeReadsSilence(d: Depths, l: Lease, count: nat, e: Epoch)
    requires JitterBuffers.Inv(d, Active(l)) && IsSourced(l, e) && FreeIsSilent(l, e) && l.owner.None?
    ensures forall x :: x in Read(d, Active(l), count).1 ==> x == 0
    ensures var after := Read(d, Active(l), count).0; after.packets == [] && !after.started
  {
    var b := Active(l);
    var (full, ps) := Fill(d, b, count);
    FreeIsEmpty(l, e);
    FillReaches(d, b, count);
    JitterRuns.FillDecodes(d, b, count);
    JitterRuns.FillIsOnHand(d, b, count);
    SilenceDecodes(ps);
    forall x | x in full.samples ensures x == 0 {
      assert x in b.samples || x in JitterRuns.Decode(ps);
    }
    forall x | x in full.samples[..count] ensures x == 0 {
      assert x in full.samples;
    }
  }

  lemma PutActive(d: Depths, l: Lease, b: Buffer)
    requires BuffersOk(d, l) && JitterBuffers.Inv(d, b)
    ensures BuffersOk(d, WithActive(l, b)) && Active(WithActive(l, b)) == b
    ensures forall c: Conn :: l.reading != Some(c) ==> BufferOf(WithActive(l, b), c) == BufferOf(l, c)
  {
    if l.reading.Some? {
      PutBuffer(d, l, l.reading.value, b, WithActive(l, b));
    } else {
      assert forall c :: BufferOf(WithActive(l, b), c) == BufferOf(l, c);
    }
  }

  lemma OutputOk(d: Depths, r: Registry, l: Lease, count: nat, used: nat, e: Epoch)
    requires Inv(d, r, l, e)
    ensures Inv(d, r, Output(d, l, count, used).0, Listened(d, l, e, count))
  {
    var b := Active(l);
    assert JitterBuffers.Inv(d, b);
    var after := Read(d, b, count).0;
    OutputIsSourced(d, l, count, used, e);
    ReadKeepsInv(d, b, count);
    PutActive(d, l, after);
    if l.owner.None? {
      FreeReadsSilence(d, l, count, e);
    }
    OutputLeavesRest(d, r, l, count, used, e, after);
  }

  lemma OutputLeavesRest(d: Depths, r: Registry, l: Lease, count: nat, used: nat, e: Epoch, after: Buffer)
    requires Inv(d, r, l, e) && JitterBuffers.Inv(d, Active(l)) && after == Read(d, Active(l), count).0
    requires BuffersOk(d, WithActive(l, after)) && Active(WithActive(l, after)) == after
    requires forall c: Conn :: l.reading != Some(c) ==> BufferOf(WithActive(l, after), c) == BufferOf(l, c)
    requires l.owner.None? ==> after.packets == []
    ensures var s := Output(d, l, count, used).0; BuffersOk(d, s) && OwnerOk(r, s) && OthersAreBare(r, s)
  {
    var s := Output(d, l, count, used).0;
    forall c ensures BufferOf(s, c) == BufferOf(WithActive(l, after), c) {
    }
    forall c | IsRegistered(r, c) && l.owner != Some(r.deviceOf[c]) ensures |BufferOf(s, c).packets| <= 1 {
      if l.reading == Some(c) {
        assert BufferOf(s, c) == after;
      }
    }
  }
}
