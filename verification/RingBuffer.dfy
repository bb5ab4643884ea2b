/**
  The virtual microphone driver's ring buffer (bridge/driver/upstream/CardBridgeMicrophone.c).

  Times are whole frame numbers. A frame is two interleaved samples, so sample k of the stream
  belongs to channel k % 2 of frame k / 2; the ring holds sample k in slot k % RING_SAMPLES.
 */
module RingBuffers {

  type Sample = real

  const CHANNELS := 2
  const RING_FRAMES := 65536
  const RING_SAMPLES := RING_FRAMES * CHANNELS
  const MAX_CLIENTS := 0xFFFF_FFFF_FFFF_FFFF

  // ---- The timeline ----------------------------------------------------------------------

  /** `samples` written to the frames from `time` on. */
  datatype Write = Write(time: nat, samples: seq<Sample>) {
    function At(): nat {
      CHANNELS * time
    }

    function End(): nat {
      At() + |samples|
    }

    predicate Fits() {
      |samples| % CHANNELS == 0 && |samples| <= RING_SAMPLES
    }
  }

  type History = seq<Write>

  /** What the unbounded timeline holds at sample k: the last sample written there, else silence. */
  function Timeline(h: History, k: int): Sample {
    if h == [] then 0.0
    else
      var w := h[|h| - 1];
      if w.At() <= k < w.End() then w.samples[k - w.At()] else Timeline(h[..|h| - 1], k)
  }

  function Offset(k: int, at: int): nat {
    (k - at) % RING_SAMPLES
  }

  /** What a ring holds for sample k: the last sample written to any time congruent to it. */
  function Slot(h: History, k: int): Sample {
    if h == [] then 0.0
    else
      var w := h[|h| - 1];
      if Offset(k, w.At()) < |w.samples| then w.samples[Offset(k, w.At())] else Slot(h[..|h| - 1], k)
  }

  ghost predicate Fit(h: History) {
    forall i :: 0 <= i < |h| ==> h[i].Fits()
  }

  /** Each write takes up where the one before it ended. */
  ghost predicate Contiguous(h: History) {
    && Fit(h)
    && forall i :: 0 < i < |h| ==> h[i].At() == h[i - 1].End()
  }

  function End(h: History): int {
    if h == [] then 0 else h[|h| - 1].End()
  }

  /** The latest time before `end` that shares the slot of sample k. */
  function Newest(k: int, end: int): (n: int)
    ensures end - RING_SAMPLES <= n < end
    ensures Offset(n, k) == 0
    ensures end - RING_SAMPLES <= k < end ==> n == k
  {
    end - RING_SAMPLES + (k - end) % RING_SAMPLES
  }

  lemma OffsetNearby(k: int, at: int)
    requires at - RING_SAMPLES <= k < at + RING_SAMPLES
    ensures Offset(k, at) == if k >= at then k - at else k - at + RING_SAMPLES
  {
  }

  lemma OffsetOfCongruent(k: int, n: int, at: int)
    requires Offset(n, k) == 0
    ensures Offset(k, at) == Offset(n, at)
  {
    var q := (n - k) / RING_SAMPLES;
    assert n - k == q * RING_SAMPLES;
  }

  lemma {:induction false} SlotOfCongruent(h: History, k: int, n: int)
    requires Offset(n, k) == 0
    ensures Slot(h, k) == Slot(h, n)
  {
    if h != [] {
      OffsetOfCongruent(k, n, h[|h| - 1].At());
      SlotOfCongruent(h[..|h| - 1], k, n);
    }
  }

  lemma {:induction false} SlotIsTimeline(h: History, k: int)
    requires Contiguous(h) && (h != [] ==> End(h) - RING_SAMPLES <= k < End(h))
    ensures Slot(h, k) == Timeline(h, k)
  {
    if h != [] {
      var w, front := h[|h| - 1], h[..|h| - 1];
      assert w.Fits();
      OffsetNearby(k, w.At());
      if k < w.At() {
        SlotIsTimeline(front, k);
      }
    }
  }

  /** After contiguous writes, a slot holds what the timeline holds at the slot's newest time. */
  lemma SlotHoldsNewest(h: History, k: int)
    requires Contiguous(h)
    ensures Slot(h, k) == Timeline(h, Newest(k, End(h)))
  {
    var n := Newest(k, End(h));
    SlotOfCongruent(h, k, n);
    SlotIsTimeline(h, n);
  }

  // ---- The driver on values --------------------------------------------------------------

  datatype Status = NoError | BadObject | IllegalOperation | Unspecified

  datatype ObjectID = Device | Device2 | StreamInput | StreamOutput | OtherObject

  datatype Operation = ReadInput | WriteMix | OtherOperation

  datatype Cycle = Cycle(currentTime: nat, inputTime: nat, outputTime: nat)

  /** The globals, with the history since the ring was last cleared in place of the ring. */
  datatype Driver = Driver(
    running: nat,
    running2: nat,
    hasRing: bool,
    lastOutput: int,
    isClear: bool,
    mute: bool,
    volume: real,
    history: History)

  function Unloaded(): Driver {
    Driver(0, 0, false, 0, true, false, 1.0, [])
  }

  function StartStatus(d: Driver, knownDriver: bool, device: ObjectID): Status {
    if !knownDriver || (device != Device && device != Device2) then BadObject
    else if (if device == Device then d.running else d.running2) == MAX_CLIENTS then IllegalOperation
    else NoError
  }

  function AfterStart(d: Driver, knownDriver: bool, device: ObjectID): Driver {
    if StartStatus(d, knownDriver, device) != NoError then d
    else
      var counted := if device == Device then d.(running := d.running + 1) else d.(running2 := d.running2 + 1);
      if d.hasRing then counted else counted.(hasRing := true, history := [])
  }

  function StopStatus(d: Driver, knownDriver: bool, device: ObjectID): Status {
    if !knownDriver || (device != Device && device != Device2) then BadObject
    else if (if device == Device then d.running else d.running2) == 0 then IllegalOperation
    else NoError
  }

  function AfterStop(d: Driver, knownDriver: bool, device: ObjectID): Driver {
    if StopStatus(d, knownDriver, device) != NoError then d
    else
      var counted :=
        if device == Device then d.(running := (d.running - 1) as nat)
        else d.(running2 := (d.running2 - 1) as nat);
      if counted.running == 0 && counted.running2 == 0 then counted.(hasRing := false, history := []) else counted
  }

  predicate KnownObjects(knownDriver: bool, device: ObjectID, stream: ObjectID) {
    knownDriver && (device == Device || device == Device2) && (stream == StreamInput || stream == StreamOutput)
  }

  predicate IsSilenced(d: Driver, frames: nat, time: nat) {
    d.mute || d.lastOutput - frames < time
  }

  predicate IsOverloaded(frames: nat, cycle: Cycle) {
    cycle.currentTime > cycle.outputTime + frames
  }

  function AfterRead(d: Driver, frames: nat, time: nat): Driver {
    if IsSilenced(d, frames, time) then d.(isClear := true, history := []) else d
  }

  /** Sample i of a read of the frames from `time` on. */
  function ReadSample(d: Driver, frames: nat, time: nat, i: nat): Sample {
    if IsSilenced(d, frames, time) then 0.0 else Slot(d.history, CHANNELS * time + i) * d.volume
  }

  function AfterWrite(d: Driver, samples: seq<Sample>, time: nat): Driver {
    d.(history := d.history + [Write(time, samples)], lastOutput := time + |samples| / CHANNELS, isClear := false)
  }

  ghost predicate Inv(d: Driver) {
    && d.running <= MAX_CLIENTS && d.running2 <= MAX_CLIENTS
    && (d.hasRing <==> d.running + d.running2 > 0)
    && Fit(d.history)
    && (d.isClear || !d.hasRing ==> d.history == [])
    && (d.history != [] ==> End(d.history) == CHANNELS * d.lastOutput)
  }

  // ---- Runs ------------------------------------------------------------------------------

  /** The calls the host makes; settings change at any time. */
  datatype Event =
    | Start(device: ObjectID)
    | Stop(device: ObjectID)
    | Read(frames: nat, time: nat)
    | Mix(samples: seq<Sample>, cycle: Cycle)
    | Set(mute: bool, volume: real)

  /** Reads and writes only come while IO runs, in whole frames that fit the ring. */
  predicate IsAllowed(d: Driver, e: Event) {
    match e
    case Read(frames, time) => d.hasRing && frames <= RING_FRAMES
    case Mix(samples, cycle) => d.hasRing && Write(cycle.outputTime, samples).Fits()
    case _ => true
  }

  function Step(d: Driver, e: Event): Driver {
    match e
    case Start(device) => AfterStart(d, true, device)
    case Stop(device) => AfterStop(d, true, device)
    case Read(frames, time) => AfterRead(d, frames, time)
    case Mix(samples, cycle) =>
      if IsOverloaded(|samples| / CHANNELS, cycle) then d else AfterWrite(d, samples, cycle.outputTime)
    case Set(mute, volume) => d.(mute := mute, volume := volume)
  }

  function Run(events: seq<Event>): Driver {
    if events == [] then Unloaded() else Step(Run(events[..|events| - 1]), events[|events| - 1])
  }

  predicate AllAllowed(events: seq<Event>) {
    events == []
    || (AllAllowed(events[..|events| - 1]) && IsAllowed(Run(events[..|events| - 1]), events[|events| - 1]))
  }

  /** Every write since the ring was last empty takes up where the one before it ended. */
  predicate TakesUp(d: Driver, e: Event) {
    e.Mix? && !IsOverloaded(|e.samples| / CHANNELS, e.cycle) && d.history != [] ==> e.cycle.outputTime == d.lastOutput
  }

  predicate AllTakeUp(events: seq<Event>) {
    events == []
    || (AllTakeUp(events[..|events| - 1]) && TakesUp(Run(events[..|events| - 1]), events[|events| - 1]))
  }

  lemma WriteKeepsInv(d: Driver, samples: seq<Sample>, time: nat)
    requires Inv(d) && d.hasRing && Write(time, samples).Fits()
    ensures Inv(AfterWrite(d, samples, time))
    ensures Contiguous(d.history) && (d.history != [] ==> time == d.lastOutput) ==>
              Contiguous(AfterWrite(d, samples, time).history)
  {
  }

  lemma StepKeepsInv(d: Driver, e: Event)
    requires Inv(d) && IsAllowed(d, e)
    ensures Inv(Step(d, e))
    ensures TakesUp(d, e) && Contiguous(d.history) ==> Contiguous(Step(d, e).history)
  {
    if e.Mix? {
      WriteKeepsInv(d, e.samples, e.cycle.outputTime);
    }
  }

  lemma {:induction false} RunKeepsInv(events: seq<Event>)
    requires AllAllowed(events)
    ensures Inv(Run(events))
    ensures AllTakeUp(events) ==> Contiguous(Run(events).history)
  {
    if events != [] {
      RunKeepsInv(events[..|events| - 1]);
      StepKeepsInv(Run(events[..|events| - 1]), events[|events| - 1]);
    }
  }

  ghost predicate ReturnsWritten(d: Driver, frames: nat, time: nat, i: nat) {
    ReadSample(d, frames, time, i) == Timeline(d.history, CHANNELS * time + i) * d.volume
  }

  ghost predicate ReturnsNewest(d: Driver, frames: nat, time: nat, i: nat) {
    ReadSample(d, frames, time, i)
    == Timeline(d.history, Newest(CHANNELS * time + i, End(d.history))) * d.volume
  }

  lemma ReadIsNewest(d: Driver, frames: nat, time: nat, i: nat)
    requires Contiguous(d.history) && !d.mute && time + frames <= d.lastOutput
    ensures ReturnsNewest(d, frames, time, i) && AfterRead(d, frames, time) == d
  {
    SlotHoldsNewest(d.history, CHANNELS * time + i);
  }

  lemma ReadIsWritten(d: Driver, frames: nat, time: nat, i: nat)
    requires Inv(d) && Contiguous(d.history) && !d.mute && time + frames <= d.lastOutput
    requires time >= d.lastOutput - RING_FRAMES && i < CHANNELS * frames
    ensures ReturnsWritten(d, frames, time, i)
  {
    SlotIsTimeline(d.history, CHANNELS * time + i);
  }

  /**
    Over any run whose writes are contiguous, an unmuted read that ends no later than the last write and
    reaches back no further than the ring is long returns exactly the written samples, times the volume.
   */
  lemma ReadsReturnWhatWasWritten(events: seq<Event>, frames: nat, time: nat, i: nat)
    requires AllAllowed(events) && AllTakeUp(events)
    requires !Run(events).mute && time + frames <= LastWritten(events)
    requires time >= LastWritten(events) - RING_FRAMES && i < CHANNELS * frames
    ensures ReturnsWritten(Run(events), frames, time, i)
  {
    RunKeepsInv(events);
    LastOutputIsLastWritten(events);
    ReadIsWritten(Run(events), frames, time, i);
  }

  /** However far back it reaches, it returns the newest sample that shares the slot, and changes nothing. */
  lemma ReadsReturnTheNewest(events: seq<Event>, frames: nat, time: nat, i: nat)
    requires AllAllowed(events) && AllTakeUp(events)
    requires !Run(events).mute && time + frames <= LastWritten(events)
    ensures ReturnsNewest(Run(events), frames, time, i)
    ensures Step(Run(events), Read(frames, time)) == Run(events)
  {
    RunKeepsInv(events);
    LastOutputIsLastWritten(events);
    ReadIsNewest(Run(events), frames, time, i);
  }

  /**
    Any other read is silent in every sample, and clears the ring: until the next write that is laid down
    every slot of it holds silence. The clients and the settings stay as they were.
   */
  lemma OtherReadsAreSilent(events: seq<Event>, frames: nat, time: nat, i: nat, k: int)
    requires AllAllowed(events)
    requires Run(events).mute || time + frames > LastWritten(events)
    ensures ReadSample(Run(events), frames, time, i) == 0.0
    ensures var d, after := Run(events), Step(Run(events), Read(frames, time));
            && Slot(after.history, k) == 0.0 && after.isClear
            && after == d.(isClear := true, history := after.history)
  {
    LastOutputIsLastWritten(events);
  }

  // ---- Writes, on the times of their cycle -----------------------------------------------

  /** The frame after the last one laid down; a write comes too late once the current time is past its end. */
  function LastWritten(events: seq<Event>): nat {
    if events == [] then 0
    else
      match events[|events| - 1]
      case Mix(samples, cycle) =>
        var end := cycle.outputTime + |samples| / CHANNELS;
        if cycle.currentTime <= end then end else LastWritten(events[..|events| - 1])
      case _ => LastWritten(events[..|events| - 1])
  }

  lemma {:induction false} LastOutputIsLastWritten(events: seq<Event>)
    ensures Run(events).lastOutput == LastWritten(events)
  {
    if events != [] {
      LastOutputIsLastWritten(events[..|events| - 1]);
    }
  }

  /** A write in time is what its frames hold from then on, and the samples of all other slots stay. */
  lemma WriteInTime(d: Driver, samples: seq<Sample>, cycle: Cycle, k: int)
    requires Write(cycle.outputTime, samples).Fits()
    requires cycle.currentTime <= cycle.outputTime + |samples| / CHANNELS
    ensures var after, at := Step(d, Mix(samples, cycle)), CHANNELS * cycle.outputTime;
            && Slot(after.history, k)
               == (if Offset(k, at) < |samples| then samples[Offset(k, at)] else Slot(d.history, k))
            && !after.isClear && CHANNELS * after.lastOutput == at + |samples|
            && after == d.(isClear := false, lastOutput := after.lastOutput, history := after.history)
  {
    var w := Write(cycle.outputTime, samples);
    assert (d.history + [w])[..|d.history|] == d.history;
  }

  /** So an unmuted read of the frames just written gives them back, times the volume. */
  lemma WriteThenRead(d: Driver, samples: seq<Sample>, cycle: Cycle, i: nat)
    requires Write(cycle.outputTime, samples).Fits() && i < |samples| && !d.mute
    requires cycle.currentTime <= cycle.outputTime + |samples| / CHANNELS
    ensures ReadSample(Step(d, Mix(samples, cycle)), |samples| / CHANNELS, cycle.outputTime, i) == samples[i] * d.volume
  {
    var k := CHANNELS * cycle.outputTime + i;
    WriteInTime(d, samples, cycle, k);
    OffsetNearby(k, CHANNELS * cycle.outputTime);
  }

  /** A write that comes too late changes nothing. */
  lemma WriteTooLate(d: Driver, samples: seq<Sample>, cycle: Cycle)
    ensures Step(d, Mix(samples, cycle)) == d
            <==> cycle.currentTime > cycle.outputTime + |samples| / CHANNELS
  {
    if !IsOverloaded(|samples| / CHANNELS, cycle) {
      assert |Step(d, Mix(samples, cycle)).history| == |d.history| + 1;
    }
  }

  // ---- Clients ---------------------------------------------------------------------------

  function Counted(n: nat, e: Event, device: ObjectID): nat {
    match e
    case Start(started) => if started == device && n < MAX_CLIENTS then n + 1 else n
    case Stop(stopped) => if stopped == device && n > 0 then n - 1 else n
    case _ => n
  }

  /** The clients of a device: those started and not stopped, within 0 and MAX_CLIENTS. */
  function Clients(events: seq<Event>, device: ObjectID): nat {
    if events == [] then 0 else Counted(Clients(events[..|events| - 1], device), events[|events| - 1], device)
  }

  lemma ClientsOfStep(d: Driver, e: Event)
    requires d.running <= MAX_CLIENTS && d.running2 <= MAX_CLIENTS
    ensures Step(d, e).running == Counted(d.running, e, Device)
    ensures Step(d, e).running2 == Counted(d.running2, e, Device2)
    ensures Step(d, e).running <= MAX_CLIENTS && Step(d, e).running2 <= MAX_CLIENTS
  {
  }

  lemma {:induction false} ClientsAreCounted(events: seq<Event>)
    ensures Run(events).running == Clients(events, Device) && Run(events).running2 == Clients(events, Device2)
    ensures Run(events).running <= MAX_CLIENTS && Run(events).running2 <= MAX_CLIENTS
  {
    if events != [] {
      ClientsAreCounted(events[..|events| - 1]);
      ClientsOfStep(Run(events[..|events| - 1]), events[|events| - 1]);
    }
  }

  /** A call fails exactly for an unknown object, or a device that has all its clients, or none to stop. */
  lemma ClientsAreAnswered(events: seq<Event>, knownDriver: bool, device: ObjectID)
    ensures var known, n := knownDriver && device in {Device, Device2}, Clients(events, device);
            && StartStatus(Run(events), knownDriver, device)
               == (if !known then BadObject else if n == MAX_CLIENTS then IllegalOperation else NoError)
            && StopStatus(Run(events), knownDriver, device)
               == (if !known then BadObject else if n == 0 then IllegalOperation else NoError)
  {
    ClientsAreCounted(events);
  }

  /** What was written stays as long as any client does; the first client finds silence. */
  lemma ClientsKeepWrites(d: Driver, device: ObjectID)
    requires Inv(d)
    ensures Step(d, Start(device)).history == d.history
    ensures var after := Step(d, Stop(device));
            after.history == if after.running + after.running2 == 0 then [] else d.history
  {
  }

  /** The ring is there exactly while the starts outnumber the stops of some device. */
  lemma RingIffRunning(events: seq<Event>)
    requires AllAllowed(events)
    ensures Run(events).hasRing <==> Run(events).running > 0 || Run(events).running2 > 0
  {
    RunKeepsInv(events);
  }
}
