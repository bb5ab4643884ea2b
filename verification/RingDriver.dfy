/** The driver that keeps the ring in an array and copies into and out of it in two parts. */
module RingDrivers {
  import opened RingBuffers

  /** The ring's slots agree with the history of writes. */
  ghost predicate Refines(ring: seq<Sample>, h: History) {
    |ring| == RING_SAMPLES && forall s :: 0 <= s < RING_SAMPLES ==> ring[s] == Slot(h, s)
  }

  /** `after` is `before` with `samples` laid over it from sample `at` on, around the end. */
  ghost predicate Overlaid(before: seq<Sample>, after: seq<Sample>, at: nat, samples: seq<Sample>) {
    && |before| == |after| == RING_SAMPLES
    && forall s :: 0 <= s < RING_SAMPLES ==>
         after[s] == if Offset(s, at) < |samples| then samples[Offset(s, at)] else before[s]
  }

  lemma OverlayRefines(before: seq<Sample>, after: seq<Sample>, h: History, w: Write)
    requires Refines(before, h) && Overlaid(before, after, w.At(), w.samples)
    ensures Refines(after, h + [w])
  {
    assert (h + [w])[..|h|] == h;
    forall s | 0 <= s < RING_SAMPLES ensures after[s] == Slot(h + [w], s) {
      assert before[s] == Slot(h, s);
    }
  }

  /** The first slot of a frame, as the driver computes it. */
  lemma LocationIsSlot(time: nat)
    ensures time % RING_FRAMES * CHANNELS == Offset(CHANNELS * time, 0)
  {
  }

  lemma SlotOfSample(time: nat, i: nat)
    requires i < RING_SAMPLES
    ensures var first := time % RING_FRAMES * CHANNELS;
            Offset(CHANNELS * time + i, 0) == if first + i < RING_SAMPLES then first + i else first + i - RING_SAMPLES
  {
    LocationIsSlot(time);
  }

  lemma SampleOfSlot(time: nat, s: nat)
    requires s < RING_SAMPLES
    ensures var first := time % RING_FRAMES * CHANNELS;
            Offset(s, CHANNELS * time) == if s >= first then s - first else s - first + RING_SAMPLES
  {
  }

  /** `memcpy` between distinct arrays. */
  method Copy(target: array<Sample>, to: nat, source: array<Sample>, start: nat, n: nat)
    requires target != source
    requires to + n <= target.Length && start + n <= source.Length
    modifies target
    ensures forall i :: 0 <= i < target.Length ==>
              target[i] == if to <= i < to + n then source[start + i - to] else old(target[i])
  {
    forall i | 0 <= i < n {
      target[to + i] := source[start + i];
    }
  }

  /** `vDSP_vclr`. */
  method Clear(target: array<Sample>, n: nat)
    requires n <= target.Length
    modifies target
    ensures forall i :: 0 <= i < target.Length ==> target[i] == if i < n then 0.0 else old(target[i])
  {
    forall i | 0 <= i < n {
      target[i] := 0.0;
    }
  }

  /** `vDSP_vsmul` in place. */
  method Scale(target: array<Sample>, n: nat, factor: real)
    requires n <= target.Length
    modifies target
    ensures forall i :: 0 <= i < target.Length ==>
              target[i] == if i < n then old(target[i]) * factor else old(target[i])
  {
    forall i | 0 <= i < n {
      target[i] := target[i] * factor;
    }
  }

  class Microphone {
    var running: nat
    var running2: nat
    var ring: array?<Sample>
    var lastOutputSampleTime: int
    var isBufferClear: bool
    var mute: bool
    var volume: real
    ghost var history: History

    constructor ()
      ensures Valid() && State() == Unloaded()
    {
      running, running2, ring, lastOutputSampleTime, isBufferClear := 0, 0, null, 0, true;
      mute, volume := false, 1.0;
      history := [];
    }

    ghost function State(): Driver
      reads this
    {
      Driver(running, running2, ring != null, lastOutputSampleTime, isBufferClear, mute, volume, history)
    }

    ghost predicate Valid()
      reads this, ring
    {
      && Inv(State())
      && (ring != null ==> Refines(ring[..], history))
    }

    method StartIO(knownDriver: bool, device: ObjectID) returns (answer: Status)
      requires Valid()
      modifies this
      ensures Valid() && (ring == old(ring) || fresh(ring))
      ensures answer == StartStatus(old(State()), knownDriver, device)
      ensures State() == AfterStart(old(State()), knownDriver, device)
    {
      if !knownDriver {
        return BadObject;
      }
      if device != Device && device != Device2 {
        return BadObject;
      }
      if device == Device && running == MAX_CLIENTS {
        return IllegalOperation;
      }
      if device == Device2 && running2 == MAX_CLIENTS {
        return IllegalOperation;
      }
      if device == Device {
        running := running + 1;
      }
      if device == Device2 {
        running2 := running2 + 1;
      }
      if (running != 0 || running2 != 0) && ring == null {
        ring := new Sample[RING_SAMPLES](_ => 0.0);
        history := [];
      }
      answer := NoError;
    }

    method StopIO(knownDriver: bool, device: ObjectID) returns (answer: Status)
      requires Valid()
      modifies this
      ensures Valid() && (ring == old(ring) || ring == null)
      ensures answer == StopStatus(old(State()), knownDriver, device)
      ensures State() == AfterStop(old(State()), knownDriver, device)
    {
      if !knownDriver {
        return BadObject;
      }
      if device != Device && device != Device2 {
        return BadObject;
      }
      if device == Device && running == 0 {
        return IllegalOperation;
      }
      if device == Device2 && running2 == 0 {
        return IllegalOperation;
      }
      if device == Device {
        running := running - 1;
      }
      if device == Device2 {
        running2 := running2 - 1;
      }
      if running == 0 && running2 == 0 && ring != null {
        ring := null;
        history := [];
      }
      answer := NoError;
    }

    /** Where a cycle's frames lie in the ring: the first slot, and how they split at the end. */
    function Split(frames: nat, time: nat): (r: (nat, nat, nat)) {
      var start := time % RING_FRAMES;
      var first := RING_FRAMES - start;
      if first >= frames then (start, frames, 0) else (start, first, frames - first)
    }

    method Silence(frames: nat, buffer: array<Sample>)
      requires Valid() && ring != null && ring != buffer && CHANNELS * frames <= buffer.Length
      modifies this`isBufferClear, this`history, ring, buffer
      ensures Valid() && State() == old(State()).(isClear := true, history := [])
      ensures forall i :: 0 <= i < buffer.Length ==>
                buffer[i] == if i < CHANNELS * frames then 0.0 else old(buffer[i])
    {
      Clear(buffer, frames * CHANNELS);
      if !isBufferClear {
        Clear(ring, RING_SAMPLES);
        isBufferClear := true;
        history := [];
      }
    }

    method CopyOut(frames: nat, time: nat, buffer: array<Sample>)
      requires Valid() && ring != null && ring != buffer
      requires frames <= RING_FRAMES && CHANNELS * frames <= buffer.Length
      modifies buffer
      ensures forall i :: 0 <= i < buffer.Length ==>
                buffer[i] == if i < CHANNELS * frames then Slot(history, CHANNELS * time + i) else old(buffer[i])
    {
      var (start, first, second) := Split(frames, time);
      Copy(buffer, 0, ring, start * CHANNELS, first * CHANNELS);
      Copy(buffer, first * CHANNELS, ring, 0, second * CHANNELS);
      forall i | 0 <= i < CHANNELS * frames ensures buffer[i] == Slot(history, CHANNELS * time + i) {
        SlotOfSample(time, i);
        SlotOfCongruent(history, CHANNELS * time + i, Offset(CHANNELS * time + i, 0));
      }
    }

    method ReadFrames(frames: nat, time: nat, buffer: array<Sample>)
      requires Valid() && ring != null && ring != buffer
      requires frames <= RING_FRAMES && CHANNELS * frames <= buffer.Length
      modifies this`isBufferClear, this`history, ring, buffer
      ensures Valid() && State() == AfterRead(old(State()), frames, time)
      ensures forall i :: 0 <= i < buffer.Length ==>
                buffer[i] == if i < CHANNELS * frames then ReadSample(old(State()), frames, time, i) else old(buffer[i])
      ensures !old(mute) && time + frames <= old(lastOutputSampleTime) ==>
                && State() == old(State()) && ring[..] == old(ring[..])
                && forall i :: 0 <= i < CHANNELS * frames ==> buffer[i] == Slot(history, CHANNELS * time + i) * volume
      ensures old(mute) || time + frames > old(lastOutputSampleTime) ==>
                && isBufferClear && (forall s :: 0 <= s < RING_SAMPLES ==> ring[s] == 0.0)
                && forall i :: 0 <= i < CHANNELS * frames ==> buffer[i] == 0.0
    {
      if mute || lastOutputSampleTime - frames < time {
        Silence(frames, buffer);
      } else {
        CopyOut(frames, time, buffer);
        Scale(buffer, frames * CHANNELS, volume);
      }
    }

    method CopyIn(frames: nat, time: nat, buffer: array<Sample>)
      requires ring != null && ring.Length == RING_SAMPLES && ring != buffer
      requires frames <= RING_FRAMES && CHANNELS * frames <= buffer.Length
      modifies ring
      ensures Overlaid(old(ring[..]), ring[..], CHANNELS * time, buffer[..CHANNELS * frames])
    {
      var (start, first, second) := Split(frames, time);
      Copy(ring, start * CHANNELS, buffer, 0, first * CHANNELS);
      Copy(ring, 0, buffer, first * CHANNELS, second * CHANNELS);
      forall s | 0 <= s < RING_SAMPLES
        ensures ring[s] == var at := Offset(s, CHANNELS * time);
                           if at < CHANNELS * frames then buffer[at] else old(ring[s])
      {
        SampleOfSlot(time, s);
      }
    }

    method WriteFrames(frames: nat, cycle: Cycle, buffer: array<Sample>) returns (answer: Status)
      requires Valid() && ring != null && ring != buffer
      requires frames <= RING_FRAMES && CHANNELS * frames <= buffer.Length
      modifies this`lastOutputSampleTime, this`isBufferClear, this`history, ring
      ensures Valid()
      ensures answer == if IsOverloaded(frames, cycle) then Unspecified else NoError
      ensures State() == if IsOverloaded(frames, cycle) then old(State())
                         else AfterWrite(old(State()), buffer[..CHANNELS * frames], cycle.outputTime)
    {
      if cycle.currentTime > cycle.outputTime + frames {
        return Unspecified;
      }
      CopyIn(frames, cycle.outputTime, buffer);
      lastOutputSampleTime := cycle.outputTime + frames;
      isBufferClear := false;
      ghost var w := Write(cycle.outputTime, buffer[..CHANNELS * frames]);
      OverlayRefines(old(ring[..]), ring[..], history, w);
      history := history + [w];
      answer := NoError;
    }

    method DoIOOperation(knownDriver: bool, device: ObjectID, stream: ObjectID, operation: Operation,
                         frames: nat, cycle: Cycle, buffer: array<Sample>)
      returns (answer: Status)
      requires Valid() && ring != null && ring != buffer
      requires frames <= RING_FRAMES && CHANNELS * frames <= buffer.Length
      modifies this`lastOutputSampleTime, this`isBufferClear, this`history, ring, buffer
      ensures Valid()
      ensures !KnownObjects(knownDriver, device, stream) ==>
                answer == BadObject && State() == old(State()) && buffer[..] == old(buffer[..])
      ensures KnownObjects(knownDriver, device, stream) && operation == ReadInput ==>
                && answer == NoError && State() == AfterRead(old(State()), frames, cycle.inputTime)
                && forall i :: 0 <= i < CHANNELS * frames ==>
                     buffer[i] == ReadSample(old(State()), frames, cycle.inputTime, i)
      ensures KnownObjects(knownDriver, device, stream) && operation == WriteMix ==>
                && answer == (if IsOverloaded(frames, cycle) then Unspecified else NoError)
                && State() == Step(old(State()), Mix(old(buffer[..CHANNELS * frames]), cycle))
                && buffer[..] == old(buffer[..])
      ensures KnownObjects(knownDriver, device, stream) && operation == OtherOperation ==>
                answer == NoError && State() == old(State()) && buffer[..] == old(buffer[..])
    {
      if !knownDriver || (device != Device && device != Device2)
         || (stream != StreamInput && stream != StreamOutput) {
        return BadObject;
      }
      answer := NoError;
      if operation == ReadInput {
        ReadFrames(frames, cycle.inputTime, buffer);
      }
      if operation == WriteMix {
        answer := WriteFrames(frames, cycle, buffer);
      }
    }
  }
}
