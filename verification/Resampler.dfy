/**
  The streaming linear resampler of `BlackHoleAudioOutput._callback` in `audio.py`.

  The output rate is a parameter. Arithmetic is exact: `step` is the distance in input samples
  between two output frames, and every position is a real number.
 */
module Resampler {
  import opened JitterBuffers
  import JitterRuns

  const INPUT_RATE := 16000.0

  /** The carried state: input samples not yet deleted, and the position of the next frame in them. */
  datatype Window = Window(source: seq<real>, phase: real)

  const RESET := Window([], 0.0)

  ghost predicate Ready(w: Window) {
    0.0 <= w.phase < 1.0
  }

  function Position(w: Window, step: real, k: nat): real {
    w.phase + k as real * step
  }

  /** How many source samples the callback makes sure to have. */
  function Required(w: Window, step: real, frames: nat): int {
    if frames == 0 then 2 else Position(w, step, frames - 1).Floor + 2
  }

  /** How many of those it has to read from the jitter buffer. */
  function Shortfall(w: Window, step: real, frames: nat): nat {
    if |w.source| < Required(w, step, frames) then Required(w, step, frames) - |w.source| else 0
  }

  /** `numpy.interp` over sample indices: linear between samples, clamped at both ends. */
  function Interp(x: seq<real>, at: real): real
    requires |x| > 0
  {
    if at <= 0.0 then x[0]
    else if at >= (|x| - 1) as real then x[|x| - 1]
    else
      var i := at.Floor;
      x[i] + (at - i as real) * (x[i + 1] - x[i])
  }

  function Delete(x: seq<real>, n: nat): seq<real> {
    if n <= |x| then x[n..] else []
  }

  /** One callback for `frames` output frames, given the samples it read. */
  function CallbackOn(w: Window, step: real, frames: nat, pulled: seq<real>): (Window, seq<real>)
    requires Ready(w) && step > 0.0 && |pulled| == Shortfall(w, step, frames)
  {
    var source := w.source + pulled;
    var out := seq(frames, k requires 0 <= k < frames => Interp(source, Position(w, step, k)));
    var next := Position(w, step, frames);
    NextPositionIsPositive(w, step, frames);
    (Window(Delete(source, next.Floor), next - next.Floor as real), out)
  }

  lemma NextPositionIsPositive(w: Window, step: real, frames: nat)
    requires Ready(w) && step > 0.0
    ensures Position(w, step, frames) >= 0.0
    ensures Position(w, step, frames).Floor >= 0
    ensures Required(w, step, frames) >= 2
  {
    assert frames as real * step >= 0.0;
    if frames > 0 {
      assert (frames - 1) as real * step >= 0.0;
    }
  }

  // ---- Runs ----------------------------------------------------------------------------

  datatype Call = Call(frames: nat, pulled: seq<real>)

  /** Everything read, everything played, and how much of the input has been deleted. */
  datatype Trace = Trace(window: Window, input: seq<real>, output: seq<real>, deleted: nat)

  ghost predicate Fits(step: real, calls: seq<Call>)
    requires step > 0.0
    decreases |calls|, 0
  {
    calls == [] ||
    (var front := calls[..|calls| - 1];
     Fits(step, front) &&
     |calls[|calls| - 1].pulled| == Shortfall(Run(step, front).window, step, calls[|calls| - 1].frames))
  }

  /** A run of callbacks from a reset stream. */
  ghost function Run(step: real, calls: seq<Call>): (t: Trace)
    requires step > 0.0 && Fits(step, calls)
    ensures Ready(t.window)
    decreases |calls|, 1
  {
    if calls == [] then Trace(RESET, [], [], 0)
    else Extend(step, Run(step, calls[..|calls| - 1]), calls[|calls| - 1])
  }

  ghost function Extend(step: real, t: Trace, c: Call): (r: Trace)
    requires step > 0.0 && Ready(t.window) && |c.pulled| == Shortfall(t.window, step, c.frames)
    ensures Ready(r.window)
  {
    var (window, out) := CallbackOn(t.window, step, c.frames, c.pulled);
    Trace(window, t.input + c.pulled, t.output + out,
          t.deleted + |t.window.source| + |c.pulled| - |window.source|)
  }

  /** The value of the whole input at a position, by linear interpolation, off neither end. */
  ghost predicate IsInterpolated(input: seq<real>, at: real, y: real) {
    && 0.0 <= at && at.Floor + 1 < |input|
    && y == input[at.Floor] + (at - at.Floor as real) * (input[at.Floor + 1] - input[at.Floor])
  }

  /** The window is where `|output|` frames of one uninterrupted pass would have left it. */
  ghost predicate InStep(step: real, t: Trace) {
    && Ready(t.window)
    && t.deleted <= |t.input| && t.window.source == t.input[t.deleted..]
    && t.deleted as real + t.window.phase == |t.output| as real * step
  }

  /** Output frame k is the interpolation of the whole input at k steps. */
  ghost predicate IsOneShot(step: real, t: Trace) {
    forall k :: 0 <= k < |t.output| ==> IsInterpolated(t.input, k as real * step, t.output[k])
  }

  lemma PositionsGrow(w: Window, step: real, k: nat, n: nat)
    requires step > 0.0 && k <= n
    ensures Position(w, step, k) <= Position(w, step, n)
    ensures Position(w, step, n + 1) == Position(w, step, n) + step
  {
    assert (n - k) as real * step >= 0.0;
    assert n as real * step == k as real * step + (n - k) as real * step;
    assert (n + 1) as real * step == n as real * step + step;
  }

  /** No position a callback reads lies outside the samples it holds. */
  lemma PositionsFit(w: Window, step: real, frames: nat, k: nat, have: nat)
    requires Ready(w) && step > 0.0 && k < frames && have >= Required(w, step, frames)
    ensures 0.0 <= Position(w, step, k) && Position(w, step, k).Floor + 1 < have
  {
    assert k as real * step >= 0.0;
    PositionsGrow(w, step, k, frames - 1);
  }

  /** At most as many samples are deleted as are held, unless a step exceeds two samples. */
  lemma DeletionFits(w: Window, step: real, frames: nat)
    requires Ready(w) && 0.0 < step <= 2.0
    ensures 0 <= Position(w, step, frames).Floor <= Required(w, step, frames)
    ensures step <= 1.0 ==> Position(w, step, frames).Floor < Required(w, step, frames)
  {
    NextPositionIsPositive(w, step, frames);
    if frames > 0 {
      PositionsGrow(w, step, 0, frames - 1);
    }
  }

  lemma ShiftedInterpolation(input: seq<real>, deleted: nat, at: real)
    requires deleted <= |input| && 0.0 <= at && at.Floor + 1 < |input| - deleted
    ensures IsInterpolated(input, deleted as real + at, Interp(input[deleted..], at))
  {
    var source := input[deleted..];
    assert (deleted as real + at).Floor == deleted + at.Floor;
    assert source[at.Floor] == input[deleted + at.Floor];
    assert source[at.Floor + 1] == input[deleted + at.Floor + 1];
  }

  /** A window on the input, after more was read and some of it deleted. */
  lemma WindowOfInput(input: seq<real>, pulled: seq<real>, deleted: nat, n: nat)
    requires deleted <= |input| && deleted + n <= |input| + |pulled|
    ensures input[deleted..] + pulled == (input + pulled)[deleted..]
    ensures n <= |input[deleted..] + pulled|
    ensures Delete(input[deleted..] + pulled, n) == (input + pulled)[deleted + n..]
  {
  }

  lemma ExtendDeletes(step: real, t: Trace, c: Call)
    requires 0.0 < step <= 2.0 && InStep(step, t)
    requires |c.pulled| == Shortfall(t.window, step, c.frames)
    ensures var n, r := Position(t.window, step, c.frames).Floor, Extend(step, t, c);
            && 0 <= n && t.deleted + n <= |r.input| && r.deleted == t.deleted + n
            && r.window.source == r.input[r.deleted..]
            && (step <= 1.0 ==> |r.window.source| >= 1)
  {
    DeletionFits(t.window, step, c.frames);
    WindowOfInput(t.input, c.pulled, t.deleted, Position(t.window, step, c.frames).Floor);
  }

  lemma ExtendShape(step: real, t: Trace, c: Call)
    requires step > 0.0 && Ready(t.window) && |c.pulled| == Shortfall(t.window, step, c.frames)
    ensures var next, r := Position(t.window, step, c.frames), Extend(step, t, c);
            r.window.phase == next - next.Floor as real && |r.output| == |t.output| + c.frames
  {
  }

  lemma ExtendStaysInStep(step: real, t: Trace, c: Call)
    requires 0.0 < step <= 2.0 && InStep(step, t)
    requires |c.pulled| == Shortfall(t.window, step, c.frames)
    ensures InStep(step, Extend(step, t, c))
    ensures step <= 1.0 ==> |Extend(step, t, c).window.source| >= 1
  {
    ExtendDeletes(step, t, c);
    ExtendShape(step, t, c);
    FramePosition(step, t, c.frames);
  }

  lemma StepsAdd(a: nat, b: nat, step: real)
    ensures (a + b) as real * step == a as real * step + b as real * step
  {
  }

  lemma FramePosition(step: real, t: Trace, j: nat)
    requires InStep(step, t)
    ensures t.deleted as real + Position(t.window, step, j) == (|t.output| + j) as real * step
  {
    StepsAdd(|t.output|, j, step);
  }

  lemma FrameIsOneShot(step: real, t: Trace, c: Call, j: nat, at: real)
    requires 0.0 < step <= 2.0 && InStep(step, t) && j < c.frames
    requires |c.pulled| == Shortfall(t.window, step, c.frames)
    requires at == t.deleted as real + Position(t.window, step, j)
    ensures IsInterpolated(t.input + c.pulled, at, CallbackOn(t.window, step, c.frames, c.pulled).1[j])
  {
    var input := t.input + c.pulled;
    assert t.window.source + c.pulled == input[t.deleted..];
    PositionsFit(t.window, step, c.frames, j, |input| - t.deleted);
    ShiftedInterpolation(input, t.deleted, Position(t.window, step, j));
  }

  lemma InterpolationExtends(input: seq<real>, more: seq<real>, at: real, y: real)
    requires IsInterpolated(input, at, y) && input <= more
    ensures IsInterpolated(more, at, y)
  {
  }

  /** A frame that the callback adds. */
  lemma AddedFrame(step: real, t: Trace, c: Call, j: nat, at: real)
    requires 0.0 < step <= 2.0 && InStep(step, t) && j < c.frames
    requires |c.pulled| == Shortfall(t.window, step, c.frames) && at == (|t.output| + j) as real * step
    ensures IsInterpolated(t.input + c.pulled, at, CallbackOn(t.window, step, c.frames, c.pulled).1[j])
  {
    FramePosition(step, t, j);
    FrameIsOneShot(step, t, c, j, at);
  }

  lemma ExtendAppends(step: real, t: Trace, c: Call)
    requires step > 0.0 && Ready(t.window) && |c.pulled| == Shortfall(t.window, step, c.frames)
    ensures var r, out := Extend(step, t, c), CallbackOn(t.window, step, c.frames, c.pulled).1;
            r.output == t.output + out && |out| == c.frames && r.input == t.input + c.pulled
  {
  }

  lemma FrameOfSum(input: seq<real>, more: seq<real>, output: seq<real>, out: seq<real>, k: nat, at: real)
    requires k < |output + out|
    requires k < |output| ==> IsInterpolated(input, at, output[k])
    requires k >= |output| ==> IsInterpolated(input + more, at, out[k - |output|])
    ensures IsInterpolated(input + more, at, (output + out)[k])
  {
    if k < |output| {
      InterpolationExtends(input, input + more, at, output[k]);
    }
  }

  lemma ExtendedFrame(step: real, t: Trace, c: Call, k: nat, at: real)
    requires 0.0 < step <= 2.0 && InStep(step, t)
    requires k < |t.output| ==> IsInterpolated(t.input, at, t.output[k])
    requires |c.pulled| == Shortfall(t.window, step, c.frames)
    requires k < |Extend(step, t, c).output| && at == k as real * step
    ensures IsInterpolated(t.input + c.pulled, at, Extend(step, t, c).output[k])
  {
    ExtendAppends(step, t, c);
    var out := CallbackOn(t.window, step, c.frames, c.pulled).1;
    if k >= |t.output| {
      var j := k - |t.output|;
      assert |t.output| + j == k;
      AddedFrame(step, t, c, j, at);
    }
    FrameOfSum(t.input, c.pulled, t.output, out, k, at);
  }

  lemma ExtendStaysOneShot(step: real, t: Trace, c: Call)
    requires 0.0 < step <= 2.0 && InStep(step, t) && IsOneShot(step, t)
    requires |c.pulled| == Shortfall(t.window, step, c.frames)
    ensures IsOneShot(step, Extend(step, t, c))
  {
    var r := Extend(step, t, c);
    forall k | 0 <= k < |r.output| ensures IsInterpolated(r.input, k as real * step, r.output[k]) {
      ExtendedFrame(step, t, c, k, k as real * step);
    }
  }

  /**
    However N output frames are split into callbacks, frame k is the linear interpolation of
    all the input at k steps, and the deleted samples and the phase add up to N steps. A step of
    at most one sample also always leaves a sample to interpolate from.
   */
  lemma {:induction false} StreamingIsOneShot(step: real, calls: seq<Call>)
    requires 0.0 < step <= 2.0 && Fits(step, calls)
    ensures InStep(step, Run(step, calls)) && IsOneShot(step, Run(step, calls))
    ensures step <= 1.0 && calls != [] ==> |Run(step, calls).window.source| >= 1
  {
    if calls != [] {
      var front, c := calls[..|calls| - 1], calls[|calls| - 1];
      StreamingIsOneShot(step, front);
      ExtendStaysInStep(step, Run(step, front), c);
      ExtendStaysOneShot(step, Run(step, front), c);
    }
  }

  /** Two splits of the same stream agree on every frame both have produced. */
  lemma SplitDoesNotMatter(step: real, a: seq<Call>, b: seq<Call>, k: nat)
    requires 0.0 < step <= 2.0 && Fits(step, a) && Fits(step, b)
    requires Run(step, a).input <= Run(step, b).input
    requires k < |Run(step, a).output| && k < |Run(step, b).output|
    ensures Run(step, a).output[k] == Run(step, b).output[k]
  {
    StreamingIsOneShot(step, a);
    StreamingIsOneShot(step, b);
    var s, t := Run(step, a), Run(step, b);
    InterpolationExtends(s.input, t.input, k as real * step, s.output[k]);
  }

  // ---- The rates that work -------------------------------------------------------------

  function SingleFrames(n: nat): seq<Call> {
    if n == 0 then [] else SingleFrames(n - 1) + [ONE_FRAME]
  }

  const ONE_FRAME := Call(1, [0.0, 0.0])

  /** What n one-frame callbacks leave of silence when a step is above two samples. */
  ghost predicate FellBehind(t: Trace, n: nat) {
    Ready(t.window) && t.window.source == [] && t.deleted == 2 * n && |t.output| == n
  }

  lemma FallsBehind(step: real, t: Trace, n: nat)
    requires step > 2.0 && FellBehind(t, n)
    ensures Shortfall(t.window, step, 1) == 2
    ensures FellBehind(Extend(step, t, ONE_FRAME), n + 1)
  {
    assert Position(t.window, step, 0) == t.window.phase && t.window.phase.Floor == 0;
    assert Position(t.window, step, 1) == t.window.phase + step;
  }

  /** Above two samples a step, one-frame callbacks delete only the two samples they read. */
  lemma {:induction false} SingleFramesDrift(step: real, n: nat)
    requires step > 2.0
    ensures Fits(step, SingleFrames(n)) && FellBehind(Run(step, SingleFrames(n)), n)
  {
    if n > 0 {
      SingleFramesDrift(step, n - 1);
      var calls, front := SingleFrames(n), SingleFrames(n - 1);
      assert calls[..|calls| - 1] == front && calls[|calls| - 1] == ONE_FRAME;
      FallsBehind(step, Run(step, front), n - 1);
    }
  }

  ghost predicate NeverDrifts(step: real)
    requires step > 0.0
  {
    forall calls: seq<Call> :: Fits(step, calls) ==> InStep(step, Run(step, calls))
  }

  lemma ManySteps(excess: real) returns (n: nat)
    requires excess > 0.0
    ensures n as real * excess >= 1.0
  {
    n := (1.0 / excess).Floor + 1;
    assert n as real * excess >= (1.0 / excess) * excess;
  }

  lemma BehindIsOutOfStep(step: real, t: Trace, n: nat)
    requires FellBehind(t, n) && n as real * (step - 2.0) >= 1.0
    ensures !InStep(step, t)
  {
    assert n as real * step == n as real * (step - 2.0) + 2.0 * n as real;
  }

  lemma SlowRatesDrift(step: real)
    requires step > 2.0
    ensures !NeverDrifts(step)
  {
    var n := ManySteps(step - 2.0);
    SingleFramesDrift(step, n);
    BehindIsOutOfStep(step, Run(step, SingleFrames(n)), n);
  }

  /** The stream never drifts, for any split, exactly when a step is at most two samples. */
  lemma NeverDriftsIff(step: real)
    requires step > 0.0
    ensures NeverDrifts(step) <==> step <= 2.0
  {
    if step <= 2.0 {
      forall calls: seq<Call> | Fits(step, calls) ensures InStep(step, Run(step, calls)) {
        StreamingIsOneShot(step, calls);
      }
    } else {
      SlowRatesDrift(step);
    }
  }

  // ---- The output object ---------------------------------------------------------------

  function Scaled(samples: seq<int>): (r: seq<real>)
    ensures |r| == |samples| && forall i :: 0 <= i < |r| ==> r[i] * 32768.0 == samples[i] as real
  {
    seq(|samples|, i requires 0 <= i < |samples| => samples[i] as real / 32768.0)
  }

  /** `shape` stands for the make-up gain and its soft clip. */
  class BlackHoleAudioOutput {
    const outputRate: real
    const shape: real -> real
    var jitter: JitterBuffer
    var source: seq<real>
    var phase: real

    ghost predicate Valid()
      reads this, jitter
    {
      outputRate > 0.0 && jitter.Valid() && Ready(State())
    }

    function State(): Window
      reads this
    {
      Window(source, phase)
    }

    /** A second of output, which is `outputRate` frames, takes 16000 input samples. */
    function Step(): (step: real)
      requires outputRate > 0.0
      ensures step > 0.0 && step * outputRate == 16000.0
    {
      INPUT_RATE / outputRate
    }

    constructor (rate: real, shape: real -> real, targetMs: int := 100)
      requires rate > 0.0
      ensures Valid() && fresh(jitter)
      ensures State() == RESET && jitter.State() == EMPTY && outputRate == rate && this.shape == shape
    {
      outputRate := rate;
      this.shape := shape;
      jitter := new JitterBuffer(targetMs);
      source, phase := [], 0.0;
    }

    method ResetStream()
      requires Valid()
      modifies this, jitter
      ensures Valid() && jitter == old(jitter)
      ensures State() == RESET && jitter.State() == Cleared(old(jitter.State()))
    {
      source := [];
      phase := 0.0;
      jitter.Reset();
    }

    /** Fills `frames` output frames; both channels get `mono`. */
    method Callback(frames: nat) returns (mono: seq<real>)
      requires Valid()
      modifies this, jitter
      ensures Valid() && jitter == old(jitter)
      ensures var missing := Shortfall(old(State()), Step(), frames);
              var (buffer, samples) := Read(jitter.depths, old(jitter.State()), missing);
              var (window, out) := CallbackOn(old(State()), Step(), frames, Scaled(samples));
              && jitter.State() == buffer
              && State() == window
              && mono == seq(frames, k requires 0 <= k < frames => shape(out[k]))
    {
      var step, w := Step(), State();
      var required := Required(w, step, frames);
      var samples := [];
      ReadNothing(jitter.depths, jitter.State());
      if |source| < required {
        samples := jitter.ReadSamples(required - |source|);
        source := source + Scaled(samples);
      }
      NextPositionIsPositive(w, step, frames);
      var held := source;
      assert held == w.source + Scaled(samples);
      mono := seq(frames, k requires 0 <= k < frames => shape(Interp(held, Position(w, step, k))));
      var nextPosition := Position(w, step, frames);
      var consumed := nextPosition.Floor;
      if consumed != 0 {
        source := Delete(source, consumed);
      }
      phase := nextPosition - consumed as real;
      ghost var expected := CallbackOn(w, step, frames, Scaled(samples));
      assert State() == expected.0;
      assert forall k :: 0 <= k < frames ==> mono[k] == shape(expected.1[k]);
    }
  }

  lemma HalfTheRate(step: real, rate: real)
    requires rate > 0.0 && step * rate == 16000.0
    ensures step <= 2.0 <==> rate >= 8000.0
  {
    if step <= 2.0 {
      assert step * rate <= 2.0 * rate;
    } else {
      assert step * rate > 2.0 * rate;
    }
  }

  lemma RateNeverDriftsIff(step: real, rate: real)
    requires step > 0.0 && rate > 0.0 && step * rate == 16000.0
    ensures NeverDrifts(step) <==> rate >= 8000.0
  {
    HalfTheRate(step, rate);
    NeverDriftsIff(step);
  }

  /** An output never drifts exactly if its rate is at least 8000 frames a second. */
  lemma OutputNeverDriftsIff(out: BlackHoleAudioOutput)
    requires out.outputRate > 0.0
    ensures NeverDrifts(out.Step()) <==> out.outputRate >= 8000.0
  {
    var step := out.Step();
    RateNeverDriftsIff(step, out.outputRate);
  }

  lemma ReadNothing(d: Depths, b: Buffer)
    requires d.target >= 1 && (b.started ==> b.next.Some?)
    ensures Read(d, b, 0) == (b, [])
  {
    assert b.samples[0..] == b.samples;
  }

  // ---- Callbacks against one jitter buffer ---------------------------------------------

  /** A run of callbacks that read one buffer while no packet arrives. */
  datatype Playback = Playback(buffer: Buffer, trace: Trace)

  ghost function Play(d: Depths, b: Buffer, step: real, split: seq<nat>): (p: Playback)
    requires Inv(d, b) && step > 0.0
    ensures Inv(d, p.buffer) && Ready(p.trace.window)
  {
    if split == [] then Playback(b, Trace(RESET, [], [], 0))
    else
      var before := Play(d, b, step, split[..|split| - 1]);
      var frames := split[|split| - 1];
      var missing := Shortfall(before.trace.window, step, frames);
      ReadKeepsInv(d, before.buffer, missing);
      var (after, samples) := Read(d, before.buffer, missing);
      Playback(after, Extend(step, before.trace, Call(frames, Scaled(samples))))
  }

  function Total(split: seq<nat>): nat {
    if split == [] then 0 else Total(split[..|split| - 1]) + split[|split| - 1]
  }

  /** The input read so far is one read of as many samples, and so is the state it left. */
  ghost predicate IsOneRead(d: Depths, b: Buffer, p: Playback)
    requires Inv(d, b)
  {
    Read(d, b, |p.trace.input|).0 == p.buffer && Scaled(Read(d, b, |p.trace.input|).1) == p.trace.input
  }

  ghost predicate IsSound(d: Depths, b: Buffer, step: real, frames: nat, p: Playback)
    requires Inv(d, b)
  {
    && InStep(step, p.trace) && IsOneShot(step, p.trace)
    && |p.trace.output| == frames
    && IsOneRead(d, b, p)
  }

  lemma OneMoreRead(d: Depths, b: Buffer, p: Playback, n: nat)
    requires Inv(d, b) && Inv(d, p.buffer) && IsOneRead(d, b, p)
    ensures var (after, samples) := Read(d, p.buffer, n);
            && Read(d, b, |p.trace.input| + n).0 == after
            && Scaled(Read(d, b, |p.trace.input| + n).1) == p.trace.input + Scaled(samples)
  {
    JitterRuns.ReadsCompose(d, b, |p.trace.input|, n);
    var first, second := Read(d, b, |p.trace.input|).1, Read(d, p.buffer, n).1;
    assert Scaled(first + second) == Scaled(first) + Scaled(second);
  }

  lemma {:induction false} PlayIsOneShot(d: Depths, b: Buffer, step: real, split: seq<nat>)
    requires Inv(d, b) && 0.0 < step <= 2.0
    ensures IsSound(d, b, step, Total(split), Play(d, b, step, split))
  {
    if split == [] {
      ReadNothing(d, b);
    } else {
      var front, frames := split[..|split| - 1], split[|split| - 1];
      PlayIsOneShot(d, b, step, front);
      var before := Play(d, b, step, front);
      var missing := Shortfall(before.trace.window, step, frames);
      var c := Call(frames, Scaled(Read(d, before.buffer, missing).1));
      ExtendStaysInStep(step, before.trace, c);
      ExtendStaysOneShot(step, before.trace, c);
      OneMoreRead(d, b, before, missing);
    }
  }

  lemma ReadsArePrefixes(d: Depths, b: Buffer, m: nat, n: nat)
    requires Inv(d, b) && m <= n
    ensures Scaled(Read(d, b, m).1) <= Scaled(Read(d, b, n).1)
  {
    JitterRuns.ReadsCompose(d, b, m, n - m);
  }

  /** However the host splits the same number of output frames, it hears the same frames. */
  lemma AnySplitSoundsTheSame(d: Depths, b: Buffer, step: real, split: seq<nat>, other: seq<nat>)
    requires Inv(d, b) && 0.0 < step <= 2.0 && Total(split) == Total(other)
    ensures Play(d, b, step, split).trace.output == Play(d, b, step, other).trace.output
  {
    PlayIsOneShot(d, b, step, split);
    PlayIsOneShot(d, b, step, other);
    var s, t := Play(d, b, step, split).trace, Play(d, b, step, other).trace;
    if |s.input| <= |t.input| {
      SameFrames(d, b, step, s, t);
    } else {
      SameFrames(d, b, step, t, s);
    }
  }

  lemma SameFrames(d: Depths, b: Buffer, step: real, s: Trace, t: Trace)
    requires Inv(d, b) && IsOneShot(step, s) && IsOneShot(step, t)
    requires |s.output| == |t.output| && |s.input| <= |t.input|
    requires s.input == Scaled(Read(d, b, |s.input|).1) && t.input == Scaled(Read(d, b, |t.input|).1)
    ensures s.output == t.output
  {
    ReadsArePrefixes(d, b, |s.input|, |t.input|);
    forall k | 0 <= k < |s.output| ensures s.output[k] == t.output[k] {
      InterpolationExtends(s.input, t.input, k as real * step, s.output[k]);
    }
  }
}
