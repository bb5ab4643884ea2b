/**
  The sequence-ordered jitter buffer of `audio.py`.

  The functions below specify one call each on a buffer value; class `JitterBuffer` is the
  object itself, field by field, and every method is proved to compute its function.
  A payload is represented by the 320 samples it decodes to.
 */
module JitterBuffers {
  import opened Common

  const SAMPLES_PER_FRAME := 320
  const SEQUENCE_SPACE := 0x1_0000_0000

  type Frame = s: seq<int> | |s| == SAMPLES_PER_FRAME witness seq(SAMPLES_PER_FRAME, _ => 0)
  type Sequence = n: nat | n < SEQUENCE_SPACE

  datatype Packet = Packet(sequence: Sequence, payload: Frame)

  /** The three depths fixed when a buffer is built. */
  datatype Depths = Depths(target: nat, max: nat, starvation: nat) {
    predicate Valid() {
      1 <= target && target + 2 <= max && 10 <= starvation && 2 * target <= starvation
    }
  }

  /** `packets` lists the dictionary's items in its iteration order. */
  datatype Buffer = Buffer(
    packets: seq<Packet>,
    samples: seq<int>,
    next: Option<Sequence>,
    started: bool,
    missing: nat,
    received: nat,
    lost: nat,
    late: nat,
    resyncs: nat)

  const EMPTY := Buffer([], [], None, false, 0, 0, 0, 0, 0)

  /** One frame handed to playback: concealment silence, or a packet's payload. */
  datatype Pull = Silence | Played(packet: Packet)

  function SilentFrame(): Frame {
    seq(SAMPLES_PER_FRAME, _ => 0)
  }

  function PullSamples(p: Pull): Frame {
    match p
    case Silence => SilentFrame()
    case Played(packet) => packet.payload
  }

  // ---- Packet lists --------------------------------------------------------------------

  ghost predicate Ascending(ps: seq<Packet>) {
    forall i, j :: 0 <= i < j < |ps| ==> ps[i].sequence < ps[j].sequence
  }

  predicate Has(ps: seq<Packet>, q: Sequence) {
    exists i :: 0 <= i < |ps| && ps[i].sequence == q
  }

  lemma HasSplits(ps: seq<Packet>, q: Sequence)
    requires ps != []
    ensures Has(ps, q) <==> ps[0].sequence == q || Has(ps[1..], q)
  {
    assert ps == [ps[0]] + ps[1..];
  }

  /** The position of the item with key `q`; every position before it has another key. */
  function Find(ps: seq<Packet>, q: Sequence): (r: Option<nat>)
    ensures r.Some? <==> Has(ps, q)
    ensures r.Some? ==> r.value < |ps| && ps[r.value].sequence == q
  {
    if ps == [] then None
    else if ps[0].sequence == q then Some(0)
    else
      HasSplits(ps, q);
      var rest := Find(ps[1..], q);
      if rest.Some? then Some(rest.value + 1) else None
  }

  function Insert(ps: seq<Packet>, p: Packet): seq<Packet> {
    if ps == [] || p.sequence < ps[0].sequence then [p] + ps
    else [ps[0]] + Insert(ps[1..], p)
  }

  /** Python's `sorted` on the items of a dictionary, whose keys are distinct. */
  function Sorted(ps: seq<Packet>): seq<Packet> {
    if ps == [] then [] else Insert(Sorted(ps[..|ps| - 1]), ps[|ps| - 1])
  }

  function Without(ps: seq<Packet>, i: nat): seq<Packet>
    requires i < |ps|
  {
    ps[..i] + ps[i + 1..]
  }

  /** The `n` items with the largest keys, once the list is ascending. */
  function KeepLast(ps: seq<Packet>, n: nat): seq<Packet> {
    if |ps| > n then ps[|ps| - n..] else ps
  }

  /** The items the eviction loop takes off the front to leave `n`. */
  function Evicted(ps: seq<Packet>, n: nat): seq<Packet> {
    if |ps| > n then ps[..|ps| - n] else []
  }

  lemma {:induction false} InsertContents(ps: seq<Packet>, p: Packet)
    ensures multiset(Insert(ps, p)) == multiset(ps) + multiset{p}
    ensures |Insert(ps, p)| == |ps| + 1
    ensures forall x :: x in Insert(ps, p) ==> x in ps || x == p
  {
    if ps != [] && ps[0].sequence <= p.sequence {
      InsertContents(ps[1..], p);
      assert ps == [ps[0]] + ps[1..];
    }
  }

  lemma PrependAscends(p: Packet, ps: seq<Packet>)
    requires Ascending(ps) && forall x :: x in ps ==> p.sequence < x.sequence
    ensures Ascending([p] + ps)
  {
    var all := [p] + ps;
    forall i, j | 0 <= i < j < |all| ensures all[i].sequence < all[j].sequence {
      assert all[j] == ps[j - 1] && ps[j - 1] in ps;
      if i > 0 {
        assert all[i] == ps[i - 1];
      }
    }
  }

  lemma InsertedIsBeyond(first: Packet, ps: seq<Packet>, p: Packet)
    requires first.sequence < p.sequence && forall x :: x in ps ==> first.sequence < x.sequence
    ensures forall x :: x in Insert(ps, p) ==> first.sequence < x.sequence
  {
    InsertContents(ps, p);
  }

  lemma RestIsBeyond(ps: seq<Packet>)
    requires Ascending(ps) && ps != []
    ensures Ascending(ps[1..]) && forall x :: x in ps[1..] ==> ps[0].sequence < x.sequence
  {
  }

  lemma {:induction false} InsertAscends(ps: seq<Packet>, p: Packet)
    requires Ascending(ps) && !Has(ps, p.sequence)
    ensures Ascending(Insert(ps, p))
  {
    if ps != [] {
      RestIsBeyond(ps);
      if p.sequence < ps[0].sequence {
        PrependAscends(p, ps);
      } else {
        HasSplits(ps, p.sequence);
        InsertAscends(ps[1..], p);
        InsertedIsBeyond(ps[0], ps[1..], p);
        PrependAscends(ps[0], Insert(ps[1..], p));
      }
    }
  }

  lemma InsertAscending(ps: seq<Packet>, p: Packet)
    requires Ascending(ps) && !Has(ps, p.sequence)
    ensures Ascending(Insert(ps, p))
    ensures multiset(Insert(ps, p)) == multiset(ps) + multiset{p}
    ensures |Insert(ps, p)| == |ps| + 1
  {
    InsertAscends(ps, p);
    InsertContents(ps, p);
  }

  lemma {:induction false} InsertAtEnd(ps: seq<Packet>, p: Packet)
    requires forall i :: 0 <= i < |ps| ==> ps[i].sequence < p.sequence
    ensures Insert(ps, p) == ps + [p]
  {
    if ps != [] {
      InsertAtEnd(ps[1..], p);
      assert ps == [ps[0]] + ps[1..];
    }
  }

  lemma {:induction false} SortedOfAscending(ps: seq<Packet>)
    requires Ascending(ps)
    ensures Sorted(ps) == ps
  {
    if ps != [] {
      var front := ps[..|ps| - 1];
      SortedOfAscending(front);
      InsertAtEnd(front, ps[|ps| - 1]);
      assert ps == front + [ps[|ps| - 1]];
    }
  }

  /** Appending one item and sorting again is one ordered insertion. */
  lemma SortedAfterAppend(ps: seq<Packet>, p: Packet)
    requires Ascending(ps)
    ensures Sorted(ps + [p]) == Insert(ps, p)
  {
    assert (ps + [p])[..|ps|] == ps;
    SortedOfAscending(ps);
  }

  lemma WithoutIsRemoval(ps: seq<Packet>, i: nat)
    requires i < |ps|
    ensures multiset(ps) == multiset(Without(ps, i)) + multiset{ps[i]}
  {
    assert ps == ps[..i] + [ps[i]] + ps[i + 1..];
  }

  // ---- The calls -----------------------------------------------------------------------

  /** What every reachable buffer satisfies. */
  ghost predicate Inv(d: Depths, b: Buffer) {
    && d.Valid()
    && Ascending(b.packets)
    && |b.packets| <= d.max
    && (b.started <==> b.next.Some?)
    && (b.started ==> forall i :: 0 <= i < |b.packets| ==> b.next.value <= b.packets[i].sequence)
    && (!b.started ==> b.missing == 0)
    && b.missing < d.starvation
    && |b.samples| < SAMPLES_PER_FRAME
  }

  /** Everything but the counters back to the initial state. */
  function Cleared(b: Buffer): Buffer {
    b.(packets := [], samples := [], next := None, started := false, missing := 0)
  }

  predicate IsBehind(b: Buffer, q: Sequence) {
    b.next.Some? && q < b.next.value
  }

  /** Behind, but by no more than `max`: the packet is counted late and dropped. */
  predicate IsLate(d: Depths, b: Buffer, q: Sequence) {
    IsBehind(b, q) && b.next.value - q <= d.max
  }

  /** A number already buffered keeps its first payload. */
  function Stored(ps: seq<Packet>, q: Sequence, f: Frame): seq<Packet> {
    if Has(ps, q) then ps else Insert(ps, Packet(q, f))
  }

  function Accept(d: Depths, b: Buffer, q: Sequence, f: Frame): Buffer {
    b.(packets := KeepLast(Stored(b.packets, q, f), d.max),
       received := if Has(b.packets, q) then b.received else b.received + 1)
  }

  function AfterFeed(d: Depths, b: Buffer, q: Sequence, f: Frame): Buffer {
    if IsLate(d, b, q) then b.(late := b.late + 1)
    else if IsBehind(b, q) then Accept(d, Cleared(b).(resyncs := b.resyncs + 1), q, f)
    else Accept(d, b, q, f)
  }

  function Successor(q: Sequence): Sequence {
    (q + 1) % SEQUENCE_SPACE
  }

  function Begin(b: Buffer): Buffer
    requires b.started || |b.packets| > 0
  {
    if b.started then b else b.(next := Some(b.packets[0].sequence), started := true)
  }

  /** One more frame is missing; too many in a row, and the buffer starts over. */
  function Missed(d: Depths, b: Buffer): Buffer {
    var gap := b.(lost := b.lost + 1, missing := b.missing + 1);
    if gap.missing < d.starvation then gap
    else gap.(packets := [], next := None, started := false, missing := 0, resyncs := b.resyncs + 1)
  }

  function Advance(d: Depths, b: Buffer): (Buffer, Pull)
    requires b.next.Some?
  {
    var moved := b.(next := Some(Successor(b.next.value)));
    match Find(b.packets, b.next.value)
    case Some(i) => (moved.(packets := Without(b.packets, i), missing := 0), Played(b.packets[i]))
    case None => (Missed(d, moved), Silence)
  }

  predicate IsWaiting(d: Depths, b: Buffer) {
    !b.started && |b.packets| < d.target
  }

  function NextFrame(d: Depths, b: Buffer): (Buffer, Pull)
    requires d.target >= 1 && (b.started ==> b.next.Some?)
  {
    if IsWaiting(d, b) then (b, Silence)
    else Advance(d, Begin(b))
  }

  /** One turn of the loop in `read_samples`. */
  function PullFrame(d: Depths, b: Buffer): (Buffer, Pull)
    requires d.target >= 1 && (b.started ==> b.next.Some?)
  {
    var (after, p) := NextFrame(d, b);
    (after.(samples := after.samples + PullSamples(p)), p)
  }

  /** The loop of `read_samples`, with the frames it pulls in order. */
  function Fill(d: Depths, b: Buffer, count: nat): (Buffer, seq<Pull>)
    requires d.target >= 1 && (b.started ==> b.next.Some?)
    decreases count - |b.samples|
  {
    if |b.samples| >= count then (b, [])
    else
      var (once, p) := PullFrame(d, b);
      var (done, rest) := Fill(d, once, count);
      (done, [p] + rest)
  }

  function Read(d: Depths, b: Buffer, count: nat): (r: (Buffer, seq<int>))
    requires d.target >= 1 && (b.started ==> b.next.Some?)
    ensures |r.1| == count
  {
    var (full, pulls) := Fill(d, b, count);
    FillReaches(d, b, count);
    (full.(samples := full.samples[count..]), full.samples[..count])
  }

  lemma {:induction false} FillReaches(d: Depths, b: Buffer, count: nat)
    requires d.target >= 1 && (b.started ==> b.next.Some?)
    ensures |Fill(d, b, count).0.samples| >= count
    decreases count - |b.samples|
  {
    if |b.samples| < count {
      FillReaches(d, PullFrame(d, b).0, count);
    }
  }

  // ---- Invariants ----------------------------------------------------------------------

  lemma AcceptKeepsInv(d: Depths, b: Buffer, q: Sequence, f: Frame)
    requires Inv(d, b) && !IsBehind(b, q)
    ensures Inv(d, Accept(d, b, q, f))
  {
    if !Has(b.packets, q) {
      InsertAscends(b.packets, Packet(q, f));
      InsertContents(b.packets, Packet(q, f));
      InsertedIsAhead(b.packets, Packet(q, f), if b.started then b.next.value else 0);
    }
  }

  lemma InsertedIsAhead(ps: seq<Packet>, p: Packet, from: nat)
    requires from <= p.sequence && forall i :: 0 <= i < |ps| ==> from <= ps[i].sequence
    ensures forall i :: 0 <= i < |Insert(ps, p)| ==> from <= Insert(ps, p)[i].sequence
  {
    InsertContents(ps, p);
    forall i | 0 <= i < |Insert(ps, p)| ensures from <= Insert(ps, p)[i].sequence {
      assert Insert(ps, p)[i] in Insert(ps, p);
    }
  }

  lemma FeedKeepsInv(d: Depths, b: Buffer, q: Sequence, f: Frame)
    requires Inv(d, b)
    ensures Inv(d, AfterFeed(d, b, q, f))
  {
    if !IsBehind(b, q) {
      AcceptKeepsInv(d, b, q, f);
    } else if !IsLate(d, b, q) {
      AcceptKeepsInv(d, Cleared(b).(resyncs := b.resyncs + 1), q, f);
    }
  }

  lemma AdvanceKeepsInv(d: Depths, b: Buffer)
    requires Inv(d, b) && b.started
    ensures Inv(d, Advance(d, b).0)
  {
    match Find(b.packets, b.next.value)
    case None =>
      forall i | 0 <= i < |b.packets| ensures b.next.value < b.packets[i].sequence {
        assert !Has(b.packets, b.next.value);
      }
    case Some(i) =>
      assert i == 0;
  }

  lemma NextFrameKeepsInv(d: Depths, b: Buffer)
    requires Inv(d, b)
    ensures Inv(d, NextFrame(d, b).0)
  {
    if !IsWaiting(d, b) {
      AdvanceKeepsInv(d, Begin(b));
    }
  }

  lemma {:induction false} FillKeepsInv(d: Depths, b: Buffer, count: nat)
    requires Inv(d, b.(samples := []))
    ensures Inv(d, Fill(d, b, count).0.(samples := []))
    ensures |b.samples| < SAMPLES_PER_FRAME + count ==>
              |Fill(d, b, count).0.samples| < SAMPLES_PER_FRAME + count
    decreases count - |b.samples|
  {
    if |b.samples| < count {
      NextFrameIgnoresSamples(d, b, []);
      NextFrameKeepsInv(d, b.(samples := []));
      FillKeepsInv(d, PullFrame(d, b).0, count);
    }
  }

  /** A read leaves fewer than one frame of samples behind. */
  lemma ReadKeepsInv(d: Depths, b: Buffer, count: nat)
    requires Inv(d, b)
    ensures Inv(d, Read(d, b, count).0)
  {
    FillReaches(d, b, count);
    FillKeepsInv(d, b, count);
  }

  /** Playback decisions never look at the samples already decoded. */
  lemma NextFrameIgnoresSamples(d: Depths, b: Buffer, s: seq<int>)
    requires d.target >= 1 && (b.started ==> b.next.Some?)
    ensures NextFrame(d, b.(samples := s)).0 == NextFrame(d, b).0.(samples := s)
    ensures NextFrame(d, b.(samples := s)).1 == NextFrame(d, b).1
  {
  }

  lemma FillUnfolds(d: Depths, b: Buffer, count: nat)
    requires d.target >= 1 && (b.started ==> b.next.Some?) && |b.samples| < count
    ensures var (after, p) := NextFrame(d, b);
            && after.samples == b.samples && (after.started ==> after.next.Some?)
            && Fill(d, b, count).0 == Fill(d, after.(samples := b.samples + PullSamples(p)), count).0
  {
    NextFrameIgnoresSamples(d, b, b.samples);
  }

  // ---- The object ----------------------------------------------------------------------

  function Max(a: int, b: int): int {
    if a < b then b else a
  }

  /** The buffer itself; `State` is its value, which every method moves by the function above. */
  class JitterBuffer {
    const depths: Depths
    var packets: seq<Packet>
    var samples: seq<int>
    var nextSequence: Option<Sequence>
    var started: bool
    var missingFrames: nat
    var received: nat
    var lost: nat
    var late: nat
    var resyncs: nat

    function State(): Buffer
      reads this
    {
      Buffer(packets, samples, nextSequence, started, missingFrames, received, lost, late, resyncs)
    }

    ghost predicate Valid()
      reads this
    {
      Inv(depths, State())
    }

    constructor (targetMs: int := 100, maxFrames: int := 50)
      ensures Valid() && State() == EMPTY
      ensures depths.target == Max(1, targetMs / 20)
      ensures depths.max == Max(maxFrames, depths.target + 2)
      ensures depths.starvation == Max(10, depths.target * 2)
    {
      var target := Max(1, targetMs / 20);
      depths := Depths(target, Max(maxFrames, target + 2), Max(10, target * 2));
      packets, samples, nextSequence, started := [], [], None, false;
      missingFrames, received, lost, late, resyncs := 0, 0, 0, 0, 0;
    }

    method Feed(sequence: Sequence, payload: Frame)
      requires Valid()
      modifies this
      ensures Valid()
      ensures State() == AfterFeed(depths, old(State()), sequence, payload)
    {
      if nextSequence.Some? && sequence < nextSequence.value {
        if nextSequence.value - sequence > depths.max {
          packets, samples := [], [];
          nextSequence := None;
          started := false;
          missingFrames := 0;
          resyncs := resyncs + 1;
        } else {
          late := late + 1;
          return;
        }
      }
      Store(sequence, payload);
    }

    method Store(sequence: Sequence, payload: Frame)
      requires Valid() && !IsBehind(State(), sequence)
      modifies this
      ensures Valid() && State() == Accept(depths, old(State()), sequence, payload)
    {
      AcceptKeepsInv(depths, State(), sequence, payload);
      var items, isNew := WithPacket(packets, sequence, payload);
      if isNew {
        received := received + 1;
      }
      packets := EvictOldest(items, depths.max);
    }

    /** The items with one more of a number that is not there, sorted again. */
    static method WithPacket(items: seq<Packet>, sequence: Sequence, payload: Frame)
      returns (stored: seq<Packet>, isNew: bool)
      requires Ascending(items)
      ensures isNew == !Has(items, sequence) && stored == Stored(items, sequence, payload)
    {
      stored, isNew := items, Find(items, sequence).None?;
      if isNew {
        SortedAfterAppend(items, Packet(sequence, payload));
        stored := Sorted(items + [Packet(sequence, payload)]);
      }
    }

    static method EvictOldest(items: seq<Packet>, max: nat) returns (kept: seq<Packet>)
      ensures kept == KeepLast(items, max)
    {
      kept := items;
      ghost var evicted := 0;
      while |kept| > max
        invariant evicted <= |items| && kept == items[evicted..]
        invariant |kept| >= max || evicted == 0
      {
        kept := kept[1..];
        evicted := evicted + 1;
      }
    }

    method NextFrameLocked() returns (frame: Frame)
      requires depths.Valid() && (started ==> nextSequence.Some?)
      modifies this
      ensures State() == NextFrame(depths, old(State())).0
      ensures frame == PullSamples(NextFrame(depths, old(State())).1)
      ensures !old(started) && |old(packets)| < depths.target ==> State() == old(State()) && frame == SilentFrame()
      ensures !old(started) && |old(packets)| >= depths.target ==> started && frame == old(packets)[0].payload
      ensures old(Valid()) ==> Valid()
    {
      if Valid() {
        NextFrameKeepsInv(depths, State());
      }
      frame := SilentFrame();
      if !started {
        if |packets| < depths.target {
          return;
        }
        nextSequence := Some(packets[0].sequence);
        started := true;
      }
      var found := Find(packets, nextSequence.value);
      var payload := None;
      if found.Some? {
        payload := Some(packets[found.value].payload);
        packets := Without(packets, found.value);
      }
      nextSequence := Some((nextSequence.value + 1) % SEQUENCE_SPACE);
      if payload.None? {
        CountMissing();
        return;
      }
      missingFrames := 0;
      frame := payload.value;
    }

    method CountMissing()
      modifies this
      ensures State() == Missed(depths, old(State()))
    {
      lost := lost + 1;
      missingFrames := missingFrames + 1;
      if missingFrames >= depths.starvation {
        packets := [];
        nextSequence := None;
        started := false;
        missingFrames := 0;
        resyncs := resyncs + 1;
      }
    }

    method ReadSamples(count: nat) returns (result: seq<int>)
      requires Valid()
      modifies this
      ensures Valid()
      ensures (State(), result) == Read(depths, old(State()), count)
    {
      ghost var before := State();
      assert depths.Valid() && (started ==> nextSequence.Some?);
      while |samples| < count
        invariant started ==> nextSequence.Some?
        invariant Fill(depths, State(), count).0 == Fill(depths, before, count).0
        decreases count - |samples|
      {
        FillUnfolds(depths, State(), count);
        var frame := NextFrameLocked();
        samples := samples + frame;
      }
      result := samples[..count];
      samples := samples[count..];
      ReadKeepsInv(depths, before, count);
    }

    method Reset()
      requires Valid()
      modifies this
      ensures Valid()
      ensures State() == Cleared(old(State()))
    {
      packets, samples := [], [];
      nextSequence := None;
      started := false;
      missingFrames := 0;
    }
  }
}
