/**
  What the jitter buffer keeps over whole runs: conservation of packets, frame numbering,
  recovery from starvation, independence of arrival order, and reads that compose.
 */
module JitterRuns {
  import opened Common
  import opened JitterBuffers

  datatype Op = FeedOp(sequence: Sequence, payload: Frame) | FrameOp | ReadOp(count: nat) | ResetOp

  /** A buffer with the history of the run that led to it. */
  datatype Outcome = Outcome(buffer: Buffer, accepted: seq<Packet>, pulled: seq<Pull>, discarded: seq<Packet>)

  function Start(b: Buffer): Outcome {
    Outcome(b, [], [], [])
  }

  predicate IsAccepted(d: Depths, b: Buffer, q: Sequence) {
    !IsLate(d, b, q) && (IsBehind(b, q) || !Has(b.packets, q))
  }

  function FrameDiscards(d: Depths, b: Buffer): seq<Packet>
    requires d.target >= 1 && (b.started ==> b.next.Some?)
  {
    if NextFrame(d, b).0.resyncs > b.resyncs then b.packets else []
  }

  /** What a read throws away, frame by frame. */
  function FillDiscards(d: Depths, b: Buffer, count: nat): seq<Packet>
    requires d.target >= 1 && (b.started ==> b.next.Some?)
    decreases count - |b.samples|
  {
    if |b.samples| >= count then []
    else FrameDiscards(d, b) + FillDiscards(d, PullFrame(d, b).0, count)
  }

  /** The packets a call throws away, by `clear()` or `popitem(last=False)`. */
  function Discards(d: Depths, b: Buffer, op: Op): seq<Packet>
    requires d.target >= 1 && (b.started ==> b.next.Some?)
  {
    match op
    case FeedOp(q, f) =>
      if IsLate(d, b, q) then []
      else if IsBehind(b, q) then b.packets
      else Evicted(Stored(b.packets, q, f), d.max)
    case FrameOp => FrameDiscards(d, b)
    case ReadOp(count) => FillDiscards(d, b, count)
    case ResetOp => b.packets
  }

  function Accepts(d: Depths, b: Buffer, op: Op): seq<Packet> {
    if op.FeedOp? && IsAccepted(d, b, op.sequence) then [Packet(op.sequence, op.payload)] else []
  }

  function Pulls(d: Depths, b: Buffer, op: Op): seq<Pull>
    requires d.target >= 1 && (b.started ==> b.next.Some?)
  {
    match op
    case FrameOp => [NextFrame(d, b).1]
    case ReadOp(count) => Fill(d, b, count).1
    case _ => []
  }

  function Apply(d: Depths, b: Buffer, op: Op): Buffer
    requires d.target >= 1 && (b.started ==> b.next.Some?)
  {
    match op
    case FeedOp(q, f) => AfterFeed(d, b, q, f)
    case FrameOp => NextFrame(d, b).0
    case ReadOp(count) => Read(d, b, count).0
    case ResetOp => Cleared(b)
  }

  lemma ApplyKeepsInv(d: Depths, b: Buffer, op: Op)
    requires Inv(d, b)
    ensures Inv(d, Apply(d, b, op))
  {
    match op
    case FeedOp(q, f) => FeedKeepsInv(d, b, q, f);
    case FrameOp => NextFrameKeepsInv(d, b);
    case ReadOp(count) => ReadKeepsInv(d, b, count);
    case ResetOp =>
  }

  function Step(d: Depths, o: Outcome, op: Op): (r: Outcome)
    requires Inv(d, o.buffer)
    ensures Inv(d, r.buffer)
  {
    ApplyKeepsInv(d, o.buffer, op);
    Outcome(Apply(d, o.buffer, op),
            o.accepted + Accepts(d, o.buffer, op),
            o.pulled + Pulls(d, o.buffer, op),
            o.discarded + Discards(d, o.buffer, op))
  }

  function Run(d: Depths, b: Buffer, ops: seq<Op>): (o: Outcome)
    requires Inv(d, b)
    ensures Inv(d, o.buffer)
  {
    if ops == [] then Start(b) else Step(d, Run(d, b, ops[..|ops| - 1]), ops[|ops| - 1])
  }

  // ---- Conservation --------------------------------------------------------------------

  function PlayedPackets(ps: seq<Pull>): seq<Packet> {
    if ps == [] then []
    else (if ps[0].Played? then [ps[0].packet] else []) + PlayedPackets(ps[1..])
  }

  lemma {:induction false} PlayedAppends(ps: seq<Pull>, more: seq<Pull>)
    ensures PlayedPackets(ps + more) == PlayedPackets(ps) + PlayedPackets(more)
  {
    if ps == [] {
      assert ps + more == more;
    } else {
      assert (ps + more)[1..] == ps[1..] + more && (ps + more)[0] == ps[0];
      PlayedAppends(ps[1..], more);
      SumAssociates(if ps[0].Played? then [ps[0].packet] else [], PlayedPackets(ps[1..]), PlayedPackets(more));
    }
  }

  function Count(ps: seq<Packet>, p: Packet): nat {
    multiset(ps)[p]
  }

  ghost predicate Balanced(b: Buffer, o: Outcome) {
    && (forall p: Packet ::
          Count(b.packets, p) + Count(o.accepted, p)
          == Count(o.buffer.packets, p) + Count(PlayedPackets(o.pulled), p) + Count(o.discarded, p))
    && o.buffer.received == b.received + |o.accepted|
  }

  ghost predicate OpBalanced(b: Buffer, after: Buffer, accepts: seq<Packet>, played: seq<Packet>,
                             discards: seq<Packet>) {
    && (forall p: Packet ::
          Count(b.packets, p) + Count(accepts, p)
          == Count(after.packets, p) + Count(played, p) + Count(discards, p))
    && after.received == b.received + |accepts|
  }

  lemma StoreBalances(ps: seq<Packet>, q: Sequence, f: Frame, n: nat, p: Packet)
    requires Ascending(ps)
    ensures Count(KeepLast(Stored(ps, q, f), n), p) + Count(Evicted(Stored(ps, q, f), n), p)
            == Count(ps, p) + (if Has(ps, q) || p != Packet(q, f) then 0 else 1)
  {
    var all := Stored(ps, q, f);
    if |all| > n {
      assert all == all[..|all| - n] + all[|all| - n..];
    }
    if !Has(ps, q) {
      InsertAscending(ps, Packet(q, f));
    }
  }

  lemma FeedBalances(d: Depths, b: Buffer, q: Sequence, f: Frame)
    requires Inv(d, b)
    ensures OpBalanced(b, AfterFeed(d, b, q, f), Accepts(d, b, FeedOp(q, f)), [], Discards(d, b, FeedOp(q, f)))
  {
    if !IsLate(d, b, q) {
      forall p: Packet
        ensures Count(b.packets, p) + Count(Accepts(d, b, FeedOp(q, f)), p)
                == Count(AfterFeed(d, b, q, f).packets, p) + Count(Discards(d, b, FeedOp(q, f)), p)
      {
        StoreBalances(if IsBehind(b, q) then [] else b.packets, q, f, d.max, p);
      }
    }
  }

  lemma AdvanceBalances(d: Depths, b: Buffer)
    requires Inv(d, b) && b.started
    ensures var (after, p) := Advance(d, b);
            OpBalanced(b, after, [], if p.Played? then [p.packet] else [],
                       if after.resyncs > b.resyncs then b.packets else [])
  {
    match Find(b.packets, b.next.value)
    case Some(i) => WithoutIsRemoval(b.packets, i);
    case None =>
  }

  lemma FrameBalances(d: Depths, b: Buffer)
    requires Inv(d, b)
    ensures var (after, p) := NextFrame(d, b);
            OpBalanced(b, after, [], PlayedPackets([p]), FrameDiscards(d, b))
  {
    if !IsWaiting(d, b) {
      AdvanceBalances(d, Begin(b));
    }
  }

  /** A buffer in the middle of a read, when it may hold any number of samples. */
  ghost predicate InvInRead(d: Depths, b: Buffer) {
    Inv(d, b.(samples := []))
  }

  lemma PullKeepsInv(d: Depths, b: Buffer)
    requires InvInRead(d, b)
    ensures InvInRead(d, PullFrame(d, b).0)
  {
    NextFrameIgnoresSamples(d, b, []);
    NextFrameKeepsInv(d, b.(samples := []));
  }

  lemma PullBalances(d: Depths, b: Buffer)
    requires InvInRead(d, b)
    ensures var (after, p) := PullFrame(d, b);
            OpBalanced(b, after, [], PlayedPackets([p]), FrameDiscards(d, b))
  {
    NextFrameIgnoresSamples(d, b, []);
    FrameBalances(d, b.(samples := []));
  }

  lemma BalancesChain(b: Buffer, once: Buffer, after: Buffer, p: Pull, ps: seq<Pull>, c: seq<Packet>, e: seq<Packet>)
    requires OpBalanced(b, once, [], PlayedPackets([p]), c) && OpBalanced(once, after, [], PlayedPackets(ps), e)
    ensures OpBalanced(b, after, [], PlayedPackets([p] + ps), c + e)
  {
    PlayedAppends([p], ps);
  }

  lemma {:induction false} FillBalances(d: Depths, b: Buffer, count: nat)
    requires InvInRead(d, b)
    ensures OpBalanced(b, Fill(d, b, count).0, [], PlayedPackets(Fill(d, b, count).1), FillDiscards(d, b, count))
    decreases count - |b.samples|
  {
    if |b.samples| < count {
      var (once, p) := PullFrame(d, b);
      PullKeepsInv(d, b);
      PullBalances(d, b);
      FillBalances(d, once, count);
      var (after, ps) := Fill(d, once, count);
      BalancesChain(b, once, after, p, ps, FrameDiscards(d, b), FillDiscards(d, once, count));
    }
  }

  lemma ReadBalances(d: Depths, b: Buffer, count: nat)
    requires Inv(d, b)
    ensures OpBalanced(b, Read(d, b, count).0, [], PlayedPackets(Fill(d, b, count).1), FillDiscards(d, b, count))
  {
    FillBalances(d, b, count);
  }

  lemma OpBalances(d: Depths, b: Buffer, op: Op)
    requires Inv(d, b)
    ensures OpBalanced(b, Apply(d, b, op), Accepts(d, b, op), PlayedPackets(Pulls(d, b, op)),
                       Discards(d, b, op))
  {
    match op
    case FeedOp(q, f) =>
      FeedBalances(d, b, q, f);
      assert PlayedPackets(Pulls(d, b, op)) == [];
    case FrameOp => FrameBalances(d, b);
    case ReadOp(count) => ReadBalances(d, b, count);
    case ResetOp =>
  }

  lemma Chain(b: Buffer, o: Outcome, after: Buffer, accepts: seq<Packet>, pulls: seq<Pull>, discards: seq<Packet>)
    requires Balanced(b, o)
    requires OpBalanced(o.buffer, after, accepts, PlayedPackets(pulls), discards)
    ensures Balanced(b, Outcome(after, o.accepted + accepts, o.pulled + pulls, o.discarded + discards))
  {
    PlayedAppends(o.pulled, pulls);
  }

  lemma StepBalances(d: Depths, b: Buffer, o: Outcome, op: Op)
    requires Inv(d, o.buffer) && Balanced(b, o)
    ensures Balanced(b, Step(d, o, op))
  {
    OpBalances(d, o.buffer, op);
    Chain(b, o, Apply(d, o.buffer, op), Accepts(d, o.buffer, op), Pulls(d, o.buffer, op),
          Discards(d, o.buffer, op));
  }

  /**
    Every packet on hand or accepted is on hand, played or discarded at the end, exactly once, and
    less than one frame of samples is left over.
   */
  lemma {:induction false} RunBalances(d: Depths, b: Buffer, ops: seq<Op>)
    requires Inv(d, b)
    ensures Balanced(b, Run(d, b, ops))
    ensures |Run(d, b, ops).buffer.samples| < SAMPLES_PER_FRAME
  {
    if ops != [] {
      RunBalances(d, b, ops[..|ops| - 1]);
      StepBalances(d, b, Run(d, b, ops[..|ops| - 1]), ops[|ops| - 1]);
    }
  }

  // ---- Frame numbering -----------------------------------------------------------------

  function Ahead(q: Sequence, k: nat): Sequence {
    (q + k) % SEQUENCE_SPACE
  }

  predicate HasReset(ops: seq<Op>) {
    exists i :: 0 <= i < |ops| && ops[i].ResetOp?
  }

  lemma {:induction false} FillResyncsGrow(d: Depths, b: Buffer, count: nat)
    requires d.target >= 1 && (b.started ==> b.next.Some?)
    ensures Fill(d, b, count).0.resyncs >= b.resyncs
    decreases count - |b.samples|
  {
    if |b.samples| < count {
      FillResyncsGrow(d, PullFrame(d, b).0, count);
    }
  }

  lemma OpResyncsGrow(d: Depths, b: Buffer, op: Op)
    requires Inv(d, b)
    ensures Apply(d, b, op).resyncs >= b.resyncs
  {
    if op.ReadOp? {
      FillResyncsGrow(d, b, op.count);
    }
  }

  lemma {:induction false} ResyncsOnlyGrow(d: Depths, b: Buffer, ops: seq<Op>)
    requires Inv(d, b)
    ensures Run(d, b, ops).buffer.resyncs >= b.resyncs
  {
    if ops != [] {
      ResyncsOnlyGrow(d, b, ops[..|ops| - 1]);
      OpResyncsGrow(d, Run(d, b, ops[..|ops| - 1]).buffer, ops[|ops| - 1]);
    }
  }

  lemma AheadSuccessor(q: Sequence, k: nat)
    ensures Successor(Ahead(q, k)) == Ahead(q, k + 1)
    ensures Ahead(q, 0) == q
  {
  }

  /** From `q` on, frame k is silence or the packet numbered k past it, and `after` goes on with the next. */
  ghost predicate IsNumbered(q: Sequence, pulls: seq<Pull>, after: Buffer) {
    && after.started
    && after.next == Some(Ahead(q, |pulls|))
    && (forall k :: 0 <= k < |pulls| && pulls[k].Played? ==> pulls[k].packet.sequence == Ahead(q, k))
  }

  /** Frame k is silence or the packet numbered k past the number `b` expected. */
  ghost predicate Numbered(b: Buffer, o: Outcome)
    requires b.next.Some?
  {
    IsNumbered(b.next.value, o.pulled, o.buffer)
  }

  lemma AheadAdds(q: Sequence, k: nat, n: nat)
    ensures Ahead(Ahead(q, k), n) == Ahead(q, k + n)
  {
  }

  lemma NumberedChains(q: Sequence, ps: seq<Pull>, mid: Buffer, more: seq<Pull>, after: Buffer)
    requires IsNumbered(q, ps, mid) && IsNumbered(mid.next.value, more, after)
    ensures IsNumbered(q, ps + more, after)
  {
    AheadAdds(q, |ps|, |more|);
    var all := ps + more;
    forall k | 0 <= k < |all| && all[k].Played? ensures all[k].packet.sequence == Ahead(q, k) {
      if k >= |ps| {
        AheadAdds(q, |ps|, k - |ps|);
        assert all[k] == more[k - |ps|];
      }
    }
  }

  lemma FrameIsNumbered(d: Depths, b: Buffer)
    requires d.target >= 1 && b.started && b.next.Some?
    requires NextFrame(d, b).0.resyncs == b.resyncs
    ensures IsNumbered(b.next.value, [NextFrame(d, b).1], NextFrame(d, b).0)
  {
    AheadSuccessor(b.next.value, 0);
  }

  lemma {:induction false} FillIsNumbered(d: Depths, b: Buffer, count: nat)
    requires d.target >= 1 && b.started && b.next.Some?
    requires Fill(d, b, count).0.resyncs == b.resyncs
    ensures IsNumbered(b.next.value, Fill(d, b, count).1, Fill(d, b, count).0)
    decreases count - |b.samples|
  {
    if |b.samples| >= count {
      AheadSuccessor(b.next.value, 0);
    } else {
      var (once, p) := PullFrame(d, b);
      FillResyncsGrow(d, once, count);
      FrameResyncsGrow(d, b);
      FrameIsNumbered(d, b);
      FillIsNumbered(d, once, count);
      var (after, ps) := Fill(d, once, count);
      NumberedChains(b.next.value, [p], once, ps, after);
    }
  }

  lemma FrameResyncsGrow(d: Depths, b: Buffer)
    requires d.target >= 1 && (b.started ==> b.next.Some?)
    ensures NextFrame(d, b).0.resyncs >= b.resyncs
  {
  }

  lemma FeedIsNumbered(d: Depths, b: Buffer, q: Sequence, f: Frame)
    requires b.started && b.next.Some? && AfterFeed(d, b, q, f).resyncs == b.resyncs
    ensures IsNumbered(b.next.value, [], AfterFeed(d, b, q, f))
  {
    AheadSuccessor(b.next.value, 0);
  }

  lemma OpIsNumbered(d: Depths, b: Buffer, op: Op)
    requires Inv(d, b) && b.started && !op.ResetOp? && Apply(d, b, op).resyncs == b.resyncs
    ensures IsNumbered(b.next.value, Pulls(d, b, op), Apply(d, b, op))
  {
    match op
    case FeedOp(q, f) => FeedIsNumbered(d, b, q, f);
    case FrameOp => FrameIsNumbered(d, b);
    case ReadOp(count) => FillIsNumbered(d, b, count);
  }

  lemma NumberOne(d: Depths, b: Buffer, o: Outcome, op: Op)
    requires Inv(d, o.buffer) && b.next.Some? && Numbered(b, o) && !op.ResetOp?
    requires Step(d, o, op).buffer.resyncs == o.buffer.resyncs
    ensures Numbered(b, Step(d, o, op))
  {
    OpIsNumbered(d, o.buffer, op);
    NumberedChains(b.next.value, o.pulled, o.buffer, Pulls(d, o.buffer, op), Apply(d, o.buffer, op));
  }

  /**
    While a started buffer neither resynchronises nor is reset, the k-th frame pulled is
    silence or the packet numbered k past the expected number, whatever is fed in between.
   */
  lemma {:induction false} FramesAreNumbered(d: Depths, b: Buffer, ops: seq<Op>)
    requires Inv(d, b) && b.started && !HasReset(ops)
    requires Run(d, b, ops).buffer.resyncs == b.resyncs
    ensures Numbered(b, Run(d, b, ops))
  {
    if ops == [] {
      AheadSuccessor(b.next.value, 0);
    } else {
      var front := ops[..|ops| - 1];
      ResyncsOnlyGrow(d, b, front);
      OpResyncsGrow(d, Run(d, b, front).buffer, ops[|ops| - 1]);
      FramesAreNumbered(d, b, front);
      NumberOne(d, b, Run(d, b, front), ops[|ops| - 1]);
    }
  }

  // ---- Starvation ----------------------------------------------------------------------

  function Patience(d: Depths, b: Buffer): int {
    |b.packets| * d.starvation + d.starvation - b.missing
  }

  /** Either the buffer has stopped, empty, or each frame pulled used up patience. */
  ghost predicate StoppedOrSpent(d: Depths, b: Buffer, o: Outcome) {
    Spends(d, b, |o.pulled|, o.buffer)
  }

  /** `n` frames used up that much patience, or the buffer has stopped, empty. */
  ghost predicate Spends(d: Depths, b: Buffer, n: nat, after: Buffer) {
    if after.started then n + Patience(d, after) <= Patience(d, b)
    else after.packets == [] && IsWaiting(d, after)
  }

  lemma FrameSpends(d: Depths, b: Buffer)
    requires InvInRead(d, b) && b.started
    ensures Spends(d, b, 1, NextFrame(d, b).0)
  {
  }

  lemma {:induction false} EmptyStaysStopped(d: Depths, b: Buffer, count: nat)
    requires d.target >= 1 && !b.started && b.packets == []
    ensures var after := Fill(d, b, count).0; !after.started && after.packets == []
    decreases count - |b.samples|
  {
    if |b.samples| < count {
      EmptyStaysStopped(d, PullFrame(d, b).0, count);
    }
  }

  lemma {:induction false} FillSpends(d: Depths, b: Buffer, count: nat)
    requires InvInRead(d, b) && b.started
    ensures Spends(d, b, |Fill(d, b, count).1|, Fill(d, b, count).0)
    decreases count - |b.samples|
  {
    if |b.samples| < count {
      var once := PullFrame(d, b).0;
      PullKeepsInv(d, b);
      FrameSpends(d, b);
      if once.started {
        FillSpends(d, once, count);
      } else {
        EmptyStaysStopped(d, once, count);
      }
    }
  }

  lemma OpSpends(d: Depths, b: Buffer, op: Op)
    requires Inv(d, b) && b.started && !op.ResetOp? && Accepts(d, b, op) == []
    ensures Spends(d, b, |Pulls(d, b, op)|, Apply(d, b, op))
  {
    match op
    case FeedOp(q, f) =>
    case FrameOp => FrameSpends(d, b);
    case ReadOp(count) => FillSpends(d, b, count);
  }

  lemma SpendOne(d: Depths, b: Buffer, o: Outcome, op: Op)
    requires Inv(d, o.buffer) && o.buffer.started && !op.ResetOp?
    requires Step(d, o, op).accepted == o.accepted
    requires StoppedOrSpent(d, b, o)
    ensures StoppedOrSpent(d, b, Step(d, o, op))
  {
    OpSpends(d, o.buffer, op);
  }

  /** After the first k operations the buffer has stopped, or it never has and each frame counted. */
  ghost predicate StopsAt(d: Depths, b: Buffer, ops: seq<Op>, k: nat)
    requires Inv(d, b)
  {
    k <= |ops| && (var o := Run(d, b, ops[..k]); StoppedOrSpent(d, b, o) && (o.buffer.started ==> k == |ops|))
  }

  lemma StopsLater(d: Depths, b: Buffer, ops: seq<Op>, front: seq<Op>, op: Op, k: nat) returns (n: nat)
    requires Inv(d, b) && ops == front + [op] && StopsAt(d, b, front, k) && !op.ResetOp?
    requires Step(d, Run(d, b, front), op).accepted == Run(d, b, front).accepted
    ensures StopsAt(d, b, ops, n)
  {
    assert front[..k] == ops[..k] && ops[..|ops|] == ops && ops[..|front|] == front;
    n := k;
    if Run(d, b, ops[..k]).buffer.started {
      n := |ops|;
      SpendOne(d, b, Run(d, b, front), op);
    }
  }

  lemma NothingAccepted(d: Depths, b: Buffer, ops: seq<Op>, front: seq<Op>, op: Op)
    requires Inv(d, b) && ops == front + [op] && Run(d, b, ops).accepted == []
    ensures Run(d, b, front).accepted == [] && Step(d, Run(d, b, front), op).accepted == []
  {
    assert ops[..|ops| - 1] == front;
  }

  lemma NoResetInFront(ops: seq<Op>, front: seq<Op>, op: Op)
    requires ops == front + [op] && !HasReset(ops)
    ensures !HasReset(front) && !op.ResetOp?
  {
    assert ops[|front|] == op && forall i :: 0 <= i < |front| ==> ops[i] == front[i];
  }

  lemma StopsAtStart(d: Depths, b: Buffer)
    requires Inv(d, b) && b.started
    ensures StopsAt(d, b, [], 0)
  {
  }

  /** A started buffer to which nothing that comes is new. */
  ghost predicate IsIdle(d: Depths, b: Buffer, ops: seq<Op>) {
    Inv(d, b) && b.started && !HasReset(ops) && Run(d, b, ops).accepted == []
  }

  lemma FrontIsIdle(d: Depths, b: Buffer, ops: seq<Op>, front: seq<Op>, op: Op)
    requires ops == front + [op] && IsIdle(d, b, ops)
    ensures IsIdle(d, b, front)
  {
    NoResetInFront(ops, front, op);
    NothingAccepted(d, b, ops, front, op);
  }

  lemma IdleStopsLater(d: Depths, b: Buffer, ops: seq<Op>, front: seq<Op>, op: Op, j: nat) returns (k: nat)
    requires ops == front + [op] && IsIdle(d, b, ops) && StopsAt(d, b, front, j)
    ensures StopsAt(d, b, ops, k)
  {
    NoResetInFront(ops, front, op);
    NothingAccepted(d, b, ops, front, op);
    k := StopsLater(d, b, ops, front, op, j);
  }

  lemma {:induction false} StopsOrSpends(d: Depths, b: Buffer, ops: seq<Op>) returns (k: nat)
    requires IsIdle(d, b, ops)
    ensures StopsAt(d, b, ops, k)
  {
    if ops == [] {
      StopsAtStart(d, b);
      k := 0;
    } else {
      var front, op := ops[..|ops| - 1], ops[|ops| - 1];
      FrontIsIdle(d, b, ops, front, op);
      k := StopsOrSpends(d, b, front);
      k := IdleStopsLater(d, b, ops, front, op, k);
    }
  }

  lemma PatienceIsBounded(d: Depths, b: Buffer)
    requires Inv(d, b)
    ensures 1 <= Patience(d, b) <= (|b.packets| + 1) * d.starvation
  {
    assert |b.packets| * d.starvation >= 0;
  }

  lemma RunsOutOfPatience(d: Depths, b: Buffer, o: Outcome)
    requires Inv(d, b) && Inv(d, o.buffer) && StoppedOrSpent(d, b, o)
    requires |o.pulled| >= (|b.packets| + 1) * d.starvation
    ensures !o.buffer.started
  {
    PatienceIsBounded(d, b);
    PatienceIsBounded(d, o.buffer);
  }

  lemma StoppedAcceptsAll(d: Depths, b: Buffer)
    requires Inv(d, b) && !b.started && b.packets == []
    ensures forall q: Sequence :: IsAccepted(d, b, q)
  {
  }

  /**
    A started buffer that accepts nothing stops within `Patience` frames: late and duplicate
    packets never postpone it. At the stop nothing is late any more.
   */
  lemma StarvationIsBounded(d: Depths, b: Buffer, ops: seq<Op>) returns (k: nat)
    requires Inv(d, b) && b.started && !HasReset(ops)
    requires Run(d, b, ops).accepted == []
    requires |Run(d, b, ops).pulled| >= (|b.packets| + 1) * d.starvation
    ensures k <= |ops| && IsWaiting(d, Run(d, b, ops[..k]).buffer)
    ensures forall q: Sequence :: IsAccepted(d, Run(d, b, ops[..k]).buffer, q)
  {
    k := StopsOrSpends(d, b, ops);
    var o := Run(d, b, ops[..k]);
    if o.buffer.started {
      assert ops[..k] == ops;
      RunsOutOfPatience(d, b, o);
    }
    StoppedAcceptsAll(d, o.buffer);
  }

  // ---- Arrival order -------------------------------------------------------------------

  function FeedAll(d: Depths, b: Buffer, ps: seq<Packet>): Buffer {
    if ps == [] then b
    else
      var p := ps[|ps| - 1];
      AfterFeed(d, FeedAll(d, b, ps[..|ps| - 1]), p.sequence, p.payload)
  }

  ghost predicate Distinct(ps: seq<Packet>) {
    forall i, j :: 0 <= i < j < |ps| ==> ps[i].sequence != ps[j].sequence
  }

  /** `kept` is the ascending list of the `n` packets of `all` with the largest numbers. */
  ghost predicate IsLargest(n: nat, kept: seq<Packet>, all: seq<Packet>) {
    && Ascending(kept)
    && |kept| == (if |all| < n then |all| else n)
    && (forall p :: p in kept ==> p in all)
    && (|all| <= n ==> forall p :: p in all ==> p in kept)
    && (forall p, r :: p in kept && r in all && r !in kept ==> r.sequence < p.sequence)
  }

  lemma FeedWhileStopped(d: Depths, b: Buffer, p: Packet)
    requires Inv(d, b) && !b.started && !Has(b.packets, p.sequence)
    ensures AfterFeed(d, b, p.sequence, p.payload)
            == b.(packets := KeepLast(Insert(b.packets, p), d.max), received := b.received + 1)
    ensures Inv(d, AfterFeed(d, b, p.sequence, p.payload))
  {
    FeedKeepsInv(d, b, p.sequence, p.payload);
  }

  /** `after` is `b` with the largest of `ps` stored, and nothing else but a count changed. */
  ghost predicate HoldsLargest(d: Depths, b: Buffer, ps: seq<Packet>, after: Buffer) {
    && Inv(d, after)
    && IsLargest(d.max, after.packets, ps)
    && after == b.(packets := after.packets, received := b.received + |ps|)
  }

  lemma NotYetHeld(n: nat, kept: seq<Packet>, all: seq<Packet>, p: Packet)
    requires IsLargest(n, kept, all) && Distinct(all + [p])
    ensures !Has(kept, p.sequence) && p !in all
  {
    var more := all + [p];
    assert more[|all|] == p && forall i :: 0 <= i < |all| ==> more[i] == all[i];
    forall i | 0 <= i < |kept| ensures kept[i].sequence != p.sequence {
      assert kept[i] in kept;
      var k :| 0 <= k < |all| && all[k] == kept[i];
    }
  }

  lemma StoppedStep(d: Depths, b: Buffer, front: seq<Packet>, p: Packet, c: Buffer)
    requires !b.started && Distinct(front + [p]) && HoldsLargest(d, b, front, c)
    ensures HoldsLargest(d, b, front + [p], AfterFeed(d, c, p.sequence, p.payload))
  {
    NotYetHeld(d.max, c.packets, front, p);
    FeedWhileStopped(d, c, p);
    InsertAscending(c.packets, p);
    LargestExtends(d.max, c.packets, front, p, front + [p]);
  }

  lemma FrontIsDistinct(front: seq<Packet>, p: Packet)
    requires Distinct(front + [p])
    ensures Distinct(front)
  {
    assert forall i :: 0 <= i < |front| ==> (front + [p])[i] == front[i];
  }

  lemma {:induction false} FeedAllKeepsLargest(d: Depths, b: Buffer, ps: seq<Packet>)
    requires Inv(d, b) && !b.started && b.packets == [] && Distinct(ps)
    ensures HoldsLargest(d, b, ps, FeedAll(d, b, ps))
  {
    if ps != [] {
      var front, p := ps[..|ps| - 1], ps[|ps| - 1];
      assert ps == front + [p];
      FrontIsDistinct(front, p);
      FeedAllKeepsLargest(d, b, front);
      StoppedStep(d, b, front, p, FeedAll(d, b, front));
    }
  }

  lemma LargestExtends(n: nat, kept: seq<Packet>, all: seq<Packet>, p: Packet, more: seq<Packet>)
    requires IsLargest(n, kept, all) && p !in all && n > 0
    requires Ascending(Insert(kept, p)) && multiset(Insert(kept, p)) == multiset(kept) + multiset{p}
    requires |Insert(kept, p)| == |kept| + 1 && more == all + [p]
    ensures IsLargest(n, KeepLast(Insert(kept, p), n), more)
  {
    var wide := Insert(kept, p);
    var last := KeepLast(wide, n);
    InsertElements(kept, p);
    assert |all| + 1 <= n ==> last == wide;
    forall x, r | x in last && r in more && r !in last ensures r.sequence < x.sequence {
      if r in wide {
        LastIsLargest(wide, n, x, r);
      } else if x == p {
        assert wide[0] !in last by { LastIsTail(wide, n); }
        LastIsLargest(wide, n, x, wide[0]);
        assert wide[0] in kept;
      }
    }
  }

  lemma InsertElements(kept: seq<Packet>, p: Packet)
    requires multiset(Insert(kept, p)) == multiset(kept) + multiset{p}
    ensures forall r :: r in Insert(kept, p) <==> r in kept || r == p
  {
    forall r ensures r in Insert(kept, p) <==> r in kept || r == p {
      assert r in Insert(kept, p) <==> r in multiset(Insert(kept, p));
    }
  }

  lemma LastIsTail(ps: seq<Packet>, n: nat)
    requires Ascending(ps) && |ps| > n > 0
    ensures ps[0] !in KeepLast(ps, n)
  {
    forall i | 0 <= i < n ensures KeepLast(ps, n)[i] != ps[0] {
      assert KeepLast(ps, n)[i] == ps[|ps| - n + i];
    }
  }

  lemma LastIsLargest(ps: seq<Packet>, n: nat, x: Packet, r: Packet)
    requires Ascending(ps) && x in KeepLast(ps, n) && r in ps && r !in KeepLast(ps, n)
    ensures r.sequence < x.sequence
  {
    var last := KeepLast(ps, n);
    var i :| 0 <= i < |last| && last[i] == x;
    var j :| 0 <= j < |ps| && ps[j] == r;
    assert forall k :: |ps| - n <= k < |ps| ==> ps[k] == last[k - (|ps| - n)];
  }

  lemma {:induction false} AscendingIsUnique(a: seq<Packet>, b: seq<Packet>)
    requires Ascending(a) && Ascending(b) && |a| == |b| && (forall p :: p in a <==> p in b)
    ensures a == b
  {
    if a != [] {
      assert a[0] in b && b[0] in a;
      assert a[0] == b[0];
      forall p ensures p in a[1..] <==> p in b[1..] {
        RestOfAscending(a, p);
        RestOfAscending(b, p);
      }
      AscendingIsUnique(a[1..], b[1..]);
      assert a == [a[0]] + a[1..] && b == [b[0]] + b[1..];
    }
  }

  lemma RestOfAscending(a: seq<Packet>, p: Packet)
    requires Ascending(a) && a != []
    ensures p in a[1..] <==> p in a && p != a[0]
  {
    assert a == [a[0]] + a[1..];
  }

  lemma LargestIsUnique(n: nat, a: seq<Packet>, b: seq<Packet>, all: seq<Packet>, same: seq<Packet>)
    requires IsLargest(n, a, all) && IsLargest(n, b, same)
    requires |all| == |same| && (forall p :: p in all <==> p in same)
    ensures a == b
  {
    LargestIsIncluded(n, a, b, all, same);
    LargestIsIncluded(n, b, a, same, all);
    AscendingIsUnique(a, b);
  }

  lemma LargestIsIncluded(n: nat, a: seq<Packet>, b: seq<Packet>, all: seq<Packet>, same: seq<Packet>)
    requires IsLargest(n, a, all) && IsLargest(n, b, same)
    requires |all| == |same| && (forall p :: p in all <==> p in same)
    ensures forall p :: p in a ==> p in b
  {
    if x :| x in a && x !in b {
      // Every member of b is above x, so all of b is in a, which then has one member too many.
      forall p | p in b ensures p in a && p != x {
        assert x.sequence < p.sequence;
      }
      AscendingHasNoRepeats(a);
      AscendingHasNoRepeats(b);
      assert Elements(b) <= Elements(a) - {x};
      SubsetIsSmaller(Elements(b), Elements(a) - {x});
      assert false;
    }
  }

  ghost function Elements(ps: seq<Packet>): set<Packet> {
    set p | p in ps
  }

  lemma SubsetIsSmaller(a: set<Packet>, b: set<Packet>)
    requires a <= b
    ensures |a| <= |b|
  {
    assert b == a + (b - a);
  }

  lemma {:induction false} AscendingHasNoRepeats(ps: seq<Packet>)
    requires Ascending(ps)
    ensures |Elements(ps)| == |ps|
  {
    if ps != [] {
      AscendingHasNoRepeats(ps[1..]);
      assert ps == [ps[0]] + ps[1..];
      assert Elements(ps) == {ps[0]} + Elements(ps[1..]);
      RestOfAscending(ps, ps[0]);
    }
  }

  /** Feeding the same packets in any order leaves a stopped, empty buffer in the same state. */
  lemma ArrivalOrderDoesNotMatter(d: Depths, b: Buffer, ps: seq<Packet>, other: seq<Packet>)
    requires Inv(d, b) && !b.started && b.packets == []
    requires Distinct(ps) && multiset(ps) == multiset(other)
    ensures FeedAll(d, b, ps) == FeedAll(d, b, other)
    ensures IsLargest(d.max, FeedAll(d, b, ps).packets, ps)
  {
    forall p ensures p in ps <==> p in other {
      assert p in ps <==> p in multiset(ps);
      assert p in other <==> p in multiset(other);
    }
    assert |ps| == |multiset(ps)| == |other|;
    PermutationIsDistinct(ps, other);
    FeedAllKeepsLargest(d, b, ps);
    FeedAllKeepsLargest(d, b, other);
    LargestIsUnique(d.max, FeedAll(d, b, ps).packets, FeedAll(d, b, other).packets, ps, other);
  }

  lemma PermutationIsDistinct(ps: seq<Packet>, other: seq<Packet>)
    requires Distinct(ps) && multiset(ps) == multiset(other)
    ensures Distinct(other)
  {
    forall i, j | 0 <= i < j < |other| ensures other[i].sequence != other[j].sequence {
      assert other[i] in multiset(other) && other[j] in multiset(other);
      assert other[i] in ps && other[j] in ps;
      if other[i] == other[j] {
        assert other == other[..i] + [other[i]] + other[i + 1..j] + [other[j]] + other[j + 1..];
        assert multiset(other)[other[i]] >= 2;
        OccursOnce(ps, other[i]);
      }
    }
  }

  lemma OccursOnce(ps: seq<Packet>, p: Packet)
    requires Distinct(ps) && p in ps
    ensures multiset(ps)[p] == 1
  {
    var k :| 0 <= k < |ps| && ps[k] == p;
    assert ps == ps[..k] + [p] + ps[k + 1..];
    assert p !in ps[..k] && p !in ps[k + 1..];
  }

  // ---- Reads ---------------------------------------------------------------------------

  lemma {:induction false} FillContinues(d: Depths, b: Buffer, a: nat, c: nat)
    requires d.target >= 1 && (b.started ==> b.next.Some?) && a <= c
    ensures var once := Fill(d, b, a).0;
            (once.started ==> once.next.Some?) && Fill(d, once, c).0 == Fill(d, b, c).0
    decreases a - |b.samples|
  {
    if |b.samples| < a {
      FillContinues(d, PullFrame(d, b).0, a, c);
    }
  }

  lemma PullAfterDrop(d: Depths, b: Buffer, k: nat)
    requires d.target >= 1 && (b.started ==> b.next.Some?) && k <= |b.samples|
    ensures var less, (once, p) := b.(samples := b.samples[k..]), PullFrame(d, b);
            && k <= |once.samples|
            && PullFrame(d, less) == (once.(samples := once.samples[k..]), p)
  {
    NextFrameIgnoresSamples(d, b, b.samples[k..]);
    NextFrameIgnoresSamples(d, b, b.samples);
    var p := NextFrame(d, b).1;
    assert b.samples[k..] + PullSamples(p) == (b.samples + PullSamples(p))[k..];
  }

  /** Removing samples from the front commutes with filling. */
  lemma {:induction false} FillAfterDrop(d: Depths, b: Buffer, k: nat, count: nat)
    requires d.target >= 1 && (b.started ==> b.next.Some?) && k <= |b.samples|
    ensures var less, full := b.(samples := b.samples[k..]), Fill(d, b, count + k);
            && |full.0.samples| >= k
            && Fill(d, less, count) == (full.0.(samples := full.0.samples[k..]), full.1)
    decreases count + k - |b.samples|
  {
    if |b.samples| < count + k {
      PullAfterDrop(d, b, k);
      FillAfterDrop(d, PullFrame(d, b).0, k, count);
    }
  }

  lemma SliceOfRest(s: seq<int>, a: nat, c: nat)
    requires a + c <= |s|
    ensures s[a..][c..] == s[a + c..]
    ensures s[..a] + s[a..][..c] == s[..a + c]
  {
  }

  lemma PrefixOfMore(s: seq<int>, t: seq<int>, a: nat)
    requires s <= t && a <= |s|
    ensures s[..a] == t[..a]
  {
  }

  lemma FillGoesOn(d: Depths, b: Buffer, a: nat, n: nat, once: Buffer)
    requires d.target >= 1 && (b.started ==> b.next.Some?) && once == Fill(d, b, a).0 && a <= n
    ensures (once.started ==> once.next.Some?)
    ensures Fill(d, once, n).0 == Fill(d, b, n).0
    ensures once.samples <= Fill(d, b, n).0.samples
  {
    FillContinues(d, b, a, n);
    FillExtends(d, once, n);
  }

  lemma FullAfterDrop(d: Depths, once: Buffer, a: nat, c: nat, full: Buffer)
    requires d.target >= 1 && (once.started ==> once.next.Some?) && a <= |once.samples|
    requires full == Fill(d, once, c + a).0
    ensures |full.samples| >= a
    ensures Fill(d, once.(samples := once.samples[a..]), c).0 == full.(samples := full.samples[a..])
  {
    FillAfterDrop(d, once, a, c);
  }

  /** Filling to a + c, by way of filling to a and dropping a samples. */
  lemma FillInTwo(d: Depths, b: Buffer, a: nat, c: nat, once: Buffer, full: Buffer)
    requires d.target >= 1 && (b.started ==> b.next.Some?)
    requires once == Fill(d, b, a).0 && full == Fill(d, b, c + a).0
    ensures (once.started ==> once.next.Some?) && |once.samples| >= a && |full.samples| >= c + a
    ensures Fill(d, once.(samples := once.samples[a..]), c).0 == full.(samples := full.samples[a..])
  {
    FillReaches(d, b, a);
    FillReaches(d, b, c + a);
    FillGoesOn(d, b, a, c + a, once);
    FullAfterDrop(d, once, a, c, full);
  }

  lemma FillStartsAlike(d: Depths, b: Buffer, a: nat, c: nat, once: Buffer, full: Buffer)
    requires d.target >= 1 && (b.started ==> b.next.Some?)
    requires once == Fill(d, b, a).0 && full == Fill(d, b, c + a).0
    ensures |once.samples| >= a && |full.samples| >= a && once.samples[..a] == full.samples[..a]
  {
    FillReaches(d, b, a);
    FillGoesOn(d, b, a, c + a, once);
    PrefixOfMore(once.samples, full.samples, a);
  }

  /** Reading a samples and then c is reading a + c, frame by frame and state by state. */
  lemma ReadsCompose(d: Depths, b: Buffer, a: nat, c: nat)
    requires d.target >= 1 && (b.started ==> b.next.Some?)
    ensures var (b1, s1) := Read(d, b, a);
            && (b1.started ==> b1.next.Some?)
            && var (b2, s2) := Read(d, b1, c);
               Read(d, b, a + c) == (b2, s1 + s2)
  {
    assert c + a == a + c;
    var once, full := Fill(d, b, a).0, Fill(d, b, c + a).0;
    FillInTwo(d, b, a, c, once, full);
    FillStartsAlike(d, b, a, c, once, full);
    SliceOfRest(full.samples, a, c);
  }

  lemma {:induction false} FillExtends(d: Depths, b: Buffer, count: nat)
    requires d.target >= 1 && (b.started ==> b.next.Some?)
    ensures b.samples <= Fill(d, b, count).0.samples
    decreases count - |b.samples|
  {
    if |b.samples| < count {
      FillExtends(d, PullFrame(d, b).0, count);
    }
  }

  /** The samples of a list of frames, in order. */
  function Decode(ps: seq<Pull>): seq<int> {
    if ps == [] then [] else PullSamples(ps[0]) + Decode(ps[1..])
  }

  lemma {:induction false} DecodeAppends(ps: seq<Pull>, more: seq<Pull>)
    ensures Decode(ps + more) == Decode(ps) + Decode(more)
  {
    if ps == [] {
      assert ps + more == more;
    } else {
      assert (ps + more)[1..] == ps[1..] + more && (ps + more)[0] == ps[0];
      DecodeAppends(ps[1..], more);
      SumAssociates(PullSamples(ps[0]), Decode(ps[1..]), Decode(more));
    }
  }

  lemma DecodePrepends(before: seq<int>, p: Pull, ps: seq<Pull>)
    ensures before + Decode([p] + ps) == (before + PullSamples(p)) + Decode(ps)
  {
    assert ([p] + ps)[1..] == ps;
    SumAssociates(before, PullSamples(p), Decode(ps));
  }

  /** What a fill appends is the frames it pulled. */
  lemma {:induction false} FillDecodes(d: Depths, b: Buffer, count: nat)
    requires d.target >= 1 && (b.started ==> b.next.Some?)
    ensures Fill(d, b, count).0.samples == b.samples + Decode(Fill(d, b, count).1)
    decreases count - |b.samples|
  {
    if |b.samples| < count {
      var (once, p) := PullFrame(d, b);
      NextFrameIgnoresSamples(d, b, b.samples);
      FillDecodes(d, once, count);
      DecodePrepends(b.samples, p, Fill(d, once, count).1);
    }
  }

  /** `after` and the frames `ps` hold nothing but packets that were on hand in `b`. */
  ghost predicate IsOnHand(b: Buffer, after: Buffer, ps: seq<Pull>) {
    && (forall p :: p in after.packets ==> p in b.packets)
    && (forall i :: 0 <= i < |ps| && ps[i].Played? ==> ps[i].packet in b.packets)
    && (b.packets == [] ==> after.packets == [])
    && (b.packets == [] && !b.started ==> !after.started)
  }

  lemma PullIsOnHand(d: Depths, b: Buffer)
    requires d.target >= 1 && (b.started ==> b.next.Some?)
    ensures IsOnHand(b, PullFrame(d, b).0, [PullFrame(d, b).1])
  {
  }

  lemma OnHandChains(b: Buffer, once: Buffer, after: Buffer, p: Pull, ps: seq<Pull>)
    requires IsOnHand(b, once, [p]) && IsOnHand(once, after, ps)
    ensures IsOnHand(b, after, [p] + ps)
  {
    assert [p][0] == p;
  }

  lemma {:induction false} FillIsOnHand(d: Depths, b: Buffer, count: nat)
    requires d.target >= 1 && (b.started ==> b.next.Some?)
    ensures IsOnHand(b, Fill(d, b, count).0, Fill(d, b, count).1)
    decreases count - |b.samples|
  {
    if |b.samples| < count {
      var (once, p) := PullFrame(d, b);
      PullIsOnHand(d, b);
      FillIsOnHand(d, once, count);
      OnHandChains(b, once, Fill(d, once, count).0, p, Fill(d, once, count).1);
    }
  }
}
