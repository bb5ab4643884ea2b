/**
  When the jitter buffer of `audio.py` plays, what it plays and when it gives up, told from the packets fed
  and the depths alone.
 */
module JitterLaws {
  import opened Common
  import opened JitterBuffers
  import opened JitterRuns

  // ---- Silence before the target depth ---------------------------------------------------

  /** The distinct sequence numbers of a list of packets. */
  function Numbers(ps: seq<Packet>): set<Sequence> {
    set p | p in ps :: p.sequence
  }

  lemma NumbersAppend(ps: seq<Packet>, p: Packet)
    ensures Numbers(ps + [p]) == Numbers(ps) + {p.sequence}
  {
    assert forall r :: r in ps + [p] <==> r in ps || r == p;
    assert p in ps + [p];
  }

  lemma HasIsNumber(ps: seq<Packet>, q: Sequence)
    ensures Has(ps, q) <==> q in Numbers(ps)
  {
    if Has(ps, q) {
      var i :| 0 <= i < |ps| && ps[i].sequence == q;
      assert ps[i] in ps;
    }
  }

  lemma {:induction false} NumbersOfAscending(ps: seq<Packet>)
    requires Ascending(ps)
    ensures |Numbers(ps)| == |ps|
  {
    if ps != [] {
      var front, last := ps[..|ps| - 1], ps[|ps| - 1];
      assert ps == front + [last];
      NumbersOfAscending(front);
      NumbersAppend(front, last);
      HasIsNumber(front, last.sequence);
    }
  }

  /** `kept` has the numbers of `all`, or `n` of them. */
  ghost predicate KeepsNumbers(n: nat, kept: seq<Packet>, all: seq<Packet>) {
    && Numbers(kept) <= Numbers(all)
    && |kept| == (if |Numbers(all)| < n then |Numbers(all)| else n)
  }

  lemma StoredNumbers(ps: seq<Packet>, q: Sequence, f: Frame)
    requires Ascending(ps)
    ensures Numbers(Stored(ps, q, f)) == Numbers(ps) + {q}
    ensures |Stored(ps, q, f)| == if q in Numbers(ps) then |ps| else |ps| + 1
  {
    HasIsNumber(ps, q);
    if !Has(ps, q) {
      InsertAscending(ps, Packet(q, f));
      InsertElements(ps, Packet(q, f));
      NumbersAppend(ps, Packet(q, f));
      assert Numbers(Insert(ps, Packet(q, f))) == Numbers(ps + [Packet(q, f)]);
    }
  }

  lemma NumbersOfPart(ps: seq<Packet>, n: nat)
    ensures Numbers(KeepLast(ps, n)) <= Numbers(ps)
  {
    assert forall p :: p in KeepLast(ps, n) ==> p in ps;
  }

  lemma KeepsNumbersStep(n: nat, kept: seq<Packet>, all: seq<Packet>, p: Packet)
    requires Ascending(kept) && KeepsNumbers(n, kept, all)
    ensures KeepsNumbers(n, KeepLast(Stored(kept, p.sequence, p.payload), n), all + [p])
  {
    NumbersAppend(all, p);
    StoredNumbers(kept, p.sequence, p.payload);
    NumbersOfPart(Stored(kept, p.sequence, p.payload), n);
    NumbersOfAscending(kept);
    if p.sequence !in Numbers(kept) && |kept| < n {
      SameNumbers(Numbers(kept), Numbers(all));
    }
    assert Numbers(all) <= Numbers(all) + {p.sequence};
    SubsetOfNumbers(Numbers(all), Numbers(all) + {p.sequence});
  }

  lemma SubsetOfNumbers(a: set<Sequence>, b: set<Sequence>)
    requires a <= b
    ensures |a| <= |b|
  {
    assert b == a + (b - a);
  }

  lemma SameNumbers(a: set<Sequence>, b: set<Sequence>)
    requires a <= b && |a| == |b|
    ensures a == b
  {
    assert b == a + (b - a);
  }

  /** Feeding a stopped buffer leaves it stopped, and changes its packets and their count alone. */
  ghost predicate StaysStopped(d: Depths, b: Buffer, after: Buffer) {
    Inv(d, after) && after == b.(packets := after.packets, received := after.received)
  }

  lemma {:induction false} FeedAllKeepsNumbers(d: Depths, b: Buffer, ps: seq<Packet>)
    requires Inv(d, b) && !b.started && b.packets == []
    ensures StaysStopped(d, b, FeedAll(d, b, ps))
    ensures KeepsNumbers(d.max, FeedAll(d, b, ps).packets, ps)
  {
    if ps != [] {
      var front, p := ps[..|ps| - 1], ps[|ps| - 1];
      assert ps == front + [p];
      FeedAllKeepsNumbers(d, b, front);
      FeedKeepsInv(d, FeedAll(d, b, front), p.sequence, p.payload);
      KeepsNumbersStep(d.max, FeedAll(d, b, front).packets, front, p);
    }
  }

  lemma {:induction false} FillOfFew(d: Depths, b: Buffer, count: nat)
    requires d.target >= 1 && !b.started && |b.packets| < d.target
    ensures var after := Fill(d, b, count).0;
            && after == b.(samples := after.samples) && b.samples <= after.samples
            && forall i :: |b.samples| <= i < |after.samples| ==> after.samples[i] == 0
    decreases count - |b.samples|
  {
    if |b.samples| < count {
      FillOfFew(d, PullFrame(d, b).0, count);
    }
  }

  /**
    Until `target` distinct packets have been fed to a stopped, empty buffer, any read goes on with silence
    and leaves it as it was, but for less than a frame of silence left over.
   */
  lemma TooFewStaySilent(d: Depths, b: Buffer, ps: seq<Packet>, count: nat)
    requires Inv(d, b) && !b.started && b.packets == [] && |Numbers(ps)| < d.target
    ensures !FeedAll(d, b, ps).started
    ensures var (after, s) := Read(d, FeedAll(d, b, ps), count);
            && (forall i :: 0 <= i < count ==> s[i] == if i < |b.samples| then b.samples[i] else 0)
            && after == FeedAll(d, b, ps).(samples := after.samples) && |after.samples| < SAMPLES_PER_FRAME
            && (b.samples == [] ==> forall i :: 0 <= i < |after.samples| ==> after.samples[i] == 0)
  {
    FeedAllKeepsNumbers(d, b, ps);
    FillReaches(d, FeedAll(d, b, ps), count);
    FillOfFew(d, FeedAll(d, b, ps), count);
    ReadKeepsInv(d, FeedAll(d, b, ps), count);
  }

  lemma FirstFrame(d: Depths, b: Buffer)
    requires Inv(d, b) && !b.started
    ensures NextFrame(d, b).1 == if |b.packets| < d.target then Silence else Played(b.packets[0])
  {
  }

  /** A stopped, empty buffer plays from the next frame on exactly if `target` distinct packets were fed. */
  lemma PlaybackStartsIff(d: Depths, b: Buffer, ps: seq<Packet>)
    requires Inv(d, b) && !b.started && b.packets == []
    ensures !FeedAll(d, b, ps).started
    ensures NextFrame(d, FeedAll(d, b, ps)).1.Played? <==> |Numbers(ps)| >= d.target
    ensures NextFrame(d, FeedAll(d, b, ps)).0.started <==> |Numbers(ps)| >= d.target
  {
    FeedAllKeepsNumbers(d, b, ps);
    FirstFrame(d, FeedAll(d, b, ps));
  }

  // ---- Playing what was fed --------------------------------------------------------------

  /** Packet k is numbered k past `q`. */
  ghost predicate Consecutive(ps: seq<Packet>, q: nat) {
    forall k :: 0 <= k < |ps| ==> ps[k].sequence == q + k
  }

  /** The samples of a list of packets, in order. */
  function Payloads(ps: seq<Packet>): seq<int> {
    if ps == [] then [] else ps[0].payload + Payloads(ps[1..])
  }

  /** The buffer that has played the first `n` of consecutive packets from `q` on. */
  function AfterPlaying(b: Buffer, ps: seq<Packet>, q: Sequence, n: nat): Buffer
    requires n <= |ps|
  {
    b.(packets := ps[n..], samples := b.samples + Payloads(ps[..n]), next := Some(Ahead(q, n)))
  }

  lemma PlaysOne(d: Depths, b: Buffer, ps: seq<Packet>, q: Sequence)
    requires d.Valid() && b.started && b.missing == 0
    requires ps != [] && Consecutive(ps, q) && b.packets == ps && b.next == Some(q)
    ensures PullFrame(d, b).0 == b.(packets := ps[1..], samples := b.samples + ps[0].payload, next := Some(Ahead(q, 1)))
  {
    assert Has(ps, q) by { assert ps[0].sequence == q; }
    assert Find(ps, q) == Some(0);
    assert Without(ps, 0) == ps[1..];
  }

  lemma PlayingChains(b: Buffer, ps: seq<Packet>, q: Sequence, n: nat)
    requires 0 < n <= |ps|
    ensures var once := b.(packets := ps[1..], samples := b.samples + ps[0].payload, next := Some(Ahead(q, 1)));
            AfterPlaying(once, ps[1..], Ahead(q, 1), n - 1) == AfterPlaying(b, ps, q, n)
  {
    assert ps[..n][1..] == ps[1..][..n - 1] && ps[..n][0] == ps[0];
    assert ps[1..][n - 1..] == ps[n..];
    SumAssociates(b.samples, ps[0].payload, Payloads(ps[1..][..n - 1]));
    AheadAdds(q, 1, n - 1);
  }

  lemma PlayedNone(b: Buffer, ps: seq<Packet>, q: Sequence)
    requires b.packets == ps && b.next == Some(q)
    ensures AfterPlaying(b, ps, q, 0) == b
  {
    assert ps[..0] == [] && ps[0..] == ps && b.samples + [] == b.samples;
    AheadSuccessor(q, 0);
  }

  lemma FillOnce(d: Depths, b: Buffer, count: nat, once: Buffer)
    requires d.target >= 1 && b.started && b.next.Some? && |b.samples| < count
    requires once == PullFrame(d, b).0 && once.started && once.next.Some?
    ensures Fill(d, b, count).0 == Fill(d, once, count).0
  {
  }

  lemma RestIsConsecutive(ps: seq<Packet>, q: Sequence)
    requires |ps| > 1 && Consecutive(ps, q)
    ensures Ahead(q, 1) == q + 1 && Consecutive(ps[1..], q + 1)
  {
    assert ps[1].sequence == q + 1;
  }

  lemma {:induction false} PlaysInOrder(d: Depths, b: Buffer, ps: seq<Packet>, q: Sequence, n: nat, count: nat)
    requires d.Valid() && b.started && b.missing == 0
    requires Consecutive(ps, q) && b.packets == ps && b.next == Some(q) && n <= |ps|
    requires count == |b.samples| + SAMPLES_PER_FRAME * n
    ensures Fill(d, b, count).0 == AfterPlaying(b, ps, q, n)
    decreases n
  {
    if n == 0 {
      PlayedNone(b, ps, q);
    } else {
      var once := PullFrame(d, b).0;
      PlaysOne(d, b, ps, q);
      FillOnce(d, b, count, once);
      PlayingChains(b, ps, q, n);
      if n > 1 {
        RestIsConsecutive(ps, q);
        PlaysInOrder(d, once, ps[1..], Ahead(q, 1), n - 1, count);
      } else {
        PlayedNone(once, ps[1..], Ahead(q, 1));
      }
    }
  }

  lemma {:induction false} PayloadsLength(ps: seq<Packet>)
    ensures |Payloads(ps)| == SAMPLES_PER_FRAME * |ps|
  {
    if ps != [] {
      PayloadsLength(ps[1..]);
    }
  }

  /** A buffer with at least its target depth starts with the first packet it holds. */
  lemma StartsWithFirst(d: Depths, b: Buffer, count: nat)
    requires d.Valid() && !b.started && |b.packets| >= d.target && |b.samples| < count
    ensures Fill(d, b, count) == Fill(d, b.(next := Some(b.packets[0].sequence), started := true), count)
  {
  }

  lemma ConsecutiveKeepsLast(ps: seq<Packet>, q: nat, n: nat)
    requires Consecutive(ps, q) && n > 0
    ensures IsLargest(n, KeepLast(ps, n), ps) && Distinct(ps)
    ensures Consecutive(KeepLast(ps, n), q + |ps| - |KeepLast(ps, n)|)
  {
    if |ps| > n {
      forall x, r | x in KeepLast(ps, n) && r in ps && r !in KeepLast(ps, n) ensures r.sequence < x.sequence {
        LastIsLargest(ps, n, x, r);
      }
    }
  }

  /** A stopped, empty buffer holds the last `max` of consecutive packets, in whatever order they were fed. */
  lemma HoldsConsecutive(d: Depths, b: Buffer, ps: seq<Packet>, fed: seq<Packet>, q: nat)
    requires Inv(d, b) && !b.started && b.packets == []
    requires Consecutive(ps, q) && multiset(fed) == multiset(ps)
    ensures FeedAll(d, b, fed) == b.(packets := KeepLast(ps, d.max), received := b.received + |ps|)
  {
    ConsecutiveKeepsLast(ps, q, d.max);
    ArrivalOrderDoesNotMatter(d, b, ps, fed);
    FeedAllKeepsLargest(d, b, ps);
    LargestIsUnique(d.max, FeedAll(d, b, ps).packets, KeepLast(ps, d.max), ps, ps);
  }

  /** Reading n frames gives the payloads of the first n packets of `ps`, then the number after is expected. */
  ghost predicate PlaysBack(d: Depths, b: Buffer, ps: seq<Packet>, n: nat)
    requires d.target >= 1 && !b.started && 0 < n <= |ps|
  {
    Read(d, b, SAMPLES_PER_FRAME * n)
    == (b.(packets := ps[n..], next := Some(Ahead(ps[0].sequence, n)), started := true), Payloads(ps[..n]))
  }

  lemma PlaysHeld(d: Depths, b: Buffer, ps: seq<Packet>, q: nat, n: nat)
    requires d.Valid() && !b.started && b.missing == 0 && b.samples == [] && b.packets == ps
    requires Consecutive(ps, q) && d.target <= |ps| && 0 < n <= |ps|
    ensures PlaysBack(d, b, ps, n)
  {
    var count := SAMPLES_PER_FRAME * n;
    assert ps[0].sequence == q;
    StartsWithFirst(d, b, count);
    PlaysInOrder(d, b.(next := Some(q), started := true), ps, q, n, count);
    PayloadsLength(ps[..n]);
    var full := Fill(d, b, count).0;
    assert full.samples == Payloads(ps[..n]);
    assert full.samples[count..] == [] && full.samples[..count] == full.samples;
  }

  /**
    After consecutive packets, `target` or more in whatever order, were fed to a stopped buffer with nothing
    on hand, it holds the last `max` of them, and reading frames returns their payloads in order.
   */
  lemma ConsecutivePlaysBack(d: Depths, b: Buffer, ps: seq<Packet>, fed: seq<Packet>, q: nat, n: nat)
    requires Inv(d, b) && !b.started && b.packets == [] && b.samples == []
    requires Consecutive(ps, q) && multiset(fed) == multiset(ps) && |ps| >= d.target
    requires 0 < n <= |ps| && n <= d.max
    ensures FeedAll(d, b, fed) == b.(packets := KeepLast(ps, d.max), received := b.received + |ps|)
    ensures PlaysBack(d, FeedAll(d, b, fed), KeepLast(ps, d.max), n)
  {
    HoldsConsecutive(d, b, ps, fed, q);
    ConsecutiveKeepsLast(ps, q, d.max);
    var last := KeepLast(ps, d.max);
    PlaysHeld(d, b.(packets := last, received := b.received + |ps|), last, q + |ps| - |last|, n);
  }

  /** Packet k is numbered k past `q`, counting on from 0 after the last number there is. */
  ghost predicate ConsecutiveAround(ps: seq<Packet>, q: Sequence) {
    forall k :: 0 <= k < |ps| ==> ps[k].sequence == Ahead(q, k)
  }

  lemma AroundIsDistinct(ps: seq<Packet>, q: Sequence)
    requires ConsecutiveAround(ps, q) && |ps| <= SEQUENCE_SPACE
    ensures Distinct(ps)
  {
    forall i, j | 0 <= i < j < |ps| ensures ps[i].sequence != ps[j].sequence {
      assert Ahead(q, i) == if q + i < SEQUENCE_SPACE then q + i else q + i - SEQUENCE_SPACE;
      assert Ahead(q, j) == if q + j < SEQUENCE_SPACE then q + j else q + j - SEQUENCE_SPACE;
    }
  }

  lemma SmallestIsFirst(ps: seq<Packet>, p: Packet)
    requires Ascending(ps) && p in ps && forall r :: r in ps ==> p.sequence <= r.sequence
    ensures ps[0] == p
  {
    assert ps[0] in ps;
  }

  lemma SmallestAround(ps: seq<Packet>, q: Sequence)
    requires ConsecutiveAround(ps, q) && 0 < |ps| <= SEQUENCE_SPACE
    ensures var k := if q + |ps| <= SEQUENCE_SPACE then 0 else SEQUENCE_SPACE - q;
            && 0 <= k < |ps|
            && forall r :: r in ps ==> ps[k].sequence <= r.sequence
  {
  }

  /**
    Numbers that pass the end of the 32-bit range are sorted as numbers: playback starts with the first
    packet of the stream exactly if the packets fed while stopped do not reach around, and with number 0
    otherwise.
   */
  lemma StartsInOrderIff(d: Depths, b: Buffer, ps: seq<Packet>, q: Sequence)
    requires Inv(d, b) && !b.started && b.packets == []
    requires ConsecutiveAround(ps, q) && d.target <= |ps| <= d.max && |ps| <= SEQUENCE_SPACE
    ensures !FeedAll(d, b, ps).started
    ensures NextFrame(d, FeedAll(d, b, ps)).1 == Played(ps[0]) <==> q + |ps| <= SEQUENCE_SPACE
    ensures q + |ps| > SEQUENCE_SPACE ==> NextFrame(d, FeedAll(d, b, ps)).1 == Played(ps[SEQUENCE_SPACE - q])
  {
    AroundIsDistinct(ps, q);
    FeedAllKeepsLargest(d, b, ps);
    FirstFrame(d, FeedAll(d, b, ps));
    SmallestAround(ps, q);
    SmallestIsFirst(FeedAll(d, b, ps).packets, ps[if q + |ps| <= SEQUENCE_SPACE then 0 else SEQUENCE_SPACE - q]);
  }

  // ---- Any frame of a started buffer -----------------------------------------------------

  /** A started buffer plays the packet it expects if it is there, and nothing else; it then expects the next. */
  lemma PlaysExpected(d: Depths, b: Buffer, p: Packet)
    requires Inv(d, b) && b.started && p in b.packets
    ensures NextFrame(d, b).1 == Played(p) <==> b.next == Some(p.sequence)
    ensures b.next == Some(p.sequence) ==>
              var after := NextFrame(d, b).0;
              && after == b.(packets := after.packets, missing := 0, next := Some((p.sequence + 1) % SEQUENCE_SPACE))
              && p !in after.packets && forall r :: r in b.packets && r != p ==> r in after.packets
  {
    var i :| 0 <= i < |b.packets| && b.packets[i] == p;
    if b.next == Some(p.sequence) {
      assert Has(b.packets, p.sequence);
      assert Find(b.packets, p.sequence) == Some(i);
      WithoutHasTheRest(b.packets, i);
    }
  }

  lemma WithoutHasTheRest(ps: seq<Packet>, i: nat)
    requires Ascending(ps) && i < |ps|
    ensures ps[i] !in Without(ps, i) && forall r :: r in ps && r != ps[i] ==> r in Without(ps, i)
  {
    assert ps == ps[..i] + [ps[i]] + ps[i + 1..];
  }

  /** After n frames that were not on hand, each of them silence. */
  function Starved(d: Depths, b: Buffer, n: nat): Buffer
    requires d.target >= 1 && (b.started ==> b.next.Some?)
  {
    if n == 0 then b else NextFrame(d, Starved(d, b, n - 1)).0
  }

  ghost predicate Lacks(b: Buffer, n: nat)
    requires b.next.Some?
  {
    forall k :: 0 <= k < n ==> !Has(b.packets, Ahead(b.next.value, k))
  }

  /** The buffer has gone on through n missing frames, or has started over with nothing on hand. */
  ghost predicate HasStarved(d: Depths, b: Buffer, n: nat, after: Buffer)
    requires b.next.Some? && b.missing < d.starvation
  {
    if b.missing + n < d.starvation
    then after == b.(next := Some(Ahead(b.next.value, n)), lost := b.lost + n, missing := b.missing + n)
    else
      var left := d.starvation - b.missing;
      after == b.(packets := [], next := None, started := false, missing := 0,
                  lost := b.lost + left, resyncs := b.resyncs + 1)
  }

  lemma StarvesOnce(d: Depths, b: Buffer, n: nat, mid: Buffer)
    requires Inv(d, b) && b.started && n > 0 && Lacks(b, n) && HasStarved(d, b, n - 1, mid)
    ensures HasStarved(d, b, n, NextFrame(d, mid).0) && NextFrame(d, mid).1 == Silence
  {
    if b.missing + n - 1 < d.starvation {
      assert !Has(b.packets, Ahead(b.next.value, n - 1));
      AheadSuccessor(b.next.value, n - 1);
    }
  }

  /**
    While the numbers a started buffer expects are not on hand it pulls silence, and it starts over exactly
    at the `starvation`-th frame missing in a row, dropping whatever it holds.
   */
  lemma {:induction false} StartsOverIff(d: Depths, b: Buffer, n: nat)
    requires Inv(d, b) && b.started && Lacks(b, n)
    ensures Inv(d, Starved(d, b, n)) && HasStarved(d, b, n, Starved(d, b, n))
    ensures Starved(d, b, n).started <==> b.missing + n < d.starvation
    ensures n > 0 ==> NextFrame(d, Starved(d, b, n - 1)).1 == Silence
  {
    if n == 0 {
      AheadSuccessor(b.next.value, 0);
    } else {
      StartsOverIff(d, b, n - 1);
      NextFrameKeepsInv(d, Starved(d, b, n - 1));
      StarvesOnce(d, b, n, Starved(d, b, n - 1));
    }
  }

  // ---- Feeding ---------------------------------------------------------------------------

  /**
    A packet behind the expected number is counted and dropped if it is at most `max` behind, and otherwise
    the buffer starts over with it alone.
   */
  lemma BehindLaw(d: Depths, b: Buffer, q: Sequence, f: Frame)
    requires Inv(d, b) && b.started && q < b.next.value
    ensures AfterFeed(d, b, q, f)
            == if b.next.value - d.max <= q then b.(late := b.late + 1)
               else Buffer([Packet(q, f)], [], None, false, 0, b.received + 1, b.lost, b.late, b.resyncs + 1)
  {
    assert !Has([], q);
  }

  /** Any other packet is on hand after, unless its number was: then the first one stays. */
  lemma AheadLaw(d: Depths, b: Buffer, q: Sequence, f: Frame)
    requires Inv(d, b) && (b.started ==> b.next.value <= q)
    ensures var after := AfterFeed(d, b, q, f);
            && (Has(b.packets, q) ==> after == b)
            && (!Has(b.packets, q) ==>
                  && after == b.(packets := after.packets, received := b.received + 1)
                  && IsLargest(d.max, after.packets, b.packets + [Packet(q, f)]))
  {
    if !Has(b.packets, q) {
      var p := Packet(q, f);
      InsertAscending(b.packets, p);
      LargestOfItself(d.max, b.packets);
      LargestExtends(d.max, b.packets, b.packets, p, b.packets + [p]);
    }
  }

  lemma LargestOfItself(n: nat, ps: seq<Packet>)
    requires Ascending(ps) && |ps| <= n
    ensures IsLargest(n, ps, ps)
  {
  }
}
