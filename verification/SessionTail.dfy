/**
  The incremental reader of session logs (bridge/agent/cardbridge/session_usage.py).

  A log is an append-only file of lines. It is read at arbitrary moments, from where the last
  read stopped, in pieces of bounded size. The cursor that results is the one that a single
  pass over the whole file, line by line, would leave.
 */
module SessionTails {
  import opened Common
  import UsageLedgers

  type Byte = bv8
  type Bytes = seq<Byte>

  const NEWLINE: Byte := 10
  const MAX_SESSION_LINE_BYTES: nat := 524288

  datatype Ids = Ids(session: Bytes, turn: Bytes)

  datatype Kind = SessionMeta | TurnContext | EventMsg

  /** What a `token_count` record carries besides the ids. */
  datatype Counters = Counters(
    total: UsageLedgers.Breakdown, last: UsageLedgers.Breakdown, contextWindow: nat, timestamp: nat)

  datatype Notification = Notification(thread: Bytes, turn: Bytes, counters: Counters)

  /**
    The patterns and decoders applied to one line, and the name of the file. `sessionId` and
    `turnId` answer the empty string when nothing safe was found; `counters` answers `None`
    for every record that is not a usable `token_count`.
   */
  datatype Format = Format(
    limit: nat,
    kind: Bytes -> Option<Kind>,
    sessionId: Bytes -> Bytes,
    turnId: Bytes -> Bytes,
    counters: Bytes -> Option<Counters>,
    stem: Bytes)

  // ---- One line --------------------------------------------------------------------------

  function ReadMetadataPrefix(r: Format, raw: Bytes, ids: Ids): Ids {
    match r.kind(raw)
    case Some(SessionMeta) => if r.sessionId(raw) == [] then ids else ids.(session := r.sessionId(raw))
    case Some(TurnContext) => if r.turnId(raw) == [] then ids else ids.(turn := r.turnId(raw))
    case _ => ids
  }

  function ReadCompleteLine(r: Format, raw: Bytes, ids: Ids): (Ids, Option<Notification>) {
    match r.kind(raw)
    case None => (ids, None)
    case Some(EventMsg) =>
      var thread := if ids.session == [] then r.stem else ids.session;
      (ids,
       if r.counters(raw) == None || thread == [] then None
       else Some(Notification(thread, ids.turn, r.counters(raw).value)))
    case Some(_) => (ReadMetadataPrefix(r, raw, ids), None)
  }

  // ---- One pass over a file, line by line ------------------------------------------------

  datatype Cursor = Cursor(offset: nat, ids: Ids, discarding: bool)

  function NoIds(): Ids {
    Ids([], [])
  }

  function NextNewline(f: Bytes, pos: nat): (n: nat)
    requires pos <= |f|
    ensures pos <= n <= |f|
    ensures n < |f| ==> f[n] == NEWLINE
    ensures forall i :: pos <= i < n ==> f[i] != NEWLINE
    decreases |f| - pos
  {
    if pos == |f| || f[pos] == NEWLINE then pos else NextNewline(f, pos + 1)
  }

  /** What one line of a file does: the ids and notifications it yields, or the end of the pass. */
  datatype Line = Last(cursor: Cursor) | Line(next: nat, ids: Ids, notes: seq<Notification>)

  function ReadLine(r: Format, f: Bytes, start: nat, ids: Ids): (l: Line)
    requires start <= |f|
    ensures l.Line? ==> start < l.next <= |f|
    ensures l.Last? ==> start <= l.cursor.offset <= |f|
  {
    var n := NextNewline(f, start);
    var isLong := n - start > r.limit;
    if n == |f| then
      if isLong then Last(Cursor(n, ReadMetadataPrefix(r, f[start..start + r.limit + 1], ids), true))
      else Last(Cursor(start, ids, false))
    else if isLong then
      Line(n + 1, ReadMetadataPrefix(r, f[start..start + r.limit + 1], ids), [])
    else
      var (after, note) := ReadCompleteLine(r, f[start..n + 1], ids);
      Line(n + 1, after, Listed(note))
  }

  /**
    The pass that defines what a file means: each line up to the limit is parsed, only a prefix
    of a longer one is searched for ids, and a last line without its newline is left alone
    until it exceeds the limit.
   */
  function OnePass(r: Format, f: Bytes, start: nat, ids: Ids): (p: (Cursor, seq<Notification>))
    requires start <= |f|
    ensures start <= p.0.offset <= |f|
    decreases |f| - start
  {
    match ReadLine(r, f, start, ids)
    case Last(c) => (c, [])
    case Line(next, after, notes) =>
      var (c, more) := OnePass(r, f, next, after);
      (c, notes + more)
  }

  function Listed<T>(o: Option<T>): seq<T> {
    if o.Some? then [o.value] else []
  }

  /** The same pass taken up in the middle of a file. */
  function Resume(r: Format, f: Bytes, c: Cursor): (p: (Cursor, seq<Notification>))
    requires c.offset <= |f|
    ensures c.offset <= p.0.offset <= |f|
  {
    if !c.discarding then OnePass(r, f, c.offset, c.ids)
    else
      var n := NextNewline(f, c.offset);
      if n == |f| then (c.(offset := n), []) else OnePass(r, f, n + 1, c.ids)
  }

  lemma {:induction false} NewlineIsKept(f: Bytes, tail: Bytes, pos: nat)
    requires pos <= |f|
    ensures var n := NextNewline(f, pos);
            NextNewline(f + tail, pos) == if n < |f| then n else NextNewline(f + tail, |f|)
    decreases |f| - pos
  {
    if pos < |f| && f[pos] != NEWLINE {
      NewlineIsKept(f, tail, pos + 1);
    }
  }

  /** Appending to a file changes none of its complete lines. */
  lemma LineIsKept(r: Format, f: Bytes, tail: Bytes, start: nat, ids: Ids)
    requires start <= |f|
    ensures ReadLine(r, f, start, ids).Line? ==> ReadLine(r, f + tail, start, ids) == ReadLine(r, f, start, ids)
  {
    var n := NextNewline(f, start);
    NewlineIsKept(f, tail, start);
    if n < |f| {
      assert (f + tail)[start..n + 1] == f[start..n + 1];
      if n - start > r.limit {
        assert (f + tail)[start..start + r.limit + 1] == f[start..start + r.limit + 1];
      }
    }
  }

  lemma NothingPlus<T>(s: seq<T>)
    ensures [] + s == s
  {
  }

  lemma LastLineGoesOn(r: Format, f: Bytes, tail: Bytes, start: nat, ids: Ids)
    requires start <= |f| && ReadLine(r, f, start, ids).Last?
    ensures OnePass(r, f + tail, start, ids) == Resume(r, f + tail, ReadLine(r, f, start, ids).cursor)
  {
    NewlineIsKept(f, tail, start);
    if |f| - start > r.limit {
      assert (f + tail)[start..start + r.limit + 1] == f[start..start + r.limit + 1];
      var l := ReadLine(r, f + tail, start, ids);
      if l.Line? {
        NothingPlus(OnePass(r, f + tail, l.next, l.ids).1);
      }
    }
  }

  /** `rest` takes up the pass that `first` broke off. */
  ghost predicate GoesOn(first: (Cursor, seq<Notification>), rest: (Cursor, seq<Notification>),
                         whole: (Cursor, seq<Notification>)) {
    whole == (rest.0, first.1 + rest.1)
  }

  lemma GoesOnAfter(notes: seq<Notification>, first: (Cursor, seq<Notification>), rest: (Cursor, seq<Notification>),
                    whole: (Cursor, seq<Notification>))
    requires GoesOn(first, rest, whole)
    ensures GoesOn((first.0, notes + first.1), rest, (whole.0, notes + whole.1))
  {
    assert (notes + first.1) + rest.1 == notes + (first.1 + rest.1);
  }

  /** Appending to a file lets the pass go on from where it stopped. */
  lemma {:induction false} PassGoesOn(r: Format, f: Bytes, tail: Bytes, start: nat, ids: Ids)
    requires start <= |f|
    ensures var first := OnePass(r, f, start, ids);
            GoesOn(first, Resume(r, f + tail, first.0), OnePass(r, f + tail, start, ids))
    decreases |f| - start
  {
    match ReadLine(r, f, start, ids)
    case Last(c) =>
      LastLineGoesOn(r, f, tail, start, ids);
      NothingPlus(Resume(r, f + tail, c).1);
    case Line(next, after, notes) =>
      LineIsKept(r, f, tail, start, ids);
      PassGoesOn(r, f, tail, next, after);
      var first := OnePass(r, f, next, after);
      GoesOnAfter(notes, first, Resume(r, f + tail, first.0), OnePass(r, f + tail, next, after));
  }

  // ---- Reading in pieces -----------------------------------------------------------------

  /** Where `readline(size)` stops. */
  function PieceEnd(f: Bytes, pos: nat, size: nat): (e: nat)
    requires pos <= |f|
    ensures pos <= e <= |f| && e <= pos + size
  {
    var n := NextNewline(f, pos);
    var e := if n < |f| then n + 1 else n;
    if e <= pos + size then e else pos + size
  }

  datatype Piece = Stop | Go(cursor: Cursor, note: Option<Notification>)

  predicate IsComplete(raw: Bytes) {
    raw != [] && raw[|raw| - 1] == NEWLINE
  }

  function NextPiece(r: Format, f: Bytes, c: Cursor): (p: Piece)
    ensures p.Go? ==> c.offset < p.cursor.offset <= |f|
  {
    if c.offset > |f| then Stop
    else
      var end := PieceEnd(f, c.offset, r.limit + 1);
      var raw := f[c.offset..end];
      if raw == [] then Stop
      else if c.discarding then Go(Cursor(end, c.ids, !IsComplete(raw)), None)
      else if |raw| > r.limit && !IsComplete(raw) then Go(Cursor(end, ReadMetadataPrefix(r, raw, c.ids), true), None)
      else if !IsComplete(raw) then Stop
      else
        var (after, note) := ReadCompleteLine(r, raw, c.ids);
        Go(Cursor(end, after, false), note)
  }

  /** A file being read while others write to it: what it holds for one piece, and for each later one. */
  datatype Stream = Stream(now: Bytes, later: seq<Bytes>) {
    /** The file for the next piece; after the last change it stays as it is. */
    function Next(): Stream {
      if later == [] then this else Stream(later[0], later[1..])
    }

    function End(): Bytes {
      if later == [] then now else later[|later| - 1]
    }

    /** The file only grows. */
    predicate Grows()
      decreases |later|
    {
      later == [] || (now <= later[0] && Next().Grows())
    }
  }

  /** Up to `pieces` turns of the loop: the cursor, and the notifications it came across. */
  function Read(r: Format, f: Stream, c: Cursor, pieces: nat): (p: (Cursor, seq<Notification>))
    decreases pieces
  {
    if pieces == 0 then (c, [])
    else
      match NextPiece(r, f.now, c)
      case Stop => (c, [])
      case Go(next, note) =>
        var (last, notes) := Read(r, f.Next(), next, pieces - 1);
        (last, Listed(note) + notes)
  }

  /** What the file held when the reading ended. */
  function SeenLast(r: Format, f: Stream, c: Cursor, pieces: nat): Bytes
    decreases pieces
  {
    if pieces == 0 || NextPiece(r, f.now, c).Stop? then f.now
    else SeenLast(r, f.Next(), NextPiece(r, f.now, c).cursor, pieces - 1)
  }

  /** Enough turns to reach the end of the file from anywhere. */
  function All(f: Stream): nat {
    |f.End()| + 1
  }

  lemma {:induction false} EndIsLongest(f: Stream)
    requires f.Grows()
    ensures f.now <= f.End() && f.Next().Grows() && f.now <= f.Next().now && f.Next().End() == f.End()
    decreases |f.later|
  {
    if f.later != [] {
      EndIsLongest(f.Next());
      PrefixOn(f.now, f.Next().now, f.End());
    }
  }

  lemma SeenNext(r: Format, f: Stream, c: Cursor, pieces: nat)
    requires pieces > 0 && NextPiece(r, f.now, c).Go?
    ensures SeenLast(r, f, c, pieces) == SeenLast(r, f.Next(), NextPiece(r, f.now, c).cursor, pieces - 1)
  {
  }

  ghost predicate IsBetween(low: Bytes, seen: Bytes, high: Bytes) {
    low <= seen <= high
  }

  lemma BetweenLower(low: Bytes, next: Bytes, seen: Bytes, high: Bytes)
    requires low <= next && IsBetween(next, seen, high)
    ensures IsBetween(low, seen, high)
  {
    PrefixOn(low, next, seen);
  }

  /** What was seen last is what the file held at some time while it was read. */
  lemma {:induction false} SeenGrows(r: Format, f: Stream, c: Cursor, pieces: nat)
    requires f.Grows()
    ensures IsBetween(f.now, SeenLast(r, f, c, pieces), f.End())
    decreases pieces
  {
    EndIsLongest(f);
    if pieces > 0 && NextPiece(r, f.now, c).Go? {
      SeenNext(r, f, c, pieces);
      SeenGrows(r, f.Next(), NextPiece(r, f.now, c).cursor, pieces - 1);
      BetweenLower(f.now, f.Next().now, SeenLast(r, f, c, pieces), f.End());
    }
  }

  lemma PrefixOn<T>(a: seq<T>, b: seq<T>, c: seq<T>)
    requires a <= b <= c
    ensures a <= c
  {
  }

  // ---- Pieces follow the pass ------------------------------------------------------------

  /** The pass over what has been consumed so far ends in `c` and finds `notes`. */
  ghost predicate OnTrack(r: Format, f: Bytes, c: Cursor, notes: seq<Notification>) {
    c.offset <= |f| && OnePass(r, f[..c.offset], 0, NoIds()) == (c, notes)
  }

  ghost predicate IsDone(r: Format, f: Bytes, c: Cursor, notes: seq<Notification>) {
    OnePass(r, f, 0, NoIds()) == (c, notes)
  }

  lemma PieceHoldsNewline(f: Bytes, pos: nat, size: nat)
    requires pos < |f| && size > 0
    ensures var e := PieceEnd(f, pos, size);
            NextNewline(f[..e], pos) == if IsComplete(f[pos..e]) then e - 1 else e
  {
    var e := PieceEnd(f, pos, size);
    assert f[pos..e][e - pos - 1] == f[e - 1];
  }

  lemma PassAtEnd(r: Format, f: Bytes, ids: Ids)
    ensures OnePass(r, f, |f|, ids) == (Cursor(|f|, ids, false), [])
  {
  }

  lemma LineIsOnePass(r: Format, f: Bytes, start: nat, ids: Ids)
    requires start <= |f|
    requires ReadLine(r, f, start, ids).Line? && ReadLine(r, f, start, ids).next == |f|
    ensures var l := ReadLine(r, f, start, ids);
            OnePass(r, f, start, ids) == (Cursor(|f|, l.ids, false), l.notes)
  {
    var l := ReadLine(r, f, start, ids);
    PassAtEnd(r, f, l.ids);
    assert l.notes + [] == l.notes;
  }

  lemma PieceIsResumed(r: Format, f: Bytes, c: Cursor)
    requires c.offset <= |f| && NextPiece(r, f, c).Go?
    ensures var p := NextPiece(r, f, c);
            Resume(r, f[..p.cursor.offset], c) == (p.cursor, Listed(p.note))
  {
    var p := NextPiece(r, f, c);
    var g, raw := f[..p.cursor.offset], f[c.offset..p.cursor.offset];
    PieceHoldsNewline(f, c.offset, r.limit + 1);
    assert g[c.offset..|g|] == raw;
    PassAtEnd(r, g, c.ids);
    if !c.discarding && IsComplete(raw) {
      LineIsOnePass(r, g, c.offset, c.ids);
    }
  }

  lemma PieceKeepsTrack(r: Format, f: Bytes, c: Cursor, notes: seq<Notification>)
    requires OnTrack(r, f, c, notes) && NextPiece(r, f, c).Go?
    ensures var p := NextPiece(r, f, c); OnTrack(r, f, p.cursor, notes + Listed(p.note))
  {
    var p := NextPiece(r, f, c);
    PieceIsResumed(r, f, c);
    assert f[..p.cursor.offset] == f[..c.offset] + f[c.offset..p.cursor.offset];
    PassGoesOn(r, f[..c.offset], f[c.offset..p.cursor.offset], 0, NoIds());
  }

  lemma StopIsResumed(r: Format, f: Bytes, c: Cursor)
    requires c.offset <= |f| && NextPiece(r, f, c).Stop?
    ensures Resume(r, f, c) == (c, [])
  {
    if c.offset < |f| {
      var e := PieceEnd(f, c.offset, r.limit + 1);
      assert f[c.offset..e][e - c.offset - 1] == f[e - 1];
    }
  }

  lemma StopIsDone(r: Format, f: Bytes, c: Cursor, notes: seq<Notification>)
    requires OnTrack(r, f, c, notes) && NextPiece(r, f, c).Stop?
    ensures IsDone(r, f, c, notes)
  {
    StopIsResumed(r, f, c);
    assert f == f[..c.offset] + f[c.offset..];
    PassGoesOn(r, f[..c.offset], f[c.offset..], 0, NoIds());
    assert notes + [] == notes;
  }

  ghost predicate Reached(r: Format, f: Bytes, notes: seq<Notification>, p: (Cursor, seq<Notification>), all: bool) {
    && OnTrack(r, f, p.0, notes + p.1)
    && (all ==> IsDone(r, f, p.0, notes + p.1))
  }

  lemma ReachedLater(r: Format, f: Bytes, notes: seq<Notification>, some: seq<Notification>,
                     p: (Cursor, seq<Notification>), all: bool)
    requires Reached(r, f, notes + some, p, all)
    ensures Reached(r, f, notes, (p.0, some + p.1), all)
  {
    assert (notes + some) + p.1 == notes + (some + p.1);
  }

  lemma ReachedHere(r: Format, f: Bytes, c: Cursor, notes: seq<Notification>, all: bool)
    requires OnTrack(r, f, c, notes) && (all ==> NextPiece(r, f, c).Stop?)
    ensures Reached(r, f, notes, (c, []), all)
  {
    assert notes + [] == notes;
    if all {
      StopIsDone(r, f, c, notes);
    }
  }

  lemma TrackStays(r: Format, f: Bytes, g: Bytes, c: Cursor, notes: seq<Notification>)
    requires OnTrack(r, f, c, notes) && f <= g
    ensures OnTrack(r, g, c, notes)
  {
    assert g[..c.offset] == f[..c.offset];
  }

  /** Reading in pieces while the file grows follows the pass over what was seen, and enough pieces complete it. */
  lemma {:induction false} ReadFollowsPass(r: Format, f: Stream, c: Cursor, notes: seq<Notification>, pieces: nat)
    requires f.Grows() && OnTrack(r, f.now, c, notes)
    ensures Reached(r, SeenLast(r, f, c, pieces), notes, Read(r, f, c, pieces), pieces > |f.End()| - c.offset)
    decreases pieces
  {
    EndIsLongest(f);
    if pieces == 0 || NextPiece(r, f.now, c).Stop? {
      ReachedHere(r, f.now, c, notes, pieces > |f.End()| - c.offset);
    } else {
      var p := NextPiece(r, f.now, c);
      PieceKeepsTrack(r, f.now, c, notes);
      TrackStays(r, f.now, f.Next().now, p.cursor, notes + Listed(p.note));
      ReadFollowsPass(r, f.Next(), p.cursor, notes + Listed(p.note), pieces - 1);
      ReachedLater(r, SeenLast(r, f, c, pieces), notes, Listed(p.note), Read(r, f.Next(), p.cursor, pieces - 1),
                   pieces > |f.End()| - c.offset);
    }
  }

  // ---- Polls -----------------------------------------------------------------------------

  /** What the reader remembers of one file; the size and time are -1 before the first read. */
  datatype Tail = Tail(cursor: Cursor, size: int, mtime: int)

  function Fresh(): Tail {
    Tail(Cursor(0, NoIds(), false), -1, -1)
  }

  /**
    One poll: `stat` fails, or answers a size and a time, after which the file is read as `contents` has
    it. `failure` is the number of pieces read before an I/O error, if there was one.
   */
  datatype Poll = StatFails | Stat(size: nat, mtime: int, contents: Stream, failure: Option<nat>)

  /** `deque(maxlen=2)`. */
  function LastTwo<T>(s: seq<T>): seq<T> {
    if |s| <= 2 then s else s[|s| - 2..]
  }

  predicate IsUnchanged(t: Tail, size: int, mtime: int) {
    size == t.size && mtime == t.mtime
  }

  function Pieces(p: Poll): nat
    requires p.Stat?
  {
    if p.failure.Some? then p.failure.value else All(p.contents)
  }

  /** The cursor a poll reads from: a file shorter than before is read afresh. */
  function Opened(t: Tail, size: int): Tail {
    if size < t.cursor.offset then Fresh() else t
  }

  function AfterPoll(r: Format, t: Tail, p: Poll): (Tail, seq<Notification>) {
    if p.StatFails? || IsUnchanged(t, p.size, p.mtime) then (t, [])
    else
      var before := Opened(t, p.size);
      var (c, notes) := Read(r, p.contents, before.cursor, Pieces(p));
      if p.failure.Some? then (before.(cursor := c), [])
      else (Tail(c, p.size, p.mtime), LastTwo(notes))
  }

  /** What a poll that reads has seen of the file. */
  function SeenBy(r: Format, t: Tail, p: Poll): Bytes
    requires p.Stat?
  {
    SeenLast(r, p.contents, Opened(t, p.size).cursor, Pieces(p))
  }

  /**
    The reader after a run of polls; `seen` is what it saw of the file, and `lost` notes that a failed
    read dropped its notifications.
   */
  datatype Log = Log(tail: Tail, seen: Bytes, returned: seq<Notification>, lost: bool)

  function EmptyLog(): Log {
    Log(Fresh(), [], [], false)
  }

  predicate Skips(t: Tail, p: Poll) {
    p.StatFails? || IsUnchanged(t, p.size, p.mtime)
  }

  function Step(r: Format, log: Log, p: Poll): Log {
    var (t, notes) := AfterPoll(r, log.tail, p);
    if Skips(log.tail, p) then log.(tail := t)
    else Log(t, SeenBy(r, log.tail, p), log.returned + notes, log.lost || p.failure.Some?)
  }

  /** The file only grows: between polls, between `stat` and the reading after it, and while it is read. */
  predicate Grows(seen: Bytes, p: Poll) {
    p.Stat? ==> |seen| <= p.size <= |p.contents.now| && seen <= p.contents.now && p.contents.Grows()
  }

  function Run(r: Format, polls: seq<Poll>): Log {
    if polls == [] then EmptyLog() else Step(r, Run(r, polls[..|polls| - 1]), polls[|polls| - 1])
  }

  predicate AppendOnly(r: Format, polls: seq<Poll>) {
    polls == []
    || (AppendOnly(r, polls[..|polls| - 1]) && Grows(Run(r, polls[..|polls| - 1]).seen, polls[|polls| - 1]))
  }

  // ---- Polling does not matter -----------------------------------------------------------

  function PassNotes(r: Format, f: Bytes): seq<Notification> {
    OnePass(r, f, 0, NoIds()).1
  }

  /** The cursor is that of the bytes consumed; once the size seen is that of `stat`, of the whole file. */
  ghost predicate Inv(r: Format, log: Log, notes: seq<Notification>) {
    && OnTrack(r, log.seen, log.tail.cursor, notes)
    && (!log.lost ==> LastTwo(log.returned) == LastTwo(notes))
    && log.tail.size <= |log.seen|
    && (log.tail.size == |log.seen| ==> IsDone(r, log.seen, log.tail.cursor, notes))
  }

  lemma LastTwoTwice<T>(a: seq<T>, b: seq<T>)
    ensures LastTwo(a + LastTwo(b)) == LastTwo(a + b)
    ensures LastTwo(LastTwo(a) + b) == LastTwo(a + b)
  {
  }

  /** A cursor that is done with a file stays where it is, until the file grows. */
  lemma DoneReadsNothing(r: Format, f: Stream, c: Cursor, notes: seq<Notification>, pieces: nat)
    requires OnTrack(r, f.now, c, notes) && IsDone(r, f.now, c, notes)
    ensures Read(r, f, c, pieces) == (c, []) && SeenLast(r, f, c, pieces) == f.now
  {
    if NextPiece(r, f.now, c).Go? {
      var p, still := NextPiece(r, f.now, c), Stream(f.now, []);
      PieceKeepsTrack(r, f.now, c, notes);
      StillSeen(r, still, p.cursor, All(still));
      ReadFollowsPass(r, still, p.cursor, notes + Listed(p.note), All(still));
      ReadOnlyAdvances(r, still, p.cursor, All(still));
    }
  }

  lemma {:induction false} StillSeen(r: Format, f: Stream, c: Cursor, pieces: nat)
    requires f.later == []
    ensures SeenLast(r, f, c, pieces) == f.now
    decreases pieces
  {
    if pieces > 0 && NextPiece(r, f.now, c).Go? {
      StillSeen(r, f, NextPiece(r, f.now, c).cursor, pieces - 1);
    }
  }

  lemma {:induction false} ReadOnlyAdvances(r: Format, f: Stream, c: Cursor, pieces: nat)
    ensures Read(r, f, c, pieces).0.offset >= c.offset
    decreases pieces
  {
    if pieces > 0 && NextPiece(r, f.now, c).Go? {
      ReadOnlyAdvances(r, f.Next(), NextPiece(r, f.now, c).cursor, pieces - 1);
    }
  }

  /** One successful read of a grown file leaves the cursor and notifications of one pass. */
  lemma GoodPollIsDone(r: Format, log: Log, notes: seq<Notification>, p: Poll)
    requires Inv(r, log, notes) && Grows(log.seen, p) && !Skips(log.tail, p) && p.failure.None?
    ensures var next := Step(r, log, p);
            var more := Read(r, p.contents, log.tail.cursor, All(p.contents)).1;
            Inv(r, next, notes + more) && IsDone(r, next.seen, next.tail.cursor, notes + more)
  {
    TrackStays(r, log.seen, p.contents.now, log.tail.cursor, notes);
    ReadFollowsPass(r, p.contents, log.tail.cursor, notes, All(p.contents));
    SeenGrows(r, p.contents, log.tail.cursor, All(p.contents));
    var more := Read(r, p.contents, log.tail.cursor, All(p.contents)).1;
    LastTwoTwice(log.returned, more);
    LastTwoTwice(notes, more);
  }

  /** A read that fails half-way loses notifications, but no ids and no place in the file. */
  lemma FailedPollKeepsInv(r: Format, log: Log, notes: seq<Notification>, p: Poll)
    requires Inv(r, log, notes) && Grows(log.seen, p) && !Skips(log.tail, p) && p.failure.Some?
    ensures Inv(r, Step(r, log, p), notes + Read(r, p.contents, log.tail.cursor, Pieces(p)).1)
  {
    TrackStays(r, log.seen, p.contents.now, log.tail.cursor, notes);
    ReadFollowsPass(r, p.contents, log.tail.cursor, notes, Pieces(p));
    SeenGrows(r, p.contents, log.tail.cursor, Pieces(p));
    if log.tail.size == |SeenBy(r, log.tail, p)| {
      assert p.contents.now == log.seen;
      DoneReadsNothing(r, p.contents, log.tail.cursor, notes, Pieces(p));
      assert notes + [] == notes;
    }
  }

  lemma StepKeepsInv(r: Format, log: Log, notes: seq<Notification>, p: Poll) returns (more: seq<Notification>)
    requires Inv(r, log, notes) && Grows(log.seen, p)
    ensures Inv(r, Step(r, log, p), more)
  {
    if Skips(log.tail, p) {
      more := notes;
    } else {
      more := notes + Read(r, p.contents, log.tail.cursor, Pieces(p)).1;
      if p.failure.Some? {
        FailedPollKeepsInv(r, log, notes, p);
      } else {
        GoodPollIsDone(r, log, notes, p);
      }
    }
  }

  lemma {:induction false} RunKeepsInv(r: Format, polls: seq<Poll>) returns (notes: seq<Notification>)
    requires AppendOnly(r, polls)
    ensures Inv(r, Run(r, polls), notes)
  {
    if polls == [] {
      notes := [];
    } else {
      notes := RunKeepsInv(r, polls[..|polls| - 1]);
      notes := StepKeepsInv(r, Run(r, polls[..|polls| - 1]), notes, polls[|polls| - 1]);
    }
  }

  /** The reader agrees with one pass over what it has seen, which covers what `stat` reported. */
  ghost predicate AgreesWithOnePass(r: Format, log: Log, size: nat) {
    && |log.seen| >= size
    && log.tail.cursor == OnePass(r, log.seen, 0, NoIds()).0
    && (!log.lost ==> LastTwo(log.returned) == LastTwo(PassNotes(r, log.seen)))
  }

  /**
    When and how often a file is polled that grows all the while makes no difference, nor do errors on
    the way: after any poll that neither `stat` nor reading failed, the cursor (offset, session, turn
    and the mark for a long line) is that of one pass over what the file held when the reading ended,
    at least what `stat` reported, and the last two notifications handed out are the last two of that
    pass, unless a failed read lost some.
   */
  lemma PollingIsOnePass(r: Format, polls: seq<Poll>, last: Poll)
    requires AppendOnly(r, polls + [last]) && last.Stat? && last.failure.None?
    ensures AgreesWithOnePass(r, Run(r, polls + [last]), last.size)
    ensures Run(r, polls + [last]).seen <= last.contents.End()
  {
    assert (polls + [last])[..|polls|] == polls;
    var notes := RunKeepsInv(r, polls);
    var log := Run(r, polls);
    EndIsLongest(last.contents);
    if !Skips(log.tail, last) {
      GoodPollIsDone(r, log, notes, last);
      SeenGrows(r, last.contents, log.tail.cursor, All(last.contents));
    }
  }

  /** Two readers of the same file, however they were polled, end up alike. */
  lemma PollTimingDoesNotMatter(r: Format, some: seq<Poll>, others: seq<Poll>, x: Poll, y: Poll)
    requires AppendOnly(r, some + [x]) && x.Stat? && x.failure.None?
    requires AppendOnly(r, others + [y]) && y.Stat? && y.failure.None?
    requires Run(r, some + [x]).seen == Run(r, others + [y]).seen
    ensures Run(r, some + [x]).tail.cursor == Run(r, others + [y]).tail.cursor
    ensures !Run(r, some + [x]).lost && !Run(r, others + [y]).lost ==>
              LastTwo(Run(r, some + [x]).returned) == LastTwo(Run(r, others + [y]).returned)
  {
    PollingIsOnePass(r, some, x);
    PollingIsOnePass(r, others, y);
  }

  lemma {:induction false} PassEndsAtLineStart(r: Format, f: Bytes, start: nat, ids: Ids)
    requires start <= |f|
    ensures var c := OnePass(r, f, start, ids).0;
            if c.discarding then c.offset == |f| else c.offset == start || f[c.offset - 1] == NEWLINE
    decreases |f| - start
  {
    var l := ReadLine(r, f, start, ids);
    if l.Line? {
      PassEndsAtLineStart(r, f, l.next, l.ids);
    }
  }

  ghost predicate IsAtLineStart(log: Log) {
    && log.tail.cursor.offset <= |log.seen|
    && (!log.tail.cursor.discarding ==>
          log.tail.cursor.offset == 0 || log.seen[log.tail.cursor.offset - 1] == NEWLINE)
  }

  lemma TrackIsAtLineStart(r: Format, log: Log, notes: seq<Notification>)
    requires OnTrack(r, log.seen, log.tail.cursor, notes)
    ensures IsAtLineStart(log)
  {
    PassEndsAtLineStart(r, log.seen[..log.tail.cursor.offset], 0, NoIds());
  }

  /** Unless a long line is being skipped, the offset is 0 or just after a newline; it is never reset. */
  lemma OffsetIsALineStart(r: Format, polls: seq<Poll>)
    requires AppendOnly(r, polls)
    ensures IsAtLineStart(Run(r, polls))
  {
    var notes := RunKeepsInv(r, polls);
    TrackIsAtLineStart(r, Run(r, polls), notes);
  }
}
