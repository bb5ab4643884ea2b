/** The monitor that polls session logs in place, one mutable cursor for each path. */
module SessionMonitors {
  import opened Common
  import opened SessionTails

  type Path = string

  /** What is left to read from a cursor, after `recovered`, ends like `whole`. */
  ghost predicate Completes(whole: (Cursor, seq<Notification>), recovered: seq<Notification>,
                            rest: (Cursor, seq<Notification>)) {
    |recovered| <= 2 && whole.0 == rest.0 && LastTwo(whole.1) == LastTwo(recovered + rest.1)
  }

  lemma PieceCompletes(r: Format, f: Stream, whole: (Cursor, seq<Notification>), recovered: seq<Notification>,
                       c: Cursor, pieces: nat, p: Piece)
    requires pieces > 0 && Completes(whole, recovered, Read(r, f, c, pieces))
    requires NextPiece(r, f.now, c) == p && p.Go?
    ensures Completes(whole, LastTwo(recovered + Listed(p.note)), Read(r, f.Next(), p.cursor, pieces - 1))
  {
    var rest := Read(r, f.Next(), p.cursor, pieces - 1).1;
    assert recovered + (Listed(p.note) + rest) == (recovered + Listed(p.note)) + rest;
    LastTwoTwice(recovered + Listed(p.note), rest);
  }

  lemma NothingLeft(r: Format, f: Stream, whole: (Cursor, seq<Notification>), recovered: seq<Notification>,
                    c: Cursor, pieces: nat)
    requires Completes(whole, recovered, Read(r, f, c, pieces))
    requires pieces == 0 || NextPiece(r, f.now, c).Stop?
    ensures whole.0 == c && LastTwo(whole.1) == recovered
  {
    assert recovered + [] == recovered;
  }

  lemma NothingYet(whole: (Cursor, seq<Notification>))
    ensures Completes(whole, [], whole)
  {
    NothingPlus(whole.1);
  }

  class SessionCursor {
    var offset: nat
    var observedSize: int
    var observedMtime: int
    var sessionId: Bytes
    var turnId: Bytes
    var discarding: bool

    constructor ()
      ensures Value() == Fresh()
    {
      offset, observedSize, observedMtime := 0, -1, -1;
      sessionId, turnId, discarding := [], [], false;
    }

    function CursorValue(): Cursor
      reads this
    {
      Cursor(offset, Ids(sessionId, turnId), discarding)
    }

    function Value(): Tail
      reads this
    {
      Tail(CursorValue(), observedSize, observedMtime)
    }

    method ReadMetadataPrefix(r: Format, raw: Bytes)
      modifies this`sessionId, this`turnId
      ensures Ids(sessionId, turnId) == SessionTails.ReadMetadataPrefix(r, raw, old(Ids(sessionId, turnId)))
    {
      var kind := r.kind(raw);
      if kind == Some(SessionMeta) {
        var found := r.sessionId(raw);
        if found != [] {
          sessionId := found;
        }
      } else if kind == Some(TurnContext) {
        var found := r.turnId(raw);
        if found != [] {
          turnId := found;
        }
      }
    }

    method ReadCompleteLine(r: Format, raw: Bytes) returns (note: Option<Notification>)
      modifies this`sessionId, this`turnId
      ensures (Ids(sessionId, turnId), note) == SessionTails.ReadCompleteLine(r, raw, old(Ids(sessionId, turnId)))
    {
      var kind := r.kind(raw);
      if kind == None {
        return None;
      }
      if kind != Some(EventMsg) {
        ReadMetadataPrefix(r, raw);
        return None;
      }
      var counters := r.counters(raw);
      if counters == None {
        return None;
      }
      var thread := sessionId;
      if thread == [] {
        thread := r.stem;
      }
      if thread == [] {
        return None;
      }
      note := Some(Notification(thread, turnId, counters.value));
    }

    /** One turn of the loop over a stream that holds `f` and stands at the cursor's offset. */
    method ReadPiece(r: Format, f: Bytes) returns (more: bool, note: Option<Notification>)
      modifies this`offset, this`sessionId, this`turnId, this`discarding
      ensures match NextPiece(r, f, old(CursorValue()))
              case Stop => !more && note == None && CursorValue() == old(CursorValue())
              case Go(next, found) => more && note == found && CursorValue() == next
    {
      var position := offset;
      var raw := if position > |f| then [] else f[position..PieceEnd(f, position, r.limit + 1)];
      if raw == [] {
        return false, None;
      }
      position := position + |raw|;
      var complete := raw[|raw| - 1] == NEWLINE;
      var oversized := |raw| > r.limit && !complete;
      if discarding {
        offset := position;
        if complete {
          discarding := false;
        }
        return true, None;
      }
      if oversized {
        ReadMetadataPrefix(r, raw);
        discarding := true;
        offset := position;
        return true, None;
      }
      if !complete {
        return false, None;
      }
      offset := position;
      note := ReadCompleteLine(r, raw);
      more := true;
    }

    /** One turn that also keeps the deque of the last two notifications. */
    method Turn(r: Format, f: Stream, recovered: seq<Notification>, ghost whole: (Cursor, seq<Notification>),
                ghost left: nat)
      returns (more: bool, kept: seq<Notification>)
      requires left > 0 && Completes(whole, recovered, Read(r, f, CursorValue(), left))
      modifies this`offset, this`sessionId, this`turnId, this`discarding
      ensures more ==> old(offset) < offset <= |f.now|
      ensures more ==> Completes(whole, kept, Read(r, f.Next(), CursorValue(), left - 1))
      ensures !more ==> whole.0 == CursorValue() == old(CursorValue()) && LastTwo(whole.1) == kept
    {
      kept := recovered;
      var note;
      ghost var before := CursorValue();
      more, note := ReadPiece(r, f.now);
      if more {
        PieceCompletes(r, f, whole, recovered, before, left, Go(CursorValue(), note));
        kept := LastTwo(recovered + Listed(note));
      } else {
        NothingLeft(r, f, whole, recovered, before, left);
      }
    }
  }

  class UsageMonitor {
    const format: Format
    const stems: Path -> Bytes
    var cursors: map<Path, SessionCursor>

    constructor (format: Format, stems: Path -> Bytes)
      ensures Valid() && cursors == map[]
      ensures this.format == format.(limit := MAX_SESSION_LINE_BYTES) && this.stems == stems
    {
      this.format := format.(limit := MAX_SESSION_LINE_BYTES);
      this.stems := stems;
      cursors := map[];
    }

    /** No two paths share a cursor. */
    ghost predicate Valid()
      reads this
    {
      forall p, q :: p in cursors && q in cursors && p != q ==> cursors[p] != cursors[q]
    }

    ghost function TailOf(path: Path): Tail
      reads this, cursors.Values
    {
      if path in cursors then cursors[path].Value() else Fresh()
    }

    function FormatOf(path: Path): Format {
      format.(stem := stems(path))
    }

    /** The loop over the stream: reads until it ends, or until an error after `Pieces(poll)` pieces. */
    method Drain(r: Format, cursor: SessionCursor, poll: Poll) returns (recovered: seq<Notification>)
      requires poll.Stat?
      modifies cursor`offset, cursor`sessionId, cursor`turnId, cursor`discarding
      ensures var whole := Read(r, poll.contents, old(cursor.CursorValue()), Pieces(poll));
              cursor.CursorValue() == whole.0 && recovered == if poll.failure.Some? then [] else LastTwo(whole.1)
    {
      var budget := Pieces(poll);
      NothingYet(Read(r, poll.contents, cursor.CursorValue(), budget));
      recovered := ReadPieces(r, cursor, poll.contents, budget,
                              Read(r, poll.contents, cursor.CursorValue(), budget));
      if poll.failure.Some? {
        recovered := [];
      }
    }

    method ReadPieces(r: Format, cursor: SessionCursor, contents: Stream, budget: nat,
                      ghost whole: (Cursor, seq<Notification>))
      returns (recovered: seq<Notification>)
      requires Completes(whole, [], Read(r, contents, cursor.CursorValue(), budget))
      modifies cursor`offset, cursor`sessionId, cursor`turnId, cursor`discarding
      ensures whole.0 == cursor.CursorValue() && LastTwo(whole.1) == recovered
    {
      recovered := [];
      var left, f := budget, contents;
      var more := true;
      while more && left > 0
        invariant 0 <= left <= budget
        invariant more ==> Completes(whole, recovered, Read(r, f, cursor.CursorValue(), left))
        invariant !more ==> whole.0 == cursor.CursorValue() && LastTwo(whole.1) == recovered
        decreases more, left
      {
        more, recovered := cursor.Turn(r, f, recovered, whole, left);
        if more {
          left, f := left - 1, f.Next();
        }
      }
      if more {
        NothingLeft(r, f, whole, recovered, cursor.CursorValue(), 0);
      }
    }

    /** `setdefault`: every tail stays as it was. */
    method CursorOf(path: Path) returns (cursor: SessionCursor)
      requires Valid()
      modifies this`cursors
      ensures Valid() && path in cursors && cursor == cursors[path]
      ensures cursor.Value() == old(TailOf(path))
      ensures if path in old(cursors) then cursors == old(cursors)
              else fresh(cursor) && cursors == old(cursors)[path := cursor]
    {
      if path !in cursors {
        var created := new SessionCursor();
        cursors := cursors[path := created];
      }
      cursor := cursors[path];
    }

    /** A file shorter than before gets a cursor of its own anew. */
    method OpenedCursor(path: Path, size: int) returns (cursor: SessionCursor)
      requires Valid() && path in cursors
      modifies this`cursors
      ensures Valid() && path in cursors && cursor == cursors[path]
      ensures cursor.Value() == Opened(old(TailOf(path)), size)
      ensures if size >= old(cursors)[path].offset then cursors == old(cursors)
              else fresh(cursor) && cursors == old(cursors)[path := cursor]
    {
      cursor := cursors[path];
      if size < cursor.offset {
        cursor := new SessionCursor();
        cursors := cursors[path := cursor];
      }
    }

    method ReadPath(path: Path, poll: Poll) returns (recovered: seq<Notification>)
      requires Valid()
      modifies this`cursors, cursors.Values
      ensures Valid()
      ensures (TailOf(path), recovered) == AfterPoll(FormatOf(path), old(TailOf(path)), poll)
      ensures forall other :: other != path ==> TailOf(other) == old(TailOf(other))
    {
      var cursor := CursorOf(path);
      if poll.StatFails? {
        return [];
      }
      if poll.size == cursor.observedSize && poll.mtime == cursor.observedMtime {
        return [];
      }
      cursor := OpenedCursor(path, poll.size);
      recovered := ReadInto(cursor, FormatOf(path), poll);
    }

    method ReadInto(cursor: SessionCursor, r: Format, poll: Poll) returns (recovered: seq<Notification>)
      requires poll.Stat?
      modifies cursor
      ensures var before := old(cursor.Value());
              var (c, notes) := Read(r, poll.contents, before.cursor, Pieces(poll));
              (cursor.Value(), recovered)
              == if poll.failure.Some? then (before.(cursor := c), [])
                 else (Tail(c, poll.size, poll.mtime), LastTwo(notes))
    {
      recovered := Drain(r, cursor, poll);
      if poll.failure.None? {
        cursor.observedSize := poll.size;
        cursor.observedMtime := poll.mtime;
      }
    }
  }
}
