/**
  What a session log means, told from the list of its lines (bridge/agent/cardbridge/session_usage.py): each
  counter record is reported under the session and turn named last before it.
 */
module SessionLines {
  import opened Common
  import opened SessionTails

  /** A line ends with its only newline. */
  ghost predicate IsLine(line: Bytes) {
    IsComplete(line) && forall i :: 0 <= i < |line| - 1 ==> line[i] != NEWLINE
  }

  ghost predicate AreLines(lines: seq<Bytes>) {
    forall i :: 0 <= i < |lines| ==> IsLine(lines[i])
  }

  function Joined(lines: seq<Bytes>): Bytes {
    if lines == [] then [] else lines[0] + Joined(lines[1..])
  }

  predicate IsLong(r: Format, line: Bytes) {
    |line| > r.limit + 1
  }

  /** What is looked at of a line: all of it, or the first bytes of a long one. */
  function Head(r: Format, line: Bytes): Bytes {
    if IsLong(r, line) then line[..r.limit + 1] else line
  }

  predicate NamesSession(r: Format, line: Bytes) {
    r.kind(Head(r, line)) == Some(SessionMeta) && r.sessionId(Head(r, line)) != []
  }

  predicate NamesTurn(r: Format, line: Bytes) {
    r.kind(Head(r, line)) == Some(TurnContext) && r.turnId(Head(r, line)) != []
  }

  /** The session named last, or none. */
  function LastSession(r: Format, lines: seq<Bytes>): Bytes {
    if lines == [] then []
    else
      var line := lines[|lines| - 1];
      if NamesSession(r, line) then r.sessionId(Head(r, line)) else LastSession(r, lines[..|lines| - 1])
  }

  /** The turn named last, or none. */
  function LastTurn(r: Format, lines: seq<Bytes>): Bytes {
    if lines == [] then []
    else
      var line := lines[|lines| - 1];
      if NamesTurn(r, line) then r.turnId(Head(r, line)) else LastTurn(r, lines[..|lines| - 1])
  }

  /** The name counters are reported under after `lines`: the session's, or the file's. */
  function ThreadAfter(r: Format, lines: seq<Bytes>): Bytes {
    if LastSession(r, lines) != [] then LastSession(r, lines) else r.stem
  }

  /** A line of counters, not too long, reported under some name. */
  predicate IsReported(r: Format, lines: seq<Bytes>, line: Bytes) {
    !IsLong(r, line) && r.kind(line) == Some(EventMsg) && r.counters(line).Some? && ThreadAfter(r, lines) != []
  }

  /** The report of every line of counters, in order. */
  function Reports(r: Format, lines: seq<Bytes>): seq<Notification> {
    if lines == [] then []
    else
      var front, line := lines[..|lines| - 1], lines[|lines| - 1];
      if !IsReported(r, front, line) then Reports(r, front)
      else Reports(r, front) + [Notification(ThreadAfter(r, front), LastTurn(r, front), r.counters(line).value)]
  }

  lemma {:induction false} NewlineOfLine(f: Bytes, start: nat, line: Bytes, pos: nat)
    requires IsLine(line) && start <= pos < start + |line| <= |f| && f[start..start + |line|] == line
    ensures NextNewline(f, pos) == start + |line| - 1
    decreases start + |line| - pos
  {
    assert f[pos] == line[pos - start];
    if pos < start + |line| - 1 {
      NewlineOfLine(f, start, line, pos + 1);
    }
  }

  function IdsAfter(r: Format, lines: seq<Bytes>): Ids {
    Ids(LastSession(r, lines), LastTurn(r, lines))
  }

  /** What one more line reports. */
  function Report(r: Format, lines: seq<Bytes>, line: Bytes): seq<Notification> {
    if !IsReported(r, lines, line) then []
    else [Notification(ThreadAfter(r, lines), LastTurn(r, lines), r.counters(line).value)]
  }

  // ---- The pass, line by line ------------------------------------------------------------

  function IdsOf(r: Format, ids: Ids, line: Bytes): Ids {
    if IsLong(r, line) then ReadMetadataPrefix(r, Head(r, line), ids) else ReadCompleteLine(r, line, ids).0
  }

  function NotesOf(r: Format, ids: Ids, line: Bytes): seq<Notification> {
    if IsLong(r, line) then [] else Listed(ReadCompleteLine(r, line, ids).1)
  }

  /** The ids and notifications that come of some lines, from given ids on. */
  function Folded(r: Format, ids: Ids, lines: seq<Bytes>): (Ids, seq<Notification>)
    decreases |lines|
  {
    if lines == [] then (ids, [])
    else
      var (last, more) := Folded(r, IdsOf(r, ids, lines[0]), lines[1..]);
      (last, NotesOf(r, ids, lines[0]) + more)
  }

  lemma LineIsRead(r: Format, f: Bytes, start: nat, ids: Ids, line: Bytes)
    requires IsLine(line) && start + |line| <= |f| && f[start..start + |line|] == line
    ensures ReadLine(r, f, start, ids) == Line(start + |line|, IdsOf(r, ids, line), NotesOf(r, ids, line))
  {
    NewlineOfLine(f, start, line, start);
    if IsLong(r, line) {
      assert f[start..start + r.limit + 1] == Head(r, line);
    }
  }

  lemma PassUnfolds(r: Format, f: Bytes, start: nat, ids: Ids, l: Line)
    requires start <= |f| && l == ReadLine(r, f, start, ids) && l.Line?
    ensures var rest := OnePass(r, f, l.next, l.ids);
            OnePass(r, f, start, ids) == (rest.0, l.notes + rest.1)
  {
  }

  lemma {:induction false} PassFolds(r: Format, f: Bytes, start: nat, ids: Ids, rest: seq<Bytes>)
    requires AreLines(rest) && start <= |f| && f[start..] == Joined(rest)
    ensures OnePass(r, f, start, ids) == (Cursor(|f|, Folded(r, ids, rest).0, false), Folded(r, ids, rest).1)
    decreases |rest|
  {
    if rest != [] {
      var line := rest[0];
      JoinedStarts(f, start, rest);
      LineIsRead(r, f, start, ids, line);
      PassUnfolds(r, f, start, ids, Line(start + |line|, IdsOf(r, ids, line), NotesOf(r, ids, line)));
      PassFolds(r, f, start + |line|, IdsOf(r, ids, line), rest[1..]);
    }
  }

  lemma JoinedStarts(f: Bytes, start: nat, rest: seq<Bytes>)
    requires rest != [] && start <= |f| && f[start..] == Joined(rest)
    ensures start + |rest[0]| <= |f| && f[start..start + |rest[0]|] == rest[0]
    ensures f[start + |rest[0]|..] == Joined(rest[1..])
  {
    assert f[start..start + |rest[0]|] == f[start..][..|rest[0]|];
    assert f[start + |rest[0]|..] == f[start..][|rest[0]|..];
  }

  // ---- What the lines so far come to -----------------------------------------------------

  lemma LineReports(r: Format, before: seq<Bytes>, line: Bytes)
    ensures IdsOf(r, IdsAfter(r, before), line) == IdsAfter(r, before + [line])
    ensures NotesOf(r, IdsAfter(r, before), line) == Report(r, before, line)
  {
    assert (before + [line])[..|before|] == before;
  }

  lemma ReportsAppend(r: Format, before: seq<Bytes>, line: Bytes)
    ensures Reports(r, before + [line]) == Reports(r, before) + Report(r, before, line)
  {
    assert (before + [line])[..|before|] == before;
  }

  /** `p` is what the lines after those before come to. */
  ghost predicate Completes(r: Format, before: seq<Bytes>, all: seq<Bytes>, p: (Ids, seq<Notification>)) {
    p.0 == IdsAfter(r, all) && Reports(r, before) + p.1 == Reports(r, all)
  }

  lemma CompletesOn(r: Format, before: seq<Bytes>, line: Bytes, all: seq<Bytes>, rest: (Ids, seq<Notification>),
                    notes: seq<Notification>)
    requires Completes(r, before + [line], all, rest) && notes == Report(r, before, line)
    ensures Completes(r, before, all, (rest.0, notes + rest.1))
  {
    ReportsAppend(r, before, line);
    SumAssociates(Reports(r, before), notes, rest.1);
  }

  lemma NothingMore(r: Format, before: seq<Bytes>)
    ensures Completes(r, before, before, (IdsAfter(r, before), []))
  {
    assert Reports(r, before) + [] == Reports(r, before);
  }

  lemma {:induction false} FoldReports(r: Format, before: seq<Bytes>, rest: seq<Bytes>, ids: Ids)
    requires ids == IdsAfter(r, before)
    ensures Completes(r, before, before + rest, Folded(r, ids, rest))
    decreases |rest|
  {
    if rest == [] {
      assert before + rest == before;
      NothingMore(r, before);
    } else {
      var line := rest[0];
      LineReports(r, before, line);
      assert (before + [line]) + rest[1..] == before + rest;
      FoldReports(r, before + [line], rest[1..], IdsOf(r, ids, line));
      CompletesOn(r, before, line, before + rest, Folded(r, IdsOf(r, ids, line), rest[1..]), NotesOf(r, ids, line));
    }
  }

  /**
    The pass over a file of lines reports each line of counters, in order, under the session named last
    before it (the file's name if there is none) and the turn named last, and ends with the ids named last.
    A line past the limit names a session or turn in its first bytes, and reports nothing.
   */
  lemma FileReports(r: Format, lines: seq<Bytes>)
    requires AreLines(lines)
    ensures OnePass(r, Joined(lines), 0, NoIds())
            == (Cursor(|Joined(lines)|, Ids(LastSession(r, lines), LastTurn(r, lines)), false), Reports(r, lines))
  {
    assert Joined(lines)[0..] == Joined(lines);
    PassFolds(r, Joined(lines), 0, NoIds(), lines);
    FoldReports(r, [], lines, NoIds());
    assert [] + lines == lines;
    NothingPlus(Folded(r, NoIds(), lines).1);
  }
}
