/**
  The pet's frames: packed row by row into runs (tools/pack_pet.py) and drawn from them at any
  size (firmware/m5stack-cardputer-adv/src/pet_renderer.cpp).
 */
module PetRles {

  const WIDTH := 72
  const HEIGHT := 72
  const PIXELS := WIDTH * HEIGHT
  const PALETTE_SIZE := 16
  const MAX_RUN := 255

  /** `length` pixels of colour `value`; colour 0 is transparent. */
  datatype Run = Run(length: nat, value: nat)

  type Image = s: seq<nat> | |s| == PIXELS witness seq(PIXELS, _ => 0)

  // ---- Packing ---------------------------------------------------------------------------

  /** Where the run that begins `s`, and reaches `end` at least, ends. */
  function RunEnd(s: seq<nat>, end: nat): (e: nat)
    requires 0 < end <= |s| && end <= MAX_RUN
    requires forall i :: 0 <= i < end ==> s[i] == s[0]
    ensures end <= e <= |s| && e <= MAX_RUN
    ensures forall i :: 0 <= i < e ==> s[i] == s[0]
    ensures e < |s| && e < MAX_RUN ==> s[e] != s[0]
    decreases |s| - end
  {
    if end < |s| && s[end] == s[0] && end < MAX_RUN then RunEnd(s, end + 1) else end
  }

  /** The runs of one row, or of what is left of it. */
  function RowRuns(row: seq<nat>): seq<Run>
    decreases |row|
  {
    if row == [] then []
    else
      var end := RunEnd(row, 1);
      [Run(end, row[0])] + RowRuns(row[end..])
  }

  function Row(image: Image, y: nat): (row: seq<nat>)
    requires y < HEIGHT
    ensures |row| == WIDTH
  {
    image[y * WIDTH..y * WIDTH + WIDTH]
  }

  function Rows(image: Image): (rows: seq<seq<nat>>)
    ensures |rows| == HEIGHT && forall y :: 0 <= y < HEIGHT ==> rows[y] == Row(image, y)
  {
    seq(HEIGHT, y requires 0 <= y < HEIGHT => Row(image, y))
  }

  function Runs(rows: seq<seq<nat>>): seq<Run> {
    if rows == [] then [] else RowRuns(rows[0]) + Runs(rows[1..])
  }

  function Packed(image: Image): seq<Run> {
    Runs(Rows(image))
  }

  function Encoded(runs: seq<Run>): (bytes: seq<nat>)
    ensures |bytes| == 2 * |runs|
  {
    if runs == [] then [] else [runs[0].length, runs[0].value] + Encoded(runs[1..])
  }

  // ---- Unpacking -------------------------------------------------------------------------

  function Repeated(value: nat, length: nat): (s: seq<nat>)
    ensures |s| == length && forall i :: 0 <= i < length ==> s[i] == value
  {
    seq(length, _ => value)
  }

  function Decoded(runs: seq<Run>): seq<nat> {
    if runs == [] then [] else Repeated(runs[0].value, runs[0].length) + Decoded(runs[1..])
  }

  function NextColumn(column: nat, length: nat): nat {
    if column + length == WIDTH then 0 else column + length
  }

  /** No run is empty, too long for a byte, or crosses the end of a row; the first is at `column`. */
  predicate InRows(runs: seq<Run>, column: nat) {
    runs == []
    || (1 <= runs[0].length <= MAX_RUN && column + runs[0].length <= WIDTH
        && InRows(runs[1..], NextColumn(column, runs[0].length)))
  }

  lemma {:induction false} DecodedOfSum(a: seq<Run>, b: seq<Run>)
    ensures Decoded(a + b) == Decoded(a) + Decoded(b)
  {
    if a == [] {
      assert a + b == b;
    } else {
      assert (a + b)[1..] == a[1..] + b;
      DecodedOfSum(a[1..], b);
    }
  }

  lemma {:induction false} EncodedOfSum(a: seq<Run>, b: seq<Run>)
    ensures Encoded(a + b) == Encoded(a) + Encoded(b)
  {
    if a == [] {
      assert a + b == b;
    } else {
      assert (a + b)[1..] == a[1..] + b;
      EncodedOfSum(a[1..], b);
    }
  }

  lemma FirstIsDecoded(run: Run, rest: seq<Run>)
    ensures Decoded([run] + rest) == Repeated(run.value, run.length) + Decoded(rest)
  {
    assert ([run] + rest)[1..] == rest;
  }

  lemma RunIsRepeated(row: seq<nat>, end: nat)
    requires 0 < end <= |row| && forall i :: 0 <= i < end ==> row[i] == row[0]
    ensures row == Repeated(row[0], end) + row[end..]
  {
  }

  lemma {:induction false} RowIsDecoded(row: seq<nat>)
    ensures Decoded(RowRuns(row)) == row
    decreases |row|
  {
    if row != [] {
      var end := RunEnd(row, 1);
      RowIsDecoded(row[end..]);
      FirstIsDecoded(Run(end, row[0]), RowRuns(row[end..]));
      RunIsRepeated(row, end);
    }
  }

  function Concatenated(rows: seq<seq<nat>>): seq<nat> {
    if rows == [] then [] else rows[0] + Concatenated(rows[1..])
  }

  lemma {:induction false} RowsAreDecoded(rows: seq<seq<nat>>)
    ensures Decoded(Runs(rows)) == Concatenated(rows)
  {
    if rows != [] {
      RowIsDecoded(rows[0]);
      RowsAreDecoded(rows[1..]);
      DecodedOfSum(RowRuns(rows[0]), Runs(rows[1..]));
    }
  }

  lemma RowJoinsRest(image: Image, y: nat)
    requires y < HEIGHT
    ensures Row(image, y) + image[y * WIDTH + WIDTH..] == image[y * WIDTH..]
  {
  }

  lemma {:induction false} RowsMakeImage(image: Image, y: nat)
    requires y <= HEIGHT
    ensures Concatenated(Rows(image)[y..]) == image[y * WIDTH..]
    decreases HEIGHT - y
  {
    if y < HEIGHT {
      RowsMakeImage(image, y + 1);
      assert Rows(image)[y..][1..] == Rows(image)[y + 1..];
      RowJoinsRest(image, y);
    } else {
      assert image[y * WIDTH..] == [];
    }
  }

  lemma {:induction false} RowStaysInRow(row: seq<nat>, column: nat, rest: seq<Run>)
    requires row != [] && column + |row| == WIDTH && InRows(rest, 0)
    ensures InRows(RowRuns(row) + rest, column)
    decreases |row|
  {
    var end := RunEnd(row, 1);
    var runs := RowRuns(row);
    assert (runs + rest)[0] == Run(end, row[0]);
    assert (runs + rest)[1..] == RowRuns(row[end..]) + rest;
    if end == |row| {
      assert [] + rest == rest;
    } else {
      RowStaysInRow(row[end..], column + end, rest);
    }
  }

  lemma {:induction false} RowsStayInRows(rows: seq<seq<nat>>)
    requires forall i :: 0 <= i < |rows| ==> |rows[i]| == WIDTH
    ensures InRows(Runs(rows), 0)
  {
    if rows != [] {
      RowsStayInRows(rows[1..]);
      RowStaysInRow(rows[0], 0, Runs(rows[1..]));
    }
  }

  /** Neighbouring runs of a row differ in colour: no run could be longer. */
  lemma {:induction false} RunsAreMaximal(row: seq<nat>, i: nat)
    requires |row| <= WIDTH && i + 1 < |RowRuns(row)|
    ensures RowRuns(row)[i].value != RowRuns(row)[i + 1].value
    decreases i
  {
    var end := RunEnd(row, 1);
    assert RowRuns(row)[1..] == RowRuns(row[end..]);
    if i > 0 {
      RunsAreMaximal(row[end..], i - 1);
    }
  }

  lemma {:induction false} RunsAreFew(runs: seq<Run>, column: nat)
    requires InRows(runs, column)
    ensures |runs| <= |Decoded(runs)|
  {
    if runs != [] {
      RunsAreFew(runs[1..], NextColumn(column, runs[0].length));
    }
  }

  /** Packing loses nothing, keeps every run within its row, and fits a 16-bit length. */
  lemma PackingRoundTrips(image: Image)
    ensures Decoded(Packed(image)) == image
    ensures InRows(Packed(image), 0)
    ensures |Encoded(Packed(image))| < 0x1_0000
  {
    RowsAreDecoded(Rows(image));
    var y := 0;
    RowsMakeImage(image, y);
    assert Rows(image)[y..] == Rows(image) && image[y * WIDTH..] == image;
    RowsStayInRows(Rows(image));
    RunsAreFew(Packed(image), 0);
  }

  lemma FirstRun(row: seq<nat>)
    requires row != []
    ensures var end := RunEnd(row, 1);
            Encoded(RowRuns(row)) == [end, row[0]] + Encoded(RowRuns(row[end..]))
  {
    assert RowRuns(row)[1..] == RowRuns(row[RunEnd(row, 1)..]);
  }

  /** What is encoded so far, and what is left, make up the whole. */
  ghost predicate Completes(sofar: seq<nat>, left: seq<nat>, whole: seq<nat>) {
    sofar + left == whole
  }

  lemma Moves(sofar: seq<nat>, first: seq<nat>, rest: seq<nat>, whole: seq<nat>)
    requires Completes(sofar, first + rest, whole)
    ensures Completes(sofar + first, rest, whole)
  {
  }

  /** The runs of one row, appended to what is encoded so far. */
  method PackRow(row: seq<nat>, sofar: seq<nat>) returns (encoded: seq<nat>)
    requires |row| == WIDTH
    ensures encoded == sofar + Encoded(RowRuns(row))
  {
    encoded := sofar;
    var start := 0;
    ghost var whole := sofar + Encoded(RowRuns(row));
    assert row[0..] == row;
    while start < WIDTH
      invariant start <= WIDTH && Completes(encoded, Encoded(RowRuns(row[start..])), whole)
    {
      var end := FindRunEnd(row, start);
      ghost var left := row[start..];
      FirstRun(left);
      assert left[end - start..] == row[end..];
      Moves(encoded, [end - start, row[start]], Encoded(RowRuns(row[end..])), whole);
      encoded := encoded + [end - start, row[start]];
      start := end;
    }
  }

  method FindRunEnd(row: seq<nat>, start: nat) returns (end: nat)
    requires start < |row|
    ensures end == start + RunEnd(row[start..], 1)
  {
    var value := row[start];
    end := start + 1;
    while end < |row| && row[end] == value && end - start < MAX_RUN
      invariant start < end <= |row| && end - start <= MAX_RUN
      invariant forall i :: start <= i < end ==> row[i] == value
      invariant RunEnd(row[start..], end - start) == RunEnd(row[start..], 1)
    {
      end := end + 1;
    }
  }

  lemma FirstRow(rows: seq<seq<nat>>)
    requires rows != []
    ensures Encoded(Runs(rows)) == Encoded(RowRuns(rows[0])) + Encoded(Runs(rows[1..]))
  {
    EncodedOfSum(RowRuns(rows[0]), Runs(rows[1..]));
  }

  method RowRle(indices: Image) returns (encoded: seq<nat>)
    ensures encoded == Encoded(Packed(indices))
  {
    encoded := [];
    ghost var whole, rows := Encoded(Packed(indices)), Rows(indices);
    assert rows[0..] == rows;
    for y := 0 to HEIGHT
      invariant Completes(encoded, Encoded(Runs(rows[y..])), whole)
    {
      FirstRow(rows[y..]);
      assert rows[y..][1..] == rows[y + 1..];
      Moves(encoded, Encoded(RowRuns(rows[y])), Encoded(Runs(rows[y + 1..])), whole);
      encoded := PackRow(Row(indices, y), encoded);
    }
  }
}
