/** Drawing a packed frame at any size: every target pixel comes from exactly one source pixel. */
module PetDrawings {
  import opened Common
  import opened PetRles

  type Colour = nat

  /** The canvas, as the colour at each point; drawing outside the screen is not clipped. */
  type Canvas = (int, int) -> Colour

  type Palette = p: seq<Colour> | |p| == PALETTE_SIZE witness seq(PALETTE_SIZE, _ => 0)

  /** Where a frame is drawn, and how large. */
  datatype Place = Place(x: int, y: int, size: nat)

  function FillRect(canvas: Canvas, x: int, y: int, w: nat, h: nat, colour: Colour): Canvas {
    (i, j) => if x <= i < x + w && y <= j < y + h then colour else canvas(i, j)
  }

  /** The target coordinate at which source coordinate `k` begins. */
  function Begins(k: nat, size: nat): nat {
    k * size / WIDTH
  }

  function AtLeastOne(n: int): nat {
    if n < 1 then 1 else n
  }

  /** How far n source coordinates from `k` on reach: never nothing. */
  function Extent(k: nat, n: nat, size: nat): nat {
    AtLeastOne(Begins(k + n, size) - Begins(k, size))
  }

  function DrawCells(canvas: Canvas, row: nat, column: nat, length: nat, p: Place, colour: Colour): Canvas {
    FillRect(canvas, p.x + Begins(column, p.size), p.y + Begins(row, p.size),
             Extent(column, length, p.size), Extent(row, 1, p.size), colour)
  }

  /** Draws one run, which begins at `pixel` of the source. */
  function DrawRun(canvas: Canvas, palette: Palette, run: Run, pixel: nat, p: Place): Canvas
    requires run.value < PALETTE_SIZE
  {
    var row, column := pixel / WIDTH, pixel % WIDTH;
    if run.value == 0 then canvas
    else if p.size == WIDTH then
      FillRect(canvas, p.x + column, p.y + row, run.length, 1, palette[run.value])
    else DrawCells(canvas, row, column, run.length, p, palette[run.value])
  }

  predicate Coloured(runs: seq<Run>) {
    forall i :: 0 <= i < |runs| ==> runs[i].value < PALETTE_SIZE
  }

  function DrawRuns(canvas: Canvas, palette: Palette, runs: seq<Run>, pixel: nat, p: Place): Canvas
    requires Coloured(runs)
    decreases |runs|
  {
    if runs == [] || pixel >= PIXELS then canvas
    else DrawRuns(DrawRun(canvas, palette, runs[0], pixel, p), palette, runs[1..], pixel + runs[0].length, p)
  }

  // ---- The tiling ------------------------------------------------------------------------

  /** The one source coordinate whose interval holds target coordinate `t`. */
  function Cell(t: nat, size: nat): nat
    requires size > 0
  {
    (WIDTH * t + WIDTH - 1) / size
  }

  lemma ProductAtMost(k: nat, size: nat, m: nat)
    requires size > 0
    ensures k * size <= m <==> k <= m / size
  {
    var q := m / size;
    assert q * size <= m < (q + 1) * size;
    if k <= q {
      assert k * size <= q * size;
    } else {
      assert (q + 1) * size <= k * size;
    }
  }

  lemma QuotientAtMost(a: nat, t: nat)
    ensures a / WIDTH <= t <==> a <= WIDTH * t + WIDTH - 1
  {
  }

  lemma CellBegins(k: nat, t: nat, size: nat)
    requires size > 0
    ensures Begins(k, size) <= t <==> k <= Cell(t, size)
  {
    QuotientAtMost(k * size, t);
    ProductAtMost(k, size, WIDTH * t + WIDTH - 1);
  }

  lemma CellIsInside(t: nat, size: nat)
    requires t < size
    ensures Cell(t, size) < WIDTH
  {
    CellBegins(WIDTH, t, size);
    assert Begins(WIDTH, size) == size;
  }

  /** The intervals of the source coordinates tile the target: each target coordinate is in one. */
  lemma CellsTile(t: nat, size: nat, k: nat)
    requires t < size
    ensures Begins(k, size) <= t < Begins(k + 1, size) <==> k == Cell(t, size)
  {
    CellBegins(k, t, size);
    CellBegins(k + 1, t, size);
  }

  /** At this size and above no interval is empty, so none has to be widened. */
  lemma CellsAreNotEmpty(k: nat, n: nat, size: nat)
    requires size >= WIDTH && n >= 1
    ensures Extent(k, n, size) == Begins(k + n, size) - Begins(k, size)
  {
    var b := Begins(k, size);
    CellBegins(k, b, size);
    CellBegins(k + n, b, size);
    assert n * size >= size >= WIDTH;
    assert (k + n) * size == k * size + n * size;
    QuotientAtMost(k * size, b);
    assert (k + n) * size >= k * size + WIDTH;
  }

  // ---- One run ---------------------------------------------------------------------------

  /** The source pixel that target point (tx, ty) shows. */
  function Source(tx: nat, ty: nat, size: nat): nat
    requires size > 0
  {
    Cell(ty, size) * WIDTH + Cell(tx, size)
  }

  /** `after` is `before`, with the colour of one run where the target shows its pixels. */
  ghost predicate Paints(before: Canvas, after: Canvas, palette: Palette, run: Run, pixel: nat, p: Place)
    requires run.value < PALETTE_SIZE && p.size > 0
  {
    forall tx: nat, ty: nat :: tx < p.size && ty < p.size ==>
      after(p.x + tx, p.y + ty)
      == if run.value != 0 && pixel <= Source(tx, ty, p.size) < pixel + run.length then palette[run.value]
         else before(p.x + tx, p.y + ty)
  }

  lemma InRun(row: nat, column: nat, length: nat, sx: nat, sy: nat)
    requires column + length <= WIDTH && sx < WIDTH
    ensures row * WIDTH + column <= sy * WIDTH + sx < row * WIDTH + column + length
            <==> sy == row && column <= sx < column + length
  {
  }

  lemma SameSize(k: nat)
    ensures Begins(k, WIDTH) == k
  {
  }

  /** The rectangle filled for a run, in terms of the coordinates it begins and ends at. */
  ghost predicate Covers(tx: int, ty: int, row: nat, column: nat, length: nat, size: nat) {
    Begins(column, size) <= tx < Begins(column + length, size) && Begins(row, size) <= ty < Begins(row + 1, size)
  }

  lemma DrawRunFills(canvas: Canvas, palette: Palette, run: Run, row: nat, column: nat, p: Place, i: int, j: int)
    requires run.value < PALETTE_SIZE && p.size >= WIDTH && run.length >= 1 && column < WIDTH
    ensures DrawRun(canvas, palette, run, row * WIDTH + column, p)(i, j)
            == if run.value != 0 && Covers(i - p.x, j - p.y, row, column, run.length, p.size) then palette[run.value]
               else canvas(i, j)
  {
    assert (row * WIDTH + column) / WIDTH == row && (row * WIDTH + column) % WIDTH == column;
    CellsAreNotEmpty(column, run.length, p.size);
    CellsAreNotEmpty(row, 1, p.size);
    SameSize(column);
    SameSize(column + run.length);
    SameSize(row);
    SameSize(row + 1);
  }

  lemma CoversIsSource(tx: nat, ty: nat, row: nat, column: nat, length: nat, size: nat)
    requires tx < size && ty < size && column + length <= WIDTH
    ensures Covers(tx, ty, row, column, length, size)
            <==> row * WIDTH + column <= Source(tx, ty, size) < row * WIDTH + column + length
  {
    CellBegins(column, tx, size);
    CellBegins(column + length, tx, size);
    CellBegins(row, ty, size);
    CellBegins(row + 1, ty, size);
    CellIsInside(tx, size);
    InRun(row, column, length, Cell(tx, size), Cell(ty, size));
  }

  lemma RunPaints(canvas: Canvas, palette: Palette, run: Run, row: nat, column: nat, p: Place)
    requires run.value < PALETTE_SIZE && p.size >= WIDTH && run.length >= 1 && column < WIDTH
    requires column + run.length <= WIDTH
    ensures Paints(canvas, DrawRun(canvas, palette, run, row * WIDTH + column, p), palette, run,
                   row * WIDTH + column, p)
  {
    forall tx: nat, ty: nat | tx < p.size && ty < p.size
      ensures DrawRun(canvas, palette, run, row * WIDTH + column, p)(p.x + tx, p.y + ty)
              == if run.value != 0
                    && row * WIDTH + column <= Source(tx, ty, p.size) < row * WIDTH + column + run.length
                 then palette[run.value]
                 else canvas(p.x + tx, p.y + ty)
    {
      DrawRunFills(canvas, palette, run, row, column, p, p.x + tx, p.y + ty);
      CoversIsSource(tx, ty, row, column, run.length, p.size);
    }
  }

  /** Nothing is drawn outside the target square. */
  ghost predicate LeavesRest(before: Canvas, after: Canvas, p: Place) {
    forall i: int, j: int :: !(p.x <= i < p.x + p.size && p.y <= j < p.y + p.size) ==> after(i, j) == before(i, j)
  }

  lemma EndsInside(k: nat, size: nat)
    requires k <= WIDTH
    ensures Begins(k, size) <= size
  {
    assert k * size <= WIDTH * size;
  }

  lemma RunLeavesRest(canvas: Canvas, palette: Palette, run: Run, row: nat, column: nat, p: Place)
    requires run.value < PALETTE_SIZE && p.size >= WIDTH && run.length >= 1 && column < WIDTH
    requires column + run.length <= WIDTH && row < HEIGHT
    ensures LeavesRest(canvas, DrawRun(canvas, palette, run, row * WIDTH + column, p), p)
  {
    EndsInside(column + run.length, p.size);
    EndsInside(row + 1, p.size);
    forall i: int, j: int | !(p.x <= i < p.x + p.size && p.y <= j < p.y + p.size)
      ensures DrawRun(canvas, palette, run, row * WIDTH + column, p)(i, j) == canvas(i, j)
    {
      DrawRunFills(canvas, palette, run, row, column, p, i, j);
    }
  }

  // ---- A frame ---------------------------------------------------------------------------

  /** The colour that the pixels from `pixel` on give source pixel `q`, over the colour that was there. */
  function Shown(pixels: seq<nat>, pixel: nat, q: int, palette: Palette, under: Colour): Colour
    requires forall i :: 0 <= i < |pixels| ==> pixels[i] < PALETTE_SIZE
  {
    if pixel <= q < pixel + |pixels| && pixels[q - pixel] != 0 then palette[pixels[q - pixel]] else under
  }

  lemma {:induction false} DecodedIsColoured(runs: seq<Run>)
    requires Coloured(runs)
    ensures forall i :: 0 <= i < |Decoded(runs)| ==> Decoded(runs)[i] < PALETTE_SIZE
  {
    if runs != [] {
      assert Coloured(runs[1..]);
      DecodedIsColoured(runs[1..]);
    }
  }

  lemma NextPlace(pixel: nat, length: nat)
    requires pixel % WIDTH + length <= WIDTH
    ensures (pixel + length) % WIDTH == NextColumn(pixel % WIDTH, length)
  {
  }

  lemma ShownOfSum(first: seq<nat>, rest: seq<nat>, pixel: nat, q: int, palette: Palette, under: Colour)
    requires forall i :: 0 <= i < |first| ==> first[i] < PALETTE_SIZE
    requires forall i :: 0 <= i < |rest| ==> rest[i] < PALETTE_SIZE
    ensures forall i :: 0 <= i < |first + rest| ==> (first + rest)[i] < PALETTE_SIZE
    ensures Shown(first + rest, pixel, q, palette, under)
            == Shown(rest, pixel + |first|, q, palette, Shown(first, pixel, q, palette, under))
  {
    var all := first + rest;
    forall i | 0 <= i < |all| ensures all[i] == if i < |first| then first[i] else rest[i - |first|] {
    }
  }

  lemma ShownOfRun(run: Run, pixel: nat, q: int, palette: Palette, under: Colour)
    requires run.value < PALETTE_SIZE
    ensures Shown(Repeated(run.value, run.length), pixel, q, palette, under)
            == if run.value != 0 && pixel <= q < pixel + run.length then palette[run.value] else under
  {
  }

  lemma FirstRunShows(runs: seq<Run>, pixel: nat, q: int, palette: Palette, under: Colour)
    requires runs != [] && runs[0].value < PALETTE_SIZE
    requires forall i :: 0 <= i < |Decoded(runs)| ==> Decoded(runs)[i] < PALETTE_SIZE
    requires forall i :: 0 <= i < |Decoded(runs[1..])| ==> Decoded(runs[1..])[i] < PALETTE_SIZE
    ensures var r := runs[0];
            var first := if r.value != 0 && pixel <= q < pixel + r.length then palette[r.value] else under;
            Shown(Decoded(runs), pixel, q, palette, under)
            == Shown(Decoded(runs[1..]), pixel + r.length, q, palette, first)
  {
    ShownOfRun(runs[0], pixel, q, palette, under);
    ShownOfSum(Repeated(runs[0].value, runs[0].length), Decoded(runs[1..]), pixel, q, palette, under);
  }

  /** `after` shows at each target point the source pixel there, and nothing else has changed. */
  ghost predicate Shows(before: Canvas, after: Canvas, palette: Palette, pixels: seq<nat>, pixel: nat, p: Place)
    requires p.size > 0 && forall i :: 0 <= i < |pixels| ==> pixels[i] < PALETTE_SIZE
  {
    && LeavesRest(before, after, p)
    && forall tx: nat, ty: nat :: tx < p.size && ty < p.size ==>
         after(p.x + tx, p.y + ty)
         == Shown(pixels, pixel, Source(tx, ty, p.size), palette, before(p.x + tx, p.y + ty))
  }

  lemma ShowsOn(before: Canvas, middle: Canvas, after: Canvas, palette: Palette, runs: seq<Run>, pixel: nat, p: Place)
    requires runs != [] && Coloured(runs) && p.size > 0
    requires forall i :: 0 <= i < |Decoded(runs)| ==> Decoded(runs)[i] < PALETTE_SIZE
    requires forall i :: 0 <= i < |Decoded(runs[1..])| ==> Decoded(runs[1..])[i] < PALETTE_SIZE
    requires Paints(before, middle, palette, runs[0], pixel, p) && LeavesRest(before, middle, p)
    requires Shows(middle, after, palette, Decoded(runs[1..]), pixel + runs[0].length, p)
    ensures Shows(before, after, palette, Decoded(runs), pixel, p)
  {
    forall tx: nat, ty: nat | tx < p.size && ty < p.size
      ensures after(p.x + tx, p.y + ty)
              == Shown(Decoded(runs), pixel, Source(tx, ty, p.size), palette, before(p.x + tx, p.y + ty))
    {
      FirstRunShows(runs, pixel, Source(tx, ty, p.size), palette, before(p.x + tx, p.y + ty));
    }
  }

  lemma {:induction false} RunsShow(canvas: Canvas, palette: Palette, runs: seq<Run>, pixel: nat, p: Place)
    requires Coloured(runs) && p.size >= WIDTH && InRows(runs, pixel % WIDTH)
    requires pixel + |Decoded(runs)| <= PIXELS
    ensures forall i :: 0 <= i < |Decoded(runs)| ==> Decoded(runs)[i] < PALETTE_SIZE
    ensures Shows(canvas, DrawRuns(canvas, palette, runs, pixel, p), palette, Decoded(runs), pixel, p)
    decreases |runs|
  {
    DecodedIsColoured(runs);
    if runs != [] {
      var run := runs[0];
      var row, column := pixel / WIDTH, pixel % WIDTH;
      assert row * WIDTH + column == pixel;
      RunPaints(canvas, palette, run, row, column, p);
      RunLeavesRest(canvas, palette, run, row, column, p);
      NextPlace(pixel, run.length);
      var middle := DrawRun(canvas, palette, run, pixel, p);
      RunsShow(middle, palette, runs[1..], pixel + run.length, p);
      ShowsOn(canvas, middle, DrawRuns(canvas, palette, runs, pixel, p), palette, runs, pixel, p);
    }
  }

  predicate InPalette(pixels: seq<nat>) {
    forall i :: 0 <= i < |pixels| ==> pixels[i] < PALETTE_SIZE
  }

  lemma {:induction false} RunsAreColoured(runs: seq<Run>, column: nat)
    requires InRows(runs, column) && InPalette(Decoded(runs))
    ensures Coloured(runs)
  {
    if runs != [] {
      var first, rest := Repeated(runs[0].value, runs[0].length), Decoded(runs[1..]);
      assert first[0] == Decoded(runs)[0];
      assert forall i :: 0 <= i < |rest| ==> rest[i] == Decoded(runs)[|first| + i];
      RunsAreColoured(runs[1..], NextColumn(column, runs[0].length));
      assert forall i :: 1 <= i < |runs| ==> runs[i] == runs[1..][i - 1];
    }
  }

  // ---- The renderer ----------------------------------------------------------------------

  /** Pairs of bytes as runs; a last byte without its partner is ignored. */
  function RunsOf(data: seq<nat>): seq<Run> {
    if |data| < 2 then [] else [Run(data[0], data[1])] + RunsOf(data[2..])
  }

  lemma {:induction false} EncodedRunsOf(runs: seq<Run>)
    ensures RunsOf(Encoded(runs)) == runs
  {
    if runs != [] {
      assert Encoded(runs)[2..] == Encoded(runs[1..]);
      EncodedRunsOf(runs[1..]);
    }
  }

  /** Each colour in the data is in the palette, as the firmware's table lookup demands. */
  predicate IsData(data: seq<nat>) {
    Coloured(RunsOf(data))
  }

  /**
    Packing an image and drawing its bytes at any size from 72 up shows, at each point of the target,
    the colour of the one source pixel whose interval holds the point; transparent pixels and all
    points outside the target keep the colour that was there.
   */
  lemma DrawingShowsImage(canvas: Canvas, palette: Palette, image: Image, p: Place)
    requires p.size >= WIDTH && InPalette(image)
    ensures var data := Encoded(Packed(image));
            IsData(data) && Shows(canvas, DrawRuns(canvas, palette, RunsOf(data), 0, p), palette, image, 0, p)
  {
    EncodedRunsOf(Packed(image));
    PackingRoundTrips(image);
    RunsAreColoured(Packed(image), 0);
    RunsShow(canvas, palette, Packed(image), 0, p);
  }

  datatype PetVisualState = Offline | Idle | Thinking | Running | NeedsInput | Ready | Blocked

  datatype AnimationId = IdleAnimation | FailedAnimation | WaitingAnimation | RunningAnimation | ReviewAnimation

  datatype Frame = Frame(data: seq<nat>, durationMs: nat)

  /** The generated tables. */
  datatype Assets = Assets(palette: Palette, frames: AnimationId -> seq<Frame>) {
    ghost predicate Valid() {
      forall a :: frames(a) != [] && forall i :: 0 <= i < |frames(a)| ==> IsData(frames(a)[i].data)
    }
  }

  function AnimationFor(state: PetVisualState): AnimationId {
    match state
    case Running => RunningAnimation
    case Thinking => WaitingAnimation
    case NeedsInput => WaitingAnimation
    case Ready => ReviewAnimation
    case Offline => FailedAnimation
    case Blocked => FailedAnimation
    case Idle => IdleAnimation
  }

  class M5Canvas {
    var points: Canvas

    constructor (points: Canvas)
      ensures this.points == points
    {
      this.points := points;
    }

    method DrawFastHLine(x: int, y: int, w: nat, colour: Colour)
      modifies this
      ensures points == FillRect(old(points), x, y, w, 1, colour)
    {
      points := FillRect(points, x, y, w, 1, colour);
    }

    method FillRectangle(x: int, y: int, w: nat, h: nat, colour: Colour)
      modifies this
      ensures points == FillRect(old(points), x, y, w, h, colour)
    {
      points := FillRect(points, x, y, w, h, colour);
    }
  }

  lemma NextFrame(index: nat, count: nat)
    requires index < count
    ensures (index + 1) % count == if index + 1 == count then 0 else index + 1
  {
  }

  class PetRenderer {
    const assets: Assets
    var state: PetVisualState
    var frameIndex: nat
    var frameStartedMs: Millis

    constructor (assets: Assets)
      requires assets.Valid()
      ensures Valid() && this.assets == assets
    {
      this.assets := assets;
      state, frameIndex, frameStartedMs := Offline, 0, 0;
    }

    /** The frame index is one of the current animation's. */
    ghost predicate Valid()
      reads this
    {
      assets.Valid() && frameIndex < |assets.frames(AnimationFor(state))|
    }

    method DrawFrame(canvas: M5Canvas, frame: Frame, p: Place)
      requires IsData(frame.data)
      modifies canvas
      ensures canvas.points == DrawRuns(old(canvas.points), assets.palette, RunsOf(frame.data), 0, p)
    {
      var cursor: nat, pixel: nat := 0, 0;
      var data := frame.data;
      ghost var whole := DrawRuns(canvas.points, assets.palette, RunsOf(data), 0, p);
      assert data[0..] == data;
      while cursor + 1 < |data| && pixel < PIXELS
        invariant cursor <= |data| && IsData(data[cursor..])
        invariant DrawRuns(canvas.points, assets.palette, RunsOf(data[cursor..]), pixel, p) == whole
      {
        var count, paletteIndex := data[cursor], data[cursor + 1];
        ghost var left := RunsOf(data[cursor..]);
        assert left[0] == Run(count, paletteIndex);
        assert data[cursor..][2..] == data[cursor + 2..];
        assert left[1..] == RunsOf(data[cursor + 2..]);
        cursor := cursor + 2;
        DrawOneRun(canvas, count, paletteIndex, pixel, p);
        pixel := pixel + count;
      }
    }

    method DrawOneRun(canvas: M5Canvas, count: nat, paletteIndex: nat, pixel: nat, p: Place)
      requires paletteIndex < PALETTE_SIZE
      modifies canvas
      ensures canvas.points == DrawRun(old(canvas.points), assets.palette, Run(count, paletteIndex), pixel, p)
    {
      var row, column := pixel / WIDTH, pixel % WIDTH;
      if paletteIndex != 0 {
        if p.size == WIDTH {
          canvas.DrawFastHLine(p.x + column, p.y + row, count, assets.palette[paletteIndex]);
        } else {
          var left, right := column * p.size / WIDTH, (column + count) * p.size / WIDTH;
          var top, bottom := row * p.size / WIDTH, (row + 1) * p.size / WIDTH;
          canvas.FillRectangle(p.x + left, p.y + top, AtLeastOne(right - left), AtLeastOne(bottom - top),
                               assets.palette[paletteIndex]);
        }
      }
    }

    /** Shows one frame of the state's animation: the first one when the state is new, the next one when it is due. */
    method Draw(canvas: M5Canvas, newState: PetVisualState, nowMs: Millis, p: Place)
      requires Valid()
      modifies this, canvas
      ensures Valid() && state == newState
      ensures var frames := assets.frames(AnimationFor(newState));
              var (index, started) :=
                if newState != old(state) then (0, nowMs) else (old(frameIndex), old(frameStartedMs));
              && (if Elapsed(nowMs, started) >= frames[index].durationMs
                  then frameIndex == (if index + 1 == |frames| then 0 else index + 1) && frameStartedMs == nowMs
                  else frameIndex == index && frameStartedMs == started)
              && canvas.points
                 == DrawRuns(old(canvas.points), assets.palette, RunsOf(frames[frameIndex].data), 0, p)
    {
      if newState != state {
        state := newState;
        frameIndex := 0;
        frameStartedMs := nowMs;
      }
      var animation := assets.frames(AnimationFor(newState));
      if Elapsed(nowMs, frameStartedMs) >= animation[frameIndex].durationMs {
        NextFrame(frameIndex, |animation|);
        frameIndex := (frameIndex + 1) % |animation|;
        frameStartedMs := nowMs;
      }
      DrawFrame(canvas, animation[frameIndex], p);
    }
  }
}
