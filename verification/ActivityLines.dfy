/**
  Where the lines of a wrapped text break (firmware/m5stack-cardputer-adv/src/ui.cpp), if each of its words
  fits on a line: every line takes as many words as fit.
 */
module ActivityLines {
  import opened ActivityWraps

  /** The words of `s` from `i` on. */
  function Words(s: Bytes, i: nat): seq<Bytes>
    requires i <= |s|
    decreases |s| - i
  {
    var start := WordStart(s, i);
    if start == |s| then [] else [s[start..WordEnd(s, start)]] + Words(s, WordEnd(s, start))
  }

  /** Words with one space between any two. */
  function Spaced(ws: seq<Bytes>): Bytes {
    if |ws| == 0 then []
    else if |ws| == 1 then ws[0]
    else Spaced(ws[..|ws| - 1]) + [SPACE] + ws[|ws| - 1]
  }

  predicate TakesMore(c: Screen, line: seq<Bytes>, w: Bytes) {
    c.Fits(Spaced(line + [w]))
  }

  /** The words line by line: each joins the last line if it still fits there. */
  function Filled(c: Screen, ws: seq<Bytes>): seq<seq<Bytes>> {
    if ws == [] then []
    else
      var before, w := Filled(c, ws[..|ws| - 1]), ws[|ws| - 1];
      if before == [] then [[w]]
      else if TakesMore(c, before[|before| - 1], w) then before[|before| - 1 := before[|before| - 1] + [w]]
      else before + [[w]]
  }

  function Flat(lines: seq<seq<Bytes>>): seq<Bytes> {
    if lines == [] then [] else Flat(lines[..|lines| - 1]) + lines[|lines| - 1]
  }

  /** No line is empty, and none had room for the first word of the next. */
  ghost predicate IsGreedy(c: Screen, lines: seq<seq<Bytes>>) {
    && (forall i :: 0 <= i < |lines| ==> lines[i] != [])
    && forall i :: 0 < i < |lines| ==> !c.Fits(Spaced(lines[i - 1] + [lines[i][0]]))
  }

  lemma FlatOfMore(lines: seq<seq<Bytes>>, w: Bytes)
    ensures Flat(lines + [[w]]) == Flat(lines) + [w]
    ensures lines != [] ==> Flat(lines[|lines| - 1 := lines[|lines| - 1] + [w]]) == Flat(lines) + [w]
  {
    assert (lines + [[w]])[..|lines|] == lines;
    if lines != [] {
      var last := |lines| - 1;
      assert lines[last := lines[last] + [w]][..last] == lines[..last];
      assert Flat(lines[..last]) + (lines[last] + [w]) == (Flat(lines[..last]) + lines[last]) + [w];
    }
  }

  function Last(lines: seq<seq<Bytes>>): seq<Bytes> {
    if lines == [] then [] else lines[|lines| - 1]
  }

  /** The lines after one more word. */
  function More(c: Screen, lines: seq<seq<Bytes>>, w: Bytes): seq<seq<Bytes>> {
    if lines == [] then [[w]]
    else if TakesMore(c, Last(lines), w) then lines[|lines| - 1 := Last(lines) + [w]]
    else lines + [[w]]
  }

  lemma FilledMore(c: Screen, ws: seq<Bytes>, w: Bytes)
    ensures Filled(c, ws + [w]) == More(c, Filled(c, ws), w)
  {
    assert (ws + [w])[..|ws|] == ws;
  }

  lemma GreedyJoins(c: Screen, lines: seq<seq<Bytes>>, w: Bytes)
    requires IsGreedy(c, lines) && lines != []
    ensures IsGreedy(c, lines[|lines| - 1 := Last(lines) + [w]])
  {
    var longer := lines[|lines| - 1 := Last(lines) + [w]];
    forall i | 0 < i < |longer| ensures !c.Fits(Spaced(longer[i - 1] + [longer[i][0]])) {
      assert longer[i][0] == lines[i][0] && longer[i - 1] == lines[i - 1];
    }
  }

  lemma GreedyStarts(c: Screen, lines: seq<seq<Bytes>>, w: Bytes)
    requires IsGreedy(c, lines) && (lines != [] ==> !TakesMore(c, Last(lines), w))
    ensures IsGreedy(c, lines + [[w]])
  {
    var more := lines + [[w]];
    forall i | 0 < i < |more| ensures !c.Fits(Spaced(more[i - 1] + [more[i][0]])) {
      assert more[i - 1] == lines[i - 1];
      if i < |lines| {
        assert more[i] == lines[i];
      } else {
        assert more[i][0] == w;
      }
    }
  }

  /** The lines hold the words in order, and each takes as many as fit. */
  lemma {:induction false} FilledIsGreedy(c: Screen, ws: seq<Bytes>)
    ensures Flat(Filled(c, ws)) == ws && IsGreedy(c, Filled(c, ws))
  {
    if ws != [] {
      var front, w := ws[..|ws| - 1], ws[|ws| - 1];
      var lines := Filled(c, front);
      assert ws == front + [w];
      FilledIsGreedy(c, front);
      FilledMore(c, front, w);
      FlatOfMore(lines, w);
      if lines == [] || !TakesMore(c, Last(lines), w) {
        assert lines == [] ==> lines + [[w]] == [[w]];
        GreedyStarts(c, lines, w);
      } else {
        GreedyJoins(c, lines, w);
      }
    }
  }

  // ---- The page follows the lines --------------------------------------------------------

  /** The first `n` of the lines, drawn. */
  function Drawn(lines: seq<seq<Bytes>>, n: nat): seq<Bytes>
    requires n <= |lines|
  {
    seq(n, i requires 0 <= i < n => Spaced(lines[i]))
  }

  /** The page has drawn all lines but the last, which is begun, or is full with more than four. */
  ghost predicate Follows(p: Page, lines: seq<seq<Bytes>>) {
    if p.overflow then |lines| > 4 && p.lines == Drawn(lines, 4)
    else
      && p.current == Spaced(Last(lines)) && |lines| <= 5 && (lines != [] ==> p.current != [])
      && p.lines == Drawn(lines, if lines == [] then 0 else |lines| - 1)
  }

  lemma SpacedOfMore(line: seq<Bytes>, w: Bytes)
    requires line != []
    ensures Spaced(line + [w]) == Spaced(line) + [SPACE] + w && |Spaced(line + [w])| > 0
  {
    assert (line + [w])[..|line|] == line;
  }

  lemma SpacedOfOne(w: Bytes)
    ensures Spaced([] + [w]) == w && Spaced([w]) == w
  {
    assert [] + [w] == [w];
  }

  lemma JoinsLine(c: Screen, p: Page, lines: seq<seq<Bytes>>, w: Bytes)
    requires Follows(p, lines) && !p.overflow && lines != [] && Last(lines) != [] && TakesMore(c, Last(lines), w)
    ensures Follows(Place(c, p, w), More(c, lines, w))
  {
    SpacedOfMore(Last(lines), w);
    assert Drawn(More(c, lines, w), |lines| - 1) == Drawn(lines, |lines| - 1);
  }

  lemma StartsLine(c: Screen, p: Page, lines: seq<seq<Bytes>>, w: Bytes)
    requires Follows(p, lines) && !p.overflow && lines != [] && Last(lines) != [] && !TakesMore(c, Last(lines), w)
    requires c.Fits(w) && w != []
    ensures Follows(Place(c, p, w), More(c, lines, w))
  {
    SpacedOfMore(Last(lines), w);
    SpacedOfOne(w);
    var more := lines + [[w]];
    assert Last(more) == [w];
    assert Drawn(more, |lines|) == Drawn(lines, |lines| - 1) + [Spaced(Last(lines))];
    if |lines| == 5 {
      assert Drawn(more, 4) == Drawn(lines, 4);
    }
  }

  lemma StartsPage(c: Screen, p: Page, w: Bytes)
    requires Follows(p, []) && !p.overflow && c.Fits(w) && w != []
    ensures Follows(Place(c, p, w), More(c, [], w))
  {
    SpacedOfOne(w);
  }

  lemma WordFollows(c: Screen, p: Page, lines: seq<seq<Bytes>>, w: Bytes)
    requires Follows(p, lines) && !p.overflow && IsGreedy(c, lines) && c.Fits(w) && w != []
    ensures Follows(Place(c, p, w), More(c, lines, w))
  {
    if lines == [] {
      StartsPage(c, p, w);
    } else if TakesMore(c, Last(lines), w) {
      JoinsLine(c, p, lines, w);
    } else {
      StartsLine(c, p, lines, w);
    }
  }

  /** A full page stays what it is. */
  lemma {:induction false} FullFollows(c: Screen, p: Page, ws: seq<Bytes>, rest: seq<Bytes>)
    requires p.overflow && Follows(p, Filled(c, ws))
    ensures Follows(p, Filled(c, ws + rest))
    decreases |rest|
  {
    if rest == [] {
      assert ws + rest == ws;
    } else {
      var lines := Filled(c, ws);
      FilledMore(c, ws, rest[0]);
      assert Drawn(More(c, lines, rest[0]), 4) == Drawn(lines, 4);
      assert (ws + [rest[0]]) + rest[1..] == ws + rest;
      FullFollows(c, p, ws + [rest[0]], rest[1..]);
    }
  }

  ghost predicate AllFit(c: Screen, ws: seq<Bytes>) {
    forall w :: w in ws ==> c.Fits(w)
  }

  lemma NextFollows(c: Screen, p: Page, before: seq<Bytes>, w: Bytes)
    requires Follows(p, Filled(c, before)) && !p.overflow && c.Fits(w) && w != []
    ensures Follows(Place(c, p, w), Filled(c, before + [w]))
  {
    FilledIsGreedy(c, before);
    WordFollows(c, p, Filled(c, before), w);
    FilledMore(c, before, w);
  }

  lemma WordsSplit(c: Screen, s: Bytes, i: nat, before: seq<Bytes>, w: Bytes, rest: seq<Bytes>)
    requires i <= |s| && Words(s, i) == [w] + rest && AllFit(c, Words(s, i))
    ensures c.Fits(w) && AllFit(c, rest) && (before + [w]) + rest == before + Words(s, i)
  {
    assert w in Words(s, i);
    assert forall v :: v in rest ==> v in Words(s, i);
  }

  lemma {:induction false} WordsFollow(c: Screen, p: Page, s: Bytes, i: nat, before: seq<Bytes>)
    requires i <= |s| && Follows(p, Filled(c, before)) && AllFit(c, Words(s, i))
    ensures Follows(PlaceWords(c, p, s, i), Filled(c, before + Words(s, i)))
    decreases |s| - i
  {
    var start := WordStart(s, i);
    if p.overflow {
      FullFollows(c, p, before, Words(s, i));
    } else if start == |s| {
      assert before + [] == before;
    } else {
      var end := WordEnd(s, start);
      var w := s[start..end];
      WordsSplit(c, s, i, before, w, Words(s, end));
      NextFollows(c, p, before, w);
      WordsFollow(c, Place(c, p, w), s, end, before + [w]);
    }
  }

  lemma FinishFollows(c: Screen, p: Page, lines: seq<seq<Bytes>>)
    requires Follows(p, lines)
    ensures var q := Finish(c, p);
            if |lines| <= 4 then !q.overflow && q.lines == Drawn(lines, |lines|)
            else q.overflow && q.lines == Drawn(lines, 4)[3 := FitWithEllipsis(c, Spaced(lines[3]), true)]
  {
    if lines != [] && !p.overflow {
      assert Drawn(lines, |lines|) == Drawn(lines, |lines| - 1) + [Spaced(Last(lines))];
    }
  }

  /**
    If every word fits on a line, the words are drawn line by line, each line with as many as fit and one
    space between; the page overflows exactly if that takes more than four lines, and then it shows the first
    four, the last one marked.
   */
  lemma WrapFillsLines(c: Screen, s: Bytes)
    requires AllFit(c, Words(s, 0))
    ensures var lines, p := Filled(c, Words(s, 0)), Wrap(c, s);
            && (p.overflow <==> |lines| > 4)
            && (|lines| <= 4 ==> p.lines == Drawn(lines, |lines|))
            && (|lines| > 4 ==> p.lines == Drawn(lines, 4)[3 := FitWithEllipsis(c, Spaced(lines[3]), true)])
  {
    var p := Page([], [], false, false);
    WordsFollow(c, p, s, 0, []);
    assert [] + Words(s, 0) == Words(s, 0);
    FinishFollows(c, PlaceWords(c, p, s, 0), Filled(c, Words(s, 0)));
  }

  // ---- A line that is cut ----------------------------------------------------------------

  lemma {:induction false} LastStartIsLast(s: Bytes, i: nat, k: nat)
    requires i < |s| && k <= i && !IsContinuation(s[k])
    ensures k <= LastStart(s, i)
    decreases i
  {
    if i > k {
      LastStartIsLast(s, i - 1, k);
    }
  }

  /** Of a text cut to fit beside an ellipsis as much is kept as fits: no longer beginning does. */
  lemma {:induction false} ShrunkIsLongest(c: Screen, text: Bytes, k: nat)
    requires |Shrunk(c, text)| < k <= |text| && IsBoundary(text, k)
    ensures !c.Fits(text[..k] + ELLIPSIS)
    decreases |text|
  {
    if k == |text| {
      assert text[..k] == text;
    } else {
      var shorter := WithoutLast(text);
      LastStartIsLast(text, |text| - 1, k);
      assert text[..k] == shorter[..k];
      ShrunkIsLongest(c, shorter, k);
    }
  }

  // ---- Words too wide for a line ---------------------------------------------------------

  /** A segment that fits joins the line begun if it fits there, without a space, and else begins the next line. */
  lemma SegmentIsPlaced(c: Screen, p: Page, segment: Bytes)
    requires !p.overflow && c.Fits(segment)
    ensures var q := PlaceSegment(c, p, segment);
            if p.current == [] || c.Fits(p.current + segment)
            then q.lines == p.lines && q.current == p.current + segment && !q.overflow
            else if |p.lines| < 4 then q.lines == p.lines + [p.current] && q.current == segment && !q.overflow
            else q.lines == p.lines && q.overflow
  {
  }

  /** An ASCII word too wide for any line ends the line begun and has one of its own, cut to fit. */
  lemma WideWordIsCut(c: Screen, p: Page, w: Bytes)
    requires !p.overflow && p.current != [] && |p.lines| < 3
    requires AsciiOnly(w) && !c.Fits(w) && !c.Fits(p.current + [SPACE] + w)
    ensures var q := Place(c, p, w);
            && q.lines == p.lines + [p.current, Shrunk(c, w) + ELLIPSIS] && q.current == []
            && q.shortened && !q.overflow
  {
  }
}
