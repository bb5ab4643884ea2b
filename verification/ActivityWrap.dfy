/**
  Wrapping the activity text on the device's screen (firmware/m5stack-cardputer-adv/src/ui.cpp).

  Text is bytes. How wide a text is drawn is an arbitrary function of it.
 */
module ActivityWraps {

  type Byte = bv8
  type Bytes = seq<Byte>

  const SPACE: Byte := 0x20
  const ELLIPSIS: Bytes := [0x2E, 0x2E, 0x2E]
  const ACTIVITY_LINES := 4

  /** The font, and the width of the screen, in which an ellipsis alone must fit. */
  datatype Screen = Screen(width: Bytes -> int, content: int) {
    predicate Fits(text: Bytes) {
      width(text) <= content
    }
  }

  // ---- UTF-8 (section 4 of RFC 3629) -----------------------------------------------------

  predicate IsContinuation(b: Byte) {
    b & 0xC0 == 0x80
  }

  predicate IsAscii(b: Byte) {
    b < 0x80
  }

  /** The length of the well-formed character `s` starts with, or 0. */
  function CharacterAt(s: Bytes): (n: nat)
    ensures n <= |s| && n <= 4
  {
    if |s| >= 1 && IsAscii(s[0]) then 1
    else if |s| >= 2 && 0xC2 <= s[0] <= 0xDF && IsContinuation(s[1]) then 2
    else if |s| >= 3 && StartsThree(s[0], s[1]) && IsContinuation(s[1]) && IsContinuation(s[2]) then 3
    else if |s| >= 4 && StartsFour(s[0], s[1])
            && IsContinuation(s[1]) && IsContinuation(s[2]) && IsContinuation(s[3]) then 4
    else 0
  }

  predicate StartsThree(a: Byte, b: Byte) {
    0xE0 <= a <= 0xEF && (a == 0xE0 ==> b >= 0xA0) && (a == 0xED ==> b <= 0x9F)
  }

  predicate StartsFour(a: Byte, b: Byte) {
    0xF0 <= a <= 0xF4 && (a == 0xF0 ==> b >= 0x90) && (a == 0xF4 ==> b <= 0x8F)
  }

  predicate IsUtf8(s: Bytes) {
    s == [] || (CharacterAt(s) > 0 && IsUtf8(s[CharacterAt(s)..]))
  }

  predicate IsBoundary(s: Bytes, i: nat) {
    i == |s| || (i < |s| && !IsContinuation(s[i]))
  }

  lemma CharacterOfPrefix(s: Bytes, i: nat)
    requires 0 < CharacterAt(s) <= i <= |s|
    ensures CharacterAt(s[..i]) == CharacterAt(s)
    ensures forall j :: 0 < j < CharacterAt(s) ==> IsContinuation(s[j])
  {
  }

  /** Well-formed text falls apart into well-formed text at every byte that starts a character. */
  lemma {:induction false} CutAtBoundary(s: Bytes, i: nat)
    requires IsUtf8(s) && IsBoundary(s, i)
    ensures IsUtf8(s[..i]) && IsUtf8(s[i..])
    decreases |s|
  {
    var n := CharacterAt(s);
    if i == 0 {
      assert s[..0] == [];
      assert s[0..] == s;
    } else {
      CharacterOfPrefix(s, |s|);
      assert i >= n;
      CharacterOfPrefix(s, i);
      CutAtBoundary(s[n..], i - n);
      assert s[..i][n..] == s[n..][..i - n];
      assert s[n..][i - n..] == s[i..];
    }
  }

  lemma {:induction false} JoinUtf8(a: Bytes, b: Bytes)
    requires IsUtf8(a) && IsUtf8(b)
    ensures IsUtf8(a + b)
    decreases |a|
  {
    if a == [] {
      assert a + b == b;
    } else {
      var n := CharacterAt(a);
      assert CharacterAt(a + b) == n;
      assert (a + b)[n..] == a[n..] + b;
      JoinUtf8(a[n..], b);
    }
  }

  // ---- The helpers -----------------------------------------------------------------------

  /** `utf8CharacterLength`: by the first byte alone, cut off at the end of the text. */
  function CharacterLength(s: Bytes, i: nat): (n: nat)
    ensures i < |s| ==> 0 < n <= |s| - i
  {
    if i >= |s| then 0
    else
      var remaining := |s| - i;
      if s[i] & 0x80 == 0 then 1
      else if s[i] & 0xE0 == 0xC0 then if remaining < 2 then remaining else 2
      else if s[i] & 0xF0 == 0xE0 then if remaining < 3 then remaining else 3
      else if s[i] & 0xF8 == 0xF0 then if remaining < 4 then remaining else 4
      else 1
  }

  lemma LengthIsCharacter(s: Bytes, i: nat)
    requires i < |s| && CharacterAt(s[i..]) > 0
    ensures CharacterLength(s, i) == CharacterAt(s[i..])
  {
    var t := s[i..];
    assert t[0] == s[i];
  }

  predicate AsciiOnly(s: Bytes) {
    forall i :: 0 <= i < |s| ==> IsAscii(s[i])
  }

  /** Where the last character starts: at the last byte that is not a continuation, else at 0. */
  function LastStart(s: Bytes, i: nat): (k: nat)
    requires i < |s|
    ensures k <= i && (k == 0 || !IsContinuation(s[k]))
  {
    if i > 0 && IsContinuation(s[i]) then LastStart(s, i - 1) else i
  }

  function WithoutLast(s: Bytes): (r: Bytes)
    ensures s != [] ==> |r| < |s|
    ensures s == [] ==> r == []
  {
    if s == [] then [] else s[..LastStart(s, |s| - 1)]
  }

  function Shrunk(c: Screen, text: Bytes): (r: Bytes)
    ensures r == [] || c.Fits(r + ELLIPSIS)
    ensures r <= text
    decreases |text|
  {
    if text == [] || c.Fits(text + ELLIPSIS) then text else Shrunk(c, WithoutLast(text))
  }

  function FitWithEllipsis(c: Screen, text: Bytes, force: bool): (r: Bytes)
    ensures c.Fits(ELLIPSIS) ==> c.Fits(r)
  {
    if !force && c.Fits(text) then text
    else
      assert [] + ELLIPSIS == ELLIPSIS;
      Shrunk(c, text) + ELLIPSIS
  }

  lemma WithoutLastIsUtf8(s: Bytes)
    requires IsUtf8(s)
    ensures IsUtf8(WithoutLast(s))
  {
    if s != [] {
      var k := LastStart(s, |s| - 1);
      if k > 0 {
        CutAtBoundary(s, k);
      }
    }
  }

  lemma {:induction false} ShrunkIsUtf8(c: Screen, text: Bytes)
    requires IsUtf8(text)
    ensures IsUtf8(Shrunk(c, text))
    decreases |text|
  {
    if text != [] && !c.Fits(text + ELLIPSIS) {
      WithoutLastIsUtf8(text);
      ShrunkIsUtf8(c, WithoutLast(text));
    }
  }

  lemma EllipsisIsUtf8()
    ensures IsUtf8(ELLIPSIS) && IsUtf8([SPACE])
  {
    assert ELLIPSIS[1..][1..] == [0x2E];
    assert [SPACE][1..] == [];
  }

  lemma FittedIsUtf8(c: Screen, text: Bytes, force: bool)
    requires IsUtf8(text)
    ensures IsUtf8(FitWithEllipsis(c, text, force))
  {
    ShrunkIsUtf8(c, text);
    EllipsisIsUtf8();
    JoinUtf8(Shrunk(c, text), ELLIPSIS);
  }

  // ---- Words and segments ----------------------------------------------------------------

  /** `isspace` in the C locale. */
  predicate IsSpace(b: Byte) {
    0x09 <= b <= 0x0D || b == SPACE
  }

  function WordStart(s: Bytes, i: nat): (k: nat)
    requires i <= |s|
    ensures i <= k <= |s| && (forall j :: i <= j < k ==> IsSpace(s[j])) && (k < |s| ==> !IsSpace(s[k]))
    decreases |s| - i
  {
    if i < |s| && IsSpace(s[i]) then WordStart(s, i + 1) else i
  }

  function WordEnd(s: Bytes, i: nat): (k: nat)
    requires i <= |s|
    ensures i <= k <= |s| && (forall j :: i <= j < k ==> !IsSpace(s[j])) && (k < |s| ==> IsSpace(s[k]))
    ensures i < |s| && !IsSpace(s[i]) ==> k > i
    decreases |s| - i
  {
    if i < |s| && !IsSpace(s[i]) then WordEnd(s, i + 1) else i
  }

  function AsciiEnd(s: Bytes, i: nat): (k: nat)
    requires i <= |s|
    ensures i <= k <= |s| && (forall j :: i <= j < k ==> IsAscii(s[j])) && (k < |s| ==> !IsAscii(s[k]))
    ensures i < |s| && IsAscii(s[i]) ==> k > i
    decreases |s| - i
  {
    if i < |s| && IsAscii(s[i]) then AsciiEnd(s, i + 1) else i
  }

  /** A run of ASCII is one segment, any other character is one of its own. */
  function SegmentEnd(s: Bytes, i: nat): (k: nat)
    requires i < |s|
    ensures i < k <= |s|
    ensures IsAscii(s[i]) ==> (forall j :: i <= j < k ==> IsAscii(s[j])) && (k < |s| ==> !IsAscii(s[k]))
  {
    if IsAscii(s[i]) then AsciiEnd(s, i) else i + CharacterLength(s, i)
  }

  // ---- The page --------------------------------------------------------------------------

  datatype Page = Page(lines: seq<Bytes>, current: Bytes, overflow: bool, shortened: bool)

  function Push(p: Page, line: Bytes): Page {
    if line == [] then p
    else if |p.lines| >= ACTIVITY_LINES then p.(overflow := true)
    else p.(lines := p.lines + [line])
  }

  /** Cuts a text that is too wide to fit, and puts it on a line of its own. */
  function PushShort(c: Screen, p: Page, text: Bytes): Page {
    Push(p, FitWithEllipsis(c, text, false)).(shortened := true)
  }

  /** Spreads the segments of `token` from `i` on over lines; `current` is the line begun. */
  function PlaceSegments(c: Screen, p: Page, token: Bytes, i: nat): Page
    requires i <= |token|
    decreases |token| - i
  {
    if i == |token| || p.overflow then p
    else
      PlaceSegments(c, PlaceSegment(c, p, token[i..SegmentEnd(token, i)]), token, SegmentEnd(token, i))
  }

  function PlaceSegment(c: Screen, p: Page, segment: Bytes): Page {
    if !c.Fits(segment) then
      var pushed := Push(p, p.current);
      if pushed.overflow then pushed else PushShort(c, pushed.(current := []), segment)
    else if p.current != [] && !c.Fits(p.current + segment) then
      var pushed := Push(p, p.current);
      if pushed.overflow then pushed else pushed.(current := segment)
    else p.(current := p.current + segment)
  }

  /** A token that does not fit beside the line begun goes on a new one, cut or spread if it must be. */
  function PlaceAnew(c: Screen, p: Page, token: Bytes): Page {
    var pushed := Push(p, p.current);
    if pushed.overflow then pushed
    else
      var q := pushed.(current := []);
      if c.Fits(token) then q.(current := token)
      else if AsciiOnly(token) then PushShort(c, q, token)
      else PlaceSegments(c, q, token, 0)
  }

  function Candidate(current: Bytes, token: Bytes): Bytes {
    if current == [] then token else current + [SPACE] + token
  }

  function Place(c: Screen, p: Page, token: Bytes): Page {
    if c.Fits(Candidate(p.current, token)) then p.(current := Candidate(p.current, token)) else PlaceAnew(c, p, token)
  }

  /** Places the words of `s` from `i` on, one after the other, until the page is full. */
  function PlaceWords(c: Screen, p: Page, s: Bytes, i: nat): Page
    requires i <= |s|
    decreases |s| - i
  {
    if p.overflow then p
    else
      var start := WordStart(s, i);
      if start == |s| then p
      else PlaceWords(c, Place(c, p, s[start..WordEnd(s, start)]), s, WordEnd(s, start))
  }

  function Finish(c: Screen, p: Page): Page {
    var q := if p.overflow then p else Push(p, p.current).(current := []);
    if q.overflow && q.lines != [] then
      var last := |q.lines| - 1;
      q.(lines := q.lines[last := FitWithEllipsis(c, q.lines[last], true)])
    else q
  }

  function Wrap(c: Screen, s: Bytes): Page {
    Finish(c, PlaceWords(c, Page([], [], false, false), s, 0))
  }

  // ---- Pieces of well-formed text --------------------------------------------------------

  /** The byte after a whole character starts the next one. */
  lemma CharacterEnds(s: Bytes)
    requires IsUtf8(s) && s != []
    ensures IsBoundary(s, CharacterAt(s))
  {
    var n := CharacterAt(s);
    if n < |s| {
      assert CharacterAt(s[n..]) > 0;
      assert s[n..][0] == s[n];
    }
  }

  /** After a run of ASCII, well-formed text goes on with the start of a character. */
  lemma {:induction false} AfterAscii(s: Bytes, i: nat, k: nat)
    requires i < k < |s| && IsUtf8(s[i..]) && forall j :: i <= j < k ==> IsAscii(s[j])
    ensures !IsContinuation(s[k])
    decreases k - i
  {
    assert CharacterAt(s[i..]) == 1;
    assert s[i..][1..] == s[i + 1..];
    if k == i + 1 {
      assert s[i + 1..][0] == s[k];
    } else {
      AfterAscii(s, i + 1, k);
    }
  }

  lemma SegmentIsWhole(s: Bytes, i: nat)
    requires i < |s| && IsUtf8(s[i..])
    ensures IsBoundary(s[i..], SegmentEnd(s, i) - i)
  {
    var k := SegmentEnd(s, i);
    var t := s[i..];
    assert t[0] == s[i];
    if IsAscii(s[i]) {
      if k < |s| {
        assert t[k - i] == s[k];
        AfterAscii(s, i, k);
      }
    } else {
      LengthIsCharacter(s, i);
      CharacterEnds(t);
    }
  }

  lemma SegmentIsUtf8(s: Bytes, i: nat)
    requires i < |s| && IsUtf8(s[i..])
    ensures IsUtf8(s[i..SegmentEnd(s, i)]) && IsUtf8(s[SegmentEnd(s, i)..])
  {
    var k := SegmentEnd(s, i);
    SegmentIsWhole(s, i);
    assert s[i..][..k - i] == s[i..k];
    assert s[i..][k - i..] == s[k..];
    CutAtBoundary(s[i..], k - i);
  }

  lemma CandidateIsUtf8(current: Bytes, token: Bytes)
    requires IsUtf8(current) && IsUtf8(token)
    ensures IsUtf8(Candidate(current, token))
  {
    EllipsisIsUtf8();
    JoinUtf8(current, [SPACE]);
    JoinUtf8(current + [SPACE], token);
  }

  lemma SpaceStartsCharacter(b: Byte)
    requires IsSpace(b)
    ensures !IsContinuation(b)
  {
  }

  lemma RestIsUtf8(t: Bytes, i: nat, rest: Bytes)
    requires IsUtf8(t) && IsBoundary(t, i) && rest == t[i..]
    ensures IsUtf8(rest)
  {
    CutAtBoundary(t, i);
  }

  lemma WordIsUtf8(s: Bytes, start: nat, end: nat)
    requires IsUtf8(s) && start <= end <= |s| && IsBoundary(s, start) && IsBoundary(s, end)
    ensures IsUtf8(s[start..end])
  {
    CutAtBoundary(s, end);
    var t := s[..end];
    assert start < end ==> t[start] == s[start];
    RestIsUtf8(t, start, s[start..end]);
  }

  /** Past white space, text goes on with the start of a character. */
  lemma {:induction false} StartIsBoundary(s: Bytes, i: nat)
    requires IsUtf8(s) && i <= |s| && IsBoundary(s, i)
    ensures IsBoundary(s, WordStart(s, i))
    decreases |s| - i
  {
    if i < |s| && IsSpace(s[i]) {
      CutAtBoundary(s, i);
      assert s[i..][0] == s[i];
      CharacterEnds(s[i..]);
      assert CharacterAt(s[i..]) == 1;
      if i + 1 < |s| {
        assert s[i..][1] == s[i + 1];
      }
      StartIsBoundary(s, i + 1);
    }
  }

  lemma TextStarts(s: Bytes)
    requires IsUtf8(s)
    ensures IsBoundary(s, 0)
  {
  }

  // ---- Every line fits -------------------------------------------------------------------

  /** `u` says that the text is well formed, and so that the lines are. */
  ghost predicate Sound(c: Screen, p: Page, u: bool) {
    && |p.lines| <= ACTIVITY_LINES
    && (forall i :: 0 <= i < |p.lines| ==> c.Fits(p.lines[i]) && (u ==> IsUtf8(p.lines[i])))
    && (p.current != [] ==> c.Fits(p.current)) && (u ==> IsUtf8(p.current))
    && (p.overflow ==> |p.lines| == ACTIVITY_LINES)
  }

  lemma PushIsSound(c: Screen, p: Page, line: Bytes, u: bool)
    requires Sound(c, p, u) && (u ==> IsUtf8(line)) && (line != [] ==> c.Fits(line))
    ensures Sound(c, Push(p, line), u)
  {
  }

  lemma ShortIsSound(c: Screen, p: Page, text: Bytes, u: bool)
    requires c.Fits(ELLIPSIS) && Sound(c, p, u) && (u ==> IsUtf8(text))
    ensures Sound(c, PushShort(c, p, text), u)
  {
    if u {
      FittedIsUtf8(c, text, false);
    }
    PushIsSound(c, p, FitWithEllipsis(c, text, false), u);
  }

  lemma BegunIsSound(c: Screen, p: Page, current: Bytes, u: bool)
    requires Sound(c, p, u) && (u ==> IsUtf8(current)) && (current != [] ==> c.Fits(current))
    ensures Sound(c, p.(current := current), u)
  {
  }

  /** The line begun is pushed, and another one begun. */
  lemma TurnIsSound(c: Screen, p: Page, current: Bytes, u: bool)
    requires Sound(c, p, u) && (u ==> IsUtf8(current)) && (current != [] ==> c.Fits(current))
    ensures Sound(c, Push(p, p.current), u) && Sound(c, Push(p, p.current).(current := current), u)
  {
    PushIsSound(c, p, p.current, u);
    BegunIsSound(c, Push(p, p.current), current, u);
  }

  lemma WideSegmentKeepsSound(c: Screen, p: Page, segment: Bytes, u: bool)
    requires c.Fits(ELLIPSIS) && Sound(c, p, u) && (u ==> IsUtf8(segment)) && !c.Fits(segment)
    ensures Sound(c, PlaceSegment(c, p, segment), u)
  {
    TurnIsSound(c, p, [], u);
    ShortIsSound(c, Push(p, p.current).(current := []), segment, u);
  }

  lemma SegmentKeepsSound(c: Screen, p: Page, segment: Bytes, u: bool)
    requires c.Fits(ELLIPSIS) && Sound(c, p, u) && (u ==> IsUtf8(segment))
    ensures Sound(c, PlaceSegment(c, p, segment), u)
  {
    if !c.Fits(segment) {
      WideSegmentKeepsSound(c, p, segment, u);
    } else if p.current != [] && !c.Fits(p.current + segment) {
      TurnIsSound(c, p, segment, u);
    } else {
      if u {
        JoinUtf8(p.current, segment);
      }
      assert [] + segment == segment;
      BegunIsSound(c, p, p.current + segment, u);
    }
  }

  lemma {:induction false} SegmentsKeepSound(c: Screen, p: Page, token: Bytes, i: nat, u: bool)
    requires c.Fits(ELLIPSIS) && Sound(c, p, u) && i <= |token| && (u ==> IsUtf8(token[i..]))
    ensures Sound(c, PlaceSegments(c, p, token, i), u)
    decreases |token| - i
  {
    if i < |token| && !p.overflow {
      var k := SegmentEnd(token, i);
      if u {
        SegmentIsUtf8(token, i);
      }
      SegmentKeepsSound(c, p, token[i..k], u);
      SegmentsKeepSound(c, PlaceSegment(c, p, token[i..k]), token, k, u);
    }
  }

  lemma PlaceAnewIsSound(c: Screen, p: Page, token: Bytes, u: bool)
    requires c.Fits(ELLIPSIS) && Sound(c, p, u) && (u ==> IsUtf8(token))
    ensures Sound(c, PlaceAnew(c, p, token), u)
  {
    TurnIsSound(c, p, [], u);
    var pushed := Push(p, p.current);
    if !pushed.overflow {
      var q := pushed.(current := []);
      if c.Fits(token) {
        BegunIsSound(c, q, token, u);
      } else if AsciiOnly(token) {
        ShortIsSound(c, q, token, u);
      } else {
        assert token[0..] == token;
        SegmentsKeepSound(c, q, token, 0, u);
      }
    }
  }

  lemma PlaceIsSound(c: Screen, p: Page, token: Bytes, u: bool)
    requires c.Fits(ELLIPSIS) && Sound(c, p, u) && (u ==> IsUtf8(token))
    ensures Sound(c, Place(c, p, token), u)
  {
    if c.Fits(Candidate(p.current, token)) {
      if u {
        CandidateIsUtf8(p.current, token);
      }
      BegunIsSound(c, p, Candidate(p.current, token), u);
    } else {
      PlaceAnewIsSound(c, p, token, u);
    }
  }

  lemma NextWordIsUtf8(s: Bytes, i: nat)
    requires IsUtf8(s) && i <= |s| && IsBoundary(s, i) && WordStart(s, i) < |s|
    ensures var start := WordStart(s, i);
            IsUtf8(s[start..WordEnd(s, start)]) && IsBoundary(s, WordEnd(s, start))
  {
    StartIsBoundary(s, i);
    var start := WordStart(s, i);
    var end := WordEnd(s, start);
    if end < |s| {
      SpaceStartsCharacter(s[end]);
    }
    WordIsUtf8(s, start, end);
  }

  lemma {:induction false} WordsKeepSound(c: Screen, p: Page, s: Bytes, i: nat, u: bool)
    requires c.Fits(ELLIPSIS) && Sound(c, p, u) && i <= |s| && (u ==> IsUtf8(s) && IsBoundary(s, i))
    ensures Sound(c, PlaceWords(c, p, s, i), u)
    decreases |s| - i
  {
    var start := WordStart(s, i);
    if !p.overflow && start < |s| {
      var end := WordEnd(s, start);
      if u {
        NextWordIsUtf8(s, i);
      }
      PlaceIsSound(c, p, s[start..end], u);
      WordsKeepSound(c, Place(c, p, s[start..end]), s, end, u);
    }
  }

  lemma MarkedIsSound(c: Screen, p: Page, u: bool)
    requires c.Fits(ELLIPSIS) && Sound(c, p, u) && p.lines != []
    ensures var last := |p.lines| - 1;
            Sound(c, p.(lines := p.lines[last := FitWithEllipsis(c, p.lines[last], true)]), u)
  {
    if u {
      FittedIsUtf8(c, p.lines[|p.lines| - 1], true);
    }
  }

  lemma FinishIsSound(c: Screen, p: Page, u: bool)
    requires c.Fits(ELLIPSIS) && Sound(c, p, u)
    ensures Sound(c, Finish(c, p), u)
  {
    TurnIsSound(c, p, [], u);
    var q := if p.overflow then p else Push(p, p.current).(current := []);
    if q.lines != [] {
      MarkedIsSound(c, q, u);
    }
  }

  /**
    However wide the font draws, and whatever the bytes are, at most four lines result and each
    fits; of well-formed text, each is well formed: no character is cut in two. Only a page that
    has all its lines overflows.
   */
  lemma WrapIsSound(c: Screen, s: Bytes)
    requires c.Fits(ELLIPSIS)
    ensures Sound(c, Wrap(c, s), IsUtf8(s))
  {
    if IsUtf8(s) {
      TextStarts(s);
    }
    WordsKeepSound(c, Page([], [], false, false), s, 0, IsUtf8(s));
    FinishIsSound(c, PlaceWords(c, Page([], [], false, false), s, 0), IsUtf8(s));
  }

  // ---- Nothing is lost -------------------------------------------------------------------

  function NonSpace(s: Bytes): Bytes {
    if s == [] then []
    else if IsSpace(s[0]) then NonSpace(s[1..])
    else [s[0]] + NonSpace(s[1..])
  }

  function Joined(lines: seq<Bytes>): Bytes {
    if lines == [] then [] else Joined(lines[..|lines| - 1]) + lines[|lines| - 1]
  }

  /** The text on the page so far. */
  function Text(p: Page): Bytes {
    NonSpace(Joined(p.lines) + p.current)
  }

  predicate IsWhole(p: Page) {
    !p.overflow && !p.shortened
  }

  lemma {:induction false} NonSpaceOfSum(a: Bytes, b: Bytes)
    ensures NonSpace(a + b) == NonSpace(a) + NonSpace(b)
    decreases |a|
  {
    if a == [] {
      assert a + b == b;
    } else {
      assert (a + b)[1..] == a[1..] + b;
      NonSpaceOfSum(a[1..], b);
    }
  }

  lemma {:induction false} SpaceIsNothing(s: Bytes)
    requires forall i :: 0 <= i < |s| ==> IsSpace(s[i])
    ensures NonSpace(s) == []
  {
    if s != [] {
      SpaceIsNothing(s[1..]);
    }
  }

  /** A step from `p` to `q` adds exactly `more` to the text, unless it overflows or cuts something. */
  ghost predicate Adds(p: Page, q: Page, more: Bytes) {
    IsWhole(q) ==> IsWhole(p) && Text(q) == Text(p) + NonSpace(more)
  }

  lemma AddsOn(p: Page, q: Page, r: Page, some: Bytes, more: Bytes, all: Bytes)
    requires Adds(p, q, some) && Adds(q, r, more) && all == some + more
    ensures Adds(p, r, all)
  {
    NonSpaceOfSum(some, more);
  }

  lemma PushAdds(p: Page, current: Bytes)
    ensures Adds(p, Push(p, p.current).(current := current), current)
  {
    var q := Push(p, p.current).(current := current);
    if p.current == [] {
      assert Joined(p.lines) + [] == Joined(p.lines);
    } else if !q.overflow {
      assert q.lines[..|p.lines|] == p.lines;
    }
    NonSpaceOfSum(Joined(q.lines), current);
  }

  lemma Associate(a: Bytes, b: Bytes, c: Bytes)
    ensures (a + b) + c == a + (b + c)
  {
  }

  lemma ExtendAdds(p: Page, more: Bytes, whole: Bytes)
    requires NonSpace(whole) == NonSpace(p.current) + NonSpace(more)
    ensures Adds(p, p.(current := whole), more)
  {
    var lines := Joined(p.lines);
    NonSpaceOfSum(lines, whole);
    NonSpaceOfSum(lines, p.current);
    Associate(NonSpace(lines), NonSpace(p.current), NonSpace(more));
  }

  lemma FullAdds(p: Page, q: Page, more: Bytes)
    requires q.overflow || q.shortened
    ensures Adds(p, q, more)
  {
  }

  lemma SegmentAdds(c: Screen, p: Page, segment: Bytes)
    ensures Adds(p, PlaceSegment(c, p, segment), segment)
  {
    if PlaceSegment(c, p, segment).overflow || PlaceSegment(c, p, segment).shortened {
      FullAdds(p, PlaceSegment(c, p, segment), segment);
    } else if p.current != [] && !c.Fits(p.current + segment) {
      PushAdds(p, segment);
    } else {
      NonSpaceOfSum(p.current, segment);
      ExtendAdds(p, segment, p.current + segment);
    }
  }

  lemma NothingAdds(p: Page)
    ensures Adds(p, p, [])
  {
  }

  lemma {:induction false} SegmentsAdd(c: Screen, p: Page, token: Bytes, i: nat)
    requires i <= |token|
    ensures Adds(p, PlaceSegments(c, p, token, i), token[i..])
    decreases |token| - i
  {
    if p.overflow {
      FullAdds(p, p, token[i..]);
    } else if i == |token| {
      NothingAdds(p);
    } else {
      var k := SegmentEnd(token, i);
      var q := PlaceSegment(c, p, token[i..k]);
      SegmentAdds(c, p, token[i..k]);
      SegmentsAdd(c, q, token, k);
      AddsOn(p, q, PlaceSegments(c, q, token, k), token[i..k], token[k..], token[i..]);
    }
  }

  lemma SpreadAdds(c: Screen, p: Page, token: Bytes)
    ensures var q := Push(p, p.current).(current := []);
            Adds(p, PlaceSegments(c, q, token, 0), token)
  {
    var q := Push(p, p.current).(current := []);
    PushAdds(p, []);
    SegmentsAdd(c, q, token, 0);
    assert token[0..] == token;
    AddsOn(p, q, PlaceSegments(c, q, token, 0), [], token, token);
  }

  lemma PlaceAnewAdds(c: Screen, p: Page, token: Bytes)
    ensures Adds(p, PlaceAnew(c, p, token), token)
  {
    var pushed := Push(p, p.current);
    if pushed.overflow {
      FullAdds(p, pushed, token);
    } else if c.Fits(token) {
      PushAdds(p, token);
    } else if AsciiOnly(token) {
      FullAdds(p, PushShort(c, pushed.(current := []), token), token);
    } else {
      SpreadAdds(c, p, token);
    }
  }

  lemma SpaceAddsNothing(s: Bytes)
    ensures NonSpace(s + [SPACE]) == NonSpace(s)
  {
    SpaceIsNothing([SPACE]);
    NonSpaceOfSum(s, [SPACE]);
  }

  lemma CandidateText(current: Bytes, token: Bytes)
    ensures NonSpace(Candidate(current, token)) == NonSpace(current) + NonSpace(token)
  {
    if current != [] {
      SpaceAddsNothing(current);
      NonSpaceOfSum(current + [SPACE], token);
    } else {
      assert NonSpace(current) == [];
    }
  }

  lemma PlaceAdds(c: Screen, p: Page, token: Bytes)
    ensures Adds(p, Place(c, p, token), token)
  {
    if c.Fits(Candidate(p.current, token)) {
      CandidateText(p.current, token);
      ExtendAdds(p, token, Candidate(p.current, token));
    } else {
      PlaceAnewAdds(c, p, token);
    }
  }

  lemma SkipAdds(p: Page, q: Page, s: Bytes, i: nat, start: nat)
    requires i <= start <= |s| && (forall j :: i <= j < start ==> IsSpace(s[j])) && Adds(p, q, s[start..])
    ensures Adds(p, q, s[i..])
  {
    SpaceIsNothing(s[i..start]);
    assert s[i..] == s[i..start] + s[start..];
    NonSpaceOfSum(s[i..start], s[start..]);
  }

  lemma {:induction false} WordsAdd(c: Screen, p: Page, s: Bytes, i: nat)
    requires i <= |s|
    ensures Adds(p, PlaceWords(c, p, s, i), s[i..])
    decreases |s| - i
  {
    var start := WordStart(s, i);
    if p.overflow {
      FullAdds(p, p, s[i..]);
    } else if start == |s| {
      NothingAdds(p);
      SkipAdds(p, p, s, i, start);
    } else {
      var end := WordEnd(s, start);
      var q := Place(c, p, s[start..end]);
      PlaceAdds(c, p, s[start..end]);
      WordsAdd(c, q, s, end);
      AddsOn(p, q, PlaceWords(c, q, s, end), s[start..end], s[end..], s[start..]);
      SkipAdds(p, PlaceWords(c, q, s, end), s, i, start);
    }
  }

  /** Unless the page overflowed or something was cut, the lines hold the whole text but its spaces. */
  lemma NothingIsLost(c: Screen, s: Bytes)
    requires IsWhole(Wrap(c, s))
    ensures NonSpace(Joined(Wrap(c, s).lines)) == NonSpace(s)
  {
    var p := PlaceWords(c, Page([], [], false, false), s, 0);
    WordsAdd(c, Page([], [], false, false), s, 0);
    assert s[0..] == s;
    PushAdds(p, []);
    assert Joined(Wrap(c, s).lines) + [] == Joined(Wrap(c, s).lines);
  }
}
