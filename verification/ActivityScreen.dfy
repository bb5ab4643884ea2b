/** The screen's own wrapped lines, kept in a fixed array and rebuilt when the text changes. */
module ActivityScreens {
  import opened ActivityWraps

  method RemoveLastUtf8Character(value: Bytes) returns (r: Bytes)
    ensures r == WithoutLast(value)
  {
    if value == [] {
      return value;
    }
    var index := |value| - 1;
    while index > 0 && IsContinuation(value[index])
      invariant 0 <= index < |value| && LastStart(value, index) == LastStart(value, |value| - 1)
    {
      index := index - 1;
    }
    r := value[..index];
  }

  method IsAsciiOnly(value: Bytes) returns (r: bool)
    ensures r == AsciiOnly(value)
  {
    for i := 0 to |value|
      invariant forall j :: 0 <= j < i ==> IsAscii(value[j])
    {
      if value[i] >= 0x80 {
        return false;
      }
    }
    r := true;
  }

  method Fit(c: Screen, text: Bytes, force: bool) returns (r: Bytes)
    ensures r == FitWithEllipsis(c, text, force)
  {
    if !force && c.Fits(text) {
      return text;
    }
    var left := text;
    while left != [] && !c.Fits(left + ELLIPSIS)
      invariant Shrunk(c, left) == Shrunk(c, text)
      decreases |left|
    {
      left := RemoveLastUtf8Character(left);
    }
    r := left + ELLIPSIS;
  }

  class DeviceUi {
    const screen: Screen
    const activityLines: array<Bytes>
    var activityLineCount: nat
    var wrappedActivity: Bytes

    constructor (screen: Screen)
      ensures Valid() && fresh(activityLines) && this.screen == screen && wrappedActivity == []
    {
      this.screen := screen;
      activityLines := new Bytes[ACTIVITY_LINES](_ => []);
      activityLineCount := 0;
      wrappedActivity := [];
    }

    ghost predicate HasRoom()
      reads this, activityLines
    {
      activityLines.Length == ACTIVITY_LINES && activityLineCount <= ACTIVITY_LINES
    }

    ghost function Lines(): seq<Bytes>
      reads this, activityLines
      requires HasRoom()
    {
      activityLines[..activityLineCount]
    }

    /** The lines are always those of the text last wrapped. */
    ghost predicate Valid()
      reads this, activityLines
    {
      HasRoom() && Lines() == Wrap(screen, wrappedActivity).lines
    }

    method PushLine(line: Bytes) returns (pushed: bool)
      requires HasRoom()
      modifies this`activityLineCount, activityLines
      ensures HasRoom()
      ensures forall p: Page :: p.lines == old(Lines()) && !p.overflow ==>
                Push(p, line) == p.(lines := Lines(), overflow := !pushed)
    {
      if line == [] {
        return true;
      }
      if activityLineCount >= ACTIVITY_LINES {
        return false;
      }
      activityLines[activityLineCount] := line;
      activityLineCount := activityLineCount + 1;
      pushed := true;
    }

    method SpreadToken(token: Bytes, ghost shortened: bool)
      returns (current: Bytes, overflow: bool, ghost short: bool)
      requires HasRoom()
      modifies this`activityLineCount, activityLines
      ensures HasRoom()
      ensures Page(Lines(), current, overflow, short)
              == PlaceSegments(screen, Page(old(Lines()), [], false, shortened), token, 0)
    {
      current, overflow, short := [], false, shortened;
      var index := 0;
      ghost var whole := PlaceSegments(screen, Page(Lines(), [], false, shortened), token, 0);
      while index < |token| && !overflow
        invariant HasRoom() && index <= |token|
        invariant PlaceSegments(screen, Page(Lines(), current, overflow, short), token, index) == whole
      {
        var end := FindSegmentEnd(token, index);
        current, overflow, short := AddSegment(token[index..end], current, short);
        index := end;
      }
    }

    /** A segment is a run of ASCII, or one other character. */
    static method FindSegmentEnd(token: Bytes, index: nat) returns (end: nat)
      requires index < |token|
      ensures end == SegmentEnd(token, index)
    {
      end := index;
      if token[index] < 0x80 {
        while end < |token| && token[end] < 0x80
          invariant index <= end <= |token| && AsciiEnd(token, end) == AsciiEnd(token, index)
        {
          end := end + 1;
        }
      } else {
        end := end + CharacterLength(token, index);
      }
    }

    method AddSegment(segment: Bytes, chunk: Bytes, ghost shortened: bool)
      returns (current: Bytes, overflow: bool, ghost short: bool)
      requires HasRoom()
      modifies this`activityLineCount, activityLines
      ensures HasRoom()
      ensures Page(Lines(), current, overflow, short)
              == PlaceSegment(screen, Page(old(Lines()), chunk, false, shortened), segment)
    {
      current, short := chunk, shortened;
      var expanded := chunk + segment;
      if !screen.Fits(segment) {
        var pushed := PushLine(chunk);
        if !pushed {
          return current, true, short;
        }
        current, short := [], true;
        var fitted := Fit(screen, segment, false);
        pushed := PushLine(fitted);
        overflow := !pushed;
      } else if chunk != [] && !screen.Fits(expanded) {
        var pushed := PushLine(chunk);
        if !pushed {
          return current, true, short;
        }
        current, overflow := segment, false;
      } else {
        current, overflow := expanded, false;
      }
    }

    method AddToken(token: Bytes, begun: Bytes, ghost shortened: bool)
      returns (current: Bytes, overflow: bool, ghost short: bool)
      requires HasRoom()
      modifies this`activityLineCount, activityLines
      ensures HasRoom()
      ensures Page(Lines(), current, overflow, short)
              == Place(screen, Page(old(Lines()), begun, false, shortened), token)
    {
      current, overflow, short := begun, false, shortened;
      var candidate := if begun == [] then token else begun + [SPACE] + token;
      if screen.Fits(candidate) {
        return candidate, false, short;
      }
      var pushed := PushLine(begun);
      if !pushed {
        return begun, true, short;
      }
      if screen.Fits(token) {
        return token, false, short;
      }
      var ascii := IsAsciiOnly(token);
      if ascii {
        var fitted := Fit(screen, token, false);
        pushed := PushLine(fitted);
        return [], !pushed, true;
      }
      current, overflow, short := SpreadToken(token, short);
    }

    method PrepareCodexActivity(activity: Bytes)
      requires Valid()
      modifies this, activityLines
      ensures Valid() && wrappedActivity == activity
    {
      if activity == wrappedActivity {
        return;
      }
      wrappedActivity := activity;
      activityLineCount := 0;
      var overflow, current, cursor := false, [], 0;
      ghost var short := false;
      ghost var whole := PlaceWords(screen, Page([], [], false, false), activity, 0);
      while cursor < |activity| && !overflow
        invariant HasRoom() && cursor <= |activity| && wrappedActivity == activity
        invariant PlaceWords(screen, Page(Lines(), current, overflow, short), activity, cursor) == whole
      {
        var start := SkipSpace(activity, cursor);
        var end := SkipWord(activity, start);
        if start < end {
          current, overflow, short := AddToken(activity[start..end], current, short);
        }
        cursor := end;
      }
      FinishPage(current, overflow, short);
    }

    method SkipSpace(s: Bytes, i: nat) returns (k: nat)
      requires i <= |s|
      ensures k == WordStart(s, i)
    {
      k := i;
      while k < |s| && IsSpace(s[k])
        invariant i <= k <= |s| && WordStart(s, k) == WordStart(s, i)
      {
        k := k + 1;
      }
    }

    method SkipWord(s: Bytes, i: nat) returns (k: nat)
      requires i <= |s|
      ensures k == WordEnd(s, i)
    {
      k := i;
      while k < |s| && !IsSpace(s[k])
        invariant i <= k <= |s| && WordEnd(s, k) == WordEnd(s, i)
      {
        k := k + 1;
      }
    }

    method FinishPage(current: Bytes, overflowed: bool, ghost short: bool)
      requires HasRoom()
      modifies this`activityLineCount, activityLines
      ensures HasRoom() && Lines() == Finish(screen, Page(old(Lines()), current, overflowed, short)).lines
    {
      var overflow := overflowed;
      if !overflow && current != [] {
        var pushed := PushLine(current);
        overflow := !pushed;
      }
      if overflow && activityLineCount > 0 {
        var last := activityLineCount - 1;
        activityLines[last] := Fit(screen, activityLines[last], true);
      }
    }
  }
}
