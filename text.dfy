/**
 The text handling behind the bulk task form: `str.strip()` and
 `str.splitlines()`, and the comprehension that turns the text area into the
 list of new task titles.

 Whitespace is the set of characters for which Python's `str.isspace`
 holds, and lines are split at every character `str.splitlines` treats as
 a line boundary; a carriage return followed by a line feed is two
 boundaries here, which only adds a blank line.
 */
module Text {

  /**
   The characters `str.strip()` removes: tab through carriage return, the
   four information separators, space, next line, no-break space, and the
   Unicode space, line and paragraph separators.
   */
  predicate IsSpace(c: char)
  {
    || c == ' ' || ('\t' <= c <= '\r') || ('\U{001C}' <= c <= '\U{001F}')
    || c == '\U{0085}' || c == '\U{00A0}' || c == '\U{1680}' || ('\U{2000}' <= c <= '\U{200A}')
    || c == '\U{2028}' || c == '\U{2029}' || c == '\U{202F}' || c == '\U{205F}' || c == '\U{3000}'
  }

  /**
   The characters at which `str.splitlines()` ends a line: line feed, vertical
   tab, form feed, carriage return, the file, group and record separators,
   next line, and the Unicode line and paragraph separators.
   */
  predicate IsLineBreak(c: char)
  {
    || ('\n' <= c <= '\r') || ('\U{001C}' <= c <= '\U{001E}')
    || c == '\U{0085}' || c == '\U{2028}' || c == '\U{2029}'
  }

  /** `s` holds no line boundary. */
  predicate NoBreak(s: string)
  {
    forall i :: 0 <= i < |s| ==> !IsLineBreak(s[i])
  }

  /** Every character of `s` is whitespace (vacuously true of ""). */
  predicate AllSpace(s: string)
  {
    forall i :: 0 <= i < |s| ==> IsSpace(s[i])
  }

  /** `s.lstrip()`: what is left once the leading whitespace is gone. */
  function TrimLeft(s: string): (r: string)
    ensures |r| <= |s|
    ensures r != [] ==> !IsSpace(r[0])
    ensures r == [] <==> AllSpace(s)
  {
    if |s| > 0 && IsSpace(s[0]) then
      var t := s[1..];
      assert AllSpace(s) <==> AllSpace(t) by {
        if AllSpace(t) {
          forall i | 0 <= i < |s| ensures IsSpace(s[i]) { if i > 0 { assert s[i] == t[i - 1]; } }
        }
      }
      TrimLeft(t)
    else s
  }

  /** `lstrip` cuts a prefix of whitespace only: the result is the rest of `s`. */
  lemma {:induction false} TrimLeftSlice(s: string)
    ensures |TrimLeft(s)| <= |s|
    ensures TrimLeft(s) == s[|s| - |TrimLeft(s)|..]
    ensures AllSpace(s[..|s| - |TrimLeft(s)|])
  {
    if |s| > 0 && IsSpace(s[0]) {
      var t := s[1..];
      TrimLeftSlice(t);
      var r := TrimLeft(t);
      var k := |s| - |r|;
      assert t[k - 1..] == s[k..];
      forall i | 0 <= i < k ensures IsSpace(s[..k][i]) {
        if i > 0 { assert s[..k][i] == t[..k - 1][i - 1]; }
      }
    } else {
      assert s[..0] == [];
    }
  }

  /** `s.rstrip()`: what is left once the trailing whitespace is gone. */
  function TrimRight(s: string): (r: string)
    ensures |r| <= |s|
    ensures r != [] ==> !IsSpace(r[|r| - 1])
    ensures r == [] <==> AllSpace(s)
  {
    if |s| > 0 && IsSpace(s[|s| - 1]) then
      var t := s[..|s| - 1];
      assert AllSpace(s) <==> AllSpace(t) by {
        if AllSpace(t) {
          forall i | 0 <= i < |s| ensures IsSpace(s[i]) { if i < |s| - 1 { assert s[i] == t[i]; } }
        }
      }
      TrimRight(t)
    else s
  }

  /** `rstrip` cuts a suffix of whitespace only: the result is the start of `s`. */
  lemma {:induction false} TrimRightSlice(s: string)
    ensures |TrimRight(s)| <= |s|
    ensures TrimRight(s) == s[..|TrimRight(s)|]
    ensures AllSpace(s[|TrimRight(s)|..])
  {
    if |s| > 0 && IsSpace(s[|s| - 1]) {
      var t := s[..|s| - 1];
      TrimRightSlice(t);
      var n := |TrimRight(t)|;
      assert t[..n] == s[..n];
      forall i | 0 <= i < |s| - n ensures IsSpace(s[n..][i]) {
        if i < |s| - 1 - n { assert s[n..][i] == t[n..][i]; }
      }
    } else {
      assert s[|s|..] == [];
    }
  }

  /** Where the stripped text starts in `s`: the number of leading whitespace characters. */
  function StripStart(s: string): nat
  {
    |s| - |TrimLeft(s)|
  }

  /**
   `s.strip()`: no whitespace is left at either end, and the result is
   empty exactly when `s` is all whitespace.
   */
  function Strip(s: string): (r: string)
    ensures |r| <= |s|
    ensures r != [] ==> !IsSpace(r[0]) && !IsSpace(r[|r| - 1])
    ensures r == [] <==> AllSpace(s)
  {
    var l := TrimLeft(s);
    TrimRightSlice(l);
    var r := TrimRight(l);
    assert r != [] ==> r[0] == l[0];
    r
  }

  /** The result of `strip` is the piece of `s` that starts at `StripStart(s)`. */
  lemma StripPiece(s: string)
    ensures StripStart(s) + |Strip(s)| <= |s|
    ensures Strip(s) == s[StripStart(s)..StripStart(s) + |Strip(s)|]
  {
    var l := TrimLeft(s);
    TrimLeftSlice(s);
    TrimRightSlice(l);
    var r := TrimRight(l);
    var k := |s| - |l|;
    assert r == s[k..][..|r|];
    SliceOfSlice(s, k, |r|);
  }

  /** Taking `n` elements of what follows position `k` is the slice from `k` to `k + n`. */
  lemma SliceOfSlice(s: string, k: nat, n: nat)
    requires k + n <= |s|
    ensures s[k..][..n] == s[k..k + n]
  {
  }

  /** What `strip` cuts away is whitespace only, before the piece it keeps and after it. */
  lemma StripCuts(s: string)
    ensures StripStart(s) + |Strip(s)| <= |s|
    ensures AllSpace(s[..StripStart(s)]) && AllSpace(s[StripStart(s) + |Strip(s)|..])
  {
    TrimLeftSlice(s);
    StripCutsAfter(s);
  }

  /** The part after the piece `strip` keeps is whitespace. */
  lemma StripCutsAfter(s: string)
    ensures StripStart(s) + |Strip(s)| <= |s|
    ensures AllSpace(s[StripStart(s) + |Strip(s)|..])
  {
    var l := TrimLeft(s);
    TrimLeftSlice(s);
    TrimRightSlice(l);
    var r := TrimRight(l);
    var k := |s| - |l|;
    DropOfDrop(s, k, |r|);
    assert s[k + |r|..] == l[|r|..];
  }

  /** Dropping `n` elements of what follows position `k` is dropping `k + n`. */
  lemma DropOfDrop(s: string, k: nat, n: nat)
    requires k + n <= |s|
    ensures s[k..][n..] == s[k + n..]
  {
  }

  /** Stripping never introduces a line boundary: a line strips to a line. */
  lemma StripKeepsNoBreak(s: string)
    requires NoBreak(s)
    ensures NoBreak(Strip(s))
  {
    var r := Strip(s);
    var k := StripStart(s);
    StripPiece(s);
    forall i | 0 <= i < |r| ensures !IsLineBreak(r[i]) {
      assert r[i] == s[k + i];
    }
  }

  /** Stripping twice is stripping once. */
  lemma StripIdempotent(s: string)
    ensures Strip(Strip(s)) == Strip(s)
  {
    var r := Strip(s);
    if r != [] {
      assert TrimLeft(r) == r;
      assert TrimRight(r) == r;
    }
  }

  /** A text with no whitespace at either end is its own strip. */
  lemma StrippedIsFixed(t: string)
    requires Stripped(t)
    ensures Strip(t) == t
  {
    assert TrimLeft(t) == t;
    assert TrimRight(t) == t;
  }

  /**
   The lines of `text`, cut at every line boundary: at least one, none
   holding a boundary. Beside `str.splitlines()` this adds only blank lines:
   one after a final boundary, one for "", one inside each "\r\n".
   */
  function Lines(text: string): (r: seq<string>)
    ensures |r| >= 1
    ensures forall i :: 0 <= i < |r| ==> NoBreak(r[i])
  {
    if text == [] then [""]
    else
      var rest := Lines(text[1..]);
      if IsLineBreak(text[0]) then [""] + rest
      else
        var first := [text[0]] + rest[0];
        assert NoBreak(first) by {
          forall j | 0 <= j < |first| ensures !IsLineBreak(first[j]) {
            if j > 0 { assert first[j] == rest[0][j - 1]; }
          }
        }
        [first] + rest[1..]
  }

  /** `text` with each line boundary written as a line feed. */
  function UnifyBreaks(text: string): (r: string)
    ensures |r| == |text|
    ensures forall i :: 0 <= i < |text| ==> r[i] == (if IsLineBreak(text[i]) then '\n' else text[i])
  {
    if text == [] then []
    else [if IsLineBreak(text[0]) then '\n' else text[0]] + UnifyBreaks(text[1..])
  }

  /** A text without line boundaries is left as it is. */
  lemma UnifyBreaksNoBreak(text: string)
    requires NoBreak(text)
    ensures UnifyBreaks(text) == text
  {
    var u := UnifyBreaks(text);
    assert forall i :: 0 <= i < |text| ==> u[i] == text[i];
  }

  /** Every line boundary, and hence the line feed it becomes, is whitespace. */
  lemma AllSpaceUnify(text: string)
    ensures AllSpace(UnifyBreaks(text)) <==> AllSpace(text)
  {
    var u := UnifyBreaks(text);
    assert forall i :: 0 <= i < |text| ==> (IsSpace(u[i]) <==> IsSpace(text[i]));
  }

  /** `'\n'.join(lines)`. */
  function Join(lines: seq<string>): string
    requires |lines| >= 1
  {
    if |lines| == 1 then lines[0] else lines[0] + "\n" + Join(lines[1..])
  }

  /** Splitting loses only which boundary ended each line: joining with line feeds gives the text back with its boundaries unified. */
  lemma {:induction false} JoinLines(text: string)
    ensures Join(Lines(text)) == UnifyBreaks(text)
  {
    if text != [] {
      var rest := Lines(text[1..]);
      JoinLines(text[1..]);
      var c := if IsLineBreak(text[0]) then '\n' else text[0];
      assert UnifyBreaks(text) == [c] + UnifyBreaks(text[1..]);
      if IsLineBreak(text[0]) {
        assert Lines(text) == [""] + rest;
        assert ([""] + rest)[1..] == rest;
      } else {
        var ls := Lines(text);
        assert ls[0] == [text[0]] + rest[0] && ls[1..] == rest[1..];
        if |rest| > 1 {
          assert Join(rest) == rest[0] + "\n" + Join(rest[1..]);
        }
      }
    }
  }

  /** Splitting a line without a boundary, a line feed, and more text. */
  lemma {:induction false} LinesCons(line: string, more: string)
    requires NoBreak(line)
    ensures Lines(line + "\n" + more) == [line] + Lines(more)
  {
    if line == [] {
      assert line + "\n" + more == "\n" + more;
      assert ("\n" + more)[1..] == more;
    } else {
      var text := line + "\n" + more;
      assert text[0] == line[0] && text[1..] == line[1..] + "\n" + more;
      assert NoBreak(line[1..]) by {
        forall j | 0 <= j < |line| - 1 ensures !IsLineBreak(line[1..][j]) { assert line[1..][j] == line[j + 1]; }
      }
      LinesCons(line[1..], more);
      assert [line[0]] + line[1..] == line;
    }
  }

  /** Joining lines that hold no boundary and splitting again gives the lines back. */
  lemma {:induction false} LinesJoin(lines: seq<string>)
    requires |lines| >= 1
    requires forall i :: 0 <= i < |lines| ==> NoBreak(lines[i])
    ensures Lines(Join(lines)) == lines
  {
    if |lines| == 1 {
      LinesOfLine(lines[0]);
    } else {
      assert forall i :: 0 <= i < |lines| - 1 ==> lines[1..][i] == lines[i + 1];
      LinesJoin(lines[1..]);
      LinesCons(lines[0], Join(lines[1..]));
    }
  }

  /** A text without a line boundary is one line. */
  lemma {:induction false} LinesOfLine(line: string)
    requires NoBreak(line)
    ensures Lines(line) == [line]
  {
    if line != [] {
      assert NoBreak(line[1..]) by {
        forall j | 0 <= j < |line| - 1 ensures !IsLineBreak(line[1..][j]) { assert line[1..][j] == line[j + 1]; }
      }
      LinesOfLine(line[1..]);
      assert [line[0]] + line[1..] == line;
    }
  }

  /** A non-empty text with no whitespace at either end, as `strip` leaves a non-blank line. */
  predicate Stripped(t: string)
  {
    t != [] && !IsSpace(t[0]) && !IsSpace(t[|t| - 1])
  }

  /**
   `[l.strip() for l in lines if l.strip()]`: at most one title per line,
   each non-empty with no whitespace at either end.
   */
  function KeepStripped(lines: seq<string>): (r: seq<string>)
    ensures |r| <= |lines|
    ensures forall i :: 0 <= i < |r| ==> Stripped(r[i])
  {
    if lines == [] then []
    else
      var t := Strip(lines[0]);
      var rest := KeepStripped(lines[1..]);
      if t != "" then
        assert Stripped(t);
        [t] + rest
      else rest
  }

  /**
   The titles the bulk form adds for `text`: one per line that is not blank,
   stripped, so each is non-empty with no whitespace at either end.
   */
  function TaskLines(text: string): (r: seq<string>)
    ensures forall i :: 0 <= i < |r| ==> Stripped(r[i])
  {
    KeepStripped(Lines(text))
  }

  /** A concatenation is all whitespace exactly when both parts are. */
  lemma AllSpaceConcat(a: string, b: string)
    ensures AllSpace(a + b) <==> AllSpace(a) && AllSpace(b)
  {
    if AllSpace(a + b) {
      forall i | 0 <= i < |a| ensures IsSpace(a[i]) { assert a[i] == (a + b)[i]; }
      forall i | 0 <= i < |b| ensures IsSpace(b[i]) { assert b[i] == (a + b)[|a| + i]; }
    }
  }

  /** Joined lines are all whitespace exactly when every line is. */
  lemma {:induction false} AllSpaceJoin(lines: seq<string>)
    requires |lines| >= 1
    ensures AllSpace(Join(lines)) <==> forall i :: 0 <= i < |lines| ==> AllSpace(lines[i])
  {
    if |lines| > 1 {
      AllSpaceJoin(lines[1..]);
      AllSpaceConcat(lines[0], "\n");
      AllSpaceConcat(lines[0] + "\n", Join(lines[1..]));
      assert forall i :: 1 <= i < |lines| ==> lines[i] == lines[1..][i - 1];
    }
  }

  /** The comprehension keeps nothing exactly when every line is blank. */
  lemma {:induction false} KeepStrippedEmpty(lines: seq<string>)
    ensures KeepStripped(lines) == [] <==> forall i :: 0 <= i < |lines| ==> AllSpace(lines[i])
  {
    if lines != [] {
      KeepStrippedEmpty(lines[1..]);
      assert forall i :: 1 <= i < |lines| ==> lines[i] == lines[1..][i - 1];
    }
  }

  /**
   The bulk form's guard `text.strip()` is redundant: the comprehension yields
   no title exactly when the stripped text is empty.
   */
  lemma TaskLinesEmpty(text: string)
    ensures TaskLines(text) == [] <==> Strip(text) == ""
  {
    JoinLines(text);
    AllSpaceUnify(text);
    AllSpaceJoin(Lines(text));
    KeepStrippedEmpty(Lines(text));
  }

  /** Each title the comprehension keeps lies within one line and holds no boundary. */
  lemma {:induction false} KeepStrippedOneLine(lines: seq<string>)
    requires forall i :: 0 <= i < |lines| ==> NoBreak(lines[i])
    ensures forall i :: 0 <= i < |KeepStripped(lines)| ==> NoBreak(KeepStripped(lines)[i])
  {
    if lines != [] {
      var t := Strip(lines[0]);
      var rest := KeepStripped(lines[1..]);
      StripKeepsNoBreak(lines[0]);
      assert forall i :: 0 <= i < |lines| - 1 ==> lines[1..][i] == lines[i + 1];
      KeepStrippedOneLine(lines[1..]);
      if t != "" {
        var r := [t] + rest;
        assert KeepStripped(lines) == r;
        forall i | 0 <= i < |r| ensures NoBreak(r[i]) {
          if i > 0 { assert r[i] == rest[i - 1]; }
        }
      }
    }
  }

  /** No task title added from the text area holds a line boundary. */
  lemma TaskLinesOneLine(text: string)
    ensures forall i :: 0 <= i < |TaskLines(text)| ==> NoBreak(TaskLines(text)[i])
  {
    KeepStrippedOneLine(Lines(text));
  }
}
