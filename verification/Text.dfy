/**
 The part of Python's `str` that the audit gate relies on: white space, `strip`,
 `startswith`, `split(":", 1)` and the line splitting of a text-mode file handle.
 */
module Text {

  datatype Option<+T> = None | Some(value: T)

  /** `str.isspace` for one character: the white-space code points of Python 3. */
  predicate IsSpace(c: char) {
    || '\U{9}' <= c <= '\U{D}'
    || '\U{1C}' <= c <= ' '
    || c == '\U{85}' || c == '\U{A0}' || c == '\U{1680}'
    || '\U{2000}' <= c <= '\U{200A}'
    || c == '\U{2028}' || c == '\U{2029}' || c == '\U{202F}' || c == '\U{205F}' || c == '\U{3000}'
  }

  /** Among the ASCII characters these ten are white space, and no other. */
  lemma AsciiSpace(c: char)
    requires c <= '\U{7F}'
    ensures IsSpace(c) <==>
            c in ['\t', '\n', '\U{B}', '\U{C}', '\r', '\U{1C}', '\U{1D}', '\U{1E}', '\U{1F}', ' ']
  {
  }

  predicate Blank(s: string) {
    forall i :: 0 <= i < |s| ==> IsSpace(s[i])
  }

  /** Nothing to strip: both ends are absent or not white space. */
  predicate Trimmed(s: string) {
    s != "" ==> !IsSpace(s[0]) && !IsSpace(s[|s| - 1])
  }

  function LStrip(s: string): (r: string)
    ensures |r| <= |s| && r == s[|s| - |r|..]
    ensures r != "" ==> !IsSpace(r[0])
    ensures Blank(s[..|s| - |r|])
  {
    if s != "" && IsSpace(s[0]) then LStrip(s[1..]) else s
  }

  function RStrip(s: string): (r: string)
    ensures r <= s
    ensures r != "" ==> !IsSpace(r[|r| - 1])
    ensures Blank(s[|r|..])
  {
    if s != "" && IsSpace(s[|s| - 1]) then RStrip(s[..|s| - 1]) else s
  }

  function Strip(s: string): (r: string)
    ensures Trimmed(r)
  {
    var l := LStrip(s);
    var r := RStrip(l);
    assert r != "" ==> r[0] == l[0];
    r
  }

  predicate StartsWith(s: string, prefix: string) {
    prefix <= s
  }

  predicate HasColon(s: string) {
    exists i :: 0 <= i < |s| && s[i] == ':'
  }

  /** `line.split(":", 1)`; `None` is the `ValueError` of unpacking a line without a colon. */
  function SplitColon(s: string): (r: Option<(string, string)>)
    ensures r.Some? <==> HasColon(s)
    ensures r.Some? ==> !HasColon(r.value.0) && s == r.value.0 + ":" + r.value.1
  {
    if s == "" then None
    else if s[0] == ':' then
      assert s == "" + ":" + s[1..];
      Some(("", s[1..]))
    else
      var rest := SplitColon(s[1..]);
      assert forall i :: 0 < i < |s| ==> s[i] == s[1..][i - 1];
      if rest.None? then
        None
      else
        assert s[1..][|rest.value.0|] == ':';
        assert s == [s[0]] + rest.value.0 + ":" + rest.value.1;
        assert !HasColon([s[0]] + rest.value.0) by {
          assert forall i :: 0 < i <= |rest.value.0| ==> ([s[0]] + rest.value.0)[i] == rest.value.0[i - 1];
        }
        Some(([s[0]] + rest.value.0, rest.value.1))
  }

  predicate IsBreak(c: char) {
    c == '\n' || c == '\r'
  }

  predicate OneLine(s: string) {
    forall i :: 0 <= i < |s| ==> !IsBreak(s[i])
  }

  /** Length of the line at the front of `text`, without its terminator. */
  function LineLength(text: string): (n: nat)
    ensures n <= |text|
    ensures OneLine(text[..n])
    ensures n < |text| ==> IsBreak(text[n])
  {
    if text == "" || IsBreak(text[0]) then 0
    else
      var n := LineLength(text[1..]);
      assert text[..n + 1] == [text[0]] + text[1..][..n];
      n + 1
  }

  /** The lines a text-mode handle yields (universal newlines: `\n`, `\r` and `\r\n` end a line). */
  function Lines(text: string): (lines: seq<string>)
    decreases |text|
  {
    if text == "" then []
    else
      var n := LineLength(text);
      var skip := if n < |text| && StartsWith(text[n..], "\r\n") then 2 else if n < |text| then 1 else 0;
      [text[..n]] + Lines(text[n + skip..])
  }

  lemma {:induction false} LStripPadded(pad: string, s: string)
    requires Blank(pad)
    ensures LStrip(pad + s) == LStrip(s)
  {
    if pad == "" {
      assert pad + s == s;
    } else {
      assert (pad + s)[1..] == pad[1..] + s;
      LStripPadded(pad[1..], s);
    }
  }

  lemma {:induction false} RStripPadded(s: string, pad: string)
    requires Blank(pad)
    ensures RStrip(s + pad) == RStrip(s)
  {
    if pad == "" {
      assert s + pad == s;
    } else {
      var k := |pad| - 1;
      assert (s + pad)[..|s + pad| - 1] == s + pad[..k];
      RStripPadded(s, pad[..k]);
    }
  }

  lemma {:induction false} LStripThenPad(s: string, pad: string)
    requires Blank(pad)
    ensures LStrip(s + pad) == if Blank(s) then "" else LStrip(s) + pad
  {
    if s == "" {
      LStripPadded(pad, "");
      assert pad + "" == s + pad;
    } else if IsSpace(s[0]) {
      assert (s + pad)[1..] == s[1..] + pad;
      LStripThenPad(s[1..], pad);
      assert Blank(s) <==> Blank(s[1..]) by {
        assert forall i :: 0 < i < |s| ==> s[i] == s[1..][i - 1];
      }
    }
  }

  /** Padding a line with white space on either side does not change its stripped form. */
  lemma StripPadded(left: string, s: string, right: string)
    requires Blank(left) && Blank(right)
    ensures Strip(left + s + right) == Strip(s)
  {
    assert left + s + right == left + (s + right);
    LStripPadded(left, s + right);
    LStripThenPad(s, right);
    if Blank(s) {
      LStripPadded(s, "");
      assert s + "" == s;
    } else {
      RStripPadded(LStrip(s), right);
    }
  }

  lemma StripTrimmed(s: string)
    requires Trimmed(s)
    ensures Strip(s) == s
  {
  }

  /** The first line of a text is split off exactly, whatever follows its line feed. */
  lemma {:induction false} LineLengthAt(line: string, rest: string)
    requires OneLine(line)
    ensures LineLength(line + "\n" + rest) == |line|
  {
    if line != "" {
      assert (line + "\n" + rest)[1..] == line[1..] + "\n" + rest;
      LineLengthAt(line[1..], rest);
    }
  }

  lemma LinesCons(line: string, rest: string)
    requires OneLine(line)
    ensures Lines(line + "\n" + rest) == [line] + Lines(rest)
  {
    var text := line + "\n" + rest;
    LineLengthAt(line, rest);
    assert text[..|line|] == line;
    assert text[|line|..][0] == '\n';
    assert text[|line| + 1..] == rest;
  }

  lemma {:induction false} LineLengthBefore(line: string, tail: string)
    requires OneLine(line) && tail != "" && IsBreak(tail[0])
    ensures LineLength(line + tail) == |line|
  {
    if line == "" {
      assert line + tail == tail;
    } else {
      assert (line + tail)[1..] == line[1..] + tail;
      LineLengthBefore(line[1..], tail);
    }
  }

  lemma LinesBefore(line: string, tail: string, skip: nat)
    requires OneLine(line) && tail != "" && IsBreak(tail[0])
    requires skip == if StartsWith(tail, "\r\n") then 2 else 1
    ensures Lines(line + tail) == [line] + Lines(tail[skip..])
  {
    var text := line + tail;
    LineLengthBefore(line, tail);
    assert text != "" && text[..|line|] == line && text[|line|..] == tail && text[|line|] == tail[0];
    assert text[|line| + skip..] == tail[skip..];
  }

  /** A carriage return and a line feed end one line, not two. */
  lemma LinesCrLf(line: string, rest: string)
    requires OneLine(line)
    ensures Lines(line + "\r\n" + rest) == [line] + Lines(rest)
  {
    var tail := "\r\n" + rest;
    assert line + "\r\n" + rest == line + tail && tail[2..] == rest;
    LinesBefore(line, tail, 2);
  }

  /** So does a carriage return alone. */
  lemma LinesCr(line: string, rest: string)
    requires OneLine(line) && !StartsWith(rest, "\n")
    ensures Lines(line + "\r" + rest) == [line] + Lines(rest)
  {
    var tail := "\r" + rest;
    assert line + "\r" + rest == line + tail && tail[1..] == rest;
    assert tail[1..] == rest && (StartsWith(tail, "\r\n") <==> StartsWith(tail[1..], "\n"));
    LinesBefore(line, tail, 1);
  }

  lemma {:induction false} LineLengthWhole(line: string)
    requires OneLine(line)
    ensures LineLength(line) == |line|
  {
    if line != "" {
      LineLengthWhole(line[1..]);
    }
  }

  /** The last line needs no terminator, and no terminator leaves an empty line behind. */
  lemma LinesLast(line: string)
    requires OneLine(line)
    ensures Lines(line) == if line == "" then [] else [line]
  {
    LineLengthWhole(line);
    if line != "" {
      assert line[..|line|] == line && line[|line|..] == "";
    }
  }
}
