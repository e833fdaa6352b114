/**
 How one line of the audit-exception list is read
 (`split_kv` and the line tests of `parse_exceptions` in tools/check_pnpm_audit_exceptions.py).
 */
module ExceptionLexer {
  import opened Text

  predicate Quoted(value: string, quote: char) {
    value != "" && value[0] == quote && value[|value| - 1] == quote
  }

  /** `value[1:-1]` under a matching pair of quotes; a lone quote loses its only character. */
  function Unquote(value: string): string {
    if Quoted(value, '"') || Quoted(value, '\'') then
      if |value| == 1 then "" else value[1..|value| - 1]
    else value
  }

  function SplitKv(line: string): (kv: Option<(string, string)>)
    ensures kv.Some? <==> HasColon(line)
    ensures kv.Some? ==> Trimmed(kv.value.0)
  {
    match SplitColon(line)
    case None => None
    case Some((key, value)) => Some((Strip(key), Unquote(Strip(value))))
  }

  /** What a line means to the parser: skipped, a new record (with its first pair, with nothing,
      or with text that cannot be split), a further pair, or text without a colon. */
  datatype Token =
    | Skip
    | Item(key: string, value: string)
    | BareItem
    | BadItem
    | Pair(key: string, value: string)
    | Prose

  predicate Skipped(line: string) {
    || line == "" || StartsWith(line, "#")
    || StartsWith(line, "version:") || StartsWith(line, "exceptions:")
  }

  function ItemToken(line: string): Token {
    if line == "" then BareItem
    else match SplitKv(line)
      case None => BadItem
      case Some((key, value)) => Item(key, value)
  }

  /** The token of a stripped line. */
  function Classify(line: string): Token {
    if Skipped(line) then Skip
    else if StartsWith(line, "- ") then ItemToken(Strip(line[2..]))
    else match SplitKv(line)
      case None => Prose
      case Some((key, value)) => Pair(key, value)
  }

  function Lex(raw: string): Token {
    Classify(Strip(raw))
  }

  /** Leading and trailing white space is inert. */
  lemma PaddedToken(left: string, line: string, right: string)
    requires Blank(left) && Blank(right)
    ensures Lex(left + line + right) == Lex(line)
  {
    StripPadded(left, line, right);
  }

  lemma BlankToken(noise: string)
    requires Blank(noise)
    ensures Lex(noise) == Skip
  {
    StripPadded(noise, "", "");
    assert noise + "" + "" == noise;
  }

  lemma StripEnds(s: string)
    requires s != "" && !IsSpace(s[|s| - 1])
    ensures Strip(s) != ""
  {
    assert s[..|s|] == s;
    var l := LStrip(s);
    if l != "" {
      assert l[|l| - 1] == s[|s| - 1];
    }
  }

  lemma DashedRest(line: string)
    requires Trimmed(line) && StartsWith(line, "- ")
    ensures Strip(line[2..]) != ""
  {
    assert line[1] == ' ';
    assert |line| > 2;
    assert line[2..][|line| - 3] == line[|line| - 1];
    StripEnds(line[2..]);
  }

  /** A stripped line that starts with a dash and a space has something after them. */
  lemma NeverBare(raw: string)
    ensures Lex(raw) != BareItem
  {
    hide Strip, Skipped, SplitKv;
    var line := Strip(raw);
    if !Skipped(line) && StartsWith(line, "- ") {
      DashedRest(line);
    }
  }

  lemma DashedNotSkipped(line: string)
    requires StartsWith(line, "- ")
    ensures !Skipped(line)
  {
    assert line[0] == '-';
    assert "#"[0] == '#' && "version:"[0] == 'v' && "exceptions:"[0] == 'e';
  }

  lemma ColonConcat(a: string, b: string)
    ensures HasColon(a + b) <==> HasColon(a) || HasColon(b)
  {
    var s := a + b;
    if HasColon(a) {
      var i :| 0 <= i < |a| && a[i] == ':';
      assert s[i] == ':';
    }
    if HasColon(b) {
      var i :| 0 <= i < |b| && b[i] == ':';
      assert s[|a| + i] == ':';
    }
  }

  lemma BlankNoColon(s: string)
    requires Blank(s)
    ensures !HasColon(s)
  {
    assert !IsSpace(':');
  }

  lemma ColonMiddle(a: string, b: string, c: string)
    requires !HasColon(a) && !HasColon(c)
    ensures HasColon(a + b + c) <==> HasColon(b)
  {
    ColonConcat(a + b, c);
    ColonConcat(a, b);
    hide HasColon;
  }

  lemma LStripParts(s: string) returns (left: string)
    ensures Blank(left) && s == left + LStrip(s)
  {
    left := s[..|s| - |LStrip(s)|];
    hide LStrip, Blank;
  }

  lemma RStripParts(s: string) returns (right: string)
    ensures Blank(right) && s == RStrip(s) + right
  {
    right := s[|RStrip(s)|..];
    hide RStrip, Blank;
  }

  /** What `strip` takes off is white space. */
  lemma StripParts(s: string) returns (left: string, right: string)
    ensures Blank(left) && Blank(right) && s == left + Strip(s) + right
  {
    left := LStripParts(s);
    right := RStripParts(LStrip(s));
    hide LStrip, RStrip, Blank;
    assert left + (Strip(s) + right) == left + Strip(s) + right;
  }

  lemma StripKeepsColon(s: string)
    ensures HasColon(Strip(s)) <==> HasColon(s)
  {
    var left, right := StripParts(s);
    BlankNoColon(left);
    BlankNoColon(right);
    hide Strip, Blank, HasColon;
    ColonMiddle(left, Strip(s), right);
  }

  lemma DashNoColon()
    ensures !HasColon("- ")
  {
  }

  lemma DashedColon(line: string)
    requires StartsWith(line, "- ")
    ensures HasColon(Strip(line[2..])) <==> HasColon(line)
  {
    StripKeepsColon(line[2..]);
    DashNoColon();
    hide Strip, HasColon;
    ColonConcat("- ", line[2..]);
    assert line == "- " + line[2..];
  }

  /** The line starts with a dash and a space once stripped. */
  predicate Dashed(raw: string) {
    StartsWith(Strip(raw), "- ")
  }

  /** A line opens a record iff it starts with a dash and a space once stripped; it is one the parser
      cannot read iff in addition it has no colon. */
  lemma DashedToken(raw: string)
    ensures Lex(raw).Item? || Lex(raw).BareItem? || Lex(raw).BadItem? <==> Dashed(raw)
    ensures Lex(raw).BadItem? <==> Dashed(raw) && !HasColon(raw)
  {
    var line := Strip(raw);
    StripKeepsColon(raw);
    NeverBare(raw);
    if Dashed(raw) {
      DashedNotSkipped(line);
      DashedColon(line);
      hide Strip, Skipped, HasColon;
    } else {
      hide Strip, Skipped, HasColon;
    }
  }

  lemma ProseToken(raw: string)
    requires !Dashed(raw) && !HasColon(raw)
    ensures Lex(raw) == Skip || Lex(raw) == Prose
  {
    StripKeepsColon(raw);
    hide Strip, Skipped, HasColon;
  }

  // ---------------------------------------------------------------------------
  // Rendered pairs
  // ---------------------------------------------------------------------------

  /** The ways to write a value. */
  datatype Style = Bare | Single | Double

  datatype KeyValue = KeyValue(key: string, value: string, style: Style)

  /** What stands after the colon. */
  function Tail(p: KeyValue): string {
    match p.style
    case Bare => if p.value == "" then "" else " " + p.value
    case Single => " '" + p.value + "'"
    case Double => " \"" + p.value + "\""
  }

  function RenderPair(p: KeyValue): string {
    p.key + ":" + Tail(p)
  }

  predicate Enclosed(value: string) {
    Quoted(value, '"') || Quoted(value, '\'')
  }

  /** What a pair must satisfy anywhere: its key has no colon and no outer white space, neither part breaks
      the line, and a value written bare has no outer white space and is not enclosed in quotes. */
  predicate PlainPair(p: KeyValue) {
    && !HasColon(p.key) && Trimmed(p.key) && OneLine(p.key) && OneLine(p.value)
    && (p.style.Bare? ==> Trimmed(p.value) && !Enclosed(p.value))
  }

  /** What a key must satisfy in addition after the first pair of a record. */
  predicate MorePair(p: KeyValue) {
    && PlainPair(p)
    && !StartsWith(p.key, "#") && !StartsWith(p.key, "- ")
    && p.key != "version" && p.key != "exceptions"
  }

  lemma {:induction false} SplitAtFirst(key: string, rest: string)
    requires !HasColon(key)
    ensures SplitColon(key + ":" + rest) == Some((key, rest))
  {
    var s := key + ":" + rest;
    assert s[|key|] == ':';
    if key == "" {
      assert s[1..] == rest;
    } else {
      assert s[0] == key[0];
      assert s[1..] == key[1..] + ":" + rest;
      assert forall i :: 0 <= i < |key[1..]| ==> key[1..][i] == key[i + 1];
      SplitAtFirst(key[1..], rest);
      assert [key[0]] + key[1..] == key;
    }
  }

  lemma TailEnd(p: KeyValue)
    requires PlainPair(p)
    ensures Tail(p) != "" ==> !IsSpace(Tail(p)[|Tail(p)| - 1])
    ensures OneLine(Tail(p))
  {
  }

  lemma RenderedTrimmed(p: KeyValue)
    requires PlainPair(p)
    ensures Trimmed(RenderPair(p))
  {
    TailEnd(p);
    hide Tail;
    var line := RenderPair(p);
    assert line[0] == if p.key == "" then ':' else p.key[0];
    assert line[|line| - 1] == if Tail(p) == "" then ':' else Tail(p)[|Tail(p)| - 1];
  }

  lemma OneLineConcat(a: string, b: string)
    requires OneLine(a) && OneLine(b)
    ensures OneLine(a + b)
  {
  }

  lemma RenderedLine(p: KeyValue)
    requires PlainPair(p)
    ensures OneLine("- " + RenderPair(p)) && OneLine("  " + RenderPair(p))
  {
    TailEnd(p);
    assert OneLine(":") && OneLine("- ") && OneLine("  ");
    hide Tail, OneLine;
    OneLineConcat(p.key, ":");
    OneLineConcat(p.key + ":", Tail(p));
    OneLineConcat("- ", RenderPair(p));
    OneLineConcat("  ", RenderPair(p));
  }

  lemma StripSpaced(s: string)
    requires Trimmed(s)
    ensures Strip(" " + s) == s
  {
    var pad := " ";
    StripPadded(pad, s, "");
    assert pad + s + "" == pad + s;
    StripTrimmed(s);
  }

  lemma EnclosedTrimmed(value: string, quote: char)
    requires !IsSpace(quote)
    ensures Trimmed([quote] + value + [quote])
    ensures Quoted([quote] + value + [quote], quote)
    ensures ([quote] + value + [quote])[1..|value| + 1] == value
  {
    var s := [quote] + value + [quote];
    assert s[0] == quote && s[|s| - 1] == quote;
  }

  /** A value in quotes of either kind survives whatever it contains: inner quotes, colons, outer spaces. */
  lemma UnquoteQuoted(value: string, quote: char)
    requires quote == '"' || quote == '\''
    ensures Unquote([quote] + value + [quote]) == value
  {
    EnclosedTrimmed(value, quote);
  }

  /** A value that no pair of quotes encloses is left alone; a lone quote is taken for both of them. */
  lemma UnquoteBare(value: string)
    ensures !Enclosed(value) ==> Unquote(value) == value
    ensures |value| == 1 && Enclosed(value) ==> Unquote(value) == ""
  {
  }

  lemma TailRead(p: KeyValue)
    requires PlainPair(p)
    ensures Unquote(Strip(Tail(p))) == p.value
  {
    match p.style {
      case Bare =>
        UnquoteBare(p.value);
        hide Unquote;
        if p.value == "" {
          StripTrimmed("");
        } else {
          StripSpaced(p.value);
        }
      case Single =>
        TailQuoted(p, '\'');
      case Double =>
        TailQuoted(p, '"');
    }
  }

  lemma TailQuoted(p: KeyValue, quote: char)
    requires p.style == (if quote == '"' then Double else Single) && (quote == '"' || quote == '\'')
    ensures Unquote(Strip(Tail(p))) == p.value
  {
    var quoted := [quote] + p.value + [quote];
    assert Tail(p) == " " + quoted;
    EnclosedTrimmed(p.value, quote);
    UnquoteQuoted(p.value, quote);
    hide Unquote, Strip;
    StripSpaced(quoted);
  }

  /** The line `key: value` is read as that very pair, whichever way the value is written. */
  lemma SplitRendered(p: KeyValue)
    requires PlainPair(p)
    ensures SplitKv(RenderPair(p)) == Some((p.key, p.value))
  {
    SplitAtFirst(p.key, Tail(p));
    TailRead(p);
    StripTrimmed(p.key);
    hide Tail, Strip, Unquote, SplitColon;
  }

  lemma NotKeyword(p: KeyValue, word: string)
    requires PlainPair(p) && p.key != word && !HasColon(word)
    ensures !StartsWith(RenderPair(p), word + ":")
  {
    var line := RenderPair(p);
    SplitAtFirst(p.key, Tail(p));
    hide Tail;
    if word + ":" <= line {
      var rest := line[|word| + 1..];
      assert line == word + ":" + rest;
      SplitAtFirst(word, rest);
    }
  }

  lemma RenderedNotSkipped(p: KeyValue)
    requires MorePair(p)
    ensures !Skipped(RenderPair(p)) && !StartsWith(RenderPair(p), "- ")
  {
    var line := RenderPair(p);
    NotKeyword(p, "version");
    NotKeyword(p, "exceptions");
    assert "version" + ":" == "version:" && "exceptions" + ":" == "exceptions:";
    assert line[|p.key|] == ':';
    if p.key != "" {
      assert line[0] == p.key[0];
      assert |p.key| >= 2 ==> line[1] == p.key[1];
    }
  }

  lemma IndentedLex(p: KeyValue)
    requires PlainPair(p)
    ensures Lex("  " + RenderPair(p)) == Classify(RenderPair(p))
  {
    var line := RenderPair(p);
    StripPadded("  ", line, "");
    assert "  " + line + "" == "  " + line;
    RenderedTrimmed(p);
    StripTrimmed(line);
  }

  lemma MoreToken(p: KeyValue)
    requires MorePair(p)
    ensures Lex("  " + RenderPair(p)) == Pair(p.key, p.value)
  {
    IndentedLex(p);
    RenderedNotSkipped(p);
    SplitRendered(p);
  }

  lemma PrefixOfRendered(p: KeyValue, prefix: string)
    requires StartsWith(p.key, prefix)
    ensures StartsWith(RenderPair(p), prefix)
  {
    assert RenderPair(p) == p.key + (":" + Tail(p));
  }

  lemma NotPairClass(line: string)
    requires Skipped(line) || StartsWith(line, "- ")
    ensures !Classify(line).Pair?
  {
  }

  lemma KeywordLine(p: KeyValue, word: string)
    requires p.key == word
    ensures StartsWith(RenderPair(p), word + ":")
  {
    assert RenderPair(p) == word + ":" + Tail(p);
  }

  lemma RenderedTaken(p: KeyValue)
    requires PlainPair(p) && !MorePair(p)
    ensures Skipped(RenderPair(p)) || StartsWith(RenderPair(p), "- ")
  {
    if StartsWith(p.key, "#") {
      PrefixOfRendered(p, "#");
    } else if StartsWith(p.key, "- ") {
      PrefixOfRendered(p, "- ");
    } else {
      KeywordLine(p, p.key);
      assert "version" + ":" == "version:" && "exceptions" + ":" == "exceptions:";
    }
  }

  /** The conditions on a continuation key are exact: without them its line is not read as a pair. */
  lemma MoreTokenOnlyIf(p: KeyValue)
    requires PlainPair(p) && !MorePair(p)
    ensures !Lex("  " + RenderPair(p)).Pair?
  {
    IndentedLex(p);
    RenderedTaken(p);
    NotPairClass(RenderPair(p));
  }

  /** No other key can be read at all: every key is trimmed and free of colons. */
  lemma LexKeyPlain(raw: string)
    ensures Lex(raw).Item? || Lex(raw).Pair? ==> Trimmed(Lex(raw).key) && !HasColon(Lex(raw).key)
  {
    var line := Strip(raw);
    SplitKeyPlain(line);
    if StartsWith(line, "- ") {
      SplitKeyPlain(Strip(line[2..]));
    }
  }

  lemma SplitKeyPlain(line: string)
    ensures SplitKv(line).Some? ==> Trimmed(SplitKv(line).value.0) && !HasColon(SplitKv(line).value.0)
  {
    if SplitColon(line).Some? {
      StripKeepsColon(SplitColon(line).value.0);
    }
  }

  lemma ItemLineShape(inner: string)
    requires inner != "" && Trimmed(inner)
    ensures Trimmed("- " + inner) && !Skipped("- " + inner) && StartsWith("- " + inner, "- ")
    ensures ("- " + inner)[2..] == inner
  {
    var line := "- " + inner;
    assert line[0] == '-' && line[1] == ' ';
    assert line[|line| - 1] == inner[|inner| - 1];
    assert "#"[0] == '#' && "version:"[0] == 'v' && "exceptions:"[0] == 'e';
  }

  lemma ItemClass(line: string)
    requires !Skipped(line) && StartsWith(line, "- ")
    ensures Classify(line) == ItemToken(Strip(line[2..]))
  {
  }

  lemma ItemLine(inner: string)
    requires inner != "" && Trimmed(inner)
    ensures Lex("- " + inner) == ItemToken(inner)
  {
    ItemLineShape(inner);
    StripTrimmed("- " + inner);
    ItemClass("- " + inner);
    StripTrimmed(inner);
  }

  lemma FirstToken(p: KeyValue)
    requires PlainPair(p)
    ensures Lex("- " + RenderPair(p)) == Item(p.key, p.value)
  {
    RenderedTrimmed(p);
    ItemLine(RenderPair(p));
    SplitRendered(p);
  }
}
