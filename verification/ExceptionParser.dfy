/**
 The parser of the audit-exception list as a state machine over its lines
 (`parse_exceptions` of tools/check_pnpm_audit_exceptions.py).
 */
module ExceptionParser {
  import opened Text
  import opened Seqs
  import opened ExceptionLexer

  /** One exception: a dict of strings. */
  type Record = map<string, string>

  /** `Crashed` is the `ValueError` of an item line without a colon; nothing catches it. */
  datatype Parsed = Records(records: seq<Record>) | Crashed

  /** The two variables of the loop, or the exception that ended it. */
  datatype State = Running(exceptions: seq<Record>, current: Option<Record>) | Broken

  function Flush(exceptions: seq<Record>, current: Option<Record>): seq<Record> {
    if current.Some? && current.value != map[] then exceptions + [current.value] else exceptions
  }

  /** One iteration. */
  function Step(st: State, token: Token): State {
    if st.Broken? then Broken
    else match token
      case Item(key, value) => Running(Flush(st.exceptions, st.current), Some(map[key := value]))
      case BareItem => Running(Flush(st.exceptions, st.current), Some(map[]))
      case BadItem => Broken
      case Pair(key, value) =>
        if st.current.Some? then st.(current := Some(st.current.value[key := value])) else st
      case Skip => st
      case Prose => st
  }

  function Steps(st: State, tokens: seq<Token>): State
    decreases |tokens|
  {
    if tokens == [] then st else Steps(Step(st, tokens[0]), tokens[1..])
  }

  function Finish(st: State): Parsed {
    if st.Broken? then Crashed else Records(Flush(st.exceptions, st.current))
  }

  const Start := Running([], None)

  function Tokens(lines: seq<string>): seq<Token> {
    Map(Lex, lines)
  }

  function Parse(tokens: seq<Token>): Parsed {
    Finish(Steps(Start, tokens))
  }

  function ParseLines(lines: seq<string>): Parsed {
    Parse(Tokens(lines))
  }

  function ParseText(text: string): Parsed {
    ParseLines(Lines(text))
  }

  lemma TokensConcat(a: seq<string>, b: seq<string>)
    ensures Tokens(a + b) == Tokens(a) + Tokens(b)
  {
    MapConcat(Lex, a, b);
  }

  lemma MapConcat<T, R>(f: T -> R, a: seq<T>, b: seq<T>)
    ensures Map(f, a + b) == Map(f, a) + Map(f, b)
  {
  }

  lemma StepsUnfold(st: State, tokens: seq<Token>, i: nat)
    requires i < |tokens|
    ensures Steps(st, tokens[i..]) == Steps(Step(st, tokens[i]), tokens[i + 1..])
  {
    assert tokens[i..][1..] == tokens[i + 1..];
  }

  lemma {:induction false} BrokenStays(tokens: seq<Token>)
    ensures Steps(Broken, tokens) == Broken
  {
    if tokens != [] {
      BrokenStays(tokens[1..]);
    }
  }

  lemma {:induction false} StepsConcat(st: State, a: seq<Token>, b: seq<Token>)
    ensures Steps(st, a + b) == Steps(Steps(st, a), b)
    decreases |a|
  {
    if a == [] {
      assert a + b == b;
    } else {
      assert (a + b)[1..] == a[1..] + b;
      StepsConcat(Step(st, a[0]), a[1..], b);
    }
  }

  /** The loop itself, with its mutable variables `exceptions` and `current`. */
  method ParseExceptions(text: string) returns (r: Parsed)
    ensures r == ParseText(text)
  {
    hide Lex, Lines;
    var lines := Lines(text);
    ghost var tokens := Tokens(lines);
    var exceptions: seq<Record> := [];
    var current: Option<Record> := None;
    assert tokens[0..] == tokens;
    for i := 0 to |lines|
      invariant Steps(Running(exceptions, current), tokens[i..]) == Steps(Start, tokens)
    {
      StepsUnfold(Running(exceptions, current), tokens, i);
      var token := Lex(lines[i]);
      match token {
        case Skip =>
        case Prose =>
        case BadItem =>
          BrokenStays(tokens[i + 1..]);
          return Crashed;
        case BareItem =>
          if current.Some? && current.value != map[] {
            exceptions := exceptions + [current.value];
          }
          current := Some(map[]);
        case Item(key, value) =>
          if current.Some? && current.value != map[] {
            exceptions := exceptions + [current.value];
          }
          current := Some(map[key := value]);
        case Pair(key, value) =>
          if current.Some? {
            current := Some(current.value[key := value]);
          }
      }
    }
    if current.Some? && current.value != map[] {
      exceptions := exceptions + [current.value];
    }
    r := Records(exceptions);
  }

  // ---------------------------------------------------------------------------
  // Stability: only the tokens that are not skipped matter
  // ---------------------------------------------------------------------------

  function Significant(tokens: seq<Token>): seq<Token> {
    if tokens == [] then []
    else (if tokens[0].Skip? then [] else [tokens[0]]) + Significant(tokens[1..])
  }

  lemma {:induction false} StepsSignificant(st: State, tokens: seq<Token>)
    ensures Steps(st, tokens) == Steps(st, Significant(tokens))
    decreases |tokens|
  {
    if tokens != [] {
      var rest := Significant(tokens[1..]);
      StepsSignificant(Step(st, tokens[0]), tokens[1..]);
      if tokens[0].Skip? {
        assert Significant(tokens) == rest;
      } else {
        assert Significant(tokens)[1..] == rest;
      }
    }
  }

  /** Two files with the same significant lines parse alike. */
  lemma ParseStable(a: seq<string>, b: seq<string>)
    requires Significant(Tokens(a)) == Significant(Tokens(b))
    ensures ParseLines(a) == ParseLines(b)
  {
    StepsSignificant(Start, Tokens(a));
    StepsSignificant(Start, Tokens(b));
  }

  lemma {:induction false} SignificantConcat(a: seq<Token>, b: seq<Token>)
    ensures Significant(a + b) == Significant(a) + Significant(b)
  {
    if a == [] {
      assert a + b == b;
    } else {
      assert (a + b)[1..] == a[1..] + b;
      SignificantConcat(a[1..], b);
    }
  }

  lemma SkipTokenInert(a: seq<Token>, b: seq<Token>)
    ensures Parse(a + [Skip] + b) == Parse(a + b)
  {
    assert Significant([Skip]) == [];
    SignificantConcat(a + [Skip], b);
    SignificantConcat(a, [Skip]);
    SignificantConcat(a, b);
    assert Significant(a) + [] == Significant(a);
    StepsSignificant(Start, a + [Skip] + b);
    StepsSignificant(Start, a + b);
  }

  lemma TokensAround(a: seq<string>, line: string, b: seq<string>)
    ensures Tokens(a + [line] + b) == Tokens(a) + [Lex(line)] + Tokens(b)
    ensures Tokens(a + b) == Tokens(a) + Tokens(b)
  {
    TokensConcat(a + [line], b);
    TokensConcat(a, [line]);
    TokensConcat(a, b);
    assert Tokens([line]) == [Lex(line)];
  }

  /** Inserting a line the lexer skips, anywhere, never changes the result. */
  lemma SkippedLineInert(a: seq<string>, noise: string, b: seq<string>)
    requires Lex(noise) == Skip
    ensures ParseLines(a + [noise] + b) == ParseLines(a + b)
  {
    TokensAround(a, noise, b);
    SkipTokenInert(Tokens(a), Tokens(b));
  }

  /** Blank lines and comments, however indented, are such lines. */
  lemma NoiseInert(a: seq<string>, noise: string, b: seq<string>)
    requires Blank(noise) || StartsWith(Strip(noise), "#")
    ensures ParseLines(a + [noise] + b) == ParseLines(a + b)
  {
    if Blank(noise) {
      BlankToken(noise);
    }
    SkippedLineInert(a, noise, b);
  }

  lemma {:induction false} ProseStep(st: State, a: seq<Token>, b: seq<Token>)
    ensures Steps(st, a + [Prose] + b) == Steps(st, a + b)
  {
    StepsConcat(st, a + [Prose], b);
    StepsConcat(st, a, [Prose]);
    StepsConcat(st, a, b);
    assert [Prose][1..] == [];
  }

  /** So does a line that is neither an item nor has a colon: it changes nothing, wherever it stands. */
  lemma ProseInert(a: seq<string>, noise: string, b: seq<string>)
    requires !Dashed(noise) && !HasColon(noise)
    ensures ParseLines(a + [noise] + b) == ParseLines(a + b)
  {
    ProseToken(noise);
    if Lex(noise) == Skip {
      SkippedLineInert(a, noise, b);
    } else {
      TokensAround(a, noise, b);
      ProseStep(Start, Tokens(a), Tokens(b));
    }
  }

  /** Indenting every line and leaving white space at its end never changes the result. */
  lemma PaddingInert(lines: seq<string>, padded: seq<string>, left: seq<string>, right: seq<string>)
    requires |lines| == |padded| == |left| == |right|
    requires forall i :: 0 <= i < |lines| ==> Blank(left[i]) && Blank(right[i])
    requires forall i :: 0 <= i < |lines| ==> padded[i] == left[i] + lines[i] + right[i]
    ensures ParseLines(padded) == ParseLines(lines)
  {
    forall i | 0 <= i < |lines|
      ensures Lex(padded[i]) == Lex(lines[i])
    {
      PaddedToken(left[i], lines[i], right[i]);
    }
    assert Tokens(padded) == Tokens(lines);
  }

  // ---------------------------------------------------------------------------
  // How many records, and when the parser crashes
  // ---------------------------------------------------------------------------

  predicate IsItem(token: Token) {
    token.Item? || token.BareItem? || token.BadItem?
  }

  /** The number of lines that open a record. */
  function ItemCount(tokens: seq<Token>): nat {
    if tokens == [] then 0
    else (if IsItem(tokens[0]) then 1 else 0) + ItemCount(tokens[1..])
  }

  function Pending(st: State): nat
    requires st.Running?
  {
    |st.exceptions| + if st.current.Some? then 1 else 0
  }

  /** No record is empty. */
  predicate Solid(st: State) {
    st.Running? ==> st.current != Some(map[]) && map[] !in st.exceptions
  }

  lemma {:induction false} StepsCount(st: State, tokens: seq<Token>)
    requires st.Running? && Solid(st) && BareItem !in tokens
    ensures Solid(Steps(st, tokens))
    ensures Steps(st, tokens).Broken? <==> BadItem in tokens
    ensures Steps(st, tokens).Running? ==> Pending(Steps(st, tokens)) == Pending(st) + ItemCount(tokens)
    decreases |tokens|
  {
    if tokens != [] {
      assert tokens == [tokens[0]] + tokens[1..];
      if tokens[0].BadItem? {
        BrokenStays(tokens[1..]);
      } else {
        var next := Step(st, tokens[0]);
        if tokens[0].Pair? && st.current.Some? {
          assert tokens[0].key in next.current.value;
        }
        if tokens[0].Item? {
          assert tokens[0].key in next.current.value;
        }
        StepsCount(next, tokens[1..]);
      }
    }
  }

  /** The number of lines that start with a dash and a space once stripped. */
  function DashedCount(lines: seq<string>): nat {
    if lines == [] then 0
    else (if Dashed(lines[0]) then 1 else 0) + DashedCount(lines[1..])
  }

  lemma {:induction false} DashedItems(lines: seq<string>)
    ensures ItemCount(Tokens(lines)) == DashedCount(lines)
  {
    hide Lex, Dashed;
    if lines != [] {
      DashedToken(lines[0]);
      DashedItems(lines[1..]);
      assert Tokens(lines)[1..] == Tokens(lines[1..]);
    }
  }

  /** The parser crashes exactly when some line starts with a dash and a space once stripped and has no
      colon; otherwise every line that starts so, and no other, contributes one record, and no record is
      empty. */
  lemma RecordPerItem(lines: seq<string>)
    ensures ParseLines(lines).Crashed? <==> exists i :: 0 <= i < |lines| && Dashed(lines[i]) && !HasColon(lines[i])
    ensures ParseLines(lines).Records? ==>
              && |ParseLines(lines).records| == DashedCount(lines)
              && map[] !in ParseLines(lines).records
  {
    hide Lex, Dashed, HasColon;
    forall i | 0 <= i < |lines|
      ensures Tokens(lines)[i] != BareItem
      ensures Tokens(lines)[i] == BadItem <==> Dashed(lines[i]) && !HasColon(lines[i])
    {
      NeverBare(lines[i]);
      DashedToken(lines[i]);
    }
    DashedItems(lines);
    StepsCount(Start, Tokens(lines));
  }

  // ---------------------------------------------------------------------------
  // Compositionality: a file may be cut in front of any item line
  // ---------------------------------------------------------------------------

  function Prepend(rs: seq<Record>, st: State): State {
    if st.Broken? then Broken else st.(exceptions := rs + st.exceptions)
  }

  lemma StepPrepend(rs: seq<Record>, st: State, token: Token)
    ensures Step(Prepend(rs, st), token) == Prepend(rs, Step(st, token))
  {
    if st.Running? && st.current.Some? {
      assert rs + (st.exceptions + [st.current.value]) == (rs + st.exceptions) + [st.current.value];
    }
  }

  lemma {:induction false} StepsPrepend(rs: seq<Record>, st: State, tokens: seq<Token>)
    ensures Steps(Prepend(rs, st), tokens) == Prepend(rs, Steps(st, tokens))
    decreases |tokens|
  {
    if tokens != [] {
      StepPrepend(rs, st, tokens[0]);
      StepsPrepend(rs, Step(st, tokens[0]), tokens[1..]);
    }
  }

  /** Parsing two pieces separately and appending the results is parsing the whole,
      provided the second piece starts with an item line. */
  lemma ParseConcat(a: seq<Token>, b: seq<Token>)
    requires b != [] && IsItem(b[0])
    ensures Parse(a + b) ==
            if Parse(a).Crashed? || Parse(b).Crashed? then Crashed
            else Records(Parse(a).records + Parse(b).records)
  {
    StepsConcat(Start, a, b);
    var st := Steps(Start, a);
    if st.Broken? {
      BrokenStays(b);
    } else {
      var rs := Flush(st.exceptions, st.current);
      var first := Step(Start, b[0]);
      assert Step(st, b[0]) == Prepend(rs, first);
      StepsPrepend(rs, first, b[1..]);
      var end := Steps(first, b[1..]);
      if end.Running? && end.current.Some? {
        assert rs + (end.exceptions + [end.current.value]) == (rs + end.exceptions) + [end.current.value];
      }
    }
  }

  // ---------------------------------------------------------------------------
  // Round trip
  // ---------------------------------------------------------------------------

  type Pairs = seq<KeyValue>

  /** The dict built from a list of pairs: the last pair with a key wins. */
  function RecordOf(pairs: Pairs): Record {
    if pairs == [] then map[]
    else RecordOf(pairs[..|pairs| - 1])[pairs[|pairs| - 1].key := pairs[|pairs| - 1].value]
  }

  function RecordsOf(items: seq<Pairs>): seq<Record> {
    seq(|items|, i requires 0 <= i < |items| => RecordOf(items[i]))
  }

  function RenderMore(pairs: Pairs): (lines: seq<string>)
    ensures |lines| == |pairs|
    ensures forall i :: 0 <= i < |pairs| ==> lines[i] == "  " + RenderPair(pairs[i])
  {
    seq(|pairs|, i requires 0 <= i < |pairs| => "  " + RenderPair(pairs[i]))
  }

  function RenderItem(pairs: Pairs): seq<string> {
    if pairs == [] then [] else ["- " + RenderPair(pairs[0])] + RenderMore(pairs[1..])
  }

  function RenderItems(items: seq<Pairs>): seq<string> {
    if items == [] then []
    else RenderItems(items[..|items| - 1]) + RenderItem(items[|items| - 1])
  }

  function JoinLines(lines: seq<string>): string {
    if lines == [] then "" else lines[0] + "\n" + JoinLines(lines[1..])
  }

  predicate Renderable(pairs: Pairs) {
    && pairs != []
    && PlainPair(pairs[0])
    && forall i :: 1 <= i < |pairs| ==> MorePair(pairs[i])
  }

  function PairTokens(pairs: Pairs): (r: seq<Token>)
    ensures |r| == |pairs|
  {
    seq(|pairs|, i requires 0 <= i < |pairs| => Pair(pairs[i].key, pairs[i].value))
  }

  /** The tokens of one rendered record. */
  function ItemTokens(pairs: Pairs): (r: seq<Token>)
    ensures |r| == |pairs|
  {
    if pairs == [] then [] else [Item(pairs[0].key, pairs[0].value)] + PairTokens(pairs[1..])
  }

  lemma MoreTokens(pairs: Pairs)
    requires forall i :: 0 <= i < |pairs| ==> MorePair(pairs[i])
    ensures Tokens(RenderMore(pairs)) == PairTokens(pairs)
  {
    forall i | 0 <= i < |pairs|
      ensures Tokens(RenderMore(pairs))[i] == PairTokens(pairs)[i]
    {
      MoreToken(pairs[i]);
    }
  }

  lemma RenderedTokens(pairs: Pairs)
    requires Renderable(pairs)
    ensures Tokens(RenderItem(pairs)) == ItemTokens(pairs)
  {
    hide Lex, RenderPair;
    var line := "- " + RenderPair(pairs[0]);
    FirstToken(pairs[0]);
    assert Tokens([line]) == [Item(pairs[0].key, pairs[0].value)];
    MoreTokens(pairs[1..]);
    TokensConcat([line], RenderMore(pairs[1..]));
  }

  lemma {:induction false} ItemSteps(pairs: Pairs, k: nat)
    requires 1 <= k <= |pairs|
    ensures Steps(Start, ItemTokens(pairs)[..k]) == Running([], Some(RecordOf(pairs[..k])))
  {
    var tokens := ItemTokens(pairs);
    assert tokens[..k] == tokens[..k - 1] + [tokens[k - 1]];
    StepsConcat(Start, tokens[..k - 1], [tokens[k - 1]]);
    StepsUnfold(Steps(Start, tokens[..k - 1]), [tokens[k - 1]], 0);
    assert [tokens[k - 1]][0..] == [tokens[k - 1]];
    assert pairs[..k][..k - 1] == pairs[..k - 1];
    if k == 1 {
      assert RecordOf(pairs[..0]) == map[];
      assert RecordOf(pairs[..1]) == map[pairs[0].key := pairs[0].value];
    } else {
      ItemSteps(pairs, k - 1);
    }
  }

  lemma ParseItem(pairs: Pairs)
    requires pairs != []
    ensures Parse(ItemTokens(pairs)) == Records([RecordOf(pairs)])
  {
    ItemSteps(pairs, |pairs|);
    assert ItemTokens(pairs)[..|pairs|] == ItemTokens(pairs);
    assert pairs[..|pairs|] == pairs;
    assert pairs[|pairs| - 1].key in RecordOf(pairs);
  }

  lemma FirstIsItem(pairs: Pairs)
    requires pairs != []
    ensures ItemTokens(pairs) != [] && IsItem(ItemTokens(pairs)[0])
  {
  }

  function AllTokens(items: seq<Pairs>): seq<Token> {
    if items == [] then []
    else AllTokens(items[..|items| - 1]) + ItemTokens(items[|items| - 1])
  }

  lemma RecordsSnoc(items: seq<Pairs>)
    requires items != []
    ensures RecordsOf(items) == RecordsOf(items[..|items| - 1]) + [RecordOf(items[|items| - 1])]
  {
  }

  lemma {:induction false} ParseAll(items: seq<Pairs>)
    requires forall i :: 0 <= i < |items| ==> items[i] != []
    ensures Parse(AllTokens(items)) == Records(RecordsOf(items))
  {
    if items == [] {
      assert RecordsOf(items) == [];
    } else {
      hide Parse, RecordsOf, RecordOf, ItemTokens;
      var front, last := items[..|items| - 1], items[|items| - 1];
      ParseAll(front);
      ParseItem(last);
      FirstIsItem(last);
      ParseConcat(AllTokens(front), ItemTokens(last));
      RecordsSnoc(items);
    }
  }

  lemma {:induction false} RenderedAll(items: seq<Pairs>)
    requires forall i :: 0 <= i < |items| ==> Renderable(items[i])
    ensures Tokens(RenderItems(items)) == AllTokens(items)
  {
    if items != [] {
      var front, last := items[..|items| - 1], items[|items| - 1];
      RenderedAll(front);
      RenderedTokens(last);
      TokensConcat(RenderItems(front), RenderItem(last));
    }
  }

  predicate KeysPlain(r: Record) {
    forall k :: k in r ==> Trimmed(k) && !HasColon(k)
  }

  predicate StateKeysPlain(st: State) {
    st.Running? ==>
      && (forall i :: 0 <= i < |st.exceptions| ==> KeysPlain(st.exceptions[i]))
      && (st.current.Some? ==> KeysPlain(st.current.value))
  }

  predicate TokenKeyPlain(token: Token) {
    token.Item? || token.Pair? ==> Trimmed(token.key) && !HasColon(token.key)
  }

  lemma {:induction false} StepsKeysPlain(st: State, tokens: seq<Token>)
    requires StateKeysPlain(st)
    requires forall i :: 0 <= i < |tokens| ==> TokenKeyPlain(tokens[i])
    ensures StateKeysPlain(Steps(st, tokens))
    decreases |tokens|
  {
    if tokens != [] {
      assert TokenKeyPlain(tokens[0]);
      StepsKeysPlain(Step(st, tokens[0]), tokens[1..]);
    }
  }

  /** The conditions on keys in the round trip cannot be weakened: no file at all parses to a record
      with a key that has outer white space or a colon. */
  lemma ParsedKeysPlain(lines: seq<string>)
    ensures ParseLines(lines).Records? ==>
              forall i :: 0 <= i < |ParseLines(lines).records| ==> KeysPlain(ParseLines(lines).records[i])
  {
    forall i | 0 <= i < |lines|
      ensures TokenKeyPlain(Tokens(lines)[i])
    {
      LexKeyPlain(lines[i]);
    }
    StepsKeysPlain(Start, Tokens(lines));
  }

  lemma {:induction false} LinesJoined(lines: seq<string>)
    requires forall i :: 0 <= i < |lines| ==> OneLine(lines[i])
    ensures Lines(JoinLines(lines)) == lines
  {
    if lines != [] {
      LinesCons(lines[0], JoinLines(lines[1..]));
      LinesJoined(lines[1..]);
    }
  }

  lemma {:induction false} RenderedOneLine(items: seq<Pairs>)
    requires forall i :: 0 <= i < |items| ==> Renderable(items[i])
    ensures forall i :: 0 <= i < |RenderItems(items)| ==> OneLine(RenderItems(items)[i])
  {
    hide OneLine, RenderPair;
    if items != [] {
      var pairs := items[|items| - 1];
      forall i | 0 <= i < |pairs|
        ensures OneLine(RenderItem(pairs)[i])
      {
        assert PlainPair(pairs[i]);
        RenderedLine(pairs[i]);
      }
      RenderedOneLine(items[..|items| - 1]);
    }
  }

  /** Rendering a list of records as the text of a file and parsing that text gives back exactly
      the records, in order, whatever quotes, colons or outer spaces their values contain. */
  lemma RoundTrip(items: seq<Pairs>)
    requires forall i :: 0 <= i < |items| ==> Renderable(items[i])
    ensures ParseText(JoinLines(RenderItems(items))) == Records(RecordsOf(items))
  {
    RenderedOneLine(items);
    LinesJoined(RenderItems(items));
    RenderedAll(items);
    ParseAll(items);
  }
}
