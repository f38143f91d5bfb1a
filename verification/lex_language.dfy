/** What the lexer's token streams are: their language, how they rebuild the input, and how they concatenate. */
module FlbLanguage {
  import opened Utf8
  import opened FlbLexer

  // Spans of runes.

  predicate IsName(names: NameRunes, v: string) {
    SpanOf(names, v) == |v|
  }

  predicate IsKey(names: NameRunes, v: string) {
    v != "" && SpanOf(KeyRunes(names), v) == |v|
  }

  /** What a value token can hold: no newline, and no blank in front. */
  predicate IsValue(v: string) {
    '\n' !in v && (v != "" ==> !IsBlank(v[0]))
  }

  /** A span of valid runes does not notice what follows it, up to the ASCII byte that ends it. */
  lemma {:induction false} SpanEndsAt(runes: set<int>, s: string, t: string)
    requires RUNE_ERROR !in runes && SpanOf(runes, s) == |s|
    requires t != "" ==> IsAscii(t[0]) && t[0] as int !in runes
    ensures SpanOf(runes, s + t) == |s|
  {
    hide DecodeRune;
    if s == "" {
      assert s + t == t;
      if t != "" {
        AsciiDecodesToItself(t);
      }
    } else {
      var w := DecodeRune(s).width;
      assert (s + t)[..w] == s[..w];
      DecodeIsLocal(s, s + t);
      assert (s + t)[w..] == s[w..] + t;
      SpanEndsAt(runes, s[w..], t);
    }
  }

  lemma {:induction false} SpanOfPrefix(runes: set<int>, s: string)
    requires RUNE_ERROR !in runes
    ensures SpanOf(runes, s[..SpanOf(runes, s)]) == SpanOf(runes, s)
    ensures SpanOf(runes, s) < |s| ==> DecodeRune(s[SpanOf(runes, s)..]).rune !in runes
  {
    hide DecodeRune;
    var n := SpanOf(runes, s);
    if s != "" {
      var w := DecodeRune(s).width;
      if DecodeRune(s).rune in runes {
        SpanOfPrefix(runes, s[w..]);
        assert s[..n][..w] == s[..w];
        DecodeIsLocal(s, s[..n]);
        assert s[..n][w..] == s[w..][..n - w];
        assert s[w..][n - w..] == s[n..];
      } else {
        assert s[0..] == s;
      }
    }
  }

  /** A span stopped by an ASCII byte is the same however the input goes on. */
  lemma SpanIgnoresRest(runes: set<int>, s: string, t: string)
    requires RUNE_ERROR !in runes && SpanOf(runes, s) < |s| && IsAscii(s[SpanOf(runes, s)])
    ensures SpanOf(runes, s + t) == SpanOf(runes, s)
  {
    hide DecodeRune;
    var n := SpanOf(runes, s);
    SpanOfPrefix(runes, s);
    AsciiDecodesToItself(s[n..]);
    SpanEndsAt(runes, s[..n], s[n..] + t);
    assert s + t == s[..n] + (s[n..] + t);
  }

  lemma {:induction false} LineIgnoresRest(s: string, t: string)
    requires '\n' !in s && (t != "" ==> t[0] == '\n')
    ensures LineLength(s + t) == |s|
  {
    if s == "" {
      assert s + t == t;
    } else {
      assert (s + t)[1..] == s[1..] + t;
      LineIgnoresRest(s[1..], t);
    }
  }

  lemma {:induction false} BlanksIgnoreRest(s: string, t: string)
    requires (forall i | 0 <= i < |s| :: IsBlank(s[i])) && (t != "" ==> !IsBlank(t[0]))
    ensures BlankLength(s + t) == |s|
  {
    if s == "" {
      assert s + t == t;
    } else {
      assert (s + t)[1..] == s[1..] + t;
      BlanksIgnoreRest(s[1..], t);
    }
  }

  // The language.

  /** Where a token stands: at the level of lines, inside a section header, or inside a key/value pair. */
  datatype Place = InLines | InHeader | InPair

  /** (NewLine | LeftBracket Section RightBracket | Key Value NewLine)*, cut off anywhere by one final EOF or Error. */
  predicate InLanguage(names: NameRunes, place: Place, tokens: seq<Token>)
    decreases |tokens|
  {
    && tokens != []
    && var t, rest := tokens[0], tokens[1..];
    match place
    case InLines =>
      || (rest == [] && t in {END_TOKEN, UNEXPECTED_END, INVALID_KEY})
      || (t == LINE_TOKEN && InLanguage(names, InLines, rest))
      || (t == LEFT_TOKEN && InLanguage(names, InHeader, rest))
      || (t.kind == TokenKey && IsKey(names, t.value) && InLanguage(names, InPair, rest))
    case InHeader =>
      || (rest == [] && t in {UNEXPECTED_END, MISSING_BRACKET})
      || (t.kind == TokenSection && IsName(names, t.value)
          && rest != [] && rest[0] == RIGHT_TOKEN && InLanguage(names, InLines, rest[1..]))
    case InPair =>
      || (rest == [] && t == UNEXPECTED_END)
      || (t.kind == TokenValue && IsValue(t.value)
          && rest != [] && rest[0] == LINE_TOKEN && InLanguage(names, InLines, rest[1..]))
  }

  lemma {:induction false} LexStaysInLanguage(names: NameRunes, s: string)
    ensures InLanguage(names, InLines, Lex(names, s))
    decreases |s|, 1
  {
    hide DecodeRune, SpanOf;
    if s == "" {
    } else if IsBlank(s[0]) {
      LexStaysInLanguage(names, s[1..]);
    } else if s[0] == '\n' {
      LexStaysInLanguage(names, s[1..]);
    } else if s[0] == '[' {
      HeaderStaysInLanguage(names, s[1..]);
    } else {
      PairStaysInLanguage(names, s);
    }
  }

  lemma {:induction false} HeaderStaysInLanguage(names: NameRunes, s: string)
    ensures InLanguage(names, InHeader, LexHeader(names, s))
    decreases |s|, 2
  {
    hide DecodeRune, SpanOf;
    var n := SpanOf(names, s);
    if n < |s| && s[n] == ']' {
      SpanOfPrefix(names, s);
      LexStaysInLanguage(names, s[n + 1..]);
      assert LexHeader(names, s)[1..] == [RIGHT_TOKEN] + Lex(names, s[n + 1..]);
    }
  }

  lemma {:induction false} PairStaysInLanguage(names: NameRunes, s: string)
    requires s != "" && !IsBlank(s[0])
    ensures InLanguage(names, InLines, LexPair(names, s))
    decreases |s|, 0
  {
    hide DecodeRune, SpanOf;
    var n := SpanOf(KeyRunes(names), s);
    if n < |s| && IsBlank(s[n]) {
      SpanOfPrefix(KeyRunes(names), s);
      ValueStaysInLanguage(names, s[n + BlankLength(s[n..])..]);
    }
  }

  lemma {:induction false} ValueStaysInLanguage(names: NameRunes, s: string)
    requires s != "" ==> !IsBlank(s[0])
    ensures InLanguage(names, InPair, LexValue(names, s))
    decreases |s|, 2
  {
    hide DecodeRune, SpanOf;
    var n := LineLength(s);
    if n < |s| {
      LexStaysInLanguage(names, s[n + 1..]);
      assert s[n..][1..] == s[n + 1..];
      assert LexValue(names, s)[1..] == [LINE_TOKEN] + Lex(names, s[n + 1..]);
    }
  }

  /** A text that lexes to the given tokens. */
  function Unlex(place: Place, tokens: seq<Token>): string
    decreases |tokens|
  {
    if tokens == [] then ""
    else
      var t := tokens[0];
      match t.kind
      case TokenError => if t == INVALID_KEY then "]" else if t == MISSING_BRACKET then " " else if place == InLines then "." else ""
      case TokenKey => t.value + " " + Unlex(InPair, tokens[1..])
      case TokenLeftBracket => t.value + Unlex(InHeader, tokens[1..])
      case _ => t.value + Unlex(InLines, tokens[1..])
  }

  function LexFrom(names: NameRunes, place: Place, s: string): seq<Token> {
    match place
    case InLines => Lex(names, s)
    case InHeader => LexHeader(names, s)
    case InPair => LexValue(names, s)
  }

  lemma Cut(a: string, b: string)
    ensures (a + b)[..|a|] == a && (a + b)[|a|..] == b
  {
  }

  lemma KeyIsNoLine(names: NameRunes, key: string)
    requires IsKey(names, key)
    ensures !IsBlank(key[0]) && key[0] != '\n' && key[0] != '['
  {
    hide DecodeRune;
    AsciiDecodesToItself(key);
    assert DecodeRune(key).rune in KeyRunes(names);
  }

  lemma LexIsPair(names: NameRunes, s: string)
    requires s != "" && !IsBlank(s[0]) && s[0] != '\n' && s[0] != '['
    ensures Lex(names, s) == LexPair(names, s)
  {
    hide LexPair, LexHeader;
  }

  lemma LexKey(names: NameRunes, key: string, blanks: string, rest: string)
    requires IsKey(names, key) && blanks != "" && (forall i | 0 <= i < |blanks| :: IsBlank(blanks[i]))
    requires rest != "" ==> !IsBlank(rest[0])
    ensures Lex(names, key + blanks + rest) == [Token(TokenKey, key)] + LexValue(names, rest)
  {
    hide SpanOf, Lex, LexValue, BlankLength;
    var s, tail := key + blanks + rest, blanks + rest;
    assert s == key + tail;
    assert s[0] == key[0] && s[|key|] == blanks[0];
    KeyIsNoLine(names, key);
    LexIsPair(names, s);
    SpanEndsAt(KeyRunes(names), key, tail);
    Cut(key, tail);
    BlanksIgnoreRest(blanks, rest);
    Cut(key + blanks, rest);
  }

  lemma LexName(names: NameRunes, name: string, rest: string)
    requires IsName(names, name)
    ensures LexHeader(names, name + "]" + rest) == [Token(TokenSection, name), RIGHT_TOKEN] + Lex(names, rest)
  {
    hide DecodeRune, Lex;
    var s := name + "]" + rest;
    SpanEndsAt(names, name, "]" + rest);
    assert s == name + ("]" + rest);
    assert s[|name| + 1..] == rest && s[..|name|] == name;
  }

  lemma LexLine(names: NameRunes, value: string, rest: string)
    requires IsValue(value)
    ensures LexValue(names, value + "\n" + rest) == [Token(TokenValue, value), LINE_TOKEN] + Lex(names, rest)
  {
    hide LineLength, LexHeader, LexPair;
    var tail := "\n" + rest;
    LineIgnoresRest(value, tail);
    assert value + "\n" + rest == value + tail;
    Cut(value, tail);
    LexNewLineCase(names, rest);
  }

  lemma {:induction false} UnlexLexes(names: NameRunes, place: Place, tokens: seq<Token>)
    requires InLanguage(names, place, tokens)
    ensures LexFrom(names, place, Unlex(place, tokens)) == tokens
    decreases |tokens|
  {
    hide DecodeRune, SpanOf, Lex, LexHeader, LexValue;
    var t, rest := tokens[0], tokens[1..];
    match t.kind
    case TokenKey =>
      UnlexLexes(names, InPair, rest);
      UnlexKeyCase(names, t.value, rest);
    case TokenSection =>
      UnlexLexes(names, InLines, rest[1..]);
      LexName(names, t.value, Unlex(InLines, rest[1..]));
      assert Unlex(place, tokens) == t.value + "]" + Unlex(InLines, rest[1..]);
      assert tokens == [t, RIGHT_TOKEN] + rest[1..];
    case TokenValue =>
      UnlexLexes(names, InLines, rest[1..]);
      LexLine(names, t.value, Unlex(InLines, rest[1..]));
      assert Unlex(place, tokens) == t.value + "\n" + Unlex(InLines, rest[1..]);
      assert tokens == [t, LINE_TOKEN] + rest[1..];
    case TokenNewLine =>
      UnlexLexes(names, InLines, rest);
      LexNewLineCase(names, Unlex(InLines, rest));
    case TokenLeftBracket =>
      UnlexLexes(names, InHeader, rest);
      LexBracketCase(names, Unlex(InHeader, rest));
    case _ =>
      UnlexFinal(names, place, t);
  }

  lemma UnlexKeyCase(names: NameRunes, key: string, rest: seq<Token>)
    requires IsKey(names, key) && InLanguage(names, InPair, rest)
    ensures Lex(names, key + " " + Unlex(InPair, rest)) == [Token(TokenKey, key)] + LexValue(names, Unlex(InPair, rest))
  {
    hide DecodeRune, SpanOf, Lex, LexHeader, LexValue;
    if rest[0].kind == TokenValue {
      assert Unlex(InLines, rest[1..]) == "\n" + Unlex(InLines, rest[1..][1..]);
    }
    LexKey(names, key, " ", Unlex(InPair, rest));
  }

  lemma LexNewLineCase(names: NameRunes, s: string)
    ensures Lex(names, "\n" + s) == [LINE_TOKEN] + Lex(names, s)
  {
    assert ("\n" + s)[1..] == s;
  }

  lemma LexBracketCase(names: NameRunes, s: string)
    ensures Lex(names, "[" + s) == [LEFT_TOKEN] + LexHeader(names, s)
  {
    assert ("[" + s)[1..] == s;
  }

  lemma UnlexFinal(names: NameRunes, place: Place, t: Token)
    requires InLanguage(names, place, [t]) && t.kind in {TokenEOF, TokenError}
    ensures LexFrom(names, place, Unlex(place, [t])) == [t]
  {
    AsciiDecodesToItself(" ");
    AsciiDecodesToItself("]");
    AsciiDecodesToItself(".");
    assert "."[1..] == "";
  }

  /** The lexer's streams are exactly the language. */
  lemma TokenLanguageIsExact(names: NameRunes, tokens: seq<Token>)
    ensures (exists s :: Lex(names, s) == tokens) <==> InLanguage(names, InLines, tokens)
  {
    if s :| Lex(names, s) == tokens {
      LexStaysInLanguage(names, s);
    }
    if InLanguage(names, InLines, tokens) {
      UnlexLexes(names, InLines, tokens);
      assert Lex(names, Unlex(InLines, tokens)) == tokens;
    }
  }

  // Losslessness.

  predicate AllBlank(s: string) {
    forall i | 0 <= i < |s| :: IsBlank(s[i])
  }

  /** Every token is a piece of the input, in order, with nothing but the blank gap `gaps[i]` skipped before token `i`. */
  predicate Rebuilds(s: string, tokens: seq<Token>, gaps: seq<string>) {
    && |gaps| == |tokens| && tokens != [] && AllBlank(gaps[0])
    && if tokens[0].kind == TokenError then |tokens| == 1
       else
         var piece := gaps[0] + tokens[0].value;
         && piece <= s
         && if |tokens| == 1 then tokens[0] == END_TOKEN && piece == s
            else Rebuilds(s[|piece|..], tokens[1..], gaps[1..])
  }

  function Weave(gaps: seq<string>, tokens: seq<Token>): string
    requires |gaps| == |tokens|
  {
    if tokens == [] then "" else gaps[0] + tokens[0].value + Weave(gaps[1..], tokens[1..])
  }

  lemma {:induction false} LexRebuilds(names: NameRunes, s: string) returns (gaps: seq<string>)
    ensures Rebuilds(s, Lex(names, s), gaps)
    decreases |s|, 1
  {
    hide DecodeRune, SpanOf, LexHeader, LexPair;
    if s == "" {
      gaps := [""];
    } else if IsBlank(s[0]) {
      var inner := LexRebuilds(names, s[1..]);
      gaps := WidenGap(s, Lex(names, s[1..]), inner, 1);
    } else if s[0] == '\n' {
      var inner := LexRebuilds(names, s[1..]);
      gaps := [""] + inner;
    } else if s[0] == '[' {
      var inner := HeaderRebuilds(names, s[1..]);
      gaps := [""] + inner;
    } else {
      gaps := PairRebuilds(names, s);
    }
  }

  /** Blanks in front of what a stream rebuilds go into its first gap. */
  lemma WidenGap(s: string, tokens: seq<Token>, inner: seq<string>, n: nat) returns (gaps: seq<string>)
    requires n <= |s| && AllBlank(s[..n]) && Rebuilds(s[n..], tokens, inner)
    ensures Rebuilds(s, tokens, gaps)
  {
    gaps := [s[..n] + inner[0]] + inner[1..];
    var piece := inner[0] + tokens[0].value;
    assert gaps[0] + tokens[0].value == s[..n] + piece;
    assert s == s[..n] + s[n..];
    if tokens[0].kind != TokenError {
      assert s[n + |piece|..] == s[n..][|piece|..];
    }
  }

  lemma {:induction false} HeaderRebuilds(names: NameRunes, s: string) returns (gaps: seq<string>)
    ensures Rebuilds(s, LexHeader(names, s), gaps)
    decreases |s|, 2
  {
    hide DecodeRune, SpanOf, Lex;
    var n := SpanOf(names, s);
    gaps := [""];
    if n < |s| && s[n] == ']' {
      var rest := s[n + 1..];
      var inner := LexRebuilds(names, rest);
      gaps := ["", ""] + inner;
      assert LexHeader(names, s)[1..] == [RIGHT_TOKEN] + Lex(names, rest);
      assert s[n..][1..] == rest;
      assert ([RIGHT_TOKEN] + Lex(names, rest))[1..] == Lex(names, rest) && gaps[1..][1..] == inner;
    }
  }

  lemma {:induction false} PairRebuilds(names: NameRunes, s: string) returns (gaps: seq<string>)
    ensures Rebuilds(s, LexPair(names, s), gaps)
    decreases |s|, 0
  {
    hide DecodeRune, SpanOf, Lex, LexValue, BlankLength;
    var n := SpanOf(KeyRunes(names), s);
    gaps := [""];
    if n < |s| && IsBlank(s[n]) {
      var b := BlankLength(s[n..]);
      var inner := ValueRebuilds(names, s[n + b..]);
      assert s[n..][b..] == s[n + b..];
      inner := WidenGap(s[n..], LexValue(names, s[n + b..]), inner, b);
      gaps := [""] + inner;
    }
  }

  lemma {:induction false} ValueRebuilds(names: NameRunes, s: string) returns (gaps: seq<string>)
    ensures Rebuilds(s, LexValue(names, s), gaps)
    decreases |s|, 2
  {
    hide DecodeRune, SpanOf, LineLength;
    var n := LineLength(s);
    gaps := [""];
    if n < |s| {
      var inner := LexRebuilds(names, s[n + 1..]);
      assert Lex(names, s[n..]) == [LINE_TOKEN] + Lex(names, s[n + 1..]) by {
        assert s[n..][1..] == s[n + 1..];
      }
      gaps := ["", ""] + inner;
      assert gaps[1..][1..] == inner;
    }
  }

  lemma {:induction false} RebuiltByWeaving(s: string, tokens: seq<Token>, gaps: seq<string>)
    requires Rebuilds(s, tokens, gaps)
    ensures forall g | g in gaps :: AllBlank(g)
    ensures tokens[|tokens| - 1] == END_TOKEN ==> Weave(gaps, tokens) == s
    ensures Weave(gaps[..|gaps| - 1], tokens[..|tokens| - 1]) <= s
    decreases |tokens|
  {
    if |tokens| > 1 {
      var piece := gaps[0] + tokens[0].value;
      RebuiltByWeaving(s[|piece|..], tokens[1..], gaps[1..]);
      assert s == piece + s[|piece|..];
      assert gaps[..|gaps| - 1][1..] == gaps[1..][..|gaps| - 2];
      assert tokens[..|tokens| - 1][1..] == tokens[1..][..|tokens| - 2];
    } else {
      assert tokens[1..] == [] && gaps[1..] == [];
    }
  }

  /** Lexing is lossless: the tokens, in order and with blank gaps between them, spell the input. */
  lemma LexingIsLossless(names: NameRunes, s: string) returns (gaps: seq<string>)
    ensures |gaps| == |Lex(names, s)| > 0 && forall g | g in gaps :: AllBlank(g)
    ensures var tokens := Lex(names, s); var last := |tokens| - 1;
      && (tokens[last] == END_TOKEN ==> Weave(gaps, tokens) == s)
      && Weave(gaps[..last], tokens[..last]) <= s
  {
    gaps := LexRebuilds(names, s);
    RebuiltByWeaving(s, Lex(names, s), gaps);
  }

  // Concatenation.

  predicate Completes(tokens: seq<Token>) {
    tokens != [] && tokens[|tokens| - 1] == END_TOKEN
  }

  function DropEnd(tokens: seq<Token>): seq<Token>
    requires tokens != []
  {
    tokens[..|tokens| - 1]
  }

  /** An input that lexes to the end leaves the lexer where it started, so what follows lexes on its own. */
  lemma {:induction false} LexConcatenates(names: NameRunes, a: string, b: string)
    requires Completes(Lex(names, a))
    ensures Lex(names, a + b) == DropEnd(Lex(names, a)) + Lex(names, b)
    decreases |a|, 1
  {
    hide DecodeRune, SpanOf, LexHeader, LexPair, LexValue;
    if a == "" {
      assert a + b == b;
    } else if a[0] == '[' {
      HeaderConcatenates(names, a[1..], b);
      assert (a + b)[1..] == a[1..] + b;
    } else if IsBlank(a[0]) || a[0] == '\n' {
      LexConcatenates(names, a[1..], b);
      assert (a + b)[1..] == a[1..] + b;
    } else {
      PairConcatenates(names, a, b);
    }
  }

  lemma {:induction false} HeaderConcatenates(names: NameRunes, a: string, b: string)
    requires Completes(LexHeader(names, a))
    ensures LexHeader(names, a + b) == DropEnd(LexHeader(names, a)) + Lex(names, b)
    decreases |a|, 2
  {
    hide DecodeRune, SpanOf, Lex;
    var n := SpanOf(names, a);
    SpanIgnoresRest(names, a, b);
    assert Completes(Lex(names, a[n + 1..]));
    LexConcatenates(names, a[n + 1..], b);
    assert (a + b)[n + 1..] == a[n + 1..] + b && (a + b)[..n] == a[..n];
  }

  lemma {:induction false} PairConcatenates(names: NameRunes, a: string, b: string)
    requires Completes(LexPair(names, a))
    ensures LexPair(names, a + b) == DropEnd(LexPair(names, a)) + Lex(names, b)
    decreases |a|, 0
  {
    hide DecodeRune, SpanOf, Lex, LexValue;
    var n := SpanOf(KeyRunes(names), a);
    SpanIgnoresRest(KeyRunes(names), a, b);
    var value := a[n + BlankLength(a[n..])..];
    assert Completes(LexValue(names, value));
    ValueConcatenates(names, value, b);
    assert (a + b)[..n] == a[..n] && (a + b)[n..] == a[n..] + b;
    BlanksOfCompleteValue(names, a[n..], b);
    assert (a + b)[n + BlankLength(a[n..])..] == value + b;
  }

  lemma BlanksOfCompleteValue(names: NameRunes, a: string, b: string)
    requires Completes(LexValue(names, a[BlankLength(a)..]))
    ensures BlankLength(a + b) == BlankLength(a)
  {
    var n := BlankLength(a);
    assert n < |a|;
    BlanksIgnoreRest(a[..n], a[n..] + b);
    assert a + b == a[..n] + (a[n..] + b);
  }

  lemma {:induction false} ValueConcatenates(names: NameRunes, a: string, b: string)
    requires Completes(LexValue(names, a))
    ensures LexValue(names, a + b) == DropEnd(LexValue(names, a)) + Lex(names, b)
    decreases |a|, 2
  {
    hide DecodeRune, SpanOf, Lex;
    var n := LineLength(a);
    assert Completes(Lex(names, a[n..]));
    LexConcatenates(names, a[n..], b);
    LineIgnoresRest(a[..n], a[n..] + b);
    assert a + b == a[..n] + (a[n..] + b);
    assert (a + b)[..n] == a[..n] && (a + b)[n..] == a[n..] + b;
  }
}
