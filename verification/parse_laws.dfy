/** Laws of `Parse`: when it succeeds, how it treats concatenated inputs, and which printer it undoes. */
module FlbParserLaws {
  import opened GoLang
  import opened FlbLexer
  import opened FlbLanguage
  import opened FlbParser

  // Success.

  ghost predicate BracketsClosed(tokens: seq<Token>) {
    forall i | 0 <= i < |tokens| && tokens[i].kind == TokenRightBracket :: i + 1 < |tokens| && tokens[i + 1].kind == TokenNewLine
  }

  ghost predicate NoError(tokens: seq<Token>) {
    forall i | 0 <= i < |tokens| :: tokens[i].kind != TokenError
  }

  /** Reading past the first `n` tokens, none of them an error or an unclosed bracket. */
  lemma GoodFrom(tokens: seq<Token>, n: nat)
    requires n <= |tokens|
    requires forall i | 0 <= i < n :: tokens[i].kind != TokenError
    requires forall i | 0 <= i < n && tokens[i].kind == TokenRightBracket :: i + 1 < |tokens| && tokens[i + 1].kind == TokenNewLine
    ensures NoError(tokens) <==> NoError(tokens[n..])
    ensures BracketsClosed(tokens) <==> BracketsClosed(tokens[n..])
  {
    assert forall i | n <= i < |tokens| :: tokens[i] == tokens[n..][i - n];
    if BracketsClosed(tokens[n..]) {
      forall i | n <= i < |tokens| && tokens[i].kind == TokenRightBracket
        ensures i + 1 < |tokens| && tokens[i + 1].kind == TokenNewLine
      {
        assert tokens[n..][i - n] == tokens[i];
      }
    }
  }

  // One item read.

  lemma LineRead(current: Section, tokens: seq<Token>)
    requires tokens != [] && tokens[0].kind == TokenNewLine
    ensures Sections(current, tokens) == Sections(current, tokens[1..])
  {
  }

  lemma PairRead(current: Section, tokens: seq<Token>)
    requires |tokens| > 2 && tokens[0].kind == TokenKey
    ensures var pair := KeyValue(tokens[0].value, tokens[1].value);
      Sections(current, tokens) == Sections(current.(keyValues := current.keyValues + [pair]), tokens[3..])
  {
  }

  lemma HeaderRead(current: Section, tokens: seq<Token>)
    requires |tokens| > 3 && tokens[0].kind == TokenLeftBracket
    ensures Sections(current, tokens)
         == if tokens[3].kind != TokenNewLine then Err("newline required")
            else Prepend(current, Sections(Section(tokens[1].value, []), tokens[4..]))
  {
  }

  lemma LastRead(current: Section, tokens: seq<Token>)
    requires |tokens| > 0 && (tokens[0].kind in {TokenEOF, TokenError} || (|tokens| == 2 && tokens[0].kind in {TokenKey, TokenLeftBracket}))
    ensures Sections(current, tokens) == if tokens[0].kind == TokenEOF then Ok([current]) else Err(tokens[if tokens[0].kind == TokenError then 0 else 1].value)
  {
  }

  lemma {:induction false} SectionsSucceed(names: NameRunes, current: Section, tokens: seq<Token>)
    requires InLanguage(names, InLines, tokens)
    ensures Sections(current, tokens).Ok? <==> NoError(tokens) && BracketsClosed(tokens)
    ensures Sections(current, tokens).Ok? ==> Completes(tokens)
    ensures Sections(current, tokens).Err? ==>
      Sections(current, tokens).error == if BracketsClosed(tokens) then tokens[|tokens| - 1].value else "newline required"
    decreases |tokens|
  {
    hide InLanguage, SpanOf, Sections;
    ItemShape(names, tokens);
    match tokens[0].kind
    case TokenNewLine =>
      LineRead(current, tokens);
      SectionsSucceed(names, current, tokens[1..]);
      GoodFrom(tokens, 1);
    case TokenKey =>
      if |tokens| > 2 {
        var pairs := current.keyValues + [KeyValue(tokens[0].value, tokens[1].value)];
        PairRead(current, tokens);
        SectionsSucceed(names, current.(keyValues := pairs), tokens[3..]);
        GoodFrom(tokens, 3);
      } else {
        LastRead(current, tokens);
      }
    case TokenLeftBracket =>
      if |tokens| > 2 {
        HeaderRead(current, tokens);
        if tokens[3].kind == TokenNewLine {
          SectionsSucceed(names, Section(tokens[1].value, []), tokens[4..]);
          GoodFrom(tokens, 4);
        }
      } else {
        LastRead(current, tokens);
      }
    case _ =>
      LastRead(current, tokens);
  }

  /**
   `Parse` fails exactly on an error token or a right bracket not directly followed by a newline,
   and reports the bracket if there is one.
   */
  lemma ParseSucceedsExactly(names: NameRunes, name: string, input: string)
    ensures var tokens := Lex(names, input); var r := Parsed(names, name, input);
      && (r.Ok? <==> NoError(tokens) && BracketsClosed(tokens))
      && (r.Err? ==> |tokens| > 0 && r.error == if BracketsClosed(tokens) then tokens[|tokens| - 1].value else "newline required")
  {
    LexStaysInLanguage(names, input);
    SectionsSucceed(names, UNNAMED, Lex(names, input));
  }

  // Concatenation.

  /** The sections of two files read one after the other: the second file's leading pairs continue the first file's last section. */
  function Join(a: seq<Section>, b: seq<Section>): seq<Section>
    requires a != [] && b != []
  {
    var last := a[|a| - 1];
    a[..|a| - 1] + [last.(keyValues := last.keyValues + b[0].keyValues)] + b[1..]
  }

  function Continue(current: Section, rest: seq<Section>): seq<Section>
    requires rest != []
  {
    [current.(keyValues := current.keyValues + rest[0].keyValues)] + rest[1..]
  }

  lemma {:induction false} SectionsNonEmpty(current: Section, tokens: seq<Token>)
    ensures Sections(current, tokens).Ok? ==> Sections(current, tokens).value != []
    decreases |tokens|
  {
    if tokens != [] {
      match tokens[0].kind
      case TokenNewLine => SectionsNonEmpty(current, tokens[1..]);
      case TokenKey =>
        if |tokens| > 2 {
          var pairs := current.keyValues + [KeyValue(tokens[0].value, tokens[1].value)];
          SectionsNonEmpty(current.(keyValues := pairs), tokens[3..]);
        }
      case _ =>
    }
  }

  lemma ContinueUnnamed(current: Section, rest: seq<Section>)
    ensures Continue(current, [UNNAMED] + rest) == [current] + rest
  {
    assert current.keyValues + [] == current.keyValues;
  }

  lemma ContinueTwice(current: Section, next: Section, rest: seq<Section>)
    requires rest != []
    ensures Continue(current, Continue(next, rest)) == Continue(current.(keyValues := current.keyValues + next.keyValues), rest)
  {
    var first := rest[0].keyValues;
    assert current.keyValues + (next.keyValues + first) == current.keyValues + next.keyValues + first;
  }

  /** Reading from the middle of a section only prefixes its pairs to the first section read. */
  lemma {:induction false} SectionsContinue(current: Section, tokens: seq<Token>)
    ensures var alone := Sections(UNNAMED, tokens);
      && (alone.Ok? ==> alone.value != [])
      && Sections(current, tokens) == match alone
                                      case Ok(sections) => Ok(Continue(current, sections))
                                      case Err(error) => Err(error)
    decreases |tokens|
  {
    SectionsNonEmpty(UNNAMED, tokens);
    if tokens != [] {
      match tokens[0].kind
      case TokenNewLine => SectionsContinue(current, tokens[1..]);
      case TokenKey =>
        if |tokens| > 2 {
          var pair := KeyValue(tokens[0].value, tokens[1].value);
          SectionsContinue(current.(keyValues := current.keyValues + [pair]), tokens[3..]);
          var one := UNNAMED.(keyValues := UNNAMED.keyValues + [pair]);
          SectionsContinue(one, tokens[3..]);
          var alone := Sections(UNNAMED, tokens[3..]);
          if alone.Ok? {
            ContinueTwice(current, one, alone.value);
            assert one.keyValues == [pair];
          }
        }
      case TokenLeftBracket =>
        if |tokens| > 3 {
          var rest := Sections(Section(tokens[1].value, []), tokens[4..]);
          if rest.Ok? {
            ContinueUnnamed(current, rest.value);
          }
        }
      case TokenEOF =>
        ContinueUnnamed(current, []);
        assert [UNNAMED] + [] == [UNNAMED] && [current] + [] == [current];
      case _ =>
    }
  }

  /** At the end of one stream the parser goes on with the next in the section it is in. */
  lemma {:induction false} SectionsAppend(names: NameRunes, current: Section, a: seq<Token>, b: seq<Token>)
    requires InLanguage(names, InLines, a) && Sections(current, a).Ok?
    ensures var done := Sections(current, a).value;
      done != [] && Sections(current, DropEnd(a) + b) == After(done[..|done| - 1], Sections(done[|done| - 1], b))
    decreases |a|
  {
    hide InLanguage, SpanOf, Sections;
    ItemShape(names, a);
    SectionsNonEmpty(current, a);
    var ab := DropEnd(a) + b;
    if a[0].kind == TokenNewLine {
      LineRead(current, a);
      SectionsAppend(names, current, a[1..], b);
      assert ab[1..] == DropEnd(a[1..]) + b;
      LineRead(current, ab);
    } else if a[0].kind == TokenKey && |a| > 2 {
      PairRead(current, a);
      var pairs := current.keyValues + [KeyValue(a[0].value, a[1].value)];
      SectionsAppend(names, current.(keyValues := pairs), a[3..], b);
      assert ab[3..] == DropEnd(a[3..]) + b;
      assert ab[0] == a[0] && ab[1] == a[1];
      PairRead(current, ab);
    } else if a[0].kind == TokenLeftBracket && |a| > 2 {
      HeaderRead(current, a);
      var next := Section(a[1].value, []);
      SectionsAppend(names, next, a[4..], b);
      assert ab[4..] == DropEnd(a[4..]) + b;
      assert ab[0] == a[0] && ab[1] == a[1] && ab[3] == a[3];
      HeaderRead(current, ab);
      var done := Sections(next, a[4..]).value;
      AfterPrepend(current, done, Sections(done[|done| - 1], b));
    } else {
      LastRead(current, a);
      assert ab == b;
      AfterNothing(Sections(current, b));
    }
  }

  lemma AfterNothing(r: Result<seq<Section>>)
    ensures After([], r) == r
  {
    if r.Ok? {
      assert [] + r.value == r.value;
    }
  }

  lemma AfterPrepend(section: Section, done: seq<Section>, r: Result<seq<Section>>)
    requires done != []
    ensures Prepend(section, After(done[..|done| - 1], r)) == After(([section] + done)[..|done|], r)
  {
    assert ([section] + done)[..|done|] == [section] + done[..|done| - 1];
    if r.Ok? {
      assert [section] + (done[..|done| - 1] + r.value) == [section] + done[..|done| - 1] + r.value;
    }
  }

  /**
   The concatenation law: behind an input that parses, any input parses or fails as it does on its own,
   and the sections are joined.
   */
  lemma ParseConcatenates(names: NameRunes, name: string, a: string, b: string)
    requires Parsed(names, name, a).Ok?
    ensures var fa := Parsed(names, name, a).value; var rb := Parsed(names, name, b);
      && fa.sections != [] && (rb.Ok? ==> rb.value.sections != [])
      && Parsed(names, name, a + b) == match rb
                                       case Ok(fb) => Ok(File(name, Join(fa.sections, fb.sections)))
                                       case Err(error) => Err(error)
  {
    hide Lex, InLanguage, Sections;
    var ta, tb := Lex(names, a), Lex(names, b);
    LexStaysInLanguage(names, a);
    SectionsSucceed(names, UNNAMED, ta);
    LexConcatenates(names, a, b);
    SectionsAppend(names, UNNAMED, ta, tb);
    var done := Sections(UNNAMED, ta).value;
    SectionsContinue(done[|done| - 1], tb);
    if Sections(UNNAMED, tb).Ok? {
      var sections := Sections(UNNAMED, tb).value;
      assert done[..|done| - 1] + Continue(done[|done| - 1], sections) == Join(done, sections);
    }
  }

  // Printing.

  /** A pair on a line of its own behind `indent`. */
  function PrintPairs(indent: string, pairs: seq<KeyValue>): string {
    if pairs == [] then ""
    else indent + pairs[0].key + " " + pairs[0].value + "\n" + PrintPairs(indent, pairs[1..])
  }

  function PrintSections(sections: seq<Section>): string {
    if sections == [] then ""
    else "[" + sections[0].name + "]\n" + (PrintPairs("", sections[0].keyValues) + PrintSections(sections[1..]))
  }

  /** Canonical text of a file: its leading pairs, then its sections. */
  function Print(f: File): string
    requires f.sections != []
  {
    PrintPairs("", f.sections[0].keyValues) + PrintSections(f.sections[1..])
  }

  predicate PrintablePairs(names: NameRunes, pairs: seq<KeyValue>) {
    forall p | p in pairs :: IsKey(names, p.key) && IsValue(p.value)
  }

  predicate PrintableSections(names: NameRunes, sections: seq<Section>) {
    forall s | s in sections :: IsName(names, s.name) && PrintablePairs(names, s.keyValues)
  }

  predicate Printable(names: NameRunes, f: File) {
    f.sections != [] && f.sections[0].name == "" && PrintableSections(names, f.sections)
  }

  lemma {:induction false} BlanksLexAway(names: NameRunes, blanks: string, s: string)
    requires AllBlank(blanks)
    ensures Lex(names, blanks + s) == Lex(names, s)
  {
    if blanks == "" {
      assert blanks + s == s;
    } else {
      BlanksLexAway(names, blanks[1..], s);
      assert (blanks + s)[1..] == blanks[1..] + s;
    }
  }

  lemma PairLexes(names: NameRunes, indent: string, key: string, value: string, rest: string)
    requires AllBlank(indent) && IsKey(names, key) && IsValue(value)
    ensures Lex(names, indent + key + " " + value + "\n" + rest)
         == [Token(TokenKey, key), Token(TokenValue, value), LINE_TOKEN] + Lex(names, rest)
  {
    hide Lex, LexValue;
    var tail := value + "\n" + rest;
    assert indent + key + " " + value + "\n" + rest == indent + (key + " " + tail);
    BlanksLexAway(names, indent, key + " " + tail);
    assert tail[0] == if value == "" then '\n' else value[0];
    LexKey(names, key, " ", tail);
    LexLine(names, value, rest);
    assert [Token(TokenKey, key), Token(TokenValue, value), LINE_TOKEN]
        == [Token(TokenKey, key)] + [Token(TokenValue, value), LINE_TOKEN];
  }

  lemma PrintStep(indent: string, pairs: seq<KeyValue>, rest: string)
    requires pairs != []
    ensures PrintPairs(indent, pairs) + rest
         == indent + pairs[0].key + " " + pairs[0].value + "\n" + (PrintPairs(indent, pairs[1..]) + rest)
  {
    var line := indent + pairs[0].key + " " + pairs[0].value + "\n";
    assert PrintPairs(indent, pairs) + rest == line + PrintPairs(indent, pairs[1..]) + rest;
  }

  lemma {:induction false} PairsParse(names: NameRunes, indent: string, current: Section, pairs: seq<KeyValue>, rest: string)
    requires AllBlank(indent) && PrintablePairs(names, pairs)
    ensures Sections(current, Lex(names, PrintPairs(indent, pairs) + rest))
         == Sections(current.(keyValues := current.keyValues + pairs), Lex(names, rest))
    decreases |pairs|
  {
    hide Lex, SpanOf, Sections;
    if pairs == [] {
      assert PrintPairs(indent, pairs) + rest == rest;
      assert current.keyValues + pairs == current.keyValues;
    } else {
      var p, more := pairs[0], PrintPairs(indent, pairs[1..]) + rest;
      PrintStep(indent, pairs, rest);
      PairLexes(names, indent, p.key, p.value, more);
      var tokens := Lex(names, PrintPairs(indent, pairs) + rest);
      assert tokens[3..] == Lex(names, more);
      PairRead(current, tokens);
      var next := current.(keyValues := current.keyValues + [p]);
      PairsParse(names, indent, next, pairs[1..], rest);
      assert next.keyValues + pairs[1..] == current.keyValues + pairs;
    }
  }

  lemma HeaderParses(names: NameRunes, current: Section, name: string, rest: string)
    requires IsName(names, name)
    ensures Sections(current, Lex(names, "[" + name + "]\n" + rest)) == Prepend(current, Sections(Section(name, []), Lex(names, rest)))
  {
    hide Lex, LexHeader;
    assert "[" + name + "]\n" + rest == "[" + (name + "]" + ("\n" + rest));
    LexBracketCase(names, name + "]" + ("\n" + rest));
    LexName(names, name, "\n" + rest);
    LexNewLineCase(names, rest);
    var tokens := Lex(names, "[" + name + "]\n" + rest);
    assert tokens == [LEFT_TOKEN, Token(TokenSection, name), RIGHT_TOKEN, LINE_TOKEN] + Lex(names, rest);
    assert tokens[4..] == Lex(names, rest);
  }

  lemma {:induction false} SectionsParse(names: NameRunes, current: Section, sections: seq<Section>)
    requires PrintableSections(names, sections)
    ensures Sections(current, Lex(names, PrintSections(sections))) == Ok([current] + sections)
    decreases |sections|
  {
    if sections == [] {
      assert [current] + sections == [current];
    } else {
      var s, more := sections[0], PrintSections(sections[1..]);
      HeaderParses(names, current, s.name, PrintPairs("", s.keyValues) + more);
      PairsParse(names, "", Section(s.name, []), s.keyValues, more);
      assert Section(s.name, []).(keyValues := [] + s.keyValues) == s;
      SectionsParse(names, s, sections[1..]);
      assert [s] + sections[1..] == sections;
    }
  }

  /** Parsing undoes printing. */
  lemma ParseUndoesPrint(names: NameRunes, f: File)
    requires Printable(names, f)
    ensures Parsed(names, f.name, Print(f)) == Ok(f)
  {
    var first, others := f.sections[0], f.sections[1..];
    PairsParse(names, "", UNNAMED, first.keyValues, PrintSections(others));
    assert UNNAMED.(keyValues := [] + first.keyValues) == first;
    SectionsParse(names, first, others);
    assert [first] + others == f.sections;
  }

  lemma {:induction false} SectionsArePrintable(names: NameRunes, current: Section, tokens: seq<Token>)
    requires InLanguage(names, InLines, tokens)
    requires IsName(names, current.name) && PrintablePairs(names, current.keyValues)
    ensures var r := Sections(current, tokens);
      r.Ok? ==> r.value != [] && r.value[0].name == current.name && PrintableSections(names, r.value)
    decreases |tokens|
  {
    hide InLanguage, SpanOf;
    ItemShape(names, tokens);
    match tokens[0].kind
    case TokenNewLine =>
      SectionsArePrintable(names, current, tokens[1..]);
    case TokenKey =>
      if |tokens| > 2 {
        var pairs := current.keyValues + [KeyValue(tokens[0].value, tokens[1].value)];
        SectionsArePrintable(names, current.(keyValues := pairs), tokens[3..]);
      }
    case TokenLeftBracket =>
      if |tokens| > 2 && tokens[3].kind == TokenNewLine {
        SectionsArePrintable(names, Section(tokens[1].value, []), tokens[4..]);
      }
    case _ =>
  }

  lemma ParsedIsPrintable(names: NameRunes, name: string, input: string)
    requires Parsed(names, name, input).Ok?
    ensures Printable(names, Parsed(names, name, input).value)
  {
    LexStaysInLanguage(names, input);
    SectionsArePrintable(names, UNNAMED, Lex(names, input));
  }

  /** Files the parser can return are exactly the printable ones, and printing such a file and parsing it gives it back. */
  lemma ParserRange(names: NameRunes, f: File)
    ensures (exists input :: Parsed(names, f.name, input) == Ok(f)) <==> Printable(names, f)
    ensures Printable(names, f) ==> Parsed(names, f.name, Print(f)) == Ok(f)
  {
    if input :| Parsed(names, f.name, input) == Ok(f) {
      ParsedIsPrintable(names, f.name, input);
    }
    if Printable(names, f) {
      ParseUndoesPrint(names, f);
    }
  }
}
