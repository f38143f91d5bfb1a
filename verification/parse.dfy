/**
 The Fluent Bit configuration parser: a loop over the lexer's tokens steered by flags,
 proved equal to a reading of the token language item by item.
 */
module FlbParser {
  import opened GoLang
  import opened FlbLexer
  import opened FlbLanguage

  datatype KeyValue = KeyValue(key: string, value: string)

  datatype Section = Section(name: string, keyValues: seq<KeyValue>)

  datatype File = File(name: string, sections: seq<Section>)

  const UNNAMED := Section("", [])

  // The grammar.

  function Prepend(section: Section, rest: Result<seq<Section>>): Result<seq<Section>> {
    match rest
    case Ok(sections) => Ok([section] + sections)
    case Err(error) => Err(error)
  }

  /** The sections that `tokens` describe when they continue the section `current`; meant for streams of the token language. */
  function Sections(current: Section, tokens: seq<Token>): Result<seq<Section>>
    decreases |tokens|
  {
    if tokens == [] then Err("")
    else match tokens[0].kind
      case TokenEOF => Ok([current])
      case TokenError => Err(tokens[0].value)
      case TokenNewLine => Sections(current, tokens[1..])
      case TokenKey =>
        if |tokens| <= 2 then Err(tokens[|tokens| - 1].value)
        else
          var pair := KeyValue(tokens[0].value, tokens[1].value);
          Sections(current.(keyValues := current.keyValues + [pair]), tokens[3..])
      case TokenLeftBracket =>
        if |tokens| <= 3 then Err(tokens[|tokens| - 1].value)
        else if tokens[3].kind != TokenNewLine then Err("newline required")
        else Prepend(current, Sections(Section(tokens[1].value, []), tokens[4..]))
      case _ => Err("")
  }

  function Parsed(names: NameRunes, name: string, input: string): Result<File> {
    match Sections(UNNAMED, Lex(names, input))
    case Ok(sections) => Ok(File(name, sections))
    case Err(error) => Err(error)
  }

  // The flags.

  datatype Flags = Flags(requireNewline: bool, processingSection: bool, section: Section,
                         processingKV: bool, key: string, sections: seq<Section>)

  datatype Verdict = More(flags: Flags) | Stop(result: Result<seq<Section>>)

  /** What the loop does with one token, whatever the stream it comes from. */
  function Consume(f: Flags, t: Token): Verdict {
    if f.requireNewline then
      if t.kind != TokenNewLine then Stop(Err("newline required")) else More(f.(requireNewline := false))
    else match t.kind
      case TokenError => Stop(Err(t.value))
      case TokenEOF =>
        if f.processingKV || f.processingSection then Stop(Err("unexpected EOF"))
        else Stop(Ok(f.sections + [f.section]))
      case TokenNewLine =>
        if f.processingKV || f.processingSection then Stop(Err("unexpected newline")) else More(f)
      case TokenLeftBracket =>
        if f.processingKV || f.processingSection then Stop(Err("unexpected left bracket"))
        else More(f.(sections := f.sections + [f.section], processingSection := true, section := UNNAMED))
      case TokenSection =>
        if !f.processingSection then Stop(Err("unexpected section"))
        else More(f.(section := f.section.(name := t.value)))
      case TokenRightBracket =>
        if !f.processingSection then Stop(Err("unexpected right bracket"))
        else More(f.(processingSection := false, requireNewline := true))
      case TokenKey =>
        if f.processingKV || f.processingSection then Stop(Err("unexpected key"))
        else More(f.(processingKV := true, key := t.value))
      case TokenValue =>
        if !f.processingKV then Stop(Err("unexpected value"))
        else
          var pairs := f.section.keyValues + [KeyValue(f.key, t.value)];
          More(f.(section := f.section.(keyValues := pairs), processingKV := false, key := ""))
  }

  function ConsumeAll(f: Flags, tokens: seq<Token>): Result<seq<Section>>
    decreases |tokens|
  {
    if tokens == [] then Ok(f.sections)
    else match Consume(f, tokens[0])
      case Stop(result) => result
      case More(flags) => ConsumeAll(flags, tokens[1..])
  }

  /** Between two items no flag is up. */
  function Resting(section: Section, sections: seq<Section>): Flags {
    Flags(false, false, section, false, "", sections)
  }

  function After(sections: seq<Section>, rest: Result<seq<Section>>): Result<seq<Section>> {
    match rest
    case Ok(more) => Ok(sections + more)
    case Err(error) => Err(error)
  }

  /** The items a stream can begin with, and that it goes on with items. */
  lemma ItemShape(names: NameRunes, tokens: seq<Token>)
    requires InLanguage(names, InLines, tokens)
    ensures tokens != [] && (tokens[0].kind in {TokenEOF, TokenError} ==> |tokens| == 1)
    ensures tokens[0].kind == TokenEOF ==> tokens[0] == END_TOKEN
    ensures tokens[0].kind == TokenNewLine ==> |tokens| > 1 && InLanguage(names, InLines, tokens[1..])
    ensures tokens[0].kind == TokenKey ==>
      || (|tokens| == 2 && tokens[1].kind == TokenError)
      || (|tokens| > 3 && IsKey(names, tokens[0].value) && tokens[1].kind == TokenValue && IsValue(tokens[1].value)
          && tokens[2] == LINE_TOKEN && InLanguage(names, InLines, tokens[3..]))
    ensures tokens[0].kind == TokenLeftBracket ==>
      || (|tokens| == 2 && tokens[1].kind == TokenError)
      || (|tokens| > 3 && tokens[1].kind == TokenSection && IsName(names, tokens[1].value)
          && tokens[2] == RIGHT_TOKEN && InLanguage(names, InLines, tokens[3..])
          && (tokens[3].kind == TokenNewLine ==> |tokens| > 4 && InLanguage(names, InLines, tokens[4..])))
    ensures tokens[0].kind in {TokenEOF, TokenError, TokenNewLine, TokenKey, TokenLeftBracket}
  {
    hide SpanOf;
    var rest := tokens[1..];
    if tokens[0].kind == TokenKey {
      assert InLanguage(names, InPair, rest);
      assert |rest| == 1 || InLanguage(names, InLines, rest[1..][1..]);
    }
    if tokens[0].kind == TokenLeftBracket {
      assert InLanguage(names, InHeader, rest);
      assert |rest| == 1 || InLanguage(names, InLines, rest[1..][1..]);
    }
    if |rest| > 1 {
      assert rest[1..][1..] == tokens[3..];
    }
    if |tokens| > 3 {
      assert tokens[3..][1..] == tokens[4..];
      if tokens[3].kind == TokenNewLine && InLanguage(names, InLines, tokens[3..]) {
        assert InLanguage(names, InLines, tokens[4..]);
      }
    }
  }

  /** On the lexer's streams the flags do what the grammar says. */
  lemma {:induction false} FlagsFollowGrammar(names: NameRunes, section: Section, sections: seq<Section>, tokens: seq<Token>)
    requires InLanguage(names, InLines, tokens)
    ensures ConsumeAll(Resting(section, sections), tokens) == After(sections, Sections(section, tokens))
    decreases |tokens|
  {
    hide InLanguage, SpanOf;
    ItemShape(names, tokens);
    match tokens[0].kind
    case TokenNewLine =>
      FlagsFollowGrammar(names, section, sections, tokens[1..]);
    case TokenKey =>
      if |tokens| > 2 {
        var pairs := section.keyValues + [KeyValue(tokens[0].value, tokens[1].value)];
        FlagsFollowGrammar(names, section.(keyValues := pairs), sections, tokens[3..]);
        FlagsOnPair(section, sections, tokens);
      } else {
        FlagsOnShortItem(section, sections, tokens);
      }
    case TokenLeftBracket =>
      if |tokens| == 2 {
        FlagsOnShortItem(section, sections, tokens);
      } else {
        FlagsOnHeader(section, sections, tokens);
        if tokens[3].kind == TokenNewLine {
          var next := Section(tokens[1].value, []);
          FlagsFollowGrammar(names, next, sections + [section], tokens[4..]);
          AfterHeader(section, sections, Sections(next, tokens[4..]));
        }
      }
    case _ =>
  }

  lemma AfterHeader(section: Section, sections: seq<Section>, rest: Result<seq<Section>>)
    ensures After(sections + [section], rest) == After(sections, Prepend(section, rest))
  {
    if rest.Ok? {
      assert sections + [section] + rest.value == sections + ([section] + rest.value);
    }
  }

  lemma FlagsOnPair(section: Section, sections: seq<Section>, tokens: seq<Token>)
    requires |tokens| > 2 && tokens[0].kind == TokenKey && tokens[1].kind == TokenValue && tokens[2].kind == TokenNewLine
    ensures var pairs := section.keyValues + [KeyValue(tokens[0].value, tokens[1].value)];
      ConsumeAll(Resting(section, sections), tokens)
      == ConsumeAll(Resting(section.(keyValues := pairs), sections), tokens[3..])
  {
    var f := Resting(section, sections);
    var f1 := Consume(f, tokens[0]).flags;
    var f2 := Consume(f1, tokens[1]).flags;
    assert ConsumeAll(f, tokens) == ConsumeAll(f1, tokens[1..]);
    assert tokens[1..][0] == tokens[1] && tokens[1..][1..] == tokens[2..];
    assert ConsumeAll(f1, tokens[1..]) == ConsumeAll(f2, tokens[2..]);
    assert tokens[2..][0] == tokens[2] && tokens[2..][1..] == tokens[3..];
  }

  lemma FlagsOnHeader(section: Section, sections: seq<Section>, tokens: seq<Token>)
    requires |tokens| > 3 && tokens[0].kind == TokenLeftBracket && tokens[1].kind == TokenSection && tokens[2].kind == TokenRightBracket
    ensures ConsumeAll(Resting(section, sections), tokens)
         == if tokens[3].kind != TokenNewLine then Err("newline required")
            else ConsumeAll(Resting(Section(tokens[1].value, []), sections + [section]), tokens[4..])
  {
    var f := Resting(section, sections);
    var f1 := Consume(f, tokens[0]).flags;
    var f2 := Consume(f1, tokens[1]).flags;
    var f3 := Consume(f2, tokens[2]).flags;
    assert ConsumeAll(f, tokens) == ConsumeAll(f1, tokens[1..]);
    assert tokens[1..][0] == tokens[1] && tokens[1..][1..] == tokens[2..];
    assert ConsumeAll(f1, tokens[1..]) == ConsumeAll(f2, tokens[2..]);
    assert tokens[2..][0] == tokens[2] && tokens[2..][1..] == tokens[3..];
    assert ConsumeAll(f2, tokens[2..]) == ConsumeAll(f3, tokens[3..]);
    assert tokens[3..][0] == tokens[3] && tokens[3..][1..] == tokens[4..];
  }

  /** An item cut off by the error token. */
  lemma FlagsOnShortItem(section: Section, sections: seq<Section>, tokens: seq<Token>)
    requires |tokens| == 2 && tokens[0].kind in {TokenKey, TokenLeftBracket} && tokens[1].kind == TokenError
    ensures ConsumeAll(Resting(section, sections), tokens) == Err(tokens[1].value)
  {
    var f1 := Consume(Resting(section, sections), tokens[0]).flags;
    assert ConsumeAll(Resting(section, sections), tokens) == ConsumeAll(f1, tokens[1..]);
  }

  /** One of the loop's guards against tokens out of place stops it at `t`. */
  predicate Unexpected(f: Flags, t: Token) {
    && !f.requireNewline
    && match t.kind
       case TokenError => false
       case TokenSection => !f.processingSection
       case TokenRightBracket => !f.processingSection
       case TokenValue => !f.processingKV
       case _ => f.processingKV || f.processingSection
  }

  /** The loop stops inside `tokens`, and no such guard stops it. */
  predicate Orderly(f: Flags, tokens: seq<Token>)
    decreases |tokens|
  {
    && tokens != [] && !Unexpected(f, tokens[0])
    && match Consume(f, tokens[0])
       case Stop(_) => true
       case More(flags) => Orderly(flags, tokens[1..])
  }

  lemma OrderlyPair(section: Section, sections: seq<Section>, tokens: seq<Token>)
    requires |tokens| > 2 && tokens[0].kind == TokenKey && tokens[1].kind == TokenValue && tokens[2].kind == TokenNewLine
    requires Orderly(Resting(section.(keyValues := section.keyValues + [KeyValue(tokens[0].value, tokens[1].value)]), sections), tokens[3..])
    ensures Orderly(Resting(section, sections), tokens)
  {
    var f1 := Consume(Resting(section, sections), tokens[0]).flags;
    var f2 := Consume(f1, tokens[1]).flags;
    assert tokens[2..][0] == tokens[2] && tokens[2..][1..] == tokens[3..];
    assert Orderly(f2, tokens[2..]);
    assert tokens[1..][0] == tokens[1] && tokens[1..][1..] == tokens[2..];
    assert Orderly(f1, tokens[1..]);
  }

  lemma OrderlyHeader(section: Section, sections: seq<Section>, tokens: seq<Token>)
    requires |tokens| > 3 && tokens[0].kind == TokenLeftBracket && tokens[1].kind == TokenSection && tokens[2].kind == TokenRightBracket
    requires tokens[3].kind == TokenNewLine ==> Orderly(Resting(Section(tokens[1].value, []), sections + [section]), tokens[4..])
    ensures Orderly(Resting(section, sections), tokens)
  {
    var f1 := Consume(Resting(section, sections), tokens[0]).flags;
    var f2 := Consume(f1, tokens[1]).flags;
    var f3 := Consume(f2, tokens[2]).flags;
    assert tokens[3..][0] == tokens[3] && tokens[3..][1..] == tokens[4..];
    assert Orderly(f3, tokens[3..]);
    assert tokens[2..][0] == tokens[2] && tokens[2..][1..] == tokens[3..];
    assert Orderly(f2, tokens[2..]);
    assert tokens[1..][0] == tokens[1] && tokens[1..][1..] == tokens[2..];
    assert Orderly(f1, tokens[1..]);
  }

  lemma {:induction false} StreamIsOrderly(names: NameRunes, section: Section, sections: seq<Section>, tokens: seq<Token>)
    requires InLanguage(names, InLines, tokens)
    ensures Orderly(Resting(section, sections), tokens)
    decreases |tokens|
  {
    hide InLanguage, SpanOf;
    ItemShape(names, tokens);
    match tokens[0].kind
    case TokenNewLine =>
      StreamIsOrderly(names, section, sections, tokens[1..]);
    case TokenKey =>
      if |tokens| > 2 {
        StreamIsOrderly(names, section.(keyValues := section.keyValues + [KeyValue(tokens[0].value, tokens[1].value)]), sections, tokens[3..]);
        OrderlyPair(section, sections, tokens);
      }
    case TokenLeftBracket =>
      if |tokens| > 2 {
        if tokens[3].kind == TokenNewLine {
          StreamIsOrderly(names, Section(tokens[1].value, []), sections + [section], tokens[4..]);
        }
        OrderlyHeader(section, sections, tokens);
      }
    case _ =>
  }

  /** Parsing any input, none of the guards against tokens out of place ever fires, and the loop never runs out of tokens. */
  lemma GuardsNeverFire(names: NameRunes, input: string)
    ensures Orderly(Resting(UNNAMED, []), Lex(names, input))
  {
    LexStaysInLanguage(names, input);
    StreamIsOrderly(names, UNNAMED, [], Lex(names, input));
  }

  lemma FlagsParseInput(names: NameRunes, input: string)
    ensures ConsumeAll(Resting(UNNAMED, []), Lex(names, input)) == Sections(UNNAMED, Lex(names, input))
  {
    var tokens := Lex(names, input);
    LexStaysInLanguage(names, input);
    FlagsFollowGrammar(names, UNNAMED, [], tokens);
    if Sections(UNNAMED, tokens).Ok? {
      var sections := Sections(UNNAMED, tokens).value;
      assert [] + sections == sections;
    }
  }

  method Parse(names: NameRunes, name: string, input: string) returns (r: Result<File>)
    ensures r == Parsed(names, name, input)
  {
    hide Lex, Sections, InLanguage, SpanOf;
    var lexer := new Lexer(names, input);
    StartIsPending(names, input);
    assert input[0..] == input;
    lexer.Run();
    var tokens := lexer.tokens;
    assert tokens == Lex(names, input);
    FlagsParseInput(names, input);

    var requireNewline, processingSection, section := false, false, UNNAMED;
    var processingKV, key := false, "";
    var sections: seq<Section> := [];
    for i := 0 to |tokens|
      invariant ConsumeAll(Flags(requireNewline, processingSection, section, processingKV, key, sections), tokens[i..])
             == ConsumeAll(Resting(UNNAMED, []), tokens)
    {
      var t := tokens[i];
      assert tokens[i..][1..] == tokens[i + 1..];
      if requireNewline {
        if t.kind != TokenNewLine {
          return Err("newline required");
        }
        requireNewline := false;
        continue;
      }
      match t.kind {
        case TokenError =>
          return Err(t.value);
        case TokenEOF =>
          if processingKV || processingSection {
            return Err("unexpected EOF");
          }
          sections := sections + [section];
          return Ok(File(name, sections));
        case TokenNewLine =>
          if processingKV || processingSection {
            return Err("unexpected newline");
          }
        case TokenLeftBracket =>
          if processingKV || processingSection {
            return Err("unexpected left bracket");
          }
          sections := sections + [section];
          processingSection := true;
          section := Section("", []);
        case TokenSection =>
          if !processingSection {
            return Err("unexpected section");
          }
          section := section.(name := t.value);
        case TokenRightBracket =>
          if !processingSection {
            return Err("unexpected right bracket");
          }
          processingSection := false;
          requireNewline := true;
        case TokenKey =>
          if processingKV || processingSection {
            return Err("unexpected key");
          }
          processingKV := true;
          key := t.value;
        case TokenValue =>
          if !processingKV {
            return Err("unexpected value");
          }
          section := section.(keyValues := section.keyValues + [KeyValue(key, t.value)]);
          processingKV := false;
          key := "";
      }
    }
    return Ok(File(name, sections));
  }

  lemma StartIsPending(names: NameRunes, s: string)
    ensures Pending(names, Start, s) == Lex(names, s)
  {
  }
}
