/** What keys and section names are, rune by rune, and what happens where one ends. */
module FlbSpelling {
  import opened GoLang
  import opened Utf8
  import opened FlbLexer
  import opened FlbLanguage
  import opened FlbParser
  import opened FlbParserLaws

  predicate AllScalar(rs: seq<int>) {
    forall r | r in rs :: IsScalar(r)
  }

  function Encoded(rs: seq<int>): string
    requires AllScalar(rs)
  {
    if rs == [] then "" else EncodeRune(rs[0]) + Encoded(rs[1..])
  }

  /** Letters, numbers and dots. */
  predicate SpellsKey(names: NameRunes, rs: seq<int>) {
    forall r | r in rs :: r in names || r == '.' as int
  }

  /** Letters and numbers. */
  predicate SpellsName(names: NameRunes, rs: seq<int>) {
    forall r | r in rs :: r in names
  }

  lemma {:induction false} SpanOfEncoded(runes: set<int>, rs: seq<int>, rest: string)
    requires AllScalar(rs) && forall r | r in rs :: r in runes
    ensures SpanOf(runes, Encoded(rs) + rest) == |Encoded(rs)| + SpanOf(runes, rest)
  {
    hide DecodeRune, EncodeRune;
    if rs == [] {
      assert Encoded(rs) + rest == rest;
    } else {
      var first, more := EncodeRune(rs[0]), Encoded(rs[1..]) + rest;
      DecodeInvertsEncode(rs[0], more);
      assert Encoded(rs) + rest == first + more;
      Cut(first, more);
      SpanOfEncoded(runes, rs[1..], rest);
      EncodedIsNotEmpty(rs[0], more);
    }
  }

  lemma EncodedIsNotEmpty(r: int, rest: string)
    requires IsScalar(r)
    ensures EncodeRune(r) != "" && EncodeRune(r) + rest != []
  {
  }

  lemma {:induction false} SpanIsEncoded(runes: set<int>, v: string) returns (rs: seq<int>)
    requires RUNE_ERROR !in runes && SpanOf(runes, v) == |v|
    ensures AllScalar(rs) && (forall r | r in rs :: r in runes) && Encoded(rs) == v
  {
    hide DecodeRune, EncodeRune;
    if v == "" {
      rs := [];
    } else {
      var d := DecodeRune(v);
      DecodedIsEncoded(v);
      var more := SpanIsEncoded(runes, v[d.width..]);
      rs := [d.rune] + more;
      assert v == v[..d.width] + v[d.width..];
      assert rs[1..] == more;
    }
  }

  lemma {:induction false} TokensHaveShape(names: NameRunes, place: Place, tokens: seq<Token>, t: Token)
    requires InLanguage(names, place, tokens) && t in tokens
    ensures t.kind == TokenKey ==> IsKey(names, t.value)
    ensures t.kind == TokenSection ==> IsName(names, t.value)
    decreases |tokens|
  {
    hide SpanOf;
    var rest := tokens[1..];
    if t != tokens[0] {
      assert t in rest;
      match place
      case InLines =>
        var next := if tokens[0] == LINE_TOKEN then InLines else if tokens[0] == LEFT_TOKEN then InHeader else InPair;
        TokensHaveShape(names, next, rest, t);
      case _ =>
        if t != rest[0] {
          TokensHaveShape(names, InLines, rest[1..], t);
        }
    }
  }

  /** Some input has a token of this kind and value. */
  ghost predicate Occurs(names: NameRunes, kind: TokenType, v: string) {
    exists s :: Token(kind, v) in Lex(names, s)
  }

  /** The keys are the non-empty strings of encoded letters, numbers and dots. */
  lemma KeysExactly(names: NameRunes, v: string)
    ensures Occurs(names, TokenKey, v) <==> v != "" && exists rs :: AllScalar(rs) && SpellsKey(names, rs) && Encoded(rs) == v
  {
    hide Lex, SpanOf, InLanguage, LexValue, Encoded;
    if s :| Token(TokenKey, v) in Lex(names, s) {
      LexStaysInLanguage(names, s);
      TokensHaveShape(names, InLines, Lex(names, s), Token(TokenKey, v));
      var rs := SpanIsEncoded(KeyRunes(names), v);
      assert SpellsKey(names, rs);
    }
    if v != "" {
      if rs :| AllScalar(rs) && SpellsKey(names, rs) && Encoded(rs) == v {
        EncodedSpan(KeyRunes(names), rs);
        LexKey(names, v, " ", "");
        assert Token(TokenKey, v) in Lex(names, v + " " + "");
      }
    }
  }

  lemma EncodedSpan(runes: set<int>, rs: seq<int>)
    requires AllScalar(rs) && forall r | r in rs :: r in runes
    ensures SpanOf(runes, Encoded(rs)) == |Encoded(rs)|
  {
    SpanOfEncoded(runes, rs, "");
    assert Encoded(rs) + "" == Encoded(rs);
  }

  /** The section names are the strings, empty or not, of encoded letters and numbers. */
  lemma NamesExactly(names: NameRunes, v: string)
    ensures Occurs(names, TokenSection, v) <==> exists rs :: AllScalar(rs) && SpellsName(names, rs) && Encoded(rs) == v
  {
    hide Lex, SpanOf, InLanguage, LexHeader, Encoded;
    if s :| Token(TokenSection, v) in Lex(names, s) {
      LexStaysInLanguage(names, s);
      TokensHaveShape(names, InLines, Lex(names, s), Token(TokenSection, v));
      var rs := SpanIsEncoded(names, v);
      assert SpellsName(names, rs);
    }
    if rs :| AllScalar(rs) && SpellsName(names, rs) && Encoded(rs) == v {
      EncodedSpan(names, rs);
      LexName(names, v, "");
      LexBracketCase(names, v + "]" + "");
      assert Token(TokenSection, v) in Lex(names, "[" + (v + "]" + ""));
    }
  }

  // Where they end.

  /** `rest` is empty or goes on with something that belongs to no key. */
  predicate EndsKey(names: NameRunes, rest: string) {
    rest != "" ==> var r := DecodeRune(rest).rune; r !in names && r != '.' as int
  }

  predicate EndsName(names: NameRunes, rest: string) {
    rest != "" ==> DecodeRune(rest).rune !in names
  }

  /** A line that is no header begins with these runes and then `rest`. */
  predicate BeginsKey(names: NameRunes, rs: seq<int>, rest: string) {
    && AllScalar(rs) && SpellsKey(names, rs) && EndsKey(names, rest)
    && (rs == [] ==> rest != "" && rest[0] !in {'\t', ' ', '\n', '['})
  }

  lemma KeyBegins(names: NameRunes, rs: seq<int>, rest: string)
    requires BeginsKey(names, rs, rest)
    ensures Encoded(rs) + rest != "" && (Encoded(rs) + rest)[0] !in {'\t', ' ', '\n', '['}
  {
    if rs != [] {
      var key := Encoded(rs);
      EncodedIsNotEmpty(rs[0], Encoded(rs[1..]));
      EncodedSpan(KeyRunes(names), rs);
      hide DecodeRune, SpanOf, EncodeRune;
      KeyIsNoLine(names, key);
      assert (key + rest)[0] == key[0];
    } else {
      assert Encoded(rs) + rest == rest;
    }
  }

  /** What the lexer makes of the end of a key: a key if a tab or a space is there, and an error otherwise. */
  lemma KeyEnds(names: NameRunes, rs: seq<int>, rest: string)
    requires BeginsKey(names, rs, rest)
    ensures Lex(names, Encoded(rs) + rest)
         == if rest == "" then [Token(TokenError, "unexpected EOF")]
            else if rest[0] in {'\t', ' '} then [Token(TokenKey, Encoded(rs))] + LexValue(names, rest[BlankLength(rest)..])
            else [Token(TokenError, "invalid key")]
  {
    var key := Encoded(rs);
    KeyBegins(names, rs, rest);
    SpanOfEncoded(KeyRunes(names), rs, rest);
    assert SpanOf(KeyRunes(names), rest) == 0;
    hide Lex, DecodeRune, LexValue, LexPair, BlankLength, Encoded, SpanOf;
    LexIsPair(names, key + rest);
    PairEnds(names, key, rest);
  }

  lemma PairEnds(names: NameRunes, key: string, rest: string)
    requires SpanOf(KeyRunes(names), key + rest) == |key|
    ensures LexPair(names, key + rest)
         == if rest == "" then [UNEXPECTED_END]
            else if IsBlank(rest[0]) then [Token(TokenKey, key)] + LexValue(names, rest[BlankLength(rest)..])
            else [INVALID_KEY]
  {
    hide Lex, DecodeRune, LexValue, BlankLength, SpanOf;
    var s := key + rest;
    Cut(key, rest);
    if rest != "" && IsBlank(rest[0]) {
      assert s[|key| + BlankLength(rest)..] == rest[BlankLength(rest)..];
    }
  }

  lemma LastTokenIsReported(names: NameRunes, name: string, s: string, error: string)
    requires Lex(names, s) in {[Token(TokenError, error)], [LEFT_TOKEN, Token(TokenError, error)]}
    ensures Parsed(names, name, s) == Err(error)
  {
    hide Lex;
  }

  lemma ErrorTokenIsReported(names: NameRunes, name: string, a: string, b: string)
    requires Parsed(names, name, a).Ok? && Parsed(names, name, b).Err?
    ensures Parsed(names, name, a + b) == Parsed(names, name, b)
  {
    hide Parsed;
    ParseConcatenates(names, name, a, b);
  }

  /** Behind a text that parses, a line whose key goes on with anything but a tab or a space is an invalid key; one that just stops is cut short. */
  lemma BadKeysAreReported(names: NameRunes, name: string, a: string, rs: seq<int>, rest: string)
    requires Parsed(names, name, a).Ok? && BeginsKey(names, rs, rest)
    ensures rest == "" ==> Parsed(names, name, a + (Encoded(rs) + rest)) == Err("unexpected EOF")
    ensures rest != "" && rest[0] !in {'\t', ' '} ==> Parsed(names, name, a + (Encoded(rs) + rest)) == Err("invalid key")
  {
    assert AllScalar(rs);
    hide BeginsKey, Encoded, Lex;
    KeyEnds(names, rs, rest);
    if rest == "" || rest[0] !in {'\t', ' '} {
      LastTokenIsReported(names, name, Encoded(rs) + rest, if rest == "" then "unexpected EOF" else "invalid key");
      ErrorTokenIsReported(names, name, a, Encoded(rs) + rest);
    }
  }

  /** And a header whose name goes on with anything but a right bracket has none. */
  lemma BadHeadersAreReported(names: NameRunes, name: string, a: string, rs: seq<int>, rest: string)
    requires Parsed(names, name, a).Ok? && AllScalar(rs) && SpellsName(names, rs) && EndsName(names, rest)
    ensures rest == "" ==> Parsed(names, name, a + ("[" + (Encoded(rs) + rest))) == Err("unexpected EOF")
    ensures rest != "" && rest[0] != ']' ==> Parsed(names, name, a + ("[" + (Encoded(rs) + rest))) == Err("missing right bracket")
  {
    var key := Encoded(rs);
    SpanOfEncoded(names, rs, rest);
    assert SpanOf(names, rest) == 0;
    hide Encoded, DecodeRune, Lex, LexHeader, SpanOf, Parsed;
    if rest == "" || rest[0] != ']' {
      LexBracketCase(names, key + rest);
      HeaderEnds(names, key, rest);
      var error := if rest == "" then UNEXPECTED_END else MISSING_BRACKET;
      assert Lex(names, "[" + (key + rest)) == [LEFT_TOKEN, error];
      LastTokenIsReported(names, name, "[" + (key + rest), error.value);
      ErrorTokenIsReported(names, name, a, "[" + (key + rest));
    }
  }

  lemma HeaderEnds(names: NameRunes, key: string, rest: string)
    requires SpanOf(names, key + rest) == |key| && (rest == "" || rest[0] != ']')
    ensures LexHeader(names, key + rest) == if rest == "" then [UNEXPECTED_END] else [MISSING_BRACKET]
  {
    hide Lex, DecodeRune, SpanOf;
    assert rest != "" ==> (key + rest)[|key|] == rest[0];
  }

  lemma LogIsSpelled()
    ensures Encoded(['L' as int, 'o' as int, 'g' as int]) == "Log"
  {
    var one, two, three := ['g' as int], ['o' as int, 'g' as int], ['L' as int, 'o' as int, 'g' as int];
    assert three[1..] == two && two[1..] == one && one[1..] == [];
    assert Encoded(one) == "g" + "";
    assert Encoded(two) == "o" + Encoded(one);
    assert Encoded(three) == "L" + Encoded(two);
  }

  /** For one, a key with an underscore: the underscore is neither a letter nor a number. */
  lemma UnderscoreIsInvalid(names: NameRunes, name: string)
    requires '_' as int !in names
    ensures Parsed(names, name, "Log_Level info\n") == Err("invalid key")
  {
    var rs, rest := ['L' as int, 'o' as int, 'g' as int], "_Level info\n";
    LogIsSpelled();
    AsciiDecodesToItself(rest);
    hide Lex, Encoded, DecodeRune;
    KeyEnds(names, rs, rest);
    assert "Log_Level info\n" == Encoded(rs) + rest;
    LastTokenIsReported(names, name, "Log_Level info\n", "invalid key");
  }
}
