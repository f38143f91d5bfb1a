/**
 The Fluent Bit configuration lexer: a table of state functions over a mutable cursor,
 proved to produce the tokens of a recursive definition of the language.
 */
module FlbLexer {
  import opened Utf8

  /**
   The code points that `unicode.IsLetter` or `unicode.IsNumber` accepts. The Unicode tables
   are a parameter: what is known of them is what the lexer and its callers depend on.
   */
  type NameRunes = runes: set<int> |
    && RUNE_ERROR !in runes
    && '[' as int !in runes && ']' as int !in runes && '.' as int !in runes
    && '\t' as int !in runes && ' ' as int !in runes && '\n' as int !in runes
    && (forall r | 0x30 <= r <= 0x39 || 0x41 <= r <= 0x5A || 0x61 <= r <= 0x7A :: r in runes)
    witness set r | 0x30 <= r <= 0x7A && (r <= 0x39 || 0x41 <= r <= 0x5A || 0x61 <= r)

  datatype TokenType =
    | TokenError
    | TokenEOF
    | TokenNewLine
    | TokenLeftBracket
    | TokenRightBracket
    | TokenSection
    | TokenKey
    | TokenValue

  datatype Token = Token(kind: TokenType, value: string)

  const END_TOKEN := Token(TokenEOF, "")
  const LINE_TOKEN := Token(TokenNewLine, "\n")
  const LEFT_TOKEN := Token(TokenLeftBracket, "[")
  const RIGHT_TOKEN := Token(TokenRightBracket, "]")
  const UNEXPECTED_END := Token(TokenError, "unexpected EOF")
  const MISSING_BRACKET := Token(TokenError, "missing right bracket")
  const INVALID_KEY := Token(TokenError, "invalid key")

  predicate IsBlank(c: char) {
    c == '\t' || c == ' '
  }

  function KeyRunes(names: NameRunes): set<int> {
    names + {'.' as int}
  }

  /** Number of bytes of the longest prefix of `s` whose runes all belong to `runes`. */
  function SpanOf(runes: set<int>, s: string): (n: nat)
    ensures n <= |s|
  {
    if s == [] then 0
    else
      var d := DecodeRune(s);
      if d.rune in runes then d.width + SpanOf(runes, s[d.width..]) else 0
  }

  function BlankLength(s: string): (n: nat)
    ensures n <= |s| && (forall i | 0 <= i < n :: IsBlank(s[i]))
    ensures n < |s| ==> !IsBlank(s[n])
  {
    if s == [] || !IsBlank(s[0]) then 0 else 1 + BlankLength(s[1..])
  }

  /** Position of the first newline, or the length of `s` if there is none. */
  function LineLength(s: string): (n: nat)
    ensures n <= |s| && '\n' !in s[..n]
    ensures n < |s| ==> s[n] == '\n'
  {
    if s == [] || s[0] == '\n' then 0 else 1 + LineLength(s[1..])
  }

  // The language, defined by recursion over the input.

  function Lex(names: NameRunes, s: string): (tokens: seq<Token>)
    decreases |s|, 1
  {
    if s == [] then [END_TOKEN]
    else if IsBlank(s[0]) then Lex(names, s[1..])
    else if s[0] == '\n' then [LINE_TOKEN] + Lex(names, s[1..])
    else if s[0] == '[' then [LEFT_TOKEN] + LexHeader(names, s[1..])
    else LexPair(names, s)
  }

  /** After a left bracket. */
  function LexHeader(names: NameRunes, s: string): (tokens: seq<Token>)
    decreases |s|, 2
  {
    var n := SpanOf(names, s);
    if n == |s| then [UNEXPECTED_END]
    else if s[n] == ']' then [Token(TokenSection, s[..n]), RIGHT_TOKEN] + Lex(names, s[n + 1..])
    else [MISSING_BRACKET]
  }

  /** At the first byte of a key. */
  function LexPair(names: NameRunes, s: string): (tokens: seq<Token>)
    decreases |s|, 0
  {
    var n := SpanOf(KeyRunes(names), s);
    if n == |s| then [UNEXPECTED_END]
    else if IsBlank(s[n]) then [Token(TokenKey, s[..n])] + LexValue(names, s[n + BlankLength(s[n..])..])
    else [INVALID_KEY]
  }

  /** At the first byte of a value. */
  function LexValue(names: NameRunes, s: string): (tokens: seq<Token>)
    decreases |s|, 2
  {
    var n := LineLength(s);
    if n == |s| then [UNEXPECTED_END]
    else [Token(TokenValue, s[..n])] + Lex(names, s[n..])
  }

  // The machine. `s` is always the input from the cursor on.

  datatype State =
    | Start
    | End
    | GlobalWhiteSpace
    | KeyWhiteSpace
    | NewLine
    | LeftBracket
    | SectionName
    | RightBracket
    | Key
    | Value
    | Halted

  /** What the previous state has established when the machine enters `state`; the unchecked advances rely on it. */
  predicate Ready(state: State, s: string) {
    match state
    case End => s == []
    case GlobalWhiteSpace => s != [] && IsBlank(s[0])
    case KeyWhiteSpace => s != [] && IsBlank(s[0])
    case NewLine => s != [] && s[0] == '\n'
    case LeftBracket => s != [] && s[0] == '['
    case RightBracket => s != [] && s[0] == ']'
    case Key => s != [] && !IsBlank(s[0]) && s[0] != '\n' && s[0] != '['
    case _ => true
  }

  /** Bounds the moves that consume nothing. */
  function Rank(state: State): nat {
    match state
    case Halted => 0
    case End | GlobalWhiteSpace | NewLine | LeftBracket | RightBracket | Key | KeyWhiteSpace => 1
    case Start | SectionName => 2
    case Value => 3
  }

  datatype Move = Move(emitted: seq<Token>, next: State, consumed: nat)

  function SectionMove(names: NameRunes, s: string): (m: Move)
    ensures m.consumed <= |s| && Ready(m.next, s[m.consumed..]) && Rank(m.next) < Rank(SectionName)
  {
    var n := SpanOf(names, s);
    if n == |s| then Move([UNEXPECTED_END], Halted, n)
    else if s[n] == ']' then Move([Token(TokenSection, s[..n])], RightBracket, n)
    else Move([MISSING_BRACKET], Halted, n)
  }

  function KeyMove(names: NameRunes, s: string): (m: Move)
    requires Ready(Key, s)
    ensures m.consumed <= |s| && Ready(m.next, s[m.consumed..])
    ensures m.consumed == 0 ==> m.next == Halted
  {
    var n := SpanOf(KeyRunes(names), s);
    if n == |s| then Move([UNEXPECTED_END], Halted, n)
    else if IsBlank(s[n]) then Move([Token(TokenKey, s[..n])], KeyWhiteSpace, n)
    else Move([INVALID_KEY], Halted, n)
  }

  function ValueMove(s: string): (m: Move)
    ensures m.consumed <= |s| && Ready(m.next, s[m.consumed..]) && Rank(m.next) < Rank(Value)
  {
    var n := LineLength(s);
    if n == |s| then Move([UNEXPECTED_END], Halted, n)
    else Move([Token(TokenValue, s[..n])], Start, n)
  }

  /** One call of a state function: it either consumes input or lowers the rank, and leaves the next state ready. */
  function Advance(names: NameRunes, state: State, s: string): (m: Move)
    requires Ready(state, s) && state != Halted
    ensures m.consumed <= |s| && Ready(m.next, s[m.consumed..])
    ensures m.consumed == 0 ==> Rank(m.next) < Rank(state)
    ensures m.emitted != [] && m.emitted[0].kind == TokenError ==> m.next == Halted
  {
    match state
    case Start =>
      Move([], if s == [] then End
               else if IsBlank(s[0]) then GlobalWhiteSpace
               else if s[0] == '\n' then NewLine
               else if s[0] == '[' then LeftBracket
               else Key, 0)
    case End => Move([END_TOKEN], Halted, 0)
    case GlobalWhiteSpace => Move([], Start, 1)
    case KeyWhiteSpace => Move([], if |s| > 1 && IsBlank(s[1]) then KeyWhiteSpace else Value, 1)
    case NewLine => Move([LINE_TOKEN], Start, 1)
    case LeftBracket => Move([LEFT_TOKEN], SectionName, 1)
    case RightBracket => Move([RIGHT_TOKEN], Start, 1)
    case SectionName => SectionMove(names, s)
    case Key => KeyMove(names, s)
    case Value => ValueMove(s)
  }

  /** The tokens still to come in `state`, in terms of the language. */
  function Pending(names: NameRunes, state: State, s: string): seq<Token>
    requires Ready(state, s)
  {
    match state
    case Start => Lex(names, s)
    case End => [END_TOKEN]
    case GlobalWhiteSpace => Lex(names, s[1..])
    case KeyWhiteSpace => LexValue(names, s[BlankLength(s)..])
    case NewLine => [LINE_TOKEN] + Lex(names, s[1..])
    case LeftBracket => [LEFT_TOKEN] + LexHeader(names, s[1..])
    case SectionName => LexHeader(names, s)
    case RightBracket => [RIGHT_TOKEN] + Lex(names, s[1..])
    case Key => LexPair(names, s)
    case Value => LexValue(names, s)
    case Halted => []
  }

  lemma SectionKeepsPending(names: NameRunes, s: string)
    ensures var m := SectionMove(names, s);
      LexHeader(names, s) == m.emitted + Pending(names, m.next, s[m.consumed..])
  {
    hide DecodeRune, SpanOf, Lex;
    var n := SpanOf(names, s);
    if n < |s| && s[n] == ']' {
      assert s[n..][1..] == s[n + 1..];
    }
  }

  lemma KeyKeepsPending(names: NameRunes, s: string)
    requires Ready(Key, s)
    ensures var m := KeyMove(names, s);
      LexPair(names, s) == m.emitted + Pending(names, m.next, s[m.consumed..])
  {
    hide DecodeRune, SpanOf, Lex, LexValue, BlankLength;
    var n := SpanOf(KeyRunes(names), s);
    if n < |s| && IsBlank(s[n]) {
      assert s[n..][BlankLength(s[n..])..] == s[n + BlankLength(s[n..])..];
    }
  }

  lemma BlankKeepsPending(names: NameRunes, s: string)
    requires Ready(KeyWhiteSpace, s)
    ensures LexValue(names, s[BlankLength(s)..])
         == if |s| > 1 && IsBlank(s[1]) then LexValue(names, s[1..][BlankLength(s[1..])..]) else LexValue(names, s[1..])
  {
    assert s[1..][BlankLength(s[1..])..] == s[BlankLength(s)..];
  }

  lemma ValueKeepsPending(names: NameRunes, s: string)
    ensures var m := ValueMove(s);
      LexValue(names, s) == m.emitted + Pending(names, m.next, s[m.consumed..])
  {
    hide Lex;
  }

  /** Every move of the machine emits a piece of what is pending and leaves the rest pending. */
  lemma AdvanceKeepsPending(names: NameRunes, state: State, s: string)
    requires Ready(state, s) && state != Halted
    ensures var m := Advance(names, state, s);
      Pending(names, state, s) == m.emitted + Pending(names, m.next, s[m.consumed..])
  {
    hide DecodeRune, SpanOf, LexHeader, LexPair, LexValue, BlankLength;
    match state
    case KeyWhiteSpace => BlankKeepsPending(names, s);
    case SectionName => SectionKeepsPending(names, s);
    case Key => KeyKeepsPending(names, s);
    case Value => ValueKeepsPending(names, s);
    case Start =>
      assert s[0..] == s;
    case _ =>
  }

  lemma Suffix(s: string, from: nat, to: nat)
    requires from <= to <= |s|
    ensures s[from..][..to - from] == s[from..to] && s[from..][to - from..] == s[to..]
  {
  }

  lemma NothingPending(names: NameRunes, s: string)
    ensures Ready(Halted, s) && Pending(names, Halted, s) == []
  {
  }

  lemma AdvanceAt(names: NameRunes, state: State, input: string, pos: nat)
    requires pos <= |input| && Ready(state, input[pos..]) && state != Halted
    ensures var m := Advance(names, state, input[pos..]);
      && pos + m.consumed <= |input| && Ready(m.next, input[pos + m.consumed..])
      && Pending(names, state, input[pos..]) == m.emitted + Pending(names, m.next, input[pos + m.consumed..])
  {
    hide Advance, Pending, Ready;
    var m := Advance(names, state, input[pos..]);
    AdvanceKeepsPending(names, state, input[pos..]);
    Suffix(input, pos, pos + m.consumed);
  }

  /** Everything from `from` to `at` belongs to the span that begins at `from`. */
  ghost predicate SpanReaches(runes: set<int>, s: string, from: nat, at: nat) {
    from <= at <= |s| && SpanOf(runes, s[from..]) == (at - from) + SpanOf(runes, s[at..])
  }

  lemma SpanStep(runes: set<int>, s: string, from: nat, at: nat)
    requires SpanReaches(runes, s, from, at) && at < |s| && DecodeRune(s[at..]).rune in runes
    ensures SpanReaches(runes, s, from, at + DecodeRune(s[at..]).width)
  {
    hide DecodeRune;
    var w := DecodeRune(s[at..]).width;
    assert s[at..][w..] == s[at + w..];
  }

  lemma SectionStops(names: NameRunes, s: string, from: nat, at: nat)
    requires SpanReaches(names, s, from, at)
    requires at == |s| || DecodeRune(s[at..]).rune !in names
    ensures SectionMove(names, s[from..]) ==
      if at == |s| then Move([UNEXPECTED_END], Halted, at - from)
      else if s[at] == ']' then Move([Token(TokenSection, s[from..at])], RightBracket, at - from)
      else Move([MISSING_BRACKET], Halted, at - from)
  {
    Suffix(s, from, at);
  }

  lemma KeyStops(names: NameRunes, s: string, from: nat, at: nat)
    requires from <= |s| && Ready(Key, s[from..]) && SpanReaches(KeyRunes(names), s, from, at)
    requires at == |s| || DecodeRune(s[at..]).rune !in KeyRunes(names)
    ensures KeyMove(names, s[from..]) ==
      if at == |s| then Move([UNEXPECTED_END], Halted, at - from)
      else if IsBlank(s[at]) then Move([Token(TokenKey, s[from..at])], KeyWhiteSpace, at - from)
      else Move([INVALID_KEY], Halted, at - from)
  {
    Suffix(s, from, at);
  }

  /** A whole rune other than the newline holds no newline byte. */
  lemma {:induction false} LineSkips(s: string, w: nat)
    requires w <= |s| && forall i | 0 <= i < w :: s[i] != '\n'
    ensures LineLength(s) == w + LineLength(s[w..])
  {
    if w == 0 {
      assert s[0..] == s;
    } else {
      LineSkips(s[1..], w - 1);
      assert s[1..][w - 1..] == s[w..];
    }
  }

  /** No line ends between `from` and `at`. */
  ghost predicate LineReaches(s: string, from: nat, at: nat) {
    from <= at <= |s| && LineLength(s[from..]) == (at - from) + LineLength(s[at..])
  }

  lemma LineStep(s: string, from: nat, at: nat)
    requires LineReaches(s, from, at) && at < |s| && DecodeRune(s[at..]).rune != '\n' as int
    ensures LineReaches(s, from, at + DecodeRune(s[at..]).width)
  {
    hide DecodeRune, LineLength;
    var w := DecodeRune(s[at..]).width;
    AsciiDecodesToItself(s[at..]);
    LineSkips(s[at..], w);
    assert s[at..][w..] == s[at + w..];
  }

  lemma ValueStops(s: string, from: nat, at: nat)
    requires LineReaches(s, from, at) && (at == |s| || s[at] == '\n')
    ensures ValueMove(s[from..]) ==
      if at == |s| then Move([UNEXPECTED_END], Halted, at - from)
      else Move([Token(TokenValue, s[from..at])], Start, at - from)
  {
    Suffix(s, from, at);
  }

  class Lexer {
    const names: NameRunes
    const input: string
    var tokens: seq<Token>
    var state: State
    var start: nat
    var pos: nat

    constructor (names: NameRunes, input: string)
      ensures this.names == names && this.input == input
      ensures tokens == [] && state == Start && Entering(Start) && pos == 0
    {
      this.names := names;
      this.input := input;
      tokens, state, start, pos := [], Start, 0, 0;
    }

    ghost predicate Entering(state: State)
      reads this
    {
      start == pos <= |input| && Ready(state, input[pos..])
    }

    /** The cursor and the tokens after `m`, made from `pos0` with `tokens0` already emitted. */
    ghost predicate Moved(m: Move, tokens0: seq<Token>, pos0: nat)
      reads this
    {
      && tokens == tokens0 + m.emitted
      && pos == pos0 + m.consumed
      && start == if m.emitted != [] && m.emitted[0].kind == TokenError then pos0 else pos
    }

    method Run()
      requires Entering(state)
      modifies this
      ensures tokens == old(tokens) + old(Pending(names, state, input[pos..]))
      ensures state == Halted && start <= pos <= |input|
    {
      hide Advance, Ready, Pending, Rank;
      while state != Halted
        invariant start <= pos <= |input| && Ready(state, input[pos..])
        invariant state != Halted ==> Entering(state)
        invariant tokens + Pending(names, state, input[pos..]) == old(tokens) + old(Pending(names, state, input[pos..]))
        decreases |input| - pos, Rank(state)
      {
        AdvanceAt(names, state, input, pos);
        state := CallState();
      }
      NothingPending(names, input[pos..]);
    }

    /** The call through the state function pointer. */
    method CallState() returns (next: State)
      requires Entering(state) && state != Halted
      modifies this`tokens, this`start, this`pos
      ensures var m := Advance(names, state, input[old(pos)..]); next == m.next && Moved(m, old(tokens), old(pos))
    {
      match state {
        case Start => next := LexStart();
        case End => next := LexEOF();
        case GlobalWhiteSpace => next := LexGlobalWhiteSpace();
        case KeyWhiteSpace => next := LexKeyWhiteSpace();
        case NewLine => next := LexNewLine();
        case LeftBracket => next := LexLeftBracket();
        case SectionName => next := LexSection();
        case RightBracket => next := LexRightBracket();
        case Key => next := LexKey();
        case Value => next := LexValue();
      }
    }

    method Emit(kind: TokenType)
      requires start <= pos <= |input|
      modifies this`tokens, this`start
      ensures tokens == old(tokens) + [Token(kind, input[old(start)..pos])] && start == pos
    {
      tokens := tokens + [Token(kind, input[start..pos])];
      start := pos;
    }

    method Errorf(message: string) returns (next: State)
      modifies this`tokens
      ensures tokens == old(tokens) + [Token(TokenError, message)] && next == Halted
    {
      tokens := tokens + [Token(TokenError, message)];
      next := Halted;
    }

    method Next() returns (rune: int)
      requires pos <= |input|
      modifies this`pos
      ensures rune == DecodeRune(input[old(pos)..]).rune && pos == old(pos) + DecodeRune(input[old(pos)..]).width
      ensures old(pos) <= pos <= |input| && (old(pos) < |input| ==> old(pos) < pos)
    {
      var d := DecodeRune(input[pos..]);
      rune := d.rune;
      pos := pos + d.width;
    }

    method PeekNext() returns (rune: int)
      requires pos <= |input|
      ensures rune == DecodeRune(input[pos..]).rune
    {
      rune := DecodeRune(input[pos..]).rune;
    }

    predicate AtEnd()
      reads this
    {
      pos >= |input|
    }

    method LexStart() returns (next: State)
      requires Entering(Start)
      ensures var m := Advance(names, Start, input[pos..]); next == m.next && Moved(m, tokens, pos)
    {
      hide DecodeRune;
      if AtEnd() {
        return End;
      }
      var rune := PeekNext();
      AsciiDecodesToItself(input[pos..]);
      if rune == '\t' as int || rune == ' ' as int {
        next := GlobalWhiteSpace;
      } else if rune == '\n' as int {
        next := NewLine;
      } else if rune == '[' as int {
        next := LeftBracket;
      } else {
        next := Key;
      }
    }

    method LexEOF() returns (next: State)
      requires Entering(End)
      modifies this`tokens, this`start, this`pos
      ensures var m := Advance(names, End, input[old(pos)..]); next == m.next && Moved(m, old(tokens), old(pos))
    {
      assert input[start..pos] == "";
      Emit(TokenEOF);
      next := Halted;
    }

    method LexGlobalWhiteSpace() returns (next: State)
      requires Entering(GlobalWhiteSpace)
      modifies this`tokens, this`start, this`pos
      ensures var m := Advance(names, GlobalWhiteSpace, input[old(pos)..]); next == m.next && Moved(m, old(tokens), old(pos))
    {
      AsciiDecodesToItself(input[pos..]);
      var _ := Next();
      start := pos;
      next := Start;
    }

    method LexKeyWhiteSpace() returns (next: State)
      requires Entering(KeyWhiteSpace)
      modifies this`tokens, this`start, this`pos
      ensures var m := Advance(names, KeyWhiteSpace, input[old(pos)..]); next == m.next && Moved(m, old(tokens), old(pos))
    {
      hide DecodeRune;
      AsciiDecodesToItself(input[pos..]);
      var _ := Next();
      start := pos;
      var rune := PeekNext();
      if !AtEnd() {
        AsciiDecodesToItself(input[pos..]);
      }
      if rune == '\t' as int || rune == ' ' as int {
        next := KeyWhiteSpace;
      } else {
        next := Value;
      }
    }

    method LexNewLine() returns (next: State)
      requires Entering(NewLine)
      modifies this`tokens, this`start, this`pos
      ensures var m := Advance(names, NewLine, input[old(pos)..]); next == m.next && Moved(m, old(tokens), old(pos))
    {
      pos := pos + 1;
      assert input[start..pos] == "\n";
      Emit(TokenNewLine);
      next := Start;
    }

    method LexLeftBracket() returns (next: State)
      requires Entering(LeftBracket)
      modifies this`tokens, this`start, this`pos
      ensures var m := Advance(names, LeftBracket, input[old(pos)..]); next == m.next && Moved(m, old(tokens), old(pos))
    {
      pos := pos + 1;
      assert input[start..pos] == "[";
      Emit(TokenLeftBracket);
      next := SectionName;
    }

    method LexSection() returns (next: State)
      requires Entering(SectionName)
      modifies this`tokens, this`start, this`pos
      ensures var m := SectionMove(names, input[old(pos)..]); next == m.next && Moved(m, old(tokens), old(pos))
    {
      hide DecodeRune, SpanOf, SectionMove;
      while true
        invariant start == old(start) && tokens == old(tokens)
        invariant SpanReaches(names, input, start, pos)
        decreases |input| - pos
      {
        if AtEnd() {
          SectionStops(names, input, start, pos);
          next := Errorf("unexpected EOF");
          return;
        }
        var rune := PeekNext();
        AsciiDecodesToItself(input[pos..]);
        if rune !in names {
          SectionStops(names, input, start, pos);
          if rune == ']' as int {
            Emit(TokenSection);
            return RightBracket;
          }
          next := Errorf("missing right bracket");
          return;
        }
        SpanStep(names, input, start, pos);
        var _ := Next();
      }
    }

    method LexRightBracket() returns (next: State)
      requires Entering(RightBracket)
      modifies this`tokens, this`start, this`pos
      ensures var m := Advance(names, RightBracket, input[old(pos)..]); next == m.next && Moved(m, old(tokens), old(pos))
    {
      pos := pos + 1;
      assert input[start..pos] == "]";
      Emit(TokenRightBracket);
      next := Start;
    }

    method LexKey() returns (next: State)
      requires Entering(Key)
      modifies this`tokens, this`start, this`pos
      ensures var m := KeyMove(names, input[old(pos)..]); next == m.next && Moved(m, old(tokens), old(pos))
    {
      hide DecodeRune, SpanOf, KeyMove;
      while true
        invariant start == old(start) && tokens == old(tokens)
        invariant SpanReaches(KeyRunes(names), input, start, pos)
        decreases |input| - pos
      {
        if AtEnd() {
          KeyStops(names, input, start, pos);
          next := Errorf("unexpected EOF");
          return;
        }
        var rune := PeekNext();
        AsciiDecodesToItself(input[pos..]);
        if rune !in names && rune != '.' as int {
          KeyStops(names, input, start, pos);
          if rune == '\t' as int || rune == ' ' as int {
            Emit(TokenKey);
            return KeyWhiteSpace;
          }
          next := Errorf("invalid key");
          return;
        }
        SpanStep(KeyRunes(names), input, start, pos);
        var _ := Next();
      }
    }

    method LexValue() returns (next: State)
      requires Entering(Value)
      modifies this`tokens, this`start, this`pos
      ensures var m := ValueMove(input[old(pos)..]); next == m.next && Moved(m, old(tokens), old(pos))
    {
      hide DecodeRune, LineLength, ValueMove;
      while true
        invariant start == old(start) && tokens == old(tokens)
        invariant LineReaches(input, start, pos)
        decreases |input| - pos
      {
        if AtEnd() {
          ValueStops(input, start, pos);
          next := Errorf("unexpected EOF");
          return;
        }
        var rune := PeekNext();
        AsciiDecodesToItself(input[pos..]);
        if rune == '\n' as int {
          ValueStops(input, start, pos);
          Emit(TokenValue);
          return Start;
        }
        LineStep(input, start, pos);
        var _ := Next();
      }
    }
  }
}
