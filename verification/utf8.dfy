/**
 The UTF-8 decoder the lexer reads its input through. A Go string is a sequence of
 bytes; here it is a `string` with one character per byte. Characters above 255 stand
 for no byte: the decoder treats them like the bytes that can start no sequence.
 */
module Utf8 {

  const RUNE_ERROR := 0xFFFD

  datatype Decoded = Decoded(rune: int, width: nat)

  predicate Between(c: char, low: int, high: int) {
    low <= c as int <= high
  }

  predicate IsAscii(c: char) {
    c as int < 0x80
  }

  predicate IsContinuation(c: char) {
    Between(c, 0x80, 0xBF)
  }

  /** The bytes allowed after the first one (section 4 of RFC 3629): overlong forms and surrogates are excluded. */
  predicate IsSecond(first: char, c: char) {
    if first as int == 0xE0 then Between(c, 0xA0, 0xBF)
    else if first as int == 0xED then Between(c, 0x80, 0x9F)
    else if first as int == 0xF0 then Between(c, 0x90, 0xBF)
    else if first as int == 0xF4 then Between(c, 0x80, 0x8F)
    else IsContinuation(c)
  }

  /** Decodes the first rune of `s`: width 0 at the end of input, width 1 for an invalid byte. */
  function DecodeRune(s: string): (d: Decoded)
    ensures s == [] ==> d == Decoded(RUNE_ERROR, 0)
    ensures s != [] ==> 1 <= d.width <= |s|
  {
    if s == [] then Decoded(RUNE_ERROR, 0)
    else
      var b0 := s[0] as int;
      if b0 < 0x80 then
        Decoded(b0, 1)
      else if Between(s[0], 0xC2, 0xDF) && |s| >= 2 && IsSecond(s[0], s[1]) then
        Decoded((b0 - 0xC0) * 64 + (s[1] as int - 0x80), 2)
      else if Between(s[0], 0xE0, 0xEF) && |s| >= 3 && IsSecond(s[0], s[1]) && IsContinuation(s[2]) then
        Decoded((b0 - 0xE0) * 4096 + (s[1] as int - 0x80) * 64 + (s[2] as int - 0x80), 3)
      else if Between(s[0], 0xF0, 0xF4) && |s| >= 4 && IsSecond(s[0], s[1]) && IsContinuation(s[2]) && IsContinuation(s[3]) then
        Decoded((b0 - 0xF0) * 262144 + (s[1] as int - 0x80) * 4096 + (s[2] as int - 0x80) * 64 + (s[3] as int - 0x80), 4)
      else
        Decoded(RUNE_ERROR, 1)
  }

  /** An ASCII byte is its own rune, and no byte of any other rune is ASCII. */
  lemma AsciiDecodesToItself(s: string)
    requires s != []
    ensures IsAscii(s[0]) ==> DecodeRune(s) == Decoded(s[0] as int, 1)
    ensures !IsAscii(s[0]) ==> DecodeRune(s).rune >= 0x80 && forall i | 0 <= i < DecodeRune(s).width :: !IsAscii(s[i])
  {
  }

  /** A rune that decodes validly is read from its own bytes alone: neither more nor less input behind it matters. */
  lemma DecodeIsLocal(s: string, t: string)
    requires DecodeRune(s).rune != RUNE_ERROR && DecodeRune(s).width <= |t|
    requires s[..DecodeRune(s).width] == t[..DecodeRune(s).width]
    ensures DecodeRune(t) == DecodeRune(s)
  {
    var w := DecodeRune(s).width;
    forall i | 0 <= i < w ensures s[i] == t[i] {
      assert s[..w][i] == t[..w][i];
    }
  }

  /** A code point that is not a surrogate. */
  predicate IsScalar(r: int) {
    0 <= r <= 0x10FFFF && !(0xD800 <= r <= 0xDFFF)
  }

  /** The encoding table in section 3 of RFC 3629. */
  function EncodeRune(r: int): string
    requires IsScalar(r)
  {
    if r < 0x80 then [r as char]
    else if r < 0x800 then [(0xC0 + r / 64) as char, (0x80 + r % 64) as char]
    else if r < 0x10000 then [(0xE0 + r / 4096) as char, (0x80 + r / 64 % 64) as char, (0x80 + r % 64) as char]
    else [(0xF0 + r / 262144) as char, (0x80 + r / 4096 % 64) as char, (0x80 + r / 64 % 64) as char, (0x80 + r % 64) as char]
  }

  lemma LastSextet(a: nat, b: nat)
    requires b < 64
    ensures (a * 64 + b) / 64 == a && (a * 64 + b) % 64 == b
  {
  }

  /** The sextets of a code point, and the code point they make up. */
  lemma Sextets(a: nat, b: nat, c: nat, d: nat, r: nat)
    requires b < 64 && c < 64 && d < 64
    requires r == a * 262144 + b * 4096 + c * 64 + d
    ensures r % 64 == d && r / 64 % 64 == c && r / 4096 % 64 == b && r / 262144 == a
  {
    LastSextet(a * 4096 + b * 64 + c, d);
    LastSextet(a * 64 + b, c);
    LastSextet(a, b);
    assert r / 64 / 64 == r / 4096 && r / 4096 / 64 == r / 262144;
  }

  lemma ShortRuneDecodes(r: int, rest: string)
    requires IsScalar(r) && r < 0x800
    ensures DecodeRune(EncodeRune(r) + rest) == Decoded(r, |EncodeRune(r)|)
  {
  }

  lemma LongRuneDecodes(r: int, rest: string)
    requires IsScalar(r) && 0x800 <= r < 0x10000
    ensures DecodeRune(EncodeRune(r) + rest) == Decoded(r, 3)
  {
    assert r / 64 / 64 == r / 4096;
  }

  lemma LongestRuneDecodes(r: int, rest: string)
    requires IsScalar(r) && 0x10000 <= r
    ensures DecodeRune(EncodeRune(r) + rest) == Decoded(r, 4)
  {
    assert r / 64 / 64 == r / 4096 && r / 4096 / 64 == r / 262144;
  }

  /** Decoding inverts encoding, whatever follows. */
  lemma DecodeInvertsEncode(r: int, rest: string)
    requires IsScalar(r)
    ensures DecodeRune(EncodeRune(r) + rest) == Decoded(r, |EncodeRune(r)|)
  {
    if r < 0x800 {
      ShortRuneDecodes(r, rest);
    } else if r < 0x10000 {
      LongRuneDecodes(r, rest);
    } else {
      LongestRuneDecodes(r, rest);
    }
    hide DecodeRune;
  }

  /** What decodes to something else than an error is the encoding of what it decodes to: nothing else is accepted. */
  lemma DecodedIsEncoded(s: string)
    requires s != [] && DecodeRune(s) != Decoded(RUNE_ERROR, 1)
    ensures var d := DecodeRune(s); IsScalar(d.rune) && s[..d.width] == EncodeRune(d.rune)
  {
    var r, w := DecodeRune(s).rune, DecodeRune(s).width;
    if w == 2 {
      Sextets(0, 0, s[0] as int - 0xC0, s[1] as int - 0x80, r);
      assert r / 64 % 64 == r / 64;
    } else if w == 3 {
      Sextets(0, s[0] as int - 0xE0, s[1] as int - 0x80, s[2] as int - 0x80, r);
      assert r / 4096 % 64 == r / 4096;
    } else if w == 4 {
      Sextets(s[0] as int - 0xF0, s[1] as int - 0x80, s[2] as int - 0x80, s[3] as int - 0x80, r);
    }
    SameBytes(s, r, w);
  }

  lemma SameBytes(s: string, r: int, w: nat)
    requires IsScalar(r) && w == |EncodeRune(r)| <= |s|
    requires forall i | 0 <= i < w :: s[i] as int == EncodeRune(r)[i] as int
    ensures s[..w] == EncodeRune(r)
  {
  }
}
