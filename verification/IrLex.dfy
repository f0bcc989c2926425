/** Lexing the textual IR: text spelled as the printer spells it, with whitespace
    wherever two words would run together, lexes back to the tokens. */
module IrLex {
  import opened IrTokens

  const QUOTE: char := 34 as char
  const BACKSLASH: char := 92 as char
  const SLASH: char := 47 as char

  // --- characters ---------------------------------------------------------------------------

  predicate IsDigit(c: char) {
    '0' <= c <= '9'
  }

  predicate IdentStart(c: char) {
    'a' <= c <= 'z' || 'A' <= c <= 'Z' || c == '_'
  }

  predicate IdentChar(c: char) {
    IdentStart(c) || IsDigit(c) || c == '.' || c == '$' || c == '!'
  }

  predicate IsHexDigit(c: char) {
    IsDigit(c) || 'a' <= c <= 'f' || 'A' <= c <= 'F'
  }

  function HexVal(c: char): nat
    requires IsHexDigit(c)
  {
    if IsDigit(c) then c as nat - '0' as nat
    else if 'a' <= c <= 'f' then c as nat - 'a' as nat + 10
    else c as nat - 'A' as nat + 10
  }

  predicate IsSpace(c: char) {
    c == ' ' || c == '\t' || c == '\n' || c == '\r'
  }

  // --- the lexer ------------------------------------------------------------------------------

  function Peek(s: string, i: nat): char {
    if i < |s| then s[i] else '\0'
  }

  // Past whitespace and comments.
  function Skip(s: string): string
    decreases |s|, 0
  {
    if s == "" then s
    else if IsSpace(s[0]) then Skip(s[1..])
    else if s[0] == SLASH && Peek(s, 1) == SLASH then SkipLine(s[2..])
    else s
  }

  function SkipLine(s: string): string
    decreases |s|, 1
  {
    if s == "" || s[0] == '\n' then Skip(s) else SkipLine(s[1..])
  }

  function IdentLength(s: string): (n: nat)
    ensures n <= |s| && (forall i | 0 <= i < n :: IdentChar(s[i])) && (n < |s| ==> !IdentChar(s[n]))
  {
    if s == "" || !IdentChar(s[0]) then 0 else 1 + IdentLength(s[1..])
  }

  function DigitsLength(s: string): (n: nat)
    ensures n <= |s| && (forall i | 0 <= i < n :: IsDigit(s[i])) && (n < |s| ==> !IsDigit(s[n]))
  {
    if s == "" || !IsDigit(s[0]) then 0 else 1 + DigitsLength(s[1..])
  }

  function HexLength(s: string): (n: nat)
    ensures n <= |s| && (forall i | 0 <= i < n :: IsHexDigit(s[i])) && (n < |s| ==> !IsHexDigit(s[n]))
  {
    if s == "" || !IsHexDigit(s[0]) then 0 else 1 + HexLength(s[1..])
  }

  function HexNumber(s: string): nat
    requires forall i | 0 <= i < |s| :: IsHexDigit(s[i])
  {
    if s == "" then 0 else HexNumber(s[..|s| - 1]) * 16 + HexVal(s[|s| - 1])
  }

  datatype Lexed<T> = Bad | Lexed(value: T, rest: string)

  // The bytes of a quoted string, from after the opening quote.
  function LexString(s: string): Lexed<seq<nat>>
    decreases |s|
  {
    if s == "" then Bad
    else if s[0] == QUOTE then Lexed([], s[1..])
    else if s[0] == BACKSLASH && Peek(s, 1) == 'x' then
      if |s| < 4 || !IsHexDigit(s[2]) || !IsHexDigit(s[3]) then Bad else Then(HexVal(s[2]) * 16 + HexVal(s[3]), LexString(s[4..]))
    else if s[0] == BACKSLASH && Peek(s, 1) == 'n' then Then(10, LexString(s[2..]))
    else if s[0] == BACKSLASH && Peek(s, 1) == 't' then Then(9, LexString(s[2..]))
    else if s[0] == BACKSLASH && (Peek(s, 1) == QUOTE || Peek(s, 1) == BACKSLASH) then Then(Peek(s, 1) as nat, LexString(s[2..]))
    else if s[0] == '\n' then Bad
    else Then(s[0] as nat, LexString(s[1..]))
  }

  function Then(b: nat, more: Lexed<seq<nat>>): Lexed<seq<nat>> {
    match more
    case Bad => Bad
    case Lexed(bs, rest) => Lexed([b] + bs, rest)
  }

  // Negating the most negative number wraps to itself.
  function LexInteger(s: string): Lexed<Tok> {
    var signed := s != "" && (s[0] == '-' || s[0] == '+');
    var digits := if signed then s[1..] else s;
    var n := DigitsLength(digits);
    var v := NumberOf(digits[..n]);
    if n == 0 || v < 0 || v >= U64 then Bad
    else Lexed(IntTok(if signed && s[0] == '-' then Bits(-(v as int)) else v), digits[n..])
  }

  function LexHex(s: string): Lexed<Tok>
    requires |s| >= 2
  {
    var n := HexLength(s[2..]);
    if n == 0 || n > 16 then Bad else Lexed(HexTok(HexNumber(s[2..2 + n]), n), s[2 + n..])
  }

  function LexName(s: string): Lexed<Tok>
    requires s != ""
  {
    var exact := s[0] == '@' && Peek(s, 1) == '!';
    var at := if exact then s[2..] else s[1..];
    var n := IdentLength(at);
    if n == 0 then Bad
    else Lexed(if s[0] == '%' then Pident(at[..n]) else Symbol(exact, at[..n]), at[n..])
  }

  function Punctuation(c: char): Tok {
    match c as nat
    case 40 => LP
    case 41 => RP
    case 123 => LB
    case 125 => RB
    case 44 => Comma
    case 58 => Colon
    case 61 => Eq
    case _ => Eof
  }

  function LexOne(s: string): Lexed<Tok>
    requires s != ""
  {
    if IdentStart(s[0]) then Lexed(Ident(s[..IdentLength(s)]), s[IdentLength(s)..])
    else if s[0] == QUOTE then
      match LexString(s[1..])
      case Bad => Bad
      case Lexed(bytes, rest) => Lexed(Str(bytes), rest)
    else if s[0] == '%' || s[0] == '@' then LexName(s)
    else if s[0] == '0' && Peek(s, 1) == 'x' then LexHex(s)
    else if IsDigit(s[0]) || ((s[0] == '-' || s[0] == '+') && IsDigit(Peek(s, 1))) then LexInteger(s)
    else if s[0] == '.' && Peek(s, 1) == '.' && Peek(s, 2) == '.' then Lexed(Ellipsis, s[3..])
    else if Punctuation(s[0]).Eof? then Bad
    else Lexed(Punctuation(s[0]), s[1..])
  }

  datatype Tokens = BadText | Tokens(toks: seq<Tok>)

  function LexAll(s: string): Tokens
    decreases |s|
  {
    var at := Skip(s);
    if at == "" then Tokens([Eof])
    else
      match LexOne(at)
      case Bad => BadText
      case Lexed(t, rest) =>
        if |rest| >= |s| then BadText
        else
          match LexAll(rest)
          case BadText => BadText
          case Tokens(ts) => Tokens([t] + ts)
  }

  // --- spelling ------------------------------------------------------------------------------------

  predicate AllIdent(s: string) {
    s != "" && forall i | 0 <= i < |s| :: IdentChar(s[i])
  }

  function HexChar(d: nat, upper: bool): char
    requires d < 16
  {
    if d < 10 then '0' + d as char else if upper then 'A' + (d - 10) as char else 'a' + (d - 10) as char
  }

  // v in so many hexadecimal digits.
  function HexDigits(v: nat, width: nat, upper: bool): string {
    if width == 0 then "" else HexDigits(v / 16, width - 1, upper) + [HexChar(v % 16, upper)]
  }

  function QuotedByte(b: nat): string {
    if b == 34 then [BACKSLASH, QUOTE]
    else if b == 92 then [BACKSLASH, BACKSLASH]
    else if b == 10 then [BACKSLASH, 'n']
    else if b == 9 then [BACKSLASH, 't']
    else if b < 0x20 || b >= 0x7f then [BACKSLASH, 'x'] + HexDigits(b, 2, false)
    else [b as char]
  }

  predicate AllBytes(bs: seq<nat>) {
    forall i | 0 <= i < |bs| :: bs[i] < 256
  }

  function Quoted(bs: seq<nat>): string {
    if bs == [] then [QUOTE] else QuotedByte(bs[0]) + Quoted(bs[1..])
  }

  function PunctuationText(t: Tok): string {
    match t
    case LP => "("
    case RP => ")"
    case LB => "{"
    case RB => "}"
    case Comma => ","
    case Colon => ":"
    case Eq => "="
    case Ellipsis => "..."
    case _ => ""
  }

  // The spellings the printer uses: an integer plain, negative or with a plus; a
  // hexadecimal constant in a fixed number of digits that holds it.
  predicate Spells(word: string, t: Tok) {
    match t
    case Ident(text) => word == text && AllIdent(text) && IdentStart(text[0])
    case Pident(text) => word == "%" + text && AllIdent(text)
    case Symbol(exact, text) => AllIdent(text) && if exact then word == "@!" + text else word == "@" + text && text[0] != '!'
    case IntTok(v) =>
      v < U64 && (word == Decimal(v) || word == "+" + Decimal(v) || (v > 0 && word == "-" + Decimal(U64 - v)))
    case HexTok(v, digits) => HexSpelling(word, v, digits)
    case Str(bs) => AllBytes(bs) && word == [QUOTE] + Quoted(bs)
    case Eof => false
    case _ => word == PunctuationText(t)
  }

  predicate HexSpelling(word: string, v: nat, width: nat) {
    0 < width <= 16 && v < Power16(width) && word == "0x" + HexDigits(v, width, true)
  }

  function Power16(n: nat): nat {
    if n == 0 then 1 else 16 * Power16(n - 1)
  }

  // Nothing may touch a word that would continue it.
  predicate MayTouch(t: Tok, next: char) {
    t.Ident? || t.Pident? || t.Symbol? || t.IntTok? || t.HexTok? ==> !IdentChar(next)
  }

  datatype Piece = Piece(gap: string, word: string, tok: Tok)

  function Render(ps: seq<Piece>, tail: string): string {
    if ps == [] then tail else ps[0].gap + (ps[0].word + Render(ps[1..], tail))
  }

  predicate AllSpace(s: string) {
    forall i | 0 <= i < |s| :: IsSpace(s[i])
  }

  predicate WellSpaced(ps: seq<Piece>, tail: string) {
    && AllSpace(tail)
    && forall i | 0 <= i < |ps| ::
         && AllSpace(ps[i].gap) && Spells(ps[i].word, ps[i].tok)
         && (Render(ps[i + 1..], tail) != "" ==> MayTouch(ps[i].tok, Render(ps[i + 1..], tail)[0]))
  }

  function TokensOf(ps: seq<Piece>): (r: seq<Tok>)
    ensures |r| == |ps|
  {
    seq(|ps|, i requires 0 <= i < |ps| => ps[i].tok)
  }

  // --- one token at a time -----------------------------------------------------------------------------

  predicate Ends(rest: string) {
    rest == "" || !IdentChar(rest[0])
  }

  lemma {:induction false} IdentLengthIs(word: string, rest: string)
    requires (forall i | 0 <= i < |word| :: IdentChar(word[i])) && Ends(rest)
    ensures IdentLength(word + rest) == |word|
  {
    if word != "" {
      IdentLengthIs(word[1..], rest);
      assert (word + rest)[1..] == word[1..] + rest;
    } else {
      assert word + rest == rest;
    }
  }

  lemma {:induction false} DigitsLengthIs(word: string, rest: string)
    requires (forall i | 0 <= i < |word| :: IsDigit(word[i])) && Ends(rest)
    ensures DigitsLength(word + rest) == |word|
  {
    if word != "" {
      DigitsLengthIs(word[1..], rest);
      assert (word + rest)[1..] == word[1..] + rest;
    } else {
      assert word + rest == rest;
    }
  }

  lemma {:induction false} HexLengthIs(word: string, rest: string)
    requires (forall i | 0 <= i < |word| :: IsHexDigit(word[i])) && Ends(rest)
    ensures HexLength(word + rest) == |word|
  {
    if word != "" {
      HexLengthIs(word[1..], rest);
      assert (word + rest)[1..] == word[1..] + rest;
    } else {
      assert word + rest == rest;
    }
  }

  lemma {:induction false} HexDigitsBack(v: nat, width: nat, upper: bool)
    requires v < Power16(width)
    ensures var s := HexDigits(v, width, upper);
            |s| == width && (forall i | 0 <= i < |s| :: IsHexDigit(s[i])) && HexNumber(s) == v
  {
    if width > 0 {
      HexDigitsBack(v / 16, width - 1, upper);
      var s := HexDigits(v, width, upper);
      assert s[..|s| - 1] == HexDigits(v / 16, width - 1, upper);
    }
  }

  lemma NameBack(word: string, t: Tok, rest: string)
    requires Spells(word, t) && (t.Ident? || t.Pident? || t.Symbol?) && Ends(rest)
    ensures word != "" && LexOne(word + rest) == Lexed(t, rest)
  {
    hide LexOne;
    if t.Ident? {
      WordBack(t.text, rest);
    } else if t.Pident? {
      SigilBack("%", t, rest);
    } else if t.exact {
      SigilBack("@!", t, rest);
    } else {
      SigilBack("@", t, rest);
    }
  }

  lemma WordBack(text: string, rest: string)
    requires AllIdent(text) && IdentStart(text[0]) && Ends(rest)
    ensures LexOne(text + rest) == Lexed(Ident(text), rest)
  {
    hide IdentLength;
    IdentLengthIs(text, rest);
    var s := text + rest;
    assert s[0] == text[0] && s[..|text|] == text && s[|text|..] == rest;
  }

  lemma SigilBack(sigil: string, t: Tok, rest: string)
    requires (t.Pident? && sigil == "%") || (t.Symbol? && sigil == if t.exact then "@!" else "@")
    requires AllIdent(t.text) && Ends(rest) && (t.Symbol? && !t.exact ==> t.text[0] != '!')
    ensures LexOne(sigil + t.text + rest) == Lexed(t, rest)
  {
    hide IdentLength;
    IdentLengthIs(t.text, rest);
    var s, after := sigil + t.text + rest, t.text + rest;
    assert after[..|t.text|] == t.text && after[|t.text|..] == rest;
    assert s[|sigil|..] == after && s[0] == sigil[0];
    assert Peek(s, 1) == if |sigil| == 2 then '!' else t.text[0];
    assert LexOne(s) == LexName(s);
  }

  lemma IntegerBack(word: string, t: Tok, rest: string)
    requires Spells(word, t) && t.IntTok? && Ends(rest)
    ensures word != "" && LexOne(word + rest) == Lexed(t, rest)
  {
    hide Decimal, LexOne;
    if word == Decimal(t.value) {
      PlainBack(t.value, rest);
    } else if word == "+" + Decimal(t.value) {
      SignedBack('+', t.value, rest);
    } else {
      NegatedBits(t.value);
      SignedBack('-', U64 - t.value, rest);
    }
  }

  lemma NegatedBits(v: nat)
    requires 0 < v < U64
    ensures Bits(-(U64 - v)) == v
  {
  }

  lemma PlainBack(v: nat, rest: string)
    requires v < U64 && Ends(rest)
    ensures LexOne(Decimal(v) + rest) == Lexed(IntTok(v), rest)
  {
    hide Decimal, NumberOf, DigitsLength;
    var word, s := Decimal(v), Decimal(v) + rest;
    DecimalBack(v);
    DigitsLengthIs(word, rest);
    assert s[..|word|] == word && s[|word|..] == rest && s[0] == word[0];
    NotHex(word, rest);
  }

  lemma SignedBack(sign: char, v: nat, rest: string)
    requires v < U64 && Ends(rest) && (sign == '+' || sign == '-')
    ensures LexOne([sign] + Decimal(v) + rest) == Lexed(IntTok(if sign == '-' then Bits(-(v as int)) else v), rest)
  {
    hide Decimal, NumberOf, DigitsLength;
    var digits := Decimal(v);
    var s, after := [sign] + digits + rest, digits + rest;
    DecimalBack(v);
    DigitsLengthIs(digits, rest);
    assert s[1..] == after && Peek(s, 1) == digits[0];
    assert after[..|digits|] == digits && after[|digits|..] == rest;
  }

  // A decimal number is not taken for a hexadecimal one.
  lemma NotHex(word: string, rest: string)
    requires word != "" && (forall i | 0 <= i < |word| :: IsDigit(word[i])) && Ends(rest)
    ensures Peek(word + rest, 1) != 'x'
  {
    var s := word + rest;
    if |word| > 1 {
      assert s[1] == word[1];
    } else if |s| > 1 {
      assert s[1] == rest[0];
    }
  }

  lemma HexBack(word: string, t: Tok, rest: string)
    requires Spells(word, t) && t.HexTok? && Ends(rest)
    ensures word != "" && LexOne(word + rest) == Lexed(t, rest)
  {
    hide HexDigits, HexLength, HexNumber;
    var width := t.digits;
    var digits := HexDigits(t.value, width, true);
    HexDigitsBack(t.value, width, true);
    HexLengthIs(digits, rest);
    var s := word + rest;
    assert s[2..] == digits + rest;
    assert s[2..2 + width] == digits && s[2 + width..] == rest;
  }

  lemma ByteBack(b: nat, more: string)
    requires b < 256
    ensures LexString(QuotedByte(b) + more) == Then(b, LexString(more))
  {
    var s := QuotedByte(b) + more;
    if b == 34 || b == 92 || b == 10 || b == 9 {
      assert s[2..] == more;
    } else if b < 0x20 || b >= 0x7f {
      EscapedByte(b, more);
    } else {
      assert s[1..] == more;
    }
  }

  lemma EscapedByte(b: nat, more: string)
    requires b < 256
    ensures LexString([BACKSLASH, 'x'] + HexDigits(b, 2, false) + more) == Then(b, LexString(more))
  {
    assert Power16(2) == 256;
    HexDigitsBack(b, 2, false);
    var d := HexDigits(b, 2, false);
    var s := [BACKSLASH, 'x'] + d + more;
    assert s[2] == d[0] && s[3] == d[1] && s[4..] == more;
    assert d[..1][..0] == "" && HexNumber(d[..1]) == HexVal(d[0]);
    assert HexNumber(d) == HexVal(d[0]) * 16 + HexVal(d[1]);
  }

  lemma {:induction false} QuotedBack(bs: seq<nat>, rest: string)
    requires AllBytes(bs)
    ensures LexString(Quoted(bs) + rest) == Lexed(bs, rest)
    decreases |bs|
  {
    hide QuotedByte;
    if bs == [] {
      var s := Quoted(bs) + rest;
      assert s[0] == QUOTE && s[1..] == rest;
    } else {
      QuotedBack(bs[1..], rest);
      ByteBack(bs[0], Quoted(bs[1..]) + rest);
      assert Quoted(bs) + rest == QuotedByte(bs[0]) + (Quoted(bs[1..]) + rest);
      assert bs == [bs[0]] + bs[1..];
    }
  }

  lemma OneBack(word: string, t: Tok, rest: string)
    requires Spells(word, t) && (rest == "" || MayTouch(t, rest[0]))
    ensures word != "" && LexOne(word + rest) == Lexed(t, rest)
  {
    hide LexOne, Quoted, PunctuationText, HexSpelling, Decimal;
    if t.Ident? || t.Pident? || t.Symbol? {
      NameBack(word, t, rest);
    } else if t.IntTok? {
      IntegerBack(word, t, rest);
    } else if t.HexTok? {
      HexBack(word, t, rest);
    } else if t.Str? {
      StringBack(t.bytes, rest);
    } else {
      PunctuationBack(t, rest);
    }
  }

  lemma StringBack(bs: seq<nat>, rest: string)
    requires AllBytes(bs)
    ensures LexOne([QUOTE] + Quoted(bs) + rest) == Lexed(Str(bs), rest)
  {
    hide Quoted, LexString;
    QuotedBack(bs, rest);
    var s := [QUOTE] + Quoted(bs) + rest;
    assert s[0] == QUOTE && s[1..] == Quoted(bs) + rest;
  }

  lemma PunctuationBack(t: Tok, rest: string)
    requires t.LP? || t.RP? || t.LB? || t.RB? || t.Comma? || t.Colon? || t.Eq? || t.Ellipsis?
    ensures var word := PunctuationText(t); word != "" && LexOne(word + rest) == Lexed(t, rest)
  {
    var s := PunctuationText(t) + rest;
    if t.Ellipsis? {
      assert s[3..] == rest;
    } else {
      assert s[1..] == rest;
    }
  }

  // --- the whole text ---------------------------------------------------------------------------------------

  predicate NotSkipped(s: string) {
    s == "" || (!IsSpace(s[0]) && s[0] != SLASH)
  }

  lemma {:induction false} SkipGap(gap: string, s: string)
    requires AllSpace(gap) && NotSkipped(s)
    ensures Skip(gap + s) == s
  {
    if gap == "" {
      assert gap + s == s;
    } else {
      assert (gap + s)[1..] == gap[1..] + s;
      SkipGap(gap[1..], s);
    }
  }

  lemma WordNotSkipped(word: string, t: Tok, rest: string)
    requires Spells(word, t) && word != ""
    ensures NotSkipped(word + rest)
  {
    hide HexDigits;
    assert (word + rest)[0] == word[0];
  }

  // The printer's spelling lexes back, whatever the spacing.
  lemma {:induction false} TextLexesBack(ps: seq<Piece>, tail: string)
    requires WellSpaced(ps, tail)
    ensures LexAll(Render(ps, tail)) == Tokens(TokensOf(ps) + [Eof])
    decreases |ps|
  {
    hide Spells, LexOne, Skip;
    if ps == [] {
      assert tail + "" == tail;
      SkipGap(tail, "");
    } else {
      var p, rest := ps[0], Render(ps[1..], tail);
      FirstPiece(ps, tail);
      RestSpaced(ps, tail);
      OneBack(p.word, p.tok, rest);
      WordNotSkipped(p.word, p.tok, rest);
      SkipGap(p.gap, p.word + rest);
      TextLexesBack(ps[1..], tail);
      assert TokensOf(ps) + [Eof] == [p.tok] + (TokensOf(ps[1..]) + [Eof]);
    }
  }

  lemma FirstPiece(ps: seq<Piece>, tail: string)
    requires WellSpaced(ps, tail) && ps != []
    ensures var rest := Render(ps[1..], tail);
            AllSpace(ps[0].gap) && Spells(ps[0].word, ps[0].tok) && (rest == "" || MayTouch(ps[0].tok, rest[0]))
  {
    hide Spells;
    assert ps[0 + 1..] == ps[1..];
  }

  lemma RestSpaced(ps: seq<Piece>, tail: string)
    requires WellSpaced(ps, tail) && ps != []
    ensures WellSpaced(ps[1..], tail)
  {
    hide Spells;
    var qs := ps[1..];
    forall i | 0 <= i < |qs|
      ensures AllSpace(qs[i].gap) && Spells(qs[i].word, qs[i].tok)
      ensures Render(qs[i + 1..], tail) != "" ==> MayTouch(qs[i].tok, Render(qs[i + 1..], tail)[0])
    {
      assert qs[i] == ps[i + 1] && qs[i + 1..] == ps[i + 2..];
    }
  }
}
