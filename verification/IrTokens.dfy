/** Tokens of the textual IR, and the numbers that appear in them. */
module IrTokens {

  // A symbol is exact when its assembler spelling is given literally; a
  // hexadecimal constant says in how many digits it is written.
  datatype Tok =
    | Ident(text: string)
    | Pident(text: string)
    | Symbol(exact: bool, text: string)
    | IntTok(value: nat)
    | HexTok(value: nat, digits: nat)
    | Str(bytes: seq<nat>)
    | LP | RP | LB | RB | Comma | Colon | Eq | Ellipsis | Eof

  // --- pieces ----------------------------------------------------------------------------

  function Word(on: bool, word: string, rest: seq<Tok>): seq<Tok> {
    if on then [Ident(word)] + rest else rest
  }

  function CommaWord(on: bool, word: string, rest: seq<Tok>): seq<Tok> {
    if on then [Comma, Ident(word)] + rest else rest
  }

  function SymTok(name: string): Tok {
    if name != "" && name[0] == '!' then Symbol(true, name[1..]) else Symbol(false, name)
  }

  // --- looking at what comes next ------------------------------------------------------------

  function Front(ts: seq<Tok>): Tok {
    if ts == [] then Eof else ts[0]
  }

  function Second(ts: seq<Tok>): Tok {
    if |ts| < 2 then Eof else ts[1]
  }

  predicate IsWord(t: Tok, word: string) {
    t.Ident? && t.text == word
  }

  function TokName(t: Tok): string
    requires t.Symbol?
  {
    if t.exact then "!" + t.text else t.text
  }

  // Something optional, or a mistake in it.
  datatype Clause<T> = NoClause | Clause(value: T, rest: seq<Tok>)

  function TakeWord(ts: seq<Tok>, word: string): (bool, seq<Tok>) {
    if IsWord(Front(ts), word) then (true, ts[1..]) else (false, ts)
  }

  // --- decimal ----------------------------------------------------------------------------

  function Digit(d: nat): char
    requires d < 10
  {
    '0' + d as char
  }

  function Decimal(n: nat): (s: string)
    ensures |s| > 0 && forall k | 0 <= k < |s| :: '0' <= s[k] <= '9'
  {
    if n < 10 then [Digit(n)] else Decimal(n / 10) + [Digit(n % 10)]
  }

  function NumberOf(s: string): int {
    if s == "" then 0
    else NumberOf(s[..|s| - 1]) * 10 + (s[|s| - 1] as int - '0' as int)
  }

  lemma {:induction false} DecimalBack(n: nat)
    ensures NumberOf(Decimal(n)) == n
  {
    var s := Decimal(n);
    if n < 10 {
      assert s[..0] == "";
    } else {
      DecimalBack(n / 10);
      assert s[..|s| - 1] == Decimal(n / 10);
    }
  }

  lemma DecimalInjective(a: nat, b: nat)
    requires Decimal(a) == Decimal(b)
    ensures a == b
  {
    DecimalBack(a);
    DecimalBack(b);
  }

  // --- machine integers -------------------------------------------------------------------

  const U64: nat := 0x1_0000_0000_0000_0000
  const HALF: nat := 0x8000_0000_0000_0000

  // A 64-bit pattern read as a signed number, and back.
  function Signed(bits: nat): int {
    if bits % U64 < HALF then bits % U64 else bits % U64 - U64
  }

  function Bits(v: int): (b: nat)
    ensures b < U64
  {
    v % U64
  }

  lemma SignedBack(bits: nat)
    requires bits < U64
    ensures Bits(Signed(bits)) == bits
  {
  }
}
