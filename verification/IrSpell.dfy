/** The printed text line by line: what stands before each token of a line, and how
    the token is spelled there. Text made so lexes back to the tokens. */
module IrSpell {
  import opened IrTokens
  import opened IrLex

  // --- one line ---------------------------------------------------------------------------

  // The token so many places before place i.
  function Before(ts: seq<Tok>, i: nat, back: nat): Tok
    requires i < |ts|
  {
    if back <= i then ts[i - back] else Eof
  }

  // A number right after a symbol is added to it, but the addend of a relocation,
  // whose symbol follows its offset, stands apart.
  predicate IsAddend(ts: seq<Tok>, i: nat)
    requires i < |ts|
  {
    ts[i].IntTok? && Before(ts, i, 1).Symbol? && !Before(ts, i, 2).IntTok?
  }

  // Sizes and relocation offsets are unsigned.
  predicate IsUnsigned(ts: seq<Tok>, i: nat)
    requires i < |ts|
  {
    IsWord(Before(ts, i, 1), "size") || IsWord(Before(ts, i, 1), "reloc")
  }

  // The second of two values in parentheses after hfa or abi, as in hfa(16,4). An
  // edge without arguments puts its closing parenthesis before the comma.
  predicate InPair(ts: seq<Tok>, i: nat)
    requires i < |ts|
  {
    && Before(ts, i, 1).Comma? && !Before(ts, i, 2).RP? && Before(ts, i, 3).LP?
    && (IsWord(Before(ts, i, 4), "hfa") || IsWord(Before(ts, i, 4), "abi"))
  }

  predicate Wordy(t: Tok) {
    t.Ident? || t.Pident? || t.Symbol? || t.IntTok? || t.HexTok?
  }

  // Words are a space apart, but for these.
  function Gap(ts: seq<Tok>, i: nat): string
    requires i < |ts|
  {
    var before := Before(ts, i, 1);
    if ts[i].LP? || ts[i].RP? || ts[i].Comma? || ts[i].Colon? || before.LP? then ""
    else if InPair(ts, i) || (before.Colon? && ts[i].HexTok?) || IsAddend(ts, i) then ""
    else " "
  }

  function SignedText(v: nat): string {
    var s := Signed(v);
    if s < 0 then "-" + Decimal(-s) else Decimal(s)
  }

  function Spelling(ts: seq<Tok>, i: nat): string
    requires i < |ts|
  {
    match ts[i]
    case Ident(text) => text
    case Pident(text) => "%" + text
    case Symbol(exact, text) => if exact then "@!" + text else "@" + text
    case IntTok(v) =>
      if IsUnsigned(ts, i) then Decimal(v) else if IsAddend(ts, i) && Signed(v) >= 0 then "+" + Decimal(v) else SignedText(v)
    case HexTok(v, digits) => "0x" + HexDigits(v, digits, true)
    case Str(bytes) => [QUOTE] + Quoted(bytes)
    case _ => PunctuationText(ts[i])
  }

  // The line from place i on.
  function LineText(ts: seq<Tok>, i: nat): string
    requires i <= |ts|
    decreases |ts| - i
  {
    if i == |ts| then "" else (if i == 0 then "" else Gap(ts, i)) + (Spelling(ts, i) + LineText(ts, i + 1))
  }

  // After a comma comes a space, but inside a pair.
  lemma CommaSpaced(ts: seq<Tok>, i: nat)
    requires i < |ts| && Before(ts, i, 1).Comma? && Wordy(ts[i])
    ensures Gap(ts, i) == if InPair(ts, i) then "" else " "
  {
  }

  // So too after the parentheses of an edge without arguments.
  lemma BareEdgeText(ts: seq<Tok>, i: nat)
    requires 0 < i && i + 3 < |ts| && ts[i].LP? && ts[i + 1].RP? && ts[i + 2].Comma? && Wordy(ts[i + 3])
    ensures LineText(ts, i) == "(), " + (Spelling(ts, i + 3) + LineText(ts, i + 4))
  {
    hide Spelling, Gap, LineText, InPair;
    var rest := Spelling(ts, i + 3) + LineText(ts, i + 4);
    CommaSpaced(ts, i + 3);
    OutsidePair(ts, i + 3);
    LineStep(ts, i + 3);
    PunctuationStep(ts, i + 2);
    PunctuationStep(ts, i + 1);
    PunctuationStep(ts, i);
    assert "(" + (")" + ("," + (" " + rest))) == "(), " + rest;
  }

  lemma OutsidePair(ts: seq<Tok>, i: nat)
    requires i < |ts| && Before(ts, i, 2).RP?
    ensures !InPair(ts, i)
  {
  }

  lemma LineStep(ts: seq<Tok>, i: nat)
    requires 0 < i < |ts|
    ensures LineText(ts, i) == Gap(ts, i) + (Spelling(ts, i) + LineText(ts, i + 1))
  {
  }

  lemma PunctuationStep(ts: seq<Tok>, i: nat)
    requires 0 < i < |ts| && (ts[i].LP? || ts[i].RP? || ts[i].Comma?)
    ensures LineText(ts, i) == PunctuationText(ts[i]) + LineText(ts, i + 1)
  {
  }

  // --- many lines --------------------------------------------------------------------------

  datatype Line = Line(indent: string, toks: seq<Tok>)

  function LinesText(lines: seq<Line>): string {
    if lines == [] then "" else lines[0].indent + LineText(lines[0].toks, 0) + "\n" + LinesText(lines[1..])
  }

  function LinesToks(lines: seq<Line>): seq<Tok> {
    if lines == [] then [] else lines[0].toks + LinesToks(lines[1..])
  }

  // --- what can be lexed -------------------------------------------------------------------

  predicate Lexes(t: Tok) {
    match t
    case Ident(text) => AllIdent(text) && IdentStart(text[0])
    case Pident(text) => AllIdent(text)
    case Symbol(exact, text) => AllIdent(text) && (exact || text[0] != '!')
    case IntTok(v) => v < U64
    case HexTok(v, digits) => 0 < digits <= 16 && v < Power16(digits)
    case Str(bytes) => AllBytes(bytes)
    case Eof => false
    case _ => true
  }

  predicate AllLex(ts: seq<Tok>) {
    forall i | 0 <= i < |ts| :: Lexes(ts[i])
  }

  predicate LineLexes(line: Line) {
    AllSpace(line.indent) && line.toks != [] && AllLex(line.toks)
  }

  predicate LinesLex(lines: seq<Line>) {
    forall i | 0 <= i < |lines| :: LineLexes(lines[i])
  }

  lemma SpellingSpells(ts: seq<Tok>, i: nat)
    requires i < |ts| && Lexes(ts[i])
    ensures Spells(Spelling(ts, i), ts[i])
  {
    hide Decimal, AllBytes, Quoted, AllIdent, HexDigits, Power16, PunctuationText;
    if ts[i].IntTok? {
      IntegerSpells(ts, i);
    }
  }

  lemma IntegerSpells(ts: seq<Tok>, i: nat)
    requires i < |ts| && ts[i].IntTok? && Lexes(ts[i])
    ensures Spells(Spelling(ts, i), ts[i])
  {
    hide Decimal;
    var v := ts[i].value;
    if Signed(v) < 0 {
      assert -Signed(v) == U64 - v;
    }
  }

  // --- the text as pieces ------------------------------------------------------------------

  function LinePieces(ts: seq<Tok>, gap: string): (ps: seq<Piece>)
    ensures |ps| == |ts|
  {
    seq(|ts|, i requires 0 <= i < |ts| => Piece(if i == 0 then gap else Gap(ts, i), Spelling(ts, i), ts[i]))
  }

  // A line after the first starts on a new one.
  function Pieces(lines: seq<Line>, before: string): seq<Piece> {
    if lines == [] then [] else LinePieces(lines[0].toks, before + lines[0].indent) + Pieces(lines[1..], "\n")
  }

  function TextTail(lines: seq<Line>): string {
    if lines == [] then "" else "\n"
  }

  lemma {:induction false} PiecesAre(lines: seq<Line>, before: string)
    ensures TokensOf(Pieces(lines, before)) == LinesToks(lines)
  {
    hide Gap, Spelling;
    if lines != [] {
      PiecesAre(lines[1..], "\n");
      var ps, qs := LinePieces(lines[0].toks, before + lines[0].indent), Pieces(lines[1..], "\n");
      assert TokensOf(ps) == lines[0].toks;
      assert TokensOf(ps + qs) == TokensOf(ps) + TokensOf(qs);
    }
  }

  lemma {:induction false} RenderJoin(ps: seq<Piece>, qs: seq<Piece>, tail: string)
    ensures Render(ps + qs, tail) == Render(ps, Render(qs, tail))
  {
    if ps == [] {
      assert ps + qs == qs;
    } else {
      RenderJoin(ps[1..], qs, tail);
      assert (ps + qs)[1..] == ps[1..] + qs;
    }
  }

  lemma {:induction false} LineRendered(ts: seq<Tok>, gap: string, i: nat, tail: string)
    requires i <= |ts|
    ensures Render(LinePieces(ts, gap)[i..], tail) == (if i == 0 && ts != [] then gap else "") + LineText(ts, i) + tail
    decreases |ts| - i
  {
    hide Gap, Spelling;
    var ps := LinePieces(ts, gap);
    if i < |ts| {
      LineRendered(ts, gap, i + 1, tail);
      assert ps[i..][0] == ps[i] && ps[i..][1..] == ps[i + 1..];
      var rest := LineText(ts, i + 1);
      assert "" + rest + tail == rest + tail;
      OneRendered(ps[i..], rest + tail, tail);
      Regrouped(if i == 0 then gap else "", if i == 0 then "" else Gap(ts, i), Spelling(ts, i), rest, tail);
    } else {
      assert ps[i..] == [];
      assert "" + "" + tail == tail;
    }
  }

  lemma OneRendered(ps: seq<Piece>, more: string, tail: string)
    requires ps != [] && Render(ps[1..], tail) == more
    ensures Render(ps, tail) == ps[0].gap + (ps[0].word + more)
  {
  }

  lemma Regrouped(gap: string, before: string, word: string, rest: string, tail: string)
    requires gap == "" || before == ""
    ensures (if gap == "" then before else gap) + (word + (rest + tail)) == gap + (before + (word + rest)) + tail
  {
  }

  lemma {:induction false} LinesRendered(lines: seq<Line>, before: string)
    requires forall k | 0 <= k < |lines| :: lines[k].toks != []
    ensures Render(Pieces(lines, before), "\n") == if lines == [] then "\n" else before + LinesText(lines)
  {
    hide LineText;
    if lines != [] {
      var line := lines[0];
      LinesRendered(lines[1..], "\n");
      assert Render(Pieces(lines[1..], "\n"), "\n") == "\n" + LinesText(lines[1..]);
      var ps := LinePieces(line.toks, before + line.indent);
      RenderJoin(ps, Pieces(lines[1..], "\n"), "\n");
      LineRendered(line.toks, before + line.indent, 0, "\n" + LinesText(lines[1..]));
      assert ps[0..] == ps;
      LineJoined(before, line.indent, LineText(line.toks, 0), LinesText(lines[1..]));
    }
  }

  lemma LineJoined(before: string, indent: string, text: string, rest: string)
    ensures (before + indent) + text + ("\n" + rest) == before + (indent + text + "\n" + rest)
  {
  }

  lemma TextRendered(lines: seq<Line>)
    requires forall k | 0 <= k < |lines| :: lines[k].toks != []
    ensures Render(Pieces(lines, ""), TextTail(lines)) == LinesText(lines)
  {
    hide LinePieces, LineText;
    LinesRendered(lines, "");
    assert "" + LinesText(lines) == LinesText(lines);
  }

  // --- words do not run together -----------------------------------------------------------

  // The next piece, standing right behind a word, does not continue it.
  predicate Apart(p: Piece) {
    p.gap != "" || (p.word != "" && !IdentChar(p.word[0]))
  }

  predicate Fine(ps: seq<Piece>) {
    && (forall i | 0 <= i < |ps| :: AllSpace(ps[i].gap) && Spells(ps[i].word, ps[i].tok))
    && (forall i | 0 < i < |ps| && Wordy(ps[i - 1].tok) :: Apart(ps[i]))
  }

  lemma FineSpaced(ps: seq<Piece>, tail: string)
    requires Fine(ps) && AllSpace(tail)
    ensures WellSpaced(ps, tail)
  {
    hide Spells;
    forall i | 0 <= i < |ps|
      ensures Render(ps[i + 1..], tail) != "" ==> MayTouch(ps[i].tok, Render(ps[i + 1..], tail)[0])
    {
      if i + 1 < |ps| && Wordy(ps[i].tok) {
        NextApart(ps[i + 1], ps[i + 1..], tail);
      }
    }
  }

  lemma NextApart(p: Piece, ps: seq<Piece>, tail: string)
    requires ps != [] && ps[0] == p && Apart(p) && AllSpace(p.gap)
    ensures Render(ps, tail) != "" && !IdentChar(Render(ps, tail)[0])
  {
    if p.gap != "" {
      assert IsSpace(p.gap[0]) && Render(ps, tail)[0] == p.gap[0];
    } else {
      assert Render(ps, tail)[0] == p.word[0];
    }
  }

  lemma LineFine(ts: seq<Tok>, gap: string)
    requires AllLex(ts) && AllSpace(gap)
    ensures Fine(LinePieces(ts, gap))
  {
    hide Spells, Lexes, Gap, Spelling;
    var ps := LinePieces(ts, gap);
    forall i | 0 <= i < |ps|
      ensures AllSpace(ps[i].gap) && Spells(ps[i].word, ps[i].tok)
    {
      SpellingSpells(ts, i);
      GapIsSpace(ts, i);
    }
    forall i | 0 < i < |ps| && Wordy(ps[i - 1].tok)
      ensures Apart(ps[i])
    {
      GapKeepsApart(ts, i);
    }
  }

  lemma GapIsSpace(ts: seq<Tok>, i: nat)
    requires i < |ts|
    ensures AllSpace(Gap(ts, i))
  {
  }

  // No space goes only before punctuation, after punctuation, or before the sign
  // of an addend.
  lemma GapKeepsApart(ts: seq<Tok>, i: nat)
    requires 0 < i < |ts| && Wordy(ts[i - 1])
    ensures Gap(ts, i) != "" || (Spelling(ts, i) != "" && !IdentChar(Spelling(ts, i)[0]))
  {
    hide Decimal, HexDigits, Quoted;
    if Gap(ts, i) == "" && ts[i].IntTok? {
      assert IsAddend(ts, i) && !IsUnsigned(ts, i);
    }
  }

  lemma {:induction false} PiecesFine(lines: seq<Line>, before: string)
    requires LinesLex(lines) && AllSpace(before)
    ensures Fine(Pieces(lines, before)) && (lines != [] && before != "" ==> Pieces(lines, before)[0].gap != "")
  {
    hide LineLexes, LinePieces, Fine;
    if lines != [] {
      assert LineLexes(lines[0]);
      LineFacts(lines[0]);
      LineFine(lines[0].toks, before + lines[0].indent);
      PiecesFine(lines[1..], "\n");
      FirstGap(lines[0].toks, before + lines[0].indent);
      if |lines| > 1 {
        assert LineLexes(lines[1]);
        LineFacts(lines[1]);
      }
      FineJoin(LinePieces(lines[0].toks, before + lines[0].indent), Pieces(lines[1..], "\n"));
    } else {
      NothingFine();
    }
  }

  lemma NothingFine()
    ensures Fine([])
  {
  }

  lemma LineFacts(line: Line)
    requires LineLexes(line)
    ensures AllSpace(line.indent) && line.toks != [] && AllLex(line.toks)
  {
  }

  lemma FirstGap(ts: seq<Tok>, gap: string)
    requires ts != []
    ensures LinePieces(ts, gap) != [] && LinePieces(ts, gap)[0].gap == gap
  {
  }

  lemma FineJoin(ps: seq<Piece>, qs: seq<Piece>)
    requires Fine(ps) && Fine(qs) && (qs != [] ==> qs[0].gap != "")
    ensures Fine(ps + qs)
  {
    hide Spells, Wordy;
    var all := ps + qs;
    forall i | 0 < i < |all| && Wordy(all[i - 1].tok)
      ensures Apart(all[i])
    {
      if i > |ps| {
        assert all[i] == qs[i - |ps|] && all[i - 1] == qs[i - |ps| - 1];
      } else if i < |ps| {
        assert all[i] == ps[i] && all[i - 1] == ps[i - 1];
      }
    }
  }

  // Printed lines are the pieces of a text that keeps its words apart, so they lex
  // back to their tokens.
  lemma LinesLexBack(lines: seq<Line>)
    requires LinesLex(lines)
    ensures WellSpaced(Pieces(lines, ""), TextTail(lines)) && TokensOf(Pieces(lines, "")) == LinesToks(lines)
    ensures Render(Pieces(lines, ""), TextTail(lines)) == LinesText(lines)
    ensures LexAll(LinesText(lines)) == Tokens(LinesToks(lines) + [Eof])
  {
    hide Fine, WellSpaced, LexAll, AllLex;
    PiecesFine(lines, "");
    FineSpaced(Pieces(lines, ""), TextTail(lines));
    PiecesAre(lines, "");
    TextRendered(lines);
    TextLexesBack(Pieces(lines, ""), TextTail(lines));
  }
}
