/** The loops of the reader: lexing the whole file up front, and the three scans
    ahead of the parser, each equal to the function that specifies it. */
module IrScans {
  import opened IrTokens
  import opened IrParse
  import opened IrLex
  import opened IrRecords

  function Prepend(ts: seq<Tok>, more: Tokens): Tokens {
    match more
    case BadText => BadText
    case Tokens(rest) => Tokens(ts + rest)
  }

  lemma LexNext(s: string)
    requires Skip(s) != ""
    ensures var one := LexOne(Skip(s));
            LexAll(s) == if one.Bad? || |one.rest| >= |s| then BadText else Prepend([one.value], LexAll(one.rest))
  {
  }

  lemma LexEnd(s: string)
    requires Skip(s) == ""
    ensures LexAll(s) == Tokens([Eof])
  {
  }

  lemma PrependTwice(a: seq<Tok>, b: seq<Tok>, more: Tokens)
    ensures Prepend(a, Prepend(b, more)) == Prepend(a + b, more)
  {
    assert more.Tokens? ==> a + (b + more.toks) == a + b + more.toks;
  }

  // One token array for the whole text.
  method LexText(text: string) returns (r: Tokens)
    ensures r == LexAll(text)
  {
    hide LexAll, LexOne, Skip;
    var toks, rest := [], text;
    assert Prepend([], LexAll(text)) == LexAll(text);
    while true
      invariant LexAll(text) == Prepend(toks, LexAll(rest))
      decreases |rest|
    {
      var at := Skip(rest);
      if at == "" {
        LexEnd(rest);
        return Tokens(toks + [Eof]);
      }
      LexNext(rest);
      var one := LexOne(at);
      if one.Bad? || |one.rest| >= |rest| {
        return BadText;
      }
      PrependTwice(toks, [one.value], LexAll(one.rest));
      toks, rest := toks + [one.value], one.rest;
    }
  }

  // The labels of the function whose body starts at pos.
  method PrescanBlocks(toks: seq<Tok>, pos: nat) returns (r: Labels)
    requires pos <= |toks|
    ensures r == Prescan(toks[pos..], [])
  {
    hide Reserved;
    var i, found := pos, [];
    while i < |toks| && !toks[i].RB?
      invariant pos <= i <= |toks| && Prescan(toks[pos..], []) == Prescan(toks[i..], found)
      decreases |toks| - i
    {
      if toks[i].Eof? {
        return BadLabels;
      }
      var n := HeaderLength(toks, i);
      if n == 0 {
        assert toks[i..][1..] == toks[i + 1..];
        i := i + 1;
      } else {
        if toks[i].text in found || Reserved(toks[i].text) {
          return BadLabels;
        }
        assert toks[i..][n..] == toks[i + n..];
        found := found + [toks[i].text];
        i := i + n;
      }
    }
    return if i < |toks| then Labels(found) else BadLabels;
  }

  // A word, a parenthesised part, a colon: how many tokens, or none.
  method HeaderLength(toks: seq<Tok>, i: nat) returns (n: nat)
    requires i < |toks|
    ensures n == HeaderAt(toks[i..]) && i + n <= |toks| && (n > 0 ==> toks[i].Ident?)
  {
    if !toks[i].Ident? || i + 1 >= |toks| || !toks[i + 1].LP? {
      return 0;
    }
    var j := i + 2;
    assert toks[i..][2..] == toks[j..];
    while j < |toks| && !toks[j].RP? && !toks[j].Eof?
      invariant i + 2 <= j <= |toks|
      invariant FirstRP(toks[i + 2..]) == if FirstRP(toks[j..]) < 0 then -1 else FirstRP(toks[j..]) + (j - i - 2)
    {
      assert toks[j..][1..] == toks[j + 1..];
      j := j + 1;
    }
    if j < |toks| && toks[j].RP? && j + 1 < |toks| && toks[j + 1].Colon? {
      n := j + 2 - i;
    } else {
      n := 0;
    }
  }

  // Items up to the matching parenthesis.
  method CountItems(toks: seq<Tok>, pos: nat) returns (n: int)
    requires pos <= |toks|
    ensures n == CountArgs(toks[pos..])
  {
    if pos < |toks| && toks[pos].RP? {
      return 0;
    }
    var i, count, depth := pos, 1, 0;
    while i < |toks|
      invariant pos <= i <= |toks| && CountArgs(toks[pos..]) == CountFrom(toks[i..], depth, count)
    {
      assert toks[i..][1..] == toks[i + 1..];
      if toks[i].Eof? || toks[i].RB? {
        return -1;
      }
      if toks[i].LP? {
        depth := depth + 1;
      } else if toks[i].RP? {
        if depth == 0 {
          return count;
        }
        depth := depth - 1;
      } else if toks[i].Comma? && depth == 0 {
        count := count + 1;
      }
      i := i + 1;
    }
    return -1;
  }

  // The functions with a body, anywhere in the file.
  method PrescanFunctions(toks: seq<Tok>) returns (r: Labels)
    ensures r == PrescanFuncs(toks, 0, [])
  {
    var i, depth: int, found := 0, 0, [];
    while i < |toks| && !toks[i].Eof?
      invariant 0 <= i <= |toks| && PrescanFuncs(toks, 0, []) == PrescanFuncs(toks[i..], depth, found)
    {
      assert toks[i..][1..] == toks[i + 1..];
      if toks[i].LB? {
        depth := depth + 1;
      } else if toks[i].RB? {
        depth := depth - 1;
      } else if depth == 0 && IsWord(toks[i], "func") && i + 2 < |toks| && toks[i + 1].Ident? && toks[i + 2].Symbol? {
        if TokName(toks[i + 2]) in found {
          return BadLabels;
        }
        found := found + [TokName(toks[i + 2])];
      }
      i := i + 1;
    }
    return Labels(found);
  }
}
