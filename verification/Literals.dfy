/** String literals: a run of adjacent tokens is one literal, with one encoding, and
    its payload is final. */
module Literals {
  import opened Utf8
  import opened Escapes

  datatype Encoding = EncNone | EncWide | EncU16 | EncU32 | EncU8

  function Width(enc: Encoding): nat {
    match enc
    case EncWide => 4
    case EncU32 => 4
    case EncU16 => 2
    case EncNone => 1
    case EncU8 => 1
  }

  predicate DecodesRaw(enc: Encoding) {
    enc == EncWide || enc == EncU16 || enc == EncU32
  }

  datatype Prefix = Prefix(enc: Encoding, size: nat)

  function ReadPrefix(s: seq<Byte>): (p: Prefix)
    ensures p.size <= |s|
  {
    if |s| > 0 && s[0] == 76 then Prefix(EncWide, 1)
    else if |s| > 0 && s[0] == 85 then Prefix(EncU32, 1)
    else if |s| > 0 && s[0] == 117 then
      if |s| > 1 && s[1] == 56 then Prefix(EncU8, 2) else Prefix(EncU16, 1)
    else Prefix(EncNone, 0)
  }

  // --- what a run of tokens means ----------------------------------------------------------

  datatype Joined = Clash | Joined(enc: Encoding)

  // The encoding of the first k tokens together.
  function JoinedEncoding(run: seq<seq<Byte>>, k: nat): Joined
    requires k <= |run|
  {
    if k == 0 then Joined(EncNone)
    else
      match JoinedEncoding(run, k - 1)
      case Clash => Clash
      case Joined(enc) =>
        var e := ReadPrefix(run[k - 1]).enc;
        if e == EncNone then Joined(enc) else if enc != EncNone && enc != e then Clash else Joined(e)
  }

  // The tokens agree on an encoding exactly when no two of them have different
  // prefixes, and it is that of any prefixed one.
  lemma {:induction false} JoinedExactly(run: seq<seq<Byte>>, k: nat)
    requires k <= |run|
    ensures JoinedEncoding(run, k).Clash? <==>
              exists i, j :: 0 <= i < j < k && PrefixesDiffer(run[i], run[j])
    ensures JoinedEncoding(run, k).Joined? ==> forall i | 0 <= i < k && ReadPrefix(run[i]).enc != EncNone ::
              ReadPrefix(run[i]).enc == JoinedEncoding(run, k).enc
    ensures JoinedEncoding(run, k).Joined? && JoinedEncoding(run, k).enc != EncNone ==>
              exists i :: 0 <= i < k && ReadPrefix(run[i]).enc == JoinedEncoding(run, k).enc
  {
    hide ReadPrefix;
    if k > 0 {
      JoinedExactly(run, k - 1);
    }
  }

  predicate PrefixesDiffer(a: seq<Byte>, b: seq<Byte>) {
    ReadPrefix(a).enc != EncNone && ReadPrefix(b).enc != EncNone && ReadPrefix(a).enc != ReadPrefix(b).enc
  }

  datatype Elements = Broken | Elements(chs: seq<Ch>)

  // The elements of one token from i to its closing quote.
  function TokenElements(s: seq<Byte>, i: nat, wide: bool): Elements
    requires i <= |s|
    decreases |s| - i
  {
    if i == |s| || s[i] == QUOTE then Elements([])
    else
      var c := Element(s, i, wide);
      if c.Bad? || c.next <= i || c.next > |s| then Broken
      else
        match TokenElements(s, c.next, wide)
        case Broken => Broken
        case Elements(rest) => Elements([c] + rest)
  }

  function OpeningQuote(s: seq<Byte>): (q: int)
    ensures q < |s|
  {
    var i := ReadPrefix(s).size;
    if i >= |s| || s[i] != QUOTE then -1 else i
  }

  // The elements of the first k tokens: each is decoded on its own.
  function RunElements(run: seq<seq<Byte>>, k: nat, wide: bool): Elements
    requires k <= |run|
  {
    if k == 0 then Elements([])
    else
      match RunElements(run, k - 1, wide)
      case Broken => Broken
      case Elements(some) =>
        var q := OpeningQuote(run[k - 1]);
        if q < 0 then Broken
        else
          match TokenElements(run[k - 1], q + 1, wide)
          case Broken => Broken
          case Elements(more) => Elements(some + more)
  }

  // --- the payload -----------------------------------------------------------------------------

  predicate Fits(c: Ch) {
    c.Ch? && c.value < U32_LIMIT && (c.ucn ==> Scalar(c.value))
  }

  function Put(enc: Encoding, c: Ch): seq<Byte>
    requires Fits(c)
  {
    match enc
    case EncWide => PutU32le(c.value)
    case EncU32 => PutU32le(c.value)
    case EncU16 => PutU16(c.value)
    case EncNone => if c.ucn then PutUtf8(c.value) else [c.value % 256]
    case EncU8 => if c.ucn then PutUtf8(c.value) else [c.value % 256]
  }

  // How many array elements one source element becomes.
  function Count(enc: Encoding, c: Ch): nat
    requires Fits(c)
  {
    match enc
    case EncWide => 1
    case EncU32 => 1
    case EncU16 => if c.value >= 0x10000 then 2 else 1
    case EncNone => if c.ucn then |PutUtf8(c.value)| else 1
    case EncU8 => if c.ucn then |PutUtf8(c.value)| else 1
  }

  predicate AllFit(cs: seq<Ch>) {
    forall i | 0 <= i < |cs| :: Fits(cs[i])
  }

  function Payload(enc: Encoding, cs: seq<Ch>): seq<Byte>
    requires AllFit(cs)
  {
    if cs == [] then [] else Payload(enc, cs[..|cs| - 1]) + Put(enc, cs[|cs| - 1])
  }

  function CountAll(enc: Encoding, cs: seq<Ch>): nat
    requires AllFit(cs)
  {
    if cs == [] then 0 else CountAll(enc, cs[..|cs| - 1]) + Count(enc, cs[|cs| - 1])
  }

  lemma OneIsCount(enc: Encoding, c: Ch)
    requires Fits(c)
    ensures |Put(enc, c)| == Count(enc, c) * Width(enc)
  {
  }

  // The payload is as many bytes as its elements take, surrogate pairs and
  // multi-byte universal character names included.
  lemma {:induction false} BytesAreElements(enc: Encoding, cs: seq<Ch>)
    requires AllFit(cs)
    ensures |Payload(enc, cs)| == CountAll(enc, cs) * Width(enc)
  {
    hide Put, Count;
    if cs != [] {
      var n := |cs| - 1;
      BytesAreElements(enc, cs[..n]);
      OneIsCount(enc, cs[n]);
    }
  }

  lemma {:induction false} TokenElementsFit(s: seq<Byte>, i: nat, wide: bool)
    requires i <= |s|
    ensures var e := TokenElements(s, i, wide); e.Elements? ==> AllFit(e.chs)
    decreases |s| - i
  {
    hide Element;
    if i < |s| && s[i] != QUOTE {
      ElementMoves(s, i, wide);
      var c := Element(s, i, wide);
      if c.Ch? {
        TokenElementsFit(s, c.next, wide);
      }
    }
  }

  lemma {:induction false} RunElementsFit(run: seq<seq<Byte>>, k: nat, wide: bool)
    requires k <= |run|
    ensures var e := RunElements(run, k, wide); e.Elements? ==> AllFit(e.chs)
  {
    hide TokenElements;
    if k > 0 {
      RunElementsFit(run, k - 1, wide);
      var q := OpeningQuote(run[k - 1]);
      if q >= 0 {
        TokenElementsFit(run[k - 1], q + 1, wide);
      }
    }
  }

  // --- reading the payload back --------------------------------------------------------------------

  // Element k of a literal of 32-bit elements is element k of the source.
  lemma {:induction false} WideElementAt(enc: Encoding, cs: seq<Ch>, k: nat)
    requires AllFit(cs) && (enc == EncWide || enc == EncU32) && k < |cs|
    ensures |Payload(enc, cs)| == 4 * |cs| && Payload(enc, cs)[4 * k..4 * k + 4] == PutU32le(cs[k].value)
    ensures Value32(Payload(enc, cs)[4 * k..4 * k + 4]) == cs[k].value
  {
    var n := |cs| - 1;
    WideLength(enc, cs);
    WideLength(enc, cs[..n]);
    if k < n {
      WideElementAt(enc, cs[..n], k);
      assert Payload(enc, cs)[4 * k..4 * k + 4] == Payload(enc, cs[..n])[4 * k..4 * k + 4];
    }
    Value32Back(cs[k].value);
  }

  lemma {:induction false} WideLength(enc: Encoding, cs: seq<Ch>)
    requires AllFit(cs) && (enc == EncWide || enc == EncU32)
    ensures |Payload(enc, cs)| == 4 * |cs|
  {
    if cs != [] {
      WideLength(enc, cs[..|cs| - 1]);
    }
  }

  function Value32(s: seq<Byte>): nat
    requires |s| == 4
  {
    var a: nat, b: nat, c: nat, d: nat := s[0], s[1], s[2], s[3];
    a + 256 * b + 0x10000 * c + 0x100_0000 * d
  }

  lemma Value32Back(v: nat)
    requires v < U32_LIMIT
    ensures Value32(PutU32le(v)) == v
  {
    assert v == v % 256 + 256 * (v / 256) && v / 256 == v / 256 % 256 + 256 * (v / 0x10000);
    assert v / 0x10000 == v / 0x10000 % 256 + 256 * (v / 0x100_0000);
  }

  // A whole payload of UTF-16 code units, read value by value.
  datatype Decoded = Undecodable | Decoded(values: seq<nat>)

  function DecodeU16(s: seq<Byte>): Decoded
    decreases |s|
  {
    if s == [] then Decoded([])
    else
      match ReadU16(s)
      case Invalid => Undecodable
      case Raw(v, n) =>
        if n == 0 || n > |s| then Undecodable
        else
          match DecodeU16(s[n..])
          case Undecodable => Undecodable
          case Decoded(rest) => Decoded([v] + rest)
  }

  function Values(cs: seq<Ch>): seq<nat>
    requires AllFit(cs)
  {
    seq(|cs|, k requires 0 <= k < |cs| => cs[k].value)
  }

  lemma {:induction false} OnlyScalarsDecode(s: seq<Byte>)
    ensures DecodeU16(s).Decoded? ==> forall v | v in DecodeU16(s).values :: Scalar(v)
    decreases |s|
  {
    if s != [] && ReadU16(s).Raw? && 0 < ReadU16(s).next <= |s| {
      OnlyScalarsDecode(s[ReadU16(s).next..]);
    }
  }

  lemma {:induction false} ScalarsDecode(cs: seq<Ch>)
    requires AllFit(cs) && forall k | 0 <= k < |cs| :: Scalar(cs[k].value)
    ensures DecodeU16(Payload(EncU16, cs)) == Decoded(Values(cs))
  {
    if cs != [] {
      hide Payload, CountAll, PutU16, ReadU16;
      var first, rest := [cs[0]], cs[1..];
      assert cs == first + rest;
      ScalarsDecode(rest);
      PayloadJoins(EncU16, first, rest);
      OneUnit(cs[0]);
      ScalarReadsBack(cs[0].value, Payload(EncU16, rest));
      assert (PutU16(cs[0].value) + Payload(EncU16, rest))[|PutU16(cs[0].value)|..] == Payload(EncU16, rest);
      assert Values(cs) == [cs[0].value] + Values(rest);
    }
  }

  lemma OneUnit(c: Ch)
    requires Fits(c)
    ensures AllFit([c]) && Payload(EncU16, [c]) == PutU16(c.value) && PutU16(c.value) != []
  {
    assert [c][..0] == [];
    assert Payload(EncU16, [c]) == [] + PutU16(c.value);
  }

  // A UTF-16 literal decodes to its elements exactly when all are scalar values.
  lemma U16PayloadDecodesExactly(cs: seq<Ch>)
    requires AllFit(cs)
    ensures DecodeU16(Payload(EncU16, cs)) == Decoded(Values(cs)) <==> forall k | 0 <= k < |cs| :: Scalar(cs[k].value)
  {
    if forall k | 0 <= k < |cs| :: Scalar(cs[k].value) {
      ScalarsDecode(cs);
    }
    if DecodeU16(Payload(EncU16, cs)) == Decoded(Values(cs)) {
      OnlyScalarsDecode(Payload(EncU16, cs));
      forall k | 0 <= k < |cs|
        ensures Scalar(cs[k].value)
      {
        assert Values(cs)[k] in Values(cs);
      }
    }
  }

  // The token u"\xD800" is accepted, and its payload is a lone surrogate.
  lemma LoneSurrogateEscape()
    ensures var token: seq<Byte> := [117, 34, 92, 120, 68, 56, 48, 48, 34];
            var cs := [Ch(0xD800, 8, false)];
            && JoinedEncoding([token], 1) == Joined(EncU16) && RunElements([token], 1, true) == Elements(cs)
            && DecodeU16(Payload(EncU16, cs)) == Undecodable
  {
    var token: seq<Byte> := [117, 34, 92, 120, 68, 56, 48, 48, 34];
    var c := Ch(0xD800, 8, false);
    assert JoinedEncoding([token], 0) == Joined(EncNone);
    assert RunElements([token], 0, true) == Elements([]);
    assert HexEnd(token, 8, 5) == 8 && HexEnd(token, 7, 6) == 8 && HexEnd(token, 6, 7) == 8;
    assert HexEnd(token, 5, 8) == 8 && HexEnd(token, 4, 9) == 8;
    assert HexValue(token, 4, 4) == 0 && HexValue(token, 4, 5) == 0xD && HexValue(token, 4, 6) == 0xD8;
    assert HexValue(token, 4, 7) == 0xD80 && HexValue(token, 4, 8) == 0xD800;
    assert Element(token, 2, true) == c;
    assert TokenElements(token, 8, true) == Elements([]);
    assert TokenElements(token, 2, true) == Elements([c] + []);
    OneUnit(c);
    assert PutU16(0xD800) == [0, 0xD8];
  }

  // Raw text up to the closing quote, holding no escape.
  predicate PlainTo(s: seq<Byte>, i: nat, e: nat) {
    i <= e <= |s| && (e == |s| || s[e] == QUOTE) && forall k | i <= k < e :: s[k] != QUOTE && s[k] != BACKSLASH
  }

  function AsUtf8(cs: seq<Ch>): seq<Byte>
    requires forall i | 0 <= i < |cs| :: cs[i].Ch? && cs[i].value < 0x20_0000
  {
    if cs == [] then [] else PutUtf8(cs[0].value) + AsUtf8(cs[1..])
  }

  // A wide literal of plain text keeps the text: its elements, written as
  // UTF-8, are the bytes of the source.
  lemma {:induction false} WideTextKept(s: seq<Byte>, i: nat, e: nat)
    requires PlainTo(s, i, e) && TokenElements(s, i, true).Elements?
    ensures var cs := TokenElements(s, i, true).chs;
            (forall k | 0 <= k < |cs| :: cs[k].Ch? && cs[k].value < 0x20_0000) && AsUtf8(cs) == s[i..e]
    decreases |s| - i
  {
    hide PutUtf8, ReadUtf8;
    if i < e {
      var c := Element(s, i, true);
      RawMoves(s, i);
      SequenceStaysPlain(s, i, c.next, e);
      WideTextKept(s, c.next, e);
      assert s[i..c.next] + s[c.next..e] == s[i..e];
    }
  }

  // A multi-byte sequence holds no quote, so it ends at or before the closing one.
  lemma SequenceStaysPlain(s: seq<Byte>, i: nat, next: nat, e: nat)
    requires PlainTo(s, i, e) && i < e && ReadUtf8(s, i).Raw? && i < next <= |s| && next == ReadUtf8(s, i).next
    ensures next <= e
  {
    hide ValueOf;
    var t := s[i..next];
    assert WellFormed(t);
    forall j | i < j < next
      ensures s[j] != QUOTE
    {
      assert t[j - i] == s[j];
      LaterBytesHigh(t, j - i);
    }
  }

  lemma LaterBytesHigh(t: seq<Byte>, j: nat)
    requires WellFormed(t) && 0 < j < |t|
    ensures t[j] >= 0x80
  {
  }

  // A narrow literal of plain text is its bytes.
  lemma {:induction false} NarrowTextKept(s: seq<Byte>, i: nat, e: nat, enc: Encoding)
    requires PlainTo(s, i, e) && (enc == EncNone || enc == EncU8)
    ensures var r := TokenElements(s, i, false); r.Elements? && AllFit(r.chs) && |r.chs| == e - i && Payload(enc, r.chs) == s[i..e]
    decreases e - i
  {
    hide Payload, CountAll;
    if i < e {
      NarrowTextKept(s, i + 1, e, enc);
      var c, rest := Ch(s[i], i + 1, false), TokenElements(s, i + 1, false).chs;
      NarrowElement(s, i);
      PayloadJoins(enc, [c], rest);
      OnePlain(enc, c);
      assert s[i..e] == [s[i]] + s[i + 1..e];
    } else {
      NothingYet(enc);
    }
  }

  lemma NarrowElement(s: seq<Byte>, i: nat)
    requires i < |s| && s[i] != QUOTE && s[i] != BACKSLASH
    ensures Element(s, i, false) == Ch(s[i], i + 1, false)
  {
  }

  lemma OnePlain(enc: Encoding, c: Ch)
    requires Fits(c) && !c.ucn && c.value < 256 && (enc == EncNone || enc == EncU8)
    ensures Payload(enc, [c]) == [c.value]
  {
    assert [c][..0] == [];
  }

  lemma {:induction false} PayloadJoins(enc: Encoding, a: seq<Ch>, b: seq<Ch>)
    requires AllFit(a) && AllFit(b)
    ensures AllFit(a + b) && Payload(enc, a + b) == Payload(enc, a) + Payload(enc, b)
    ensures CountAll(enc, a + b) == CountAll(enc, a) + CountAll(enc, b)
    decreases |b|
  {
    hide Put, Count;
    if b == [] {
      assert a + b == a;
    } else {
      var n := |b| - 1;
      PayloadJoins(enc, a, b[..n]);
      assert (a + b)[..|a + b| - 1] == a + b[..n];
    }
  }

  // --- the lexer ----------------------------------------------------------------------------------------

  datatype Literal = Error | Literal(bytes: seq<Byte>, nbytes: nat, nelems: nat, enc: Encoding)

  function Terminator(enc: Encoding): seq<Byte> {
    match enc
    case EncWide => PutU32le(0)
    case EncU32 => PutU32le(0)
    case EncU16 => PutU16(0)
    case EncNone => [0]
    case EncU8 => [0]
  }

  // The prefixes agree and the language has that kind of literal.
  predicate EncodingOk(run: seq<seq<Byte>>, c11: bool) {
    var j := JoinedEncoding(run, |run|);
    j.Joined? && (j.enc in {EncU16, EncU32, EncU8} ==> c11)
  }

  method LexStringLit(run: seq<seq<Byte>>, c11: bool) returns (r: Literal)
    ensures r.Error? <==> !EncodingOk(run, c11) || RunElements(run, |run|, DecodesRaw(JoinedEncoding(run, |run|).enc)).Broken?
    ensures r.Literal? ==>
              && r.enc == JoinedEncoding(run, |run|).enc
              && var e := RunElements(run, |run|, DecodesRaw(r.enc));
                 && e.Elements? && AllFit(e.chs)
                 && r.bytes == Payload(r.enc, e.chs) + Terminator(r.enc) && r.nelems == CountAll(r.enc, e.chs)
    ensures r.Literal? ==> r.nbytes == r.nelems * Width(r.enc) && |r.bytes| == r.nbytes + Width(r.enc)
  {
    hide ReadPrefix, TokenElements, Payload, CountAll, Put, Count, AllFit;
    var enc, k := EncNone, 0;
    while k < |run|
      invariant 0 <= k <= |run| && JoinedEncoding(run, k) == Joined(enc)
    {
      var e := ReadPrefix(run[k]).enc;
      if e != EncNone {
        if enc != EncNone && enc != e {
          ClashStays(run, k + 1, |run|);
          return Error;
        }
        enc := e;
      }
      k := k + 1;
    }
    if (enc == EncU16 || enc == EncU32 || enc == EncU8) && !c11 {
      return Error;
    }
    var ok, payload, nelems := LexRun(run, enc);
    if !ok {
      return Error;
    }
    ghost var cs := RunElements(run, |run|, DecodesRaw(enc)).chs;
    BytesAreElements(enc, cs);
    var bytes := payload + Terminator(enc);
    return Literal(bytes, |bytes| - Width(enc), nelems, enc);
  }

  lemma {:induction false} ClashStays(run: seq<seq<Byte>>, i: nat, k: nat)
    requires i <= k <= |run| && JoinedEncoding(run, i).Clash?
    ensures JoinedEncoding(run, k).Clash?
  {
    if i < k {
      ClashStays(run, i, k - 1);
    }
  }

  lemma {:induction false} BrokenStays(run: seq<seq<Byte>>, i: nat, k: nat, wide: bool)
    requires i <= k <= |run| && RunElements(run, i, wide).Broken?
    ensures RunElements(run, k, wide).Broken?
  {
    if i < k {
      BrokenStays(run, i, k - 1, wide);
    }
  }

  method LexRun(run: seq<seq<Byte>>, enc: Encoding) returns (ok: bool, payload: seq<Byte>, nelems: nat)
    ensures var e := RunElements(run, |run|, DecodesRaw(enc));
            && (ok <==> e.Elements?)
            && (ok ==> AllFit(e.chs) && payload == Payload(enc, e.chs) && nelems == CountAll(enc, e.chs))
  {
    hide ReadPrefix, TokenElements, Put, Count, Payload, CountAll, OpeningQuote, AllFit;
    NothingYet(enc);
    payload, nelems := [], 0;
    var wide, k := DecodesRaw(enc), 0;
    while k < |run|
      invariant 0 <= k <= |run| && RunElements(run, k, wide).Elements? && AllFit(RunElements(run, k, wide).chs)
      invariant payload == Payload(enc, RunElements(run, k, wide).chs) && nelems == CountAll(enc, RunElements(run, k, wide).chs)
    {
      var q := OpeningQuote(run[k]);
      if q < 0 {
        BrokenStays(run, k + 1, |run|, wide);
        return false, payload, nelems;
      }
      var good, more, n := LexToken(run[k], q + 1, enc);
      if !good {
        BrokenStays(run, k + 1, |run|, wide);
        return false, payload, nelems;
      }
      PayloadJoins(enc, RunElements(run, k, wide).chs, TokenElements(run[k], q + 1, wide).chs);
      payload, nelems := payload + more, nelems + n;
      k := k + 1;
    }
    return true, payload, nelems;
  }

  method LexToken(s: seq<Byte>, start: nat, enc: Encoding) returns (ok: bool, payload: seq<Byte>, nelems: nat)
    requires start <= |s|
    ensures var e := TokenElements(s, start, DecodesRaw(enc));
            && (ok <==> e.Elements?)
            && (ok ==> AllFit(e.chs) && payload == Payload(enc, e.chs) && nelems == CountAll(enc, e.chs))
  {
    hide Element, TokenElements, Payload, CountAll, Put, Count, PutUtf8, PutU16, PutU32le, Fits, AllFit, Resumes;
    payload, nelems := [], 0;
    var wide, i := DecodesRaw(enc), start;
    ghost var done: seq<Ch> := [];
    NothingYet(enc);
    ResumesFirst(s, start, wide);
    while i < |s| && s[i] != QUOTE
      invariant start <= i <= |s| && AllFit(done) && payload == Payload(enc, done) && nelems == CountAll(enc, done)
      invariant Resumes(TokenElements(s, start, wide), done, TokenElements(s, i, wide))
    {
      var c := DecodeChar(s, i, wide);
      ElementMoves(s, i, wide);
      ResumesAfter(s, start, wide, done, i);
      if c.Bad? {
        return false, payload, nelems;
      }
      CharFits(c);
      OneMore(enc, done, c);
      var put, count := PutChar(enc, c);
      payload, nelems := payload + put, nelems + count;
      done := done + [c];
      i := c.next;
    }
    ResumesLast(s, start, wide, done, i);
    return true, payload, nelems;
  }

  // The whole is what is done followed by the rest.
  predicate Resumes(whole: Elements, done: seq<Ch>, rest: Elements) {
    whole == match rest case Broken => Broken case Elements(cs) => Elements(done + cs)
  }

  lemma ResumesFirst(s: seq<Byte>, start: nat, wide: bool)
    requires start <= |s|
    ensures Resumes(TokenElements(s, start, wide), [], TokenElements(s, start, wide))
  {
    var e := TokenElements(s, start, wide);
    assert e.Elements? ==> [] + e.chs == e.chs;
  }

  lemma ResumesAfter(s: seq<Byte>, start: nat, wide: bool, done: seq<Ch>, i: nat)
    requires start <= i < |s| && s[i] != QUOTE && Resumes(TokenElements(s, start, wide), done, TokenElements(s, i, wide))
    ensures var c := Element(s, i, wide);
            if c.Bad? then TokenElements(s, start, wide).Broken?
            else i < c.next <= |s| && Resumes(TokenElements(s, start, wide), done + [c], TokenElements(s, c.next, wide))
  {
    hide Element;
    ElementMoves(s, i, wide);
    var c := Element(s, i, wide);
    if c.Ch? && TokenElements(s, c.next, wide).Elements? {
      var rest := TokenElements(s, c.next, wide).chs;
      assert done + ([c] + rest) == done + [c] + rest;
    }
  }

  lemma ResumesLast(s: seq<Byte>, start: nat, wide: bool, done: seq<Ch>, i: nat)
    requires start <= i <= |s| && (i == |s| || s[i] == QUOTE)
    requires Resumes(TokenElements(s, start, wide), done, TokenElements(s, i, wide))
    ensures TokenElements(s, start, wide) == Elements(done)
  {
    assert done + [] == done;
  }

  lemma NothingYet(enc: Encoding)
    ensures AllFit([]) && Payload(enc, []) == [] && CountAll(enc, []) == 0
  {
  }

  lemma CharFits(c: Ch)
    requires c.Ch? && c.value < U32_LIMIT && (c.ucn ==> Scalar(c.value))
    ensures Fits(c)
  {
  }

  lemma OneMore(enc: Encoding, cs: seq<Ch>, c: Ch)
    requires AllFit(cs) && Fits(c)
    ensures AllFit(cs + [c]) && Payload(enc, cs + [c]) == Payload(enc, cs) + Put(enc, c)
    ensures CountAll(enc, cs + [c]) == CountAll(enc, cs) + Count(enc, c)
  {
    assert (cs + [c])[..|cs|] == cs;
  }

  // The switch on the encoding: what to append and how many elements it is.
  method PutChar(enc: Encoding, c: Ch) returns (put: seq<Byte>, count: nat)
    requires Fits(c)
    ensures put == Put(enc, c) && count == Count(enc, c)
  {
    hide PutUtf8, PutU16, PutU32le;
    count := 1;
    match enc
    case EncWide => put := PutU32le(c.value);
    case EncU32 => put := PutU32le(c.value);
    case EncU16 =>
      put := PutU16(c.value);
      count := count + if c.value >= 0x10000 then 1 else 0;
    case EncNone =>
      put, count := PutNarrow(c);
    case EncU8 =>
      put, count := PutNarrow(c);
  }

  method PutNarrow(c: Ch) returns (put: seq<Byte>, count: nat)
    requires Fits(c)
    ensures put == Put(EncNone, c) && count == Count(EncNone, c)
  {
    if c.ucn {
      put := PutUtf8(c.value);
      count := |put|;
    } else {
      put, count := [c.value % 256], 1;
    }
  }
}
