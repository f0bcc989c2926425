/** Little-endian base 128 numbers, section 7.6 of the DWARF v4 standard. */
module Leb128 {

  const U64_LIMIT: nat := 0x1_0000_0000_0000_0000
  const I64_MIN: int := -0x8000_0000_0000_0000
  const I64_MAX: int := 0x7FFF_FFFF_FFFF_FFFF

  datatype Decoded = Malformed | Decoded(value: int, size: nat)

  // --- reading -------------------------------------------------------------------------

  // Seven bits a byte, least significant first; the high bit says more follow.
  function ReadUleb(bytes: seq<nat>): (r: Decoded)
    ensures r.Decoded? ==> r.value >= 0 && 0 < r.size <= |bytes|
  {
    if bytes == [] then Malformed
    else if bytes[0] < 128 then Decoded(bytes[0], 1)
    else
      match ReadUleb(bytes[1..])
      case Malformed => Malformed
      case Decoded(v, n) => Decoded(bytes[0] - 128 + 128 * v, n + 1)
  }

  function SignExtend(b: int): int {
    if b < 64 then b else b - 128
  }

  // As above, with the last byte's bit 6 standing for all higher bits.
  function ReadSleb(bytes: seq<nat>): (r: Decoded)
    ensures r.Decoded? ==> 0 < r.size <= |bytes|
  {
    if bytes == [] then Malformed
    else if bytes[0] < 128 then Decoded(SignExtend(bytes[0]), 1)
    else
      match ReadSleb(bytes[1..])
      case Malformed => Malformed
      case Decoded(v, n) => Decoded(bytes[0] - 128 + 128 * v, n + 1)
  }

  // --- writing -------------------------------------------------------------------------

  function Uleb(value: nat): seq<nat> {
    if value < 128 then [value] else [value % 128 + 128] + Uleb(value / 128)
  }

  predicate SlebEnds(value: int) {
    -64 <= value < 64
  }

  function Sleb(value: int): seq<nat>
    decreases if value < 0 then -value else value
  {
    if SlebEnds(value) then [value % 128] else [value % 128 + 128] + Sleb(value / 128)
  }

  // What is written reads back, whatever comes after it.
  lemma {:induction false} UlebReadsBack(value: nat, rest: seq<nat>)
    ensures ReadUleb(Uleb(value) + rest) == Decoded(value, |Uleb(value)|)
  {
    if value >= 128 {
      UlebReadsBack(value / 128, rest);
      assert (Uleb(value) + rest)[1..] == Uleb(value / 128) + rest;
    }
  }

  lemma {:induction false} SlebReadsBack(value: int, rest: seq<nat>)
    ensures ReadSleb(Sleb(value) + rest) == Decoded(value, |Sleb(value)|)
    decreases if value < 0 then -value else value
  {
    if !SlebEnds(value) {
      SlebReadsBack(value / 128, rest);
      assert (Sleb(value) + rest)[1..] == Sleb(value / 128) + rest;
    }
  }

  // Bytes past the end of a number are not looked at.
  lemma {:induction false} UlebLocal(bytes: seq<nat>, more: seq<nat>)
    requires ReadUleb(bytes).Decoded?
    ensures ReadUleb(bytes + more) == ReadUleb(bytes)
  {
    if bytes[0] >= 128 {
      UlebLocal(bytes[1..], more);
      assert (bytes + more)[1..] == bytes[1..] + more;
    }
  }

  lemma {:induction false} SlebLocal(bytes: seq<nat>, more: seq<nat>)
    requires ReadSleb(bytes).Decoded?
    ensures ReadSleb(bytes + more) == ReadSleb(bytes)
  {
    if bytes[0] >= 128 {
      SlebLocal(bytes[1..], more);
      assert (bytes + more)[1..] == bytes[1..] + more;
    }
  }

  // No other encoding of the same number is shorter.
  lemma {:induction false} UlebShortest(bytes: seq<nat>)
    requires ReadUleb(bytes).Decoded? && forall i | 0 <= i < |bytes| :: bytes[i] < 256
    ensures |Uleb(ReadUleb(bytes).value)| <= ReadUleb(bytes).size
  {
    if bytes[0] >= 128 {
      UlebShortest(bytes[1..]);
    }
  }

  lemma {:induction false} SlebShortest(bytes: seq<nat>)
    requires ReadSleb(bytes).Decoded? && forall i | 0 <= i < |bytes| :: bytes[i] < 256
    ensures |Sleb(ReadSleb(bytes).value)| <= ReadSleb(bytes).size
  {
    if bytes[0] >= 128 {
      SlebShortest(bytes[1..]);
      assert ReadSleb(bytes).value / 128 == ReadSleb(bytes[1..]).value;
    }
  }

  function Power128(k: nat): (p: nat)
    ensures p > 0
  {
    if k == 0 then 1 else 128 * Power128(k - 1)
  }

  lemma {:induction false} UlebFits(value: nat, k: nat)
    requires k > 0 && value < Power128(k)
    ensures |Uleb(value)| <= k
  {
    if value >= 128 {
      UlebFits(value / 128, k - 1);
    }
  }

  lemma {:induction false} SlebFits(value: int, k: nat)
    requires k > 0 && 2 * value < Power128(k) && -2 * value <= Power128(k)
    ensures |Sleb(value)| <= k
    decreases k
  {
    if !SlebEnds(value) {
      hide Sleb, Power128;
      SlebUnrolled(value);
      PowerUnrolled(k);
      PowerUnrolled(k - 1);
      if k > 1 {
        SeventhPlace(value, value / 128, 64 * Power128(k - 2));
        SlebFits(value / 128, k - 1);
      }
    }
  }

  lemma SeventhPlace(value: int, high: int, half: int)
    requires high == value / 128 && -128 * half <= value < 128 * half
    ensures -half <= high < half
  {
    assert 128 * high <= value < 128 * high + 128;
    assert 128 * high < 128 * half && 128 * (high + 1) > -128 * half;
  }

  lemma PowerUnrolled(k: nat)
    ensures Power128(k) == if k == 0 then 1 else 128 * Power128(k - 1)
  {
  }

  lemma TenBytesEnough()
    ensures forall v: nat | v < U64_LIMIT :: |Uleb(v)| <= 10
    ensures forall v | I64_MIN <= v <= I64_MAX :: |Sleb(v)| <= 10
  {
    assert Power128(5) == 0x8_0000_0000;
    assert Power128(10) == 128 * 128 * 128 * 128 * 128 * Power128(5);
    forall v: nat | v < U64_LIMIT
      ensures |Uleb(v)| <= 10
    {
      UlebFits(v, 10);
    }
    forall v | I64_MIN <= v <= I64_MAX
      ensures |Sleb(v)| <= 10
    {
      SlebFits(v, 10);
    }
  }

  lemma UlebUnrolled(value: nat)
    ensures Uleb(value) == if value / 128 == 0 then [value % 128] else [value % 128 + 128] + Uleb(value / 128)
    ensures |Uleb(value)| > 0
  {
  }

  // Any unsigned 64-bit number, into a buffer of ten bytes.
  method CgDwarfUleb(value: nat, out: array<nat>) returns (n: nat)
    requires value < U64_LIMIT && out.Length == 10
    modifies out
    ensures n <= 10 && out[..n] == Uleb(value)
  {
    hide Uleb;
    TenBytesEnough();
    var left, more := value, true;
    n := 0;
    while more
      invariant n <= |Uleb(value)| <= 10
      invariant if more then out[..n] + Uleb(left) == Uleb(value) else out[..n] == Uleb(value)
      decreases more, left
    {
      UlebUnrolled(left);
      var b := left % 128;
      left := left / 128;
      more := left != 0;
      if more {
        b := b + 128;
      }
      ghost var before := out[..n];
      assert before + ([b] + Uleb(left)) == before + [b] + Uleb(left);
      out[n] := b;
      n := n + 1;
      assert out[..n] == before + [b];
    }
  }

  // The byte just taken is the last exactly when its bit 6 agrees with what is left.
  lemma LastByte(value: int)
    ensures var b, left := value % 128, value / 128;
            SlebEnds(value) <==> (left == 0 && b < 64) || (left == -1 && b >= 64)
  {
  }

  lemma SlebUnrolled(value: int)
    ensures Sleb(value) == if SlebEnds(value) then [value % 128] else [value % 128 + 128] + Sleb(value / 128)
    ensures !SlebEnds(value) ==> (if value / 128 < 0 then -(value / 128) else value / 128) < (if value < 0 then -value else value)
  {
  }

  // Any signed 64-bit number; the shift is the arithmetic one.
  method CgDwarfSleb(value: int, out: array<nat>) returns (n: nat)
    requires I64_MIN <= value <= I64_MAX && out.Length == 10
    modifies out
    ensures n <= 10 && out[..n] == Sleb(value)
  {
    hide Sleb, SlebEnds;
    TenBytesEnough();
    var left, more := value, true;
    n := 0;
    while more
      invariant n <= |Sleb(value)| <= 10
      invariant if more then out[..n] + Sleb(left) == Sleb(value) else out[..n] == Sleb(value)
      decreases more, if left < 0 then -left else left
    {
      var b := left % 128;
      var sign := b / 64 % 2 == 1;
      ghost var was := left;
      left := left / 128;
      more := !((left == 0 && !sign) || (left == -1 && sign));
      LastByte(was);
      SlebUnrolled(was);
      if more {
        b := b + 128;
      }
      ghost var before := out[..n];
      out[n] := b;
      n := n + 1;
      assert out[..n] == before + [b];
    }
  }
}
