/** One element of a character or string literal: an escape, a universal character
    name or a plain character. */
module Escapes {
  import opened Utf8

  const QUOTE: nat := 34
  const BACKSLASH: nat := 92
  const U32_LIMIT: nat := 0x1_0000_0000

  datatype Ch = Bad | Ch(value: nat, next: nat, ucn: bool)

  // A universal character name may not name a basic character, bar three, nor
  // a surrogate, nor anything past the last plane.
  predicate UcnValueOk(v: nat) {
    if v < 0xA0 then v == 0x24 || v == 0x40 || v == 0x60
    else if 0xD800 <= v <= 0xDFFF then false
    else v <= 0x10FFFF
  }

  // --- digits --------------------------------------------------------------------------

  function HexDigit(b: Byte): int {
    if 48 <= b <= 57 then b - 48
    else if 97 <= b <= 102 then b - 87
    else if 65 <= b <= 70 then b - 55
    else -1
  }

  predicate OctalDigit(b: Byte) {
    48 <= b <= 55
  }

  // The end of the digits starting at i, at most `most` of them.
  function OctalEnd(s: seq<Byte>, i: nat, most: nat): (e: nat)
    requires i <= |s|
    ensures i <= e <= |s| && e <= i + most
    decreases most
  {
    if most == 0 || i == |s| || !OctalDigit(s[i]) then i else OctalEnd(s, i + 1, most - 1)
  }

  function HexEnd(s: seq<Byte>, i: nat, most: nat): (e: nat)
    requires i <= |s|
    ensures i <= e <= |s| && e <= i + most && forall k | i <= k < e :: HexDigit(s[k]) >= 0
    decreases most
  {
    if most == 0 || i == |s| || HexDigit(s[i]) < 0 then i else HexEnd(s, i + 1, most - 1)
  }

  function OctalValue(s: seq<Byte>, i: nat, e: nat): nat
    requires i <= e <= |s|
  {
    if e == i then 0
    else
      var d: int := s[e - 1];
      OctalValue(s, i, e - 1) * 8 + if d >= 48 then d - 48 else 0
  }

  // The number the digits write.
  function HexNumber(s: seq<Byte>, i: nat, e: nat): nat
    requires i <= e <= |s| && forall k | i <= k < e :: HexDigit(s[k]) >= 0
  {
    if e == i then 0 else HexNumber(s, i, e - 1) * 16 + HexDigit(s[e - 1])
  }

  const SATURATED: nat := 0x1000_0000

  // The number as far as it fits 32 bits.
  function HexValue(s: seq<Byte>, i: nat, e: nat): (v: nat)
    requires i <= e <= |s| && forall k | i <= k < e :: HexDigit(s[k]) >= 0
    ensures v < U32_LIMIT
  {
    if e == i then 0
    else if HexValue(s, i, e - 1) > 0x0FFF_FFFF then SATURATED
    else HexValue(s, i, e - 1) * 16 + HexDigit(s[e - 1])
  }

  // Saturation sets in exactly when the number does not fit.
  lemma {:induction false} HexExactlyWhenItFits(s: seq<Byte>, i: nat, e: nat)
    requires i <= e <= |s| && forall k | i <= k < e :: HexDigit(s[k]) >= 0
    ensures HexValue(s, i, e) == if HexNumber(s, i, e) < U32_LIMIT then HexNumber(s, i, e) else SATURATED
  {
    if i < e {
      HexExactlyWhenItFits(s, i, e - 1);
    }
  }

  // Up to eight digits always fit.
  lemma {:induction false} EightDigitsFit(s: seq<Byte>, i: nat, e: nat, n: nat)
    requires i <= e <= |s| && e - i <= n <= 8 && forall k | i <= k < e :: HexDigit(s[k]) >= 0
    ensures HexNumber(s, i, e) < Power16(n) <= U32_LIMIT
  {
    if i < e {
      EightDigitsFit(s, i, e - 1, n - 1);
    } else {
      PowerFits(n);
    }
  }

  function Power16(n: nat): nat {
    if n == 0 then 1 else 16 * Power16(n - 1)
  }

  lemma PowerFits(n: nat)
    requires n <= 8
    ensures 0 < Power16(n) <= U32_LIMIT
  {
    assert Power16(4) == 0x10000;
    if n > 4 {
      assert n == 5 || n == 6 || n == 7 || n == 8;
    } else {
      assert n == 0 || n == 1 || n == 2 || n == 3 || n == 4;
    }
  }

  // --- what one element stands for --------------------------------------------------------

  // The letters that stand for one character each; -1 for any other.
  function Simple(b: Byte): int {
    if b == 110 then 10
    else if b == 116 then 9
    else if b == 114 then 13
    else if b == 97 then 7
    else if b == 98 then 8
    else if b == 102 then 12
    else if b == 118 then 11
    else if b == BACKSLASH || b == 39 || b == QUOTE || b == 63 then b as int
    else if b == 101 then 27
    else -1
  }

  function Escape(s: seq<Byte>, i: nat): Ch
    requires i < |s|
  {
    if Simple(s[i]) >= 0 then Ch(Simple(s[i]), i + 1, false)
    else if OctalDigit(s[i]) then
      var e := OctalEnd(s, i, 3);
      Ch(OctalValue(s, i, e), e, false)
    else if s[i] == 120 then
      var e := HexEnd(s, i + 1, |s|);
      if e == i + 1 then Bad else Ch(HexValue(s, i + 1, e), e, false)
    else if s[i] == 117 || s[i] == 85 then
      var want := if s[i] == 117 then 4 else 8;
      var e := HexEnd(s, i + 1, want);
      if e != i + 1 + want || !UcnValueOk(HexNumber(s, i + 1, e)) then Bad else Ch(HexNumber(s, i + 1, e), e, true)
    else Bad
  }

  function Element(s: seq<Byte>, i: nat, wide: bool): Ch
    requires i < |s|
  {
    if s[i] == BACKSLASH then
      if i + 1 == |s| then Bad else Escape(s, i + 1)
    else if wide then
      match ReadUtf8(s, i)
      case Invalid => Bad
      case Raw(v, n) => Ch(v, n, false)
    else Ch(s[i], i + 1, false)
  }

  lemma ElementMoves(s: seq<Byte>, i: nat, wide: bool)
    requires i < |s|
    ensures var c := Element(s, i, wide); c.Ch? ==> i < c.next <= |s| && c.value < U32_LIMIT && (c.ucn ==> Scalar(c.value))
  {
    hide HexValue, HexNumber, OctalValue, ReadUtf8, ValueOf;
    if s[i] == BACKSLASH {
      if i + 1 < |s| && OctalDigit(s[i + 1]) {
        ThreeOctalDigits(s, i + 1, OctalEnd(s, i + 1, 3));
      }
    } else if wide {
      RawMoves(s, i);
    }
  }

  lemma RawMoves(s: seq<Byte>, i: nat)
    requires i < |s|
    ensures var r := ReadUtf8(s, i); r.Raw? ==> i < r.next <= |s| && Scalar(r.value) && s[i..r.next] == PutUtf8(r.value)
  {
    hide ValueOf, PutUtf8;
    var r := ReadUtf8(s, i);
    if r.Raw? && r.next > i + 1 {
      WellFormedBytes(s[i..r.next]);
    } else if r.Raw? {
      assert s[i..i + 1][0] == s[i];
      OneByte(s, i);
    }
  }

  lemma WellFormedBytes(t: seq<Byte>)
    requires WellFormed(t) && |t| > 1
    ensures Scalar(ValueOf(t)) && t == PutUtf8(ValueOf(t))
  {
    BytesOfValue(t, ValueOf(t));
  }

  lemma ThreeOctalDigits(s: seq<Byte>, i: nat, e: nat)
    requires i <= e <= |s| && e <= i + 3 && forall k | i <= k < |s| :: s[k] < 256
    ensures OctalValue(s, i, e) < 0x10_0000
  {
    if e > i {
      assert OctalValue(s, i, i) == 0;
      if e > i + 1 {
        assert OctalValue(s, i, i + 1) < 256;
        if e > i + 2 {
          assert OctalValue(s, i, i + 2) < 3000;
        }
      }
    }
  }

  // --- the decoder ---------------------------------------------------------------------------

  method DecodeChar(s: seq<Byte>, i: nat, wide: bool) returns (c: Ch)
    requires i < |s|
    ensures c == Element(s, i, wide)
  {
    hide ReadUtf8, Escape;
    if s[i] != BACKSLASH {
      if wide {
        var r := DecodeRawUtf8(s, i);
        return match r case Invalid => Bad case Raw(v, n) => Ch(v, n, false);
      }
      return Ch(s[i], i + 1, false);
    }
    if i + 1 >= |s| {
      return Bad;
    }
    c := DecodeEscape(s, i + 1);
  }

  method DecodeEscape(s: seq<Byte>, i: nat) returns (c: Ch)
    requires i < |s|
    ensures c == Escape(s, i)
  {
    if Simple(s[i]) >= 0 {
      return Ch(Simple(s[i]), i + 1, false);
    }
    if OctalDigit(s[i]) {
      var v, e := DecodeOctal(s, i);
      return Ch(v, e, false);
    }
    if s[i] == 120 {
      var v, e := DecodeHex(s, i + 1);
      return if e == i + 1 then Bad else Ch(v, e, false);
    }
    if s[i] == 117 || s[i] == 85 {
      var want := if s[i] == 117 then 4 else 8;
      var v, e := DecodeUcn(s, i + 1, want);
      return if e != i + 1 + want || !UcnValueOk(v) then Bad else Ch(v, e, true);
    }
    return Bad;
  }

  method DecodeOctal(s: seq<Byte>, i: nat) returns (v: nat, e: nat)
    requires i < |s|
    ensures e == OctalEnd(s, i, 3) && v == OctalValue(s, i, e)
  {
    v, e := 0, i;
    var k := 0;
    while k < 3 && e < |s| && OctalDigit(s[e])
      invariant k <= 3 && e == i + k <= |s| && v == OctalValue(s, i, e)
      invariant OctalEnd(s, i, 3) == OctalEnd(s, e, 3 - k)
    {
      v := v * 8 + (s[e] - 48);
      e, k := e + 1, k + 1;
    }
  }

  method DecodeHex(s: seq<Byte>, i: nat) returns (v: nat, e: nat)
    requires i <= |s|
    ensures e == HexEnd(s, i, |s|) && v == HexValue(s, i, e)
  {
    v, e := 0, i;
    while e < |s| && HexDigit(s[e]) >= 0
      invariant i <= e <= |s| && (forall k | i <= k < e :: HexDigit(s[k]) >= 0) && v == HexValue(s, i, e)
      invariant HexEnd(s, i, |s|) == HexEnd(s, e, |s| - (e - i))
    {
      if v > 0x0FFF_FFFF {
        v := 0x1000_0000;
      } else {
        v := v * 16 + HexDigit(s[e]);
      }
      e := e + 1;
    }
  }

  // The digits of a universal character name, no more than wanted.
  method DecodeUcn(s: seq<Byte>, i: nat, want: nat) returns (v: nat, e: nat)
    requires i <= |s|
    ensures e == HexEnd(s, i, want) && v == HexNumber(s, i, e)
  {
    v, e := 0, i;
    while e - i < want && e < |s| && HexDigit(s[e]) >= 0
      invariant i <= e <= |s| && e - i <= want && (forall k | i <= k < e :: HexDigit(s[k]) >= 0) && v == HexNumber(s, i, e)
      invariant HexEnd(s, i, want) == HexEnd(s, e, want - (e - i))
    {
      v := v * 16 + HexDigit(s[e]);
      e := e + 1;
    }
  }
}
