/** UTF-8 and UTF-16, read and written as literals need them: reading accepts
    exactly the well-formed sequences of RFC 3629, and undoes writing. */
module Utf8 {

  type Byte = b: nat | b < 256 witness 0

  predicate Scalar(v: nat) {
    v < 0xD800 || 0xE000 <= v <= 0x10FFFF
  }

  // --- the grammar, section 4 of RFC 3629 ------------------------------------------------

  predicate In(b: nat, low: nat, high: nat) {
    low <= b <= high
  }

  predicate Tail(b: nat) {
    In(b, 0x80, 0xBF)
  }

  predicate WellFormed(s: seq<Byte>) {
    || (|s| == 1 && s[0] <= 0x7F)
    || (|s| == 2 && In(s[0], 0xC2, 0xDF) && Tail(s[1]))
    || (|s| == 3 && Tail(s[2]) &&
        (|| (s[0] == 0xE0 && In(s[1], 0xA0, 0xBF))
         || (In(s[0], 0xE1, 0xEC) && Tail(s[1]))
         || (s[0] == 0xED && In(s[1], 0x80, 0x9F))
         || (In(s[0], 0xEE, 0xEF) && Tail(s[1]))))
    || (|s| == 4 && Tail(s[2]) && Tail(s[3]) &&
        (|| (s[0] == 0xF0 && In(s[1], 0x90, 0xBF))
         || (In(s[0], 0xF1, 0xF3) && Tail(s[1]))
         || (s[0] == 0xF4 && In(s[1], 0x80, 0x8F))))
  }

  // A well-formed sequence of n bytes starts at i.
  predicate WellFormedAt(s: seq<Byte>, i: nat, n: nat) {
    i + n <= |s| && WellFormed(s[i..i + n])
  }

  // No sequence begins another, so what starts at i is determined.
  lemma OneLength(s: seq<Byte>, i: nat, n: nat, m: nat)
    requires WellFormedAt(s, i, n) && WellFormedAt(s, i, m)
    ensures n == m
  {
    assert s[i..i + n][0] == s[i] == s[i..i + m][0];
  }

  // --- writing ---------------------------------------------------------------------------

  function PutUtf8(v: nat): (r: seq<Byte>)
    requires v < 0x20_0000
  {
    if v < 0x80 then [v]
    else if v < 0x800 then [0xC0 + v / 64, 0x80 + v % 64]
    else if v < 0x10000 then [0xE0 + v / 4096, 0x80 + v / 64 % 64, 0x80 + v % 64]
    else [0xF0 + v / 0x40000, 0x80 + v / 4096 % 64, 0x80 + v / 64 % 64, 0x80 + v % 64]
  }

  // The well-formed sequences are the ones written for scalar values, one each.
  lemma WrittenIsWellFormed(v: nat)
    requires v < 0x20_0000
    ensures Scalar(v) <==> WellFormed(PutUtf8(v))
  {
    if v >= 0x10000 {
      FourBytes(v);
    } else if v >= 0x800 {
      ThreeBytes(v);
    }
  }

  lemma ThreeBytes(v: nat)
    requires 0x800 <= v < 0x10000
    ensures Scalar(v) <==> WellFormed(PutUtf8(v))
  {
    var a, b, c := v / 4096, v / 64 % 64, v % 64;
    assert v == 4096 * a + 64 * b + c;
  }

  lemma FourBytes(v: nat)
    requires 0x10000 <= v < 0x20_0000
    ensures Scalar(v) <==> WellFormed(PutUtf8(v))
  {
    var a, b, c, d := v / 0x40000, v / 4096 % 64, v / 64 % 64, v % 64;
    FourDigits(v);
    assert PutUtf8(v) == [0xF0 + a, 0x80 + b, 0x80 + c, 0x80 + d];
  }

  lemma FourDigits(v: nat)
    ensures v == 0x40000 * (v / 0x40000) + 4096 * (v / 4096 % 64) + 64 * (v / 64 % 64) + v % 64
  {
    var x, y := v / 64, v / 4096;
    TwoDigits(v, x, y);
    ThreeDigits(v, y, v / 0x40000);
  }

  lemma TwoDigits(v: nat, x: nat, y: nat)
    requires x == v / 64 && y == v / 4096
    ensures y == x / 64 && v == 4096 * y + 64 * (x % 64) + v % 64
  {
    assert v == 64 * x + v % 64 && 4096 * y <= v < 4096 * y + 4096;
  }

  lemma ThreeDigits(v: nat, y: nat, z: nat)
    requires y == v / 4096 && z == v / 0x40000
    ensures z == y / 64 && y == 64 * z + y % 64
  {
    assert 4096 * y <= v < 4096 * y + 4096 && 0x40000 * z <= v < 0x40000 * z + 0x40000;
  }

  // --- reading ---------------------------------------------------------------------------

  // How many continuation bytes a lead byte asks for; -1 for no lead byte.
  function Continuations(lead: Byte): int {
    if lead < 0x80 then 0
    else if In(lead, 0xC2, 0xDF) then 1
    else if In(lead, 0xE0, 0xEF) then 2
    else if In(lead, 0xF0, 0xF4) then 3
    else -1
  }

  // The payload bits of the lead byte and the first k continuation bytes.
  function Gathered(s: seq<Byte>, i: nat, k: nat): nat
    requires i + k < |s| && Continuations(s[i]) >= 0
  {
    if k == 0 then
      (match Continuations(s[i]) case 0 => s[i] case 1 => s[i] % 32 case 2 => s[i] % 16 case _ => s[i] % 8)
    else Gathered(s, i, k - 1) * 64 + s[i + k] % 64
  }

  function LeastFor(continuations: nat): nat {
    match continuations
    case 0 => 0
    case 1 => 0x80
    case 2 => 0x800
    case _ => 0x10000
  }

  datatype Raw = Invalid | Raw(value: nat, next: nat)

  // The k - 1 bytes after i are continuation bytes.
  predicate TailsAfter(s: seq<Byte>, i: nat, k: nat) {
    forall j | i < j < i + k && j < |s| :: Tail(s[j])
  }

  // The value of the well-formed sequence at i, if there is one.
  function ReadUtf8(s: seq<Byte>, i: nat): Raw {
    if WellFormedAt(s, i, 1) then Raw(s[i], i + 1)
    else if WellFormedAt(s, i, 2) then Raw(ValueOf(s[i..i + 2]), i + 2)
    else if WellFormedAt(s, i, 3) then Raw(ValueOf(s[i..i + 3]), i + 3)
    else if WellFormedAt(s, i, 4) then Raw(ValueOf(s[i..i + 4]), i + 4)
    else Invalid
  }

  // Reading undoes writing, wherever the bytes stand.
  lemma Utf8ReadsBack(before: seq<Byte>, v: nat, rest: seq<Byte>)
    requires Scalar(v)
    ensures ReadUtf8(before + PutUtf8(v) + rest, |before|) == Raw(v, |before| + |PutUtf8(v)|)
  {
    var t, s, i := PutUtf8(v), before + PutUtf8(v) + rest, |before|;
    var n := |t|;
    assert s[i..i + n] == t;
    WrittenIsWellFormed(v);
    forall m: nat | WellFormedAt(s, i, m)
      ensures m == n
    {
      OneLength(s, i, n, m);
    }
    if v >= 0x80 {
      ValueOfWritten(v);
    }
  }

  lemma ValueOfWritten(v: nat)
    requires Scalar(v) && v >= 0x80
    ensures ValueOf(PutUtf8(v)) == v
  {
    if v >= 0x10000 {
      FourWritten(v);
    } else if v >= 0x800 {
      ThreeWritten(v);
    } else {
      var a: nat, b: nat := v / 64, v % 64;
      assert v == 64 * a + b;
    }
  }

  lemma ThreeWritten(v: nat)
    requires 0x800 <= v < 0x10000
    ensures ValueOf(PutUtf8(v)) == v
  {
    var a: nat, b: nat, c: nat := v / 4096, v / 64 % 64, v % 64;
    assert v == 4096 * a + 64 * b + c;
    assert (0xE0 + a) % 16 == a && (0x80 + b) % 64 == b && (0x80 + c) % 64 == c;
  }

  lemma FourWritten(v: nat)
    requires 0x10000 <= v < 0x20_0000
    ensures ValueOf(PutUtf8(v)) == v
  {
    var a: nat, b: nat, c: nat, d: nat := v / 0x40000, v / 4096 % 64, v / 64 % 64, v % 64;
    FourDigits(v);
    hide ValueOf;
    assert PutUtf8(v) == [0xF0 + a, 0x80 + b, 0x80 + c, 0x80 + d];
    FourByteSum(PutUtf8(v), a, b, c, d);
  }

  lemma NothingRead(s: seq<Byte>, i: nat)
    requires forall n: nat :: !WellFormedAt(s, i, n)
    ensures ReadUtf8(s, i) == Invalid
  {
  }

  lemma LongRead(s: seq<Byte>, i: nat, n: nat)
    requires n > 1 && WellFormedAt(s, i, n)
    ensures n <= 4 && ReadUtf8(s, i) == Raw(ValueOf(s[i..i + n]), i + n)
  {
    forall m: nat | WellFormedAt(s, i, m)
      ensures m == n
    {
      OneLength(s, i, n, m);
    }
  }

  // One scalar value from raw bytes, or nothing if they are not UTF-8.
  method DecodeRawUtf8(s: seq<Byte>, i: nat) returns (r: Raw)
    requires i < |s|
    ensures r == ReadUtf8(s, i)
    ensures r.Invalid? <==> forall n: nat :: !WellFormedAt(s, i, n)
    ensures r.Raw? ==> Scalar(r.value) && i < r.next <= |s| && s[i..r.next] == PutUtf8(r.value)
  {
    hide WellFormedAt, ReadUtf8, Gathered, PutUtf8, ValueOf;
    var lead := s[i];
    if lead < 0x80 {
      OneByte(s, i);
      return Raw(lead, i + 1);
    }
    var ncont := Continuations(lead);
    if ncont < 0 {
      Ends(s, i, 1);
      NothingRead(s, i);
      return Invalid;
    }
    var v, k := if ncont == 1 then lead % 32 else if ncont == 2 then lead % 16 else lead % 8, 1;
    GatheredStarts(s, i);
    while k <= ncont
      invariant 1 <= k <= ncont + 1 && i + k - 1 < |s| && v == Gathered(s, i, k - 1)
      invariant TailsAfter(s, i, k)
    {
      if i + k >= |s| || s[i + k] / 64 != 2 {
        Ends(s, i, k);
        NothingRead(s, i);
        return Invalid;
      }
      GatheredNext(s, i, k);
      v := v * 64 + s[i + k] % 64;
      k := k + 1;
    }
    GatheredWrites(s, i, ncont);
    GatheredIs(s, i, ncont);
    if v < LeastFor(ncont) || 0xD800 <= v <= 0xDFFF || v > 0x10FFFF {
      NothingRead(s, i);
      return Invalid;
    }
    LongRead(s, i, ncont + 1);
    return Raw(v, i + ncont + 1);
  }

  lemma OneByte(s: seq<Byte>, i: nat)
    requires i < |s| && s[i] < 0x80
    ensures s[i..i + 1] == PutUtf8(s[i]) && WellFormedAt(s, i, 1) && ReadUtf8(s, i) == Raw(s[i], i + 1)
  {
  }

  lemma GatheredStarts(s: seq<Byte>, i: nat)
    requires i < |s| && Continuations(s[i]) > 0
    ensures var n := Continuations(s[i]);
            Gathered(s, i, 0) == (if n == 1 then s[i] % 32 else if n == 2 then s[i] % 16 else s[i] % 8)
  {
  }

  lemma GatheredNext(s: seq<Byte>, i: nat, k: nat)
    requires 0 < k && i + k < |s| && Continuations(s[i]) > 0
    ensures Gathered(s, i, k) == Gathered(s, i, k - 1) * 64 + s[i + k] % 64
  {
  }

  // Fewer bytes than the lead byte asks for, or a byte that does not continue.
  lemma Ends(s: seq<Byte>, i: nat, k: nat)
    requires i < |s| && s[i] >= 0x80 && k >= 1 && (Continuations(s[i]) < 0 || k <= Continuations(s[i]))
    requires Continuations(s[i]) < 0 || i + k >= |s| || !Tail(s[i + k])
    ensures forall n: nat :: !WellFormedAt(s, i, n)
  {
    forall n: nat
      ensures !WellFormedAt(s, i, n)
    {
      if n > 0 && i + n <= |s| {
        var t := s[i..i + n];
        assert t[0] == s[i];
        assert k < n ==> t[k] == s[i + k];
      }
    }
  }

  // Gathering all the bits leaves a value that is written as those very bytes,
  // unless it is too small for so many bytes or no scalar value at all.
  lemma GatheredWrites(s: seq<Byte>, i: nat, n: nat)
    requires i + n < |s| && n == Continuations(s[i]) && n > 0 && TailsAfter(s, i, n + 1)
    ensures var v := Gathered(s, i, n);
            if v < LeastFor(n) || !Scalar(v) then forall m: nat :: !WellFormedAt(s, i, m)
            else s[i..i + n + 1] == PutUtf8(v) && WellFormedAt(s, i, n + 1)
  {
    var v, t := Gathered(s, i, n), s[i..i + n + 1];
    assert forall j | 0 <= j <= n :: t[j] == s[i + j];
    GatheredIs(s, i, n);
    BytesOfValue(t, v);
    forall m: nat | m != n + 1
      ensures !WellFormedAt(s, i, m)
    {
      OtherLength(s, i, m);
    }
  }

  lemma OtherLength(s: seq<Byte>, i: nat, m: nat)
    requires i < |s| && Continuations(s[i]) > 0 && m != Continuations(s[i]) + 1
    ensures !WellFormedAt(s, i, m)
  {
    if 0 < m && i + m <= |s| {
      assert s[i..i + m][0] == s[i];
    }
  }

  function ValueOf(t: seq<Byte>): nat
    requires 2 <= |t| <= 4
  {
    var a: nat, b: nat := t[0], t[1];
    if |t| == 2 then a % 32 * 64 + b % 64
    else
      var c: nat := t[2];
      if |t| == 3 then a % 16 * 4096 + b % 64 * 64 + c % 64
      else
        var d: nat := t[3];
        a % 8 * 0x40000 + b % 64 * 4096 + c % 64 * 64 + d % 64
  }

  lemma GatheredIs(s: seq<Byte>, i: nat, n: nat)
    requires i + n < |s| && n == Continuations(s[i]) && n > 0
    ensures Gathered(s, i, n) == ValueOf(s[i..i + n + 1])
  {
    var t := s[i..i + n + 1];
    assert forall j | 0 <= j <= n :: t[j] == s[i + j];
    assert Gathered(s, i, 1) == Gathered(s, i, 0) * 64 + t[1] % 64;
    if n >= 2 {
      assert Gathered(s, i, 2) == Gathered(s, i, 1) * 64 + t[2] % 64;
    }
  }

  lemma BytesOfValue(t: seq<Byte>, v: nat)
    requires 2 <= |t| <= 4 && |t| == Continuations(t[0]) + 1 && (forall j | 1 <= j < |t| :: Tail(t[j])) && v == ValueOf(t)
    ensures WellFormed(t) <==> v >= LeastFor(|t| - 1) && Scalar(v)
    ensures WellFormed(t) ==> t == PutUtf8(v)
  {
    if |t| == 2 {
      TwoByteValue(t, v);
    } else if |t| == 3 {
      ThreeByteValue(t, v);
    } else {
      FourByteValue(t, v);
    }
  }

  lemma TwoByteValue(t: seq<Byte>, v: nat)
    requires |t| == 2 && In(t[0], 0xC2, 0xDF) && Tail(t[1]) && v == ValueOf(t)
    ensures WellFormed(t) && v >= 0x80 && Scalar(v) && t == PutUtf8(v)
  {
    var a: int, b: int := t[0] - 0xC0, t[1] - 0x80;
    assert v == 64 * a + b;
  }

  lemma ThreeByteValue(t: seq<Byte>, v: nat)
    requires |t| == 3 && In(t[0], 0xE0, 0xEF) && Tail(t[1]) && Tail(t[2]) && v == ValueOf(t)
    ensures WellFormed(t) <==> v >= 0x800 && Scalar(v)
    ensures WellFormed(t) ==> t == PutUtf8(v)
  {
    var a: int, b: int, c: int := t[0] - 0xE0, t[1] - 0x80, t[2] - 0x80;
    assert v == 4096 * a + 64 * b + c;
    assert v / 4096 == a && v / 64 == 64 * a + b;
  }

  lemma FourByteValue(t: seq<Byte>, v: nat)
    requires |t| == 4 && In(t[0], 0xF0, 0xF4) && Tail(t[1]) && Tail(t[2]) && Tail(t[3]) && v == ValueOf(t)
    ensures WellFormed(t) <==> v >= 0x10000 && Scalar(v)
    ensures WellFormed(t) ==> t == PutUtf8(v)
  {
    var a: int, b: int, c: int, d: int := t[0] - 0xF0, t[1] - 0x80, t[2] - 0x80, t[3] - 0x80;
    FourByteSum(t, a, b, c, d);
    hide WellFormed, ValueOf, Scalar;
    DigitsBack(a, b, c, d, v);
    FourByteRange(t, v, a, b, c, d);
    if v >= 0x10000 {
      FourDigitsPut(v, a, b, c, d);
    }
  }

  lemma FourByteSum(t: seq<Byte>, a: nat, b: nat, c: nat, d: nat)
    requires a < 8 && b < 64 && c < 64 && d < 64 && t == [0xF0 + a, 0x80 + b, 0x80 + c, 0x80 + d]
    ensures ValueOf(t) == 0x40000 * a + 4096 * b + 64 * c + d
  {
    assert (0xF0 + a) % 8 == a && (0x80 + b) % 64 == b && (0x80 + c) % 64 == c && (0x80 + d) % 64 == d;
  }

  lemma FourDigitsPut(v: nat, a: nat, b: nat, c: nat, d: nat)
    requires 0x10000 <= v < 0x20_0000 && b < 64 && c < 64 && d < 64
    requires v / 0x40000 == a && v / 4096 == 64 * a + b && v / 64 == 4096 * a + 64 * b + c && v % 64 == d
    ensures PutUtf8(v) == [0xF0 + a, 0x80 + b, 0x80 + c, 0x80 + d]
  {
    assert v / 4096 % 64 == b && v / 64 % 64 == c;
  }

  lemma FourByteRange(t: seq<Byte>, v: nat, a: nat, b: nat, c: nat, d: nat)
    requires a <= 4 && b < 64 && c < 64 && d < 64 && v == 0x40000 * a + 4096 * b + 64 * c + d
    requires t == [0xF0 + a, 0x80 + b, 0x80 + c, 0x80 + d]
    ensures WellFormed(t) <==> v >= 0x10000 && Scalar(v)
  {
  }

  lemma DigitsBack(a: nat, b: nat, c: nat, d: nat, v: nat)
    requires b < 64 && c < 64 && d < 64 && v == 0x40000 * a + 4096 * b + 64 * c + d
    ensures v / 0x40000 == a && v / 4096 == 64 * a + b && v / 64 == 4096 * a + 64 * b + c && v % 64 == d
  {
  }

  // --- UTF-16 ------------------------------------------------------------------------------

  // Little-endian code units; a value past the first plane takes two.
  function PutU16(v: nat): (r: seq<Byte>)
    requires v < 0x1_0000_0000
  {
    if v >= 0x10000 then
      var x := v - 0x10000;
      var hi, lo := 0xD800 + x / 0x400, 0xDC00 + x % 0x400;
      [hi % 256, hi / 256 % 256, lo % 256, lo / 256 % 256]
    else [v % 256, v / 256]
  }

  function PutU32le(v: nat): (r: seq<Byte>)
    requires v < 0x1_0000_0000
  {
    [v % 256, v / 256 % 256, v / 0x10000 % 256, v / 0x100_0000]
  }

  function Unit(low: nat, high: nat): nat {
    low + 256 * high
  }

  // Section 2.2 of RFC 2781: the value at the front, and how many bytes it took.
  function ReadU16(s: seq<Byte>): (r: Raw)
  {
    if |s| < 2 then Invalid
    else
      var w: nat := Unit(s[0], s[1]);
      if w < 0xD800 || w > 0xDFFF then Raw(w, 2)
      else if w > 0xDBFF || |s| < 4 then Invalid
      else
        var w2: nat := Unit(s[2], s[3]);
        if w2 < 0xDC00 || w2 > 0xDFFF then Invalid else Raw(0x10000 + (w - 0xD800) * 0x400 + (w2 - 0xDC00), 4)
  }

  // What is written reads back exactly for scalar values: an escape past the
  // last plane, or of a lone surrogate, does not.
  lemma U16ReadsBackExactly(v: nat)
    requires v < 0x1_0000_0000
    ensures Scalar(v) <==> forall rest: seq<Byte> :: ReadU16(PutU16(v) + rest) == Raw(v, |PutU16(v)|)
  {
    if Scalar(v) {
      forall rest: seq<Byte>
        ensures ReadU16(PutU16(v) + rest) == Raw(v, |PutU16(v)|)
      {
        ScalarReadsBack(v, rest);
      }
    } else {
      var none: seq<Byte> := [];
      assert PutU16(v) + none == PutU16(v);
      OthersDoNot(v);
    }
  }

  lemma ScalarReadsBack(v: nat, rest: seq<Byte>)
    requires Scalar(v)
    ensures ReadU16(PutU16(v) + rest) == Raw(v, |PutU16(v)|)
  {
    var t, u := PutU16(v) + rest, PutU16(v);
    assert forall j | 0 <= j < |u| :: t[j] == u[j];
    if v < 0x10000 {
      assert Unit(u[0], u[1]) == v;
    } else {
      PairIs(v);
    }
  }

  lemma PairIs(v: nat)
    requires 0x10000 <= v <= 0x10FFFF
    ensures var u := PutU16(v);
            && |u| == 4 && 0xD800 <= Unit(u[0], u[1]) <= 0xDBFF && 0xDC00 <= Unit(u[2], u[3]) <= 0xDFFF
            && 0x10000 + (Unit(u[0], u[1]) - 0xD800) * 0x400 + (Unit(u[2], u[3]) - 0xDC00) == v
  {
    var x := v - 0x10000;
    var hi, lo := 0xD800 + x / 0x400, 0xDC00 + x % 0x400;
    assert hi <= 0xDBFF && hi / 256 < 256 && lo <= 0xDFFF && lo / 256 < 256;
    var u := PutU16(v);
    assert Unit(u[0], u[1]) == hi && Unit(u[2], u[3]) == lo;
  }

  lemma OthersDoNot(v: nat)
    requires !Scalar(v) && v < 0x1_0000_0000
    ensures ReadU16(PutU16(v)) != Raw(v, |PutU16(v)|)
  {
    var r := ReadU16(PutU16(v));
    if v > 0x10FFFF {
      assert r.Raw? ==> r.value <= 0x10FFFF;
    }
  }
}
