/** The spellings of the textual IR: what each numbered thing is called, and the
    search that finds its number again. */
module IrNames {

  // Value types.
  function TypeName(k: nat): string {
    match k
    case 0 => "i8"
    case 1 => "i16"
    case 2 => "i32"
    case 3 => "i64"
    case 4 => "f32"
    case 5 => "f64"
    case 6 => "f80"
    case 7 => "f128"
    case 8 => "ptr"
    case 9 => "v16i8"
    case 10 => "v8i16"
    case 11 => "v4i32"
    case 12 => "v2i64"
    case 13 => "v4f32"
    case 14 => "v2f64"
    case _ => "void"
  }

  // The number of a spelling; -1 when nothing is spelled so.
  function TypeNumber(s: string): int {
    if s == "i8" then 0
    else if s == "i16" then 1
    else if s == "i32" then 2
    else if s == "i64" then 3
    else if s == "f32" then 4
    else if s == "f64" then 5
    else if s == "f80" then 6
    else if s == "f128" then 7
    else if s == "ptr" then 8
    else if s == "v16i8" then 9
    else if s == "v8i16" then 10
    else if s == "v4i32" then 11
    else if s == "v2i64" then 12
    else if s == "v4f32" then 13
    else if s == "v2f64" then 14
    else if s == "void" then 15
    else -1
  }

  lemma TypeNameBack(k: nat)
    requires k < 16
    ensures TypeNumber(TypeName(k)) == k
  {
  }

  // Opcodes.
  function OpName(k: nat): string {
    match k
    case 0 => "iadd"
    case 1 => "isub"
    case 2 => "imul"
    case 3 => "sdiv"
    case 4 => "udiv"
    case 5 => "srem"
    case 6 => "urem"
    case 7 => "and"
    case 8 => "or"
    case 9 => "xor"
    case 10 => "shl"
    case 11 => "lshr"
    case 12 => "ashr"
    case 13 => "icmp"
    case 14 => "fcmp"
    case 15 => "fadd"
    case 16 => "fsub"
    case 17 => "fmul"
    case 18 => "fdiv"
    case 19 => "fneg"
    case 20 => "fabs"
    case 21 => "sext"
    case 22 => "zext"
    case 23 => "trunc"
    case 24 => "fpext"
    case 25 => "fptrunc"
    case 26 => "fptosi"
    case 27 => "fptoui"
    case 28 => "sitofp"
    case 29 => "uitofp"
    case 30 => "bitcast"
    case 31 => "alloca"
    case 32 => "load"
    case 33 => "store"
    case 34 => "ptradd"
    case 35 => "memcpy"
    case 36 => "memset"
    case 37 => "call"
    case 38 => "select"
    case 39 => "vsplat"
    case 40 => "vextract"
    case 41 => "vreduce_add"
    case 42 => "vreduce_mul"
    case 43 => "vreduce_and"
    case 44 => "vreduce_or"
    case 45 => "vreduce_xor"
    case 46 => "va_start"
    case 47 => "stacksave"
    case 48 => "stackrestore"
    case 49 => "atomicrmw"
    case 50 => "cmpxchg"
    case 51 => "asm"
    case 52 => "ret"
    case 53 => "br"
    case 54 => "condbr"
    case 55 => "switch"
    case _ => "unreachable"
  }

  // The number of a spelling; -1 when nothing is spelled so. Spellings are
  // told apart by their first letter first.
  function OpNumber(s: string): int {
    if s == "" then -1
    else if s[0] == 'a' then
      (if s == "and" then 7 else if s == "ashr" then 12 else if s == "alloca" then 31 else if s == "atomicrmw" then 49 else if s == "asm" then 51 else -1)
    else if s[0] == 'b' then
      (if s == "bitcast" then 30 else if s == "br" then 53 else -1)
    else if s[0] == 'c' then
      (if s == "call" then 37 else if s == "cmpxchg" then 50 else if s == "condbr" then 54 else -1)
    else if s[0] == 'f' then
      (if s == "fcmp" then 14 else if s == "fadd" then 15 else if s == "fsub" then 16 else if s == "fmul" then 17 else if s == "fdiv" then 18 else if s == "fneg" then 19 else if s == "fabs" then 20 else if s == "fpext" then 24 else if s == "fptrunc" then 25 else if s == "fptosi" then 26 else if s == "fptoui" then 27 else -1)
    else if s[0] == 'i' then
      (if s == "iadd" then 0 else if s == "isub" then 1 else if s == "imul" then 2 else if s == "icmp" then 13 else -1)
    else if s[0] == 'l' then
      (if s == "lshr" then 11 else if s == "load" then 32 else -1)
    else if s[0] == 'm' then
      (if s == "memcpy" then 35 else if s == "memset" then 36 else -1)
    else if s[0] == 'o' then
      (if s == "or" then 8 else -1)
    else if s[0] == 'p' then
      (if s == "ptradd" then 34 else -1)
    else if s[0] == 'r' then
      (if s == "ret" then 52 else -1)
    else if s[0] == 's' then
      (if s == "sdiv" then 3 else if s == "srem" then 5 else if s == "shl" then 10 else if s == "sext" then 21 else if s == "sitofp" then 28 else if s == "store" then 33 else if s == "select" then 38 else if s == "stacksave" then 47 else if s == "stackrestore" then 48 else if s == "switch" then 55 else -1)
    else if s[0] == 't' then
      (if s == "trunc" then 23 else -1)
    else if s[0] == 'u' then
      (if s == "udiv" then 4 else if s == "urem" then 6 else if s == "uitofp" then 29 else if s == "unreachable" then 56 else -1)
    else if s[0] == 'v' then
      (if s == "vsplat" then 39 else if s == "vextract" then 40 else if s == "vreduce_add" then 41 else if s == "vreduce_mul" then 42 else if s == "vreduce_and" then 43 else if s == "vreduce_or" then 44 else if s == "vreduce_xor" then 45 else if s == "va_start" then 46 else -1)
    else if s[0] == 'x' then
      (if s == "xor" then 9 else -1)
    else if s[0] == 'z' then
      (if s == "zext" then 22 else -1)
    else -1
  }

  lemma OpNameBack(k: nat)
    requires k < 57
    ensures OpNumber(OpName(k)) == k
  {
    hide OpName, OpNumber;
    if k < 20 {
      LowOpBack(k);
    } else if k < 39 {
      MiddleOpBack(k);
    } else {
      HighOpBack(k);
    }
  }

  lemma LowOpBack(k: nat)
    requires k < 20
    ensures OpNumber(OpName(k)) == k
  {
  }

  lemma MiddleOpBack(k: nat)
    requires 20 <= k < 39
    ensures OpNumber(OpName(k)) == k
  {
  }

  lemma HighOpBack(k: nat)
    requires 39 <= k < 57
    ensures OpNumber(OpName(k)) == k
  {
  }

  // Effective types of memory operations.
  function EtypeName(k: nat): string {
    match k
    case 0 => "unknown"
    case 1 => "char"
    case 2 => "i8"
    case 3 => "i16"
    case 4 => "i32"
    case 5 => "i64"
    case 6 => "f32"
    case 7 => "f64"
    case 8 => "f80"
    case 9 => "f128"
    case 10 => "ptr"
    case 11 => "aggregate"
    case _ => "union"
  }

  // The number of a spelling; -1 when nothing is spelled so.
  function EtypeNumber(s: string): int {
    if s == "unknown" then 0
    else if s == "char" then 1
    else if s == "i8" then 2
    else if s == "i16" then 3
    else if s == "i32" then 4
    else if s == "i64" then 5
    else if s == "f32" then 6
    else if s == "f64" then 7
    else if s == "f80" then 8
    else if s == "f128" then 9
    else if s == "ptr" then 10
    else if s == "aggregate" then 11
    else if s == "union" then 12
    else -1
  }

  lemma EtypeNameBack(k: nat)
    requires k < 13
    ensures EtypeNumber(EtypeName(k)) == k
  {
  }

  // Integer comparisons.
  function IcmpName(k: nat): string {
    match k
    case 0 => "eq"
    case 1 => "ne"
    case 2 => "slt"
    case 3 => "sle"
    case 4 => "sgt"
    case 5 => "sge"
    case 6 => "ult"
    case 7 => "ule"
    case 8 => "ugt"
    case _ => "uge"
  }

  // The number of a spelling; -1 when nothing is spelled so.
  function IcmpNumber(s: string): int {
    if s == "eq" then 0
    else if s == "ne" then 1
    else if s == "slt" then 2
    else if s == "sle" then 3
    else if s == "sgt" then 4
    else if s == "sge" then 5
    else if s == "ult" then 6
    else if s == "ule" then 7
    else if s == "ugt" then 8
    else if s == "uge" then 9
    else -1
  }

  lemma IcmpNameBack(k: nat)
    requires k < 10
    ensures IcmpNumber(IcmpName(k)) == k
  {
  }

  // Float comparisons.
  function FcmpName(k: nat): string {
    match k
    case 0 => "oeq"
    case 1 => "one"
    case 2 => "olt"
    case 3 => "ole"
    case 4 => "ogt"
    case 5 => "oge"
    case 6 => "ord"
    case 7 => "ueq"
    case 8 => "une"
    case 9 => "ult"
    case 10 => "ule"
    case 11 => "ugt"
    case 12 => "uge"
    case _ => "uno"
  }

  // The number of a spelling; -1 when nothing is spelled so.
  function FcmpNumber(s: string): int {
    if s == "oeq" then 0
    else if s == "one" then 1
    else if s == "olt" then 2
    else if s == "ole" then 3
    else if s == "ogt" then 4
    else if s == "oge" then 5
    else if s == "ord" then 6
    else if s == "ueq" then 7
    else if s == "une" then 8
    else if s == "ult" then 9
    else if s == "ule" then 10
    else if s == "ugt" then 11
    else if s == "uge" then 12
    else if s == "uno" then 13
    else -1
  }

  lemma FcmpNameBack(k: nat)
    requires k < 14
    ensures FcmpNumber(FcmpName(k)) == k
  {
  }

  // Atomic updates.
  function RmwName(k: nat): string {
    match k
    case 0 => "add"
    case 1 => "sub"
    case 2 => "and"
    case 3 => "or"
    case 4 => "xor"
    case _ => "xchg"
  }

  // The number of a spelling; -1 when nothing is spelled so.
  function RmwNumber(s: string): int {
    if s == "add" then 0
    else if s == "sub" then 1
    else if s == "and" then 2
    else if s == "or" then 3
    else if s == "xor" then 4
    else if s == "xchg" then 5
    else -1
  }

  lemma RmwNameBack(k: nat)
    requires k < 6
    ensures RmwNumber(RmwName(k)) == k
  {
  }
}
