/** The state machine that reads a line program, section 6.2 of the DWARF v4
    standard, for the opcodes the emitter uses. */
module LineMachine {
  import opened Leb128

  // Assembler labels stand for the addresses the linker puts in their place:
  // a row of a function, or the function's end.
  datatype Label = RowLabel(fn: nat, row: nat) | EndLabel(fn: nat)

  // The program as assembled: bytes, and eight-byte addresses.
  datatype Item = Byte(b: nat) | Quad(target: Label)

  datatype Address = NoAddress | At(target: Label)

  datatype Registers = Registers(address: Address, file: nat, line: int, prologueEnd: bool)

  datatype Row = Row(address: Address, file: nat, line: int, prologueEnd: bool, endSequence: bool)

  const Initial: Registers := Registers(NoAddress, 1, 1, false)

  const LNS_COPY: nat := 1
  const LNS_ADVANCE_LINE: nat := 3
  const LNS_SET_FILE: nat := 4
  const LNS_SET_PROLOGUE_END: nat := 10
  const LNE_END_SEQUENCE: nat := 1
  const LNE_SET_ADDRESS: nat := 2

  function LeadingBytes(items: seq<Item>): (r: seq<nat>)
    ensures |r| <= |items|
  {
    if items == [] || items[0].Quad? then [] else [items[0].b] + LeadingBytes(items[1..])
  }

  datatype Executed = Unknown | Executed(size: nat, regs: Registers, rows: seq<Row>)

  function RowOf(r: Registers, endSequence: bool): Row {
    Row(r.address, r.file, r.line, r.prologueEnd, endSequence)
  }

  // A length of nine covers the operation and an address; a length of one the
  // operation alone.
  function ExecuteExtended(items: seq<Item>, r: Registers): Executed {
    if |items| >= 4 && items[1] == Byte(9) && items[2] == Byte(LNE_SET_ADDRESS) && items[3].Quad? then
      Executed(4, r.(address := At(items[3].target)), [])
    else if |items| >= 3 && items[1] == Byte(1) && items[2] == Byte(LNE_END_SEQUENCE) then
      Executed(3, Initial, [RowOf(r, true)])
    else Unknown
  }

  function Execute(items: seq<Item>, r: Registers): (e: Executed)
    ensures e.Executed? ==> 0 < e.size <= |items|
  {
    if items == [] || items[0].Quad? then Unknown
    else if items[0].b == 0 then ExecuteExtended(items, r)
    else if items[0].b == LNS_COPY then Executed(1, r.(prologueEnd := false), [RowOf(r, false)])
    else if items[0].b == LNS_SET_PROLOGUE_END then Executed(1, r.(prologueEnd := true), [])
    else if items[0].b == LNS_ADVANCE_LINE then
      match ReadSleb(LeadingBytes(items[1..]))
      case Malformed => Unknown
      case Decoded(v, n) => Executed(1 + n, r.(line := r.line + v), [])
    else if items[0].b == LNS_SET_FILE then
      match ReadUleb(LeadingBytes(items[1..]))
      case Malformed => Unknown
      case Decoded(v, n) => Executed(1 + n, r.(file := v), [])
    else Unknown
  }

  datatype Outcome = Failed | Ran(regs: Registers, rows: seq<Row>)

  function Run(items: seq<Item>, r: Registers): Outcome
    decreases |items|
  {
    if items == [] then Ran(r, [])
    else
      match Execute(items, r)
      case Unknown => Failed
      case Executed(n, r', rows) =>
        match Run(items[n..], r')
        case Failed => Failed
        case Ran(r'', more) => Ran(r'', rows + more)
  }

  // --- running one piece after another -------------------------------------------------

  function Then(a: Outcome, more: seq<Item>): Outcome {
    match a
    case Failed => Failed
    case Ran(r, rows) => match Run(more, r) case Failed => Failed case Ran(r', rows') => Ran(r', rows + rows')
  }

  lemma {:induction false} LeadingJoin(xs: seq<Item>, ys: seq<Item>)
    ensures exists more :: LeadingBytes(xs + ys) == LeadingBytes(xs) + more
  {
    if xs == [] {
      assert xs + ys == ys;
      assert LeadingBytes(xs + ys) == LeadingBytes(xs) + LeadingBytes(ys);
    } else if xs[0].Quad? {
      assert LeadingBytes(xs + ys) == LeadingBytes(xs) + [];
    } else {
      LeadingJoin(xs[1..], ys);
      assert (xs + ys)[1..] == xs[1..] + ys;
      var more :| LeadingBytes(xs[1..] + ys) == LeadingBytes(xs[1..]) + more;
      assert LeadingBytes(xs + ys) == LeadingBytes(xs) + more;
    }
  }

  lemma ExecuteLocal(xs: seq<Item>, ys: seq<Item>, r: Registers)
    requires Execute(xs, r).Executed?
    ensures Execute(xs + ys, r) == Execute(xs, r)
  {
    if xs[0].b == LNS_ADVANCE_LINE || xs[0].b == LNS_SET_FILE {
      LeadingJoin(xs[1..], ys);
      assert (xs + ys)[1..] == xs[1..] + ys;
      var more :| LeadingBytes(xs[1..] + ys) == LeadingBytes(xs[1..]) + more;
      if xs[0].b == LNS_ADVANCE_LINE {
        SlebLocal(LeadingBytes(xs[1..]), more);
      } else {
        UlebLocal(LeadingBytes(xs[1..]), more);
      }
    }
  }

  lemma {:induction false} RunJoins(xs: seq<Item>, ys: seq<Item>, r: Registers)
    requires Run(xs, r).Ran?
    ensures Run(xs + ys, r) == Then(Run(xs, r), ys)
    decreases |xs|
  {
    hide Execute;
    if xs == [] {
      assert xs + ys == ys;
    } else {
      var e := Execute(xs, r);
      ExecuteLocal(xs, ys, r);
      RunJoins(xs[e.size..], ys, e.regs);
      assert (xs + ys)[e.size..] == xs[e.size..] + ys;
    }
  }

  // --- the pieces the emitter writes ----------------------------------------------------

  function AsItems(bytes: seq<nat>): (r: seq<Item>)
    ensures |r| == |bytes|
  {
    if bytes == [] then [] else [Byte(bytes[0])] + AsItems(bytes[1..])
  }

  lemma {:induction false} AsItemsLead(bytes: seq<nat>)
    ensures LeadingBytes(AsItems(bytes)) == bytes
  {
    if bytes != [] {
      AsItemsLead(bytes[1..]);
      assert AsItems(bytes)[1..] == AsItems(bytes[1..]);
    }
  }

  function SetFile(file: nat): seq<Item> {
    [Byte(LNS_SET_FILE)] + AsItems(Uleb(file))
  }

  function AdvanceLine(delta: int): seq<Item> {
    [Byte(LNS_ADVANCE_LINE)] + AsItems(Sleb(delta))
  }

  function SetAddress(target: Label): seq<Item> {
    [Byte(0), Byte(9), Byte(LNE_SET_ADDRESS), Quad(target)]
  }

  const Copy: seq<Item> := [Byte(LNS_COPY)]
  const SetPrologueEnd: seq<Item> := [Byte(LNS_SET_PROLOGUE_END)]
  const EndSequence: seq<Item> := [Byte(0), Byte(1), Byte(LNE_END_SEQUENCE)]

  lemma RunOne(items: seq<Item>, r: Registers)
    requires items != [] && Execute(items, r).Executed? && Execute(items, r).size == |items|
    ensures Run(items, r) == Ran(Execute(items, r).regs, Execute(items, r).rows)
  {
    assert items[|items|..] == [];
  }

  lemma RunSetFile(file: nat, r: Registers)
    ensures Run(SetFile(file), r) == Ran(r.(file := file), [])
  {
    var bytes := Uleb(file);
    AsItemsLead(bytes);
    UlebReadsBack(file, []);
    assert bytes + [] == bytes && SetFile(file)[1..] == AsItems(bytes);
    RunOne(SetFile(file), r);
  }

  lemma RunAdvanceLine(delta: int, r: Registers)
    ensures Run(AdvanceLine(delta), r) == Ran(r.(line := r.line + delta), [])
  {
    var bytes := Sleb(delta);
    AsItemsLead(bytes);
    SlebReadsBack(delta, []);
    assert bytes + [] == bytes && AdvanceLine(delta)[1..] == AsItems(bytes);
    RunOne(AdvanceLine(delta), r);
  }

  lemma RunSimple(target: Label, r: Registers)
    ensures Run(SetAddress(target), r) == Ran(r.(address := At(target)), [])
    ensures Run(Copy, r) == Ran(r.(prologueEnd := false), [RowOf(r, false)])
    ensures Run(SetPrologueEnd, r) == Ran(r.(prologueEnd := true), [])
    ensures Run(EndSequence, r) == Ran(Initial, [RowOf(r, true)])
  {
    RunOne(SetAddress(target), r);
    RunOne(Copy, r);
    RunOne(SetPrologueEnd, r);
    RunOne(EndSequence, r);
  }

  // --- special opcodes ------------------------------------------------------------------

  const LINE_BASE: int := -5
  const LINE_RANGE: nat := 14
  const OPCODE_BASE: nat := 13

  // What the state machine adds to line and address for a special opcode.
  predicate SpecialMeans(opcode: nat, lineDelta: int, addressDelta: nat) {
    && OPCODE_BASE <= opcode <= 255
    && lineDelta == LINE_BASE + (opcode - OPCODE_BASE) % LINE_RANGE && addressDelta == (opcode - OPCODE_BASE) / LINE_RANGE
  }

  datatype Special = NotSpecial | Opcode(code: nat)

  // A special opcode is found whenever there is one, and there is at most one.
  function CgDwarfSpecial(lineDelta: int, addressDelta: nat): (r: Special)
    ensures r.Opcode? ==> SpecialMeans(r.code, lineDelta, addressDelta)
    ensures forall code: nat | SpecialMeans(code, lineDelta, addressDelta) :: r == Opcode(code)
  {
    if lineDelta < -5 || lineDelta > 8 || addressDelta > 17 then NotSpecial
    else
      var adjusted := lineDelta + 5 + 14 * addressDelta;
      if adjusted + 13 > 255 then NotSpecial else Opcode(adjusted + 13)
  }
}
