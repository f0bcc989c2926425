/** A function that does not survive its own text: a call passes a value whose
    definition comes later in layout order, in an argument marked anonymous. */
module IrLostFlag {
  import opened Ir
  import opened IrMarks
  import opened IrPrint
  import opened IrParse
  import opened IrTripOperands
  import opened IrTripBlocks
  import opened IrTripFunc
  import opened IrRoundTrip
  import opened IrRecords
  import opened IrModuleText
  import Renumbering

  const One: Operand := Operand(OpIconst, TYPE_I32, 0, 0, 1, 0)
  const Flagged: Operand := Operand(OpValue, TYPE_I32, ARG_ANON, 0, 1, 0)

  function Br(target: nat): Inst {
    Inst(0, OP_BR, TYPE_VOID, 0, 0, 0, 0, [], [Edge(target, [], 0)])
  }

  const Call: Inst := Inst(0, OP_CALL, TYPE_VOID, CALL_EXTERNAL, FLAG_VARIADIC, 0, 1, [Flagged], [])
  const Ret: Inst := Inst(0, IR_RET, TYPE_VOID, 0, 0, 0, 0, [], [])
  const Add: Inst := Inst(0, 0, TYPE_I32, 0, 0, 1, 0, [One, One], [])

  // entry: br late;  use: call @g(i32 %0 anon) va, ret;  late: %0 = iadd 1, 1, br use
  const F: Func := Func([], [Block("entry", [], [Br(3)]), Block("use", [], [Call, Ret]), Block("late", [], [Add, Br(2)])],
                        [ValInfo(TYPE_I32, DefInst, 3, 0)])

  const M: Module :=
    Module([], ["f", "g"], [UNMARKED, UNMARKED], [], [], [FuncText(Header(TYPE_VOID, "f", false, [], NO_MARKS), F)])

  lemma DefsOfF()
    ensures Renumbering.DefsBefore(F, 0) == [] && Renumbering.DefsBefore(F, 1) == [] && Renumbering.DefsBefore(F, 2) == []
    ensures Renumbering.Defs(F) == [1]
  {
    assert Renumbering.Results(F.blocks[0].insts) == [0];
    assert Renumbering.NonZero([0]) == [] by {
      assert [0][..0] == [];
    }
    assert Renumbering.Results(F.blocks[1].insts) == [0, 0];
    assert Renumbering.NonZero([0, 0]) == [] by {
      assert [0, 0][..1] == [0];
    }
    assert Renumbering.Results(F.blocks[2].insts) == [1, 0];
    assert Renumbering.NonZero([1, 0]) == [1] by {
      assert [1, 0][..1] == [1] && [1][..0] == [];
    }
  }

  lemma CanonicalF()
    ensures Canonical(F)
  {
    DefsOfF();
  }

  lemma FlagLost()
    ensures LosesFlag(F, 1, 0, 0)
  {
    DefsOfF();
    assert Renumbering.Results(F.blocks[1].insts)[..1] == [0];
    assert [0][..0] == [];
  }

  lemma InstsOkF(m: ModuleNames)
    requires m.syms == ["f", "g"]
    ensures InstOk(m, F, Br(3)) && InstOk(m, F, Br(2)) && InstOk(m, F, Ret) && InstOk(m, F, Add)
  {
  }

  lemma CallOkF(m: ModuleNames)
    requires m.syms == ["f", "g"] && m.funcs == ["f"]
    ensures InstOk(m, F, Call)
  {
    assert ArgOk(m, F, Flagged);
  }

  // The module is fit to print, and yet does not come back as it was.
  lemma FlagDoesNotSurvive()
    ensures ModuleOk(M) && ModuleShaped(M)
    ensures ParseModule(ModuleToks(M)) != ParsedModule(ContentsOf(M, AllPrinted(M.funcs)))
  {
    hide InstOk, Canonical, LosesFlag, ParseModule, ModuleToks;
    var m := NamesOf(M);
    assert m.funcs == ["f"];
    CanonicalF();
    InstsOkF(m);
    CallOkF(m);
    PrintableF(m);
    NamesOkF();
    ShapedF(m);
    assert FuncTextOk(m, M.funcs[0]);
    FlagLost();
    ModuleRoundTripExactly(M);
    assert LosesFlag(M.funcs[0].func, 1, 0, 0);
  }

  lemma PrintableF(m: ModuleNames)
    requires m.syms == ["f", "g"] && Canonical(F)
    requires InstOk(m, F, Br(3)) && InstOk(m, F, Br(2)) && InstOk(m, F, Ret) && InstOk(m, F, Add) && InstOk(m, F, Call)
    ensures FuncOk(m, F)
  {
    hide InstOk, Canonical;
    assert BlockPrintable(m, F, F.blocks[0]) && BlockPrintable(m, F, F.blocks[1]) && BlockPrintable(m, F, F.blocks[2]);
  }

  lemma ShapedF(m: ModuleNames)
    requires FuncOk(m, F)
    ensures FuncShaped(F)
  {
    FuncIsShaped(m, F);
  }

  lemma NamesOkF()
    ensures NamesOk(F)
  {
    hide Reserved;
    FreeLabels();
    assert BlockNames(F, 0) == ["entry", "use", "late"];
  }

  lemma FreeLabels()
    ensures !Reserved("entry") && !Reserved("use") && !Reserved("late")
  {
  }
}
