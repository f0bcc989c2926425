/** Binary128 operations as calls into the soft-float runtime: which helper stands
    for which operation, and how each comparison predicate is decided from the
    integer a helper returns. */
module Binary128 {
  import opened Shared
  import opened Ir

  const TYPE_I64: nat := 3
  const TYPE_F32: nat := 4
  const TYPE_F64: nat := 5
  const TYPE_F80: nat := 6

  const IR_FADD: nat := 15
  const IR_FSUB: nat := 16
  const IR_FMUL: nat := 17
  const IR_FDIV: nat := 18
  const IR_FNEG: nat := 19
  const IR_FABS: nat := 20
  const IR_FPEXT: nat := 24
  const IR_FPTRUNC: nat := 25
  const IR_FPTOSI: nat := 26
  const IR_FPTOUI: nat := 27
  const IR_SITOFP: nat := 28
  const IR_UITOFP: nat := 29
  const IR_SELECT: nat := 38

  const FCMP_ONE: nat := 1
  const FCMP_UEQ: nat := 7
  const FCMP_UNO: nat := 13

  const ICMP_EQ: nat := 0
  const ICMP_NE: nat := 1
  const ICMP_SLT: nat := 2
  const ICMP_SLE: nat := 3
  const ICMP_SGT: nat := 4
  const ICMP_SGE: nat := 5

  // --- comparisons -------------------------------------------------------------------

  // How two floating-point values compare; a NaN is unordered with everything.
  datatype Ordering = Less | Equal | Greater | Unordered

  // The IEEE meaning: a relation holds of some of the three ordered outcomes,
  // and of the unordered one exactly for the u-predicates.
  predicate FcmpHolds(pred: nat, o: Ordering) {
    o in (match pred
          case 0 => {Equal}
          case 1 => {Less, Greater}
          case 2 => {Less}
          case 3 => {Less, Equal}
          case 4 => {Greater}
          case 5 => {Greater, Equal}
          case 6 => {Less, Equal, Greater}
          case 7 => {Unordered, Equal}
          case 8 => {Unordered, Less, Greater}
          case 9 => {Unordered, Less}
          case 10 => {Unordered, Less, Equal}
          case 11 => {Unordered, Greater}
          case 12 => {Unordered, Greater, Equal}
          case 13 => {Unordered}
          case _ => {})
  }

  predicate IcmpHolds(pred: nat, a: int, b: int) {
    match pred
    case 0 => a == b
    case 1 => a != b
    case 2 => a < b
    case 3 => a <= b
    case 4 => a > b
    case 5 => a >= b
    case _ => false
  }

  const Comparators: set<string> :=
    {"__eqtf2", "__netf2", "__lttf2", "__letf2", "__gttf2", "__getf2", "__unordtf2"}

  // The runtime's three-way comparison, with its own answer for NaN.
  function Cmp3(o: Ordering, unordered: int): int {
    match o
    case Less => -1
    case Equal => 0
    case Greater => 1
    case Unordered => unordered
  }

  function RuntimeCompare(name: string, o: Ordering): int {
    if name == "__unordtf2" then if o == Unordered then 1 else 0
    else if name == "__gttf2" || name == "__getf2" then Cmp3(o, -1)
    else Cmp3(o, 1)
  }

  // One call tested against zero, or two such tests combined.
  datatype CmpPlan =
    | OneCall(call: string, pred: nat)
    | TwoCalls(call: string, pred: nat, call2: string, pred2: nat, combine: nat)

  function ComparePlan(pred: nat): (r: Option<CmpPlan>)
    ensures r.Some? <==> pred <= FCMP_UNO
  {
    match pred
    case 0 => Some(OneCall("__eqtf2", ICMP_EQ))
    case 8 => Some(OneCall("__netf2", ICMP_NE))
    case 2 => Some(OneCall("__lttf2", ICMP_SLT))
    case 3 => Some(OneCall("__letf2", ICMP_SLE))
    case 4 => Some(OneCall("__gttf2", ICMP_SGT))
    case 5 => Some(OneCall("__getf2", ICMP_SGE))
    case 12 => Some(OneCall("__lttf2", ICMP_SGE))
    case 11 => Some(OneCall("__letf2", ICMP_SGT))
    case 10 => Some(OneCall("__gttf2", ICMP_SLE))
    case 9 => Some(OneCall("__getf2", ICMP_SLT))
    case 13 => Some(OneCall("__unordtf2", ICMP_NE))
    case 6 => Some(OneCall("__unordtf2", ICMP_EQ))
    case 1 => Some(TwoCalls("__unordtf2", ICMP_EQ, "__netf2", ICMP_NE, IR_AND))
    case 7 => Some(TwoCalls("__unordtf2", ICMP_NE, "__eqtf2", ICMP_EQ, IR_OR))
    case _ => None
  }

  predicate TestHolds(call: string, pred: nat, o: Ordering) {
    IcmpHolds(pred, RuntimeCompare(call, o), 0)
  }

  predicate PlanHolds(plan: CmpPlan, o: Ordering) {
    match plan
    case OneCall(call, pred) => TestHolds(call, pred, o)
    case TwoCalls(call, pred, call2, pred2, combine) =>
      if combine == IR_AND then TestHolds(call, pred, o) && TestHolds(call2, pred2, o)
      else TestHolds(call, pred, o) || TestHolds(call2, pred2, o)
  }

  // Every predicate is decided correctly, NaN included.
  lemma PlanDecides(pred: nat, o: Ordering)
    requires pred <= FCMP_UNO
    ensures var plan := ComparePlan(pred).value;
            && (PlanHolds(plan, o) <==> FcmpHolds(pred, o))
            && plan.call in Comparators && plan.pred <= ICMP_SGE
            && (plan.TwoCalls? ==> plan.call2 in Comparators && plan.pred2 <= ICMP_SGE && plan.combine in {IR_AND, IR_OR})
  {
    match o
    case Less =>
    case Equal =>
    case Greater =>
    case Unordered =>
  }

  // Two predicates need two calls, and no single call would do for them.
  lemma OneCallNotEnough(pred: nat)
    requires pred <= FCMP_UNO
    ensures ComparePlan(pred).value.TwoCalls? <==>
              !exists call, test :: call in Comparators && OneTestDecides(pred, call, test)
  {
    if ComparePlan(pred).value.OneCall? {
      var plan := ComparePlan(pred).value;
      forall o: Ordering
        ensures TestHolds(plan.call, plan.pred, o) <==> FcmpHolds(pred, o)
      {
        PlanDecides(pred, o);
      }
      PlanDecides(pred, Less);
      assert OneTestDecides(pred, plan.call, plan.pred);
    } else {
      forall call, test | call in Comparators
        ensures !OneTestDecides(pred, call, test)
      {
        NoTestDecides(pred, call, test);
      }
    }
  }

  ghost predicate OneTestDecides(pred: nat, call: string, test: nat) {
    test <= ICMP_SGE && forall o: Ordering :: TestHolds(call, test, o) <==> FcmpHolds(pred, o)
  }

  lemma NoTestDecides(pred: nat, call: string, test: nat)
    requires pred == FCMP_ONE || pred == FCMP_UEQ
    ensures !OneTestDecides(pred, call, test)
  {
    assert !(&& (TestHolds(call, test, Less) <==> FcmpHolds(pred, Less))
             && (TestHolds(call, test, Equal) <==> FcmpHolds(pred, Equal))
             && (TestHolds(call, test, Greater) <==> FcmpHolds(pred, Greater))
             && (TestHolds(call, test, Unordered) <==> FcmpHolds(pred, Unordered))) || test > ICMP_SGE;
  }

  // --- the other operations -------------------------------------------------------------

  function BinaryLibcall(op: nat): Option<string> {
    if op == IR_FADD then Some("__addtf3")
    else if op == IR_FSUB then Some("__subtf3")
    else if op == IR_FMUL then Some("__multf3")
    else if op == IR_FDIV then Some("__divtf3")
    else if op == IR_FNEG then Some("__negtf2")
    else if op == IR_FABS then Some("__cgf_abstf")
    else None
  }

  function SelectLibcall(inst: Inst): Option<string> {
    if inst.op == IR_SELECT && inst.ty == TYPE_F128 then Some("__cgf_seltf") else None
  }

  function ConvertLibcall(inst: Inst): Option<string>
    requires |inst.ops| >= 1
  {
    var from, to := inst.ops[0].ty, inst.ty;
    if inst.op == IR_FPEXT && to == TYPE_F128 then Some(if from == TYPE_F32 then "__extendsftf2" else "__extenddftf2")
    else if inst.op == IR_FPTRUNC && from == TYPE_F128 then Some(if to == TYPE_F32 then "__trunctfsf2" else "__trunctfdf2")
    else if inst.op == IR_FPTOSI && from == TYPE_F128 then Some(if to == TYPE_I64 then "__fixtfdi" else "__fixtfsi")
    else if inst.op == IR_FPTOUI && from == TYPE_F128 then Some(if to == TYPE_I64 then "__fixunstfdi" else "__fixunstfsi")
    else if inst.op == IR_SITOFP && to == TYPE_F128 then Some(if from == TYPE_I64 then "__floatditf" else "__floatsitf")
    else if inst.op == IR_UITOFP && to == TYPE_F128 then Some(if from == TYPE_I64 then "__floatunditf" else "__floatunsitf")
    else None
  }

  // The helper an instruction other than a comparison becomes a call to.
  function HelperFor(inst: Inst): Option<string> {
    var selected := SelectLibcall(inst);
    var name := if inst.ty != TYPE_F128 then None else if selected.Some? then selected else BinaryLibcall(inst.op);
    if name.None? && |inst.ops| >= 1 then ConvertLibcall(inst) else name
  }

  datatype Signature = Signature(params: seq<nat>, result: nat)

  // The types the runtime declares its helpers with.
  function HelperSignature(name: string): Option<Signature> {
    if name in {"__addtf3", "__subtf3", "__multf3", "__divtf3"} then Some(Signature([TYPE_F128, TYPE_F128], TYPE_F128))
    else if name in {"__negtf2", "__cgf_abstf"} then Some(Signature([TYPE_F128], TYPE_F128))
    else if name == "__cgf_seltf" then Some(Signature([TYPE_I32, TYPE_F128, TYPE_F128], TYPE_F128))
    else if name == "__extendsftf2" then Some(Signature([TYPE_F32], TYPE_F128))
    else if name == "__extenddftf2" then Some(Signature([TYPE_F64], TYPE_F128))
    else if name == "__trunctfsf2" then Some(Signature([TYPE_F128], TYPE_F32))
    else if name == "__trunctfdf2" then Some(Signature([TYPE_F128], TYPE_F64))
    else if name in {"__fixtfdi", "__fixunstfdi"} then Some(Signature([TYPE_F128], TYPE_I64))
    else if name in {"__fixtfsi", "__fixunstfsi"} then Some(Signature([TYPE_F128], TYPE_I32))
    else if name in {"__floatditf", "__floatunditf"} then Some(Signature([TYPE_I64], TYPE_F128))
    else if name in {"__floatsitf", "__floatunsitf"} then Some(Signature([TYPE_I32], TYPE_F128))
    else None
  }

  predicate SignatureFits(inst: Inst, name: string) {
    var s := HelperSignature(name);
    s.Some? && |inst.ops| == |s.value.params| && inst.ty == s.value.result
    && forall i | 0 <= i < |inst.ops| :: inst.ops[i].ty == s.value.params[i]
  }

  // What the verifier asks of the types of these operations.
  predicate WellTyped(inst: Inst) {
    if inst.op in {IR_FADD, IR_FSUB, IR_FMUL, IR_FDIV} then
      |inst.ops| == 2 && inst.ops[0].ty == inst.ty && inst.ops[1].ty == inst.ty
    else if inst.op in {IR_FNEG, IR_FABS} then
      |inst.ops| == 1 && inst.ops[0].ty == inst.ty
    else if inst.op == IR_SELECT then
      |inst.ops| == 3 && inst.ops[0].ty == TYPE_I32 && inst.ops[1].ty == inst.ty && inst.ops[2].ty == inst.ty
    else if inst.op in {IR_FPEXT, IR_FPTRUNC} then
      && |inst.ops| == 1 && TYPE_F32 <= inst.ops[0].ty <= TYPE_F128 && TYPE_F32 <= inst.ty <= TYPE_F128
      && if inst.op == IR_FPEXT then inst.ops[0].ty < inst.ty else inst.ops[0].ty > inst.ty
    else if inst.op in {IR_FPTOSI, IR_FPTOUI} then
      |inst.ops| == 1 && TYPE_F32 <= inst.ops[0].ty <= TYPE_F128 && inst.ty <= TYPE_I64
    else if inst.op in {IR_SITOFP, IR_UITOFP} then
      |inst.ops| == 1 && inst.ops[0].ty <= TYPE_I64 && TYPE_F32 <= inst.ty <= TYPE_F128
    else true
  }

  // A conversion between binary128 and a type no helper is declared for.
  predicate OtherType(ty: nat) {
    ty < TYPE_I32 || ty == TYPE_F80
  }

  predicate ConvertsOther(inst: Inst) {
    inst.op in {IR_FPEXT, IR_FPTRUNC, IR_FPTOSI, IR_FPTOUI, IR_SITOFP, IR_UITOFP}
    && |inst.ops| >= 1 && (OtherType(inst.ops[0].ty) || OtherType(inst.ty))
  }

  // The helper chosen is declared with the instruction's types exactly when no
  // 80-bit float or integer narrower than 32 bits takes part.
  lemma SignatureFitsExactly(inst: Inst)
    requires WellTyped(inst) && HelperFor(inst).Some?
    ensures SignatureFits(inst, HelperFor(inst).value) <==> !ConvertsOther(inst)
  {
    var name := HelperFor(inst).value;
    if inst.op in {IR_FPEXT, IR_FPTRUNC} {
      FloatConversionFits(inst);
    } else if inst.op in {IR_FPTOSI, IR_FPTOUI, IR_SITOFP, IR_UITOFP} {
      IntegerConversionFits(inst);
    }
  }

  lemma FloatConversionFits(inst: Inst)
    requires WellTyped(inst) && HelperFor(inst).Some? && inst.op in {IR_FPEXT, IR_FPTRUNC}
    ensures SignatureFits(inst, HelperFor(inst).value) <==> !ConvertsOther(inst)
  {
  }

  lemma IntegerConversionFits(inst: Inst)
    requires WellTyped(inst) && HelperFor(inst).Some? && inst.op in {IR_FPTOSI, IR_FPTOUI, IR_SITOFP, IR_UITOFP}
    ensures SignatureFits(inst, HelperFor(inst).value) <==> !ConvertsOther(inst)
  {
  }

  // Extending an 80-bit float picks the helper that takes a 64-bit one.
  lemma ExtendedFloatMisfit(a: Operand, result: nat)
    requires a.ty == TYPE_F80
    ensures var inst := Inst(0, IR_FPEXT, TYPE_F128, 0, 0, result, 0, [a], []);
            WellTyped(inst) && HelperFor(inst) == Some("__extenddftf2") && !SignatureFits(inst, "__extenddftf2")
  {
    var inst := Inst(0, IR_FPEXT, TYPE_F128, 0, 0, result, 0, [a], []);
    assert HelperSignature("__extenddftf2") == Some(Signature([TYPE_F64], TYPE_F128));
    assert inst.ops[0].ty != [TYPE_F64][0];
  }
}
