/** Legalisation keeps every run: at each instruction that was there before, every
    value that was there before is the same. */
module LegaliseKeeps {
  import opened Ir
  import opened Verifier
  import opened Binary128
  import opened Probing
  import opened Legalise

  // What an instruction does, given the name of an external callee, to the rest
  // of the world, and the value it computes (for a terminator, the edge taken);
  // how two binary128 values compare; what a constant operand stands for.
  datatype Meaning<!W> = Meaning(
    run: (Inst, string, W, seq<int>) -> (W, int),
    order: (int, int) -> Ordering,
    constant: Operand -> int)

  datatype Store<W> = Store(world: W, env: map<nat, int>, last: int)

  function Read(env: map<nat, int>, id: nat): int {
    if id in env then env[id] else 0
  }

  function Value<W>(m: Meaning<W>, env: map<nat, int>, o: Operand): int {
    if o.kind == OpValue then Read(env, UsedId(o)) else m.constant(o)
  }

  function Args<W>(m: Meaning<W>, env: map<nat, int>, os: seq<Operand>): (r: seq<int>)
    ensures |r| == |os|
  {
    if os == [] then [] else [Value(m, env, os[0])] + Args(m, env, os[1..])
  }

  predicate ExternalCall(inst: Inst) {
    inst.op == IR_CALL && inst.subop == FUNCREF_EXTERNAL
  }

  function CalleeName(syms: seq<string>, inst: Inst): string {
    if ExternalCall(inst) && inst.callee < |syms| then syms[inst.callee] else ""
  }

  function ExecOne<W>(m: Meaning<W>, syms: seq<string>, s: Store<W>, inst: Inst): Store<W> {
    var done := m.run(inst, CalleeName(syms, inst), s.world, Args(m, s.env, inst.ops));
    Stored(s, done.0, inst.result, done.1)
  }

  function Exec<W>(m: Meaning<W>, syms: seq<string>, s: Store<W>, insts: seq<Inst>): Store<W>
    decreases |insts|
  {
    if insts == [] then s else Exec(m, syms, ExecOne(m, syms, s, insts[0]), insts[1..])
  }

  // --- what is asked of the machine and the runtime ---------------------------------

  function Bit(b: bool): int {
    if b then 1 else 0
  }

  ghost predicate ComparesByOrder<W(!new)>(m: Meaning<W>) {
    forall inst: Inst, w: W, a: int, b: int | IsCompare(inst) && inst.subop <= FCMP_UNO ::
      m.run(inst, "", w, [a, b]) == (w, Bit(FcmpHolds(inst.subop, m.order(a, b))))
  }

  ghost predicate TestsIntegers<W(!new)>(m: Meaning<W>) {
    && m.constant(ZeroOperand) == 0
    && (forall inst: Inst, w: W, x: int | inst.op == IR_ICMP && inst.ty == TYPE_I32 && inst.subop <= ICMP_SGE ::
          m.run(inst, "", w, [x, 0]) == (w, Bit(IcmpHolds(inst.subop, x, 0))))
    && (forall inst: Inst, w: W, x: bool, y: bool | inst.op == IR_AND && inst.ty == TYPE_I32 ::
          m.run(inst, "", w, [Bit(x), Bit(y)]) == (w, Bit(x && y)))
    && (forall inst: Inst, w: W, x: bool, y: bool | inst.op == IR_OR && inst.ty == TYPE_I32 ::
          m.run(inst, "", w, [Bit(x), Bit(y)]) == (w, Bit(x || y)))
  }

  ghost predicate RuntimeCompares<W(!new)>(m: Meaning<W>) {
    forall inst: Inst, name: string, w: W, a: int, b: int | ExternalCall(inst) && inst.ty == TYPE_I32 && name in Comparators ::
      m.run(inst, name, w, [a, b]) == (w, RuntimeCompare(name, m.order(a, b)))
  }

  // Each helper computes the operation it stands for, on the types it is declared with.
  ghost predicate HelpersCompute<W(!new)>(m: Meaning<W>) {
    forall inst: Inst, callee: nat, w: W, args: seq<int> | HelperFor(inst).Some? && SignatureFits(inst, HelperFor(inst).value) ::
      m.run(AsCall(inst, callee), HelperFor(inst).value, w, args) == m.run(inst, "", w, args)
  }

  ghost predicate Honest<W(!new)>(m: Meaning<W>) {
    ComparesByOrder(m) && TestsIntegers(m) && RuntimeCompares(m) && HelpersCompute(m)
  }

  // --- one instruction ------------------------------------------------------------------

  ghost predicate Agree<W>(s: Store<W>, s': Store<W>, n: nat) {
    s.world == s'.world && s.last == s'.last && forall id: nat | id <= n :: Read(s.env, id) == Read(s'.env, id)
  }

  predicate OperandIn(o: Operand, n: nat) {
    o.kind == OpValue ==> UsedId(o) <= n
  }

  predicate OperandsIn(os: seq<Operand>, n: nat) {
    forall i | 0 <= i < |os| :: OperandIn(os[i], n)
  }

  // All ids are in the value table and every callee in the symbol table, the
  // predicates are known, and no conversion is one without a helper.
  predicate InScope(inst: Inst, n: nat, nsyms: nat) {
    && inst.result <= n && OperandsIn(inst.ops, n)
    && (forall e | 0 <= e < |inst.edges| :: OperandsIn(inst.edges[e].args, n))
    && (ExternalCall(inst) ==> inst.callee < nsyms)
    && KnownPredicate(inst)
    && (HelperFor(inst).Some? ==> SignatureFits(inst, HelperFor(inst).value))
  }

  predicate AllInScope(insts: seq<Inst>, n: nat, nsyms: nat) {
    forall i | 0 <= i < |insts| :: InScope(insts[i], n, nsyms)
  }

  lemma {:induction false} ArgsAgree<W>(m: Meaning<W>, s: Store<W>, s': Store<W>, n: nat, os: seq<Operand>)
    requires Agree(s, s', n) && OperandsIn(os, n)
    ensures Args(m, s.env, os) == Args(m, s'.env, os)
  {
    if os != [] {
      ArgsAgree(m, s, s', n, os[1..]);
      assert OperandIn(os[0], n);
    }
  }

  lemma ArgsOfTwo<W>(m: Meaning<W>, env: map<nat, int>, os: seq<Operand>)
    requires |os| == 2
    ensures Args(m, env, os) == [Value(m, env, os[0]), Value(m, env, os[1])]
  {
    assert os[1..][1..] == [];
  }

  // Where both sides store the same result they go on agreeing.
  function Stored<W>(s: Store<W>, world: W, result: nat, value: int): Store<W> {
    Store(world, if result == 0 then s.env else s.env[result := value], value)
  }

  lemma StoredAgrees<W>(s: Store<W>, s': Store<W>, n: nat, world: W, result: nat, value: int)
    requires Agree(s, s', n)
    ensures Agree(Stored(s, world, result, value), Stored(s', world, result, value), n)
  {
    var t, t' := Stored(s, world, result, value), Stored(s', world, result, value);
    forall id: nat | id <= n
      ensures Read(t.env, id) == Read(t'.env, id)
    {
      assert Read(s.env, id) == Read(s'.env, id);
    }
  }

  // An instruction that has not changed.
  lemma SameAgrees<W>(m: Meaning<W>, syms: seq<string>, syms': seq<string>, s: Store<W>, s': Store<W>, n: nat, inst: Inst)
    requires Agree(s, s', n) && InScope(inst, n, |syms|) && syms <= syms'
    ensures Agree(ExecOne(m, syms, s, inst), ExecOne(m, syms', s', inst), n)
  {
    ArgsAgree(m, s, s', n, inst.ops);
    var done := m.run(inst, CalleeName(syms, inst), s.world, Args(m, s.env, inst.ops));
    StoredAgrees(s, s', n, done.0, inst.result, done.1);
  }

  lemma CallAgrees<W(!new)>(m: Meaning<W>, syms: seq<string>, syms': seq<string>, s: Store<W>, s': Store<W>, n: nat, inst: Inst, callee: nat)
    requires Honest(m) && Agree(s, s', n) && InScope(inst, n, |syms|)
    requires HelperFor(inst).Some? && callee < |syms'| && syms'[callee] == HelperFor(inst).value
    ensures Agree(ExecOne(m, syms, s, inst), ExecOne(m, syms', s', AsCall(inst, callee)), n)
  {
    ArgsAgree(m, s, s', n, inst.ops);
    var args := Args(m, s.env, inst.ops);
    assert m.run(AsCall(inst, callee), HelperFor(inst).value, s.world, args) == m.run(inst, "", s.world, args);
    var done := m.run(inst, "", s.world, args);
    StoredAgrees(s, s', n, done.0, inst.result, done.1);
  }

  // --- a comparison ----------------------------------------------------------------------

  // After a new instruction everything old is as it was, but for what was last computed.
  ghost predicate AgreeBut<W>(s: Store<W>, s': Store<W>, n: nat) {
    s.world == s'.world && forall id: nat | id <= n :: Read(s.env, id) == Read(s'.env, id)
  }

  lemma NewKeeps<W>(s: Store<W>, s': Store<W>, n: nat, id: nat, value: int)
    requires AgreeBut(s, s', n) && id > n
    ensures AgreeBut(s, Stored(s', s'.world, id, value), n) && Read(Stored(s', s'.world, id, value).env, id) == value
  {
  }

  lemma LastStored<W>(s: Store<W>, s': Store<W>, n: nat, result: nat, value: int)
    requires AgreeBut(s, s', n)
    ensures Agree(Stored(s, s.world, result, value), Stored(s', s'.world, result, value), n)
  {
    var t := s'.(last := s.last);
    StoredAgrees(s, t, n, s.world, result, value);
  }

  // The call leaves the comparison's outcome in its result.
  lemma LibcallRuns<W(!new)>(m: Meaning<W>, syms: seq<string>, s: Store<W>, callee: nat, result: nat, ops: seq<Operand>)
    requires Honest(m) && |ops| == 2 && result != 0
    requires callee < |syms| && syms[callee] in Comparators
    ensures var r := RuntimeCompare(syms[callee], m.order(Value(m, s.env, ops[0]), Value(m, s.env, ops[1])));
            ExecOne(m, syms, s, LibcallInst(callee, result, ops)) == Stored(s, s.world, result, r)
  {
    ArgsOfTwo(m, s.env, ops);
    var a, b := Value(m, s.env, ops[0]), Value(m, s.env, ops[1]);
    assert m.run(LibcallInst(callee, result, ops), syms[callee], s.world, [a, b]) == (s.world, RuntimeCompare(syms[callee], m.order(a, b)));
  }

  lemma TestRuns<W(!new)>(m: Meaning<W>, syms: seq<string>, s: Store<W>, inst: Inst, tested: nat)
    requires Honest(m) && inst.op == IR_ICMP && inst.ty == TYPE_I32 && inst.subop <= ICMP_SGE
    requires inst.ops == [ValueOperand(tested), ZeroOperand] && tested < ID_LIMIT
    ensures var r := Bit(IcmpHolds(inst.subop, Read(s.env, tested), 0));
            ExecOne(m, syms, s, inst) == Stored(s, s.world, inst.result, r)
  {
    ArgsOfTwo(m, s.env, inst.ops);
    assert UsedId(ValueOperand(tested)) == tested;
    assert m.run(inst, "", s.world, [Read(s.env, tested), 0]) == (s.world, Bit(IcmpHolds(inst.subop, Read(s.env, tested), 0)));
  }

  lemma CombineRuns<W(!new)>(m: Meaning<W>, syms: seq<string>, s: Store<W>, inst: Inst, a: nat, b: nat, x: bool, y: bool)
    requires Honest(m) && inst.op in {IR_AND, IR_OR} && inst.ty == TYPE_I32
    requires inst.ops == [ValueOperand(a), ValueOperand(b)] && a < ID_LIMIT && b < ID_LIMIT
    requires Read(s.env, a) == Bit(x) && Read(s.env, b) == Bit(y)
    ensures var r := Bit(if inst.op == IR_AND then x && y else x || y);
            ExecOne(m, syms, s, inst) == Stored(s, s.world, inst.result, r)
  {
    ArgsOfTwo(m, s.env, inst.ops);
    assert UsedId(ValueOperand(a)) == a && UsedId(ValueOperand(b)) == b;
    assert m.run(inst, "", s.world, [Bit(x), Bit(y)]) == (s.world, Bit(if inst.op == IR_AND then x && y else x || y));
  }

  lemma CompareRuns<W(!new)>(m: Meaning<W>, syms: seq<string>, s: Store<W>, inst: Inst)
    requires Honest(m) && IsCompare(inst) && KnownPredicate(inst)
    ensures var r := Bit(FcmpHolds(inst.subop, m.order(Value(m, s.env, inst.ops[0]), Value(m, s.env, inst.ops[1]))));
            ExecOne(m, syms, s, inst) == Stored(s, s.world, inst.result, r)
  {
    ArgsOfTwo(m, s.env, inst.ops);
    var a, b := Value(m, s.env, inst.ops[0]), Value(m, s.env, inst.ops[1]);
    assert m.run(inst, "", s.world, [a, b]) == (s.world, Bit(FcmpHolds(inst.subop, m.order(a, b))));
  }

  lemma {:induction false} ExecJoins<W>(m: Meaning<W>, syms: seq<string>, s: Store<W>, xs: seq<Inst>, ys: seq<Inst>)
    ensures Exec(m, syms, s, xs + ys) == Exec(m, syms, Exec(m, syms, s, xs), ys)
    decreases |xs|
  {
    if xs == [] {
      assert xs + ys == ys;
    } else {
      assert (xs + ys)[1..] == xs[1..] + ys;
      ExecJoins(m, syms, ExecOne(m, syms, s, xs[0]), xs[1..], ys);
    }
  }

  lemma ExecTwo<W>(m: Meaning<W>, syms: seq<string>, s: Store<W>, a: Inst, b: Inst)
    ensures Exec(m, syms, s, [a, b]) == ExecOne(m, syms, ExecOne(m, syms, s, a), b)
  {
    var rest: seq<Inst> := [b];
    assert [a, b][1..] == rest && rest[1..] == [];
    assert Exec(m, syms, ExecOne(m, syms, s, a), rest) == ExecOne(m, syms, ExecOne(m, syms, s, a), b);
  }

  lemma OneCallAgrees<W(!new)>(m: Meaning<W>, syms: seq<string>, syms': seq<string>, s: Store<W>, s': Store<W>, n: nat,
                               inst: Inst, callee: nat, id: nat)
    requires Honest(m) && Agree(s, s', n) && InScope(inst, n, |syms|) && IsCompare(inst)
    requires ComparePlan(inst.subop).value.OneCall? && n < id < ID_LIMIT
    requires callee < |syms'| && syms'[callee] == ComparePlan(inst.subop).value.call
    ensures var test := AsTest(inst, IR_ICMP, ComparePlan(inst.subop).value.pred, [ValueOperand(id), ZeroOperand]);
            Agree(ExecOne(m, syms, s, inst), Exec(m, syms', s', [LibcallInst(callee, id, inst.ops), test]), n)
  {
    hide Honest, Agree, AgreeBut, Exec, ExecOne, Stored, OperandsIn, RuntimeCompare, FcmpHolds, Read;
    var plan := ComparePlan(inst.subop).value;
    var call := LibcallInst(callee, id, inst.ops);
    var test := AsTest(inst, IR_ICMP, plan.pred, [ValueOperand(id), ZeroOperand]);
    var order := m.order(Value(m, s.env, inst.ops[0]), Value(m, s.env, inst.ops[1]));
    ExecTwo(m, syms', s', call, test);
    AgreeIsAgreeBut(s, s', n);
    OperandsAgree(m, s, s', n, inst.ops);
    PlanDecides(inst.subop, order);
    CompareRuns(m, syms, s, inst);
    LibcallRuns(m, syms', s', callee, id, inst.ops);
    var r := RuntimeCompare(plan.call, order);
    NewKeeps(s, s', n, id, r);
    var mid := Stored(s', s'.world, id, r);
    TestRuns(m, syms', mid, test, id);
    LastStored(s, mid, n, inst.result, Bit(FcmpHolds(inst.subop, order)));
  }

  lemma AgreeIsAgreeBut<W>(s: Store<W>, s': Store<W>, n: nat)
    requires Agree(s, s', n)
    ensures AgreeBut(s, s', n)
  {
  }

  lemma OperandsAgree<W>(m: Meaning<W>, s: Store<W>, s': Store<W>, n: nat, os: seq<Operand>)
    requires AgreeBut(s, s', n) && OperandsIn(os, n)
    ensures forall i | 0 <= i < |os| :: Value(m, s.env, os[i]) == Value(m, s'.env, os[i])
  {
    forall i | 0 <= i < |os|
      ensures Value(m, s.env, os[i]) == Value(m, s'.env, os[i])
    {
      assert OperandIn(os[i], n);
    }
  }

  lemma ReadStored<W>(s: Store<W>, world: W, id: nat, value: int, other: nat)
    requires id != 0
    ensures Read(Stored(s, world, id, value).env, other) == if other == id then value else Read(s.env, other)
  {
  }

  // Two calls, then two tests: both outcomes are there to combine.
  lemma TwoTestsRun<W(!new)>(m: Meaning<W>, syms: seq<string>, s: Store<W>, k: nat, ops: seq<Operand>,
                             callee: nat, callee2: nat, pred: nat, pred2: nat) returns (t: Store<W>)
    requires Honest(m) && |ops| == 2 && OperandsIn(ops, k) && k + 4 < ID_LIMIT && pred <= ICMP_SGE && pred2 <= ICMP_SGE
    requires callee < |syms| && syms[callee] in Comparators && callee2 < |syms| && syms[callee2] in Comparators
    ensures var order := m.order(Value(m, s.env, ops[0]), Value(m, s.env, ops[1]));
            && AgreeBut(s, t, k)
            && Read(t.env, k + 3) == Bit(TestHolds(syms[callee], pred, order))
            && Read(t.env, k + 4) == Bit(TestHolds(syms[callee2], pred2, order))
    ensures t == ExecOne(m, syms, ExecOne(m, syms, ExecOne(m, syms, ExecOne(m, syms, s, LibcallInst(callee, k + 1, ops)),
                                                           LibcallInst(callee2, k + 2, ops)),
                                          TestInst(pred, k + 3, k + 1)),
                         TestInst(pred2, k + 4, k + 2))
  {
    hide Honest, Agree, AgreeBut, ExecOne, Stored, OperandsIn, RuntimeCompare, Read, Value;
    var w, order := s.world, m.order(Value(m, s.env, ops[0]), Value(m, s.env, ops[1]));
    var r, r2 := RuntimeCompare(syms[callee], order), RuntimeCompare(syms[callee2], order);
    AgreesWithItself(s, k);
    LibcallRuns(m, syms, s, callee, k + 1, ops);
    var s1 := Stored(s, w, k + 1, r);
    NewKeeps(s, s, k, k + 1, r);
    OperandsAgree(m, s, s1, k, ops);
    LibcallRuns(m, syms, s1, callee2, k + 2, ops);
    StoredWorld(s, w, k + 1, r);
    var s2 := Stored(s1, w, k + 2, r2);
    NewKeeps(s, s1, k, k + 2, r2);
    ReadStored(s1, w, k + 2, r2, k + 1);
    StoredWorld(s1, w, k + 2, r2);
    TestRuns(m, syms, s2, TestInst(pred, k + 3, k + 1), k + 1);
    var s3 := Stored(s2, w, k + 3, Bit(TestHolds(syms[callee], pred, order)));
    NewKeeps(s, s2, k, k + 3, Bit(TestHolds(syms[callee], pred, order)));
    ReadStored(s2, w, k + 3, Bit(TestHolds(syms[callee], pred, order)), k + 2);
    StoredWorld(s2, w, k + 3, Bit(TestHolds(syms[callee], pred, order)));
    TestRuns(m, syms, s3, TestInst(pred2, k + 4, k + 2), k + 2);
    t := Stored(s3, w, k + 4, Bit(TestHolds(syms[callee2], pred2, order)));
    NewKeeps(s, s3, k, k + 4, Bit(TestHolds(syms[callee2], pred2, order)));
    ReadStored(s3, w, k + 4, Bit(TestHolds(syms[callee2], pred2, order)), k + 3);
  }

  lemma AgreesWithItself<W>(s: Store<W>, n: nat)
    ensures AgreeBut(s, s, n)
  {
  }

  lemma StoredWorld<W>(s: Store<W>, world: W, id: nat, value: int)
    ensures Stored(s, world, id, value).world == world
  {
  }

  lemma ExecFive<W>(m: Meaning<W>, syms: seq<string>, s: Store<W>, a: Inst, b: Inst, c: Inst, d: Inst, e: Inst)
    ensures Exec(m, syms, s, [a, b, c, d, e]) ==
              ExecOne(m, syms, ExecOne(m, syms, ExecOne(m, syms, ExecOne(m, syms, ExecOne(m, syms, s, a), b), c), d), e)
  {
    var s3 := ExecOne(m, syms, ExecOne(m, syms, ExecOne(m, syms, s, a), b), c);
    ExecJoins(m, syms, s, [a, b], [c, d, e]);
    ExecTwo(m, syms, s, a, b);
    assert [a, b] + [c, d, e] == [a, b, c, d, e];
    assert [c, d, e][1..] == [d, e];
    ExecTwo(m, syms, s3, d, e);
  }

  lemma TwoCallsAgree<W(!new)>(m: Meaning<W>, syms: seq<string>, syms': seq<string>, s: Store<W>, s': Store<W>, n: nat,
                               inst: Inst, callee: nat, callee2: nat, k: nat)
    requires Honest(m) && Agree(s, s', n) && InScope(inst, n, |syms|) && IsCompare(inst)
    requires ComparePlan(inst.subop).value.TwoCalls? && n <= k && k + 4 < ID_LIMIT
    requires callee < |syms'| && syms'[callee] == ComparePlan(inst.subop).value.call
    requires callee2 < |syms'| && syms'[callee2] == ComparePlan(inst.subop).value.call2
    ensures var plan := ComparePlan(inst.subop).value;
            Agree(ExecOne(m, syms, s, inst),
                  Exec(m, syms', s',
                       [LibcallInst(callee, k + 1, inst.ops), LibcallInst(callee2, k + 2, inst.ops),
                        TestInst(plan.pred, k + 3, k + 1), TestInst(plan.pred2, k + 4, k + 2),
                        AsTest(inst, plan.combine, 0, [ValueOperand(k + 3), ValueOperand(k + 4)])]), n)
  {
    hide Honest, Agree, AgreeBut, Exec, ExecOne, Stored, OperandsIn, RuntimeCompare, Read, FcmpHolds, Value, TestHolds;
    var plan := ComparePlan(inst.subop).value;
    var last := AsTest(inst, plan.combine, 0, [ValueOperand(k + 3), ValueOperand(k + 4)]);
    var order := m.order(Value(m, s.env, inst.ops[0]), Value(m, s.env, inst.ops[1]));
    ExecFive(m, syms', s', LibcallInst(callee, k + 1, inst.ops), LibcallInst(callee2, k + 2, inst.ops),
             TestInst(plan.pred, k + 3, k + 1), TestInst(plan.pred2, k + 4, k + 2), last);
    AgreeIsAgreeBut(s, s', n);
    OperandsAgree(m, s, s', n, inst.ops);
    OperandsInMore(inst.ops, n, k);
    PlanDecides(inst.subop, order);
    CompareRuns(m, syms, s, inst);
    var t := TwoTestsRun(m, syms', s', k, inst.ops, callee, callee2, plan.pred, plan.pred2);
    AgreeThrough(s, s', t, n, k);
    CombineRuns(m, syms', t, last, k + 3, k + 4, TestHolds(plan.call, plan.pred, order), TestHolds(plan.call2, plan.pred2, order));
    LastStored(s, t, n, inst.result, Bit(FcmpHolds(inst.subop, order)));
    AgreeWorld(s, t, n);
  }

  lemma OperandsInMore(os: seq<Operand>, n: nat, k: nat)
    requires OperandsIn(os, n) && n <= k
    ensures OperandsIn(os, k)
  {
    forall i | 0 <= i < |os|
      ensures OperandIn(os[i], k)
    {
      assert OperandIn(os[i], n);
    }
  }

  lemma AgreeWorld<W>(s: Store<W>, t: Store<W>, n: nat)
    requires AgreeBut(s, t, n)
    ensures s.world == t.world
  {
  }

  lemma AgreeThrough<W>(s: Store<W>, s': Store<W>, t: Store<W>, n: nat, k: nat)
    requires AgreeBut(s, s', n) && AgreeBut(s', t, k) && n <= k
    ensures AgreeBut(s, t, n)
  {
  }

  // --- a list of instructions, and whole runs ------------------------------------------

  lemma InstAgrees<W(!new)>(m: Meaning<W>, syms: seq<string>, syms': seq<string>, s: Store<W>, s': Store<W>, n: nat,
                            t: Tables, block: nat, inst: Inst)
    requires Honest(m) && Agree(s, s', n) && InScope(inst, n, |syms|)
    requires n <= |t.vals| && |t.vals| + 4 < ID_LIMIT && syms <= t.syms
    requires LegaliseInst(t, block, inst).tables.syms <= syms'
    ensures Agree(ExecOne(m, syms, s, inst), Exec(m, syms', s', LegaliseInst(t, block, inst).insts), n)
  {
    hide Honest, Agree, ExecOne, Exec, HelperFor, SignatureFits;
    var o := LegaliseInst(t, block, inst);
    if IsCompare(inst) {
      hide InScope;
      ScopeKnown(inst, n, |syms|);
      PlanDecides(inst.subop, Less);
      var plan := ComparePlan(inst.subop).value;
      var s1 := Inserted(t.syms, plan.call);
      SymbolFound(t.syms, plan.call);
      if plan.OneCall? {
        OneCallAgrees(m, syms, syms', s, s', n, inst, Find(t.syms, plan.call), |t.vals| + 1);
      } else {
        SymbolFound(s1, plan.call2);
        TwoCallsAgree(m, syms, syms', s, s', n, inst, Find(t.syms, plan.call), Find(s1, plan.call2), |t.vals|);
      }
    } else if HelperFor(inst).Some? {
      var name := HelperFor(inst).value;
      SymbolFound(t.syms, name);
      CallAgrees(m, syms, syms', s, s', n, inst, Find(t.syms, name));
      ExecSingle(m, syms', s', AsCall(inst, Find(t.syms, name)));
    } else {
      SameAgrees(m, syms, syms', s, s', n, inst);
      ExecSingle(m, syms', s', inst);
    }
  }

  lemma ScopeKnown(inst: Inst, n: nat, nsyms: nat)
    requires InScope(inst, n, nsyms)
    ensures KnownPredicate(inst)
  {
  }

  lemma ExecSingle<W>(m: Meaning<W>, syms: seq<string>, s: Store<W>, inst: Inst)
    ensures Exec(m, syms, s, [inst]) == ExecOne(m, syms, s, inst)
  {
    assert [inst][1..] == [];
  }

  lemma SymbolFound(syms: seq<string>, name: string)
    ensures Find(syms, name) < |Inserted(syms, name)| && Inserted(syms, name)[Find(syms, name)] == name && syms <= Inserted(syms, name)
  {
  }

  lemma SymsGrow(t: Tables, block: nat, inst: Inst)
    requires KnownPredicate(inst)
    ensures var o := LegaliseInst(t, block, inst);
            t.syms <= o.tables.syms && |t.vals| <= |o.tables.vals| <= |t.vals| + 4
  {
    hide HelperFor, ComparePlan;
  }

  lemma ScopeMeansKnown(insts: seq<Inst>, n: nat, nsyms: nat)
    requires AllInScope(insts, n, nsyms)
    ensures KnownPredicates(insts)
  {
    forall i | 0 <= i < |insts|
      ensures KnownPredicate(insts[i])
    {
      assert InScope(insts[i], n, nsyms);
    }
  }

  lemma {:induction false} TablesGrow(t: Tables, block: nat, insts: seq<Inst>)
    requires KnownPredicates(insts)
    ensures var o := LegaliseInsts(t, block, insts);
            t.syms <= o.tables.syms && |t.vals| <= |o.tables.vals| <= |t.vals| + 4 * |insts|
    decreases |insts|
  {
    hide LegaliseInst, KnownPredicate;
    if insts != [] {
      SymsGrow(t, block, insts[0]);
      TablesGrow(LegaliseInst(t, block, insts[0]).tables, block, insts[1..]);
    }
  }

  lemma {:induction false} InstsAgree<W(!new)>(m: Meaning<W>, syms: seq<string>, syms': seq<string>, s: Store<W>, s': Store<W>, n: nat,
                                               t: Tables, block: nat, insts: seq<Inst>)
    requires Honest(m) && Agree(s, s', n) && AllInScope(insts, n, |syms|) && KnownPredicates(insts)
    requires n <= |t.vals| && |t.vals| + 4 * |insts| < ID_LIMIT && syms <= t.syms
    requires LegaliseInsts(t, block, insts).tables.syms <= syms'
    ensures Agree(Exec(m, syms, s, insts), Exec(m, syms', s', LegaliseInsts(t, block, insts).insts), n)
    decreases |insts|
  {
    hide Honest, Agree, ExecOne, LegaliseInst, InScope, KnownPredicate;
    if insts != [] {
      var first := LegaliseInst(t, block, insts[0]);
      var rest := LegaliseInsts(first.tables, block, insts[1..]);
      SymsGrow(t, block, insts[0]);
      TablesGrow(first.tables, block, insts[1..]);
      InstAgrees(m, syms, syms', s, s', n, t, block, insts[0]);
      ExecJoins(m, syms', s', first.insts, rest.insts);
      InstsAgree(m, syms, syms', ExecOne(m, syms, s, insts[0]), Exec(m, syms', s', first.insts), n,
                 first.tables, block, insts[1..]);
    }
  }

  // --- runs of the function -----------------------------------------------------------------

  datatype RunState<W> = At(block: nat, store: Store<W>) | Ended(world: W)

  function BindAll(env: map<nat, int>, params: seq<nat>, args: seq<int>): map<nat, int>
    requires |params| == |args|
    decreases |params|
  {
    if params == [] then env else BindAll(env[params[0] := args[0]], params[1..], args[1..])
  }

  function LastEdges(insts: seq<Inst>): seq<Edge> {
    if insts == [] then [] else insts[|insts| - 1].edges
  }

  // Run a block to its end and follow the edge its terminator took.
  function TakeBlock<W>(m: Meaning<W>, syms: seq<string>, blocks: seq<Block>, st: RunState<W>): RunState<W> {
    if st.Ended? then st
    else if st.block >= |blocks| then Ended(st.store.world)
    else
      var s := Exec(m, syms, st.store, blocks[st.block].insts);
      var edges := LastEdges(blocks[st.block].insts);
      if 0 <= s.last < |edges| then Follow(m, blocks, s, edges[s.last]) else Ended(s.world)
  }

  function Follow<W>(m: Meaning<W>, blocks: seq<Block>, s: Store<W>, e: Edge): RunState<W> {
    var args := Args(m, s.env, e.args);
    if 0 < e.target <= |blocks| && |args| == |blocks[e.target - 1].params| then
      At(e.target - 1, s.(env := BindAll(s.env, blocks[e.target - 1].params, args)))
    else Ended(s.world)
  }

  function RunBlocks<W>(m: Meaning<W>, syms: seq<string>, blocks: seq<Block>, st: RunState<W>, k: nat): RunState<W> {
    if k == 0 then st else TakeBlock(m, syms, blocks, RunBlocks(m, syms, blocks, st, k - 1))
  }

  ghost predicate RunsAgree<W>(st: RunState<W>, st': RunState<W>, n: nat) {
    match st
    case Ended(w) => st' == Ended(w)
    case At(b, s) => st'.At? && st'.block == b && Agree(s, st'.store, n)
  }

  lemma {:induction false} BoundAgree<W>(s: Store<W>, s': Store<W>, n: nat, params: seq<nat>, args: seq<int>)
    requires Agree(s, s', n) && |params| == |args|
    ensures Agree(s.(env := BindAll(s.env, params, args)), s'.(env := BindAll(s'.env, params, args)), n)
    decreases |params|
  {
    if params != [] {
      var t, t' := s.(env := s.env[params[0] := args[0]]), s'.(env := s'.env[params[0] := args[0]]);
      OneBound(s, s', n, params[0], args[0]);
      BoundAgree(t, t', n, params[1..], args[1..]);
    } else {
      assert s.(env := s.env) == s && s'.(env := s'.env) == s';
    }
  }

  lemma OneBound<W>(s: Store<W>, s': Store<W>, n: nat, p: nat, a: int)
    requires Agree(s, s', n)
    ensures Agree(s.(env := s.env[p := a]), s'.(env := s'.env[p := a]), n)
  {
    var env, env' := s.env[p := a], s'.env[p := a];
    forall id: nat | id <= n
      ensures Read(env, id) == Read(env', id)
    {
      assert Read(s.env, id) == Read(s'.env, id);
    }
  }

  lemma {:induction false} EdgesKept(t: Tables, block: nat, insts: seq<Inst>)
    requires KnownPredicates(insts)
    ensures LastEdges(LegaliseInsts(t, block, insts).insts) == LastEdges(insts)
    decreases |insts|
  {
    hide LegaliseInst, KnownPredicate;
    if insts != [] {
      OneEdgesKept(t, block, insts[0]);
      var first := LegaliseInst(t, block, insts[0]);
      EdgesKept(first.tables, block, insts[1..]);
      if |insts| > 1 {
        SomeLeft(first.tables, block, insts[1..]);
      }
    }
  }

  lemma SomeLeft(t: Tables, block: nat, insts: seq<Inst>)
    requires KnownPredicates(insts) && insts != []
    ensures LegaliseInsts(t, block, insts).insts != []
  {
    OneLegal(t, block, insts[0]);
  }

  lemma OneEdgesKept(t: Tables, block: nat, inst: Inst)
    requires KnownPredicate(inst)
    ensures var o := LegaliseInst(t, block, inst); o.insts != [] && LastEdges(o.insts) == inst.edges
  {
    hide HelperFor, ComparePlan;
  }

  predicate FuncInScope(blocks: seq<Block>, n: nat, nsyms: nat) {
    forall b | 0 <= b < |blocks| :: AllInScope(blocks[b].insts, n, nsyms)
  }

  lemma FuncKnown(blocks: seq<Block>, n: nat, nsyms: nat)
    requires FuncInScope(blocks, n, nsyms)
    ensures AllKnown(blocks)
  {
    forall b | 0 <= b < |blocks|
      ensures KnownPredicates(blocks[b].insts)
    {
      ScopeMeansKnown(blocks[b].insts, n, nsyms);
    }
  }

  lemma {:induction false} BlocksGrow(t: Tables, blocks: seq<Block>, i: nat, k: nat)
    requires AllKnown(blocks) && i <= k <= |blocks|
    ensures var a, b := LegaliseBlocks(t, blocks, i).tables, LegaliseBlocks(t, blocks, k).tables;
            && a.syms <= b.syms && |a.vals| <= |b.vals|
            && |b.vals| - |a.vals| <= 4 * (InstCount(blocks, k) - InstCount(blocks, i))
  {
    hide LegaliseInsts, AllKnown;
    if i < k {
      BlocksGrow(t, blocks, i, k - 1);
      KnownAt(blocks, k - 1);
      TablesGrow(LegaliseBlocks(t, blocks, k - 1).tables, k, blocks[k - 1].insts);
    }
  }

  lemma KnownAt(blocks: seq<Block>, b: nat)
    requires AllKnown(blocks) && b < |blocks|
    ensures KnownPredicates(blocks[b].insts)
  {
  }

  lemma FollowAgrees<W>(m: Meaning<W>, blocks: seq<Block>, blocks': seq<Block>, s: Store<W>, s': Store<W>, e: Edge, n: nat)
    requires Agree(s, s', n) && OperandsIn(e.args, n)
    requires |blocks'| == |blocks| && forall b | 0 <= b < |blocks| :: blocks'[b].params == blocks[b].params
    ensures RunsAgree(Follow(m, blocks, s, e), Follow(m, blocks', s', e), n)
  {
    ArgsAgree(m, s, s', n, e.args);
    if 0 < e.target <= |blocks| && |e.args| == |blocks[e.target - 1].params| {
      BoundAgree(s, s', n, blocks[e.target - 1].params, Args(m, s.env, e.args));
    }
  }

  lemma BlockAgrees<W(!new)>(m: Meaning<W>, t: Tables, blocks: seq<Block>, st: RunState<W>, st': RunState<W>)
    requires Honest(m) && FuncInScope(blocks, |t.vals|, |t.syms|) && |t.vals| + 4 * InstCount(blocks, |blocks|) < ID_LIMIT
    requires RunsAgree(st, st', |t.vals|) && AllKnown(blocks)
    ensures var r := LegaliseBlocks(t, blocks, |blocks|);
            RunsAgree(TakeBlock(m, t.syms, blocks, st), TakeBlock(m, r.tables.syms, r.blocks, st'), |t.vals|)
  {
    hide Honest, Exec, AllKnown, AllInScope, LegaliseBlocks, LegaliseInsts, Agree, Follow, InstCount;
    var r := LegaliseBlocks(t, blocks, |blocks|);
    if st.At? && st.block < |blocks| {
      var b, n, insts := st.block, |t.vals|, blocks[st.block].insts;
      var before := LegaliseBlocks(t, blocks, b).tables;
      RoomLeft(t, blocks, b);
      KnownAt(blocks, b);
      BlockDone(t, blocks, b, |blocks|);
      InstsAgree(m, t.syms, r.tables.syms, st.store, st'.store, n, before, b + 1, insts);
      EdgesKept(before, b + 1, insts);
      var s, s' := Exec(m, t.syms, st.store, insts), Exec(m, r.tables.syms, st'.store, r.blocks[b].insts);
      AgreeLast(s, s', n);
      if 0 <= s.last < |LastEdges(insts)| {
        EdgeInScope(insts, n, |t.syms|, s.last);
        SameParams(t, blocks);
        FollowAgrees(m, blocks, r.blocks, s, s', LastEdges(insts)[s.last], n);
      }
    } else if st.At? {
      AgreeLast(st.store, st'.store, |t.vals|);
    }
  }

  lemma AgreeLast<W>(s: Store<W>, s': Store<W>, n: nat)
    requires Agree(s, s', n)
    ensures s.last == s'.last && s.world == s'.world
  {
  }

  lemma EdgeInScope(insts: seq<Inst>, n: nat, nsyms: nat, e: nat)
    requires AllInScope(insts, n, nsyms) && e < |LastEdges(insts)|
    ensures OperandsIn(LastEdges(insts)[e].args, n)
  {
    assert InScope(insts[|insts| - 1], n, nsyms);
  }

  lemma SameParams(t: Tables, blocks: seq<Block>)
    requires AllKnown(blocks)
    ensures forall b | 0 <= b < |blocks| :: LegaliseBlocks(t, blocks, |blocks|).blocks[b].params == blocks[b].params
  {
    forall b | 0 <= b < |blocks|
      ensures LegaliseBlocks(t, blocks, |blocks|).blocks[b].params == blocks[b].params
    {
      BlockDone(t, blocks, b, |blocks|);
    }
  }

  lemma RoomLeft(t: Tables, blocks: seq<Block>, b: nat)
    requires AllKnown(blocks) && b < |blocks| && |t.vals| + 4 * InstCount(blocks, |blocks|) < ID_LIMIT
    ensures var before := LegaliseBlocks(t, blocks, b).tables;
            && |t.vals| <= |before.vals| && |before.vals| + 4 * |blocks[b].insts| < ID_LIMIT && t.syms <= before.syms
            && KnownPredicates(blocks[b].insts)
            && LegaliseInsts(before, b + 1, blocks[b].insts).tables.syms <= LegaliseBlocks(t, blocks, |blocks|).tables.syms
  {
    BlocksGrow(t, blocks, 0, b);
    BlocksGrow(t, blocks, b + 1, |blocks|);
    CountGrows(blocks, b + 1, |blocks|);
    KnownAt(blocks, b);
    assert LegaliseBlocks(t, blocks, b + 1).tables == LegaliseInsts(LegaliseBlocks(t, blocks, b).tables, b + 1, blocks[b].insts).tables;
  }

  lemma {:induction false} CountGrows(blocks: seq<Block>, i: nat, k: nat)
    requires i <= k <= |blocks|
    ensures InstCount(blocks, i) <= InstCount(blocks, k)
  {
    if i < k {
      CountGrows(blocks, i, k - 1);
    }
  }

  // Every run of the legalised function goes through the same blocks with the
  // same values, the same effects and the same comparisons, NaN included.
  lemma {:induction false} LegalisedRunsAlike<W(!new)>(m: Meaning<W>, t: Tables, blocks: seq<Block>, start: RunState<W>, k: nat)
    requires Honest(m) && FuncInScope(blocks, |t.vals|, |t.syms|) && |t.vals| + 4 * InstCount(blocks, |blocks|) < ID_LIMIT
    ensures AllKnown(blocks)
    ensures var r := LegaliseBlocks(t, blocks, |blocks|);
            RunsAgree(RunBlocks(m, t.syms, blocks, start, k), RunBlocks(m, r.tables.syms, r.blocks, start, k), |t.vals|)
  {
    hide Honest, TakeBlock, FuncInScope, AllKnown, LegaliseBlocks;
    FuncKnown(blocks, |t.vals|, |t.syms|);
    if k > 0 {
      var r := LegaliseBlocks(t, blocks, |blocks|);
      LegalisedRunsAlike(m, t, blocks, start, k - 1);
      BlockAgrees(m, t, blocks, RunBlocks(m, t.syms, blocks, start, k - 1), RunBlocks(m, r.tables.syms, r.blocks, start, k - 1));
    }
  }
}
