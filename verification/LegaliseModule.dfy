/** The legalisation pass over a module: function after function with one symbol
    table, each renumbered if anything was spliced in, so that values are numbered
    in document order again. */
module LegaliseModule {
  import opened Shared
  import opened Ir
  import opened Legalise
  import opened LegalisePass
  import opened Renumbering
  import opened Renumber
  import opened Unreachable
  import LegaliseKeeps

  // A function with the address values of its local slots.
  datatype Work = Work(func: Func, slots: seq<nat>)

  predicate HasCompare(blocks: seq<Block>) {
    exists b, i :: 0 <= b < |blocks| && 0 <= i < |blocks[b].insts| && IsCompare(blocks[b].insts[i])
  }

  // Before renumbering.
  function LegalisedFunc(syms: seq<string>, f: Func): Func
    requires AllKnown(f.blocks)
  {
    var r := LegaliseBlocks(Tables(syms, f.vals), f.blocks, |f.blocks|);
    Func(f.paramVals, r.blocks, r.tables.vals)
  }

  function LegalisedSyms(syms: seq<string>, f: Func): seq<string>
    requires AllKnown(f.blocks)
  {
    LegaliseBlocks(Tables(syms, f.vals), f.blocks, |f.blocks|).tables.syms
  }

  function Finished(syms: seq<string>, w: Work): Work
    requires AllKnown(w.func.blocks)
  {
    var g := LegalisedFunc(syms, w.func);
    if HasCompare(w.func.blocks) then
      Work(Renumbered(g), RenamedSlots(g, w.slots))
    else Work(g, w.slots)
  }

  function RenamedSlots(g: Func, slots: seq<nat>): seq<nat> {
    seq(|slots|, i requires 0 <= i < |slots| => RenamedSlot(g, slots[i]))
  }

  predicate ModuleKnown(ws: seq<Work>) {
    forall i | 0 <= i < |ws| :: AllKnown(ws[i].func.blocks)
  }

  // The symbol table after the first k functions, and those functions.
  function SymsAfter(syms: seq<string>, ws: seq<Work>, k: nat): seq<string>
    requires ModuleKnown(ws) && k <= |ws|
  {
    if k == 0 then syms else LegalisedSyms(SymsAfter(syms, ws, k - 1), ws[k - 1].func)
  }

  function AllFinished(syms: seq<string>, ws: seq<Work>, k: nat): (r: seq<Work>)
    requires ModuleKnown(ws) && k <= |ws|
    ensures |r| == k
  {
    seq(k, i requires 0 <= i < k => Finished(SymsAfter(syms, ws, i), ws[i]))
  }

  // Each value has one definition, and ids suffice for those to come.
  ghost predicate Ready(w: Work) {
    SingleDefs(w.func) && |w.func.vals| + 4 * InstCount(w.func.blocks, |w.func.blocks|) < ID_LIMIT
  }

  // --- old and new definitions -----------------------------------------------------------------

  function Small(ids: seq<nat>, n: nat): seq<nat> {
    if ids == [] then [] else (if ids[0] <= n then [ids[0]] else []) + Small(ids[1..], n)
  }

  function Large(ids: seq<nat>, n: nat): seq<nat> {
    if ids == [] then [] else (if ids[0] > n then [ids[0]] else []) + Large(ids[1..], n)
  }

  lemma {:induction false} SplitJoins(a: seq<nat>, b: seq<nat>, n: nat)
    ensures Small(a + b, n) == Small(a, n) + Small(b, n) && Large(a + b, n) == Large(a, n) + Large(b, n)
  {
    if a == [] {
      assert a + b == b;
    } else {
      var x: seq<nat> := if a[0] <= n then [a[0]] else [];
      var y: seq<nat> := if a[0] > n then [a[0]] else [];
      SplitJoins(a[1..], b, n);
      assert (a + b)[1..] == a[1..] + b;
      SplitFirst(a, n);
      SplitFirst(a + b, n);
      hide Small, Large;
      assert x + (Small(a[1..], n) + Small(b, n)) == x + Small(a[1..], n) + Small(b, n);
      assert y + (Large(a[1..], n) + Large(b, n)) == y + Large(a[1..], n) + Large(b, n);
    }
  }

  lemma SplitFirst(ids: seq<nat>, n: nat)
    requires ids != []
    ensures Small(ids, n) == (if ids[0] <= n then [ids[0]] else []) + Small(ids[1..], n)
    ensures Large(ids, n) == (if ids[0] > n then [ids[0]] else []) + Large(ids[1..], n)
  {
  }

  lemma {:induction false} SplitFrom(ids: seq<nat>, n: nat)
    ensures forall x :: x in Small(ids, n) <==> x in ids && x <= n
    ensures forall x :: x in Large(ids, n) <==> x in ids && x > n
  {
    if ids != [] {
      SplitFrom(ids[1..], n);
      assert ids == [ids[0]] + ids[1..];
    }
  }

  lemma {:induction false} AllSmall(ids: seq<nat>, n: nat)
    requires forall x | x in ids :: x <= n
    ensures Small(ids, n) == ids && Large(ids, n) == []
  {
    if ids != [] {
      assert ids[0] in ids && forall x | x in ids[1..] :: x in ids;
      AllSmall(ids[1..], n);
    }
  }

  lemma {:induction false} NoneLarge(ids: seq<nat>, n: nat)
    requires Large(ids, n) == []
    ensures Small(ids, n) == ids
  {
    if ids != [] {
      NoneLarge(ids[1..], n);
    }
  }

  lemma {:induction false} SplitDistinct(ids: seq<nat>, n: nat)
    requires Distinct(Small(ids, n)) && Distinct(Large(ids, n))
    ensures Distinct(ids)
  {
    if ids != [] {
      var rest := ids[1..];
      SplitFrom(rest, n);
      DistinctTail(if ids[0] <= n then [ids[0]] else [], Small(rest, n));
      DistinctTail(if ids[0] > n then [ids[0]] else [], Large(rest, n));
      SplitDistinct(rest, n);
      assert ids[0] !in rest;
      assert forall k | 0 < k < |ids| :: ids[k] == rest[k - 1] && rest[k - 1] in rest;
    }
  }

  lemma DistinctTail(front: seq<nat>, rest: seq<nat>)
    requires Distinct(front + rest) && |front| <= 1
    ensures Distinct(rest) && (front != [] ==> front[0] !in rest)
  {
    var all := front + rest;
    forall k | 0 <= k < |rest|
      ensures all[k + |front|] == rest[k] && (front != [] ==> rest[k] != front[0])
    {
      assert front != [] ==> all[0] == front[0];
    }
  }

  lemma {:induction false} UpToDistinct(a: nat, b: nat)
    ensures Distinct(UpTo(a, b)) && forall x :: x in UpTo(a, b) <==> a < x <= b
  {
    if a < b {
      UpToDistinct(a, b - 1);
      var front := UpTo(a, b - 1);
      assert forall k | 0 <= k < |front| :: front[k] in front;
    }
  }

  lemma {:induction false} NonZeroJoins(a: seq<nat>, b: seq<nat>)
    ensures NonZero(a + b) == NonZero(a) + NonZero(b)
    decreases |b|
  {
    if b == [] {
      assert a + b == a;
    } else {
      var front := b[..|b| - 1];
      NonZeroJoins(a, front);
      assert (a + b)[..|a + b| - 1] == a + front;
    }
  }

  function OldIds(old_: seq<(nat, nat, seq<Edge>)>): seq<nat> {
    if old_ == [] then [] else (if old_[0].1 != 0 then [old_[0].1] else []) + OldIds(old_[1..])
  }

  // The results of a list, split by whether they were there before.
  lemma {:induction false} ResultsSplit(insts: seq<Inst>, n: nat)
    ensures Large(NonZero(Results(insts)), n) == NewResults(insts, n)
    ensures Small(NonZero(Results(insts)), n) == OldIds(OldResults(insts, n))
  {
    if insts != [] {
      var x, rest := insts[0].result, insts[1..];
      ResultsSplit(rest, n);
      assert Results(insts) == [x] + Results(rest);
      NonZeroJoins([x], Results(rest));
      assert [x][..0] == [];
      assert NonZero([x]) == if x != 0 then [x] else [];
      SplitJoins(NonZero([x]), NonZero(Results(rest)), n);
      OneSplit(x, n);
      OldIdsFirst(insts, n);
    }
  }

  lemma OneSplit(x: nat, n: nat)
    ensures Small([x], n) == (if x <= n then [x] else []) && Large([x], n) == if x > n then [x] else []
    ensures Small([], n) == [] && Large([], n) == []
  {
    assert [x][1..] == [];
  }

  lemma OldIdsFirst(insts: seq<Inst>, n: nat)
    requires insts != []
    ensures OldIds(OldResults(insts, n)) ==
              (if 0 < insts[0].result <= n then [insts[0].result] else []) + OldIds(OldResults(insts[1..], n))
  {
    var first, rest := (insts[0].addr, insts[0].result, insts[0].edges), OldResults(insts[1..], n);
    if insts[0].result <= n {
      assert OldResults(insts, n) == [first] + rest;
      assert ([first] + rest)[1..] == rest;
    } else {
      assert OldResults(insts, n) == [] + rest == rest;
    }
  }

  // --- one function ------------------------------------------------------------------------------

  // Definitions come block by block, whatever follows.
  lemma {:induction false} DefsOfFront(params: seq<nat>, xs: seq<Block>, ys: seq<Block>, vals: seq<ValInfo>, vals': seq<ValInfo>, k: nat)
    requires k <= |xs| && k <= |ys| && xs[..k] == ys[..k]
    ensures DefsBefore(Func(params, xs, vals), k) == DefsBefore(Func(params, ys, vals'), k)
  {
    if k > 0 {
      assert xs[..k - 1] == xs[..k][..k - 1] && ys[..k - 1] == ys[..k][..k - 1];
      assert xs[k - 1] == xs[..k][k - 1] && ys[k - 1] == ys[..k][k - 1];
      DefsOfFront(params, xs, ys, vals, vals', k - 1);
    }
  }

  lemma BlockIdsSmall(f: Func, b: nat)
    requires SingleDefs(f) && b < |f.blocks|
    ensures forall p | p in f.blocks[b].params :: p <= |f.vals|
    ensures forall i | 0 <= i < |f.blocks[b].insts| :: f.blocks[b].insts[i].result <= |f.vals|
    ensures forall id | id in DefsBefore(f, b) || id in BlockDefs(f.blocks[b]) :: id <= |f.vals|
  {
    var block := f.blocks[b];
    AllDefs(f, b);
    AllDefs(f, b + 1);
    NonZeroFrom(block.params);
    NonZeroFrom(Results(block.insts));
    assert forall id | id in BlockDefs(block) :: id in DefsBefore(f, b + 1);
    forall p | p in block.params && p != 0
      ensures p in BlockDefs(block)
    {
      assert p in NonZero(block.params);
    }
    forall i | 0 <= i < |block.insts| && block.insts[i].result != 0
      ensures block.insts[i].result in BlockDefs(block)
    {
      assert Results(block.insts)[i] == block.insts[i].result;
      assert block.insts[i].result in NonZero(Results(block.insts));
    }
  }

  // Among the legalised definitions the old ones stand as they stood, and the new
  // ones are the ids after them, in order.
  lemma {:induction false} DefsSplit(syms: seq<string>, f: Func, k: nat)
    requires SingleDefs(f) && AllKnown(f.blocks) && k <= |f.blocks|
    ensures var r, n := LegaliseBlocks(Tables(syms, f.vals), f.blocks, k), |f.vals|;
            && |r.tables.vals| >= n && Small(DefsBefore(Func(f.paramVals, r.blocks, r.tables.vals), k), n) == DefsBefore(f, k)
            && Large(DefsBefore(Func(f.paramVals, r.blocks, r.tables.vals), k), n) == UpTo(n, |r.tables.vals|)
  {
    hide LegaliseInsts, SingleDefs, BlockDefs, AllKnown, Small, Large, UpTo, NonZero;
    var t, n := Tables(syms, f.vals), |f.vals|;
    var r := LegaliseBlocks(t, f.blocks, k);
    if k == 0 {
      ParamsSmall(f);
      AllSmall(NonZero(f.paramVals), n);
      NothingNew(n);
    } else {
      var before := LegaliseBlocks(t, f.blocks, k - 1);
      DefsSplit(syms, f, k - 1);
      assert r.blocks[..k - 1] == before.blocks == before.blocks[..k - 1];
      DefsOfFront(f.paramVals, before.blocks, r.blocks, before.tables.vals, r.tables.vals, k - 1);
      BlockSplit(before.tables, f, k);
      SplitStep(DefsBefore(Func(f.paramVals, r.blocks, r.tables.vals), k - 1), BlockDefs(r.blocks[k - 1]),
                n, |before.tables.vals|, |r.tables.vals|);
    }
  }

  lemma NothingNew(n: nat)
    ensures UpTo(n, n) == []
  {
  }

  lemma SplitStep(a: seq<nat>, b: seq<nat>, n: nat, u: nat, v: nat)
    requires n <= u <= v && Large(a, n) == UpTo(n, u) && Large(b, n) == UpTo(u, v)
    ensures Small(a + b, n) == Small(a, n) + Small(b, n) && Large(a + b, n) == UpTo(n, v)
  {
    SplitJoins(a, b, n);
    UpToJoins(n, u, v);
  }

  lemma ParamsSmall(f: Func)
    requires SingleDefs(f)
    ensures forall x | x in NonZero(f.paramVals) :: x <= |f.vals|
  {
    AllDefs(f, 0);
    assert DefsBefore(f, 0) == NonZero(f.paramVals);
  }

  lemma BlockSplit(t: Tables, f: Func, k: nat)
    requires SingleDefs(f) && AllKnown(f.blocks) && 0 < k <= |f.blocks| && |f.vals| <= |t.vals|
    ensures var block, n := f.blocks[k - 1], |f.vals|;
            var o := LegaliseInsts(t, k, block.insts);
            && |o.tables.vals| >= |t.vals| && Small(BlockDefs(block.(insts := o.insts)), n) == BlockDefs(block)
            && Large(BlockDefs(block.(insts := o.insts)), n) == UpTo(|t.vals|, |o.tables.vals|)
  {
    hide LegaliseInsts, SingleDefs, KnownPredicates;
    var block, n := f.blocks[k - 1], |f.vals|;
    assert KnownPredicates(block.insts);
    var o := LegaliseInsts(t, k, block.insts);
    BlockIdsSmall(f, k - 1);
    IdsFresh(t, k, block.insts, n);
    ResultsSplit(o.insts, n);
    ResultsSplit(block.insts, n);
    NonZeroFrom(block.params);
    AllSmall(NonZero(block.params), n);
    assert forall id | id in NonZero(Results(block.insts)) :: id in BlockDefs(block);
    AllSmall(NonZero(Results(block.insts)), n);
    SplitJoins(NonZero(block.params), NonZero(Results(o.insts)), n);
  }

  // Splicing keeps one definition for each value.
  lemma LegalisedSingleDefs(syms: seq<string>, w: Work)
    requires Ready(w) && AllKnown(w.func.blocks)
    ensures SingleDefs(LegalisedFunc(syms, w.func))
  {
    hide LegaliseBlocks, AllKnown, InstCount;
    var f, n := w.func, |w.func.vals|;
    var g := LegalisedFunc(syms, f);
    DefsSplit(syms, f, |f.blocks|);
    LegaliseKeeps.BlocksGrow(Tables(syms, f.vals), f.blocks, 0, |f.blocks|);
    NoBlocks(Tables(syms, f.vals), f.blocks);
    UpToDistinct(n, |g.vals|);
    SplitDistinct(Defs(g), n);
    SplitFrom(Defs(g), n);
    forall id | id in Defs(g)
      ensures 0 < id <= |g.vals|
    {
      assert id in Small(Defs(g), n) || id in Large(Defs(g), n);
    }
  }

  lemma NoBlocks(t: Tables, blocks: seq<Block>)
    requires AllKnown(blocks)
    ensures LegaliseBlocks(t, blocks, 0) == Legalised(t, []) && InstCount(blocks, 0) == 0
  {
  }

  // --- without a comparison nothing is spliced in ----------------------------------------------------

  lemma {:induction false} NoCompareInsts(t: Tables, block: nat, insts: seq<Inst>)
    requires KnownPredicates(insts) && forall i | 0 <= i < |insts| :: !IsCompare(insts[i])
    ensures LegaliseInsts(t, block, insts).tables.vals == t.vals
    decreases |insts|
  {
    if insts != [] {
      NoCompareInsts(LegaliseInst(t, block, insts[0]).tables, block, insts[1..]);
    }
  }

  lemma {:induction false} NoCompareBlocks(t: Tables, blocks: seq<Block>, k: nat)
    requires AllKnown(blocks) && k <= |blocks| && !HasCompare(blocks)
    ensures LegaliseBlocks(t, blocks, k).tables.vals == t.vals
  {
    hide LegaliseInsts;
    if k > 0 {
      NoCompareBlocks(t, blocks, k - 1);
      NoCompareInsts(LegaliseBlocks(t, blocks, k - 1).tables, k, blocks[k - 1].insts);
    }
  }

  lemma NothingSpliced(syms: seq<string>, f: Func)
    requires SingleDefs(f) && AllKnown(f.blocks) && !HasCompare(f.blocks)
    ensures LegalisedFunc(syms, f).vals == f.vals && Defs(LegalisedFunc(syms, f)) == Defs(f)
  {
    hide LegaliseBlocks, AllKnown, HasCompare, SingleDefs;
    NoCompareBlocks(Tables(syms, f.vals), f.blocks, |f.blocks|);
    DefsSplit(syms, f, |f.blocks|);
    NoneLarge(Defs(LegalisedFunc(syms, f)), |f.vals|);
  }

  // --- what the pass leaves --------------------------------------------------------------------------

  // Renumbering changes neither opcodes nor types.
  lemma RenamedNeedsRuntime(defs: seq<nat>, nold: nat, inst: Inst)
    ensures NeedsRuntime(RenamedInst(defs, nold, inst)) == NeedsRuntime(inst)
  {
    hide NewId;
  }

  ghost predicate NothingForRuntime(f: Func) {
    forall b, i | 0 <= b < |f.blocks| && 0 <= i < |f.blocks[b].insts| :: !NeedsRuntime(f.blocks[b].insts[i])
  }

  lemma LegalisedNothingLeft(syms: seq<string>, f: Func)
    requires AllKnown(f.blocks)
    ensures NothingForRuntime(LegalisedFunc(syms, f))
  {
    hide LegaliseBlocks, NeedsRuntime, AllKnown;
    FunctionLegal(Tables(syms, f.vals), f.blocks);
    var g := LegalisedFunc(syms, f);
    forall b, i | 0 <= b < |g.blocks| && 0 <= i < |g.blocks[b].insts|
      ensures !NeedsRuntime(g.blocks[b].insts[i])
    {
      assert g.blocks[b].insts[i] in g.blocks[b].insts;
    }
  }

  lemma RenumberedNothingLeft(f: Func)
    requires NothingForRuntime(f)
    ensures NothingForRuntime(Renumbered(f))
  {
    hide NeedsRuntime, Defs, RenamedInst, InfosBefore;
    var g := Renumbered(f);
    forall b, i | 0 <= b < |g.blocks| && 0 <= i < |g.blocks[b].insts|
      ensures !NeedsRuntime(g.blocks[b].insts[i])
    {
      RenamedNeedsRuntime(Defs(f), |f.vals|, f.blocks[b].insts[i]);
    }
  }

  // Values are numbered in document order, with no entry to spare.
  ghost predicate InOrder(f: Func) {
    Counting(Defs(f)) && |f.vals| == |Defs(f)|
  }

  // Every function ends with nothing for the runtime to do and one definition for
  // each value, and its values are numbered in document order if they were before
  // or if anything was spliced in.
  lemma FinishedFunc(syms: seq<string>, w: Work)
    requires Ready(w) && AllKnown(w.func.blocks)
    ensures var f := Finished(syms, w).func;
            && NothingForRuntime(f) && SingleDefs(f)
            && (HasCompare(w.func.blocks) || InOrder(w.func) ==> InOrder(f))
  {
    hide LegaliseBlocks, AllKnown, HasCompare, NothingForRuntime, Renumbered, Defs, InstCount;
    var g := LegalisedFunc(syms, w.func);
    LegalisedSingleDefs(syms, w);
    LegalisedNothingLeft(syms, w.func);
    if HasCompare(w.func.blocks) {
      RenumberedNothingLeft(g);
      NumberedInOrder(g);
      DefsFit(g);
      CountingIsSingle(Renumbered(g));
    } else {
      NothingSpliced(syms, w.func);
    }
  }

  lemma CountingIsSingle(f: Func)
    requires Counting(Defs(f)) && |f.vals| == |Defs(f)| < ID_LIMIT
    ensures SingleDefs(f)
  {
    hide Defs;
  }

  lemma ModuleFinished(syms: seq<string>, ws: seq<Work>, i: nat)
    requires ModuleKnown(ws) && i < |ws| && Ready(ws[i])
    ensures var f := AllFinished(syms, ws, |ws|)[i].func;
            && NothingForRuntime(f) && SingleDefs(f)
            && (HasCompare(ws[i].func.blocks) || InOrder(ws[i].func) ==> InOrder(f))
  {
    hide Finished, SymsAfter, NothingForRuntime, HasCompare, Defs;
    FinishedFunc(SymsAfter(syms, ws, i), ws[i]);
  }

  // --- the pass ----------------------------------------------------------------------------------------

  method FindCompare(blocks: seq<Block>) returns (spliced: bool)
    ensures spliced <==> HasCompare(blocks)
  {
    spliced := exists b, i :: 0 <= b < |blocks| && 0 <= i < |blocks[b].insts| && IsCompare(blocks[b].insts[i]);
  }

  method RenumberWork(g: Func, slots: seq<nat>) returns (w: Work)
    requires SingleDefs(g)
    ensures w == Work(Renumbered(g), RenamedSlots(g, slots))
  {
    hide Renumbered, RenamedSlot, SingleDefs;
    var f := new IrFunc(g);
    var a := new nat[|slots|](i requires 0 <= i < |slots| => slots[i]);
    IrFuncRenumber(f, a);
    w := Work(Func(f.paramVals, f.blocks[..f.nblocks], f.vals[..f.nvals]), a[..]);
    assert a[..] == RenamedSlots(g, slots);
  }

  // Only where the machine cannot compute with binary128 itself; fails exactly on
  // an unknown predicate.
  method LowerLegalizeModule(needed: bool, syms: seq<string>, ws: seq<Work>) returns (ok: bool, syms': seq<string>, ws': seq<Work>)
    requires forall i | 0 <= i < |ws| :: Ready(ws[i])
    ensures !needed ==> ok && syms' == syms && ws' == ws
    ensures needed ==> (ok <==> ModuleKnown(ws))
    ensures needed && ok ==> syms' == SymsAfter(syms, ws, |ws|) && ws' == AllFinished(syms, ws, |ws|)
  {
    hide AllKnown, HasCompare, LegaliseBlocks, Finished, RenamedSlots, Renumbered, ModuleKnown, SymsAfter, AllFinished, Ready, SingleDefs;
    ok, syms', ws' := true, syms, ws;
    if !needed {
      return;
    }
    ws' := [];
    var fi := 0;
    NoFuncs(syms, ws);
    while fi < |ws|
      invariant 0 <= fi <= |ws| && ModuleKnown(ws[..fi])
      invariant syms' == SymsAfter(syms, ws[..fi], fi) && ws' == AllFinished(syms, ws[..fi], fi)
    {
      var f := ws[fi].func;
      var legal, r := LowerLegalizeF128(Tables(syms', f.vals), f.blocks);
      if !legal {
        NotKnown(ws, fi);
        return false, syms', ws';
      }
      var w := Work(Func(f.paramVals, r.blocks, r.tables.vals), ws[fi].slots);
      var spliced := FindCompare(f.blocks);
      FinishedIs(syms', ws[fi]);
      if spliced {
        LegalisedSingleDefs(syms', ws[fi]);
        w := RenumberWork(w.func, w.slots);
      }
      OneMoreFunc(syms, ws, fi);
      syms', ws' := r.tables.syms, ws' + [w];
      fi := fi + 1;
    }
    assert ws[..fi] == ws;
  }

  lemma NoFuncs(syms: seq<string>, ws: seq<Work>)
    ensures ModuleKnown(ws[..0]) && SymsAfter(syms, ws[..0], 0) == syms && AllFinished(syms, ws[..0], 0) == []
  {
  }

  lemma NotKnown(ws: seq<Work>, i: nat)
    requires i < |ws| && !AllKnown(ws[i].func.blocks)
    ensures !ModuleKnown(ws)
  {
  }

  lemma FinishedIs(syms: seq<string>, w: Work)
    requires AllKnown(w.func.blocks)
    ensures var g := LegalisedFunc(syms, w.func);
            Finished(syms, w) ==
              if HasCompare(w.func.blocks)
              then Work(Renumbered(g), RenamedSlots(g, w.slots))
              else Work(g, w.slots)
  {
    hide LegalisedFunc, Renumbered, RenamedSlots, HasCompare, AllKnown;
  }

  lemma OneMoreFunc(syms: seq<string>, ws: seq<Work>, k: nat)
    requires k < |ws| && ModuleKnown(ws[..k]) && AllKnown(ws[k].func.blocks)
    ensures ModuleKnown(ws[..k + 1])
    ensures SymsAfter(syms, ws[..k + 1], k + 1) == LegalisedSyms(SymsAfter(syms, ws[..k], k), ws[k].func)
    ensures AllFinished(syms, ws[..k + 1], k + 1) == AllFinished(syms, ws[..k], k) + [Finished(SymsAfter(syms, ws[..k], k), ws[k])]
  {
    hide AllKnown, LegalisedSyms, Finished;
    assert ModuleKnown(ws[..k + 1]);
    forall i: nat | i <= k
      ensures SymsAfter(syms, ws[..k + 1], i) == SymsAfter(syms, ws[..k], i)
    {
      SymsOfFront(syms, ws[..k], ws[..k + 1], i);
    }
  }

  lemma {:induction false} SymsOfFront(syms: seq<string>, some: seq<Work>, all: seq<Work>, i: nat)
    requires i <= |some| && some <= all && ModuleKnown(some) && ModuleKnown(all)
    ensures SymsAfter(syms, some, i) == SymsAfter(syms, all, i)
  {
    hide LegalisedSyms, AllKnown;
    if i > 0 {
      SymsOfFront(syms, some, all, i - 1);
    }
  }
}
