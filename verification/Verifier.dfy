/** The IR verifier's structural checks: uses are dominated by definitions,
    edges match block parameters, terminators sit last, the entry has no
    predecessors and every block is reachable. The per-opcode checks (types,
    flags, alignments, callees) enter as a predicate on instruction positions. */
module Verifier {
  import opened Ir
  import opened Cfg
  import opened Dominators

  // --- what the verifier accepts, stated over paths ------------------------------

  function UsedId(o: Operand): nat {
    o.a % ID_LIMIT
  }

  ghost predicate UseOk(f: Func, o: Operand, block: nat, pos: nat) {
    o.kind == OpValue ==>
      && 0 < UsedId(o) <= |f.vals|
      && var vi := f.vals[UsedId(o) - 1];
         match vi.kind
         case DefNone => false
         case DefFparam => true
         case DefBparam => vi.block == block || BlockDominates(f.blocks, vi.block, block)
         case DefInst => if vi.block == block then vi.pos < pos else BlockDominates(f.blocks, vi.block, block)
  }

  ghost predicate UsesOk(f: Func, os: seq<Operand>, block: nat, pos: nat) {
    forall o | o in os :: UseOk(f, o, block, pos)
  }

  predicate IsVectorType(ty: nat) {
    TYPE_V16I8 <= ty <= TYPE_V2F64
  }

  predicate EdgeFits(f: Func, e: Edge) {
    && 0 < e.target <= |f.blocks|
    && var params := f.blocks[e.target - 1].params;
       && |e.args| == |params|
       && forall j | 0 <= j < |params| ::
            && 0 < params[j] <= |f.vals| && e.args[j].ty == f.vals[params[j] - 1].ty
            && (IsVectorType(e.args[j].ty) ==> e.args[j].kind == OpValue || e.args[j].kind == OpUndef)
  }

  ghost predicate EdgeOk(f: Func, e: Edge, block: nat, pos: nat) {
    UsesOk(f, e.args, block, pos) && EdgeFits(f, e)
  }

  ghost predicate EdgesOk(f: Func, es: seq<Edge>, block: nat, pos: nat) {
    forall e | e in es :: EdgeOk(f, e, block, pos)
  }

  ghost predicate InstOk(f: Func, instOk: (nat, nat) -> bool, b: nat, pos: nat)
    requires b < |f.blocks| && pos < |f.blocks[b].insts|
  {
    var inst := f.blocks[b].insts[pos];
    && inst.op < IR_VA_ARG
    && UsesOk(f, inst.ops, b + 1, pos) && EdgesOk(f, inst.edges, b + 1, pos)
    && instOk(b, pos)
  }

  predicate TerminatorLast(block: Block) {
    && block.insts != []
    && forall k | 0 <= k < |block.insts| :: IsTerminator(block.insts[k].op) <==> k == |block.insts| - 1
  }

  ghost predicate BlockOk(f: Func, instOk: (nat, nat) -> bool, b: nat)
    requires b < |f.blocks|
  {
    && Reachable(f.blocks, b) && TerminatorLast(f.blocks[b])
    && forall pos: nat | pos < |f.blocks[b].insts| :: InstOk(f, instOk, b, pos)
  }

  predicate LeavesEntryAlone(block: Block) {
    forall inst, e | inst in block.insts && e in inst.edges :: e.target != 1
  }

  ghost predicate Accepts(f: Func, instOk: (nat, nat) -> bool) {
    && f.blocks != [] && f.blocks[0].params == []
    && (forall b | 0 <= b < |f.blocks| :: LeavesEntryAlone(f.blocks[b]))
    && (forall b: nat | b < |f.blocks| :: BlockOk(f, instOk, b))
  }

  // Block parameters name entries of the value table.
  predicate ParamsTabled(f: Func) {
    forall b, j | 0 <= b < |f.blocks| && 0 <= j < |f.blocks[b].params| :: 0 < f.blocks[b].params[j] <= |f.vals|
  }

  // --- the checks ------------------------------------------------------------------

  method CheckUse(f: Func, o: Operand, block: nat, pos: nat, dom: IrDomTree) returns (ok: bool)
    requires dom.Valid(f.blocks)
    ensures ok <==> UseOk(f, o, block, pos)
  {
    if o.kind != OpValue {
      return true;
    }
    var id := o.a % ID_LIMIT;
    if id == 0 || id > |f.vals| {
      return false;
    }
    var vi := f.vals[id - 1];
    match vi.kind {
      case DefFparam =>
        return true;
      case DefBparam =>
        if vi.block == block {
          return true;
        }
      case DefInst =>
        if vi.block == block {
          return vi.pos < pos;
        }
      case DefNone =>
        return false;
    }
    ok := dom.IrDominates(vi.block, block, f.blocks);
  }

  method CheckUses(f: Func, os: seq<Operand>, block: nat, pos: nat, dom: IrDomTree) returns (ok: bool)
    requires dom.Valid(f.blocks)
    ensures ok <==> UsesOk(f, os, block, pos)
  {
    ok := true;
    var i := 0;
    while i < |os|
      invariant 0 <= i <= |os|
      invariant ok <==> UsesOk(f, os[..i], block, pos)
    {
      var good := CheckUse(f, os[i], block, pos, dom);
      ok := ok && good;
      assert os[..i + 1] == os[..i] + [os[i]];
      i := i + 1;
    }
    assert os[..i] == os;
  }

  method CheckEdgeFits(f: Func, e: Edge) returns (ok: bool)
    requires ParamsTabled(f)
    ensures ok <==> EdgeFits(f, e)
  {
    if e.target == 0 || e.target > |f.blocks| {
      return false;
    }
    var target := f.blocks[e.target - 1];
    if |e.args| != |target.params| {
      return false;
    }
    ok := true;
    var j := 0;
    while j < |e.args|
      invariant 0 <= j <= |e.args|
      invariant ok <==> forall k | 0 <= k < j ::
          && e.args[k].ty == f.vals[target.params[k] - 1].ty
          && (IsVectorType(e.args[k].ty) ==> e.args[k].kind == OpValue || e.args[k].kind == OpUndef)
    {
      var want := f.vals[target.params[j] - 1].ty;
      if IsVectorType(e.args[j].ty) && e.args[j].kind != OpValue && e.args[j].kind != OpUndef {
        ok := false;
      }
      if e.args[j].ty != want {
        ok := false;
      }
      j := j + 1;
    }
  }

  method CheckEdges(f: Func, es: seq<Edge>, block: nat, pos: nat, dom: IrDomTree) returns (ok: bool)
    requires dom.Valid(f.blocks) && ParamsTabled(f)
    ensures ok <==> EdgesOk(f, es, block, pos)
  {
    hide UsesOk, EdgeFits;
    ok := true;
    var i := 0;
    while i < |es|
      invariant 0 <= i <= |es|
      invariant ok <==> EdgesOk(f, es[..i], block, pos)
    {
      var used := CheckUses(f, es[i].args, block, pos, dom);
      var fits := CheckEdgeFits(f, es[i]);
      assert EdgeOk(f, es[i], block, pos) <==> used && fits;
      ok := ok && used && fits;
      assert es[..i + 1] == es[..i] + [es[i]];
      assert forall e | e in es[..i] :: e in es[..i + 1];
      i := i + 1;
    }
    assert es[..i] == es;
  }

  method CheckTerminators(block: Block) returns (ok: bool)
    ensures ok <==> TerminatorLast(block)
  {
    if block.insts == [] {
      return false;
    }
    var n := |block.insts|;
    var nterm, pos := 0, 0;
    ok := true;
    while pos < n
      invariant 0 <= pos <= n && 0 <= nterm <= pos
      invariant ok <==> forall k | 0 <= k < pos && k < n - 1 :: !IsTerminator(block.insts[k].op)
      invariant ok ==> nterm == (if pos == n && IsTerminator(block.insts[n - 1].op) then 1 else 0)
    {
      if IsTerminator(block.insts[pos].op) {
        nterm := nterm + 1;
        if pos + 1 < n {
          ok := false;
        }
      }
      pos := pos + 1;
    }
    if nterm == 0 || nterm > 1 {
      ok := false;
    }
  }

  method CheckBlock(f: Func, instOk: (nat, nat) -> bool, b: nat, dom: IrDomTree) returns (ok: bool)
    requires dom.Valid(f.blocks) && ParamsTabled(f) && b < |f.blocks|
    ensures ok <==> BlockOk(f, instOk, b)
  {
    hide UsesOk, EdgesOk, TerminatorLast, Reachable, Dominates;
    // The entry dominates exactly the reachable blocks.
    var reached := true;
    if b != 0 {
      reached := dom.IrDominates(1, b + 1, f.blocks);
    }
    EntryReaches(f.blocks, b);
    if !reached {
      return false;
    }
    ok := CheckTerminators(f.blocks[b]);
    if f.blocks[b].insts == [] {
      EmptyNotTerminated(f.blocks[b]);
      return false;
    }
    var pos := 0;
    while pos < |f.blocks[b].insts|
      invariant 0 <= pos <= |f.blocks[b].insts|
      invariant ok <==> TerminatorLast(f.blocks[b]) && forall p: nat | p < pos :: InstOk(f, instOk, b, p)
    {
      var inst := f.blocks[b].insts[pos];
      var good := inst.op < IR_VA_ARG;
      if good {
        var used := CheckUses(f, inst.ops, b + 1, pos, dom);
        var edges := CheckEdges(f, inst.edges, b + 1, pos, dom);
        good := used && edges && instOk(b, pos);
      }
      assert good <==> InstOk(f, instOk, b, pos);
      ok := ok && good;
      pos := pos + 1;
    }
  }

  lemma EmptyNotTerminated(block: Block)
    requires block.insts == []
    ensures !TerminatorLast(block)
  {
  }

  lemma EntryReaches(g: Graph, b: nat)
    requires b < |g|
    ensures b == 0 ==> Reachable(g, b)
    ensures b != 0 ==> (BlockDominates(g, 1, b + 1) <==> Reachable(g, b))
  {
    EntryReachable(g);
  }

  // Runs every check over the whole function; never stops at the first failure.
  method VerifyFunc(f: Func, instOk: (nat, nat) -> bool) returns (ok: bool)
    requires |f.blocks| < NONE && ParamsTabled(f)
    ensures ok <==> Accepts(f, instOk)
  {
    hide BlockOk, LeavesEntryAlone;
    var dom := new IrDomTree.Build(f.blocks);
    if |f.blocks| == 0 {
      return false;
    }
    ok := CheckEntry(f);
    var good := CheckBlocks(f, instOk, dom);
    ok := ok && good;
  }

  method CheckBlocks(f: Func, instOk: (nat, nat) -> bool, dom: IrDomTree) returns (ok: bool)
    requires dom.Valid(f.blocks) && |f.blocks| < NONE && ParamsTabled(f)
    ensures ok <==> forall b: nat | b < |f.blocks| :: BlockOk(f, instOk, b)
  {
    hide BlockOk, ParamsTabled;
    ok := true;
    var bi := 0;
    while bi < |f.blocks|
      invariant 0 <= bi <= |f.blocks|
      invariant ok <==> forall b: nat | b < bi :: BlockOk(f, instOk, b)
    {
      var good := CheckBlock(f, instOk, bi, dom);
      ok := ok && good;
      bi := bi + 1;
    }
  }

  method CheckEntry(f: Func) returns (ok: bool)
    requires |f.blocks| > 0
    ensures ok <==> f.blocks[0].params == [] && forall b | 0 <= b < |f.blocks| :: LeavesEntryAlone(f.blocks[b])
  {
    hide LeavesEntryAlone;
    ok := f.blocks[0].params == [];
    var bi := 0;
    while bi < |f.blocks|
      invariant 0 <= bi <= |f.blocks|
      invariant ok <==> f.blocks[0].params == [] && forall b | 0 <= b < bi :: LeavesEntryAlone(f.blocks[b])
    {
      var clean := CheckEntryTargets(f.blocks[bi]);
      ok := ok && clean;
      bi := bi + 1;
    }
  }

  method CheckEntryTargets(block: Block) returns (ok: bool)
    ensures ok <==> LeavesEntryAlone(block)
  {
    ok := true;
    var i := 0;
    while i < |block.insts|
      invariant 0 <= i <= |block.insts|
      invariant ok <==> forall k, e | 0 <= k < i && e in block.insts[k].edges :: e.target != 1
    {
      var es := block.insts[i].edges;
      var j := 0;
      ghost var before := ok;
      while j < |es|
        invariant 0 <= j <= |es|
        invariant ok <==> before && forall e | e in es[..j] :: e.target != 1
      {
        if es[j].target == 1 {
          ok := false;
        }
        assert es[..j + 1] == es[..j] + [es[j]];
        j := j + 1;
      }
      assert es[..j] == es;
      i := i + 1;
    }
  }
}
