/** Reading back printed blocks and functions. */
module IrTripFunc {
  import opened Shared
  import opened Ir
  import opened IrNames
  import opened IrTokens
  import opened IrPrint
  import opened IrParse
  import opened IrTripOperands
  import opened IrTripLists
  import opened IrTripInsts
  import opened IrTripMemory
  import opened IrTripBlocks
  import opened IrTripScan
  import opened IrTripShape
  import Renumbering
  import Renumber
  import Verifier

  // --- how many values are defined where -----------------------------------------------------

  function AtBlock(f: Func, b: nat): nat
    requires b <= |f.blocks|
  {
    |Renumbering.DefsBefore(f, b)|
  }

  // Before instruction i of block b, the parameters of b being defined.
  function AtInst(f: Func, b: nat, i: nat): nat
    requires b < |f.blocks| && i <= |f.blocks[b].insts|
  {
    AtBlock(f, b) + |f.blocks[b].params| + |Renumbering.NonZero(Renumbering.Results(f.blocks[b].insts)[..i])|
  }

  predicate IdsOk(f: Func, ids: seq<nat>) {
    forall j | 0 <= j < |ids| :: 0 < ids[j] <= |f.vals| && f.vals[ids[j] - 1].ty <= TYPE_VOID
  }

  // What a function must be to be printed and read back: numbered in order, with
  // its table's types, well-formed instructions, and block names to tell apart.
  ghost predicate FuncOk(m: ModuleNames, f: Func) {
    && Canonical(f) && Distinct(m.syms) && |f.blocks| > 0
    && IdsOk(f, f.paramVals) && |f.paramVals| <= 64
    && forall b | 0 <= b < |f.blocks| :: BlockPrintable(m, f, f.blocks[b])
  }

  ghost predicate BlockPrintable(m: ModuleNames, f: Func, block: Block) {
    && IdsOk(f, block.params) && Verifier.TerminatorLast(block)
    && forall i | 0 <= i < |block.insts| :: InstPrintable(m, f, block.insts[i])
  }

  ghost predicate InstPrintable(m: ModuleNames, f: Func, inst: Inst) {
    InstOk(m, f, inst) && (inst.result != 0 ==> inst.result <= |f.vals| && f.vals[inst.result - 1].ty == inst.ty)
  }

  lemma {:induction false} AllNonZero(ids: seq<nat>)
    requires forall j | 0 <= j < |ids| :: ids[j] != 0
    ensures Renumbering.NonZero(ids) == ids
  {
    if ids != [] {
      var front := ids[..|ids| - 1];
      AllNonZero(front);
      assert ids[|ids| - 1] != 0;
      assert ids == front + [ids[|ids| - 1]];
    }
  }

  lemma DefsDistinct(f: Func)
    requires Canonical(f)
    ensures Distinct(Renumbering.Defs(f))
  {
  }

  // The ids of a list that comes next are the next numbers.
  lemma NextIds(f: Func, at: nat, ids: seq<nat>, i: nat)
    requires Canonical(f) && Renumber.Upcoming(Renumbering.Defs(f), at, ids) && i < |ids| && ids[i] != 0
    ensures ids[i] == at + |Renumbering.NonZero(ids[..i])| + 1 <= |f.vals|
  {
    hide Renumber.Upcoming, Renumbering.NonZero, Renumbering.NewId, Renumbering.DefsBefore;
    DefsDistinct(f);
    Renumber.UpcomingAt(Renumbering.Defs(f), at, ids, i);
  }

  lemma ParamsNext(f: Func, at: nat, ids: seq<nat>)
    requires Canonical(f) && Renumber.Upcoming(Renumbering.Defs(f), at, ids) && IdsOk(f, ids)
    ensures at + |ids| <= |f.vals| && forall j | 0 <= j < |ids| :: ids[j] == at + j + 1
  {
    hide Canonical, Renumber.Upcoming, Renumbering.NonZero;
    AllNonZero(ids);
    forall j | 0 <= j < |ids|
      ensures ids[j] == at + j + 1
    {
      NextIds(f, at, ids, j);
      AllNonZero(ids[..j]);
    }
    Renumber.UpcomingFits(Renumbering.Defs(f), at, ids, |ids|);
    CanonicalCount(f);
  }

  lemma CanonicalCount(f: Func)
    requires Canonical(f)
    ensures |f.vals| == |Renumbering.Defs(f)|
  {
  }

  lemma InstNext(m: ModuleNames, f: Func, b: nat, i: nat)
    requires FuncOk(m, f) && b < |f.blocks| && i < |f.blocks[b].insts|
    ensures ResultOk(f, f.blocks[b].insts[i], AtInst(f, b, i))
    ensures AtInst(f, b, i + 1) == After(f.blocks[b].insts[i], AtInst(f, b, i))
  {
    hide Canonical, Renumber.Upcoming, Renumbering.NonZero, Renumbering.DefsBefore, InstOk;
    var block := f.blocks[b];
    var inst, ids := block.insts[i], Renumbering.Results(block.insts);
    assert BlockPrintable(m, f, block) && InstPrintable(m, f, inst);
    Renumber.BlockUpcoming(f, b);
    ParamIdsNonZero(f, block.params);
    AllNonZero(block.params);
    Renumber.NonZeroStep(ids, i);
    assert ids[i] == inst.result;
    var at := AtBlock(f, b) + |block.params|;
    Renumber.UpcomingFits(Renumbering.Defs(f), at, ids, i);
    CanonicalCount(f);
    if inst.result != 0 {
      NextIds(f, at, ids, i);
    }
  }

  lemma ParamIdsNonZero(f: Func, ids: seq<nat>)
    requires IdsOk(f, ids)
    ensures forall j | 0 <= j < |ids| :: ids[j] != 0
  {
  }

  lemma BlockNext(m: ModuleNames, f: Func, b: nat)
    requires FuncOk(m, f) && b < |f.blocks|
    ensures var params := f.blocks[b].params;
            && AtBlock(f, b) + |params| <= |f.vals|
            && (forall j | 0 <= j < |params| :: params[j] == AtBlock(f, b) + j + 1)
            && AtInst(f, b, 0) == AtBlock(f, b) + |params|
            && AtInst(f, b, |f.blocks[b].insts|) == AtBlock(f, b + 1) <= |f.vals|
  {
    hide Canonical, Renumber.Upcoming, Renumbering.NonZero, Renumbering.DefsBefore, InstOk;
    var block := f.blocks[b];
    assert BlockPrintable(m, f, block);
    Renumber.BlockUpcoming(f, b);
    ParamsNext(f, AtBlock(f, b), block.params);
    ParamIdsNonZero(f, block.params);
    AllNonZero(block.params);
    Renumber.NextDefs(f, b);
    Renumbering.DefsPrefix(f, b + 1, |f.blocks|);
    CanonicalCount(f);
    var ids := Renumbering.Results(block.insts);
    assert ids[..|ids|] == ids;
    NoneYet(ids);
  }

  lemma NoneYet(ids: seq<nat>)
    ensures Renumbering.NonZero(ids[..0]) == []
  {
  }

  // --- instruction lists -------------------------------------------------------------------------

  // What a block's instructions come back as.
  function DropInsts(f: Func, b: nat): (r: seq<Inst>)
    requires b < |f.blocks|
    ensures |r| == |f.blocks[b].insts|
  {
    var insts := f.blocks[b].insts;
    seq(|insts|, i requires 0 <= i < |insts| => DropInst(insts[i], AtInst(f, b, i + 1)))
  }

  predicate ListLeads(xs: seq<SlotInst>, insts: seq<Inst>) {
    |xs| == |insts| && forall i | 0 <= i < |xs| :: InstLeads(xs[i], insts[i])
  }

  // The next block header, or the end.
  predicate EndsInsts(k: Known, rest: seq<Tok>) {
    (Front(rest).RB? || AtHeader(k, rest)) && EndsBlock(rest) && SafeFront(rest)
  }

  lemma ShapedBlock(m: ModuleNames, f: Func, block: Block)
    requires BlockPrintable(m, f, block)
    ensures AllShaped(block.insts)
  {
    hide InstOk, Shaped;
    forall i | 0 <= i < |block.insts|
      ensures Shaped(block.insts[i])
    {
      assert InstPrintable(m, f, block.insts[i]);
      ShapeOk(m, f, block.insts[i]);
    }
  }

  lemma InstStarts(m: ModuleNames, f: Func, k: Known, inst: Inst, rest: seq<Tok>)
    requires InstOk(m, f, inst) && Shaped(inst)
    ensures StartsInst(InstToks(m, f, inst, rest)) && |InstToks(m, f, inst, rest)| > |rest|
    ensures var ts := InstToks(m, f, inst, rest); !Front(ts).RB? && !AtHeader(k, ts)
  {
    hide Body, ValTok, OpName, OpNumber, InstOk, Shaped;
    InstFacts(m, f, inst);
    BodyStarts(m, f, inst, rest);
    BodyStarts(m, f, inst, []);
    OpNameBack(inst.op);
    ValTokShape(f, inst.result);
    InstJoin(m, f, inst, [], rest);
    assert [] + rest == rest;
  }

  // Instructions i on of block b, printed before rest, come back.
  ghost predicate ReadsBack(m: ModuleNames, f: Func, k: Known, b: nat, i: nat, rest: seq<Tok>)
    requires b < |f.blocks| && i <= |f.blocks[b].insts| && AllShaped(f.blocks[b].insts[i..])
  {
    var insts := f.blocks[b].insts;
    && AtInst(f, b, i) <= |f.vals| && AtInst(f, b, |insts|) <= |f.vals|
    && var p := ParseInsts(k, StateAt(m, f, AtInst(f, b, i)), InstsToks(m, f, insts[i..], rest));
       p.Parsed? && p.rest == rest && p.st == StateAt(m, f, AtInst(f, b, |insts|)) && ListLeads(p.value, DropInsts(f, b)[i..])
  }

  lemma {:induction false} InstsBack(m: ModuleNames, f: Func, k: Known, b: nat, i: nat, rest: seq<Tok>)
    requires FuncOk(m, f) && BlocksKnown(k, f) && FuncsKnown(m, k) && b < |f.blocks| && i <= |f.blocks[b].insts|
    requires EndsInsts(k, rest) && AllShaped(f.blocks[b].insts) && AtInst(f, b, i) <= |f.vals|
    ensures AllShaped(f.blocks[b].insts[i..]) && ReadsBack(m, f, k, b, i, rest)
    decreases |f.blocks[b].insts| - i
  {
    hide FuncOk, BlocksKnown, FuncsKnown, EndsInsts, AllShaped, ReadsBack, AtInst;
    RestShaped(f.blocks[b].insts, i);
    if i < |f.blocks[b].insts| {
      InstAdvances(m, f, b, i);
      InstsBack(m, f, k, b, i + 1, rest);
      OneInstBack(m, f, k, b, i, rest);
      InstsStep(m, f, k, b, i, rest);
    } else {
      LastReadsBack(m, f, k, b, rest);
    }
  }

  lemma InstAdvances(m: ModuleNames, f: Func, b: nat, i: nat)
    requires FuncOk(m, f) && b < |f.blocks| && i < |f.blocks[b].insts| && AtInst(f, b, i) <= |f.vals|
    ensures AtInst(f, b, i + 1) <= |f.vals|
  {
    hide FuncOk, AtInst;
    InstNext(m, f, b, i);
    NextFits(f, f.blocks[b].insts[i], AtInst(f, b, i));
  }

  lemma LastReadsBack(m: ModuleNames, f: Func, k: Known, b: nat, rest: seq<Tok>)
    requires FuncOk(m, f) && b < |f.blocks| && EndsInsts(k, rest) && AllShaped(f.blocks[b].insts)
    requires AtInst(f, b, |f.blocks[b].insts|) <= |f.vals|
    ensures AllShaped(f.blocks[b].insts[|f.blocks[b].insts|..]) && ReadsBack(m, f, k, b, |f.blocks[b].insts|, rest)
  {
    hide FuncOk, EndsInsts, AllShaped, AtInst, ParseInsts, InstsToks, ListLeads, DropInsts, StateAt;
    RestShaped(f.blocks[b].insts, |f.blocks[b].insts|);
    NothingLeads(m, f, b, rest);
    ParseNoMore(k, StateAt(m, f, AtInst(f, b, |f.blocks[b].insts|)), rest);
  }

  // Instruction i of block b alone.
  lemma OneInstBack(m: ModuleNames, f: Func, k: Known, b: nat, i: nat, rest: seq<Tok>)
    requires FuncOk(m, f) && BlocksKnown(k, f) && FuncsKnown(m, k) && b < |f.blocks| && i < |f.blocks[b].insts|
    requires EndsInsts(k, rest) && AllShaped(f.blocks[b].insts) && AtInst(f, b, i) <= |f.vals| && AtInst(f, b, i + 1) <= |f.vals|
    ensures AllShaped(f.blocks[b].insts[i + 1..]) && Shaped(f.blocks[b].insts[i])
    ensures var inst, more := f.blocks[b].insts[i], InstsToks(m, f, f.blocks[b].insts[i + 1..], rest);
            var ts := InstToks(m, f, inst, more);
            var p := ParseInst(k, StateAt(m, f, AtInst(f, b, i)), ts);
            && p.Parsed? && p.rest == more && p.st == StateAt(m, f, AtInst(f, b, i + 1))
            && InstLeads(p.value, DropInst(inst, AtInst(f, b, i + 1)))
            && !Front(ts).RB? && !AtHeader(k, ts) && |more| < |ts|
  {
    hide FuncOk, BlocksKnown, FuncsKnown, EndsInsts, AllShaped, AtInst, InstsToks, InstToks, ParseInst, InstLeads, DropInst, AtHeader, Follows,
         InstOk, Shaped, Ready0, ResultOk, After, BlockPrintable, StateAt;
    var block, n := f.blocks[b], AtInst(f, b, i);
    BlockIs(m, f, b);
    InstIs(m, f, block, i);
    RestShaped(block.insts, i + 1);
    InstNext(m, f, b, i);
    ReadyAt(m, f, n);
    FollowedBy(m, f, k, block, i, rest);
    var more := InstsToks(m, f, block.insts[i + 1..], rest);
    InstBack(m, f, k, n, block.insts[i], more);
    InstStarts(m, f, k, block.insts[i], more);
  }

  lemma InstsStep(m: ModuleNames, f: Func, k: Known, b: nat, i: nat, rest: seq<Tok>)
    requires b < |f.blocks| && i < |f.blocks[b].insts| && AllShaped(f.blocks[b].insts)
    requires AtInst(f, b, i) <= |f.vals| && AtInst(f, b, i + 1) <= |f.vals|
    requires AllShaped(f.blocks[b].insts[i + 1..]) && Shaped(f.blocks[b].insts[i]) && ReadsBack(m, f, k, b, i + 1, rest)
    requires var inst, more := f.blocks[b].insts[i], InstsToks(m, f, f.blocks[b].insts[i + 1..], rest);
             var ts := InstToks(m, f, inst, more);
             var p := ParseInst(k, StateAt(m, f, AtInst(f, b, i)), ts);
             && p.Parsed? && p.rest == more && p.st == StateAt(m, f, AtInst(f, b, i + 1))
             && InstLeads(p.value, DropInst(inst, AtInst(f, b, i + 1)))
             && !Front(ts).RB? && !AtHeader(k, ts) && |more| < |ts|
    ensures AllShaped(f.blocks[b].insts[i..]) && ReadsBack(m, f, k, b, i, rest)
  {
    hide AllShaped, AtInst, InstsToks, InstToks, ParseInst, ParseInsts, InstLeads, DropInst, AtHeader, Shaped, StateAt, ListLeads, DropInsts;
    var insts, n := f.blocks[b].insts, AtInst(f, b, i);
    RestShaped(insts, i);
    InstsUnfold(m, f, insts, i, rest);
    var more := InstsToks(m, f, insts[i + 1..], rest);
    var ts := InstToks(m, f, insts[i], more);
    var x := ParseInst(k, StateAt(m, f, n), ts).value;
    ParseOneMore(k, StateAt(m, f, n), ts, x, StateAt(m, f, AtInst(f, b, i + 1)), more);
    ConsLeads(f, b, i, x, ParseInsts(k, StateAt(m, f, AtInst(f, b, i + 1)), more).value);
  }

  lemma ParseOneMore(k: Known, st: State, ts: seq<Tok>, x: SlotInst, st': State, rest: seq<Tok>)
    requires !Front(ts).RB? && !AtHeader(k, ts) && ParseInst(k, st, ts) == Parsed(x, st', rest) && |rest| < |ts|
    requires ParseInsts(k, st', rest).Parsed?
    ensures var more := ParseInsts(k, st', rest);
            ParseInsts(k, st, ts) == Parsed([x] + more.value, more.st, more.rest)
  {
    hide ParseInst, AtHeader;
  }

  lemma ParseNoMore(k: Known, st: State, rest: seq<Tok>)
    requires EndsInsts(k, rest)
    ensures ParseInsts(k, st, rest) == Parsed([], st, rest)
  {
    hide ParseInst, AtHeader;
  }

  lemma BlockIs(m: ModuleNames, f: Func, b: nat)
    requires FuncOk(m, f) && b < |f.blocks|
    ensures BlockPrintable(m, f, f.blocks[b])
  {
  }

  lemma ReadyAt(m: ModuleNames, f: Func, n: nat)
    requires FuncOk(m, f) && n <= |f.vals|
    ensures Ready0(m, f, n)
  {
    hide BlockPrintable, Canonical;
  }

  lemma InstIs(m: ModuleNames, f: Func, block: Block, i: nat)
    requires BlockPrintable(m, f, block) && i < |block.insts| && AllShaped(block.insts)
    ensures InstOk(m, f, block.insts[i]) && Shaped(block.insts[i])
  {
    assert InstPrintable(m, f, block.insts[i]);
  }

  lemma RestShaped(insts: seq<Inst>, i: nat)
    requires AllShaped(insts) && i <= |insts|
    ensures AllShaped(insts[i..])
  {
    hide Shaped;
  }

  lemma InstsUnfold(m: ModuleNames, f: Func, insts: seq<Inst>, i: nat, rest: seq<Tok>)
    requires AllShaped(insts) && i < |insts|
    ensures InstsToks(m, f, insts[i..], rest) == InstToks(m, f, insts[i], InstsToks(m, f, insts[i + 1..], rest))
  {
    assert insts[i..][0] == insts[i] && insts[i..][1..] == insts[i + 1..];
  }

  lemma ConsLeads(f: Func, b: nat, i: nat, x: SlotInst, more: seq<SlotInst>)
    requires b < |f.blocks| && i < |f.blocks[b].insts|
    requires InstLeads(x, DropInst(f.blocks[b].insts[i], AtInst(f, b, i + 1))) && ListLeads(more, DropInsts(f, b)[i + 1..])
    ensures ListLeads([x] + more, DropInsts(f, b)[i..])
  {
    hide InstLeads;
    var all := DropInsts(f, b)[i..];
    assert all[0] == DropInst(f.blocks[b].insts[i], AtInst(f, b, i + 1)) && all[1..] == DropInsts(f, b)[i + 1..];
    forall j | 0 <= j < |more| + 1
      ensures InstLeads(([x] + more)[j], all[j])
    {
      assert j > 0 ==> all[j] == all[1..][j - 1];
    }
  }

  lemma NothingLeads(m: ModuleNames, f: Func, b: nat, rest: seq<Tok>)
    requires b < |f.blocks| && AllShaped(f.blocks[b].insts)
    ensures ListLeads([], DropInsts(f, b)[|f.blocks[b].insts|..])
    ensures InstsToks(m, f, f.blocks[b].insts[|f.blocks[b].insts|..], rest) == rest
  {
  }

  lemma NextFits(f: Func, inst: Inst, n: nat)
    requires ResultOk(f, inst, n)
    ensures After(inst, n) <= |f.vals|
  {
  }

  lemma FollowedBy(m: ModuleNames, f: Func, k: Known, block: Block, i: nat, rest: seq<Tok>)
    requires BlockPrintable(m, f, block) && AllShaped(block.insts) && i < |block.insts| && EndsInsts(k, rest)
    ensures Follows(block.insts[i], InstsToks(m, f, block.insts[i + 1..], rest))
  {
    hide InstOk, Shaped, InstToks, AtHeader, StartsInst, EndsBlock;
    var insts := block.insts;
    if i + 1 < |insts| {
      assert InstPrintable(m, f, insts[i + 1]);
      assert insts[i + 1..][0] == insts[i + 1] && insts[i + 1..][1..] == insts[i + 2..];
      InstStarts(m, f, k, insts[i + 1], InstsToks(m, f, insts[i + 2..], rest));
    } else {
      assert insts[i + 1..] == [];
    }
  }

  // --- parameters and headers ---------------------------------------------------------------------

  predicate EndsParams(rest: seq<Tok>) {
    Front(rest).RP? || (Front(rest).Comma? && Second(rest).Ellipsis?)
  }

  lemma {:induction false} ParamsBack(m: ModuleNames, f: Func, n: nat, ids: seq<nat>, rest: seq<Tok>)
    requires Canonical(f) && IdsOk(f, ids) && ids != [] && n + |ids| <= |f.vals| && EndsParams(rest)
    requires forall j | 0 <= j < |ids| :: ids[j] == n + j + 1
    ensures ParseParams(StateAt(m, f, n), ParamToks(f, ids, rest)) == Parsed(ids, StateAt(m, f, n + |ids|), rest)
    decreases |ids|
  {
    hide Canonical, Append, StateAt, ValTok, TypeName, TypeNumber;
    var ts := ParamToks(f, ids, rest);
    var ty := f.vals[n].ty;
    assert ids[0] == n + 1;
    ValTokIs(f, n + 1);
    TypeTokBack(ty);
    OneMore(m, f, n);
    if |ids| == 1 {
      assert ts[2..] == rest;
      assert ids == [n + 1];
    } else {
      var more := ParamToks(f, ids[1..], rest);
      assert ts[2..] == [Comma] + more && ts[3..] == more;
      ParamFront(f, ids[1..], rest);
      ParamsBack(m, f, n + 1, ids[1..], rest);
      assert ids == [n + 1] + ids[1..];
    }
  }

  lemma ParamFront(f: Func, ids: seq<nat>, rest: seq<Tok>)
    requires ids != []
    ensures Front(ParamToks(f, ids, rest)).Ident?
  {
  }

  lemma OneMore(m: ModuleNames, f: Func, n: nat)
    requires n < |f.vals|
    ensures Append(StateAt(m, f, n), f.vals[n].ty, Named(Decimal(n))) == Appended(n + 1, StateAt(m, f, n + 1))
  {
    NamesMean(n, n + 1);
    assert TypesTo(f, n + 1) == TypesTo(f, n) + [f.vals[n].ty];
  }

  // --- block names --------------------------------------------------------------------------------

  function BlockNames(f: Func, b: nat): (r: seq<string>)
    requires b <= |f.blocks|
    ensures |r| == |f.blocks| - b
  {
    seq(|f.blocks| - b, i requires 0 <= i < |f.blocks| - b => f.blocks[b + i].name)
  }

  ghost predicate NamesOk(f: Func) {
    Distinct(BlockNames(f, 0)) && forall b | 0 <= b < |f.blocks| :: !Reserved(f.blocks[b].name)
  }

  lemma {:induction false} NumberedMeans(names: seq<string>, i: nat)
    requires Distinct(names) && i < |names|
    ensures names[i] in Numbered(names) && Numbered(names)[names[i]] == i + 1
  {
    var n := |names| - 1;
    if i < n {
      NumberedMeans(names[..n], i);
    }
  }

  lemma NamesAreKnown(f: Func, funcs: map<string, nat>)
    requires NamesOk(f)
    ensures BlocksKnown(Known(Numbered(BlockNames(f, 0)), funcs), f)
  {
    forall b | 0 <= b < |f.blocks|
      ensures var k := Numbered(BlockNames(f, 0)); f.blocks[b].name in k && k[f.blocks[b].name] == b + 1
    {
      NumberedMeans(BlockNames(f, 0), b);
      assert BlockNames(f, 0)[b] == f.blocks[b].name;
    }
  }

  lemma HeaderReads(m: ModuleNames, f: Func, k: Known, b: nat, rest: seq<Tok>)
    requires FuncOk(m, f) && BlocksKnown(k, f) && b < |f.blocks| && AtBlock(f, b) + |f.blocks[b].params| <= |f.vals|
    ensures var params := f.blocks[b].params;
            var ts := [Ident(f.blocks[b].name), LP] + ParamToks(f, params, [RP, Colon] + rest);
            ParseHeader(k, StateAt(m, f, AtBlock(f, b)), ts) == Parsed((f.blocks[b].name, params), StateAt(m, f, AtBlock(f, b) + |params|), rest)
  {
    hide Canonical, StateAt, ParseParams, ParamToks, AtBlock, InstPrintable;
    var params, after := f.blocks[b].params, [RP, Colon] + rest;
    var ts := [Ident(f.blocks[b].name), LP] + ParamToks(f, params, after);
    assert BlockPrintable(m, f, f.blocks[b]);
    assert ts[2..] == ParamToks(f, params, after) && after[2..] == rest;
    BlockNext(m, f, b);
    if params == [] {
      NoParams(f, after);
      assert ts[2..][1..][1..] == rest;
    } else {
      ParamFront(f, params, after);
      ParamsBack(m, f, AtBlock(f, b), params, after);
    }
  }

  lemma NoParams(f: Func, rest: seq<Tok>)
    ensures ParamToks(f, [], rest) == rest
  {
  }

  // --- blocks -----------------------------------------------------------------------------------------

  predicate BlockLeads(x: SlotBlock, f: Func, b: nat)
    requires b < |f.blocks|
  {
    x.name == f.blocks[b].name && x.params == f.blocks[b].params && ListLeads(x.insts, DropInsts(f, b))
  }

  predicate BlocksLead(xs: seq<SlotBlock>, f: Func, b: nat)
    requires b <= |f.blocks|
  {
    |xs| == |f.blocks| - b && forall i | 0 <= i < |xs| :: BlockLeads(xs[i], f, b + i)
  }

  lemma BlocksFront(m: ModuleNames, f: Func, k: Known, b: nat, rest: seq<Tok>)
    requires FuncShaped(f) && b <= |f.blocks| && NamesOk(f) && BlocksKnown(k, f)
    ensures EndsInsts(k, BlocksToks(m, f, b, [RB] + rest))
  {
    hide Reserved, BlockNames;
    if b < |f.blocks| {
      assert !Reserved(f.blocks[b].name);
      NotReserved(f.blocks[b].name);
    }
  }

  lemma NotReserved(name: string)
    requires !Reserved(name)
    ensures OpNumber(name) < 0 && TypeNumber(name) < 0 && name != "undef"
  {
  }

  lemma FuncIsShaped(m: ModuleNames, f: Func)
    requires FuncOk(m, f)
    ensures FuncShaped(f)
  {
    hide Canonical, InstPrintable;
    forall b | 0 <= b < |f.blocks|
      ensures AllShaped(f.blocks[b].insts)
    {
      assert BlockPrintable(m, f, f.blocks[b]);
      ShapedBlock(m, f, f.blocks[b]);
    }
  }

  lemma {:induction false} InstsLonger(m: ModuleNames, f: Func, insts: seq<Inst>, rest: seq<Tok>)
    requires AllShaped(insts)
    ensures |InstsToks(m, f, insts, rest)| >= |rest|
    decreases |insts|
  {
    hide InstToks, Shaped;
    if insts != [] {
      var more := InstsToks(m, f, insts[1..], rest);
      InstsLonger(m, f, insts[1..], rest);
      InstJoin(m, f, insts[0], [], more);
      assert [] + more == more;
    }
  }

  lemma {:induction false} ParamsLonger(f: Func, ids: seq<nat>, rest: seq<Tok>)
    ensures |ParamToks(f, ids, rest)| >= |rest|
    decreases |ids|
  {
    if |ids| > 1 {
      ParamsLonger(f, ids[1..], rest);
    }
  }

  lemma {:induction false} BlocksBack(m: ModuleNames, f: Func, k: Known, b: nat, rest: seq<Tok>)
    requires FuncOk(m, f) && FuncShaped(f) && NamesOk(f) && BlocksKnown(k, f) && FuncsKnown(m, k) && b <= |f.blocks|
    requires AtBlock(f, b) <= |f.vals|
    ensures var p := ParseBlocks(k, StateAt(m, f, AtBlock(f, b)), BlocksToks(m, f, b, [RB] + rest));
            p.Parsed? && p.rest == rest && p.st == StateAt(m, f, |f.vals|) && BlocksLead(p.value, f, b)
    decreases |f.blocks| - b
  {
    hide Canonical, BlocksKnown, FuncsKnown, NamesOk, StateAt, AtBlock, AtInst, InstsToks, ParseInsts, ParseHeader, ParamToks, InstPrintable,
         ListLeads, AllShaped, EndsInsts, ReadsBack;
    if b == |f.blocks| {
      AllDefined(f);
      assert ([RB] + rest)[1..] == rest;
    } else {
      var block, after := f.blocks[b], BlocksToks(m, f, b + 1, [RB] + rest);
      var body := InstsToks(m, f, block.insts, after);
      var ts := [Ident(block.name), LP] + ParamToks(f, block.params, [RP, Colon] + body);
      BlockNext(m, f, b);
      HeaderReads(m, f, k, b, body);
      BlocksFront(m, f, k, b + 1, rest);
      InstsBack(m, f, k, b, 0, after);
      BlockReads(m, f, k, b, after);
      ParamsLonger(f, block.params, [RP, Colon] + body);
      InstsLonger(m, f, block.insts, after);
      BlockStarts(m, f, k, b, rest);
      BlocksBack(m, f, k, b + 1, rest);
      LeadsMore(f, b, ParseInsts(k, StateAt(m, f, AtInst(f, b, 0)), body).value,
                ParseBlocks(k, StateAt(m, f, AtBlock(f, b + 1)), after).value);
    }
  }

  lemma BlockReads(m: ModuleNames, f: Func, k: Known, b: nat, rest: seq<Tok>)
    requires b < |f.blocks| && AllShaped(f.blocks[b].insts[0..]) && AllShaped(f.blocks[b].insts) && ReadsBack(m, f, k, b, 0, rest)
    ensures var insts := f.blocks[b].insts;
            && AtInst(f, b, 0) <= |f.vals| && AtInst(f, b, |insts|) <= |f.vals|
            && var p := ParseInsts(k, StateAt(m, f, AtInst(f, b, 0)), InstsToks(m, f, insts, rest));
               p.Parsed? && p.rest == rest && p.st == StateAt(m, f, AtInst(f, b, |insts|)) && ListLeads(p.value, DropInsts(f, b))
  {
    hide AllShaped, AtInst, InstsToks, ParseInsts, StateAt, ListLeads;
    assert f.blocks[b].insts[0..] == f.blocks[b].insts && DropInsts(f, b)[0..] == DropInsts(f, b);
  }

  lemma BlockStarts(m: ModuleNames, f: Func, k: Known, b: nat, rest: seq<Tok>)
    requires FuncShaped(f) && b < |f.blocks|
    ensures !Front(BlocksToks(m, f, b, [RB] + rest)).RB?
  {
  }

  lemma LeadsMore(f: Func, b: nat, insts: seq<SlotInst>, more: seq<SlotBlock>)
    requires b < |f.blocks| && ListLeads(insts, DropInsts(f, b)) && BlocksLead(more, f, b + 1)
    ensures BlocksLead([SlotBlock(f.blocks[b].name, f.blocks[b].params, insts)] + more, f, b)
  {
    hide ListLeads;
    var xs := [SlotBlock(f.blocks[b].name, f.blocks[b].params, insts)] + more;
    forall i | 0 <= i < |xs|
      ensures BlockLeads(xs[i], f, b + i)
    {
      if i > 0 {
        assert BlockLeads(more[i - 1], f, b + 1 + (i - 1));
      }
    }
  }

  lemma AllDefined(f: Func)
    requires Canonical(f)
    ensures AtBlock(f, |f.blocks|) == |f.vals|
  {
  }
}
