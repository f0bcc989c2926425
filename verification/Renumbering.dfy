/** Canonical renumbering of values into document order, as a function of the
    original, with its laws: definitions come out as 1, 2, 3, ..., the rebuilt
    table agrees with them, runs are kept, and doing it again changes nothing. */
module Renumbering {
  import opened Shared
  import opened Ir
  import opened Verifier
  import opened Execution

  // --- definitions in document order ---------------------------------------------

  function NonZero(ids: seq<nat>): seq<nat> {
    if ids == [] then []
    else NonZero(ids[..|ids| - 1]) + if ids[|ids| - 1] != 0 then [ids[|ids| - 1]] else []
  }

  function Results(insts: seq<Inst>): seq<nat> {
    seq(|insts|, i requires 0 <= i < |insts| => insts[i].result)
  }

  function BlockDefs(block: Block): seq<nat> {
    NonZero(block.params) + NonZero(Results(block.insts))
  }

  // Function parameters, then block by block: parameters, then results.
  function DefsBefore(f: Func, b: nat): seq<nat>
    requires b <= |f.blocks|
  {
    if b == 0 then NonZero(f.paramVals) else DefsBefore(f, b - 1) + BlockDefs(f.blocks[b - 1])
  }

  function Defs(f: Func): seq<nat> {
    DefsBefore(f, |f.blocks|)
  }

  // Every value has one definition and an entry in the table.
  ghost predicate SingleDefs(f: Func) {
    && |f.vals| < ID_LIMIT
    && Distinct(Defs(f))
    && forall id | id in Defs(f) :: 0 < id <= |f.vals|
  }

  // One more than an id's last position, 0 when it is not there.
  function NewId(defs: seq<nat>, id: nat): (n: nat)
    ensures n <= |defs| && (n == 0 <==> id !in defs) && (n != 0 ==> defs[n - 1] == id)
  {
    if defs == [] then 0
    else if defs[|defs| - 1] == id then |defs|
    else NewId(defs[..|defs| - 1], id)
  }

  lemma NewIdAt(defs: seq<nat>, k: nat)
    requires Distinct(defs) && k < |defs|
    ensures NewId(defs, defs[k]) == k + 1
  {
  }

  // --- the result -------------------------------------------------------------------

  // A definition site keeps id 0, which stands for no value.
  function NewDef(defs: seq<nat>, id: nat): nat {
    if NewId(defs, id) == 0 then id else NewId(defs, id)
  }

  function RenamedOperand(defs: seq<nat>, nold: nat, o: Operand): Operand {
    if o.kind != OpValue then o
    else o.(a := if 1 <= UsedId(o) <= nold then NewId(defs, UsedId(o)) else 0)
  }

  function RenamedOperands(defs: seq<nat>, nold: nat, os: seq<Operand>): seq<Operand> {
    seq(|os|, i requires 0 <= i < |os| => RenamedOperand(defs, nold, os[i]))
  }

  function RenamedEdge(defs: seq<nat>, nold: nat, e: Edge): Edge {
    e.(args := RenamedOperands(defs, nold, e.args))
  }

  function RenamedInst(defs: seq<nat>, nold: nat, inst: Inst): Inst {
    inst.(result := NewDef(defs, inst.result),
          ops := RenamedOperands(defs, nold, inst.ops),
          edges := seq(|inst.edges|, i requires 0 <= i < |inst.edges| => RenamedEdge(defs, nold, inst.edges[i])))
  }

  function RenamedIds(defs: seq<nat>, ids: seq<nat>): seq<nat> {
    seq(|ids|, i requires 0 <= i < |ids| => NewDef(defs, ids[i]))
  }

  function RenamedBlock(defs: seq<nat>, nold: nat, block: Block): Block {
    Block(block.name, RenamedIds(defs, block.params),
          seq(|block.insts|, i requires 0 <= i < |block.insts| => RenamedInst(defs, nold, block.insts[i])))
  }

  function TypeOf(f: Func, id: nat): nat {
    if 0 < id <= |f.vals| then f.vals[id - 1].ty else 0
  }

  // Table entries for parameters and for instruction results, in order.
  function ParamInfos(f: Func, ids: seq<nat>, kind: DefKind, block: nat): seq<ValInfo> {
    if ids == [] then []
    else
      var id := ids[|ids| - 1];
      ParamInfos(f, ids[..|ids| - 1], kind, block) + if id != 0 then [ValInfo(TypeOf(f, id), kind, block, 0)] else []
  }

  function InstInfos(f: Func, insts: seq<Inst>, block: nat): seq<ValInfo> {
    if insts == [] then []
    else
      var id := insts[|insts| - 1].result;
      InstInfos(f, insts[..|insts| - 1], block)
      + if id != 0 then [ValInfo(TypeOf(f, id), DefInst, block, |insts| - 1)] else []
  }

  function InfosBefore(f: Func, b: nat): seq<ValInfo>
    requires b <= |f.blocks|
  {
    if b == 0 then ParamInfos(f, f.paramVals, DefFparam, 1)
    else
      InfosBefore(f, b - 1) + ParamInfos(f, f.blocks[b - 1].params, DefBparam, b) + InstInfos(f, f.blocks[b - 1].insts, b)
  }

  function Renumbered(f: Func): Func {
    var defs, nold := Defs(f), |f.vals|;
    Func(RenamedIds(defs, f.paramVals),
         seq(|f.blocks|, b requires 0 <= b < |f.blocks| => RenamedBlock(defs, nold, f.blocks[b])),
         InfosBefore(f, |f.blocks|))
  }

  // --- sizes and shapes ---------------------------------------------------------------

  lemma {:induction false} ParamInfosShape(f: Func, ids: seq<nat>, kind: DefKind, block: nat)
    ensures |ParamInfos(f, ids, kind, block)| == |NonZero(ids)|
    ensures forall k | 0 <= k < |NonZero(ids)| :: ParamInfos(f, ids, kind, block)[k] == ValInfo(TypeOf(f, NonZero(ids)[k]), kind, block, 0)
  {
    if ids != [] {
      ParamInfosShape(f, ids[..|ids| - 1], kind, block);
    }
  }

  lemma {:induction false} InstInfosShape(f: Func, insts: seq<Inst>, block: nat)
    ensures |InstInfos(f, insts, block)| == |NonZero(Results(insts))|
    ensures forall k | 0 <= k < |NonZero(Results(insts))| :: var vi := InstInfos(f, insts, block)[k];
              && vi.ty == TypeOf(f, NonZero(Results(insts))[k]) && vi.kind == DefInst && vi.block == block
              && vi.pos < |insts| && insts[vi.pos].result == NonZero(Results(insts))[k]
  {
    if insts != [] {
      InstInfosShape(f, insts[..|insts| - 1], block);
      assert Results(insts)[..|insts| - 1] == Results(insts[..|insts| - 1]);
    }
  }

  // Entry k of the new table describes the k-th definition, wherever it is.
  ghost predicate Describes(f: Func, vi: ValInfo, id: nat) {
    && vi.ty == TypeOf(f, id)
    && match vi.kind
       case DefNone => false
       case DefFparam => id in f.paramVals && vi.block == 1 && vi.pos == 0
       case DefBparam => 0 < vi.block <= |f.blocks| && id in f.blocks[vi.block - 1].params && vi.pos == 0
       case DefInst =>
         && 0 < vi.block <= |f.blocks| && vi.pos < |f.blocks[vi.block - 1].insts|
         && f.blocks[vi.block - 1].insts[vi.pos].result == id
  }

  lemma {:induction false} NonZeroFrom(ids: seq<nat>)
    ensures forall id :: id in NonZero(ids) <==> id in ids && id != 0
  {
    if ids != [] {
      NonZeroFrom(ids[..|ids| - 1]);
      assert ids == ids[..|ids| - 1] + [ids[|ids| - 1]];
    }
  }

  lemma {:induction false} InfosDescribe(f: Func, b: nat)
    requires b <= |f.blocks|
    ensures |InfosBefore(f, b)| == |DefsBefore(f, b)|
    ensures forall k | 0 <= k < |DefsBefore(f, b)| :: Describes(f, InfosBefore(f, b)[k], DefsBefore(f, b)[k])
  {
    if b == 0 {
      ParamInfosShape(f, f.paramVals, DefFparam, 1);
      NonZeroFrom(f.paramVals);
    } else {
      var block := f.blocks[b - 1];
      InfosDescribe(f, b - 1);
      ParamInfosShape(f, block.params, DefBparam, b);
      InstInfosShape(f, block.insts, b);
      NonZeroFrom(block.params);
    }
  }

  // --- the definitions come out numbered 1, 2, 3, ... -----------------------------------

  lemma {:induction false} NonZeroRenamed(defs: seq<nat>, ids: seq<nat>)
    requires forall id | id in ids && id != 0 :: id in defs
    requires 0 !in defs
    ensures NonZero(RenamedIds(defs, ids)) == RenamedIds(defs, NonZero(ids))
  {
    if ids != [] {
      var front := ids[..|ids| - 1];
      NonZeroRenamed(defs, front);
      assert RenamedIds(defs, ids)[..|ids| - 1] == RenamedIds(defs, front);
      assert ids[|ids| - 1] in ids;
    }
  }

  lemma ResultsRenamed(defs: seq<nat>, nold: nat, block: Block)
    ensures Results(RenamedBlock(defs, nold, block).insts) == RenamedIds(defs, Results(block.insts))
  {
  }

  lemma BlockDefsRenamed(defs: seq<nat>, nold: nat, block: Block)
    requires 0 !in defs && forall id | id in BlockDefs(block) :: id in defs
    ensures BlockDefs(RenamedBlock(defs, nold, block)) == RenamedIds(defs, BlockDefs(block))
  {
    NonZeroFrom(block.params);
    NonZeroFrom(Results(block.insts));
    NonZeroRenamed(defs, block.params);
    NonZeroRenamed(defs, Results(block.insts));
    ResultsRenamed(defs, nold, block);
    RenamedIdsJoin(defs, NonZero(block.params), NonZero(Results(block.insts)));
  }

  lemma RenamedIdsJoin(defs: seq<nat>, a: seq<nat>, b: seq<nat>)
    ensures RenamedIds(defs, a + b) == RenamedIds(defs, a) + RenamedIds(defs, b)
  {
  }

  lemma {:induction false} DefsRenamed(f: Func, b: nat)
    requires SingleDefs(f) && b <= |f.blocks|
    ensures DefsBefore(Renumbered(f), b) == RenamedIds(Defs(f), DefsBefore(f, b))
  {
    hide NewId, InfosBefore, RenamedBlock, BlockDefs, Distinct, RenamedIds;
    var defs, nold := Defs(f), |f.vals|;
    AllDefs(f, b);
    if b == 0 {
      NonZeroFrom(f.paramVals);
      NonZeroRenamed(defs, f.paramVals);
    } else {
      DefsRenamed(f, b - 1);
      BlockDefsRenamed(defs, nold, f.blocks[b - 1]);
      RenamedIdsJoin(defs, DefsBefore(f, b - 1), BlockDefs(f.blocks[b - 1]));
    }
  }

  lemma {:induction false} DefsPrefix(f: Func, a: nat, b: nat)
    requires a <= b <= |f.blocks|
    ensures DefsBefore(f, a) <= DefsBefore(f, b)
  {
    if a < b {
      DefsPrefix(f, a, b - 1);
    }
  }

  lemma AllDefs(f: Func, b: nat)
    requires b <= |f.blocks|
    ensures forall id | id in DefsBefore(f, b) :: id in Defs(f)
  {
    DefsPrefix(f, b, |f.blocks|);
  }

  lemma NumberedInOrder(f: Func)
    requires SingleDefs(f)
    ensures |Defs(Renumbered(f))| == |Defs(f)| == |Renumbered(f).vals|
    ensures forall k | 0 <= k < |Defs(f)| :: Defs(Renumbered(f))[k] == k + 1
  {
    DefsRenamed(f, |f.blocks|);
    InfosDescribe(f, |f.blocks|);
    forall k | 0 <= k < |Defs(f)|
      ensures Defs(Renumbered(f))[k] == k + 1
    {
      NewIdAt(Defs(f), k);
    }
  }

  // --- the rebuilt table agrees ------------------------------------------------------------

  lemma RenumberedEntry(f: Func, id: nat)
    requires SingleDefs(f) && 0 < id <= |Renumbered(f).vals|
    ensures id <= |Defs(f)| && Describes(f, Renumbered(f).vals[id - 1], Defs(f)[id - 1])
    ensures NewDef(Defs(f), Defs(f)[id - 1]) == id
    ensures Renumbered(f).vals[id - 1].ty == TypeOf(f, Defs(f)[id - 1])
  {
    InfosDescribe(f, |f.blocks|);
    NewIdAt(Defs(f), id - 1);
  }

  // No hypothesis on the old table: the new one is right by construction.
  lemma RenumberedTableAgrees(f: Func)
    requires SingleDefs(f) && TerminatorsDefineNothing(f)
    ensures TableAgrees(Renumbered(f))
  {
    var defs := Defs(f);
    forall id: nat | 0 < id <= |Renumbered(f).vals|
      ensures DefinedWhere(Renumbered(f), id)
    {
      RenumberedEntry(f, id);
      var vi, prior := Renumbered(f).vals[id - 1], defs[id - 1];
      assert prior != 0;
      match vi.kind
      case DefNone =>
      case DefFparam =>
        RenamedMember(defs, f.paramVals, prior);
      case DefBparam =>
        RenamedMember(defs, f.blocks[vi.block - 1].params, prior);
      case DefInst =>
    }
  }

  ghost predicate TerminatorsDefineNothing(f: Func) {
    forall b, k | 0 <= b < |f.blocks| && 0 <= k < |f.blocks[b].insts| ::
      IsTerminator(f.blocks[b].insts[k].op) ==> f.blocks[b].insts[k].result == 0
  }

  lemma RenamedMember(defs: seq<nat>, ids: seq<nat>, id: nat)
    requires id in ids
    ensures NewDef(defs, id) in RenamedIds(defs, ids)
  {
    var i :| 0 <= i < |ids| && ids[i] == id;
    assert RenamedIds(defs, ids)[i] == NewDef(defs, id);
  }

  // --- doing it again changes nothing --------------------------------------------------------

  ghost predicate Counting(defs: seq<nat>) {
    forall k | 0 <= k < |defs| :: defs[k] == k + 1
  }

  lemma {:induction false} CountingFixes(defs: seq<nat>, id: nat)
    requires Counting(defs)
    ensures NewId(defs, id) == (if 1 <= id <= |defs| then id else 0)
    ensures NewDef(defs, id) == id
  {
    if 1 <= id <= |defs| {
      NewIdAt(defs, id - 1);
    }
  }

  lemma CountingOperands(defs: seq<nat>, prior: seq<nat>, nold: nat, os: seq<Operand>)
    requires Counting(defs) && |defs| == |prior| < ID_LIMIT
    ensures RenamedOperands(defs, |defs|, RenamedOperands(prior, nold, os)) == RenamedOperands(prior, nold, os)
  {
    var once := RenamedOperands(prior, nold, os);
    forall i | 0 <= i < |os|
      ensures RenamedOperand(defs, |defs|, once[i]) == once[i]
    {
      if once[i].kind == OpValue {
        CountingFixes(defs, once[i].a);
        assert UsedId(once[i]) == once[i].a;
      }
    }
  }

  lemma CountingBlock(defs: seq<nat>, prior: seq<nat>, nold: nat, block: Block)
    requires Counting(defs) && |defs| == |prior| < ID_LIMIT
    ensures RenamedBlock(defs, |defs|, RenamedBlock(prior, nold, block)) == RenamedBlock(prior, nold, block)
  {
    var once := RenamedBlock(prior, nold, block);
    CountingIds(defs, once.params);
    forall i | 0 <= i < |once.insts|
      ensures RenamedInst(defs, |defs|, once.insts[i]) == once.insts[i]
    {
      CountingFixes(defs, once.insts[i].result);
      CountingOperands(defs, prior, nold, block.insts[i].ops);
      CountingEdges(defs, prior, nold, block.insts[i]);
    }
    assert RenamedBlock(defs, |defs|, once).insts == once.insts;
  }

  lemma CountingEdges(defs: seq<nat>, prior: seq<nat>, nold: nat, inst: Inst)
    requires Counting(defs) && |defs| == |prior| < ID_LIMIT
    ensures var once := RenamedInst(prior, nold, inst); RenamedInst(defs, |defs|, once).edges == once.edges
  {
    var once := RenamedInst(prior, nold, inst);
    forall j | 0 <= j < |once.edges|
      ensures RenamedEdge(defs, |defs|, once.edges[j]) == once.edges[j]
    {
      CountingOperands(defs, prior, nold, inst.edges[j].args);
    }
  }

  lemma CountingIds(defs: seq<nat>, ids: seq<nat>)
    requires Counting(defs)
    ensures RenamedIds(defs, ids) == ids
  {
    forall i | 0 <= i < |ids|
      ensures NewDef(defs, ids[i]) == ids[i]
    {
      CountingFixes(defs, ids[i]);
    }
  }

  lemma {:induction false} SameParamInfos(f: Func, h: Func, defs: seq<nat>, ids: seq<nat>, kind: DefKind, block: nat)
    requires forall id | id in ids :: (id != 0 <==> NewDef(defs, id) != 0) && TypeOf(h, NewDef(defs, id)) == TypeOf(f, id)
    ensures ParamInfos(h, RenamedIds(defs, ids), kind, block) == ParamInfos(f, ids, kind, block)
  {
    if ids != [] {
      var front := ids[..|ids| - 1];
      SameParamInfos(f, h, defs, front, kind, block);
      assert RenamedIds(defs, ids)[..|ids| - 1] == RenamedIds(defs, front);
      assert ids[|ids| - 1] in ids;
    }
  }

  lemma {:induction false} SameInstInfos(f: Func, h: Func, defs: seq<nat>, nold: nat, insts: seq<Inst>, insts': seq<Inst>, block: nat)
    requires |insts'| == |insts| && forall i | 0 <= i < |insts| :: insts'[i].result == NewDef(defs, insts[i].result)
    requires forall i | 0 <= i < |insts| :: var id := insts[i].result;
               (id != 0 <==> NewDef(defs, id) != 0) && TypeOf(h, NewDef(defs, id)) == TypeOf(f, id)
    ensures InstInfos(h, insts', block) == InstInfos(f, insts, block)
  {
    if insts != [] {
      SameInstInfos(f, h, defs, nold, insts[..|insts| - 1], insts'[..|insts| - 1], block);
    }
  }

  lemma TypeDescribed(f: Func, k: nat)
    requires SingleDefs(f) && k < |Defs(f)|
    ensures k < |Renumbered(f).vals| && Renumbered(f).vals[k].ty == TypeOf(f, Defs(f)[k])
  {
    InfosDescribe(f, |f.blocks|);
  }

  // A definition keeps its type through the new table.
  lemma RenumberedType(f: Func, id: nat)
    requires SingleDefs(f) && (id == 0 || id in Defs(f))
    ensures id != 0 <==> NewDef(Defs(f), id) != 0
    ensures TypeOf(Renumbered(f), NewDef(Defs(f), id)) == TypeOf(f, id)
  {
    hide Renumbered, Distinct, Defs;
    assert 0 !in Defs(f);
    if id != 0 {
      var n := NewDef(Defs(f), id);
      assert 0 < n <= |Defs(f)| && Defs(f)[n - 1] == id;
      TypeDescribed(f, n - 1);
    }
  }

  lemma {:induction false} RenumberedInfos(f: Func, b: nat)
    requires SingleDefs(f) && b <= |f.blocks|
    ensures InfosBefore(Renumbered(f), b) == InfosBefore(f, b)
  {
    hide NewId, Distinct, RenamedInst;
    var h, defs := Renumbered(f), Defs(f);
    AllDefs(f, b);
    if b == 0 {
      NonZeroFrom(f.paramVals);
      forall id | id in f.paramVals
        ensures (id != 0 <==> NewDef(defs, id) != 0) && TypeOf(h, NewDef(defs, id)) == TypeOf(f, id)
      {
        RenumberedType(f, id);
      }
      SameParamInfos(f, h, defs, f.paramVals, DefFparam, 1);
    } else {
      RenumberedInfos(f, b - 1);
      RenumberedBlockInfos(f, b);
    }
  }

  lemma RenumberedBlockInfos(f: Func, b: nat)
    requires SingleDefs(f) && 0 < b <= |f.blocks|
    ensures var block, block' := f.blocks[b - 1], Renumbered(f).blocks[b - 1];
            && ParamInfos(Renumbered(f), block'.params, DefBparam, b) == ParamInfos(f, block.params, DefBparam, b)
            && InstInfos(Renumbered(f), block'.insts, b) == InstInfos(f, block.insts, b)
  {
    hide NewId, Distinct;
    var h, defs, block := Renumbered(f), Defs(f), f.blocks[b - 1];
    AllDefs(f, b);
    NonZeroFrom(block.params);
    NonZeroFrom(Results(block.insts));
    forall id | id in block.params
      ensures (id != 0 <==> NewDef(defs, id) != 0) && TypeOf(h, NewDef(defs, id)) == TypeOf(f, id)
    {
      RenumberedType(f, id);
    }
    SameParamInfos(f, h, defs, block.params, DefBparam, b);
    forall i | 0 <= i < |block.insts|
      ensures var id := block.insts[i].result;
              (id != 0 <==> NewDef(defs, id) != 0) && TypeOf(h, NewDef(defs, id)) == TypeOf(f, id)
    {
      var id := block.insts[i].result;
      assert Results(block.insts)[i] == id;
      RenumberedType(f, id);
    }
    SameInstInfos(f, h, defs, |f.vals|, block.insts, h.blocks[b - 1].insts, b);
  }

  lemma RenumberingIdempotent(f: Func)
    requires SingleDefs(f)
    ensures SingleDefs(Renumbered(f)) && Renumbered(Renumbered(f)) == Renumbered(f)
  {
    hide NewId, InfosBefore, RenamedBlock, DefsBefore;
    var h := Renumbered(f);
    NumberedInOrder(f);
    DefsFit(f);
    CountingIds(Defs(h), h.paramVals);
    forall b | 0 <= b < |f.blocks|
      ensures RenamedBlock(Defs(h), |h.vals|, h.blocks[b]) == h.blocks[b]
    {
      CountingBlock(Defs(h), Defs(f), |f.vals|, f.blocks[b]);
    }
    RenumberedInfos(f, |f.blocks|);
    assert Renumbered(h).blocks == h.blocks;
  }

  lemma DefsFit(f: Func)
    requires SingleDefs(f)
    ensures |Defs(f)| <= |f.vals| < ID_LIMIT
  {
    DistinctFit(Defs(f), |f.vals|);
  }

  lemma {:induction false} DistinctFit(s: seq<nat>, n: nat)
    requires Distinct(s) && forall id | id in s :: 0 < id <= n
    ensures |s| <= n
  {
    if n > 0 {
      if n in s {
        var i :| 0 <= i < |s| && s[i] == n;
        var t := s[..i] + s[i + 1..];
        assert forall k | 0 <= k < |t| :: t[k] == if k < i then s[k] else s[k + 1];
        forall id | id in t
          ensures 0 < id <= n - 1
        {
          var k :| 0 <= k < |t| && t[k] == id;
          assert s[if k < i then k else k + 1] in s;
        }
        DistinctFit(t, n - 1);
      } else {
        DistinctFit(s, n - 1);
      }
    }
    assert |s| > 0 ==> s[0] in s;
  }

  // --- every run is kept -----------------------------------------------------------------------

  function DefAt(defs: seq<nat>, n: nat): nat {
    if 1 <= n <= |defs| then defs[n - 1] else 0
  }

  ghost function RenamedEnv(defs: seq<nat>, env: map<nat, Value>): map<nat, Value> {
    map n: nat | n <= |defs| && DefAt(defs, n) in env :: env[DefAt(defs, n)]
  }

  ghost function RenamedState(f: Func, s: State): State {
    match s
    case Running(block, pos, env) => Running(block, pos, RenamedEnv(Defs(f), env))
    case Finished => Finished
    case Stuck(fault) =>
      Stuck(if fault.UnassignedRead? then UnassignedRead(if fault.id <= |f.vals| then NewId(Defs(f), fault.id) else 0) else fault)
  }

  // Runs only ever assign defined ids.
  ghost predicate OnlyDefs(f: Func, s: State) {
    s.Running? ==> forall id | id in s.env :: id in Defs(f)
  }

  lemma EnvLookup(f: Func, env: map<nat, Value>, id: nat)
    requires SingleDefs(f) && forall k | k in env :: k in Defs(f)
    ensures var n := NewId(Defs(f), id);
            (id in env <==> n in RenamedEnv(Defs(f), env)) && (id in env ==> RenamedEnv(Defs(f), env)[n] == env[id])
  {
    hide Defs;
    var defs := Defs(f);
    var n := NewId(defs, id);
    assert 0 !in env;
    if n != 0 {
      assert DefAt(defs, n) == id;
    }
  }

  ghost function RenamedOutcome(f: Func, r: Operands): Operands {
    match r
    case Values(vs) => Values(vs)
    case Unassigned(id) => Unassigned(if id <= |f.vals| then NewId(Defs(f), id) else 0)
  }

  // The renamed operand names the renamed id.
  lemma OperandLookup(f: Func, o: Operand)
    requires SingleDefs(f) && o.kind == OpValue
    ensures UsedId(RenamedOperand(Defs(f), |f.vals|, o)) == NewId(Defs(f), UsedId(o))
    ensures UsedId(o) > |f.vals| ==> NewId(Defs(f), UsedId(o)) == 0
  {
    hide DefsBefore;
    DefsFit(f);
    assert 0 !in Defs(f);
  }

  lemma {:induction false} SameValues(f: Func, sem: Semantics, env: map<nat, Value>, os: seq<Operand>)
    requires SingleDefs(f) && forall k | k in env :: k in Defs(f)
    ensures Evaluate(sem, RenamedEnv(Defs(f), env), RenamedOperands(Defs(f), |f.vals|, os)) == RenamedOutcome(f, Evaluate(sem, env, os))
  {
    if os != [] {
      hide Defs, NewId, RenamedEnv;
      var defs, nold := Defs(f), |f.vals|;
      var o, o' := os[0], RenamedOperand(defs, nold, os[0]);
      SameValues(f, sem, env, os[1..]);
      assert RenamedOperands(defs, nold, os)[0] == o';
      assert RenamedOperands(defs, nold, os)[1..] == RenamedOperands(defs, nold, os[1..]);
      EnvLookup(f, env, UsedId(o));
      if o.kind == OpValue {
        OperandLookup(f, o);
      } else {
        assert o' == o;
      }
    }
  }

  // --- one step ----------------------------------------------------------------------------------

  lemma {:induction false} BindRenames(f: Func, env: map<nat, Value>, params: seq<nat>, vs: seq<Value>)
    requires SingleDefs(f) && |params| == |vs|
    requires forall p | p in params :: p in Defs(f)
    requires forall k | k in env :: k in Defs(f)
    ensures Bind(RenamedEnv(Defs(f), env), RenamedIds(Defs(f), params), vs) == RenamedEnv(Defs(f), Bind(env, params, vs))
    ensures forall k | k in Bind(env, params, vs) :: k in Defs(f)
    decreases params
  {
    if params != [] {
      var defs := Defs(f);
      assert params[0] in params;
      AssignRenames(f, env, params[0], vs[0]);
      assert RenamedIds(defs, params)[1..] == RenamedIds(defs, params[1..]);
      BindRenames(f, env[params[0] := vs[0]], params[1..], vs[1..]);
    }
  }

  lemma AssignRenames(f: Func, env: map<nat, Value>, id: nat, v: Value)
    requires SingleDefs(f) && id in Defs(f) && forall k | k in env :: k in Defs(f)
    ensures RenamedEnv(Defs(f), env[id := v]) == RenamedEnv(Defs(f), env)[NewId(Defs(f), id) := v]
    ensures NewDef(Defs(f), id) == NewId(Defs(f), id)
  {
    hide Defs, DefsBefore, NewId;
    var defs := Defs(f);
    var n := NewId(defs, id);
    assert 0 !in defs;
    assert n != 0 && defs[n - 1] == id;
    assert DefAt(defs, n) == id;
    forall m: nat | m <= |defs| && DefAt(defs, m) == id
      ensures m == n
    {
      assert m != 0;
    }
    var left, right := RenamedEnv(defs, env[id := v]), RenamedEnv(defs, env)[n := v];
    assert left.Keys == right.Keys;
    assert forall m | m in left :: left[m] == right[m];
  }

  lemma ParamsAreDefs(f: Func, b: nat)
    requires b < |f.blocks|
    ensures forall p | p in f.blocks[b].params && p != 0 :: p in Defs(f)
    ensures forall k | 0 <= k < |f.blocks[b].insts| && f.blocks[b].insts[k].result != 0 :: f.blocks[b].insts[k].result in Defs(f)
  {
    var block := f.blocks[b];
    AllDefs(f, b + 1);
    NonZeroFrom(block.params);
    NonZeroFrom(Results(block.insts));
    forall k | 0 <= k < |block.insts| && block.insts[k].result != 0
      ensures block.insts[k].result in Defs(f)
    {
      assert Results(block.insts)[k] == block.insts[k].result;
      assert block.insts[k].result in BlockDefs(block);
      assert block.insts[k].result in DefsBefore(f, b + 1);
    }
    forall p | p in block.params && p != 0
      ensures p in Defs(f)
    {
      assert p in BlockDefs(block);
      assert p in DefsBefore(f, b + 1);
    }
  }

  lemma SameTypeCheck(f: Func, values: seq<Value>, b: nat)
    requires SingleDefs(f) && b < |f.blocks| && |values| == |f.blocks[b].params|
    ensures TypesMatch(Renumbered(f), values, RenamedIds(Defs(f), f.blocks[b].params)) <==> TypesMatch(f, values, f.blocks[b].params)
  {
    hide Defs, InfosBefore, NewId;
    var defs, params := Defs(f), f.blocks[b].params;
    var params' := RenamedIds(defs, params);
    ParamsAreDefs(f, b);
    NumberedInOrder(f);
    forall j | 0 <= j < |params|
      ensures 0 < params[j] <= |f.vals| && values[j].ty == f.vals[params[j] - 1].ty
              <==> 0 < params'[j] <= |Renumbered(f).vals| && values[j].ty == Renumbered(f).vals[params'[j] - 1].ty
    {
      assert params[j] in params;
      RenumberedType(f, params[j]);
      if params[j] != 0 {
        assert params[j] in defs;
      }
    }
  }

  lemma EdgeRenames(f: Func, sem: Semantics, env: map<nat, Value>, e: Edge)
    requires SingleDefs(f) && forall k | k in env :: k in Defs(f)
    ensures TakeEdge(Renumbered(f), sem, RenamedEnv(Defs(f), env), RenamedEdge(Defs(f), |f.vals|, e))
            == RenamedState(f, TakeEdge(f, sem, env, e))
    ensures OnlyDefs(f, TakeEdge(f, sem, env, e))
  {
    hide Defs, InfosBefore, RenamedEnv, Bind, TypesMatch;
    SameValues(f, sem, env, e.args);
    var r := Evaluate(sem, env, e.args);
    if r.Values? && 0 < e.target <= |f.blocks| {
      var params := f.blocks[e.target - 1].params;
      if |r.values| == |params| {
        SameTypeCheck(f, r.values, e.target - 1);
        if TypesMatch(f, r.values, params) {
          ParamsAreDefs(f, e.target - 1);
          MatchedNonZero(f, r.values, params);
          BindRenames(f, env, params, r.values);
        }
      }
    }
  }

  lemma MatchedNonZero(f: Func, values: seq<Value>, params: seq<nat>)
    requires |values| == |params| && TypesMatch(f, values, params)
    ensures forall p | p in params :: p != 0
  {
  }

  lemma StepRenames(f: Func, sem: Semantics, s: State)
    requires SingleDefs(f) && TerminatorsDefineNothing(f) && OnlyDefs(f, s)
    ensures OnlyDefs(f, Step(f, sem, s))
    ensures Step(Renumbered(f), sem, RenamedState(f, s)) == RenamedState(f, Step(f, sem, s))
  {
    hide Defs, InfosBefore, RenamedEnv, TakeEdge;
    if s.Running? && s.block < |f.blocks| && s.pos < |f.blocks[s.block].insts| {
      var defs, nold := Defs(f), |f.vals|;
      var inst := f.blocks[s.block].insts[s.pos];
      assert Renumbered(f).blocks[s.block].insts[s.pos] == RenamedInst(defs, nold, inst);
      SameValues(f, sem, s.env, inst.ops);
      ParamsAreDefs(f, s.block);
      var r := Evaluate(sem, s.env, inst.ops);
      if r.Values? {
        if IsTerminator(inst.op) {
          var k := sem.branch(s.block, s.pos, r.values);
          if k < |inst.edges| {
            EdgeRenames(f, sem, s.env, inst.edges[k]);
          }
        } else if inst.result != 0 {
          AssignRenames(f, s.env, inst.result, Value(inst.ty, sem.result(s.block, s.pos, r.values)));
          assert NewDef(defs, inst.result) != 0;
        } else {
          NewZero(f);
        }
      }
    }
  }

  lemma NewZero(f: Func)
    requires SingleDefs(f)
    ensures NewDef(Defs(f), 0) == 0
  {
    assert 0 !in Defs(f);
  }

  // Step for step, the renumbered function does what the original does, with
  // the same values under their new ids; faults included.
  lemma {:induction false} RenumberingKeepsRuns(f: Func, sem: Semantics, s: State, n: nat)
    requires SingleDefs(f) && TerminatorsDefineNothing(f) && OnlyDefs(f, s)
    ensures OnlyDefs(f, Run(f, sem, s, n))
    ensures Run(Renumbered(f), sem, RenamedState(f, s), n) == RenamedState(f, Run(f, sem, s, n))
  {
    hide SingleDefs, OnlyDefs, Step, RenamedState, TerminatorsDefineNothing;
    if n > 0 {
      RenumberingKeepsRuns(f, sem, s, n - 1);
      StepRenames(f, sem, Run(f, sem, s, n - 1));
    }
  }
}
