/** Renumbering in place: assign ids in document order, rebuild the value table,
    rewrite every use. */
module Renumber {
  import opened Shared
  import opened Ir
  import opened Renumbering
  import opened Unreachable

  // map[id] is the new id of the last definition of id so far, 0 for none.
  ghost predicate MapIs(m: seq<nat>, defs: seq<nat>) {
    forall id: nat | id < |m| :: m[id] == NewId(defs, id)
  }

  lemma NonZeroStep(ids: seq<nat>, i: nat)
    requires i < |ids|
    ensures NonZero(ids[..i + 1]) == NonZero(ids[..i]) + if ids[i] != 0 then [ids[i]] else []
  {
    assert ids[..i + 1][..i] == ids[..i];
  }

  lemma {:induction false} NonZeroPrefix(ids: seq<nat>, i: nat)
    requires i <= |ids|
    ensures NonZero(ids[..i]) <= NonZero(ids)
    decreases |ids| - i
  {
    if i < |ids| {
      NonZeroStep(ids, i);
      NonZeroPrefix(ids, i + 1);
    } else {
      assert ids[..i] == ids;
    }
  }

  lemma NothingBefore(ids: seq<nat>, defs: seq<nat>)
    ensures defs + NonZero(ids[..0]) == defs
  {
  }

  // --- pass 1: new ids ------------------------------------------------------------

  method AssignIds(ids: seq<nat>, m: array<nat>, next: nat, ghost defs: seq<nat>) returns (next': nat)
    requires MapIs(m[..], defs) && next == |defs| && forall id | id in ids :: id < m.Length
    modifies m
    ensures MapIs(m[..], defs + NonZero(ids)) && next' == |defs + NonZero(ids)|
  {
    next' := next;
    var i := 0;
    assert defs + NonZero(ids[..0]) == defs;
    while i < |ids|
      invariant 0 <= i <= |ids|
      invariant MapIs(m[..], defs + NonZero(ids[..i])) && next' == |defs + NonZero(ids[..i])|
    {
      ghost var sofar := defs + NonZero(ids[..i]);
      assert ids[i] in ids;
      NonZeroStep(ids, i);
      if ids[i] != 0 {
        next' := next' + 1;
        m[ids[i]] := next';
        assert defs + NonZero(ids[..i + 1]) == sofar + [ids[i]];
        assert (sofar + [ids[i]])[..|sofar|] == sofar;
      } else {
        assert defs + NonZero(ids[..i + 1]) == sofar;
      }
      i := i + 1;
    }
    assert ids[..i] == ids;
  }

  method AssignAll(f: Func, m: array<nat>) returns (next: nat)
    requires SingleDefs(f) && m.Length == |f.vals| + 1 && forall id | 0 <= id < m.Length :: m[id] == 0
    modifies m
    ensures MapIs(m[..], Defs(f)) && next == |Defs(f)|
  {
    hide NewId, SingleDefs, MapIs, NonZero, DefsBefore;
    MapEmpty(m[..]);
    ghost var none: seq<nat> := [];
    IdsInTable(f, 0);
    NoDefsYet(f, none);
    next := AssignIds(f.paramVals, m, 0, none);
    var bi := 0;
    while bi < |f.blocks|
      invariant 0 <= bi <= |f.blocks|
      invariant MapIs(m[..], DefsBefore(f, bi)) && next == |DefsBefore(f, bi)|
    {
      var block := f.blocks[bi];
      ghost var defs := DefsBefore(f, bi);
      IdsInTable(f, bi);
      next := AssignIds(block.params, m, next, defs);
      next := AssignIds(Results(block.insts), m, next, defs + NonZero(block.params));
      NextDefs(f, bi);
      bi := bi + 1;
    }
    LastDefs(f);
  }

  lemma NoDefsYet(f: Func, none: seq<nat>)
    requires none == []
    ensures none + NonZero(f.paramVals) == DefsBefore(f, 0)
  {
  }

  lemma NextDefs(f: Func, b: nat)
    requires b < |f.blocks|
    ensures DefsBefore(f, b) + NonZero(f.blocks[b].params) + NonZero(Results(f.blocks[b].insts)) == DefsBefore(f, b + 1)
  {
  }

  lemma MapEmpty(m: seq<nat>)
    requires forall id | 0 <= id < |m| :: m[id] == 0
    ensures MapIs(m, [])
  {
  }

  lemma IdsInTable(f: Func, b: nat)
    requires SingleDefs(f)
    ensures forall id | id in f.paramVals :: id <= |f.vals|
    ensures b < |f.blocks| ==> forall id | id in f.blocks[b].params :: id <= |f.vals|
    ensures b < |f.blocks| ==> forall id | id in Results(f.blocks[b].insts) :: id <= |f.vals|
  {
    hide DefsBefore;
    FparamsAreDefs(f);
    if b < |f.blocks| {
      ParamsAreDefs(f, b);
    }
  }

  lemma FparamsAreDefs(f: Func)
    ensures forall id | id in f.paramVals && id != 0 :: id in Defs(f)
  {
    AllDefs(f, 0);
    NonZeroFrom(f.paramVals);
    forall id | id in f.paramVals && id != 0
      ensures id in Defs(f)
    {
      assert id in DefsBefore(f, 0);
    }
  }

  // --- pass 2: the table and the definition sites ------------------------------------

  // ids are the next definitions in the order, from position at on.
  ghost predicate Upcoming(defs: seq<nat>, at: nat, ids: seq<nat>) {
    at + |NonZero(ids)| <= |defs| && defs[at..at + |NonZero(ids)|] == NonZero(ids)
  }

  lemma NonZeroAt(ids: seq<nat>, i: nat)
    requires i < |ids| && ids[i] != 0
    ensures |NonZero(ids[..i])| < |NonZero(ids)| && NonZero(ids)[|NonZero(ids[..i])|] == ids[i]
  {
    NonZeroStep(ids, i);
    NonZeroPrefix(ids, i + 1);
    var front := NonZero(ids[..i + 1]);
    assert front == NonZero(ids)[..|front|];
    assert front[|front| - 1] == ids[i];
  }

  lemma UpcomingAt(defs: seq<nat>, at: nat, ids: seq<nat>, i: nat)
    requires Upcoming(defs, at, ids) && Distinct(defs) && i < |ids| && ids[i] != 0
    ensures var k := at + |NonZero(ids[..i])|; k < |defs| && defs[k] == ids[i] && NewId(defs, ids[i]) == k + 1
  {
    hide NonZero, NewId, Distinct, Upcoming;
    NonZeroAt(ids, i);
    UpcomingEntry(defs, at, ids, |NonZero(ids[..i])|);
    NewIdAt(defs, at + |NonZero(ids[..i])|);
  }

  lemma UpcomingEntry(defs: seq<nat>, at: nat, ids: seq<nat>, j: nat)
    requires Upcoming(defs, at, ids) && j < |NonZero(ids)|
    ensures at + j < |defs| && defs[at + j] == NonZero(ids)[j]
  {
    hide NonZero;
    assert defs[at..at + |NonZero(ids)|][j] == defs[at + j];
  }

  method RecordParams(f: Func, ids: seq<nat>, kind: DefKind, block: nat, m: array<nat>, nv: array<ValInfo>, at: nat)
    returns (renamed: seq<nat>, next: nat)
    requires SingleDefs(f) && MapIs(m[..], Defs(f)) && nv.Length == |Defs(f)| && 0 < m.Length
    requires Upcoming(Defs(f), at, ids) && forall id | id in ids :: id < m.Length && id <= |f.vals|
    modifies nv
    ensures renamed == RenamedIds(Defs(f), ids) && next == at + |NonZero(ids)|
    ensures at <= next <= nv.Length && nv[..next] == old(nv[..at]) + ParamInfos(f, ids, kind, block)
  {
    hide Defs, NewId, Upcoming, NonZero, ParamInfos, MapIs;
    UpcomingFits(Defs(f), at, ids, 0);
    ghost var defs, base := Defs(f), nv[..at];
    renamed, next := ids, at;
    var i := 0;
    NoParamsYet(f, ids, kind, block);
    while i < |ids|
      invariant 0 <= i <= |ids| == |renamed| && next == at + |NonZero(ids[..i])| <= nv.Length
      invariant nv[..next] == base + ParamInfos(f, ids[..i], kind, block)
      invariant forall k: nat | k < |ids| :: renamed[k] == if k < i then NewDef(defs, ids[k]) else ids[k]
    {
      assert ids[i] in ids;
      NonZeroStep(ids, i);
      ParamInfosStep(f, ids, kind, block, i);
      UpcomingFits(defs, at, ids, i + 1);
      MapAt(m[..], defs, ids[i]);
      ZeroUnmapped(f);
      if ids[i] != 0 {
        UpcomingAt(defs, at, ids, i);
      }
      var nid := m[ids[i]];
      if nid != 0 {
        ghost var before := nv[..next];
        nv[nid - 1] := ValInfo(f.vals[ids[i] - 1].ty, kind, block, 0);
        renamed := renamed[i := nid];
        assert nv[..next + 1] == before + [nv[next]];
        next := next + 1;
      }
      i := i + 1;
    }
    assert ids[..i] == ids;
  }

  lemma NoParamsYet(f: Func, ids: seq<nat>, kind: DefKind, block: nat)
    ensures NonZero(ids[..0]) == [] && ParamInfos(f, ids[..0], kind, block) == []
  {
  }

  lemma ParamInfosStep(f: Func, ids: seq<nat>, kind: DefKind, block: nat, i: nat)
    requires i < |ids|
    ensures ParamInfos(f, ids[..i + 1], kind, block) == ParamInfos(f, ids[..i], kind, block)
            + if ids[i] != 0 then [ValInfo(TypeOf(f, ids[i]), kind, block, 0)] else []
  {
    assert ids[..i + 1][..i] == ids[..i];
  }

  lemma UpcomingFits(defs: seq<nat>, at: nat, ids: seq<nat>, i: nat)
    requires Upcoming(defs, at, ids) && i <= |ids|
    ensures at + |NonZero(ids[..i])| <= at + |NonZero(ids)| <= |defs|
  {
    NonZeroPrefix(ids, i);
  }

  lemma ZeroUnmapped(f: Func)
    requires SingleDefs(f)
    ensures NewId(Defs(f), 0) == 0
  {
  }

  method RecordInsts(f: Func, insts: seq<Inst>, block: nat, m: array<nat>, nv: array<ValInfo>, at: nat)
    returns (renamed: seq<Inst>, next: nat)
    requires SingleDefs(f) && MapIs(m[..], Defs(f)) && nv.Length == |Defs(f)| && 0 < m.Length
    requires Upcoming(Defs(f), at, Results(insts))
    requires forall k | 0 <= k < |insts| :: insts[k].result < m.Length && insts[k].result <= |f.vals|
    modifies nv
    ensures |renamed| == |insts|
    ensures forall k: nat | k < |insts| :: renamed[k] == insts[k].(result := NewDef(Defs(f), insts[k].result))
    ensures next == at + |NonZero(Results(insts))|
    ensures at <= next <= nv.Length && nv[..next] == old(nv[..at]) + InstInfos(f, insts, block)
  {
    hide Defs, NewId, Upcoming, NonZero, InstInfos, MapIs;
    var ids := Results(insts);
    UpcomingFits(Defs(f), at, ids, 0);
    ghost var defs, base := Defs(f), nv[..at];
    renamed, next := insts, at;
    var i := 0;
    NothingYet(f, insts, block);
    while i < |insts|
      invariant 0 <= i <= |insts| == |renamed| && next == at + |NonZero(ids[..i])| <= nv.Length
      invariant nv[..next] == base + InstInfos(f, insts[..i], block)
      invariant forall k: nat | k < |insts| :: renamed[k] == if k < i then insts[k].(result := NewDef(defs, insts[k].result)) else insts[k]
    {
      assert ids[i] == insts[i].result;
      NonZeroStep(ids, i);
      InstInfosStep(f, insts, block, i);
      UpcomingFits(defs, at, ids, i + 1);
      var id := insts[i].result;
      MapAt(m[..], defs, id);
      ZeroUnmapped(f);
      if id != 0 {
        var nid := m[id];
        UpcomingAt(defs, at, ids, i);
        ghost var before := nv[..next];
        nv[nid - 1] := ValInfo(f.vals[id - 1].ty, DefInst, block, i);
        renamed := renamed[i := insts[i].(result := nid)];
        assert nv[..next + 1] == before + [nv[next]];
        next := next + 1;
      }
      i := i + 1;
    }
    assert ids[..i] == ids && insts[..i] == insts;
  }

  lemma NothingYet(f: Func, insts: seq<Inst>, block: nat)
    ensures NonZero(Results(insts)[..0]) == [] && InstInfos(f, insts[..0], block) == []
  {
  }

  lemma InstInfosStep(f: Func, insts: seq<Inst>, block: nat, i: nat)
    requires i < |insts|
    ensures InstInfos(f, insts[..i + 1], block) == InstInfos(f, insts[..i], block)
            + if insts[i].result != 0 then [ValInfo(TypeOf(f, insts[i].result), DefInst, block, i)] else []
  {
    assert insts[..i + 1][..i] == insts[..i];
  }

  lemma MapAt(m: seq<nat>, defs: seq<nat>, id: nat)
    requires MapIs(m, defs) && id < |m|
    ensures m[id] == NewId(defs, id)
  {
  }

  // --- pass 3: uses -----------------------------------------------------------------------

  method RenameOperands(m: array<nat>, nold: nat, ghost defs: seq<nat>, os: seq<Operand>) returns (renamed: seq<Operand>)
    requires m.Length == nold + 1 && MapIs(m[..], defs)
    ensures renamed == RenamedOperands(defs, nold, os)
  {
    hide NewId;
    renamed := os;
    var i := 0;
    while i < |os|
      invariant 0 <= i <= |os| == |renamed|
      invariant forall k: nat | k < |os| :: renamed[k] == if k < i then RenamedOperand(defs, nold, os[k]) else os[k]
    {
      if os[i].kind == OpValue {
        var id := os[i].a % ID_LIMIT;
        assert id <= nold ==> m[..][id] == NewId(defs, id);
        renamed := renamed[i := os[i].(a := if 1 <= id <= nold then m[id] else 0)];
      }
      i := i + 1;
    }
  }

  method RenameUses(m: array<nat>, nold: nat, ghost defs: seq<nat>, inst: Inst, ghost was: Inst) returns (renamed: Inst)
    requires m.Length == nold + 1 && MapIs(m[..], defs) && inst == was.(result := NewDef(defs, was.result))
    ensures renamed == RenamedInst(defs, nold, was)
  {
    hide NewDef, MapIs, RenamedOperands;
    var ops := RenameOperands(m, nold, defs, inst.ops);
    var edges := inst.edges;
    var i := 0;
    while i < |edges|
      invariant 0 <= i <= |edges| == |was.edges|
      invariant forall k: nat | k < |edges| :: edges[k] == if k < i then RenamedEdge(defs, nold, was.edges[k]) else was.edges[k]
    {
      var args := RenameOperands(m, nold, defs, edges[i].args);
      edges := edges[i := edges[i].(args := args)];
      i := i + 1;
    }
    assert edges == RenamedInst(defs, nold, was).edges;
    renamed := inst.(ops := ops, edges := edges);
  }

  method RenameBlockUses(m: array<nat>, nold: nat, ghost defs: seq<nat>, block: Block, ghost was: Block) returns (renamed: Block)
    requires m.Length == nold + 1 && MapIs(m[..], defs) && DefsRewritten(defs, was, block)
    ensures renamed == RenamedBlock(defs, nold, was)
  {
    hide NewDef, MapIs, RenamedInst;
    var insts := block.insts;
    var i := 0;
    while i < |insts|
      invariant 0 <= i <= |insts| == |was.insts|
      invariant forall k: nat | k < i :: insts[k] == RenamedInst(defs, nold, was.insts[k])
      invariant forall k: nat | i <= k < |insts| :: insts[k] == was.insts[k].(result := NewDef(defs, was.insts[k].result))
    {
      var inst := RenameUses(m, nold, defs, insts[i], was.insts[i]);
      insts := insts[i := inst];
      i := i + 1;
    }
    assert insts == RenamedBlock(defs, nold, was).insts;
    renamed := block.(insts := insts);
  }

  // A block after pass 2: new definitions, old uses.
  ghost predicate DefsRewritten(defs: seq<nat>, was: Block, now: Block) {
    && now.name == was.name && now.params == RenamedIds(defs, was.params) && |now.insts| == |was.insts|
    && forall k: nat | k < |was.insts| :: now.insts[k] == was.insts[k].(result := NewDef(defs, was.insts[k].result))
  }

  // --- the whole ------------------------------------------------------------------------------

  lemma BlockUpcoming(f: Func, b: nat)
    requires b < |f.blocks|
    ensures Upcoming(Defs(f), |DefsBefore(f, b)|, f.blocks[b].params)
    ensures Upcoming(Defs(f), |DefsBefore(f, b)| + |NonZero(f.blocks[b].params)|, Results(f.blocks[b].insts))
  {
    hide NonZero, DefsBefore;
    DefsPrefix(f, b + 1, |f.blocks|);
    NextDefs(f, b);
    var all, before := DefsBefore(f, |f.blocks|), DefsBefore(f, b);
    var ps, rs := NonZero(f.blocks[b].params), NonZero(Results(f.blocks[b].insts));
    PartsOfPrefix(all, before, ps, rs);
  }

  lemma PartsOfPrefix(all: seq<nat>, a: seq<nat>, b: seq<nat>, c: seq<nat>)
    requires a + b + c <= all
    ensures |a| + |b| + |c| <= |all| && all[|a|..|a| + |b|] == b && all[|a| + |b|..|a| + |b| + |c|] == c
  {
  }

  lemma ParamsUpcoming(f: Func)
    ensures Upcoming(Defs(f), 0, f.paramVals)
  {
    hide NonZero;
    DefsPrefix(f, 0, |f.blocks|);
  }

  // Pass 2 over one block.
  method RecordBlock(f: Func, b: nat, m: array<nat>, nv: array<ValInfo>, at: nat) returns (now: Block, next: nat)
    requires SingleDefs(f) && MapIs(m[..], Defs(f)) && nv.Length == |Defs(f)| && m.Length == |f.vals| + 1
    requires b < |f.blocks| && at == |DefsBefore(f, b)| && at <= nv.Length && nv[..at] == InfosBefore(f, b)
    modifies nv
    ensures DefsRewritten(Defs(f), f.blocks[b], now)
    ensures next == |DefsBefore(f, b + 1)| && next <= nv.Length && nv[..next] == InfosBefore(f, b + 1)
  {
    hide Defs, NewId, NewDef, MapIs, SingleDefs, Upcoming, NonZero, InstInfos, ParamInfos;
    var block := f.blocks[b];
    BlockUpcoming(f, b);
    IdsInTable(f, b);
    var params, insts;
    params, next := RecordParams(f, block.params, DefBparam, b + 1, m, nv, at);
    forall k | 0 <= k < |block.insts|
      ensures block.insts[k].result < m.Length && block.insts[k].result <= |f.vals|
    {
      assert Results(block.insts)[k] in Results(block.insts);
    }
    insts, next := RecordInsts(f, block.insts, b + 1, m, nv, next);
    now := Block(block.name, params, insts);
    assert DefsBefore(f, b + 1) == DefsBefore(f, b) + BlockDefs(block);
  }

  // Pass 2 over every block.
  method RecordAll(was: Func, m: array<nat>, nv: array<ValInfo>, at0: nat, blocks: array<Block>) returns (at: nat)
    requires SingleDefs(was) && MapIs(m[..], Defs(was)) && nv.Length == |Defs(was)| && m.Length == |was.vals| + 1
    requires at0 == |DefsBefore(was, 0)| <= nv.Length && nv[..at0] == InfosBefore(was, 0)
    requires |was.blocks| <= blocks.Length && blocks[..|was.blocks|] == was.blocks
    modifies nv, blocks
    ensures at == |Defs(was)| && nv[..at] == InfosBefore(was, |was.blocks|)
    ensures forall b: nat | b < |was.blocks| :: DefsRewritten(Defs(was), was.blocks[b], blocks[b])
  {
    hide Defs, DefsBefore, InfosBefore, NewId, MapIs, SingleDefs, DefsRewritten;
    at := at0;
    ghost var marks := m[..];
    var bi := 0;
    while bi < |was.blocks|
      invariant 0 <= bi <= |was.blocks| && m[..] == marks
      invariant at == |DefsBefore(was, bi)| && at <= nv.Length && nv[..at] == InfosBefore(was, bi)
      invariant forall b: nat | b < bi :: DefsRewritten(Defs(was), was.blocks[b], blocks[b])
      invariant forall b: nat | bi <= b < |was.blocks| :: blocks[b] == was.blocks[b]
    {
      var now;
      now, at := RecordBlock(was, bi, m, nv, at);
      blocks[bi] := now;
      bi := bi + 1;
    }
    LastDefs(was);
  }

  // Pass 3 over every block.
  method RenameAll(m: array<nat>, nold: nat, ghost was: Func, blocks: array<Block>, n: nat)
    requires nold == |was.vals| && m.Length == nold + 1 && MapIs(m[..], Defs(was)) && n == |was.blocks| <= blocks.Length
    requires forall b: nat | b < n :: DefsRewritten(Defs(was), was.blocks[b], blocks[b])
    modifies blocks
    ensures blocks[..n] == Renumbered(was).blocks
  {
    hide Defs, NewId, MapIs, DefsRewritten, RenamedBlock;
    ghost var marks := m[..];
    var bi := 0;
    while bi < n
      invariant 0 <= bi <= n && m[..] == marks
      invariant forall b: nat | b < bi :: blocks[b] == RenamedBlock(Defs(was), nold, was.blocks[b])
      invariant forall b: nat | bi <= b < n :: DefsRewritten(Defs(was), was.blocks[b], blocks[b])
    {
      var block := RenameBlockUses(m, nold, Defs(was), blocks[bi], was.blocks[bi]);
      blocks[bi] := block;
      bi := bi + 1;
    }
  }

  // Where a local slot's address went: nowhere if nothing defines it.
  function RenamedSlot(f: Func, id: nat): nat {
    if 1 <= id <= |f.vals| then NewId(Defs(f), id) else 0
  }

  method RenameSlots(was: Func, m: array<nat>, slots: array<nat>)
    requires m != slots && m.Length == |was.vals| + 1 && MapIs(m[..], Defs(was))
    modifies slots
    ensures forall k: nat | k < slots.Length :: slots[k] == RenamedSlot(was, old(slots[k]))
  {
    hide NewId, Defs;
    ghost var marks := m[..];
    var i := 0;
    while i < slots.Length
      invariant 0 <= i <= slots.Length && m[..] == marks
      invariant forall k: nat | k < slots.Length :: slots[k] == if k < i then RenamedSlot(was, old(slots[k])) else old(slots[k])
    {
      var id := slots[i];
      assert id <= |was.vals| ==> m[..][id] == NewId(Defs(was), id);
      slots[i] := if 1 <= id <= |was.vals| then m[id] else 0;
      i := i + 1;
    }
  }

  // slots holds the address value of each local slot.
  method IrFuncRenumber(f: IrFunc, slots: array<nat>)
    requires f.Valid() && SingleDefs(f.Value())
    modifies f, f.blocks, slots
    ensures forall k: nat | k < slots.Length :: slots[k] == RenamedSlot(old(f.Value()), old(slots[k]))
    ensures f.Valid() && f.blocks == old(f.blocks) && f.nblocks == old(f.nblocks) && fresh(f.vals)
    ensures f.Value() == Renumbered(old(f.Value()))
  {
    hide Defs, NewId, MapIs, SingleDefs, Upcoming, NonZero, ParamInfos, DefsRewritten, RenamedBlock;
    var was := Func(f.paramVals, f.blocks[..f.nblocks], f.vals[..f.nvals]);
    var m := new nat[f.nvals + 1](_ => 0);
    var next := AssignAll(was, m);
    var nv := new ValInfo[next](_ => ValInfo(0, DefNone, 0, 0));
    ParamsUpcoming(was);
    IdsInTable(was, 0);
    FirstInfos(was);
    assert nv[..0] == [];
    var params, at := RecordParams(was, f.paramVals, DefFparam, 1, m, nv, 0);
    RenameSlots(was, m, slots);
    at := RecordAll(was, m, nv, at, f.blocks);
    RenameAll(m, f.nvals, was, f.blocks, f.nblocks);
    f.paramVals := params;
    f.vals := nv;
    f.nvals := next;
  }

  lemma LastDefs(f: Func)
    ensures |Defs(f)| == |DefsBefore(f, |f.blocks|)|
  {
  }

  lemma FirstInfos(f: Func)
    ensures DefsBefore(f, 0) == NonZero(f.paramVals) && InfosBefore(f, 0) == ParamInfos(f, f.paramVals, DefFparam, 1)
  {
  }
}
