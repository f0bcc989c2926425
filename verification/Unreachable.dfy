/** The in-place removal of unreachable blocks from a function's tables. */
module Unreachable {
  import opened Shared
  import opened Ir
  import opened Cfg
  import opened DepthFirst
  import opened Compaction

  class IrFunc {
    var paramVals: seq<nat>
    var blocks: array<Block>
    var nblocks: nat
    var vals: array<ValInfo>
    var nvals: nat

    constructor (f: Func)
      ensures Valid() && Value() == f && fresh(blocks) && fresh(vals)
    {
      paramVals, nblocks, nvals := f.paramVals, |f.blocks|, |f.vals|;
      blocks := new Block[|f.blocks|](i requires 0 <= i < |f.blocks| => f.blocks[i]);
      vals := new ValInfo[|f.vals|](i requires 0 <= i < |f.vals| => f.vals[i]);
      new;
      assert blocks[..nblocks] == f.blocks && vals[..nvals] == f.vals;
    }

    ghost predicate Valid()
      reads this
    {
      nblocks <= blocks.Length && nvals <= vals.Length
    }

    ghost function Value(): Func
      requires Valid()
      reads this, blocks, vals
    {
      Func(paramVals, blocks[..nblocks], vals[..nvals])
    }
  }

  // --- the worklist -------------------------------------------------------------

  // log lists what has been reached, in order; what is no longer on the
  // worklist has had its successors reached.
  ghost predicate Exploring(g: Graph, reach: seq<bool>, work: seq<nat>, log: seq<nat>) {
    && 0 < |g| == |reach|
    && Distinct(work) && Distinct(log)
    && (forall b: nat | b < |g| :: reach[b] <==> b in log)
    && (forall b | b in log :: b < |g| && Reachable(g, b))
    && (forall b | b in work :: b in log)
    && 0 in log
    && (forall b | b in log && b !in work :: Scanned(g, reach, b))
  }

  // As Exploring, but b's edges behind the cursor (i, e) only have been followed.
  ghost predicate Expanding(g: Graph, reach: seq<bool>, work: seq<nat>, log: seq<nat>, b: nat, i: nat, e: nat) {
    && 0 < |g| == |reach| && b in log && b < |g|
    && Distinct(work) && Distinct(log)
    && (forall c: nat | c < |g| :: reach[c] <==> c in log)
    && (forall c | c in log :: c < |g| && Reachable(g, c))
    && (forall c | c in work :: c in log)
    && 0 in log
    && (forall c | c in log && c !in work && c != b :: Scanned(g, reach, c))
    && (b !in work ==> ScannedTo(g, reach, b, i, e))
  }

  lemma ExpandStep(g: Graph, reach: seq<bool>, work: seq<nat>, log: seq<nat>, b: nat, i: nat, e: nat)
    requires Expanding(g, reach, work, log, b, i, e) && i < |g[b].insts| && e < |g[b].insts[i].edges|
    ensures var t := g[b].insts[i].edges[e].target;
            if t >= 1 && t <= |g| && !reach[t - 1]
            then Expanding(g, reach[t - 1 := true], work + [t - 1], log + [t - 1], b, i, e + 1)
            else Expanding(g, reach, work, log, b, i, e + 1)
  {
    hide Reachable;
    var t := g[b].insts[i].edges[e].target;
    if t >= 1 && t <= |g| {
      assert ArcAt(g, b, i, e, t - 1);
      ReachArc(g, b, t - 1);
      if !reach[t - 1] {
        assert t - 1 !in log && t - 1 !in work;
        ExpandNew(g, reach, work, log, b, i, e, t - 1);
      }
    }
  }

  lemma ExpandNew(g: Graph, reach: seq<bool>, work: seq<nat>, log: seq<nat>, b: nat, i: nat, e: nat, c: nat)
    requires Expanding(g, reach, work, log, b, i, e) && i < |g[b].insts| && e < |g[b].insts[i].edges|
    requires g[b].insts[i].edges[e].target == c + 1 && c < |g| && !reach[c] && Reachable(g, c)
    ensures Expanding(g, reach[c := true], work + [c], log + [c], b, i, e + 1)
  {
    hide Reachable;
    var reach' := reach[c := true];
    forall x | x in log + [c] && x !in work + [c] && x != b
      ensures Scanned(g, reach', x)
    {
      ScannedMore(g, reach, c, x, 0, 0);
    }
    ScannedMore(g, reach, c, b, i, e);
  }

  lemma ExpandNextInst(g: Graph, reach: seq<bool>, work: seq<nat>, log: seq<nat>, b: nat, i: nat)
    requires Expanding(g, reach, work, log, b, i, if b < |g| && i < |g[b].insts| then |g[b].insts[i].edges| else 0)
    ensures Expanding(g, reach, work, log, b, i + 1, 0)
  {
  }

  lemma ExpandDone(g: Graph, reach: seq<bool>, work: seq<nat>, log: seq<nat>, b: nat)
    requires Expanding(g, reach, work, log, b, if b < |g| then |g[b].insts| else 0, 0)
    ensures Exploring(g, reach, work, log)
  {
    if b !in work {
      forall c: nat | Arc(g, b, c)
        ensures c < |reach| && reach[c]
      {
        var i: nat, e: nat :| ArcAt(g, b, i, e, c);
        assert Passed(|g[b].insts|, 0, i, e);
      }
    }
  }

  lemma ExploreFits(g: Graph, reach: seq<bool>, work: seq<nat>, log: seq<nat>)
    requires Exploring(g, reach, work, log)
    ensures |work| <= |log| <= |g|
  {
    NoRepeatsFit(log, |g|);
    WorkWithinLog(work, log);
  }

  lemma {:induction false} WorkWithinLog(work: seq<nat>, log: seq<nat>)
    requires Distinct(work) && forall b | b in work :: b in log
    ensures |work| <= |log|
  {
    if work != [] {
      var x := work[0];
      assert x in log;
      var i :| 0 <= i < |log| && log[i] == x;
      var rest := log[..i] + log[i + 1..];
      forall b | b in work[1..]
        ensures b in rest
      {
        assert b in work;
        var j :| 0 <= j < |log| && log[j] == b;
        assert rest[if j < i then j else j - 1] == b;
      }
      WorkWithinLog(work[1..], rest);
    }
  }

  lemma {:induction false} ExploreComplete(g: Graph, reach: seq<bool>, log: seq<nat>, p: seq<nat>, b: nat)
    requires Exploring(g, reach, [], log) && PathTo(g, p, b)
    ensures b in log
    decreases |p|
  {
    if |p| > 1 {
      DropLast(g, p, b);
      ExploreComplete(g, reach, log, p[..|p| - 1], p[|p| - 2]);
      assert Scanned(g, reach, p[|p| - 2]);
    }
  }

  // Follow every edge of block b.
  method Expand(g: Graph, b: nat, reach: array<bool>, work: array<nat>, nwork: nat, ghost log: seq<nat>)
    returns (n: nat, ghost log': seq<nat>)
    requires |g| == reach.Length == work.Length && nwork <= work.Length
    requires Expanding(g, reach[..], work[..nwork], log, b, 0, 0)
    modifies reach, work
    ensures n <= work.Length && Exploring(g, reach[..], work[..n], log')
    ensures |log'| >= |log| && (|log'| == |log| ==> n == nwork)
  {
    hide Expanding, Exploring;
    n, log' := nwork, log;
    ExpandRange(g, reach[..], work[..n], log, b, 0, 0);
    var i := 0;
    while i < |g[b].insts|
      invariant 0 <= i <= |g[b].insts| && n <= work.Length
      invariant Expanding(g, reach[..], work[..n], log', b, i, 0)
      invariant |log'| >= |log| && (|log'| == |log| ==> n == nwork)
    {
      var edges := g[b].insts[i].edges;
      var e := 0;
      while e < |edges|
        invariant 0 <= e <= |edges| && n <= work.Length
        invariant Expanding(g, reach[..], work[..n], log', b, i, e)
        invariant |log'| >= |log| && (|log'| == |log| ==> n == nwork)
      {
        ghost var r, w := reach[..], work[..n];
        ExpandStep(g, r, w, log', b, i, e);
        var t := edges[e].target;
        if t >= 1 && t <= |g| && !reach[t - 1] {
          ExpandRange(g, r[t - 1 := true], w + [t - 1], log' + [t - 1], b, i, e + 1);
          reach[t - 1] := true;
          work[n] := t - 1;
          n, log' := n + 1, log' + [t - 1];
          assert work[..n] == w + [t - 1] && reach[..] == r[t - 1 := true];
        }
        e := e + 1;
      }
      ExpandNextInst(g, reach[..], work[..n], log', b, i);
      i := i + 1;
    }
    ExpandDone(g, reach[..], work[..n], log', b);
  }

  lemma ExpandRange(g: Graph, reach: seq<bool>, work: seq<nat>, log: seq<nat>, b: nat, i: nat, e: nat)
    requires Expanding(g, reach, work, log, b, i, e)
    ensures b < |g| && |work| <= |g|
  {
    NoRepeatsFit(log, |g|);
    WorkWithinLog(work, log);
  }

  lemma ExplorePop(g: Graph, reach: seq<bool>, work: seq<nat>, log: seq<nat>)
    requires Exploring(g, reach, work, log) && |work| > 0
    ensures Expanding(g, reach, work[..|work| - 1], log, work[|work| - 1], 0, 0)
  {
    hide Reachable;
    var n := |work| - 1;
    assert work[n] in work;
    assert forall x | x in work && x != work[n] :: x in work[..n];
  }

  lemma ExploreStart(g: Graph, reach: seq<bool>)
    requires |g| > 0 && reach == seq(|g|, _ => false)[0 := true]
    ensures Exploring(g, reach, [0], [0])
  {
    EntryReachable(g);
  }

  // reach marks exactly the reachable blocks.
  method MarkReachable(g: Graph) returns (reach: array<bool>)
    requires |g| > 0
    ensures fresh(reach) && reach.Length == |g|
    ensures forall b: nat | b < |g| :: reach[b] <==> Reachable(g, b)
  {
    hide Exploring, Expanding;
    reach := new bool[|g|](_ => false);
    var work := new nat[|g|];
    reach[0], work[0] := true, 0;
    var nwork: nat := 1;
    ghost var log: seq<nat> := [0];
    assert reach[..] == seq(|g|, _ => false)[0 := true] && work[..1] == [0];
    ExploreStart(g, reach[..]);
    ExploreFits(g, reach[..], work[..1], log);
    while nwork > 0
      invariant nwork <= work.Length && Exploring(g, reach[..], work[..nwork], log) && |log| <= |g|
      decreases |g| - |log|, nwork
    {
      nwork := nwork - 1;
      ghost var w := work[..nwork + 1];
      ExplorePop(g, reach[..], w, log);
      assert w[..nwork] == work[..nwork];
      nwork, log := Expand(g, work[nwork], reach, work, nwork, log);
      ExploreFits(g, reach[..], work[..nwork], log);
    }
    assert work[..0] == [];
    ReachIsExact(g, reach[..], log);
  }

  lemma ReachIsExact(g: Graph, reach: seq<bool>, log: seq<nat>)
    requires Exploring(g, reach, [], log)
    ensures |reach| == |g| && forall b: nat | b < |g| :: reach[b] <==> Reachable(g, b)
  {
    forall b: nat | b < |g| && Reachable(g, b)
      ensures reach[b]
    {
      var p :| PathTo(g, p, b);
      ExploreComplete(g, reach, log, p, b);
    }
  }

  method IrFuncBlockReachable(f: IrFunc, block: nat) returns (r: bool)
    requires f.Valid()
    ensures r <==> 0 < block <= f.nblocks && Reachable(f.Value().blocks, block - 1)
  {
    if block == 0 || block > f.nblocks {
      return false;
    }
    var reach := MarkReachable(f.blocks[..f.nblocks]);
    r := reach[block - 1];
  }

  // --- the removal ----------------------------------------------------------------

  // What remap holds once every block has been numbered: entries of dead blocks are never set.
  ghost predicate Remapped(g: Graph, reach: seq<bool>, remap: seq<nat>) {
    && |reach| == |g| == |remap|
    && forall b: nat | b < |g| :: (reach[b] <==> Reachable(g, b)) && (reach[b] ==> remap[b] == NewIndex(g, b))
  }

  method NumberReached(g: Graph, reach: array<bool>) returns (remap: array<nat>, next: nat, anyDead: bool)
    requires reach.Length == |g| && forall b: nat | b < |g| :: reach[b] <==> Reachable(g, b)
    ensures fresh(remap) && Remapped(g, reach[..], remap[..]) && next == |Kept(g, |g|)|
    ensures !anyDead ==> forall b: nat | b < |g| :: Reachable(g, b)
  {
    hide Reachable;
    remap := new nat[|g|];
    next, anyDead := 0, false;
    var i := 0;
    while i < |g|
      invariant 0 <= i <= |g| && next == |Kept(g, i)|
      invariant forall b: nat | b < i && reach[b] :: remap[b] == NewIndex(g, b)
      invariant !anyDead ==> forall b: nat | b < i :: Reachable(g, b)
    {
      if reach[i] {
        remap[i] := next;
        next := next + 1;
      } else {
        anyDead := true;
      }
      i := i + 1;
    }
  }

  // Retarget one instruction's edges.
  method MoveInst(g: Graph, ghost reach: seq<bool>, remap: array<nat>, inst: Inst, ghost b: nat, ghost pos: nat)
    returns (moved: Inst)
    requires Remapped(g, reach, remap[..]) && b < |g| && Reachable(g, b)
    requires pos < |g[b].insts| && inst == g[b].insts[pos]
    ensures moved == MovedInst(g, inst)
  {
    hide Reachable, NewIndex;
    var edges := inst.edges;
    var j := 0;
    while j < |edges|
      invariant 0 <= j <= |edges| == |inst.edges|
      invariant forall k: nat | k < |edges| :: edges[k] == if k < j then MovedEdge(g, inst.edges[k]) else inst.edges[k]
    {
      var t := edges[j].target;
      if t >= 1 && t <= |g| {
        assert ArcAt(g, b, pos, j, t - 1);
        ReachArc(g, b, t - 1);
        assert remap[..][t - 1] == NewIndex(g, t - 1);
        edges := edges[j := edges[j].(target := remap[t - 1] + 1)];
      }
      j := j + 1;
    }
    assert edges == MovedInst(g, inst).edges;
    moved := inst.(edges := edges);
  }

  method MoveBlock(g: Graph, ghost reach: seq<bool>, remap: array<nat>, block: Block, ghost b: nat) returns (moved: Block)
    requires Remapped(g, reach, remap[..]) && b < |g| && Reachable(g, b) && block == g[b]
    ensures moved == MovedBlock(g, block)
  {
    hide Reachable, Remapped, MovedInst;
    var insts := block.insts;
    var i := 0;
    while i < |insts|
      invariant 0 <= i <= |insts| == |block.insts|
      invariant forall k: nat | k < |insts| :: insts[k] == if k < i then MovedInst(g, block.insts[k]) else block.insts[k]
    {
      var inst := MoveInst(g, reach, remap, insts[i], b, i);
      insts := insts[i := inst];
      i := i + 1;
    }
    assert insts == MovedBlock(g, block).insts;
    moved := block.(insts := insts);
  }

  // Values defined in dying blocks lose their definition; the others follow.
  method MoveVals(g: Graph, reach: array<bool>, remap: array<nat>, vals: array<ValInfo>, nvals: nat)
    requires Remapped(g, reach[..], remap[..]) && nvals <= vals.Length
    modifies vals
    ensures forall i | 0 <= i < nvals :: vals[i] == MovedVal(g, old(vals[i]))
    ensures forall i | nvals <= i < vals.Length :: vals[i] == old(vals[i])
  {
    hide Reachable, NewIndex;
    ghost var marks, news := reach[..], remap[..];
    var i := 0;
    while i < nvals
      invariant 0 <= i <= nvals && reach[..] == marks && remap[..] == news
      invariant forall k | 0 <= k < vals.Length :: vals[k] == if k < i then MovedVal(g, old(vals[k])) else old(vals[k])
    {
      var db := vals[i].block;
      if db >= 1 && db <= |g| {
        assert marks[db - 1] == reach[db - 1] && news[db - 1] == remap[db - 1];
        if !reach[db - 1] {
          vals[i] := vals[i].(block := 0, kind := DefNone);
        } else {
          vals[i] := vals[i].(block := remap[db - 1] + 1);
        }
      }
      i := i + 1;
    }
  }

  // Blocks below i have been moved; the rest are where they were.
  ghost predicate Slid(g: Graph, bs: seq<Block>, i: nat) {
    && |g| <= |bs| && i <= |g| && |Kept(g, i)| <= i
    && (forall k: nat | k < |Kept(g, i)| :: Kept(g, i)[k] < i && bs[k] == MovedBlock(g, g[Kept(g, i)[k]]))
    && (forall j: nat | i <= j < |g| :: bs[j] == g[j])
  }

  lemma SlideStep(g: Graph, bs: seq<Block>, i: nat)
    requires Slid(g, bs, i) && i < |g|
    ensures bs[i] == g[i] && |Kept(g, i)| <= i
    ensures if Reachable(g, i) then Slid(g, bs[i := MovedBlock(g, g[i])][|Kept(g, i)| := MovedBlock(g, g[i])], i + 1)
            else Slid(g, bs, i + 1)
  {
    hide Reachable, MovedBlock;
    if Reachable(g, i) {
      KeptStep(g, i);
      hide Kept;
      SlideLive(g, bs, i, Kept(g, i), Kept(g, i + 1));
    }
  }

  lemma KeptStep(g: Graph, i: nat)
    requires i < |g| && Reachable(g, i)
    ensures Kept(g, i + 1) == Kept(g, i) + [i]
  {
  }

  lemma SlideLive(g: Graph, bs: seq<Block>, i: nat, kept: seq<nat>, kept': seq<nat>)
    requires Slid(g, bs, i) && i < |g| && kept == Kept(g, i) && kept' == kept + [i] == Kept(g, i + 1)
    ensures Slid(g, bs[i := MovedBlock(g, g[i])][|kept| := MovedBlock(g, g[i])], i + 1)
  {
    hide Reachable, MovedBlock, Kept;
    var moved, n := MovedBlock(g, g[i]), |kept|;
    var after := bs[i := moved][n := moved];
    forall k: nat | k < |kept'|
      ensures kept'[k] < i + 1 && after[k] == MovedBlock(g, g[kept'[k]])
    {
      if k < n {
        assert kept'[k] == kept[k] && after[k] == bs[k];
      }
    }
  }

  // Slide each live block down to its new index. The write never lands on a
  // block that has yet to be moved.
  method MoveBlocks(g: Graph, reach: array<bool>, remap: array<nat>, blocks: array<Block>, n: nat)
    requires n == |g| <= blocks.Length && blocks[..n] == g && Remapped(g, reach[..], remap[..])
    modifies blocks
    ensures Slid(g, blocks[..], n)
  {
    hide Reachable, MovedBlock, Remapped, Slid, Kept;
    ghost var marks, news := reach[..], remap[..];
    SlideStart(g, blocks[..]);
    var i := 0;
    while i < n
      invariant 0 <= i <= n && reach[..] == marks && remap[..] == news
      invariant Slid(g, blocks[..], i)
    {
      ghost var bs := blocks[..];
      RemapAt(g, marks, news, i);
      SlideStep(g, bs, i);
      assert reach[i] == marks[i] && remap[i] == news[i];
      if reach[i] {
        var moved := MoveBlock(g, marks, remap, blocks[i], i);
        blocks[i] := moved;
        blocks[remap[i]] := moved;
        assert blocks[..] == bs[i := moved][remap[i] := moved];
      }
      i := i + 1;
    }
  }

  lemma SlideStart(g: Graph, bs: seq<Block>)
    requires |g| <= |bs| && bs[..|g|] == g
    ensures Slid(g, bs, 0)
  {
    assert forall j: nat | j < |g| :: bs[j] == bs[..|g|][j];
  }

  lemma RemapAt(g: Graph, reach: seq<bool>, remap: seq<nat>, b: nat)
    requires Remapped(g, reach, remap) && b < |g|
    ensures |reach| == |remap| == |g| && (reach[b] <==> Reachable(g, b))
    ensures reach[b] ==> remap[b] == |Kept(g, b)| && Kept(g, b + 1) == Kept(g, b) + [b]
    ensures !reach[b] ==> Kept(g, b + 1) == Kept(g, b)
  {
  }

  method IrFuncRemoveUnreachable(f: IrFunc)
    requires f.Valid()
    modifies f, f.blocks, f.vals
    ensures f.Valid() && f.blocks == old(f.blocks) && f.vals == old(f.vals)
    ensures f.Value() == Compacted(old(f.Value()))
  {
    hide Reachable, Remapped, MovedBlock, MovedVal;
    ghost var was := f.Value();
    var n := f.nblocks;
    if n == 0 {
      CompactedWhole(was);
      return;
    }
    var g := f.blocks[..n];
    var reach := MarkReachable(g);
    var remap, next, anyDead := NumberReached(g, reach);
    if !anyDead {
      CompactedWhole(was);
      return;
    }
    MoveVals(g, reach, remap, f.vals, f.nvals);
    MoveBlocks(g, reach, remap, f.blocks, n);
    f.nblocks := next;
    KeptFacts(g, n);
    assert Slid(g, f.blocks[..], n);
    assert f.Value().blocks == Compacted(was).blocks;
    assert f.Value().vals == Compacted(was).vals;
  }
}
