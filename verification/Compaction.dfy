/** Unreachable-block removal, as a function of the original: the reachable
    blocks in order, edges renamed to the new indices, and the value table
    following along. Shown to keep every run and to have nothing left to do. */
module Compaction {
  import opened Ir
  import opened Cfg
  import opened Execution

  // The reachable blocks below n, in table order.
  ghost function Kept(g: Graph, n: nat): seq<nat> {
    if n == 0 then []
    else Kept(g, n - 1) + if Reachable(g, n - 1) then [n - 1] else []
  }

  // A reachable block's new index: how many reachable blocks precede it.
  ghost function NewIndex(g: Graph, b: nat): nat {
    |Kept(g, b)|
  }

  lemma {:induction false} KeptFacts(g: Graph, n: nat)
    ensures |Kept(g, n)| <= n
    ensures forall k: nat | k < |Kept(g, n)| :: Kept(g, n)[k] < n && Reachable(g, Kept(g, n)[k]) && NewIndex(g, Kept(g, n)[k]) == k
    ensures forall b: nat | b < n && Reachable(g, b) :: NewIndex(g, b) < |Kept(g, n)| && Kept(g, n)[NewIndex(g, b)] == b
  {
    if n > 0 {
      KeptFacts(g, n - 1);
    }
  }

  lemma {:induction false} KeptPrefix(g: Graph, m: nat, n: nat)
    requires m <= n
    ensures Kept(g, m) <= Kept(g, n)
  {
    if m < n {
      KeptPrefix(g, m, n - 1);
    }
  }

  lemma {:induction false} KeptAll(g: Graph, n: nat)
    requires forall b: nat | b < n :: Reachable(g, b)
    ensures |Kept(g, n)| == n && forall k: nat | k < n :: Kept(g, n)[k] == k
  {
    if n > 0 {
      KeptAll(g, n - 1);
    }
  }

  lemma EntryKept(g: Graph)
    requires |g| > 0
    ensures |Kept(g, |g|)| > 0 && Kept(g, |g|)[0] == 0 && NewIndex(g, 0) == 0
  {
    EntryReachable(g);
    KeptFacts(g, |g|);
  }

  // --- the result --------------------------------------------------------------------

  ghost function NewTarget(g: Graph, t: nat): nat {
    if 1 <= t <= |g| then NewIndex(g, t - 1) + 1 else t
  }

  ghost function MovedEdge(g: Graph, e: Edge): Edge {
    e.(target := NewTarget(g, e.target))
  }

  ghost function MovedInst(g: Graph, inst: Inst): Inst {
    inst.(edges := seq(|inst.edges|, i requires 0 <= i < |inst.edges| => MovedEdge(g, inst.edges[i])))
  }

  ghost function MovedBlock(g: Graph, block: Block): Block {
    block.(insts := seq(|block.insts|, i requires 0 <= i < |block.insts| => MovedInst(g, block.insts[i])))
  }

  // Values of dead blocks keep their ids but lose their definition.
  ghost function MovedVal(g: Graph, vi: ValInfo): ValInfo {
    if !(1 <= vi.block <= |g|) then vi
    else if !Reachable(g, vi.block - 1) then vi.(block := 0, kind := DefNone)
    else vi.(block := NewIndex(g, vi.block - 1) + 1)
  }

  ghost function Compacted(f: Func): Func {
    var g, kept := f.blocks, Kept(f.blocks, |f.blocks|);
    Func(f.paramVals,
         seq(|kept|, k requires 0 <= k < |kept| => (KeptFacts(g, |g|); MovedBlock(g, g[kept[k]]))),
         seq(|f.vals|, i requires 0 <= i < |f.vals| => MovedVal(g, f.vals[i])))
  }

  lemma CompactedBlock(f: Func, b: nat)
    requires b < |f.blocks| && Reachable(f.blocks, b)
    ensures var k := NewIndex(f.blocks, b);
            k < |Compacted(f).blocks| && Compacted(f).blocks[k] == MovedBlock(f.blocks, f.blocks[b])
  {
    KeptFacts(f.blocks, |f.blocks|);
  }

  // --- the arcs are the same ----------------------------------------------------------

  lemma ArcMoves(f: Func, a: nat, b: nat)
    requires Reachable(f.blocks, a) && Arc(f.blocks, a, b) && a < |f.blocks| && b < |f.blocks|
    ensures Arc(Compacted(f).blocks, NewIndex(f.blocks, a), NewIndex(f.blocks, b))
  {
    var g := f.blocks;
    ReachArc(g, a, b);
    CompactedBlock(f, a);
    CompactedBlock(f, b);
    var i: nat, e: nat :| ArcAt(g, a, i, e, b);
    assert ArcAt(Compacted(f).blocks, NewIndex(g, a), i, e, NewIndex(g, b));
  }

  lemma ReachableInRange(g: Graph, b: nat)
    requires Reachable(g, b)
    ensures b < |g|
  {
    var p :| PathTo(g, p, b);
    PathInRange(g, p, |p| - 1);
  }

  lemma {:induction false} PathMoves(f: Func, p: seq<nat>, b: nat)
    requires PathTo(f.blocks, p, b)
    ensures b < |f.blocks| && Reachable(f.blocks, b) && Reachable(Compacted(f).blocks, NewIndex(f.blocks, b))
    decreases |p|
  {
    var g := f.blocks;
    assert Reachable(g, b);
    ReachableInRange(g, b);
    if |p| == 1 {
      EntryKept(g);
      EntryReachable(Compacted(f).blocks);
    } else {
      var a := p[|p| - 2];
      DropLast(g, p, b);
      PathMoves(f, p[..|p| - 1], a);
      ArcMoves(f, a, b);
      ReachArc(Compacted(f).blocks, NewIndex(g, a), NewIndex(g, b));
    }
  }

  // Nothing unreachable is left, every reachable block is, and the entry is first.
  lemma CompactedReachable(f: Func)
    ensures forall k: nat | k < |Compacted(f).blocks| :: Reachable(Compacted(f).blocks, k)
    ensures forall b: nat | b < |f.blocks| && Reachable(f.blocks, b) ::
              var k := NewIndex(f.blocks, b);
              k < |Compacted(f).blocks| && Compacted(f).blocks[k] == MovedBlock(f.blocks, f.blocks[b])
    ensures f.blocks != [] ==> Compacted(f).blocks != [] && Compacted(f).blocks[0] == MovedBlock(f.blocks, f.blocks[0])
  {
    var g := f.blocks;
    KeptFacts(g, |g|);
    forall b: nat | b < |g| && Reachable(g, b)
      ensures NewIndex(g, b) < |Compacted(f).blocks| && Compacted(f).blocks[NewIndex(g, b)] == MovedBlock(g, g[b])
    {
      CompactedBlock(f, b);
    }
    if g != [] {
      EntryKept(g);
    }
    forall k: nat | k < |Compacted(f).blocks|
      ensures Reachable(Compacted(f).blocks, k)
    {
      var b := Kept(g, |g|)[k];
      var p :| PathTo(g, p, b);
      PathMoves(f, p, b);
    }
  }

  // With nothing to remove, nothing changes.
  lemma CompactedWhole(f: Func)
    requires forall b: nat | b < |f.blocks| :: Reachable(f.blocks, b)
    ensures Compacted(f) == f
  {
    var g := f.blocks;
    KeptAll(g, |g|);
    forall b: nat | b < |g|
      ensures NewIndex(g, b) == b && MovedBlock(g, g[b]) == g[b]
    {
      KeptAll(g, b);
      WholeBlock(g, g[b]);
    }
    assert Compacted(f).blocks == f.blocks;
    assert Compacted(f).vals == f.vals;
  }

  lemma WholeBlock(g: Graph, block: Block)
    requires forall b: nat | b < |g| :: Reachable(g, b)
    ensures MovedBlock(g, block) == block
  {
    forall i | 0 <= i < |block.insts|
      ensures MovedInst(g, block.insts[i]) == block.insts[i]
    {
      var inst := block.insts[i];
      forall j | 0 <= j < |inst.edges|
        ensures MovedEdge(g, inst.edges[j]) == inst.edges[j]
      {
        if 1 <= inst.edges[j].target <= |g| {
          KeptAll(g, inst.edges[j].target - 1);
        }
      }
      assert MovedInst(g, inst).edges == inst.edges;
    }
    assert MovedBlock(g, block).insts == block.insts;
  }

  lemma CompactionIdempotent(f: Func)
    ensures Compacted(Compacted(f)) == Compacted(f)
  {
    CompactedReachable(f);
    CompactedWhole(Compacted(f));
  }

  // --- every run is kept -----------------------------------------------------------------

  // The same meanings, looked up under the new block indices.
  ghost function MovedSemantics(g: Graph, sem: Semantics): Semantics {
    var kept := Kept(g, |g|);
    Semantics(
      (k: nat, pos: nat, vs: seq<Value>) => sem.result(if k < |kept| then kept[k] else k, pos, vs),
      (k: nat, pos: nat, vs: seq<Value>) => sem.branch(if k < |kept| then kept[k] else k, pos, vs),
      sem.constant)
  }

  ghost function MovedState(g: Graph, s: State): State {
    if s.Running? then s.(block := NewIndex(g, s.block)) else s
  }

  ghost predicate InReach(g: Graph, s: State) {
    s.Running? ==> s.block < |g| && Reachable(g, s.block)
  }

  lemma StepMoves(f: Func, sem: Semantics, s: State)
    requires InReach(f.blocks, s)
    ensures InReach(f.blocks, Step(f, sem, s))
    ensures Step(Compacted(f), MovedSemantics(f.blocks, sem), MovedState(f.blocks, s)) == MovedState(f.blocks, Step(f, sem, s))
  {
    var g := f.blocks;
    if s.Running? && s.pos < |g[s.block].insts| {
      CompactedBlock(f, s.block);
      KeptFacts(g, |g|);
      var inst := g[s.block].insts[s.pos];
      var ops := Evaluate(sem, s.env, inst.ops);
      SameOperands(sem, MovedSemantics(g, sem), s.env, inst.ops);
      if ops.Values? && IsTerminator(inst.op) {
        var k := sem.branch(s.block, s.pos, ops.values);
        if k < |inst.edges| {
          EdgeMoves(f, sem, s, k);
        }
      }
    } else if s.Running? {
      CompactedBlock(f, s.block);
    }
  }

  lemma {:induction false} SameOperands(sem: Semantics, sem': Semantics, env: map<nat, Value>, os: seq<Operand>)
    requires sem'.constant == sem.constant
    ensures Evaluate(sem', env, os) == Evaluate(sem, env, os)
  {
    if os != [] {
      SameOperands(sem, sem', env, os[1..]);
    }
  }

  lemma EdgeMoves(f: Func, sem: Semantics, s: State, k: nat)
    requires s.Running? && s.block < |f.blocks| && Reachable(f.blocks, s.block)
    requires s.pos < |f.blocks[s.block].insts| && k < |f.blocks[s.block].insts[s.pos].edges|
    ensures var e := f.blocks[s.block].insts[s.pos].edges[k];
            && InReach(f.blocks, TakeEdge(f, sem, s.env, e))
            && TakeEdge(Compacted(f), MovedSemantics(f.blocks, sem), s.env, MovedEdge(f.blocks, e))
               == MovedState(f.blocks, TakeEdge(f, sem, s.env, e))
  {
    var g := f.blocks;
    var e := g[s.block].insts[s.pos].edges[k];
    SameOperands(sem, MovedSemantics(g, sem), s.env, e.args);
    KeptFacts(g, |g|);
    if 1 <= e.target <= |g| {
      assert ArcAt(g, s.block, s.pos, k, e.target - 1);
      ReachArc(g, s.block, e.target - 1);
      CompactedBlock(f, e.target - 1);
      assert MovedBlock(g, g[e.target - 1]).params == g[e.target - 1].params;
      forall j | 0 <= j < |f.vals|
        ensures Compacted(f).vals[j].ty == f.vals[j].ty
      {
      }
    }
  }

  // Step for step, the compacted function does what the original does, in the
  // renamed blocks; faults included.
  lemma {:induction false} CompactionKeepsRuns(f: Func, sem: Semantics, s: State, n: nat)
    requires InReach(f.blocks, s)
    ensures InReach(f.blocks, Run(f, sem, s, n))
    ensures Run(Compacted(f), MovedSemantics(f.blocks, sem), MovedState(f.blocks, s), n)
            == MovedState(f.blocks, Run(f, sem, s, n))
  {
    hide Step, InReach, Compacted, MovedSemantics, MovedState;
    if n > 0 {
      CompactionKeepsRuns(f, sem, s, n - 1);
      StepMoves(f, sem, Run(f, sem, s, n - 1));
    }
  }

  // The value table still agrees with the instructions.
  lemma CompactionKeepsTable(f: Func)
    requires TableAgrees(f)
    ensures TableAgrees(Compacted(f))
  {
    var g := f.blocks;
    forall id: nat | 0 < id <= |f.vals|
      ensures DefinedWhere(Compacted(f), id)
    {
      assert DefinedWhere(f, id);
      var vi := f.vals[id - 1];
      if vi.kind in {DefBparam, DefInst} && Reachable(g, vi.block - 1) {
        CompactedBlock(f, vi.block - 1);
      }
    }
  }
}
