/** The control-flow graph of a function, and what dominance means on it: every
    path from the entry passes through. Blocks are named by table index here;
    edges whose target id is out of range are not arcs. */
module Cfg {
  import opened Ir

  type Graph = seq<Block>

  // Instruction i's edge e of block a leads to block b.
  predicate ArcAt(g: Graph, a: nat, i: nat, e: nat, b: nat) {
    && a < |g| && b < |g| && i < |g[a].insts| && e < |g[a].insts[i].edges|
    && g[a].insts[i].edges[e].target == b + 1
  }

  ghost predicate Arc(g: Graph, a: nat, b: nat) {
    exists i: nat, e: nat :: ArcAt(g, a, i, e, b)
  }

  ghost predicate IsPath(g: Graph, p: seq<nat>) {
    && |p| > 0 && p[0] < |g|
    && forall k | 0 < k < |p| :: Arc(g, p[k - 1], p[k])
  }

  ghost predicate PathTo(g: Graph, p: seq<nat>, b: nat) {
    IsPath(g, p) && p[0] == 0 && p[|p| - 1] == b
  }

  ghost predicate Reachable(g: Graph, b: nat) {
    exists p :: PathTo(g, p, b)
  }

  // Every path from the entry to b passes through a.
  ghost predicate Dominates(g: Graph, a: nat, b: nat) {
    forall p | PathTo(g, p, b) :: a in p
  }

  lemma PathInRange(g: Graph, p: seq<nat>, k: nat)
    requires IsPath(g, p) && k < |p|
    ensures p[k] < |g|
  {
    if k > 0 {
      assert Arc(g, p[k - 1], p[k]);
    }
  }

  lemma EntryReachable(g: Graph)
    requires |g| > 0
    ensures Reachable(g, 0)
  {
    assert PathTo(g, [0], 0);
  }

  lemma ExtendPath(g: Graph, p: seq<nat>, a: nat, b: nat)
    requires PathTo(g, p, a) && Arc(g, a, b)
    ensures PathTo(g, p + [b], b)
  {
    var q := p + [b];
    forall k | 0 < k < |q|
      ensures Arc(g, q[k - 1], q[k])
    {
    }
  }

  lemma ReachArc(g: Graph, a: nat, b: nat)
    requires Reachable(g, a) && Arc(g, a, b)
    ensures Reachable(g, b)
  {
    var p :| PathTo(g, p, a);
    ExtendPath(g, p, a, b);
  }

  lemma DropLast(g: Graph, p: seq<nat>, b: nat)
    requires PathTo(g, p, b) && |p| > 1
    ensures PathTo(g, p[..|p| - 1], p[|p| - 2]) && Arc(g, p[|p| - 2], b)
  {
    var q := p[..|p| - 1];
    forall k | 0 < k < |q|
      ensures Arc(g, q[k - 1], q[k])
    {
      assert Arc(g, p[k - 1], p[k]);
    }
    assert Arc(g, p[|p| - 2], p[|p| - 1]);
  }

  // A strict dominator of b dominates each of its reachable predecessors.
  lemma DominatesPredecessor(g: Graph, a: nat, p: nat, b: nat)
    requires Dominates(g, a, b) && a != b && Arc(g, p, b)
    ensures Dominates(g, a, p)
  {
    forall path | PathTo(g, path, p)
      ensures a in path
    {
      ExtendPath(g, path, p, b);
    }
  }

  // Does some instruction of block j branch to block b?
  method IsPred(g: Graph, j: nat, b: nat) returns (r: bool)
    requires j < |g| && b < |g|
    ensures r <==> Arc(g, j, b)
  {
    var i := 0;
    while i < |g[j].insts|
      invariant 0 <= i <= |g[j].insts|
      invariant forall i': nat, e: nat | i' < i :: !ArcAt(g, j, i', e, b)
    {
      var edges := g[j].insts[i].edges;
      var e := 0;
      while e < |edges|
        invariant 0 <= e <= |edges|
        invariant forall e': nat | e' < e :: !ArcAt(g, j, i, e', b)
      {
        if edges[e].target == b + 1 {
          assert ArcAt(g, j, i, e, b);
          return true;
        }
        e := e + 1;
      }
      i := i + 1;
    }
    r := false;
  }
}
