/** Why the Cooper-Harvey-Kennedy iteration is right: facts about trees of
    tentative immediate dominators, over any numbering in which every reachable
    block but the entry has a smaller-numbered predecessor. */
module DomTheory {
  import opened Ir
  import opened Cfg
  import opened DepthFirst

  // Block u has a parent in the tree; the entry is its own.
  predicate Defined(idom: seq<nat>, u: nat) {
    u < |idom| && idom[u] != NONE
  }

  // Parents have smaller numbers and are in the tree themselves.
  ghost predicate Tree(rpo: seq<nat>, idom: seq<nat>) {
    && 0 < |idom| == |rpo| < NONE && idom[0] == 0 && rpo[0] == 0
    && (forall u | 0 <= u < |rpo| :: rpo[u] <= NONE)
    && (forall u | 0 < u < |idom| && Defined(idom, u) ::
         rpo[u] != NONE && Defined(idom, idom[u]) && rpo[idom[u]] < rpo[u])
  }

  // y lies on the chain from u up to the entry.
  ghost predicate On(rpo: seq<nat>, idom: seq<nat>, y: nat, u: nat)
    requires Tree(rpo, idom) && Defined(idom, u)
    decreases rpo[u]
  {
    y == u || (u != 0 && On(rpo, idom, y, idom[u]))
  }

  lemma {:induction false} OnNumbers(rpo: seq<nat>, idom: seq<nat>, y: nat, u: nat)
    requires Tree(rpo, idom) && Defined(idom, u) && On(rpo, idom, y, u)
    ensures Defined(idom, y) && rpo[y] <= rpo[u] && (y != u ==> rpo[y] < rpo[u])
    decreases rpo[u]
  {
    if y != u {
      OnNumbers(rpo, idom, y, idom[u]);
    }
  }

  lemma {:induction false} OnTransitive(rpo: seq<nat>, idom: seq<nat>, y: nat, x: nat, u: nat)
    requires Tree(rpo, idom) && Defined(idom, u) && On(rpo, idom, x, u)
    requires Defined(idom, x) && On(rpo, idom, y, x)
    ensures On(rpo, idom, y, u)
    decreases rpo[u]
  {
    if x != u {
      OnTransitive(rpo, idom, y, x, idom[u]);
    }
  }

  // A chain is linearly ordered by its numbers.
  lemma {:induction false} OnLinear(rpo: seq<nat>, idom: seq<nat>, y: nat, x: nat, u: nat)
    requires Tree(rpo, idom) && Defined(idom, u) && On(rpo, idom, x, u) && On(rpo, idom, y, u)
    requires Defined(idom, x) && Defined(idom, y) && rpo[y] <= rpo[x]
    ensures On(rpo, idom, y, x)
    decreases rpo[u]
  {
    if x != u {
      OnNumbers(rpo, idom, x, u);
      OnLinear(rpo, idom, y, x, idom[u]);
    }
  }

  lemma {:induction false} EntryOn(rpo: seq<nat>, idom: seq<nat>, u: nat)
    requires Tree(rpo, idom) && Defined(idom, u)
    ensures On(rpo, idom, 0, u)
    decreases rpo[u]
  {
    if u != 0 {
      EntryOn(rpo, idom, idom[u]);
    }
  }

  // Chains only look at smaller numbers.
  lemma {:induction false} OnAgrees(rpo: seq<nat>, t: seq<nat>, t': seq<nat>, y: nat, u: nat)
    requires Tree(rpo, t) && Tree(rpo, t') && Defined(t, u) && Defined(t', u)
    requires forall v: nat | Defined(t, v) && 0 < rpo[v] <= rpo[u] :: t'[v] == t[v]
    ensures On(rpo, t, y, u) <==> On(rpo, t', y, u)
    decreases rpo[u]
  {
    if u != 0 {
      OnAgrees(rpo, t, t', y, t[u]);
    }
  }

  // --- the meet over predecessors ----------------------------------------------------

  // y is a common ancestor of all predecessors of b that are in the tree.
  ghost predicate Common(g: Graph, rpo: seq<nat>, idom: seq<nat>, b: nat, y: nat)
    requires Tree(rpo, idom)
  {
    forall p | Defined(idom, p) && Arc(g, p, b) :: On(rpo, idom, y, p)
  }

  // m's chain is exactly the set of common ancestors.
  ghost predicate IsMeet(g: Graph, rpo: seq<nat>, idom: seq<nat>, b: nat, m: nat)
    requires Tree(rpo, idom)
  {
    Defined(idom, m) && forall y :: On(rpo, idom, y, m) <==> Common(g, rpo, idom, b, y)
  }

  // --- paths that stay above a number -------------------------------------------------

  // A path from a down to b through no block numbered below a.
  ghost predicate DownPath(g: Graph, rpo: seq<nat>, q: seq<nat>, a: nat, b: nat) {
    && IsPath(g, q) && q[0] == a && q[|q| - 1] == b && a < |rpo|
    && forall k | 0 <= k < |q| :: q[k] < |rpo| && rpo[a] <= rpo[q[k]]
  }

  ghost predicate Down(g: Graph, rpo: seq<nat>, a: nat, b: nat) {
    exists q :: DownPath(g, rpo, q, a, b)
  }

  lemma DownJoin(g: Graph, rpo: seq<nat>, a: nat, b: nat, c: nat)
    requires Down(g, rpo, a, b) && Down(g, rpo, b, c) && a < |rpo| && b < |rpo| && rpo[a] <= rpo[b]
    ensures Down(g, rpo, a, c)
  {
    var p :| DownPath(g, rpo, p, a, b);
    var q :| DownPath(g, rpo, q, b, c);
    var r := p + q[1..];
    forall k | 0 <= k < |r|
      ensures r[k] < |rpo| && rpo[a] <= rpo[r[k]]
      ensures k > 0 ==> Arc(g, r[k - 1], r[k])
    {
      if k >= |p| {
        assert r[k] == q[k - |p| + 1] && r[k - 1] == q[k - |p|];
      }
    }
    assert DownPath(g, rpo, r, a, c);
  }

  lemma DownArc(g: Graph, rpo: seq<nat>, p: nat, b: nat)
    requires EarlierPred(g, rpo, p, b) && p < |g|
    ensures Down(g, rpo, p, b)
  {
    assert DownPath(g, rpo, [p, b], p, b);
  }

  lemma DownSelf(g: Graph, rpo: seq<nat>, b: nat)
    requires b < |g| && b < |rpo|
    ensures Down(g, rpo, b, b)
  {
    assert DownPath(g, rpo, [b], b, b);
  }

  // Every tentative parent lies above its child by such a path.
  ghost predicate Downward(g: Graph, rpo: seq<nat>, idom: seq<nat>) {
    forall u | 0 < u < |idom| && Defined(idom, u) :: Down(g, rpo, idom[u], u)
  }

  lemma {:induction false} DownChain(g: Graph, rpo: seq<nat>, idom: seq<nat>, y: nat, u: nat)
    requires Tree(rpo, idom) && Downward(g, rpo, idom) && |g| == |idom| && Defined(idom, u) && On(rpo, idom, y, u)
    ensures Down(g, rpo, y, u)
    decreases rpo[u]
  {
    if y == u {
      DownSelf(g, rpo, u);
    } else {
      OnNumbers(rpo, idom, y, idom[u]);
      DownChain(g, rpo, idom, y, idom[u]);
      DownJoin(g, rpo, y, idom[u], u);
    }
  }

  // A dominator of u numbered no higher than u's parent dominates the parent.
  lemma DominatesParent(g: Graph, rpo: seq<nat>, a: nat, b: nat, d: nat)
    requires Down(g, rpo, a, b) && Dominates(g, d, b) && a < |rpo| && d < |rpo|
    requires d == a || rpo[d] < rpo[a]
    ensures Dominates(g, d, a)
  {
    var q :| DownPath(g, rpo, q, a, b);
    forall p | PathTo(g, p, a)
      ensures d in p
    {
      var r := p + q[1..];
      forall k | 0 < k < |r|
        ensures Arc(g, r[k - 1], r[k])
      {
        if k >= |p| {
          assert r[k] == q[k - |p| + 1] && r[k - 1] == q[k - |p|];
        }
      }
      assert r[|r| - 1] == q[|q| - 1];
      assert PathTo(g, r, b);
      var k :| 0 <= k < |r| && r[k] == d;
      if k >= |p| {
        assert r[k] == q[k - |p| + 1];
        assert d == a;
        assert p[|p| - 1] == a;
      }
    }
  }

  // --- one pass over the blocks in reverse postorder ----------------------------------

  // The tree never loses a true dominator.
  ghost predicate KeepsDominators(g: Graph, rpo: seq<nat>, idom: seq<nat>)
    requires Tree(rpo, idom)
  {
    forall c: nat, d: nat | Defined(idom, c) && Dominates(g, d, c) :: On(rpo, idom, d, c)
  }

  // What having just been recomputed leaves behind: b's parent is above every
  // forward predecessor, and no common ancestor of the predecessors is below it.
  ghost predicate Recomputed(g: Graph, rpo: seq<nat>, idom: seq<nat>, b: nat)
    requires Tree(rpo, idom)
  {
    && Defined(idom, b) && b != 0 && Defined(idom, idom[b])
    && (forall p | EarlierPred(g, rpo, p, b) :: Defined(idom, p) && On(rpo, idom, idom[b], p))
    && (forall y | Common(g, rpo, idom, b, y) :: On(rpo, idom, y, idom[b]))
  }

  predicate Numbered(rpo: seq<nat>, b: nat) {
    0 < b < |rpo| && rpo[b] != NONE
  }

  ghost predicate SoundTree(g: Graph, rpo: seq<nat>, idom: seq<nat>) {
    && Tree(rpo, idom) && |g| == |rpo|
    && Downward(g, rpo, idom) && KeepsDominators(g, rpo, idom)
    && (forall b: nat | Numbered(rpo, b) :: exists p :: EarlierPred(g, rpo, p, b))
  }

  // Blocks numbered below r have been visited in this pass, which began with t0.
  ghost predicate InPass(g: Graph, rpo: seq<nat>, t0: seq<nat>, t: seq<nat>, r: nat, first: bool) {
    && SoundTree(g, rpo, t) && Tree(rpo, t0) && 0 < r
    && (forall b: nat | Numbered(rpo, b) && rpo[b] < r :: Recomputed(g, rpo, t, b))
    && if first then
         forall b: nat | Numbered(rpo, b) && rpo[b] >= r :: !Defined(t, b)
       else
         && (forall b: nat | Numbered(rpo, b) :: Defined(t, b) && Recomputed(g, rpo, t0, b))
         && (forall b: nat | Numbered(rpo, b) && rpo[b] >= r :: t[b] == t0[b])
         && (forall b: nat | Numbered(rpo, b) && rpo[b] < r :: Defined(t, t0[b]) && On(rpo, t, t[b], t0[b]))
  }

  // Chains have only shrunk since the pass began.
  lemma {:induction false} ChainShrinks(g: Graph, rpo: seq<nat>, t0: seq<nat>, t: seq<nat>, r: nat, y: nat, u: nat)
    requires InPass(g, rpo, t0, t, r, false) && Defined(t, u) && On(rpo, t, y, u)
    ensures Defined(t0, u) && On(rpo, t0, y, u)
    decreases rpo[u]
  {
    if u != 0 {
      assert Numbered(rpo, u) && Recomputed(g, rpo, t0, u);
      if y != u {
        if rpo[u] < r {
          OnTransitive(rpo, t, y, t[u], t0[u]);
        }
        ChainShrinks(g, rpo, t0, t, r, y, t0[u]);
      }
    }
  }

  // An ancestor at the pass's start keeps every not-higher-numbered ancestor that u has now.
  lemma {:induction false} AncestorKeeps(g: Graph, rpo: seq<nat>, t0: seq<nat>, t: seq<nat>, r: nat, x: nat, y: nat, u: nat)
    requires InPass(g, rpo, t0, t, r, false) && Defined(t0, u) && Defined(t, u)
    requires On(rpo, t0, x, u) && On(rpo, t, y, u) && x < |rpo| && y < |rpo| && rpo[y] <= rpo[x]
    ensures Defined(t, x) && On(rpo, t, y, x)
    decreases rpo[u]
  {
    if x != u {
      assert Numbered(rpo, u) && Recomputed(g, rpo, t0, u);
      OnNumbers(rpo, t0, x, u);
      assert y != u;
      assert Defined(t, t[u]) && On(rpo, t, y, t[u]);
      if rpo[u] < r {
        OnTransitive(rpo, t, y, t[u], t0[u]);
      }
      AncestorKeeps(g, rpo, t0, t, r, x, y, t0[u]);
    }
  }

  // The meet at b is an ancestor of b's present parent.
  lemma MeetIsAbove(g: Graph, rpo: seq<nat>, t0: seq<nat>, t: seq<nat>, r: nat, b: nat, m: nat)
    requires InPass(g, rpo, t0, t, r, false) && Numbered(rpo, b) && rpo[b] == r && IsMeet(g, rpo, t, b, m)
    ensures Defined(t, t[b]) && On(rpo, t, m, t[b])
  {
    assert Recomputed(g, rpo, t0, b) && t[b] == t0[b];
    assert On(rpo, t, m, m) && Common(g, rpo, t, b, m);
    forall p | Defined(t0, p) && Arc(g, p, b)
      ensures On(rpo, t0, m, p)
    {
      assert p == 0 || Numbered(rpo, p);
      assert Defined(t, p);
      ChainShrinks(g, rpo, t0, t, r, m, p);
    }
    assert Common(g, rpo, t0, b, m);
    OnNumbers(rpo, t0, m, t0[b]);
    var p :| EarlierPred(g, rpo, p, b);
    assert Defined(t0, p) && On(rpo, t0, t0[b], p);
    assert p == 0 || Numbered(rpo, p);
    AncestorKeeps(g, rpo, t0, t, r, t0[b], m, p);
  }

  // --- replacing b's parent by the meet --------------------------------------------------

  // What an update at b relies on.
  ghost predicate Update(g: Graph, rpo: seq<nat>, t: seq<nat>, b: nat, m: nat) {
    && SoundTree(g, rpo, t) && Numbered(rpo, b) && IsMeet(g, rpo, t, b, m)
    && (forall p | EarlierPred(g, rpo, p, b) :: Defined(t, p))
    && (Defined(t, b) ==> On(rpo, t, m, t[b]))
  }

  lemma MeetBelowPreds(g: Graph, rpo: seq<nat>, t: seq<nat>, b: nat, m: nat)
    requires Update(g, rpo, t, b, m)
    ensures m < |rpo| && rpo[m] < rpo[b] && Defined(t, m)
    ensures forall p | EarlierPred(g, rpo, p, b) :: Defined(t, p) && On(rpo, t, m, p)
  {
    hide Dominates, KeepsDominators, Downward;
    assert On(rpo, t, m, m) && Common(g, rpo, t, b, m);
    var p :| EarlierPred(g, rpo, p, b);
    assert Defined(t, p) && On(rpo, t, m, p);
    OnNumbers(rpo, t, m, p);
  }

  lemma UpdatedTree(g: Graph, rpo: seq<nat>, t: seq<nat>, b: nat, m: nat)
    requires Update(g, rpo, t, b, m)
    ensures m < |rpo| && rpo[m] < rpo[b] && Tree(rpo, t[b := m])
    ensures forall p | EarlierPred(g, rpo, p, b) :: Defined(t, p) && On(rpo, t, m, p)
  {
    hide Dominates, KeepsDominators, Downward, IsMeet, On;
    MeetBelowPreds(g, rpo, t, b, m);
    var t' := t[b := m];
    forall u | 0 < u < |t'| && Defined(t', u)
      ensures rpo[u] != NONE && Defined(t', t'[u]) && rpo[t'[u]] < rpo[u]
    {
      assert u != b ==> Defined(t, u);
    }
  }

  lemma {:induction false} UpdateShrinks(g: Graph, rpo: seq<nat>, t: seq<nat>, b: nat, m: nat, y: nat, u: nat)
    requires Update(g, rpo, t, b, m) && Tree(rpo, t[b := m]) && Defined(t, u) && On(rpo, t[b := m], y, u)
    requires rpo[m] < rpo[b]
    ensures On(rpo, t, y, u)
    decreases rpo[u]
  {
    if y != u {
      if u == b {
        UpdateShrinks(g, rpo, t, b, m, y, m);
        OnTransitive(rpo, t, y, m, t[b]);
      } else {
        UpdateShrinks(g, rpo, t, b, m, y, t[u]);
      }
    }
  }

  lemma UpdateAgreesBelow(g: Graph, rpo: seq<nat>, t: seq<nat>, b: nat, m: nat, y: nat, u: nat)
    requires Update(g, rpo, t, b, m) && Tree(rpo, t[b := m]) && Defined(t, u) && rpo[u] < rpo[b]
    ensures On(rpo, t, y, u) <==> On(rpo, t[b := m], y, u)
  {
    OnAgrees(rpo, t, t[b := m], y, u);
  }

  lemma UpdatedDownward(g: Graph, rpo: seq<nat>, t: seq<nat>, b: nat, m: nat)
    requires Update(g, rpo, t, b, m)
    ensures Downward(g, rpo, t[b := m])
  {
    UpdatedTree(g, rpo, t, b, m);
    var p :| EarlierPred(g, rpo, p, b);
    OnNumbers(rpo, t, m, p);
    DownChain(g, rpo, t, m, p);
    DownArc(g, rpo, p, b);
    DownJoin(g, rpo, m, p, b);
  }

  lemma {:induction false} UpdatedKeepsDominator(g: Graph, rpo: seq<nat>, t: seq<nat>, b: nat, m: nat, d: nat, c: nat)
    requires Update(g, rpo, t, b, m) && Tree(rpo, t[b := m]) && rpo[m] < rpo[b]
    requires Defined(t[b := m], c) && Dominates(g, d, c)
    ensures On(rpo, t[b := m], d, c)
    decreases rpo[c]
  {
    if d != c {
      if c == b {
        forall p | Defined(t, p) && Arc(g, p, b)
          ensures On(rpo, t, d, p)
        {
          DominatesPredecessor(g, d, p, b);
        }
        assert Common(g, rpo, t, b, d);
        UpdateAgreesBelow(g, rpo, t, b, m, d, m);
      } else {
        assert On(rpo, t, d, c);
        EntryIsChain(g, rpo, t, d, c);
        OnNumbers(rpo, t, d, t[c]);
        DominatesParent(g, rpo, t[c], c, d);
        UpdatedKeepsDominator(g, rpo, t, b, m, d, t[c]);
      }
    }
  }

  // Only the entry dominates the entry.
  lemma EntryIsChain(g: Graph, rpo: seq<nat>, t: seq<nat>, d: nat, c: nat)
    requires Tree(rpo, t) && Defined(t, c) && On(rpo, t, d, c) && d != c
    ensures c != 0 && On(rpo, t, d, t[c])
  {
  }

  lemma UpdatedSound(g: Graph, rpo: seq<nat>, t: seq<nat>, b: nat, m: nat)
    requires Update(g, rpo, t, b, m)
    ensures SoundTree(g, rpo, t[b := m])
  {
    UpdatedTree(g, rpo, t, b, m);
    UpdatedDownward(g, rpo, t, b, m);
    forall c: nat, d: nat | Defined(t[b := m], c) && Dominates(g, d, c)
      ensures On(rpo, t[b := m], d, c)
    {
      UpdatedKeepsDominator(g, rpo, t, b, m, d, c);
    }
  }

  lemma UpdatedRecomputed(g: Graph, rpo: seq<nat>, t: seq<nat>, b: nat, m: nat, c: nat)
    requires Update(g, rpo, t, b, m) && Tree(rpo, t[b := m]) && rpo[m] < rpo[b]
    requires Numbered(rpo, c) && rpo[c] <= rpo[b]
    requires c == b || (rpo[c] < rpo[b] && Recomputed(g, rpo, t, c))
    ensures Recomputed(g, rpo, t[b := m], c)
  {
    var t' := t[b := m];
    forall p | EarlierPred(g, rpo, p, c)
      ensures Defined(t', p) && On(rpo, t', t'[c], p)
    {
      UpdatedTree(g, rpo, t, b, m);
      UpdateAgreesBelow(g, rpo, t, b, m, t'[c], p);
    }
    forall y | Common(g, rpo, t', c, y)
      ensures On(rpo, t', y, t'[c])
    {
      forall p | Defined(t, p) && Arc(g, p, c)
        ensures On(rpo, t, y, p)
      {
        UpdateShrinks(g, rpo, t, b, m, y, p);
      }
      assert Common(g, rpo, t, c, y);
      UpdateAgreesBelow(g, rpo, t, b, m, y, t'[c]);
    }
  }

  lemma VisitUpdate(g: Graph, rpo: seq<nat>, t0: seq<nat>, t: seq<nat>, r: nat, first: bool, b: nat, m: nat)
    requires InPass(g, rpo, t0, t, r, first) && Numbered(rpo, b) && rpo[b] == r && IsMeet(g, rpo, t, b, m)
    ensures Update(g, rpo, t, b, m)
    ensures !first ==> Defined(t, b) && t[b] < |rpo| && m < |rpo| && rpo[m] <= rpo[t[b]] && (m != t[b] ==> rpo[m] < rpo[t[b]])
  {
    hide IsMeet, SoundTree, Recomputed;
    SoundIsTree(g, rpo, t);
    if !first {
      MeetIsAbove(g, rpo, t0, t, r, b, m);
      OnNumbers(rpo, t, m, t[b]);
    }
    forall p | EarlierPred(g, rpo, p, b)
      ensures Defined(t, p)
    {
      if p != 0 {
        assert Numbered(rpo, p);
        assert Recomputed(g, rpo, t, p);
        RecomputedDefined(g, rpo, t, p);
      }
    }
  }

  lemma RecomputedDefined(g: Graph, rpo: seq<nat>, t: seq<nat>, b: nat)
    requires Tree(rpo, t) && Recomputed(g, rpo, t, b)
    ensures Defined(t, b) && b != 0 && Defined(t, t[b])
  {
  }

  lemma SoundIsTree(g: Graph, rpo: seq<nat>, t: seq<nat>)
    requires SoundTree(g, rpo, t)
    ensures Tree(rpo, t)
  {
  }

  lemma VisitRecomputes(g: Graph, rpo: seq<nat>, t0: seq<nat>, t: seq<nat>, r: nat, first: bool, b: nat, m: nat, c: nat)
    requires InPass(g, rpo, t0, t, r, first) && Numbered(rpo, b) && rpo[b] == r && Update(g, rpo, t, b, m)
    requires Numbered(rpo, c) && (c == b || rpo[c] < r)
    ensures Tree(rpo, t[b := m]) && Recomputed(g, rpo, t[b := m], c)
  {
    hide SoundTree, Recomputed, IsMeet, On;
    UpdatedTree(g, rpo, t, b, m);
    UpdatedRecomputed(g, rpo, t, b, m, c);
  }

  // Visiting the next block keeps the pass going, and never raises a parent's number.
  lemma VisitKeepsPass(g: Graph, rpo: seq<nat>, t0: seq<nat>, t: seq<nat>, r: nat, first: bool, b: nat, m: nat)
    requires InPass(g, rpo, t0, t, r, first) && Numbered(rpo, b) && rpo[b] == r && IsMeet(g, rpo, t, b, m)
    requires forall c: nat | Numbered(rpo, c) && rpo[c] == r :: c == b
    ensures InPass(g, rpo, t0, t[b := m], r + 1, first)
    ensures !first ==> Defined(t, b) && t[b] < |rpo| && m < |rpo| && rpo[m] <= rpo[t[b]] && (m != t[b] ==> rpo[m] < rpo[t[b]])
  {
    hide SoundTree, Recomputed, IsMeet, On, Update;
    SoundIsTree(g, rpo, t);
    VisitUpdate(g, rpo, t0, t, r, first, b, m);
    UpdatedSound(g, rpo, t, b, m);
    var t' := t[b := m];
    SoundIsTree(g, rpo, t');
    forall c: nat | Numbered(rpo, c) && rpo[c] < r + 1
      ensures Recomputed(g, rpo, t', c)
    {
      VisitRecomputes(g, rpo, t0, t, r, first, b, m, c);
    }
    if !first {
      forall c: nat | Numbered(rpo, c) && rpo[c] < r + 1
        ensures Defined(t', t0[c]) && On(rpo, t', t'[c], t0[c])
      {
        VisitedAbove(g, rpo, t0, t, r, b, m, c);
      }
    }
  }

  lemma VisitedAbove(g: Graph, rpo: seq<nat>, t0: seq<nat>, t: seq<nat>, r: nat, b: nat, m: nat, c: nat)
    requires InPass(g, rpo, t0, t, r, false) && Numbered(rpo, b) && rpo[b] == r && Update(g, rpo, t, b, m)
    requires Tree(rpo, t[b := m]) && Numbered(rpo, c) && (rpo[c] < r || c == b)
    ensures Defined(t[b := m], t0[c]) && On(rpo, t[b := m], t[b := m][c], t0[c])
  {
    assert Recomputed(g, rpo, t0, c) && (t0[c] == 0 || Numbered(rpo, t0[c]));
    UpdateAgreesBelow(g, rpo, t, b, m, t[b := m][c], t0[c]);
  }

  // --- the fixpoint ------------------------------------------------------------------------

  ghost predicate AllMeets(g: Graph, rpo: seq<nat>, t: seq<nat>)
    requires Tree(rpo, t)
  {
    forall b: nat | Numbered(rpo, b) :: Defined(t, b) && IsMeet(g, rpo, t, b, t[b])
  }

  // The numbering covers exactly the reachable blocks.
  ghost predicate NumbersReachable(g: Graph, rpo: seq<nat>) {
    |rpo| == |g| && forall b: nat | b < |g| :: rpo[b] != NONE <==> Reachable(g, b)
  }

  lemma {:induction false} AncestorsDominate(g: Graph, rpo: seq<nat>, t: seq<nat>, a: nat, c: nat, p: seq<nat>)
    requires SoundTree(g, rpo, t) && NumbersReachable(g, rpo) && AllMeets(g, rpo, t)
    requires Defined(t, c) && On(rpo, t, a, c) && PathTo(g, p, c)
    ensures a in p
    decreases |p|
  {
    if a == c {
      assert p[|p| - 1] == a;
    } else {
      assert |p| > 1 && Numbered(rpo, c);
      var q := p[|p| - 2];
      DropLast(g, p, c);
      assert Reachable(g, q);
      PathInRange(g, p, |p| - 2);
      assert q == 0 || Numbered(rpo, q);
      assert On(rpo, t, t[c], t[c]) && Common(g, rpo, t, c, t[c]);
      OnTransitive(rpo, t, a, t[c], q);
      AncestorsDominate(g, rpo, t, a, q, p[..|p| - 1]);
    }
  }

  // At the fixpoint a block's chain is exactly its set of dominators.
  lemma ChainIsDominators(g: Graph, rpo: seq<nat>, t: seq<nat>, a: nat, c: nat)
    requires SoundTree(g, rpo, t) && NumbersReachable(g, rpo) && AllMeets(g, rpo, t) && Defined(t, c)
    ensures On(rpo, t, a, c) <==> Dominates(g, a, c)
  {
    if On(rpo, t, a, c) {
      forall p | PathTo(g, p, c)
        ensures a in p
      {
        AncestorsDominate(g, rpo, t, a, c, p);
      }
    }
  }

  // --- starting and finishing a pass ----------------------------------------------------------

  lemma FirstPass(g: Graph, rpo: seq<nat>, post: seq<nat>, t: seq<nat>)
    requires Numbering(g, rpo, post)
    requires |t| == |g| && t[0] == 0 && forall b | 0 < b < |t| :: t[b] == NONE
    ensures InPass(g, rpo, t, t, 1, true)
  {
    forall c: nat, d: nat | Defined(t, c) && Dominates(g, d, c)
      ensures On(rpo, t, d, c)
    {
      assert PathTo(g, [0], 0);
    }
    forall b: nat | Numbered(rpo, b)
      ensures rpo[b] >= 1 && exists p :: EarlierPred(g, rpo, p, b)
    {
    }
  }

  lemma NextPass(g: Graph, rpo: seq<nat>, t0: seq<nat>, t: seq<nat>, n: nat, first: bool)
    requires InPass(g, rpo, t0, t, n, first) && forall b: nat | Numbered(rpo, b) :: 0 < rpo[b] < n
    ensures InPass(g, rpo, t, t, 1, false)
  {
    SoundIsTree(g, rpo, t);
    forall b: nat | Numbered(rpo, b)
      ensures Defined(t, b) && Recomputed(g, rpo, t, b)
    {
    }
  }
}
