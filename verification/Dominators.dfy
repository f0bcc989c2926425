/** The dominator tree: built by iterating intersections in reverse postorder,
    queried by walking up. */
module Dominators {
  import opened Ir
  import opened Cfg
  import opened DepthFirst
  import opened DomTheory

  ghost predicate Injective(rpo: seq<nat>) {
    forall a, b | 0 <= a < |rpo| && 0 <= b < |rpo| && rpo[a] == rpo[b] != NONE :: a == b
  }

  lemma NumberingInjective(g: Graph, rpo: seq<nat>, post: seq<nat>)
    requires Numbering(g, rpo, post)
    ensures Injective(rpo) && NumbersReachable(g, rpo)
    ensures forall b: nat | Numbered(rpo, b) :: 0 < rpo[b] < |post|
  {
    hide Reachable, EarlierPred;
    forall a, b | 0 <= a < |rpo| && 0 <= b < |rpo| && rpo[a] == rpo[b] != NONE
      ensures a == b
    {
      assert post[|post| - 1 - rpo[a]] == a && post[|post| - 1 - rpo[b]] == b;
    }
  }

  // --- intersection ------------------------------------------------------------

  ghost predicate OnBoth(rpo: seq<nat>, t: seq<nat>, y: nat, f1: nat, f2: nat)
    requires Tree(rpo, t) && Defined(t, f1) && Defined(t, f2)
  {
    On(rpo, t, y, f1) && On(rpo, t, y, f2)
  }

  // The higher-numbered finger may climb.
  lemma ClimbKeepsCommon(rpo: seq<nat>, t: seq<nat>, f1: nat, f2: nat)
    requires Tree(rpo, t) && Defined(t, f1) && Defined(t, f2) && rpo[f1] > rpo[f2]
    ensures f1 != 0 && Defined(t, t[f1]) && rpo[t[f1]] < rpo[f1]
    ensures forall y :: OnBoth(rpo, t, y, f1, f2) <==> OnBoth(rpo, t, y, t[f1], f2)
  {
    forall y
      ensures OnBoth(rpo, t, y, f1, f2) <==> OnBoth(rpo, t, y, t[f1], f2)
    {
      if On(rpo, t, y, f2) {
        OnNumbers(rpo, t, y, f2);
      }
    }
  }

  lemma BothCommute(rpo: seq<nat>, t: seq<nat>, f1: nat, f2: nat)
    requires Tree(rpo, t) && Defined(t, f1) && Defined(t, f2)
    ensures forall y :: OnBoth(rpo, t, y, f1, f2) <==> OnBoth(rpo, t, y, f2, f1)
  {
  }

  // Two fingers climb to the nearest common ancestor, whose chain is exactly
  // what the two chains share.
  method Intersect(rpo: array<nat>, idom: array<nat>, a: nat, b: nat) returns (f1: nat)
    requires Tree(rpo[..], idom[..]) && Injective(rpo[..]) && Defined(idom[..], a) && Defined(idom[..], b)
    ensures Defined(idom[..], f1)
    ensures forall y :: On(rpo[..], idom[..], y, f1) <==> OnBoth(rpo[..], idom[..], y, a, b)
  {
    hide On;
    ghost var R, T := rpo[..], idom[..];
    f1 := a;
    var f2 := b;
    while f1 != f2
      invariant Defined(T, f1) && Defined(T, f2)
      invariant forall y :: OnBoth(R, T, y, f1, f2) <==> OnBoth(R, T, y, a, b)
      decreases R[f1] + R[f2]
    {
      hide OnBoth;
      ghost var n := R[f1] + R[f2];
      NumbersDiffer(R, T, f1, f2);
      while rpo[f1] > rpo[f2]
        invariant Defined(T, f1) && Defined(T, f2) && R[f1] + R[f2] <= n && (R[f1] > R[f2] || R[f1] + R[f2] < n || R[f2] > R[f1])
        invariant forall y :: OnBoth(R, T, y, f1, f2) <==> OnBoth(R, T, y, a, b)
        decreases R[f1]
      {
        ClimbKeepsCommon(R, T, f1, f2);
        f1 := idom[f1];
      }
      while rpo[f2] > rpo[f1]
        invariant Defined(T, f1) && Defined(T, f2) && R[f1] + R[f2] <= n && (R[f2] > R[f1] || R[f1] + R[f2] < n)
        invariant forall y :: OnBoth(R, T, y, f1, f2) <==> OnBoth(R, T, y, a, b)
        decreases R[f2]
      {
        BothCommute(R, T, f1, f2);
        ClimbKeepsCommon(R, T, f2, f1);
        BothCommute(R, T, f1, T[f2]);
        f2 := idom[f2];
      }
    }
  }

  lemma NumbersDiffer(rpo: seq<nat>, t: seq<nat>, a: nat, b: nat)
    requires Tree(rpo, t) && Injective(rpo) && Defined(t, a) && Defined(t, b) && a != b
    ensures rpo[a] != rpo[b]
  {
  }

  // --- the meet over predecessors -------------------------------------------------

  ghost predicate CommonBelow(g: Graph, rpo: seq<nat>, t: seq<nat>, b: nat, y: nat, j: nat)
    requires Tree(rpo, t)
  {
    forall p: nat | p < j && Defined(t, p) && Arc(g, p, b) :: On(rpo, t, y, p)
  }

  lemma CommonStep(g: Graph, rpo: seq<nat>, t: seq<nat>, b: nat, j: nat)
    requires Tree(rpo, t)
    ensures forall y :: CommonBelow(g, rpo, t, b, y, j + 1)
              <==> CommonBelow(g, rpo, t, b, y, j) && (Defined(t, j) && Arc(g, j, b) ==> On(rpo, t, y, j))
    ensures (forall p: nat | p < j && Defined(t, p) :: !Arc(g, p, b)) ==> forall y :: CommonBelow(g, rpo, t, b, y, j)
  {
    hide On, Arc;
  }

  lemma CommonEnd(g: Graph, rpo: seq<nat>, t: seq<nat>, b: nat)
    requires Tree(rpo, t) && |g| == |t|
    ensures forall y :: CommonBelow(g, rpo, t, b, y, |g|) <==> Common(g, rpo, t, b, y)
  {
    hide On, Arc;
  }

  // The intersection of all processed predecessors of b, NONE when there is none.
  method MeetOfPreds(g: Graph, rpo: array<nat>, idom: array<nat>, b: nat) returns (m: nat)
    requires Tree(rpo[..], idom[..]) && Injective(rpo[..]) && |g| == rpo.Length && b < |g|
    ensures m == NONE ==> forall p: nat | Defined(idom[..], p) :: !Arc(g, p, b)
    ensures m != NONE ==> IsMeet(g, rpo[..], idom[..], b, m)
  {
    hide On, Arc, CommonBelow, Common;
    ghost var R, T := rpo[..], idom[..];
    m := NONE;
    var j := 0;
    while j < |g|
      invariant 0 <= j <= |g|
      invariant m == NONE ==> forall p: nat | p < j && Defined(T, p) :: !Arc(g, p, b)
      invariant m != NONE ==> Defined(T, m) && forall y :: On(R, T, y, m) <==> CommonBelow(g, R, T, b, y, j)
    {
      CommonStep(g, R, T, b, j);
      if rpo[j] != NONE && idom[j] != NONE {
        var isPred := IsPred(g, j, b);
        if isPred {
          if m == NONE {
            m := j;
          } else {
            ghost var m0 := m;
            m := Intersect(rpo, idom, m, j);
            assert rpo[..] == R && idom[..] == T;
            assert forall y :: OnBoth(R, T, y, m0, j) <==> On(R, T, y, m0) && On(R, T, y, j);
          }
        }
      } else {
        UnnumberedUndefined(R, T, j);
      }
      j := j + 1;
    }
    CommonEnd(g, R, T, b);
  }

  lemma UnnumberedUndefined(rpo: seq<nat>, t: seq<nat>, j: nat)
    requires Tree(rpo, t) && j < |t| && (rpo[j] == NONE || t[j] == NONE)
    ensures !Defined(t, j)
  {
  }

  // --- the termination measure ---------------------------------------------------------

  // The summed numbers of all parents.
  function Weight(rpo: seq<nat>, t: seq<nat>): nat {
    if t == [] then 0
    else (if t[0] < |rpo| then rpo[t[0]] else 0) + Weight(rpo, t[1..])
  }

  lemma {:induction false} WeightUpdate(rpo: seq<nat>, t: seq<nat>, b: nat, m: nat)
    requires b < |t| && t[b] < |rpo| && m < |rpo|
    ensures Weight(rpo, t[b := m]) == Weight(rpo, t) - rpo[t[b]] + rpo[m]
  {
    if b == 0 {
      assert t[0 := m][1..] == t[1..];
    } else {
      assert t[b := m][1..] == t[1..][b - 1 := m];
      WeightUpdate(rpo, t[1..], b - 1, m);
    }
  }

  // --- one pass -------------------------------------------------------------------------

  // Everything visited so far is at equilibrium and untouched.
  ghost predicate Quiet(g: Graph, rpo: seq<nat>, t0: seq<nat>, t: seq<nat>, r: nat)
    requires Tree(rpo, t)
  {
    t == t0 && forall b: nat | Numbered(rpo, b) && rpo[b] < r :: Defined(t, b) && IsMeet(g, rpo, t, b, t[b])
  }

  // How far the pass has come, and what a change has cost.
  ghost predicate Passing(g: Graph, rpo: seq<nat>, t0: seq<nat>, t: seq<nat>, r: nat, first: bool, changed: bool) {
    && InPass(g, rpo, t0, t, r, first) && Tree(rpo, t) && Injective(rpo)
    && (!changed ==> Quiet(g, rpo, t0, t, r))
    && (!first ==> Weight(rpo, t) <= Weight(rpo, t0) && (changed ==> Weight(rpo, t) < Weight(rpo, t0)))
  }

  lemma PassingBegins(g: Graph, rpo: seq<nat>, t: seq<nat>, first: bool)
    requires InPass(g, rpo, t, t, 1, first) && Injective(rpo) && forall b: nat | Numbered(rpo, b) :: 0 < rpo[b]
    ensures Passing(g, rpo, t, t, 1, first, false)
  {
    SoundIsTree(g, rpo, t);
  }

  // The effect of visiting block b: its parent becomes the meet.
  lemma PassingVisit(g: Graph, rpo: seq<nat>, t0: seq<nat>, t: seq<nat>, r: nat, first: bool, changed: bool, b: nat, m: nat)
    requires Passing(g, rpo, t0, t, r, first, changed) && Numbered(rpo, b) && rpo[b] == r && IsMeet(g, rpo, t, b, m)
    ensures Passing(g, rpo, t0, t[b := m], r + 1, first, changed || t[b] != m)
  {
    hide InPass, IsMeet, Weight, Defined;
    VisitKeepsPass(g, rpo, t0, t, r, first, b, m) by {
      OneAtEachNumber(rpo, b);
    }
    VisitedTree(g, rpo, t0, t[b := m], r + 1, first);
    if !first {
      WeightUpdate(rpo, t, b, m);
    }
    if !changed && t[b] == m {
      assert t[b := m] == t;
      QuietGrows(g, rpo, t0, t, r, b);
    }
  }

  lemma OneAtEachNumber(rpo: seq<nat>, b: nat)
    requires Injective(rpo) && Numbered(rpo, b)
    ensures forall c: nat | Numbered(rpo, c) && rpo[c] == rpo[b] :: c == b
  {
  }

  lemma VisitedTree(g: Graph, rpo: seq<nat>, t0: seq<nat>, t: seq<nat>, r: nat, first: bool)
    requires InPass(g, rpo, t0, t, r, first)
    ensures Tree(rpo, t)
  {
    SoundIsTree(g, rpo, t);
  }

  lemma QuietGrows(g: Graph, rpo: seq<nat>, t0: seq<nat>, t: seq<nat>, r: nat, b: nat)
    requires Tree(rpo, t) && Quiet(g, rpo, t0, t, r) && Injective(rpo) && Numbered(rpo, b) && rpo[b] == r
    requires IsMeet(g, rpo, t, b, t[b])
    ensures Quiet(g, rpo, t0, t, r + 1)
  {
    hide IsMeet;
    MeetDefined(g, rpo, t, b, t[b]);
    forall c: nat | Numbered(rpo, c) && rpo[c] < r + 1
      ensures Defined(t, c) && IsMeet(g, rpo, t, c, t[c])
    {
    }
  }

  lemma MeetDefined(g: Graph, rpo: seq<nat>, t: seq<nat>, b: nat, m: nat)
    requires Tree(rpo, t) && IsMeet(g, rpo, t, b, m)
    ensures m < |t| && |t| < NONE
  {
  }

  // A visited block always has a processed predecessor.
  lemma HasProcessedPred(g: Graph, rpo: seq<nat>, t0: seq<nat>, t: seq<nat>, r: nat, first: bool, b: nat)
    requires InPass(g, rpo, t0, t, r, first) && Numbered(rpo, b) && rpo[b] == r
    ensures exists p: nat :: Defined(t, p) && Arc(g, p, b)
  {
    var p :| EarlierPred(g, rpo, p, b);
    if p != 0 {
      assert Numbered(rpo, p);
      assert Recomputed(g, rpo, t, p);
    }
    assert Defined(t, p) && Arc(g, p, b);
  }

  // One sweep in reverse postorder.
  method Pass(g: Graph, post: array<nat>, npost: nat, rpo: array<nat>, idom: array<nat>, ghost first: bool)
    returns (changed: bool)
    requires npost <= post.Length && idom.Length == rpo.Length == |g| && idom != post && idom != rpo
    requires Numbering(g, rpo[..], post[..npost])
    requires InPass(g, rpo[..], idom[..], idom[..], 1, first)
    modifies idom
    ensures Passing(g, rpo[..], old(idom[..]), idom[..], if npost == 0 then 1 else npost, first, changed)
  {
    hide Passing, InPass, Numbering;
    ghost var R, P, T0 := rpo[..], post[..npost], idom[..];
    NumberingInjective(g, R, P);
    PassingBegins(g, R, T0, first);
    changed := false;
    var i := npost;
    while i > 0
      invariant 0 <= i <= npost && rpo[..] == R && post[..npost] == P
      invariant Passing(g, R, T0, idom[..], if i == npost then 1 else npost - i, first, changed)
    {
      i := i - 1;
      var b := post[i];
      assert b == P[i];
      NumberOf(g, R, P, i);
      if b != 0 {
        ghost var T, r := idom[..], npost - 1 - i;
        PassingFacts(g, R, T0, T, r, first, changed, b);
        var m := MeetOfPreds(g, rpo, idom, b);
        assert rpo[..] == R && idom[..] == T;
        PassingVisit(g, R, T0, T, r, first, changed, b, m);
        MeetDefined(g, R, T, b, m);
        if m != NONE && idom[b] != m {
          idom[b] := m;
          changed := true;
        }
        assert idom[..] == T[b := m];
      }
    }
  }

  lemma NumberOf(g: Graph, rpo: seq<nat>, post: seq<nat>, i: nat)
    requires Numbering(g, rpo, post) && i < |post|
    ensures post[i] < |g| == |rpo| && rpo[post[i]] == |post| - 1 - i
    ensures post[i] == 0 <==> i == |post| - 1
    ensures post[i] != 0 ==> Numbered(rpo, post[i])
  {
  }

  lemma PassingFacts(g: Graph, rpo: seq<nat>, t0: seq<nat>, t: seq<nat>, r: nat, first: bool, changed: bool, b: nat)
    requires Passing(g, rpo, t0, t, r, first, changed) && Numbered(rpo, b) && rpo[b] == r
    ensures Tree(rpo, t) && Injective(rpo) && exists p: nat :: Defined(t, p) && Arc(g, p, b)
  {
    HasProcessedPred(g, rpo, t0, t, r, first, b);
  }

  // --- the tree ---------------------------------------------------------------------------

  // The finished arrays: numbers exist exactly for reachable blocks, and the
  // chain of parents from a reachable block is exactly its dominators.
  ghost predicate IsDomTree(g: Graph, rpo: seq<nat>, idom: seq<nat>) {
    && |idom| == |g| == |rpo|
    && (|g| > 0 ==>
          && idom[0] == NONE
          && Tree(rpo, idom[0 := 0]) && NumbersReachable(g, rpo)
          && (forall b: nat | b < |g| && rpo[b] == NONE :: idom[b] == NONE)
          && (forall b: nat | b < |g| && rpo[b] != NONE :: Defined(idom[0 := 0], b))
          && (forall a: nat, b: nat | Defined(idom[0 := 0], b) :: On(rpo, idom[0 := 0], a, b) <==> Dominates(g, a, b)))
  }

  lemma FixpointIsDomTree(g: Graph, rpo: seq<nat>, post: seq<nat>, t: seq<nat>, first: bool)
    requires Numbering(g, rpo, post) && Passing(g, rpo, t, t, |post|, first, false)
    ensures IsDomTree(g, rpo, t[0 := NONE])
  {
    NumberingInjective(g, rpo, post);
    QuietIsAllMeets(g, rpo, post, t, first);
    assert t[0 := NONE][0 := 0] == t;
    forall a: nat, b: nat | Defined(t, b)
      ensures On(rpo, t, a, b) <==> Dominates(g, a, b)
    {
      ChainIsDominators(g, rpo, t, a, b);
    }
  }

  lemma QuietIsAllMeets(g: Graph, rpo: seq<nat>, post: seq<nat>, t: seq<nat>, first: bool)
    requires Numbering(g, rpo, post) && Passing(g, rpo, t, t, |post|, first, false)
    ensures SoundTree(g, rpo, t) && AllMeets(g, rpo, t)
    ensures forall b: nat | b < |g| :: rpo[b] != NONE <==> Defined(t, b)
  {
    NumberingInjective(g, rpo, post);
    assert Quiet(g, rpo, t, t, |post|);
  }

  class IrDomTree {
    var nblocks: nat
    var entry: nat
    var idom: array<nat>
    var rpo: array<nat>

    ghost predicate Valid(g: Graph)
      reads this, idom, rpo
    {
      nblocks == |g| < NONE && entry == 0 && IsDomTree(g, rpo[..], idom[..])
    }

    // Numbers the blocks, then iterates to the fixpoint.
    constructor Build(g: Graph)
      requires |g| < NONE
      ensures Valid(g) && fresh(idom) && fresh(rpo)
    {
      nblocks, entry := |g|, 0;
      var parents := new nat[|g|](_ => NONE);
      if |g| == 0 {
        idom, rpo := parents, parents;
      } else {
        var post, npost, numbers := DepthFirstSearch(g);
        Iterate(g, post, npost, numbers, parents);
        idom, rpo := parents, numbers;
      }
    }

    // Block ids are one-based. A block with an id out of range dominates nothing;
    // an unreachable one is dominated by itself alone.
    method IrDominates(a: nat, b: nat, ghost g: Graph) returns (r: bool)
      requires Valid(g)
      ensures r <==> BlockDominates(g, a, b)
    {
      hide On, Dominates, Reachable;
      if a == 0 || b == 0 || a > nblocks || b > nblocks {
        return false;
      }
      if a == b {
        return true;
      }
      if rpo[b - 1] == NONE {
        return false;
      }
      ghost var R, T := rpo[..], idom[..][0 := 0];
      var cur: nat := b - 1;
      while idom[cur] != NONE
        invariant cur < |g| && Defined(T, cur) && cur != a - 1
        invariant On(R, T, a - 1, b - 1) <==> On(R, T, a - 1, cur)
        decreases R[cur]
      {
        ChainStep(R, T, a - 1, cur);
        cur := idom[cur];
        if cur == a - 1 {
          ChainStep(R, T, a - 1, cur);
          return true;
        }
        if cur == entry {
          break;
        }
      }
      ChainStep(R, T, a - 1, cur);
      r := false;
    }

    // The closest strict dominator, or 0 for the entry and unreachable blocks.
    method IrIdom(b: nat, ghost g: Graph) returns (r: nat)
      requires Valid(g)
      ensures r == 0 <==> !(1 < b <= |g| && Reachable(g, b - 1))
      ensures r != 0 ==> r != b && BlockDominates(g, r, b)
      ensures r != 0 ==> forall a: nat | a != b && BlockDominates(g, a, b) :: BlockDominates(g, a, r)
    {
      hide Dominates, Reachable;
      if b == 0 || b > nblocks {
        return 0;
      }
      if idom[b - 1] == NONE {
        return 0;
      }
      r := idom[b - 1] + 1;
      ghost var R, T := rpo[..], idom[..][0 := 0];
      assert Defined(T, b - 1) && b - 1 != 0;
      assert On(R, T, r - 1, r - 1) && On(R, T, r - 1, b - 1);
      assert R[r - 1] != NONE;
      forall a: nat | a != b && BlockDominates(g, a, b)
        ensures BlockDominates(g, a, r)
      {
        assert On(R, T, a - 1, b - 1);
      }
    }
  }

  lemma ChainStep(rpo: seq<nat>, t: seq<nat>, a: nat, cur: nat)
    requires Tree(rpo, t) && Defined(t, cur)
    ensures a == cur ==> On(rpo, t, a, cur)
    ensures cur == 0 && a != cur ==> !On(rpo, t, a, cur)
    ensures cur != 0 ==> Defined(t, t[cur]) && rpo[t[cur]] < rpo[cur]
    ensures cur != 0 && a != cur ==> (On(rpo, t, a, cur) <==> On(rpo, t, a, t[cur]))
  {
  }

  // Dominance as the IR's users mean it, on one-based ids.
  ghost predicate BlockDominates(g: Graph, a: nat, b: nat) {
    && 0 < a <= |g| && 0 < b <= |g|
    && (a == b || (Reachable(g, b - 1) && Dominates(g, a - 1, b - 1)))
  }

  // Iterate to the fixpoint, then hide the entry's own parent.
  method Iterate(g: Graph, post: array<nat>, npost: nat, rpo: array<nat>, idom: array<nat>)
    requires npost <= post.Length && idom.Length == rpo.Length == |g| && idom != post && idom != rpo && |g| > 0
    requires Numbering(g, rpo[..], post[..npost])
    requires forall b | 0 <= b < |g| :: idom[b] == NONE
    modifies idom
    ensures IsDomTree(g, rpo[..], idom[..])
  {
    hide Passing, InPass, Numbering, IsDomTree;
    ghost var R, P := rpo[..], post[..npost];
    ghost var first := true;
    idom[0] := 0;
    FirstPass(g, R, P, idom[..]);
    NumberingInjective(g, R, P);
    PostNonEmpty(g, R, P);
    var changed := true;
    ghost var t0 := idom[..];
    while changed
      invariant rpo[..] == R && post[..npost] == P && |idom[..]| > 0
      invariant changed ==> InPass(g, R, idom[..], idom[..], 1, first)
      invariant !changed ==> exists f :: Passing(g, R, idom[..], idom[..], npost, f, false)
      decreases if first then 1 else 0, Weight(R, idom[..]), changed
    {
      t0 := idom[..];
      ghost var was := first;
      changed := Pass(g, post, npost, rpo, idom, first);
      if changed {
        PassingContinues(g, R, t0, idom[..], npost, first);
        first := false;
      } else {
        PassingStops(g, R, t0, idom[..], npost, first);
      }
    }
    ghost var f :| Passing(g, R, idom[..], idom[..], npost, f, false);
    FixpointIsDomTree(g, R, P, idom[..], f);
    ghost var t := idom[..];
    idom[0] := NONE;
    assert idom[..] == t[0 := NONE];
  }

  lemma PostNonEmpty(g: Graph, rpo: seq<nat>, post: seq<nat>)
    requires Numbering(g, rpo, post)
    ensures |post| > 0
  {
  }

  lemma PassingContinues(g: Graph, rpo: seq<nat>, t0: seq<nat>, t: seq<nat>, n: nat, first: bool)
    requires Passing(g, rpo, t0, t, n, first, true) && forall b: nat | Numbered(rpo, b) :: 0 < rpo[b] < n
    ensures InPass(g, rpo, t, t, 1, false)
    ensures !first ==> Weight(rpo, t) < Weight(rpo, t0)
  {
    NextPass(g, rpo, t0, t, n, first);
  }

  lemma PassingStops(g: Graph, rpo: seq<nat>, t0: seq<nat>, t: seq<nat>, n: nat, first: bool)
    requires Passing(g, rpo, t0, t, n, first, false)
    ensures t == t0 && Passing(g, rpo, t, t, n, first, false)
  {
  }
}
