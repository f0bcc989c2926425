/** The iterative depth-first search that numbers the reachable blocks. */
module DepthFirst {
  import opened Shared
  import opened Ir
  import opened Cfg

  // A numbering of exactly the reachable blocks, entry first, in which every
  // other block has a predecessor with a smaller number.
  ghost predicate Numbering(g: Graph, rpo: seq<nat>, post: seq<nat>) {
    && |rpo| == |g| && 0 < |post| <= |g| < NONE
    && (forall b | 0 <= b < |g| :: rpo[b] == NONE <==> !Reachable(g, b))
    && (forall b | 0 <= b < |g| && rpo[b] != NONE :: rpo[b] < |post| && post[|post| - 1 - rpo[b]] == b)
    && (forall i | 0 <= i < |post| :: post[i] < |g| && rpo[post[i]] == |post| - 1 - i)
    && rpo[0] == 0
    && (forall b | 0 < b < |g| && rpo[b] != NONE :: exists p :: EarlierPred(g, rpo, p, b))
  }

  ghost predicate EarlierPred(g: Graph, rpo: seq<nat>, p: nat, b: nat) {
    p < |rpo| && b < |rpo| && Arc(g, p, b) && rpo[p] < rpo[b]
  }

  // The cursor (i, e) has passed edge (i', e').
  predicate Passed(i: nat, e: nat, i': nat, e': nat) {
    i' < i || (i' == i && e' < e)
  }

  // Every arc of b behind the cursor leads to a discovered block.
  ghost predicate ScannedTo(g: Graph, seen: seq<bool>, b: nat, i: nat, e: nat) {
    forall i': nat, e': nat, c: nat | Passed(i, e, i', e') && ArcAt(g, b, i', e', c) :: c < |seen| && seen[c]
  }

  ghost predicate Scanned(g: Graph, seen: seq<bool>, b: nat) {
    forall c: nat | Arc(g, b, c) :: c < |seen| && seen[c]
  }

  // Resume the walk over b's edges at the cursor; malformed targets are skipped.
  method NextSuccessor(g: Graph, b: nat, i0: nat, e0: nat, ghost seen: seq<bool>)
    returns (found: nat, i: nat, e: nat)
    requires b < |g| < NONE && i0 <= |g[b].insts| && |seen| == |g|
    requires i0 < |g[b].insts| ==> e0 <= |g[b].insts[i0].edges|
    requires ScannedTo(g, seen, b, i0, e0)
    ensures found != NONE ==> found < |g| && Arc(g, b, found) && i < |g[b].insts| && e <= |g[b].insts[i].edges|
    ensures found != NONE ==> (i0 < i || (i0 == i && e0 < e))
    ensures found != NONE ==> ScannedTo(g, seen[found := true], b, i, e)
    ensures found == NONE ==> Scanned(g, seen, b)
  {
    i, e := i0, e0;
    while i < |g[b].insts|
      invariant i <= |g[b].insts| && (i < |g[b].insts| ==> e <= |g[b].insts[i].edges|)
      invariant i0 < i || (i0 == i && e0 <= e)
      invariant ScannedTo(g, seen, b, i, e)
      decreases |g[b].insts| - i, if i < |g[b].insts| then |g[b].insts[i].edges| - e else 0
    {
      var edges := g[b].insts[i].edges;
      if e < |edges| {
        var target := edges[e].target;
        e := e + 1;
        if target == 0 || target > |g| {
          continue;
        }
        found := target - 1;
        assert ArcAt(g, b, i, e - 1, found);
        return;
      }
      i, e := i + 1, 0;
    }
    found := NONE;
    forall c: nat | Arc(g, b, c)
      ensures c < |seen| && seen[c]
    {
      var i': nat, e': nat :| ArcAt(g, b, i', e', c);
      assert Passed(i, e, i', e');
    }
  }

  // --- the search's state -------------------------------------------------------

  lemma {:induction false} NoRepeatsFit(s: seq<nat>, n: nat)
    requires Distinct(s) && forall x | x in s :: x < n
    ensures |s| <= n
  {
    if n > 0 {
      if n - 1 in s {
        var i :| 0 <= i < |s| && s[i] == n - 1;
        var t := s[..i] + s[i + 1..];
        assert forall k | 0 <= k < |t| :: t[k] == if k < i then s[k] else s[k + 1];
        forall x | x in t
          ensures x < n - 1
        {
          var k :| 0 <= k < |t| && t[k] == x;
          assert s[if k < i then k else k + 1] in s;
        }
        NoRepeatsFit(t, n - 1);
      } else {
        NoRepeatsFit(s, n - 1);
      }
    }
    assert |s| > 0 ==> s[0] in s;
  }

  datatype Frame = Frame(block: nat, inst: nat, edge: nat)

  ghost predicate GoodFrame(g: Graph, seen: seq<bool>, f: Frame) {
    && f.block < |g| && |seen| == |g| && seen[f.block]
    && f.inst <= |g[f.block].insts| && (f.inst < |g[f.block].insts| ==> f.edge <= |g[f.block].insts[f.inst].edges|)
    && ScannedTo(g, seen, f.block, f.inst, f.edge)
  }

  ghost predicate OnStack(stack: seq<Frame>, b: nat) {
    exists k | 0 <= k < |stack| :: stack[k].block == b
  }

  // A predecessor of post[i] that is still open or was finished later.
  ghost predicate LaterPred(g: Graph, stack: seq<Frame>, post: seq<nat>, i: nat, p: nat) {
    i < |post| && Arc(g, p, post[i]) && (OnStack(stack, p) || p in post[i + 1..])
  }

  ghost predicate Searching(g: Graph, stack: seq<Frame>, post: seq<nat>, seen: seq<bool>) {
    && 0 < |g| == |seen|
    && (forall k | 0 <= k < |stack| :: GoodFrame(g, seen, stack[k]))
    && (forall i, j | 0 <= i < j < |stack| :: stack[i].block != stack[j].block)
    && Distinct(post)
    && (forall b | b in post :: b < |g| && seen[b] && Scanned(g, seen, b) && !OnStack(stack, b))
    && (forall b | 0 <= b < |g| && seen[b] :: Reachable(g, b) && (OnStack(stack, b) || b in post))
    && seen[0]
    && (|stack| > 0 ==> stack[0].block == 0)
    && (|stack| == 0 ==> |post| > 0 && post[|post| - 1] == 0)
    && (forall k | 0 < k < |stack| :: Arc(g, stack[k - 1].block, stack[k].block))
    && (forall i: nat | i < |post| && post[i] != 0 :: exists p :: LaterPred(g, stack, post, i, p))
  }

  lemma SearchStart(g: Graph, seen: seq<bool>)
    requires |g| > 0 && seen == seq(|g|, _ => false)[0 := true]
    ensures Searching(g, [Frame(0, 0, 0)], [], seen)
  {
    EntryReachable(g);
    assert GoodFrame(g, seen, Frame(0, 0, 0));
    var start := [Frame(0, 0, 0)];
    assert start[0].block == 0;
    assert OnStack(start, 0);
  }

  // Everything open or finished is a distinct block.
  lemma SearchFits(g: Graph, stack: seq<Frame>, post: seq<nat>, seen: seq<bool>)
    requires Searching(g, stack, post, seen)
    ensures |stack| + |post| <= |g|
  {
    var open := seq(|stack|, k requires 0 <= k < |stack| => stack[k].block);
    var all := open + post;
    forall i, j | 0 <= i < j < |all|
      ensures all[i] != all[j]
    {
      if i < |open| && j >= |open| {
        assert all[j] in post && OnStack(stack, open[i]);
      }
    }
    forall x | x in all
      ensures x < |g|
    {
      if x in open {
        var k :| 0 <= k < |open| && open[k] == x;
        assert GoodFrame(g, seen, stack[k]);
      }
    }
    NoRepeatsFit(all, |g|);
  }

  lemma ScannedMore(g: Graph, seen: seq<bool>, c: nat, b: nat, i: nat, e: nat)
    requires c < |seen|
    ensures ScannedTo(g, seen, b, i, e) ==> ScannedTo(g, seen[c := true], b, i, e)
    ensures Scanned(g, seen, b) ==> Scanned(g, seen[c := true], b)
  {
  }

  // The top frame is exhausted: it is finished.
  lemma SearchPop(g: Graph, stack: seq<Frame>, post: seq<nat>, seen: seq<bool>)
    requires Searching(g, stack, post, seen) && |stack| > 0
    requires Scanned(g, seen, stack[|stack| - 1].block)
    ensures Searching(g, stack[..|stack| - 1], post + [stack[|stack| - 1].block], seen)
  {
    var top := |stack| - 1;
    var b := stack[top].block;
    var stack', post' := stack[..top], post + [b];
    assert GoodFrame(g, seen, stack[top]) && OnStack(stack, b);
    forall x | OnStack(stack, x) && x != b
      ensures OnStack(stack', x)
    {
      var k :| 0 <= k < |stack| && stack[k].block == x;
      assert stack'[k].block == x;
    }
    forall x | x in post'
      ensures x < |g| && seen[x] && Scanned(g, seen, x) && !OnStack(stack', x)
    {
      assert x in post ==> !OnStack(stack, x);
      forall k | 0 <= k < |stack'|
        ensures stack'[k].block != x
      {
        assert stack'[k].block == stack[k].block;
      }
    }
    forall i: nat | i < |post'| && post'[i] != 0
      ensures exists p :: LaterPred(g, stack', post', i, p)
    {
      if i < |post| {
        var p :| LaterPred(g, stack, post, i, p);
        assert post'[i + 1..] == post[i + 1..] + [b];
        assert LaterPred(g, stack', post', i, p);
      } else {
        assert stack'[top - 1].block == stack[top - 1].block;
        assert LaterPred(g, stack', post', i, stack[top - 1].block);
      }
    }
  }

  // The top frame's cursor moves on to a block already discovered.
  lemma SearchAdvance(g: Graph, stack: seq<Frame>, post: seq<nat>, seen: seq<bool>, f: Frame)
    requires Searching(g, stack, post, seen) && |stack| > 0 && f.block == stack[|stack| - 1].block
    requires GoodFrame(g, seen, f)
    ensures Searching(g, stack[|stack| - 1 := f], post, seen)
  {
    var stack' := stack[|stack| - 1 := f];
    assert forall k | 0 <= k < |stack| :: stack'[k].block == stack[k].block;
    assert forall x :: OnStack(stack', x) <==> OnStack(stack, x);
    forall i: nat | i < |post| && post[i] != 0
      ensures exists p :: LaterPred(g, stack', post, i, p)
    {
      var p :| LaterPred(g, stack, post, i, p);
      assert LaterPred(g, stack', post, i, p);
    }
  }

  lemma FreshFrame(g: Graph, seen: seq<bool>, c: nat)
    requires c < |g| == |seen| && seen[c]
    ensures GoodFrame(g, seen, Frame(c, 0, 0))
  {
  }

  lemma PushedFrames(g: Graph, stack: seq<Frame>, post: seq<nat>, seen: seq<bool>, f: Frame, c: nat)
    requires Searching(g, stack, post, seen) && |stack| > 0 && f.block == stack[|stack| - 1].block
    requires c < |g| && !seen[c] && GoodFrame(g, seen[c := true], f)
    ensures var stack' := stack[|stack| - 1 := f] + [Frame(c, 0, 0)];
            && (forall k | 0 <= k < |stack'| :: GoodFrame(g, seen[c := true], stack'[k]))
            && (forall k | 0 <= k < |stack| :: stack[k].block != c)
            && (forall x :: OnStack(stack', x) <==> OnStack(stack, x) || x == c)
  {
    hide Scanned, ScannedTo;
    var top := |stack| - 1;
    var stack' := stack[top := f] + [Frame(c, 0, 0)];
    FreshFrame(g, seen[c := true], c);
    assert forall k | 0 <= k <= top :: stack'[k].block == stack[k].block;
    assert stack'[|stack|].block == c;
    forall x | OnStack(stack, x)
      ensures OnStack(stack', x)
    {
      var k :| 0 <= k < |stack| && stack[k].block == x;
      assert stack'[k].block == x;
    }
    forall k | 0 <= k <= top
      ensures GoodFrame(g, seen[c := true], stack'[k]) && stack[k].block != c
    {
      assert GoodFrame(g, seen, stack[k]);
      ScannedMore(g, seen, c, stack[k].block, stack[k].inst, stack[k].edge);
    }
  }

  // A new block is opened, the top frame's cursor having passed the arc to it.
  lemma SearchPush(g: Graph, stack: seq<Frame>, post: seq<nat>, seen: seq<bool>, f: Frame, c: nat)
    requires Searching(g, stack, post, seen) && |stack| > 0 && f.block == stack[|stack| - 1].block
    requires c < |g| && !seen[c] && Arc(g, f.block, c) && GoodFrame(g, seen[c := true], f)
    ensures Searching(g, stack[|stack| - 1 := f] + [Frame(c, 0, 0)], post, seen[c := true])
  {
    hide OnStack, GoodFrame, Scanned, Arc, Reachable;
    var top := |stack| - 1;
    var stack', seen' := stack[top := f] + [Frame(c, 0, 0)], seen[c := true];
    PushedFrames(g, stack, post, seen, f, c);
    assert forall k | 0 <= k <= top :: stack'[k].block == stack[k].block;
    assert Reachable(g, c) by {
      assert GoodFrame(g, seen, stack[top]);
      TopReachable(g, stack, post, seen);
      ReachArc(g, f.block, c);
    }
    forall b | b in post
      ensures b < |g| && seen'[b] && Scanned(g, seen', b) && !OnStack(stack', b)
    {
      ScannedMore(g, seen, c, b, 0, 0);
    }
    forall i: nat | i < |post| && post[i] != 0
      ensures exists p :: LaterPred(g, stack', post, i, p)
    {
      var p :| LaterPred(g, stack, post, i, p);
      assert LaterPred(g, stack', post, i, p);
    }
  }

  lemma TopReachable(g: Graph, stack: seq<Frame>, post: seq<nat>, seen: seq<bool>)
    requires Searching(g, stack, post, seen) && |stack| > 0
    ensures Reachable(g, stack[|stack| - 1].block)
  {
    assert GoodFrame(g, seen, stack[|stack| - 1]);
  }

  // With the stack empty, exactly the reachable blocks are finished.
  lemma {:induction false} SearchComplete(g: Graph, post: seq<nat>, seen: seq<bool>, p: seq<nat>, b: nat)
    requires Searching(g, [], post, seen) && PathTo(g, p, b)
    ensures b in post
    decreases |p|
  {
    if |p| == 1 {
      assert !OnStack([], 0);
    } else {
      DropLast(g, p, b);
      SearchComplete(g, post, seen, p[..|p| - 1], p[|p| - 2]);
      assert !OnStack([], b);
    }
  }

  // rpo numbers the blocks of post from the end.
  ghost predicate Placed(rpo: seq<nat>, post: seq<nat>) {
    forall i | 0 <= i < |post| :: post[i] < |rpo| && rpo[post[i]] == |post| - 1 - i
  }

  lemma PlacedAt(rpo: seq<nat>, post: seq<nat>, i: nat)
    requires Placed(rpo, post) && i < |post|
    ensures post[i] < |rpo| && rpo[post[i]] == |post| - 1 - i
  {
  }

  lemma NumberingFrom(g: Graph, post: seq<nat>, seen: seq<bool>, rpo: seq<nat>)
    requires Searching(g, [], post, seen) && |g| < NONE && |rpo| == |g|
    requires Placed(rpo, post)
    requires forall b | 0 <= b < |g| && b !in post :: rpo[b] == NONE
    ensures Numbering(g, rpo, post)
  {
    SearchFits(g, [], post, seen);
    assert |post| > 0 && post[|post| - 1] == 0;
    PlacedAt(rpo, post, |post| - 1);
    hide Searching, Reachable, EarlierPred;
    forall b | 0 <= b < |g|
      ensures rpo[b] == NONE <==> !Reachable(g, b)
      ensures rpo[b] != NONE ==> rpo[b] < |post| && post[|post| - 1 - rpo[b]] == b
    {
      NumberedBlock(g, post, seen, rpo, b);
    }
    forall b | 0 < b < |g| && rpo[b] != NONE
      ensures exists p :: EarlierPred(g, rpo, p, b)
    {
      NumberedPred(g, post, seen, rpo, b);
    }
  }

  lemma NumberedPred(g: Graph, post: seq<nat>, seen: seq<bool>, rpo: seq<nat>, b: nat)
    requires Searching(g, [], post, seen) && |post| <= |g| < NONE && |rpo| == |g| && Placed(rpo, post)
    requires 0 < b < |g| && rpo[b] != NONE && (b !in post ==> rpo[b] == NONE)
    ensures exists p :: EarlierPred(g, rpo, p, b)
  {
    hide Searching, Placed;
    NumberedBlock(g, post, seen, rpo, b);
    var p := FinishedPred(g, post, seen, rpo, |post| - 1 - rpo[b]);
  }

  lemma NumberedBlock(g: Graph, post: seq<nat>, seen: seq<bool>, rpo: seq<nat>, b: nat)
    requires Searching(g, [], post, seen) && |post| <= |g| < NONE && |rpo| == |g| && b < |g|
    requires Placed(rpo, post)
    requires b !in post ==> rpo[b] == NONE
    ensures rpo[b] == NONE <==> !Reachable(g, b)
    ensures rpo[b] != NONE ==> rpo[b] < |post| && post[|post| - 1 - rpo[b]] == b
  {
    hide Searching, Reachable, Placed;
    FinishedReachable(g, post, seen, b);
    if b in post {
      PlacedBack(rpo, post, b);
    }
  }

  lemma PlacedBack(rpo: seq<nat>, post: seq<nat>, b: nat)
    requires Placed(rpo, post) && |post| < NONE && b in post
    ensures b < |rpo| && rpo[b] < |post| && post[|post| - 1 - rpo[b]] == b
  {
    hide Placed;
    var i :| 0 <= i < |post| && post[i] == b;
    PlacedAt(rpo, post, i);
  }

  lemma FinishedReachable(g: Graph, post: seq<nat>, seen: seq<bool>, b: nat)
    requires Searching(g, [], post, seen) && b < |g|
    ensures b in post <==> Reachable(g, b)
  {
    if b !in post && Reachable(g, b) {
      var p :| PathTo(g, p, b);
      SearchComplete(g, post, seen, p, b);
    }
  }

  lemma FinishedPred(g: Graph, post: seq<nat>, seen: seq<bool>, rpo: seq<nat>, i: nat) returns (p: nat)
    requires Searching(g, [], post, seen) && |rpo| == |g| && i < |post| && post[i] != 0
    requires Placed(rpo, post)
    ensures EarlierPred(g, rpo, p, post[i])
  {
    p :| LaterPred(g, [], post, i, p);
    hide Searching, Placed;
    assert !OnStack([], p);
    var j :| i < j < |post| && post[j] == p;
    PlacedAt(rpo, post, i);
    PlacedAt(rpo, post, j);
  }

  // --- the search ------------------------------------------------------------------

  ghost function Frames(stack: seq<nat>, insts: seq<nat>, edges: seq<nat>): (r: seq<Frame>)
    requires |stack| == |insts| == |edges|
    ensures |r| == |stack|
  {
    seq(|stack|, k requires 0 <= k < |stack| => Frame(stack[k], insts[k], edges[k]))
  }

  lemma FrameAt(stack: seq<nat>, insts: seq<nat>, edges: seq<nat>, sp: nat)
    requires |stack| == |insts| == |edges| && 0 < sp <= |stack|
    ensures Frames(stack[..sp], insts[..sp], edges[..sp])[sp - 1] == Frame(stack[sp - 1], insts[sp - 1], edges[sp - 1])
    ensures Frames(stack[..sp - 1], insts[..sp - 1], edges[..sp - 1]) == Frames(stack[..sp], insts[..sp], edges[..sp])[..sp - 1]
  {
  }

  lemma FrameMoved(stack: seq<nat>, insts: seq<nat>, edges: seq<nat>, sp: nat, i: nat, e: nat)
    requires |stack| == |insts| == |edges| && 0 < sp <= |stack|
    ensures Frames(stack[..sp], insts[sp - 1 := i][..sp], edges[sp - 1 := e][..sp]) ==
              Frames(stack[..sp], insts[..sp], edges[..sp])[sp - 1 := Frame(stack[sp - 1], i, e)]
  {
  }

  lemma FramePushed(stack: seq<nat>, insts: seq<nat>, edges: seq<nat>, sp: nat, b: nat)
    requires |stack| == |insts| == |edges| && sp < |stack|
    ensures Frames(stack[sp := b][..sp + 1], insts[sp := 0][..sp + 1], edges[sp := 0][..sp + 1]) ==
              Frames(stack[..sp], insts[..sp], edges[..sp]) + [Frame(b, 0, 0)]
  {
  }

  ghost function InstsLeft(g: Graph, f: Frame): nat {
    if f.block < |g| && f.inst <= |g[f.block].insts| then |g[f.block].insts| - f.inst else 0
  }

  ghost function EdgesLeft(g: Graph, f: Frame): nat {
    if f.block < |g| && f.inst < |g[f.block].insts| && f.edge <= |g[f.block].insts[f.inst].edges|
    then |g[f.block].insts[f.inst].edges| - f.edge else 0
  }

  // Finishing or opening a block, or a cursor moving forward.
  ghost predicate Advances(g: Graph, stack: seq<Frame>, npost: nat, stack': seq<Frame>, npost': nat) {
    || |stack'| + npost' > |stack| + npost
    || (|stack'| + npost' == |stack| + npost
        && (|| |stack'| < |stack|
            || (|stack'| == |stack| > 0
                && var f, f' := stack[|stack| - 1], stack'[|stack| - 1];
                   InstsLeft(g, f') < InstsLeft(g, f)
                   || (InstsLeft(g, f') == InstsLeft(g, f) && EdgesLeft(g, f') < EdgesLeft(g, f)))))
  }

  // One trip round the search loop.
  method SearchStep(g: Graph, post: array<nat>, npost: nat, stack: array<nat>, instPos: array<nat>, edgePos: array<nat>,
                    sp: nat, seen: array<bool>)
    returns (npost': nat, sp': nat)
    requires |g| < NONE && post.Length == stack.Length == instPos.Length == edgePos.Length == |g|
    requires post != stack && post != instPos && post != edgePos && stack != instPos && stack != edgePos && instPos != edgePos
    requires 0 < sp <= |g| && npost <= |g|
    requires Searching(g, Frames(stack[..sp], instPos[..sp], edgePos[..sp]), post[..npost], seen[..])
    modifies post, stack, instPos, edgePos, seen
    ensures sp' <= |g| && npost' <= |g|
    ensures Searching(g, Frames(stack[..sp'], instPos[..sp'], edgePos[..sp']), post[..npost'], seen[..])
    ensures Advances(g, old(Frames(stack[..sp], instPos[..sp], edgePos[..sp])), npost,
                     Frames(stack[..sp'], instPos[..sp'], edgePos[..sp']), npost')
  {
    hide Searching, Scanned, ScannedTo, Advances, Frames;
    ghost var frames, done, marks := Frames(stack[..sp], instPos[..sp], edgePos[..sp]), post[..npost], seen[..];
    ghost var blocks, insts, edges := stack[..], instPos[..], edgePos[..];
    assert blocks[..sp] == stack[..sp] && insts[..sp] == instPos[..sp] && edges[..sp] == edgePos[..sp];
    FrameAt(blocks, insts, edges, sp);
    SearchFits(g, frames, done, marks);
    SearchTop(g, frames, done, marks);
    var b := stack[sp - 1];
    var found, i, e := NextSuccessor(g, b, instPos[sp - 1], edgePos[sp - 1], marks);
    npost', sp' := npost, sp;
    if found == NONE {
      SearchPop(g, frames, done, marks);
      post[npost] := b;
      npost', sp' := npost + 1, sp - 1;
      assert post[..npost'] == done + [b];
      assert stack[..sp'] == blocks[..sp'] && instPos[..sp'] == insts[..sp'] && edgePos[..sp'] == edges[..sp'];
      AdvancesBySize(g, frames, npost, frames[..sp - 1], npost');
      return;
    }
    ghost var f := Frame(b, i, e);
    instPos[sp - 1], edgePos[sp - 1] := i, e;
    FrameMoved(blocks, insts, edges, sp, i, e);
    insts, edges := insts[sp - 1 := i], edges[sp - 1 := e];
    assert stack[..] == blocks && instPos[..] == insts && edgePos[..] == edges;
    assert stack[..sp] == blocks[..sp] && instPos[..sp] == insts[..sp] && edgePos[..sp] == edges[..sp];
    if !seen[found] {
      SearchPush(g, frames, done, marks, f, found);
      seen[found] := true;
      SearchFits(g, frames[sp - 1 := f] + [Frame(found, 0, 0)], done, marks[found := true]);
      stack[sp], instPos[sp], edgePos[sp] := found, 0, 0;
      sp' := sp + 1;
      FramePushed(blocks, insts, edges, sp, found);
      assert stack[..] == blocks[sp := found] && instPos[..] == insts[sp := 0] && edgePos[..] == edges[sp := 0];
      assert stack[..sp'] == blocks[sp := found][..sp'] && instPos[..sp'] == insts[sp := 0][..sp'] && edgePos[..sp'] == edges[sp := 0][..sp'];
      assert seen[..] == marks[found := true];
      AdvancesBySize(g, frames, npost, frames[sp - 1 := f] + [Frame(found, 0, 0)], npost);
    } else {
      assert marks[found := true] == marks;
      SearchAdvance(g, frames, done, marks, f);
      AdvancesByCursor(g, frames, npost, f);
    }
    assert post[..npost] == done;
  }

  lemma SearchTop(g: Graph, stack: seq<Frame>, post: seq<nat>, seen: seq<bool>)
    requires Searching(g, stack, post, seen) && |stack| > 0
    ensures GoodFrame(g, seen, stack[|stack| - 1])
  {
  }

  lemma AdvancesBySize(g: Graph, stack: seq<Frame>, npost: nat, stack': seq<Frame>, npost': nat)
    requires |stack'| + npost' > |stack| + npost || (|stack'| + npost' == |stack| + npost && |stack'| < |stack|)
    ensures Advances(g, stack, npost, stack', npost')
  {
  }

  lemma AdvancesByCursor(g: Graph, stack: seq<Frame>, npost: nat, f: Frame)
    requires |stack| > 0 && var f0 := stack[|stack| - 1];
             f.block == f0.block < |g| && f.inst < |g[f.block].insts| && f.edge <= |g[f.block].insts[f.inst].edges|
             && (f0.inst < f.inst || (f0.inst == f.inst && f0.edge < f.edge))
    ensures Advances(g, stack, npost, stack[|stack| - 1 := f], npost)
  {
  }

  // The search proper.
  method Search(g: Graph) returns (post: array<nat>, npost: nat, ghost seen: seq<bool>)
    requires 0 < |g| < NONE
    ensures npost <= post.Length == |g| && fresh(post)
    ensures Searching(g, [], post[..npost], seen)
  {
    hide Searching;
    var n := |g|;
    post := new nat[n];
    var stack, instPos, edgePos := new nat[n], new nat[n], new nat[n];
    var marks := new bool[n](_ => false);
    npost := 0;
    stack[0], instPos[0], edgePos[0], marks[0] := 0, 0, 0, true;
    var sp: nat := 1;
    assert marks[..] == seq(n, _ => false)[0 := true];
    SearchStart(g, marks[..]);
    assert Frames(stack[..1], instPos[..1], edgePos[..1]) == [Frame(0, 0, 0)] && post[..0] == [];
    ghost var frames := Frames(stack[..sp], instPos[..sp], edgePos[..sp]);
    while sp > 0
      invariant sp <= n && npost <= n
      invariant frames == Frames(stack[..sp], instPos[..sp], edgePos[..sp])
      invariant Searching(g, frames, post[..npost], marks[..])
      decreases 2 * n - npost - sp, sp, if sp > 0 then InstsLeft(g, frames[sp - 1]) else 0,
                if sp > 0 then EdgesLeft(g, frames[sp - 1]) else 0
    {
      npost, sp := SearchStep(g, post, npost, stack, instPos, edgePos, sp, marks);
      frames := Frames(stack[..sp], instPos[..sp], edgePos[..sp]);
    }
    assert frames == [];
    seen := marks[..];
  }

  // post[..npost] lists the reachable blocks, each after all it leads to that
  // was discovered from it; rpo numbers them from the back.
  method DepthFirstSearch(g: Graph) returns (post: array<nat>, npost: nat, rpo: array<nat>)
    requires 0 < |g| < NONE
    ensures npost <= post.Length && fresh(rpo) && fresh(post) && rpo != post && rpo.Length == |g|
    ensures Numbering(g, rpo[..], post[..npost])
  {
    hide Searching, Numbering;
    var n := |g|;
    ghost var seen;
    post, npost, seen := Search(g);
    rpo := new nat[n](_ => NONE);
    ghost var order := post[..npost];
    OrderFacts(g, order, seen);
    var i := 0;
    while i < npost
      invariant 0 <= i <= npost && post[..npost] == order
      invariant forall k | 0 <= k < i :: rpo[order[k]] == npost - 1 - k
      invariant forall b | 0 <= b < n && b !in order :: rpo[b] == NONE
    {
      assert post[i] == order[i] && order[i] in order;
      rpo[post[i]] := npost - 1 - i;
      i := i + 1;
    }
    NumberingFrom(g, order, seen, rpo[..]);
  }

  lemma OrderFacts(g: Graph, post: seq<nat>, seen: seq<bool>)
    requires Searching(g, [], post, seen)
    ensures Distinct(post) && forall k | 0 <= k < |post| :: post[k] < |g|
  {
    assert forall k | 0 <= k < |post| :: post[k] in post;
  }
}
