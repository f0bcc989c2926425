/** One conservative, hole-free interval per virtual register, over a global
    numbering of the instructions, and the exact set of registers whose value
    survives some call. */
module Intervals {
  import opened Mir
  import opened Liveness

  // `fixed` and `phys` hold a physical register id plus one, zero for none.
  datatype CgInterval = CgInterval(
    vreg: nat, start: nat, end: nat, live: bool, liveAcrossCall: bool,
    noSpill: bool, fixed: nat, phys: nat, slot: int)

  const CLEARED := CgInterval(0, 0, 0, false, false, false, 0, 0, 0)

  // --- the point numbering ---------------------------------------------------

  // An empty block still owns one point.
  function Width(block: seq<Inst>): nat {
    if block == [] then 1 else |block|
  }

  function Base(blocks: seq<seq<Inst>>, b: nat): nat
    requires b <= |blocks|
  {
    if b == 0 then 0 else Base(blocks, b - 1) + Width(blocks[b - 1])
  }

  function PointNumber(view: View, p: Point): nat
    requires p.block <= |view.blocks|
  {
    Base(view.blocks, p.block) + p.inst
  }

  lemma {:induction false} BaseMonotone(blocks: seq<seq<Inst>>, a: nat, b: nat)
    requires a < b <= |blocks|
    ensures Base(blocks, a) + Width(blocks[a]) <= Base(blocks, b)
  {
    if a + 1 < b {
      BaseMonotone(blocks, a, b - 1);
    }
  }

  // --- which points an interval must span ------------------------------------

  predicate Mentions(inst: Inst, v: nat) {
    v != 0 && (inst.def == v || v in inst.uses)
  }

  // Register v is touched at offset i of block b: it is live into the block's
  // first point, out of its last one, or mentioned by the instruction there.
  ghost predicate Touches(view: View, v: nat, b: nat, i: nat) {
    && b < |view.blocks| && i < Width(view.blocks[b]) && v != 0
    && (|| (i == 0 && EntryLive(view, v, b))
        || (i + 1 == Width(view.blocks[b]) && LiveOut(view, v, b))
        || (i < |view.blocks[b]| && Mentions(view.blocks[b][i], v)))
  }

  ghost function BlockPoints(view: View, v: nat, b: nat): set<nat>
    requires b < |view.blocks|
  {
    set i: nat | i < Width(view.blocks[b]) && Touches(view, v, b, i) :: Base(view.blocks, b) + i
  }

  ghost function PointsBefore(view: View, v: nat, k: nat): set<nat>
    requires k <= |view.blocks|
  {
    if k == 0 then {} else PointsBefore(view, v, k - 1) + BlockPoints(view, v, k - 1)
  }

  // `after` is `before` stretched to span exactly the points in s as well.
  ghost predicate Extended(before: CgInterval, after: CgInterval, v: nat, s: set<nat>) {
    && after.live == (before.live || s != {})
    && after == before.(vreg := after.vreg, start := after.start, end := after.end, live := after.live)
    && (s == {} ==> after == before)
    && (s != {} ==>
          && after.vreg == v
          && (forall p | p in s :: after.start <= p <= after.end)
          && (before.live ==> after.start <= before.start && before.end <= after.end)
          && (after.start in s || (before.live && after.start == before.start))
          && (after.end in s || (before.live && after.end == before.end)))
  }

  lemma ExtendedTwice(a: CgInterval, b: CgInterval, c: CgInterval, v: nat, s: set<nat>, t: set<nat>)
    requires Extended(a, b, v, s) && Extended(b, c, v, t)
    requires a.live ==> a.vreg == v
    ensures Extended(a, c, v, s + t)
  {
  }

  // The interval is empty exactly when nothing touches v; otherwise it is the
  // tightest hole-free range over everything that does.
  ghost predicate IsIntervalOf(view: View, v: nat, it: CgInterval) {
    && Extended(CLEARED.(liveAcrossCall := it.liveAcrossCall), it, v, PointsBefore(view, v, |view.blocks|))
    && (it.liveAcrossCall <==> CrossesCall(view, v))
  }

  ghost predicate CrossesAt(view: View, v: nat, p: Point) {
    InRange(view, p) && IsCall(view, p) && v != InstAt(view, p).def && LiveAfter(view, v, p)
  }

  // v holds a value across some call other than as that call's own result.
  ghost predicate CrossesCall(view: View, v: nat) {
    exists p :: CrossesAt(view, v, p)
  }

  // Entry 0 stands for no register.
  ghost predicate BuiltFrom(view: View, intervals: seq<CgInterval>) {
    && |intervals| == view.nvregs + 1 && intervals[0] == CLEARED
    && forall v | 1 <= v <= view.nvregs :: IsIntervalOf(view, v, intervals[v])
  }

  // --- consequences: what the interval covers --------------------------------

  lemma {:induction false} BlockPointsIncluded(view: View, v: nat, b: nat, k: nat)
    requires b < k <= |view.blocks|
    ensures BlockPoints(view, v, b) <= PointsBefore(view, v, k)
  {
    if b + 1 < k {
      BlockPointsIncluded(view, v, b, k - 1);
    }
  }

  lemma CoversTouch(view: View, v: nat, it: CgInterval, b: nat, i: nat)
    requires IsIntervalOf(view, v, it) && Touches(view, v, b, i)
    ensures it.live && it.vreg == v && it.start <= Base(view.blocks, b) + i <= it.end
  {
    BlockPointsIncluded(view, v, b, |view.blocks|);
    assert Base(view.blocks, b) + i in BlockPoints(view, v, b);
  }

  // Walking back from a live point inside a block ends at the block's head or
  // at the definition of the value.
  lemma {:induction false} TouchedBefore(view: View, v: nat, b: nat, i: nat) returns (j: nat)
    requires b < |view.blocks| && i < |view.blocks[b]|
    requires Live(view, v, Point(b, i))
    ensures j <= i && Touches(view, v, b, j)
    decreases i
  {
    if i == 0 {
      j := 0;
    } else if view.blocks[b][i - 1].def == v {
      j := i - 1;
    } else {
      assert LiveVia(view, v, Point(b, i - 1), Point(b, i));
      LiveEquation(view, v, Point(b, i - 1));
      j := TouchedBefore(view, v, b, i - 1);
    }
  }

  // Walking forward from a live point reaches a use in the block or leaves it.
  lemma {:induction false} TouchedAfter(view: View, v: nat, b: nat, i: nat) returns (j: nat)
    requires WellFormed(view) && b < |view.blocks| && i < |view.blocks[b]|
    requires Live(view, v, Point(b, i))
    ensures j >= i && Touches(view, v, b, j)
    decreases |view.blocks[b]| - i
  {
    LiveEquation(view, v, Point(b, i));
    if v in view.blocks[b][i].uses {
      j := i;
    } else {
      j := TouchedOnExit(view, v, b, i);
    }
  }

  lemma {:induction false} TouchedOnExit(view: View, v: nat, b: nat, i: nat) returns (j: nat)
    requires WellFormed(view) && b < |view.blocks| && i < |view.blocks[b]|
    requires LiveAfter(view, v, Point(b, i))
    ensures j >= i && Touches(view, v, b, j)
    decreases |view.blocks[b]| - i, 0
  {
    var q :| LiveVia(view, v, Point(b, i), q);
    if q == Point(b, i + 1) {
      LiveEquation(view, v, q);
      j := TouchedAfter(view, v, b, i + 1);
    } else {
      assert GoodBlock(view, view.blocks[b]);
      assert LeavesVia(view, v, b, i, q.block + 1);
      LiveEquation(view, v, q);
      j := |view.blocks[b]| - 1;
    }
  }

  // The coverage theorem: the interval of v spans every instruction before or
  // after which v is live, and every instruction that defines v.
  lemma IntervalCovers(view: View, v: nat, it: CgInterval, p: Point)
    requires WellFormed(view) && IsIntervalOf(view, v, it) && InRange(view, p) && v != 0
    requires Live(view, v, p) || LiveAfter(view, v, p) || InstAt(view, p).def == v
    ensures it.live && it.vreg == v && it.start <= PointNumber(view, p) <= it.end
  {
    var b, i := p.block, p.inst;
    if Live(view, v, p) {
      var j := TouchedBefore(view, v, b, i);
      CoversTouch(view, v, it, b, j);
      var k := TouchedAfter(view, v, b, i);
      CoversTouch(view, v, it, b, k);
    } else if InstAt(view, p).def == v {
      assert Touches(view, v, b, i);
      CoversTouch(view, v, it, b, i);
    } else {
      LiveEquation(view, v, p);
      assert false;
    }
  }

  // --- construction -----------------------------------------------------------

  method IntervalExtend(intervals: array<CgInterval>, v: nat, point: nat)
    requires v < intervals.Length && (intervals[v].live ==> intervals[v].vreg == v)
    modifies intervals
    ensures Extended(old(intervals[v]), intervals[v], v, {point})
    ensures forall w | 0 <= w < intervals.Length && w != v :: intervals[w] == old(intervals[w])
  {
    var it := intervals[v];
    if !it.live {
      intervals[v] := it.(live := true, vreg := v, start := point, end := point);
    } else {
      if point < it.start {
        intervals[v] := intervals[v].(start := point);
      }
      if point > it.end {
        intervals[v] := intervals[v].(end := point);
      }
    }
  }

  // Every live interval carries its own register number.
  ghost predicate SelfNamed(intervals: seq<CgInterval>) {
    forall v | 0 <= v < |intervals| :: intervals[v].live ==> intervals[v].vreg == v
  }

  function EdgePoints(v: nat, rowIn: set<nat>, rowOut: set<nat>, start: nat, end: nat): set<nat> {
    (if v in rowIn then {start} else {}) + (if v in rowOut then {end} else {})
  }

  function MentionPoints(block: seq<Inst>, start: nat, v: nat, n: nat): set<nat> {
    set i: nat | i < n && i < |block| && Mentions(block[i], v) :: start + i
  }

  function MentionPoint(inst: Inst, v: nat, point: nat): set<nat> {
    if Mentions(inst, v) then {point} else {}
  }

  // Entry j of the table was stretched by the set points(j), for every j below n.
  ghost predicate AllExtended(before: seq<CgInterval>, after: seq<CgInterval>, points: nat -> set<nat>) {
    && |before| == |after| && SelfNamed(after)
    && forall v: nat | v < |before| :: Extended(before[v], after[v], v, points(v))
  }

  lemma AllExtendedTwice(a: seq<CgInterval>, b: seq<CgInterval>, c: seq<CgInterval>,
                         s: nat -> set<nat>, t: nat -> set<nat>, u: nat -> set<nat>)
    requires SelfNamed(a) && AllExtended(a, b, s) && AllExtended(b, c, t)
    requires forall v: nat | v < |a| :: u(v) == s(v) + t(v)
    ensures AllExtended(a, c, u)
  {
    forall v: nat | v < |a|
      ensures Extended(a[v], c[v], v, u(v))
    {
      ExtendedTwice(a[v], b[v], c[v], v, s(v), t(v));
    }
  }

  method ExtendEdges(view: View, rowIn: set<nat>, rowOut: set<nat>, start: nat, end: nat, intervals: array<CgInterval>)
    requires intervals.Length == view.nvregs + 1 && SelfNamed(intervals[..])
    requires 0 !in rowIn && 0 !in rowOut
    modifies intervals
    ensures AllExtended(old(intervals[..]), intervals[..], v => EdgePoints(v, rowIn, rowOut, start, end))
  {
    var v := 1;
    while v <= view.nvregs
      invariant 1 <= v <= view.nvregs + 1 && SelfNamed(intervals[..])
      invariant forall w: nat | w < v :: Extended(old(intervals[w]), intervals[w], w, EdgePoints(w, rowIn, rowOut, start, end))
      invariant forall w | v <= w <= view.nvregs :: intervals[w] == old(intervals[w])
    {
      ExtendEdge(rowIn, rowOut, start, end, intervals, v);
      v := v + 1;
    }
  }

  method ExtendEdge(rowIn: set<nat>, rowOut: set<nat>, start: nat, end: nat, intervals: array<CgInterval>, v: nat)
    requires v < intervals.Length && SelfNamed(intervals[..])
    modifies intervals
    ensures SelfNamed(intervals[..]) && Extended(old(intervals[v]), intervals[v], v, EdgePoints(v, rowIn, rowOut, start, end))
    ensures forall w | 0 <= w < intervals.Length && w != v :: intervals[w] == old(intervals[w])
  {
    assert intervals[..][v] == intervals[v];
    if v in rowIn {
      IntervalExtend(intervals, v, start);
    }
    if v in rowOut {
      IntervalExtend(intervals, v, end);
    }
  }

  method ExtendInst(view: View, inst: Inst, point: nat, intervals: array<CgInterval>)
    requires GoodInst(view, inst)
    requires intervals.Length == view.nvregs + 1 && SelfNamed(intervals[..])
    modifies intervals
    ensures AllExtended(old(intervals[..]), intervals[..], v => MentionPoint(inst, v, point))
  {
    if inst.def != 0 {
      IntervalExtend(intervals, inst.def, point);
    }
    var k := 0;
    while k < |inst.uses|
      invariant 0 <= k <= |inst.uses| && SelfNamed(intervals[..])
      invariant forall v: nat | v <= view.nvregs ::
          Extended(old(intervals[v]), intervals[v], v,
                   if v != 0 && (inst.def == v || v in inst.uses[..k]) then {point} else {})
    {
      var u := inst.uses[k];
      assert u in inst.uses && inst.uses[..k + 1] == inst.uses[..k] + [u];
      if u != 0 {
        assert intervals[..][u] == intervals[u];
        IntervalExtend(intervals, u, point);
      }
      k := k + 1;
    }
    assert inst.uses[..k] == inst.uses;
  }

  method ExtendMentions(view: View, block: seq<Inst>, start: nat, intervals: array<CgInterval>)
    requires GoodBlock(view, block)
    requires intervals.Length == view.nvregs + 1 && SelfNamed(intervals[..])
    modifies intervals
    ensures AllExtended(old(intervals[..]), intervals[..], v => MentionPoints(block, start, v, |block|))
  {
    hide Extended, SelfNamed, GoodInst, Mentions;
    ghost var before := intervals[..];
    var i := 0;
    AllExtendedByNone(before, v => MentionPoints(block, start, v, 0));
    while i < |block|
      invariant 0 <= i <= |block| && SelfNamed(intervals[..])
      invariant AllExtended(before, intervals[..], v => MentionPoints(block, start, v, i))
    {
      ghost var mid := intervals[..];
      assert block[i] in block;
      ExtendInst(view, block[i], start + i, intervals);
      forall v: nat
        ensures MentionPoints(block, start, v, i + 1) == MentionPoints(block, start, v, i) + MentionPoint(block[i], v, start + i)
      {
        MentionPointsStep(block, start, v, i);
      }
      AllExtendedTwice(before, mid, intervals[..], v => MentionPoints(block, start, v, i),
                       v => MentionPoint(block[i], v, start + i), v => MentionPoints(block, start, v, i + 1));
      i := i + 1;
    }
  }

  lemma AllExtendedByNone(table: seq<CgInterval>, points: nat -> set<nat>)
    requires SelfNamed(table) && forall v: nat :: points(v) == {}
    ensures AllExtended(table, table, points)
  {
  }

  lemma MentionPointsStep(block: seq<Inst>, start: nat, v: nat, i: nat)
    requires i < |block|
    ensures MentionPoints(block, start, v, i + 1) == MentionPoints(block, start, v, i) + MentionPoint(block[i], v, start + i)
  {
  }

  // The three ways of being touched, together, are the block's points.
  lemma BlockPointsSplit(view: View, rowIn: set<nat>, rowOut: set<nat>, v: nat, b: nat)
    requires b < |view.blocks|
    requires v in rowIn <==> EntryLive(view, v, b)
    requires v in rowOut <==> LiveOut(view, v, b)
    ensures var block, start := view.blocks[b], Base(view.blocks, b);
            BlockPoints(view, v, b)
            == EdgePoints(v, rowIn, rowOut, start, start + Width(block) - 1) + MentionPoints(block, start, v, |block|)
  {
    hide EntryLive, LiveOut, Mentions, Base;
    var block, start := view.blocks[b], Base(view.blocks, b);
    var split := EdgePoints(v, rowIn, rowOut, start, start + Width(block) - 1) + MentionPoints(block, start, v, |block|);
    if v == 0 {
      LiveOutIsVreg(view, b);
      EntryIsVreg(view, b);
      assert forall i: nat | i < |block| :: !Mentions(block[i], v) by {
        MentionsIsVreg(block);
      }
      assert split == {};
    } else {
      assert EntryLive(view, v, b) ==> Touches(view, v, b, 0);
      assert LiveOut(view, v, b) ==> Touches(view, v, b, Width(block) - 1);
      forall p | p in split
        ensures p in BlockPoints(view, v, b)
      {
        if p in MentionPoints(block, start, v, |block|) {
          var i: nat :| i < |block| && Mentions(block[i], v) && p == start + i;
          assert Touches(view, v, b, i);
        }
      }
    }
    assert BlockPoints(view, v, b) <= split;
  }

  lemma MentionsIsVreg(block: seq<Inst>)
    ensures forall i: nat | i < |block| :: !Mentions(block[i], 0)
  {
  }

  lemma LiveOutIsVreg(view: View, b: nat)
    ensures !LiveOut(view, 0, b)
  {
  }

  // Extend every interval over one block.
  method ExtendBlock(view: View, b: nat, start: nat, rowIn: set<nat>, rowOut: set<nat>, intervals: array<CgInterval>)
    requires WellFormed(view) && b < |view.blocks| && start == Base(view.blocks, b)
    requires forall v :: v in rowIn <==> EntryLive(view, v, b)
    requires forall v :: v in rowOut <==> LiveOut(view, v, b)
    requires intervals.Length == view.nvregs + 1 && SelfNamed(intervals[..])
    modifies intervals
    ensures AllExtended(old(intervals[..]), intervals[..], v => BlockPoints(view, v, b))
  {
    hide Extended, SelfNamed, LiveOut, EntryLive, GoodBlock, BlockPoints;
    ghost var before := intervals[..];
    var block := view.blocks[b];
    var end := start + if |block| > 0 then |block| - 1 else 0;
    LiveOutIsVreg(view, b);
    EntryIsVreg(view, b);
    ExtendEdges(view, rowIn, rowOut, start, end, intervals);
    ghost var mid := intervals[..];
    ExtendMentions(view, block, start, intervals);
    forall v: nat
      ensures BlockPoints(view, v, b) == EdgePoints(v, rowIn, rowOut, start, end) + MentionPoints(block, start, v, |block|)
    {
      BlockPointsSplit(view, rowIn, rowOut, v, b);
    }
    AllExtendedTwice(before, mid, intervals[..], v => EdgePoints(v, rowIn, rowOut, start, end),
                     v => MentionPoints(block, start, v, |block|), v => BlockPoints(view, v, b));
  }

  lemma EntryIsVreg(view: View, b: nat)
    ensures !EntryLive(view, 0, b)
  {
  }

  // --- call crossings ---------------------------------------------------------

  ghost predicate CrossesFrom(view: View, v: nat, b: nat, i: nat) {
    exists p :: CrossesAt(view, v, p) && (p.block > b || (p.block == b && p.inst >= i))
  }

  // The table with every crossing at or after (b, i) recorded, nothing else changed.
  ghost predicate Marked(view: View, before: seq<CgInterval>, after: seq<CgInterval>, b: nat, i: nat) {
    && |before| == |after|
    && forall v | 0 <= v < |after| ::
         after[v] == before[v].(liveAcrossCall := before[v].liveAcrossCall || (v != 0 && CrossesFrom(view, v, b, i)))
  }

  method MarkCallCrossings(view: View, liveIn: array<set<nat>>, intervals: array<CgInterval>)
    requires WellFormed(view) && liveIn.Length == |view.blocks| && ExactRows(view, liveIn[..])
    requires intervals.Length == view.nvregs + 1
    modifies intervals
    ensures Marked(view, old(intervals[..]), intervals[..], 0, 0)
  {
    ghost var before := intervals[..];
    ghost var rows := liveIn[..];
    if !view.hasCallInfo {
      return;
    }
    var bi := |view.blocks|;
    while bi > 0
      invariant 0 <= bi <= |view.blocks| && liveIn[..] == rows
      invariant Marked(view, before, intervals[..], bi, 0)
    {
      bi := bi - 1;
      MarkBlock(view, bi, liveIn, intervals, before);
    }
  }

  // Everything live at a target of a branch is live before it.
  method AddTargets(liveIn: array<set<nat>>, targets: seq<nat>, live: set<nat>) returns (all: set<nat>)
    requires forall t | t in targets :: 1 <= t <= liveIn.Length
    ensures all == live + TargetsIn(liveIn[..], targets)
  {
    ghost var rows := liveIn[..];
    all := live;
    var k := 0;
    assert TargetsIn(rows, targets[..0]) == {};
    while k < |targets|
      invariant 0 <= k <= |targets| && all == live + TargetsIn(rows, targets[..k])
    {
      assert targets[k] in targets;
      TargetsInStep(rows, targets, k);
      all := all + liveIn[targets[k] - 1];
      k := k + 1;
    }
    assert targets[..k] == targets;
  }

  method AddUses(uses: seq<nat>, live: set<nat>) returns (all: set<nat>)
    ensures all == live + UseSet(uses)
  {
    all := live;
    var k := 0;
    while k < |uses|
      invariant 0 <= k <= |uses| && all == live + UseSet(uses[..k])
    {
      if uses[k] != 0 {
        all := all + {uses[k]};
      }
      assert uses[..k + 1] == uses[..k] + [uses[k]];
      k := k + 1;
    }
    assert uses[..k] == uses;
  }

  method MarkAll(view: View, crossing: set<nat>, intervals: array<CgInterval>)
    requires intervals.Length == view.nvregs + 1
    modifies intervals
    ensures forall w: nat | w <= view.nvregs ::
              intervals[w] == old(intervals[w]).(liveAcrossCall := old(intervals[w]).liveAcrossCall || (w != 0 && w in crossing))
  {
    var v := 1;
    while v <= view.nvregs
      invariant 1 <= v <= view.nvregs + 1
      invariant forall w: nat | w <= view.nvregs ::
          intervals[w] == old(intervals[w]).(liveAcrossCall := old(intervals[w]).liveAcrossCall || (0 < w < v && w in crossing))
    {
      if v in crossing {
        intervals[v] := intervals[v].(liveAcrossCall := true);
      }
      v := v + 1;
    }
  }

  method MarkBlock(view: View, b: nat, liveIn: array<set<nat>>, intervals: array<CgInterval>, ghost before: seq<CgInterval>)
    requires WellFormed(view) && liveIn.Length == |view.blocks| && ExactRows(view, liveIn[..])
    requires intervals.Length == view.nvregs + 1 && b < |view.blocks| && view.hasCallInfo
    requires Marked(view, before, intervals[..], b + 1, 0)
    modifies intervals
    ensures Marked(view, before, intervals[..], b, 0)
  {
    hide CrossesFrom, ExactRows, WellFormed;
    var block := view.blocks[b];
    ghost var rows := liveIn[..];
    var tmp := {};
    var ii := |block|;
    MarkedBlockEnd(view, before, intervals[..], b);
    while ii > 0
      invariant 0 <= ii <= |block| && liveIn[..] == rows
      invariant tmp == Before(block, rows, ii)
      invariant Marked(view, before, intervals[..], b, ii)
    {
      ghost var mid := intervals[..];
      ii := ii - 1;
      var inst := block[ii];
      TargetsAreBlocks(view, b, ii);
      tmp := AddTargets(liveIn, inst.targets, tmp);
      assert tmp == After(block, rows, ii);
      ghost var after := tmp;
      ExactHasNoZero(view, rows, b, ii);
      if inst.clobbersCall {
        if inst.def != 0 {
          tmp := tmp - {inst.def};
        }
        MarkAll(view, tmp, intervals);
        MarkedStep(view, before, mid, intervals[..], rows, b, ii);
      } else {
        MarkedStep(view, before, mid, mid, rows, b, ii);
      }
      if inst.def != 0 {
        tmp := tmp - {inst.def};
      }
      assert tmp == after - {inst.def};
      tmp := AddUses(inst.uses, tmp);
    }
  }

  lemma TargetsAreBlocks(view: View, b: nat, i: nat)
    requires WellFormed(view) && b < |view.blocks| && i < |view.blocks[b]|
    ensures forall t | t in view.blocks[b][i].targets :: 1 <= t <= |view.blocks|
  {
    assert GoodBlock(view, view.blocks[b]);
    assert GoodInst(view, view.blocks[b][i]);
  }

  lemma ExactHasNoZero(view: View, rows: Rows, b: nat, i: nat)
    requires WellFormed(view) && ExactRows(view, rows) && b < |view.blocks| && i < |view.blocks[b]|
    ensures 0 !in After(view.blocks[b], rows, i)
  {
    AfterExact(view, rows, b, i, 0);
  }

  lemma MarkedBlockEnd(view: View, before: seq<CgInterval>, after: seq<CgInterval>, b: nat)
    requires b < |view.blocks| && Marked(view, before, after, b + 1, 0)
    ensures Marked(view, before, after, b, |view.blocks[b]|)
  {
    forall v: nat
      ensures CrossesFrom(view, v, b + 1, 0) <==> CrossesFrom(view, v, b, |view.blocks[b]|)
    {
      if CrossesFrom(view, v, b + 1, 0) {
        var p :| CrossesAt(view, v, p) && p.block >= b + 1;
      }
    }
  }

  lemma MarkedStep(view: View, before: seq<CgInterval>, mid: seq<CgInterval>, after: seq<CgInterval>,
                   rows: Rows, b: nat, i: nat)
    requires WellFormed(view) && ExactRows(view, rows) && b < |view.blocks| && i < |view.blocks[b]|
    requires Marked(view, before, mid, b, i + 1) && |after| == |mid| == view.nvregs + 1
    requires forall v | 0 <= v < |mid| :: after[v] == mid[v].(liveAcrossCall := mid[v].liveAcrossCall
               || (v != 0 && IsCall(view, Point(b, i)) && v in After(view.blocks[b], rows, i) - {view.blocks[b][i].def}))
    ensures Marked(view, before, after, b, i)
  {
    forall v: nat | v < |after|
      ensures CrossesFrom(view, v, b, i) <==> CrossesFrom(view, v, b, i + 1) || CrossesAt(view, v, Point(b, i))
      ensures IsCall(view, Point(b, i)) && v in After(view.blocks[b], rows, i) - {view.blocks[b][i].def}
              <==> CrossesAt(view, v, Point(b, i))
    {
      AfterExact(view, rows, b, i, v);
      if CrossesFrom(view, v, b, i) && !CrossesFrom(view, v, b, i + 1) {
        var p :| CrossesAt(view, v, p) && (p.block > b || (p.block == b && p.inst >= i));
        assert p == Point(b, i);
      }
    }
  }

  // --- the whole build --------------------------------------------------------

  lemma BuildComplete(view: View, table: seq<CgInterval>, after: seq<CgInterval>)
    requires |table| == view.nvregs + 1
    requires AllExtended(seq(view.nvregs + 1, _ => CLEARED), table,
                         v => PointsUpTo(view, v, |view.blocks|))
    requires Marked(view, table, after, 0, 0)
    ensures BuiltFrom(view, after)
  {
    var cleared := seq(view.nvregs + 1, _ => CLEARED);
    forall v | 1 <= v <= view.nvregs
      ensures IsIntervalOf(view, v, after[v])
    {
      assert Extended(cleared[v], table[v], v, PointsUpTo(view, v, |view.blocks|));
      assert CrossesCall(view, v) <==> CrossesFrom(view, v, 0, 0);
    }
    NothingTouchesZero(view, |view.blocks|);
    assert Extended(cleared[0], table[0], 0, PointsUpTo(view, 0, |view.blocks|));
  }

  lemma {:induction false} NothingTouchesZero(view: View, k: nat)
    requires k <= |view.blocks|
    ensures PointsBefore(view, 0, k) == {}
  {
    if k > 0 {
      NothingTouchesZero(view, k - 1);
    }
  }

  ghost function PointsUpTo(view: View, v: nat, k: nat): set<nat> {
    if k <= |view.blocks| then PointsBefore(view, v, k) else {}
  }

  // The register, slot and pinning fields start cleared; liveness' internal
  // error is the only way to fail, since its checks precede the identical ones
  // made while extending.
  method CgIntervalsBuild(view: View, liveIn: array<set<nat>>, liveOut: array<set<nat>>, intervals: array<CgInterval>)
    returns (ok: bool)
    requires liveIn != liveOut && liveIn.Length == liveOut.Length == |view.blocks|
    requires forall b | 0 <= b < liveIn.Length :: liveIn[b] == {} && liveOut[b] == {}
    requires intervals.Length == view.nvregs + 1
    modifies liveIn, liveOut, intervals
    ensures ok <==> WellFormed(view)
    ensures ok ==> ExactRows(view, liveIn[..]) && ExactOuts(view, liveOut[..])
    ensures ok ==> BuiltFrom(view, intervals[..])
  {
    hide Extended, LiveOut, EntryLive, WellFormed, BlockPoints, BuiltFrom;
    var v := 0;
    while v <= view.nvregs
      invariant 0 <= v <= view.nvregs + 1
      invariant forall w | 0 <= w < v :: intervals[w] == CLEARED
      invariant forall b | 0 <= b < liveIn.Length :: liveIn[b] == {} && liveOut[b] == {}
    {
      intervals[v] := CLEARED;
      v := v + 1;
    }
    ghost var cleared := seq(view.nvregs + 1, _ => CLEARED);
    assert intervals[..] == cleared;
    ok := CgLiveness(view, liveIn, liveOut);
    if !ok {
      return;
    }
    ghost var rows, outs := liveIn[..], liveOut[..];
    var point, bi := 0, 0;
    assert intervals[..] == cleared;
    ClearedUnextended(cleared, v => PointsUpTo(view, v, 0));
    while bi < |view.blocks|
      invariant 0 <= bi <= |view.blocks| && point == Base(view.blocks, bi)
      invariant liveIn[..] == rows && liveOut[..] == outs && SelfNamed(intervals[..])
      invariant AllExtended(cleared, intervals[..], v => PointsUpTo(view, v, bi))
    {
      ghost var mid := intervals[..];
      assert rows[bi] == liveIn[bi] && outs[bi] == liveOut[bi];
      ExtendBlock(view, bi, point, liveIn[bi], liveOut[bi], intervals);
      AllExtendedTwice(cleared, mid, intervals[..], v => PointsUpTo(view, v, bi),
                       v => BlockPoints(view, v, bi), v => PointsUpTo(view, v, bi + 1));
      point := point + Width(view.blocks[bi]);
      bi := bi + 1;
    }
    ghost var table := intervals[..];
    MarkCallCrossings(view, liveIn, intervals);
    BuildComplete(view, table, intervals[..]);
  }

  lemma ClearedUnextended(table: seq<CgInterval>, points: nat -> set<nat>)
    requires forall v | 0 <= v < |table| :: table[v] == CLEARED
    requires forall v: nat :: points(v) == {}
    ensures SelfNamed(table) && AllExtended(table, table, points)
  {
  }
}
