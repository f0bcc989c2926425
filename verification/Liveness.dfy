/** Backward liveness to a fixpoint. A bitset row is modelled as the set of its
    one-bits; `|=`, bit_set and bit_clear are the set operations. */
module Liveness {
  import opened Mir

  type Rows = seq<set<nat>>

  function EntryRow(rows: Rows, target: nat): set<nat> {
    if 1 <= target <= |rows| then rows[target - 1] else {}
  }

  // What a list of branch targets contributes, given the rows at block entry.
  function TargetsIn(rows: Rows, targets: seq<nat>): set<nat> {
    set t, v | t in targets && v in EntryRow(rows, t) :: v
  }

  function UseSet(uses: seq<nat>): set<nat> {
    set u | u in uses && u != 0
  }

  // Live before instruction i of block, when `rows` is taken at every block entry.
  function Before(block: seq<Inst>, rows: Rows, i: nat): set<nat>
    requires i <= |block|
    decreases |block| - i
  {
    if i == |block| then {}
    else After(block, rows, i) - {block[i].def} + UseSet(block[i].uses)
  }

  function After(block: seq<Inst>, rows: Rows, i: nat): set<nat>
    requires i < |block|
    decreases |block| - i, 0
  {
    Before(block, rows, i + 1) + TargetsIn(rows, block[i].targets)
  }

  // What leaves the block from instruction i on, mid-block exits included.
  function OutFrom(block: seq<Inst>, rows: Rows, i: nat): set<nat>
    requires i <= |block|
    decreases |block| - i
  {
    if i == |block| then {}
    else OutFrom(block, rows, i + 1) + TargetsIn(rows, block[i].targets)
  }

  ghost predicate Below(small: Rows, big: Rows) {
    |small| == |big| && forall b | 0 <= b < |small| :: small[b] <= big[b]
  }

  lemma TargetsInMonotone(small: Rows, big: Rows, targets: seq<nat>)
    requires Below(small, big)
    ensures TargetsIn(small, targets) <= TargetsIn(big, targets)
  {
    forall v | v in TargetsIn(small, targets)
      ensures v in TargetsIn(big, targets)
    {
      var t :| t in targets && v in EntryRow(small, t);
      assert v in EntryRow(big, t);
    }
  }

  lemma {:induction false} BeforeMonotone(block: seq<Inst>, small: Rows, big: Rows, i: nat)
    requires i <= |block| && Below(small, big)
    ensures Before(block, small, i) <= Before(block, big, i)
    ensures OutFrom(block, small, i) <= OutFrom(block, big, i)
    decreases |block| - i
  {
    if i < |block| {
      BeforeMonotone(block, small, big, i + 1);
      TargetsInMonotone(small, big, block[i].targets);
    }
  }

  // --- soundness and completeness of a row assignment -----------------------

  ghost predicate EntryLive(view: View, v: nat, b: nat) {
    Live(view, v, Point(b, 0))
  }

  ghost predicate SoundRows(view: View, rows: Rows) {
    forall b, v | 0 <= b < |rows| && v in rows[b] :: EntryLive(view, v, b)
  }

  ghost predicate ExactRows(view: View, rows: Rows) {
    && |rows| == |view.blocks|
    && forall b, v | 0 <= b < |rows| :: v in rows[b] <==> EntryLive(view, v, b)
  }

  // v is live at the head of some target of the block.
  ghost predicate LeavesVia(view: View, v: nat, b: nat, i: nat, t: nat) {
    && b < |view.blocks| && i < |view.blocks[b]|
    && t in view.blocks[b][i].targets && 1 <= t && EntryLive(view, v, t - 1)
  }

  ghost predicate LiveOut(view: View, v: nat, b: nat) {
    exists i: nat, t: nat :: LeavesVia(view, v, b, i, t)
  }

  ghost predicate SoundOuts(view: View, outs: Rows) {
    forall b, v | 0 <= b < |outs| && v in outs[b] :: LiveOut(view, v, b)
  }

  ghost predicate ExactOuts(view: View, outs: Rows) {
    && |outs| == |view.blocks|
    && forall b, v | 0 <= b < |outs| :: v in outs[b] <==> LiveOut(view, v, b)
  }

  lemma {:induction false} BeforeSound(view: View, rows: Rows, b: nat, i: nat)
    requires SoundRows(view, rows) && b < |view.blocks| && i <= |view.blocks[b]|
    ensures forall v | v in Before(view.blocks[b], rows, i) :: Live(view, v, Point(b, i))
    ensures forall v | v in OutFrom(view.blocks[b], rows, i) :: LiveOut(view, v, b)
    decreases |view.blocks[b]| - i
  {
    var block := view.blocks[b];
    if i < |block| {
      BeforeSound(view, rows, b, i + 1);
      forall v | v in After(block, rows, i)
        ensures LiveAfter(view, v, Point(b, i))
      {
        AfterSound(view, rows, b, i, v);
      }
      forall v | v in Before(block, rows, i)
        ensures Live(view, v, Point(b, i))
      {
        assert v in After(block, rows, i) || v in UseSet(block[i].uses);
        if v in After(block, rows, i) {
          var q :| LiveVia(view, v, Point(b, i), q);
        }
        LiveEquation(view, v, Point(b, i));
      }
      forall v | v in TargetsIn(rows, block[i].targets)
        ensures LiveOut(view, v, b)
      {
        var t :| t in block[i].targets && v in EntryRow(rows, t);
        assert EntryLive(view, v, t - 1);
        assert LeavesVia(view, v, b, i, t);
      }
    }
  }

  lemma AfterSound(view: View, rows: Rows, b: nat, i: nat, v: nat)
    requires SoundRows(view, rows) && b < |view.blocks| && i < |view.blocks[b]|
    requires v in After(view.blocks[b], rows, i)
    requires v in Before(view.blocks[b], rows, i + 1) ==> Live(view, v, Point(b, i + 1))
    ensures LiveAfter(view, v, Point(b, i))
  {
    var block := view.blocks[b];
    if v in Before(block, rows, i + 1) {
      assert LiveVia(view, v, Point(b, i), Point(b, i + 1));
    } else {
      var t :| t in block[i].targets && v in EntryRow(rows, t);
      assert EntryLive(view, v, t - 1);
      assert LiveVia(view, v, Point(b, i), Point(t - 1, 0));
    }
  }

  ghost predicate Fixpoint(view: View, rows: Rows) {
    && |rows| == |view.blocks|
    && forall b | 0 <= b < |rows| :: Before(view.blocks[b], rows, 0) == rows[b]
  }

  // Any solution of the equations holds every path-live register.
  lemma {:induction false} FixpointComplete(view: View, rows: Rows, v: nat, path: seq<Point>)
    requires WellFormed(view) && Fixpoint(view, rows) && v != 0 && UsePath(view, v, path)
    ensures v in Before(view.blocks[path[0].block], rows, path[0].inst)
    decreases |path|
  {
    if |path| > 1 {
      var p, q := path[0], path[1];
      FixpointComplete(view, rows, v, path[1..]);
      if q != Point(p.block, p.inst + 1) {
        assert GoodBlock(view, view.blocks[p.block]);
        assert q.block + 1 in InstAt(view, p).targets && v in EntryRow(rows, q.block + 1);
      }
    }
  }

  lemma FixpointExact(view: View, rows: Rows)
    requires WellFormed(view) && Fixpoint(view, rows) && SoundRows(view, rows)
    ensures ExactRows(view, rows)
  {
    forall b, v | 0 <= b < |rows| && EntryLive(view, v, b)
      ensures v in rows[b]
    {
      var path :| StartsUse(view, v, Point(b, 0), path);
      FixpointComplete(view, rows, v, path);
    }
  }

  // Exact entry rows give the exact live set at every point inside a block.
  lemma {:induction false} BeforeExact(view: View, rows: Rows, b: nat, i: nat, v: nat)
    requires WellFormed(view) && ExactRows(view, rows)
    requires b < |view.blocks| && i <= |view.blocks[b]|
    ensures v in Before(view.blocks[b], rows, i) <==> Live(view, v, Point(b, i))
    decreases |view.blocks[b]| - i
  {
    if i == |view.blocks[b]| {
      LiveEquation(view, v, Point(b, i));
    } else {
      AfterExact(view, rows, b, i, v);
      LiveEquation(view, v, Point(b, i));
      if LiveAfter(view, v, Point(b, i)) {
        var q :| LiveVia(view, v, Point(b, i), q);
      }
    }
  }

  lemma AfterExact(view: View, rows: Rows, b: nat, i: nat, v: nat)
    requires WellFormed(view) && ExactRows(view, rows)
    requires b < |view.blocks| && i < |view.blocks[b]|
    ensures v in After(view.blocks[b], rows, i) <==> LiveAfter(view, v, Point(b, i))
    decreases |view.blocks[b]| - i, 0
  {
    BeforeExact(view, rows, b, i + 1, v);
    if v in After(view.blocks[b], rows, i) {
      AfterSound(view, rows, b, i, v);
    }
    if LiveAfter(view, v, Point(b, i)) {
      var q :| LiveVia(view, v, Point(b, i), q);
      if q != Point(b, i + 1) {
        assert GoodBlock(view, view.blocks[b]);
        assert EntryLive(view, v, q.block);
        assert q.block + 1 in view.blocks[b][i].targets && v in EntryRow(rows, q.block + 1);
      }
    }
  }

  lemma {:induction false} OutFromComplete(view: View, rows: Rows, b: nat, i: nat, v: nat, j: nat, t: nat)
    requires WellFormed(view) && ExactRows(view, rows) && b < |view.blocks| && i <= j
    requires LeavesVia(view, v, b, j, t)
    ensures v in OutFrom(view.blocks[b], rows, i)
    decreases j - i
  {
    assert GoodBlock(view, view.blocks[b]);
    if i < j {
      OutFromComplete(view, rows, b, i + 1, v, j, t);
    } else {
      assert v in EntryRow(rows, t);
    }
  }

  // --- the termination measure: bits not yet set ----------------------------

  function Bits(rows: Rows): nat {
    if rows == [] then 0 else |rows[0]| + Bits(rows[1..])
  }

  ghost predicate VregRows(view: View, rows: Rows) {
    forall b, v | 0 <= b < |rows| && v in rows[b] :: 1 <= v <= view.nvregs
  }

  lemma {:induction false} BoundedSet(s: set<nat>, n: nat)
    requires forall v | v in s :: 1 <= v <= n
    ensures |s| <= n
  {
    if n > 0 {
      BoundedSet(s - {n}, n - 1);
    } else {
      assert s == {};
    }
  }

  lemma {:induction false} BitsBound(view: View, rows: Rows)
    requires VregRows(view, rows)
    ensures Bits(rows) <= |rows| * view.nvregs
  {
    if rows != [] {
      BoundedSet(rows[0], view.nvregs);
      assert VregRows(view, rows[1..]);
      BitsBound(view, rows[1..]);
    }
  }

  lemma {:induction false} BitsUpdate(rows: Rows, b: nat, s: set<nat>)
    requires b < |rows|
    ensures Bits(rows[b := s]) == Bits(rows) - |rows[b]| + |s|
  {
    if b == 0 {
      assert rows[0 := s][1..] == rows[1..];
    } else {
      assert rows[b := s][1..] == rows[1..][b - 1 := s];
      BitsUpdate(rows[1..], b - 1, s);
    }
  }

  lemma StrictSubsetSmaller(s: set<nat>, t: set<nat>)
    requires s <= t && s != t
    ensures |s| < |t|
  {
    assert t == s + (t - s) && t - s != {};
  }

  // --- the algorithm --------------------------------------------------------

  lemma TargetsInStep(rows: Rows, targets: seq<nat>, k: nat)
    requires k < |targets| && 1 <= targets[k] <= |rows|
    ensures TargetsIn(rows, targets[..k + 1]) == TargetsIn(rows, targets[..k]) + rows[targets[k] - 1]
  {
    var more := targets[..k + 1];
    assert more == targets[..k] + [targets[k]];
    forall v | v in rows[targets[k] - 1]
      ensures v in TargetsIn(rows, more)
    {
      assert targets[k] in more && v in EntryRow(rows, targets[k]);
    }
  }

  lemma {:induction false} BeforeHasNoZero(block: seq<Inst>, rows: Rows, i: nat)
    requires i <= |block| && forall b | 0 <= b < |rows| :: 0 !in rows[b]
    ensures 0 !in Before(block, rows, i)
    decreases |block| - i
  {
    if i < |block| {
      BeforeHasNoZero(block, rows, i + 1);
    }
  }

  method AddUses(view: View, uses: seq<nat>, cleared: set<nat>) returns (ok: bool, tmp: set<nat>)
    ensures ok <==> forall v | v in uses :: v <= view.nvregs
    ensures ok ==> tmp == cleared + UseSet(uses)
  {
    tmp := cleared;
    var k := 0;
    while k < |uses|
      invariant 0 <= k <= |uses|
      invariant forall j | 0 <= j < k :: uses[j] <= view.nvregs
      invariant tmp == cleared + UseSet(uses[..k])
    {
      if uses[k] > view.nvregs {
        assert uses[k] in uses;
        return false, tmp;
      }
      if uses[k] != 0 {
        tmp := tmp + {uses[k]};
      }
      assert uses[..k + 1] == uses[..k] + [uses[k]];
      k := k + 1;
    }
    assert uses[..k] == uses;
    ok := true;
  }

  // The walk's step over one instruction: join the targets' entry rows, then
  // kill the definition, then add the uses.
  method ScanInst(view: View, inst: Inst, after: set<nat>, b: nat, liveIn: array<set<nat>>, liveOut: array<set<nat>>)
    returns (ok: bool, tmp: set<nat>)
    requires liveIn != liveOut && b < liveIn.Length == liveOut.Length == |view.blocks|
    requires 0 !in after && forall c | 0 <= c < liveIn.Length :: 0 !in liveIn[c]
    modifies liveOut
    ensures ok <==> GoodInst(view, inst)
    ensures ok ==> tmp == after + TargetsIn(liveIn[..], inst.targets) - {inst.def} + UseSet(inst.uses)
    ensures ok ==> liveOut[b] == old(liveOut[b]) + TargetsIn(liveIn[..], inst.targets)
    ensures forall c | 0 <= c < liveOut.Length && c != b :: liveOut[c] == old(liveOut[c])
  {
    ghost var rows := liveIn[..];
    tmp := after;
    var k := 0;
    assert TargetsIn(rows, inst.targets[..0]) == {};
    while k < |inst.targets|
      invariant 0 <= k <= |inst.targets| && liveIn[..] == rows
      invariant forall j | 0 <= j < k :: 1 <= inst.targets[j] <= |view.blocks|
      invariant 0 !in tmp && tmp == after + TargetsIn(rows, inst.targets[..k])
      invariant liveOut[b] == old(liveOut[b]) + TargetsIn(rows, inst.targets[..k])
      invariant forall c | 0 <= c < liveOut.Length && c != b :: liveOut[c] == old(liveOut[c])
    {
      var t := inst.targets[k];
      if t == 0 || t > |view.blocks| {
        assert t in inst.targets;
        return false, tmp;
      }
      var targetIn := liveIn[t - 1];
      tmp := tmp + targetIn;
      liveOut[b] := liveOut[b] + targetIn;
      TargetsInStep(rows, inst.targets, k);
      k := k + 1;
    }
    assert inst.targets[..k] == inst.targets;
    if inst.def > view.nvregs {
      return false, tmp;
    }
    if inst.def != 0 {
      tmp := tmp - {inst.def};
    }
    if |inst.uses| > view.maxUses {
      return false, tmp;
    }
    ok, tmp := AddUses(view, inst.uses, tmp);
  }

  // One backward walk over block b: its transfer function, plus the union of
  // its targets' entry rows into live_out.
  method ScanBlock(view: View, b: nat, liveIn: array<set<nat>>, liveOut: array<set<nat>>)
    returns (ok: bool, tmp: set<nat>)
    requires b < |view.blocks| && liveIn != liveOut
    requires liveIn.Length == liveOut.Length == |view.blocks|
    requires forall c | 0 <= c < liveIn.Length :: 0 !in liveIn[c]
    modifies liveOut
    ensures ok <==> GoodBlock(view, view.blocks[b])
    ensures ok ==> tmp == Before(view.blocks[b], liveIn[..], 0)
    ensures ok ==> liveOut[b] == old(liveOut[b]) + OutFrom(view.blocks[b], liveIn[..], 0)
    ensures forall c | 0 <= c < liveOut.Length && c != b :: liveOut[c] == old(liveOut[c])
  {
    hide GoodInst, TargetsIn, UseSet;
    var block := view.blocks[b];
    ghost var rows := liveIn[..];
    tmp := {};
    ok := true;
    var ii := |block|;
    while ii > 0
      invariant 0 <= ii <= |block| && liveIn[..] == rows
      invariant forall i | ii <= i < |block| :: GoodInst(view, block[i])
      invariant tmp == Before(block, rows, ii)
      invariant liveOut[b] == old(liveOut[b]) + OutFrom(block, rows, ii)
      invariant forall c | 0 <= c < liveOut.Length && c != b :: liveOut[c] == old(liveOut[c])
    {
      ii := ii - 1;
      BeforeHasNoZero(block, rows, ii + 1);
      ok, tmp := ScanInst(view, block[ii], tmp, b, liveIn, liveOut);
      if !ok {
        assert block[ii] in block;
        return;
      }
      assert liveIn[..] == rows;
    }
    ok := true;
  }

  // What a sweep keeps: rows stay sound and below their own transfer function.
  ghost predicate Ascending(view: View, rows: Rows) {
    && |rows| == |view.blocks|
    && forall b | 0 <= b < |rows| :: rows[b] <= Before(view.blocks[b], rows, 0)
  }

  lemma RaiseRow(view: View, rows: Rows, b: nat)
    requires Ascending(view, rows) && b < |rows|
    ensures Ascending(view, rows[b := Before(view.blocks[b], rows, 0)])
  {
    var raised := rows[b := Before(view.blocks[b], rows, 0)];
    assert Below(rows, raised);
    forall c | 0 <= c < |rows|
      ensures raised[c] <= Before(view.blocks[c], raised, 0)
    {
      BeforeMonotone(view.blocks[c], rows, raised, 0);
    }
  }

  ghost predicate Invariant(view: View, rows: Rows, outs: Rows) {
    && |outs| == |rows|
    && Ascending(view, rows) && SoundRows(view, rows) && VregRows(view, rows) && SoundOuts(view, outs)
  }

  lemma StepKeepsInvariant(view: View, rows: Rows, outs: Rows, b: nat)
    requires Invariant(view, rows, outs) && b < |rows| && GoodBlock(view, view.blocks[b])
    ensures Invariant(view, rows[b := Before(view.blocks[b], rows, 0)],
                      outs[b := outs[b] + OutFrom(view.blocks[b], rows, 0)])
    ensures Bits(rows) <= Bits(rows[b := Before(view.blocks[b], rows, 0)])
    ensures Before(view.blocks[b], rows, 0) != rows[b] ==>
              Bits(rows) < Bits(rows[b := Before(view.blocks[b], rows, 0)])
  {
    hide Before, OutFrom, LiveOut, Bits, Ascending;
    RowRises(view, rows, b);
    BeforeSound(view, rows, b, 0);
    RaiseRow(view, rows, b);
    TransferIsVregs(view, rows, b, 0);
    BitsUpdate(rows, b, Before(view.blocks[b], rows, 0));
    if Before(view.blocks[b], rows, 0) != rows[b] {
      StrictSubsetSmaller(rows[b], Before(view.blocks[b], rows, 0));
    }
  }

  lemma RowRises(view: View, rows: Rows, b: nat)
    requires Ascending(view, rows) && b < |rows|
    ensures |rows| == |view.blocks| && rows[b] <= Before(view.blocks[b], rows, 0)
  {
  }

  lemma InvariantHasNoZero(view: View, rows: Rows, outs: Rows)
    requires Invariant(view, rows, outs)
    ensures |rows| == |outs| == |view.blocks|
    ensures forall b | 0 <= b < |rows| :: 0 !in rows[b]
  {
  }

  // Block b is in equilibrium.
  ghost predicate Settled(view: View, rows: Rows, outs: Rows, b: nat)
    requires b < |rows| == |outs| == |view.blocks|
  {
    Before(view.blocks[b], rows, 0) == rows[b] && OutFrom(view.blocks[b], rows, 0) <= outs[b]
  }

  lemma StepSettles(view: View, rows: Rows, outs: Rows, b: nat, outs': Rows)
    requires |rows| == |outs| == |view.blocks| && b < |rows|
    requires Before(view.blocks[b], rows, 0) == rows[b]
    requires forall c | b < c < |rows| :: Settled(view, rows, outs, c)
    requires outs' == outs[b := outs[b] + OutFrom(view.blocks[b], rows, 0)]
    ensures forall c | b <= c < |rows| :: Settled(view, rows, outs', c)
  {
    forall c | b <= c < |rows|
      ensures Settled(view, rows, outs', c)
    {
      assert c > b ==> Settled(view, rows, outs, c);
    }
  }

  // One pass over the blocks, last to first.
  method Sweep(view: View, liveIn: array<set<nat>>, liveOut: array<set<nat>>) returns (ok: bool, changed: bool)
    requires liveIn != liveOut && liveIn.Length == liveOut.Length == |view.blocks|
    requires Invariant(view, liveIn[..], liveOut[..])
    modifies liveIn, liveOut
    ensures ok <==> WellFormed(view)
    ensures ok ==> Invariant(view, liveIn[..], liveOut[..])
    ensures ok && changed ==> Bits(old(liveIn[..])) < Bits(liveIn[..])
    ensures ok && !changed ==> liveIn[..] == old(liveIn[..])
    ensures ok && !changed ==> forall b | 0 <= b < |view.blocks| :: Settled(view, liveIn[..], liveOut[..], b)
  {
    hide Invariant, Settled, GoodBlock, OutFrom, Before, Bits;
    var n := |view.blocks|;
    changed := false;
    var bi := n;
    while bi > 0
      invariant 0 <= bi <= n
      invariant Invariant(view, liveIn[..], liveOut[..])
      invariant forall b | bi <= b < n :: GoodBlock(view, view.blocks[b])
      invariant !changed ==> liveIn[..] == old(liveIn[..])
      invariant !changed ==> forall b | bi <= b < n :: Settled(view, liveIn[..], liveOut[..], b)
      invariant changed ==> Bits(old(liveIn[..])) < Bits(liveIn[..])
    {
      bi := bi - 1;
      ghost var rows, outs := liveIn[..], liveOut[..];
      InvariantHasNoZero(view, rows, outs);
      assert forall c | 0 <= c < n :: rows[c] == liveIn[c];
      var good, tmp := ScanBlock(view, bi, liveIn, liveOut);
      if !good {
        return false, changed;
      }
      assert liveIn[..] == rows;
      StepKeepsInvariant(view, rows, outs, bi);
      assert liveOut[..] == outs[bi := outs[bi] + OutFrom(view.blocks[bi], rows, 0)];
      if !changed && tmp == rows[bi] {
        StepSettles(view, rows, outs, bi, liveOut[..]);
      }
      if tmp != liveIn[bi] {
        liveIn[bi] := tmp;
        changed := true;
      }
      assert liveIn[..] == rows[bi := tmp];
    }
    ok := true;
  }

  // The caller hands in zeroed rows; failure stands for an internal compiler error.
  method CgLiveness(view: View, liveIn: array<set<nat>>, liveOut: array<set<nat>>) returns (ok: bool)
    requires liveIn != liveOut && liveIn.Length == liveOut.Length == |view.blocks|
    requires forall b | 0 <= b < liveIn.Length :: liveIn[b] == {} && liveOut[b] == {}
    modifies liveIn, liveOut
    ensures ok <==> WellFormed(view)
    ensures ok ==> ExactRows(view, liveIn[..]) && ExactOuts(view, liveOut[..])
  {
    var n := |view.blocks|;
    var changed := true;
    while changed
      invariant Invariant(view, liveIn[..], liveOut[..])
      invariant !changed ==> WellFormed(view)
      invariant !changed ==> forall b | 0 <= b < n :: Settled(view, liveIn[..], liveOut[..], b)
      decreases n * view.nvregs - Bits(liveIn[..]), changed
    {
      ok, changed := Sweep(view, liveIn, liveOut);
      if !ok {
        return;
      }
      BitsBound(view, liveIn[..]);
    }
    ok := true;
    forall b | 0 <= b < n
      ensures Before(view.blocks[b], liveIn[..], 0) == liveIn[..][b]
      ensures OutFrom(view.blocks[b], liveIn[..], 0) <= liveOut[..][b]
    {
      assert Settled(view, liveIn[..], liveOut[..], b);
    }
    FixpointExact(view, liveIn[..]);
    OutsExact(view, liveIn[..], liveOut[..]);
  }

  lemma {:induction false} TransferIsVregs(view: View, rows: Rows, b: nat, i: nat)
    requires VregRows(view, rows) && b < |view.blocks| && i <= |view.blocks[b]|
    requires GoodBlock(view, view.blocks[b])
    ensures forall v | v in Before(view.blocks[b], rows, i) :: 1 <= v <= view.nvregs
    decreases |view.blocks[b]| - i
  {
    if i < |view.blocks[b]| {
      TransferIsVregs(view, rows, b, i + 1);
      var block := view.blocks[b];
      assert GoodInst(view, block[i]);
      TargetsAreVregs(view, rows, block[i]);
      assert Before(block, rows, i) == Before(block, rows, i + 1) + TargetsIn(rows, block[i].targets) - {block[i].def} + UseSet(block[i].uses);
    }
  }

  lemma TargetsAreVregs(view: View, rows: Rows, inst: Inst)
    requires VregRows(view, rows) && GoodInst(view, inst)
    ensures forall v | v in TargetsIn(rows, inst.targets) :: 1 <= v <= view.nvregs
    ensures forall v | v in UseSet(inst.uses) :: 1 <= v <= view.nvregs
  {
    forall v | v in TargetsIn(rows, inst.targets)
      ensures 1 <= v <= view.nvregs
    {
      var t :| t in inst.targets && v in EntryRow(rows, t);
      assert v in rows[t - 1];
    }
  }

  lemma OutsExact(view: View, rows: Rows, outs: Rows)
    requires WellFormed(view) && ExactRows(view, rows) && |outs| == |rows| && SoundOuts(view, outs)
    requires forall b | 0 <= b < |rows| :: OutFrom(view.blocks[b], rows, 0) <= outs[b]
    ensures ExactOuts(view, outs)
  {
    forall b, v | 0 <= b < |outs| && LiveOut(view, v, b)
      ensures v in outs[b]
    {
      var i: nat, t: nat :| LeavesVia(view, v, b, i, t);
      OutFromComplete(view, rows, b, 0, v, i, t);
    }
  }
}
