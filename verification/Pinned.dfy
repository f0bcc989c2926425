/** The pinned-order tripwire: volatile and seq_cst operations are snapshotted
    with the order they must keep, and checked again after each pass. */
module Pinned {
  import opened Ir
  import opened Cfg
  import opened Dominators
  import opened Verifier
  import opened Execution

  datatype Site = Site(block: nat, pos: nat)

  // precedes[i][j]: operation i must keep dominating or preceding operation j.
  datatype Snapshot = Snapshot(ops: seq<nat>, precedes: seq<seq<bool>>)

  // Bit 0 is volatile, bit 1 seq_cst.
  predicate IsPinned(inst: Inst) {
    inst.flags % FLAG_SEQ_CST == FLAG_VOLATILE || inst.flags / FLAG_SEQ_CST % 2 == 1
  }

  predicate SiteIn(f: Func, s: Site) {
    s.block < |f.blocks| && s.pos < |f.blocks[s.block].insts|
  }

  function InstAt(f: Func, s: Site): Inst
    requires SiteIn(f, s)
  {
    f.blocks[s.block].insts[s.pos]
  }

  // Control reaches a before it reaches b.
  ghost predicate Precedes(g: Graph, a: Site, b: Site) {
    if a.block == b.block then a.pos < b.pos else BlockDominates(g, a.block + 1, b.block + 1)
  }

  // --- pinned operations in layout order -------------------------------------------

  function PinnedIn(f: Func, b: nat, n: nat): seq<Site>
    requires b < |f.blocks| && n <= |f.blocks[b].insts|
  {
    if n == 0 then []
    else PinnedIn(f, b, n - 1) + if IsPinned(f.blocks[b].insts[n - 1]) then [Site(b, n - 1)] else []
  }

  function PinnedBefore(f: Func, b: nat): seq<Site>
    requires b <= |f.blocks|
  {
    if b == 0 then [] else PinnedBefore(f, b - 1) + PinnedIn(f, b - 1, |f.blocks[b - 1].insts|)
  }

  function PinnedSites(f: Func): seq<Site> {
    PinnedBefore(f, |f.blocks|)
  }

  predicate Before(a: Site, b: Site) {
    a.block < b.block || (a.block == b.block && a.pos < b.pos)
  }

  lemma {:induction false} PinnedInFacts(f: Func, b: nat, n: nat)
    requires b < |f.blocks| && n <= |f.blocks[b].insts|
    ensures forall s :: s in PinnedIn(f, b, n) <==> s.block == b && s.pos < n && IsPinned(f.blocks[b].insts[s.pos])
    ensures forall i, j | 0 <= i < j < |PinnedIn(f, b, n)| :: Before(PinnedIn(f, b, n)[i], PinnedIn(f, b, n)[j])
  {
    if n > 0 {
      PinnedInFacts(f, b, n - 1);
      var front := PinnedIn(f, b, n - 1);
      assert forall i | 0 <= i < |front| :: front[i] in front;
    }
  }

  lemma {:induction false} PinnedFacts(f: Func, b: nat)
    requires b <= |f.blocks|
    ensures forall s :: s in PinnedBefore(f, b) <==> s.block < b && SiteIn(f, s) && IsPinned(InstAt(f, s))
    ensures forall i, j | 0 <= i < j < |PinnedBefore(f, b)| :: Before(PinnedBefore(f, b)[i], PinnedBefore(f, b)[j])
  {
    if b > 0 {
      PinnedFacts(f, b - 1);
      PinnedInFacts(f, b - 1, |f.blocks[b - 1].insts|);
      var front, back := PinnedBefore(f, b - 1), PinnedIn(f, b - 1, |f.blocks[b - 1].insts|);
      assert forall i | 0 <= i < |front| :: front[i] in front;
      assert forall i | 0 <= i < |back| :: back[i] in back;
    }
  }

  // --- the snapshot and the check, as statements ---------------------------------------

  ghost predicate IsSnapshot(f: Func, snap: Snapshot) {
    var sites := PinnedSites(f);
    && |snap.ops| == |sites| == |snap.precedes|
    && (forall i | 0 <= i < |sites| :: SiteIn(f, sites[i]) && snap.ops[i] == InstAt(f, sites[i]).addr)
    && (forall i | 0 <= i < |sites| :: |snap.precedes[i]| == |sites|)
    && (forall i, j | 0 <= i < |sites| && 0 <= j < |sites| ::
          snap.precedes[i][j] <==> i != j && Precedes(f.blocks, sites[i], sites[j]))
  }

  // Where the first instruction with this identity stands.
  ghost predicate FoundAt(f: Func, addr: nat, s: Site) {
    && SiteIn(f, s) && InstAt(f, s).addr == addr
    && forall t | SiteIn(f, t) && Before(t, s) :: InstAt(f, t).addr != addr
  }

  ghost predicate Found(f: Func, addr: nat) {
    exists s :: FoundAt(f, addr, s)
  }

  ghost predicate OrderKept(f: Func, snap: Snapshot) {
    && (forall i | 0 <= i < |snap.ops| :: Found(f, snap.ops[i]))
    && (forall i, j, s, t | 0 <= i < |snap.ops| && 0 <= j < |snap.ops| && i < |snap.precedes| && j < |snap.precedes[i]|
          && snap.precedes[i][j] && FoundAt(f, snap.ops[i], s) && FoundAt(f, snap.ops[j], t) ::
          Precedes(f.blocks, s, t))
  }

  ghost predicate Accepted(f: Func, snap: Snapshot) {
    snap.ops == [] || (|PinnedSites(f)| == |snap.ops| && OrderKept(f, snap))
  }

  lemma FoundOnce(f: Func, addr: nat, s: Site, t: Site)
    requires FoundAt(f, addr, s) && FoundAt(f, addr, t)
    ensures s == t
  {
  }

  // --- taking the snapshot ------------------------------------------------------------

  method CollectPinned(f: Func) returns (ops: seq<nat>, sites: seq<Site>)
    ensures sites == PinnedSites(f) && |ops| == |sites|
    ensures forall i | 0 <= i < |sites| :: SiteIn(f, sites[i]) && ops[i] == InstAt(f, sites[i]).addr
  {
    ops, sites := [], [];
    var bi := 0;
    while bi < |f.blocks|
      invariant 0 <= bi <= |f.blocks| && sites == PinnedBefore(f, bi) && |ops| == |sites|
      invariant forall i | 0 <= i < |sites| :: SiteIn(f, sites[i]) && ops[i] == InstAt(f, sites[i]).addr
    {
      var insts := f.blocks[bi].insts;
      var pos := 0;
      while pos < |insts|
        invariant 0 <= pos <= |insts| && sites == PinnedBefore(f, bi) + PinnedIn(f, bi, pos) && |ops| == |sites|
        invariant forall i | 0 <= i < |sites| :: SiteIn(f, sites[i]) && ops[i] == InstAt(f, sites[i]).addr
      {
        if IsPinned(insts[pos]) {
          ops, sites := ops + [insts[pos].addr], sites + [Site(bi, pos)];
        }
        pos := pos + 1;
      }
      bi := bi + 1;
    }
  }

  method IrSnapshotVolatileOrder(f: Func) returns (snap: Snapshot)
    requires |f.blocks| < NONE
    ensures IsSnapshot(f, snap)
  {
    var ops, sites := CollectPinned(f);
    var dom := new IrDomTree.Build(f.blocks);
    var precedes: seq<seq<bool>> := [];
    PinnedFacts(f, |f.blocks|);
    var i := 0;
    while i < |sites|
      invariant 0 <= i <= |sites| && |precedes| == i && dom.Valid(f.blocks)
      invariant forall k | 0 <= k < i :: |precedes[k]| == |sites|
      invariant forall k, j | 0 <= k < i && 0 <= j < |sites| :: precedes[k][j] <==> k != j && Precedes(f.blocks, sites[k], sites[j])
    {
      var row := SnapshotRow(f, sites, i, dom);
      precedes := precedes + [row];
      i := i + 1;
    }
    snap := Snapshot(ops, precedes);
  }

  method SnapshotRow(f: Func, sites: seq<Site>, i: nat, dom: IrDomTree) returns (row: seq<bool>)
    requires dom.Valid(f.blocks) && i < |sites| && sites == PinnedSites(f)
    ensures |row| == |sites|
    ensures forall j | 0 <= j < |sites| :: row[j] <==> i != j && Precedes(f.blocks, sites[i], sites[j])
  {
    hide BlockDominates, PinnedSites;
    InLayoutOrder(f, sites);
    row := [];
    var j := 0;
    while j < |sites|
      invariant 0 <= j <= |sites| && |row| == j
      invariant forall k | 0 <= k < j :: row[k] <==> i != k && Precedes(f.blocks, sites[i], sites[k])
    {
      var mark := false;
      if i != j {
        if sites[i].block == sites[j].block {
          mark := i < j;
          assert mark <==> sites[i].pos < sites[j].pos;
        } else {
          mark := dom.IrDominates(sites[i].block + 1, sites[j].block + 1, f.blocks);
        }
      }
      row := row + [mark];
      j := j + 1;
    }
  }

  lemma InLayoutOrder(f: Func, sites: seq<Site>)
    requires sites == PinnedSites(f)
    ensures forall i, j | 0 <= i < j < |sites| :: Before(sites[i], sites[j])
  {
    PinnedFacts(f, |f.blocks|);
  }

  // --- checking it ------------------------------------------------------------------------

  method FindInstPosition(f: Func, addr: nat) returns (found: bool, s: Site)
    ensures found ==> FoundAt(f, addr, s)
    ensures !found ==> !Found(f, addr)
  {
    s := Site(0, 0);
    var bi := 0;
    while bi < |f.blocks|
      invariant 0 <= bi <= |f.blocks|
      invariant forall t | SiteIn(f, t) && t.block < bi :: InstAt(f, t).addr != addr
    {
      var pos := 0;
      while pos < |f.blocks[bi].insts|
        invariant 0 <= pos <= |f.blocks[bi].insts|
        invariant forall t | SiteIn(f, t) && Before(t, Site(bi, pos)) :: InstAt(f, t).addr != addr
      {
        if f.blocks[bi].insts[pos].addr == addr {
          return true, Site(bi, pos);
        }
        pos := pos + 1;
      }
      bi := bi + 1;
    }
    found := false;
  }

  method FindAll(f: Func, ops: seq<nat>) returns (ok: bool, sites: seq<Site>)
    ensures !ok ==> exists k | 0 <= k < |ops| :: !Found(f, ops[k])
    ensures ok ==> |sites| == |ops| && forall k | 0 <= k < |ops| :: FoundAt(f, ops[k], sites[k])
  {
    hide FoundAt, Found;
    sites := [];
    var i := 0;
    while i < |ops|
      invariant 0 <= i <= |ops| && |sites| == i
      invariant forall k | 0 <= k < i :: FoundAt(f, ops[k], sites[k])
    {
      var found, s := FindInstPosition(f, ops[i]);
      if !found {
        return false, sites;
      }
      sites := sites + [s];
      i := i + 1;
    }
    ok := true;
  }

  method CheckRow(f: Func, row: seq<bool>, sites: seq<Site>, i: nat, dom: IrDomTree) returns (ok: bool)
    requires dom.Valid(f.blocks) && i < |sites| == |row|
    ensures ok <==> forall j | 0 <= j < |sites| && row[j] :: Precedes(f.blocks, sites[i], sites[j])
  {
    hide BlockDominates;
    var j := 0;
    while j < |sites|
      invariant 0 <= j <= |sites| && dom.Valid(f.blocks)
      invariant forall k | 0 <= k < j && row[k] :: Precedes(f.blocks, sites[i], sites[k])
    {
      if row[j] {
        var still := sites[i].pos < sites[j].pos;
        if sites[i].block != sites[j].block {
          still := dom.IrDominates(sites[i].block + 1, sites[j].block + 1, f.blocks);
        }
        if !still {
          return false;
        }
      }
      j := j + 1;
    }
    ok := true;
  }

  ghost predicate RowsHold(f: Func, snap: Snapshot, sites: seq<Site>, n: nat)
    requires n <= |snap.precedes| && |sites| == |snap.ops|
    requires forall i | 0 <= i < |snap.precedes| :: |snap.precedes[i]| == |snap.ops|
    requires |snap.precedes| == |snap.ops|
  {
    forall k, j | 0 <= k < n && 0 <= j < |sites| && snap.precedes[k][j] :: Precedes(f.blocks, sites[k], sites[j])
  }

  method CheckRows(f: Func, snap: Snapshot, sites: seq<Site>) returns (ok: bool)
    requires |f.blocks| < NONE && |snap.precedes| == |snap.ops| == |sites|
    requires forall i | 0 <= i < |snap.precedes| :: |snap.precedes[i]| == |snap.ops|
    ensures ok <==> RowsHold(f, snap, sites, |snap.ops|)
  {
    hide Precedes, RowsHold;
    var dom := new IrDomTree.Build(f.blocks);
    ok := CheckRowsWith(f, snap, sites, dom);
  }

  method CheckRowsWith(f: Func, snap: Snapshot, sites: seq<Site>, dom: IrDomTree) returns (ok: bool)
    requires dom.Valid(f.blocks) && |snap.precedes| == |snap.ops| == |sites|
    requires forall i | 0 <= i < |snap.precedes| :: |snap.precedes[i]| == |snap.ops|
    ensures ok <==> RowsHold(f, snap, sites, |snap.ops|)
  {
    hide Precedes;
    var i := 0;
    while i < |snap.ops|
      invariant 0 <= i <= |snap.ops| && RowsHold(f, snap, sites, i)
    {
      ok := CheckRow(f, snap.precedes[i], sites, i, dom);
      if !ok {
        return;
      }
      i := i + 1;
    }
    ok := true;
  }

  lemma RowsAreOrder(f: Func, snap: Snapshot, sites: seq<Site>)
    requires |snap.precedes| == |snap.ops| == |sites|
    requires forall i | 0 <= i < |snap.precedes| :: |snap.precedes[i]| == |snap.ops|
    requires forall k | 0 <= k < |snap.ops| :: FoundAt(f, snap.ops[k], sites[k])
    ensures RowsHold(f, snap, sites, |snap.ops|) <==> OrderKept(f, snap)
  {
    hide Precedes, FoundAt;
    AllFoundOnce(f, snap.ops, sites);
    assert forall k | 0 <= k < |snap.ops| :: Found(f, snap.ops[k]);
  }

  method SnapshotOrderPreserved(f: Func, snap: Snapshot) returns (ok: bool)
    requires |f.blocks| < NONE && |snap.precedes| == |snap.ops|
    requires forall i | 0 <= i < |snap.precedes| :: |snap.precedes[i]| == |snap.ops|
    ensures ok <==> snap.ops == [] || OrderKept(f, snap)
  {
    hide FoundAt, RowsHold;
    if snap.ops == [] {
      return true;
    }
    var sites;
    ok, sites := FindAll(f, snap.ops);
    if ok {
      RowsAreOrder(f, snap, sites);
      ok := CheckRows(f, snap, sites);
    }
  }

  lemma AllFoundOnce(f: Func, ops: seq<nat>, sites: seq<Site>)
    requires |sites| == |ops| && forall k | 0 <= k < |ops| :: FoundAt(f, ops[k], sites[k])
    ensures forall k, s | 0 <= k < |ops| && FoundAt(f, ops[k], s) :: s == sites[k]
  {
    forall k, s | 0 <= k < |ops| && FoundAt(f, ops[k], s)
      ensures s == sites[k]
    {
      FoundOnce(f, ops[k], s, sites[k]);
    }
  }

  // The per-function check.
  method PinnedOrderMatches(f: Func, snap: Snapshot) returns (ok: bool)
    requires |f.blocks| < NONE && |snap.precedes| == |snap.ops|
    requires forall i | 0 <= i < |snap.precedes| :: |snap.precedes[i]| == |snap.ops|
    ensures ok <==> Accepted(f, snap)
  {
    if snap.ops == [] {
      return true;
    }
    var ops, sites := CollectPinned(f);
    if |sites| != |snap.ops| {
      return false;
    }
    ok := SnapshotOrderPreserved(f, snap);
  }

  // --- what acceptance means on runs ----------------------------------------------------------

  // Some earlier step of the run executed the instruction at s.
  ghost predicate Executed(f: Func, sem: Semantics, start: State, n: nat, s: Site) {
    exists m: nat :: m < n && AtSite(Run(f, sem, start, m), s)
  }

  predicate AtSite(st: State, s: Site) {
    st.Running? && st.block == s.block && st.pos == s.pos
  }

  // Every instruction the walked path lies behind has been executed.
  ghost predicate History(f: Func, sem: Semantics, start: State, n: nat, path: seq<nat>, pos: nat) {
    && |path| > 0
    && (forall k, s: Site | 0 <= k < |path| - 1 && s.block == path[k] && SiteIn(f, s) :: Executed(f, sem, start, n, s))
    && (forall s: Site | s.block == path[|path| - 1] && s.pos < pos :: Executed(f, sem, start, n, s))
  }

  lemma ExecutedLater(f: Func, sem: Semantics, start: State, n: nat, s: Site)
    requires Executed(f, sem, start, n, s)
    ensures Executed(f, sem, start, n + 1, s)
  {
  }

  lemma HistoryStays(f: Func, sem: Semantics, start: State, n: nat, path: seq<nat>)
    requires var st := Run(f, sem, start, n); st.Running? && |path| > 0 && path[|path| - 1] == st.block
    requires History(f, sem, start, n, path, Run(f, sem, start, n).pos)
    ensures History(f, sem, start, n + 1, path, Run(f, sem, start, n).pos + 1)
  {
    hide Run, Executed, SiteIn;
    var st := Run(f, sem, start, n);
    forall k, s: Site | 0 <= k < |path| - 1 && s.block == path[k] && SiteIn(f, s)
      ensures Executed(f, sem, start, n + 1, s)
    {
      ExecutedLater(f, sem, start, n, s);
    }
    forall s: Site | s.block == path[|path| - 1] && s.pos < st.pos + 1
      ensures Executed(f, sem, start, n + 1, s)
    {
      if s.pos == st.pos {
        JustExecuted(f, sem, start, n, s);
      } else {
        ExecutedLater(f, sem, start, n, s);
      }
    }
  }

  lemma JustExecuted(f: Func, sem: Semantics, start: State, n: nat, s: Site)
    requires AtSite(Run(f, sem, start, n), s)
    ensures Executed(f, sem, start, n + 1, s)
  {
  }

  // The block just left has been executed from end to end.
  lemma HistoryJumps(f: Func, sem: Semantics, start: State, n: nat, path: seq<nat>, b: nat, t: nat)
    requires |path| > 0 && path[|path| - 1] == b < |f.blocks|
    requires History(f, sem, start, n, path, |f.blocks[b].insts|)
    ensures History(f, sem, start, n, path + [t], 0)
  {
    hide Executed;
    var path' := path + [t];
    forall k, s: Site | 0 <= k < |path'| - 1 && s.block == path'[k] && SiteIn(f, s)
      ensures Executed(f, sem, start, n, s)
    {
      assert k < |path| - 1 ==> path[k] == path'[k];
    }
  }

  ghost predicate WellTerminated(f: Func) {
    forall b | 0 <= b < |f.blocks| :: TerminatorLast(f.blocks[b])
  }

  // One more step extends the path by the edge taken, if any.
  lemma StepLeavesPath(f: Func, sem: Semantics, st: State, path: seq<nat>) returns (jumps: bool)
    requires st.Running? && Step(f, sem, st).Running? && PathTo(f.blocks, path, st.block)
    ensures st.block < |f.blocks| && st.pos < |f.blocks[st.block].insts|
    ensures jumps <==> IsTerminator(f.blocks[st.block].insts[st.pos].op)
    ensures var st' := Step(f, sem, st);
            if jumps then st'.pos == 0 && PathTo(f.blocks, path + [st'.block], st'.block)
            else st'.block == st.block && st'.pos == st.pos + 1
  {
    var inst := f.blocks[st.block].insts[st.pos];
    jumps := IsTerminator(inst.op);
    if jumps {
      var st' := Step(f, sem, st);
      var k := sem.branch(st.block, st.pos, Evaluate(sem, st.env, inst.ops).values);
      assert ArcAt(f.blocks, st.block, st.pos, k, st'.block);
      ExtendPath(f.blocks, path, st.block, st'.block);
    }
  }

  // The path and history of a run, one step longer.
  lemma HistoryStep(f: Func, sem: Semantics, start: State, n: nat, front: seq<nat>) returns (path: seq<nat>)
    requires WellTerminated(f) && Run(f, sem, start, n).Running? && Run(f, sem, start, n + 1).Running?
    requires PathTo(f.blocks, front, Run(f, sem, start, n).block)
    requires History(f, sem, start, n, front, Run(f, sem, start, n).pos)
    ensures PathTo(f.blocks, path, Run(f, sem, start, n + 1).block)
    ensures History(f, sem, start, n + 1, path, Run(f, sem, start, n + 1).pos)
  {
    hide Step, History, Arc;
    var st := Run(f, sem, start, n);
    HistoryStays(f, sem, start, n, front);
    var jumps := StepLeavesPath(f, sem, st, front);
    assert TerminatorLast(f.blocks[st.block]);
    path := front;
    if jumps {
      HistoryJumps(f, sem, start, n + 1, front, st.block, Run(f, sem, start, n + 1).block);
      path := front + [Run(f, sem, start, n + 1).block];
    }
  }

  lemma HistoryStarts(f: Func, sem: Semantics, start: State)
    requires f.blocks != [] && start.Running? && start.block == 0 && start.pos == 0
    ensures PathTo(f.blocks, [0], 0) && History(f, sem, start, 0, [0], 0)
  {
  }

  // A run from the entry leaves a path behind it.
  lemma {:induction false} RunHasHistory(f: Func, sem: Semantics, start: State, n: nat) returns (path: seq<nat>)
    requires WellTerminated(f) && f.blocks != [] && start.Running? && start.block == 0 && start.pos == 0
    requires Run(f, sem, start, n).Running?
    ensures PathTo(f.blocks, path, Run(f, sem, start, n).block)
    ensures History(f, sem, start, n, path, Run(f, sem, start, n).pos)
  {
    hide Step, History, PathTo, WellTerminated;
    if n == 0 {
      HistoryStarts(f, sem, start);
      path := [0];
    } else {
      OnlyRunningGoesOn(f, sem, Run(f, sem, start, n - 1));
      var front := RunHasHistory(f, sem, start, n - 1);
      path := HistoryStep(f, sem, start, n - 1, front);
    }
  }

  lemma OnlyRunningGoesOn(f: Func, sem: Semantics, st: State)
    ensures Step(f, sem, st).Running? ==> st.Running?
  {
  }

  // On every run, whatever the snapshot says must come first has come first.
  lemma AcceptedRunsInOrder(f: Func, snap: Snapshot, sem: Semantics, start: State, n: nat, i: nat, j: nat, s: Site, t: Site)
    requires OrderKept(f, snap) && WellTerminated(f) && f.blocks != []
    requires start.Running? && start.block == 0 && start.pos == 0
    requires i < |snap.ops| && j < |snap.ops| && i < |snap.precedes| && j < |snap.precedes[i]| && snap.precedes[i][j]
    requires FoundAt(f, snap.ops[i], s) && FoundAt(f, snap.ops[j], t)
    requires AtSite(Run(f, sem, start, n), t)
    ensures Executed(f, sem, start, n, s)
  {
    assert Precedes(f.blocks, s, t);
    var path := RunHasHistory(f, sem, start, n);
    if s.block == t.block {
      assert path[|path| - 1] == t.block;
    } else {
      assert s.block in path;
      var k :| 0 <= k < |path| && path[k] == s.block;
    }
  }

  // --- an unchanged function passes -----------------------------------------------------------

  ghost predicate UniqueAddrs(f: Func) {
    forall s, t | SiteIn(f, s) && SiteIn(f, t) && InstAt(f, s).addr == InstAt(f, t).addr :: s == t
  }

  lemma FoundUnique(f: Func, s: Site)
    requires UniqueAddrs(f) && SiteIn(f, s)
    ensures FoundAt(f, InstAt(f, s).addr, s)
  {
  }

  lemma UnchangedAccepted(f: Func, snap: Snapshot)
    requires UniqueAddrs(f) && IsSnapshot(f, snap)
    ensures Accepted(f, snap)
  {
    hide PinnedSites, Precedes, FoundAt;
    var sites := PinnedSites(f);
    forall i | 0 <= i < |snap.ops|
      ensures FoundAt(f, snap.ops[i], sites[i]) && Found(f, snap.ops[i])
    {
      FoundUnique(f, sites[i]);
    }
    forall i, j, s, t | 0 <= i < |snap.ops| && 0 <= j < |snap.ops| && i < |snap.precedes| && j < |snap.precedes[i]|
        && snap.precedes[i][j] && FoundAt(f, snap.ops[i], s) && FoundAt(f, snap.ops[j], t)
      ensures Precedes(f.blocks, s, t)
    {
      FoundOnce(f, snap.ops[i], s, sites[i]);
      FoundOnce(f, snap.ops[j], t, sites[j]);
    }
  }
}
