/** When the pinned-order check composes. Accepting each pass against a snapshot
    taken just before it does not, by itself, mean that the first snapshot still
    holds at the end: the check looks snapshotted operations up by identity and
    compares how many operations are pinned, but never asks whether the ones it
    found still are. */
module PinnedCompose {
  import opened Ir
  import opened Cfg
  import opened Dominators
  import opened Verifier
  import opened Pinned

  // No snapshotted operation has lost its flags.
  ghost predicate StillPinned(f: Func, snap: Snapshot) {
    forall i, s | 0 <= i < |snap.ops| && FoundAt(f, snap.ops[i], s) :: IsPinned(InstAt(f, s))
  }

  lemma SnapshotIndex(f: Func, snap: Snapshot, s: Site) returns (k: nat)
    requires IsSnapshot(f, snap) && SiteIn(f, s) && IsPinned(InstAt(f, s))
    ensures k < |snap.ops| && snap.ops[k] == InstAt(f, s).addr && k < |PinnedSites(f)| && PinnedSites(f)[k] == s
  {
    PinnedFacts(f, |f.blocks|);
    assert s in PinnedSites(f);
    k :| 0 <= k < |PinnedSites(f)| && PinnedSites(f)[k] == s;
  }

  lemma ComposesFrom(f1: Func, f2: Func, snap0: Snapshot, snap1: Snapshot, i: nat, j: nat, s2: Site, t2: Site)
    requires IsSnapshot(f1, snap1) && OrderKept(f1, snap0) && OrderKept(f2, snap1) && StillPinned(f1, snap0)
    requires i < |snap0.ops| && j < |snap0.ops| && i < |snap0.precedes| && j < |snap0.precedes[i]| && snap0.precedes[i][j]
    requires FoundAt(f2, snap0.ops[i], s2) && FoundAt(f2, snap0.ops[j], t2)
    ensures Precedes(f2.blocks, s2, t2)
  {
    hide PinnedSites, BlockDominates;
    var s1 :| FoundAt(f1, snap0.ops[i], s1);
    var t1 :| FoundAt(f1, snap0.ops[j], t1);
    assert Precedes(f1.blocks, s1, t1);
    assert s1 != t1 by {
      NotBeforeItself(f1.blocks, s1);
    }
    var k := SnapshotIndex(f1, snap1, s1);
    var l := SnapshotIndex(f1, snap1, t1);
    assert snap1.precedes[k][l];
  }

  lemma NotBeforeItself(g: Graph, s: Site)
    ensures !Precedes(g, s, s)
  {
  }

  // Given that, two accepted passes are one accepted pass.
  lemma AcceptanceComposes(f1: Func, f2: Func, snap0: Snapshot, snap1: Snapshot)
    requires IsSnapshot(f1, snap1) && StillPinned(f1, snap0)
    requires Accepted(f1, snap0) && Accepted(f2, snap1)
    ensures Accepted(f2, snap0)
  {
    hide PinnedSites, Precedes, FoundAt;
    if snap0.ops != [] {
      forall i | 0 <= i < |snap0.ops|
        ensures Found(f2, snap0.ops[i])
      {
        assert Found(f1, snap0.ops[i]);
        var s :| FoundAt(f1, snap0.ops[i], s);
        FoundIsThere(f1, snap0.ops[i], s);
        var k := SnapshotIndex(f1, snap1, s);
      }
      forall i, j, s, t | 0 <= i < |snap0.ops| && 0 <= j < |snap0.ops| && i < |snap0.precedes| && j < |snap0.precedes[i]|
          && snap0.precedes[i][j] && FoundAt(f2, snap0.ops[i], s) && FoundAt(f2, snap0.ops[j], t)
        ensures Precedes(f2.blocks, s, t)
      {
        ComposesFrom(f1, f2, snap0, snap1, i, j, s, t);
      }
    }
  }

  // What stayed pinned through one pass and then through the next stayed pinned.
  lemma StillPinnedCarries(f1: Func, f2: Func, snap0: Snapshot, snap1: Snapshot)
    requires IsSnapshot(f1, snap1) && Accepted(f1, snap0) && StillPinned(f1, snap0) && StillPinned(f2, snap1)
    ensures StillPinned(f2, snap0)
  {
    hide PinnedSites, Precedes;
    forall i, s | 0 <= i < |snap0.ops| && FoundAt(f2, snap0.ops[i], s)
      ensures IsPinned(InstAt(f2, s))
    {
      assert Found(f1, snap0.ops[i]);
      var s1 :| FoundAt(f1, snap0.ops[i], s1);
      FoundIsThere(f1, snap0.ops[i], s1);
      var k := SnapshotIndex(f1, snap1, s1);
    }
  }

  // Any number of passes: fs[k + 1] is what pass k made of fs[k], accepted
  // against the snapshot taken just before it, with nothing losing its pin.
  ghost predicate Passes(fs: seq<Func>, snaps: seq<Snapshot>) {
    && |fs| == |snaps| + 1
    && forall k: nat | k < |snaps| ::
         IsSnapshot(fs[k], snaps[k]) && Accepted(fs[k + 1], snaps[k]) && StillPinned(fs[k + 1], snaps[k])
  }

  // Then every later function still keeps the first snapshot.
  lemma {:induction false} AcceptanceChains(fs: seq<Func>, snaps: seq<Snapshot>, n: nat)
    requires Passes(fs, snaps) && 0 < n <= |snaps|
    ensures Accepted(fs[n], snaps[0]) && StillPinned(fs[n], snaps[0])
  {
    hide IsSnapshot, Accepted, StillPinned;
    if n > 1 {
      AcceptanceChains(fs, snaps, n - 1);
      AcceptanceComposes(fs[n - 1], fs[n], snaps[0], snaps[n - 1]);
      StillPinnedCarries(fs[n - 1], fs[n], snaps[0], snaps[n - 1]);
    }
  }

  lemma FoundIsThere(f: Func, addr: nat, s: Site)
    requires FoundAt(f, addr, s)
    ensures SiteIn(f, s) && InstAt(f, s).addr == addr
  {
  }

  // --- and only then ----------------------------------------------------------------

  // The same function with one instruction replaced by a new object.
  function Replaced(f: Func, s: Site, addr: nat): Func
    requires SiteIn(f, s)
  {
    var block := f.blocks[s.block];
    f.(blocks := f.blocks[s.block := block.(insts := block.insts[s.pos := block.insts[s.pos].(addr := addr)])])
  }

  lemma ReplacedSites(f: Func, s: Site, addr: nat)
    requires SiteIn(f, s)
    ensures forall t :: SiteIn(Replaced(f, s, addr), t) <==> SiteIn(f, t)
    ensures forall t | SiteIn(f, t) ::
              InstAt(Replaced(f, s, addr), t) == if t == s then InstAt(f, s).(addr := addr) else InstAt(f, t)
  {
  }

  lemma ReplacedArcs(f: Func, s: Site, addr: nat)
    requires SiteIn(f, s)
    ensures forall a: nat, b: nat :: Arc(Replaced(f, s, addr).blocks, a, b) <==> Arc(f.blocks, a, b)
  {
    var g, h := f.blocks, Replaced(f, s, addr).blocks;
    forall a: nat, i: nat, e: nat, b: nat
      ensures ArcAt(h, a, i, e, b) <==> ArcAt(g, a, i, e, b)
    {
    }
    forall a: nat, b: nat
      ensures Arc(h, a, b) <==> Arc(g, a, b)
    {
      if Arc(g, a, b) {
        var i: nat, e: nat :| ArcAt(g, a, i, e, b);
        assert ArcAt(h, a, i, e, b);
      }
      if Arc(h, a, b) {
        var i: nat, e: nat :| ArcAt(h, a, i, e, b);
        assert ArcAt(g, a, i, e, b);
      }
    }
  }

  lemma SameArcsSameDominance(g: Graph, h: Graph, a: nat, b: nat)
    requires |g| == |h| && forall x: nat, y: nat :: Arc(g, x, y) <==> Arc(h, x, y)
    ensures BlockDominates(g, a, b) ==> BlockDominates(h, a, b)
  {
    hide Arc;
    forall p: seq<nat>, c: nat
      ensures PathTo(g, p, c) <==> PathTo(h, p, c)
    {
    }
    if BlockDominates(g, a, b) && a != b {
      var p :| PathTo(g, p, b - 1);
      assert PathTo(h, p, b - 1);
    }
  }

  lemma ReplacedPrecedes(f: Func, s: Site, addr: nat, t: Site, u: Site)
    requires SiteIn(f, s) && Precedes(f.blocks, t, u)
    ensures Precedes(Replaced(f, s, addr).blocks, t, u)
  {
    hide Arc, BlockDominates;
    ReplacedArcs(f, s, addr);
    SameArcsSameDominance(f.blocks, Replaced(f, s, addr).blocks, t.block + 1, u.block + 1);
  }

  lemma {:induction false} ReplacedPinnedIn(f: Func, s: Site, addr: nat, b: nat, n: nat)
    requires SiteIn(f, s) && b < |f.blocks| && n <= |f.blocks[b].insts|
    ensures PinnedIn(Replaced(f, s, addr), b, n) == PinnedIn(f, b, n)
  {
    if n > 0 {
      ReplacedPinnedIn(f, s, addr, b, n - 1);
    }
  }

  lemma {:induction false} ReplacedPinned(f: Func, s: Site, addr: nat, b: nat)
    requires SiteIn(f, s) && b <= |f.blocks|
    ensures PinnedBefore(Replaced(f, s, addr), b) == PinnedBefore(f, b)
  {
    if b > 0 {
      ReplacedPinned(f, s, addr, b - 1);
      ReplacedPinnedIn(f, s, addr, b - 1, |f.blocks[b - 1].insts|);
    }
  }

  ghost predicate FreshAddr(f: Func, snap: Snapshot, addr: nat) {
    addr !in snap.ops && forall t | SiteIn(f, t) :: InstAt(f, t).addr != addr
  }

  // Other operations are found where they were.
  lemma ReplacedFinds(f: Func, s: Site, addr: nat, op: nat, t: Site)
    requires SiteIn(f, s) && addr != op && InstAt(f, s).addr != op
    ensures FoundAt(Replaced(f, s, addr), op, t) <==> FoundAt(f, op, t)
  {
    ReplacedSites(f, s, addr);
  }

  lemma ReplacedAccepted(f: Func, snap: Snapshot, s: Site, addr: nat)
    requires UniqueAddrs(f) && IsSnapshot(f, snap) && FreshAddr(f, snap, addr) && SiteIn(f, s) && !IsPinned(InstAt(f, s))
    ensures Accepted(Replaced(f, s, addr), snap)
  {
    hide PinnedSites, Precedes, FoundAt;
    var h, sites := Replaced(f, s, addr), PinnedSites(f);
    ReplacedCount(f, s, addr);
    forall i | 0 <= i < |sites|
      ensures FoundAt(f, snap.ops[i], sites[i]) && FoundAt(h, snap.ops[i], sites[i]) && Found(h, snap.ops[i])
    {
      FoundUnique(f, sites[i]);
      SitesArePinned(f, i);
      assert sites[i] != s;
      assert InstAt(f, s).addr != snap.ops[i];
      assert snap.ops[i] in snap.ops;
      ReplacedFinds(f, s, addr, snap.ops[i], sites[i]);
    }
    forall i, j, t, u | 0 <= i < |snap.ops| && 0 <= j < |snap.ops| && i < |snap.precedes| && j < |snap.precedes[i]|
        && snap.precedes[i][j] && FoundAt(h, snap.ops[i], t) && FoundAt(h, snap.ops[j], u)
      ensures Precedes(h.blocks, t, u)
    {
      FoundOnce(h, snap.ops[i], t, sites[i]);
      FoundOnce(h, snap.ops[j], u, sites[j]);
      ReplacedPrecedes(f, s, addr, t, u);
    }
  }

  lemma ReplacedCount(f: Func, s: Site, addr: nat)
    requires SiteIn(f, s)
    ensures |PinnedSites(Replaced(f, s, addr))| == |PinnedSites(f)|
  {
    ReplacedPinned(f, s, addr, |f.blocks|);
  }

  lemma SitesArePinned(f: Func, i: nat)
    requires i < |PinnedSites(f)|
    ensures var s := PinnedSites(f)[i]; SiteIn(f, s) && IsPinned(InstAt(f, s))
  {
    PinnedFacts(f, |f.blocks|);
    assert PinnedSites(f)[i] in PinnedSites(f);
  }

  lemma FreshAddrExists(f: Func, snap: Snapshot) returns (addr: nat)
    ensures FreshAddr(f, snap, addr)
  {
    addr := 1 + MaxOf(snap.ops) + MaxAddr(f, |f.blocks|);
    forall op | op in snap.ops
      ensures op < addr
    {
      MaxOfBounds(snap.ops, op);
    }
    forall t | SiteIn(f, t)
      ensures InstAt(f, t).addr < addr
    {
      MaxAddrBounds(f, |f.blocks|, t);
    }
  }

  function MaxOf(s: seq<nat>): nat {
    if s == [] then 0 else s[0] + MaxOf(s[1..])
  }

  lemma {:induction false} MaxOfBounds(s: seq<nat>, x: nat)
    requires x in s
    ensures x <= MaxOf(s)
  {
    if x != s[0] {
      MaxOfBounds(s[1..], x);
    }
  }

  function MaxAddr(f: Func, b: nat): nat
    requires b <= |f.blocks|
  {
    if b == 0 then 0
    else MaxAddr(f, b - 1) + MaxOf(seq(|f.blocks[b - 1].insts|, i requires 0 <= i < |f.blocks[b - 1].insts| => f.blocks[b - 1].insts[i].addr))
  }

  lemma {:induction false} MaxAddrBounds(f: Func, b: nat, t: Site)
    requires b <= |f.blocks| && SiteIn(f, t) && t.block < b
    ensures InstAt(f, t).addr <= MaxAddr(f, b)
  {
    if t.block == b - 1 {
      var addrs := seq(|f.blocks[b - 1].insts|, i requires 0 <= i < |f.blocks[b - 1].insts| => f.blocks[b - 1].insts[i].addr);
      assert addrs[t.pos] in addrs;
      MaxOfBounds(addrs, addrs[t.pos]);
    } else {
      MaxAddrBounds(f, b - 1, t);
    }
  }

  // The exact condition: accepting every next pass keeps the first snapshot if
  // and only if this pass left every snapshotted operation pinned.
  lemma ComposesExactlyWhenStillPinned(f1: Func, snap0: Snapshot, snap1: Snapshot)
    requires UniqueAddrs(f1) && IsSnapshot(f1, snap1) && Accepted(f1, snap0)
    ensures StillPinned(f1, snap0) <==> forall f2 | Accepted(f2, snap1) :: Accepted(f2, snap0)
  {
    hide IsSnapshot, Accepted;
    forall f2 | StillPinned(f1, snap0) && Accepted(f2, snap1)
      ensures Accepted(f2, snap0)
    {
      AcceptanceComposes(f1, f2, snap0, snap1);
    }
    if !StillPinned(f1, snap0) {
      var i, s :| 0 <= i < |snap0.ops| && FoundAt(f1, snap0.ops[i], s) && !IsPinned(InstAt(f1, s));
      var f2 := LosesOperation(f1, snap0, snap1, i, s);
    }
  }

  lemma LosesOperation(f1: Func, snap0: Snapshot, snap1: Snapshot, i: nat, s: Site) returns (f2: Func)
    requires UniqueAddrs(f1) && IsSnapshot(f1, snap1)
    requires i < |snap0.ops| && FoundAt(f1, snap0.ops[i], s) && !IsPinned(InstAt(f1, s))
    ensures Accepted(f2, snap1) && !Accepted(f2, snap0)
  {
    var op := snap0.ops[i];
    var addr := FreshAddrExists(f1, Snapshot(snap0.ops + snap1.ops, []));
    assert forall x | x in snap1.ops :: x in snap0.ops + snap1.ops;
    assert snap0.ops[i] in snap0.ops + snap1.ops;
    f2 := Replaced(f1, s, addr);
    ReplacedAccepted(f1, snap1, s, addr);
    ReplacedSites(f1, s, addr);
    forall t | SiteIn(f2, t)
      ensures InstAt(f2, t).addr != op
    {
    }
    assert !Found(f2, op);
  }

  // --- a concrete case ------------------------------------------------------------------

  const IR_STORE: nat := 33
  const TYPE_PTR: nat := 8
  const TYPE_VOID: nat := 15
  const ETYPE_I32: nat := 4
  const ETYPE_COUNT: nat := 13

  // Checks 4 and 7 to 9 on an integer store and on the return of a void
  // function, in a module of nsyms symbols. A store keeps its alignment in callee.
  predicate StorePasses(inst: Inst, nsyms: nat) {
    && |inst.ops| == 2 && inst.subop < ETYPE_COUNT && inst.ops[0].ty < 4 && inst.ops[1].ty == TYPE_PTR
    && inst.flags <= FLAG_VOLATILE + FLAG_SEQ_CST
    && (var natural := [1, 2, 4, 8][inst.ops[0].ty];
        inst.callee in {1, 2, 4, 8} && inst.callee <= natural && (inst.flags >= FLAG_SEQ_CST ==> inst.callee == natural))
    && forall o | o in inst.ops && o.kind == OpSymbol :: o.sym < nsyms
  }

  predicate InstPasses(f: Func, nsyms: nat, b: nat, pos: nat) {
    && b < |f.blocks| && pos < |f.blocks[b].insts|
    && var inst := f.blocks[b].insts[pos];
       if inst.op == IR_STORE then StorePasses(inst, nsyms) else inst.op == IR_RET && inst.ops == [] && inst.flags == 0
  }

  // Storing 0 to the module's one symbol.
  function StoreZero(addr: nat, flags: nat): Inst {
    Inst(addr, IR_STORE, TYPE_VOID, ETYPE_I32, flags, 0, 4,
         [Operand(OpIconst, TYPE_I32, 0, 0, 0, 0), Operand(OpSymbol, TYPE_PTR, 0, 0, 0, 0)], [])
  }

  function Stores(insts: seq<Inst>): Func {
    Func([], [Block("entry", [], insts + [Inst(0, IR_RET, TYPE_VOID, 0, 0, 0, 0, [], [])])], [])
  }

  function ChecksOf(f: Func): (nat, nat) -> bool {
    (b: nat, pos: nat) => InstPasses(f, 1, b, pos)
  }

  ghost predicate Verified(f: Func) {
    Accepts(f, ChecksOf(f))
  }

  lemma StoresVerified(insts: seq<Inst>)
    requires forall inst | inst in insts :: inst.op == IR_STORE && StorePasses(inst, 1) && inst.edges == []
    requires forall inst, o | inst in insts && o in inst.ops :: o.kind != OpValue
    ensures Verified(Stores(insts))
  {
    var f := Stores(insts);
    var block := f.blocks[0].insts;
    EntryReachable(f.blocks);
    forall k | 0 <= k < |insts|
      ensures block[k] in insts
    {
      assert block[k] == insts[k];
    }
    forall k | 0 <= k < |block|
      ensures block[k].edges == []
    {
    }
    assert TerminatorLast(f.blocks[0]);
    forall pos: nat | pos < |block|
      ensures InstOk(f, ChecksOf(f), 0, pos)
    {
      assert block[pos].op < IR_VA_ARG;
    }
    assert BlockOk(f, ChecksOf(f), 0);
  }

  // A block of stores of which the last alone is pinned.
  lemma OnePinned(front: seq<Inst>, last: Inst)
    requires |front| <= 1 && (forall inst | inst in front :: inst.flags == 0) && last.flags == FLAG_VOLATILE
    ensures PinnedSites(Stores(front + [last])) == [Site(0, |front|)]
  {
    var f, n := Stores(front + [last]), |front|;
    assert PinnedIn(f, 0, n) == [] by {
      if n == 1 {
        assert f.blocks[0].insts[0] == front[0];
        assert PinnedIn(f, 0, 1) == PinnedIn(f, 0, 0) + [];
      }
    }
    assert f.blocks[0].insts[n] == last;
    assert PinnedIn(f, 0, n + 1) == PinnedIn(f, 0, n) + [Site(0, n)];
    assert PinnedIn(f, 0, n + 2) == PinnedIn(f, 0, n + 1) + [];
    assert PinnedBefore(f, 1) == PinnedBefore(f, 0) + PinnedIn(f, 0, n + 2);
  }

  // One pass drops the flag of the one volatile store and adds another; the
  // next deletes the first. Each is accepted, and verified; together they lose
  // an operation that the first snapshot lists.
  lemma LostPinIsAccepted()
    ensures var f0, f1 := Stores([StoreZero(1, FLAG_VOLATILE)]), Stores([StoreZero(1, 0), StoreZero(2, FLAG_VOLATILE)]);
            var f2, snap0, snap1 := Stores([StoreZero(2, FLAG_VOLATILE)]), Snapshot([1], [[false]]), Snapshot([2], [[false]]);
            && Verified(f0) && Verified(f1) && Verified(f2) && IsSnapshot(f0, snap0) && IsSnapshot(f1, snap1)
            && Accepted(f1, snap0) && Accepted(f2, snap1) && !Accepted(f2, snap0)
  {
    var a, b, c := StoreZero(1, FLAG_VOLATILE), StoreZero(1, 0), StoreZero(2, FLAG_VOLATILE);
    VerifiedExamples(a, b, c);
    OnePinned([], a);
    OnePinned([b], c);
    OnePinned([], c);
    assert [b] + [c] == [b, c] && [] + [a] == [a] && [] + [c] == [c];
    hide Accepts, PinnedSites, Verified;
    var f1, f2 := Stores([b, c]), Stores([c]);
    assert FoundAt(f1, 1, Site(0, 0)) && FoundAt(f2, 2, Site(0, 0));
    assert Found(f1, 1) && Found(f2, 2);
    assert !Found(f2, 1);
    assert Snapshot([1], [[false]]).ops[0] == 1;
  }

  lemma VerifiedExamples(a: Inst, b: Inst, c: Inst)
    requires a == StoreZero(1, FLAG_VOLATILE) && b == StoreZero(1, 0) && c == StoreZero(2, FLAG_VOLATILE)
    ensures Verified(Stores([a])) && Verified(Stores([b, c])) && Verified(Stores([c]))
  {
    hide Verified;
    StoresVerified([a]);
    StoresVerified([b, c]);
    StoresVerified([c]);
  }
}
