/** The pinned-order check on a whole module: functions are matched with snapshot
    rows by name, whether a pass may remove functions is its policy, and a function
    without a row must have nothing pinned. */
module PinnedModule {
  import opened Ir
  import opened Pinned
  import opened PinnedCompose

  datatype Named = Named(name: string, func: Func)
  datatype Row = Row(name: string, snap: Snapshot)

  predicate Buildable(funcs: seq<Named>) {
    forall i | 0 <= i < |funcs| :: |funcs[i].func.blocks| < NONE
  }

  predicate Square(rows: seq<Row>) {
    forall i | 0 <= i < |rows| ::
      |rows[i].snap.precedes| == |rows[i].snap.ops| && forall j | 0 <= j < |rows[i].snap.ops| :: |rows[i].snap.precedes[j]| == |rows[i].snap.ops|
  }

  // The first function of that name, or past the end.
  function FindFunc(funcs: seq<Named>, name: string): (i: nat)
    ensures i <= |funcs| && (forall k | 0 <= k < i :: funcs[k].name != name) && (i < |funcs| ==> funcs[i].name == name)
  {
    if funcs == [] || funcs[0].name == name then 0 else 1 + FindFunc(funcs[1..], name)
  }

  // --- the check, as a statement -------------------------------------------------------------

  ghost predicate RowAccepted(funcs: seq<Named>, row: Row, mayRemove: bool) {
    var i := FindFunc(funcs, row.name);
    row.snap.ops == [] || (if i == |funcs| then mayRemove else Accepted(funcs[i].func, row.snap))
  }

  predicate HasRow(rows: seq<Row>, name: string) {
    exists r :: 0 <= r < |rows| && rows[r].name == name
  }

  ghost predicate ModuleAccepted(funcs: seq<Named>, rows: seq<Row>, mayRemove: bool) {
    && (forall r | 0 <= r < |rows| :: RowAccepted(funcs, rows[r], mayRemove))
    && forall i | 0 <= i < |funcs| && PinnedSites(funcs[i].func) != [] :: HasRow(rows, funcs[i].name)
  }

  ghost predicate IsModuleSnapshot(funcs: seq<Named>, rows: seq<Row>) {
    |rows| == |funcs| && forall i | 0 <= i < |funcs| :: rows[i].name == funcs[i].name && IsSnapshot(funcs[i].func, rows[i].snap)
  }

  ghost predicate UniqueNames(funcs: seq<Named>) {
    forall i, j | 0 <= i < j < |funcs| :: funcs[i].name != funcs[j].name
  }

  // --- the methods ---------------------------------------------------------------------------

  method IrSnapshotModule(funcs: seq<Named>) returns (rows: seq<Row>)
    requires Buildable(funcs)
    ensures IsModuleSnapshot(funcs, rows)
  {
    hide IsSnapshot;
    rows := [];
    var fi := 0;
    while fi < |funcs|
      invariant 0 <= fi <= |funcs| && |rows| == fi
      invariant forall i | 0 <= i < fi :: rows[i].name == funcs[i].name && IsSnapshot(funcs[i].func, rows[i].snap)
    {
      var snap := IrSnapshotVolatileOrder(funcs[fi].func);
      rows := rows + [Row(funcs[fi].name, snap)];
      fi := fi + 1;
    }
  }

  method FindFuncNamed(funcs: seq<Named>, name: string) returns (fi: nat)
    ensures fi == FindFunc(funcs, name)
  {
    fi := 0;
    while fi < |funcs| && funcs[fi].name != name
      invariant fi <= |funcs| && forall k | 0 <= k < fi :: funcs[k].name != name
    {
      fi := fi + 1;
    }
  }

  method FindSnapshot(rows: seq<Row>, name: string) returns (found: bool)
    ensures found <==> HasRow(rows, name)
  {
    var si := 0;
    while si < |rows|
      invariant 0 <= si <= |rows| && forall r | 0 <= r < si :: rows[r].name != name
    {
      if rows[si].name == name {
        return true;
      }
      si := si + 1;
    }
    return false;
  }

  // Which function to blame: one whose row rejects it, one with something pinned
  // and no row, or none because a function is gone.
  ghost predicate Blamed(funcs: seq<Named>, rows: seq<Row>, mayRemove: bool, bad: nat) {
    if bad < |funcs| then
      || (exists r :: 0 <= r < |rows| && FindFunc(funcs, rows[r].name) == bad && !RowAccepted(funcs, rows[r], mayRemove))
      || (PinnedSites(funcs[bad].func) != [] && !HasRow(rows, funcs[bad].name))
    else bad == |funcs| && exists r :: 0 <= r < |rows| && FindFunc(funcs, rows[r].name) == |funcs| && !RowAccepted(funcs, rows[r], mayRemove)
  }

  method PinnedModuleMatches(funcs: seq<Named>, rows: seq<Row>, mayRemove: bool) returns (ok: bool, bad: nat)
    requires Buildable(funcs) && Square(rows)
    ensures ok <==> ModuleAccepted(funcs, rows, mayRemove)
    ensures !ok ==> Blamed(funcs, rows, mayRemove, bad)
  {
    hide Accepted, PinnedSites, HasRow;
    bad := 0;
    var si := 0;
    while si < |rows|
      invariant 0 <= si <= |rows| && forall r | 0 <= r < si :: RowAccepted(funcs, rows[r], mayRemove)
    {
      if rows[si].snap.ops != [] {
        var fi := FindFuncNamed(funcs, rows[si].name);
        if fi == |funcs| {
          if !mayRemove {
            assert !RowAccepted(funcs, rows[si], mayRemove);
            return false, fi;
          }
        } else {
          var kept := PinnedOrderMatches(funcs[fi].func, rows[si].snap);
          if !kept {
            assert !RowAccepted(funcs, rows[si], mayRemove);
            return false, fi;
          }
        }
      }
      si := si + 1;
    }
    var fi := 0;
    while fi < |funcs|
      invariant 0 <= fi <= |funcs|
      invariant forall i | 0 <= i < fi && PinnedSites(funcs[i].func) != [] :: HasRow(rows, funcs[i].name)
    {
      var ops, sites := CollectPinned(funcs[fi].func);
      if sites != [] {
        var found := FindSnapshot(rows, funcs[fi].name);
        if !found {
          return false, fi;
        }
      }
      fi := fi + 1;
    }
    return true, 0;
  }

  // --- what acceptance means --------------------------------------------------------------------

  lemma FoundUnderName(funcs: seq<Named>, i: nat)
    requires UniqueNames(funcs) && i < |funcs|
    ensures FindFunc(funcs, funcs[i].name) == i
  {
    var k := FindFunc(funcs, funcs[i].name);
  }

  // A module that has not changed is accepted under either policy.
  lemma UnchangedModuleAccepted(funcs: seq<Named>, rows: seq<Row>, mayRemove: bool)
    requires UniqueNames(funcs) && IsModuleSnapshot(funcs, rows) && forall i | 0 <= i < |funcs| :: UniqueAddrs(funcs[i].func)
    ensures ModuleAccepted(funcs, rows, mayRemove)
  {
    hide IsSnapshot, Accepted, PinnedSites, UniqueAddrs;
    forall r | 0 <= r < |rows|
      ensures RowAccepted(funcs, rows[r], mayRemove)
    {
      FoundUnderName(funcs, r);
      UnchangedAccepted(funcs[r].func, rows[r].snap);
    }
  }

  // No pass may introduce or remove a pinned operation: each row's function is
  // there with as many, and nothing is pinned elsewhere.
  ghost predicate CountsKept(funcs: seq<Named>, rows: seq<Row>) {
    && (forall r | 0 <= r < |rows| && (rows[r].snap.ops != [] || FindFunc(funcs, rows[r].name) < |funcs|) ::
          var i := FindFunc(funcs, rows[r].name); i < |funcs| && |PinnedSites(funcs[i].func)| == |rows[r].snap.ops|)
    && forall i | 0 <= i < |funcs| && PinnedSites(funcs[i].func) != [] :: HasRow(rows, funcs[i].name)
  }

  // A function with nothing pinned in its row now has something.
  ghost predicate GainsPin(funcs: seq<Named>, row: Row) {
    var i := FindFunc(funcs, row.name);
    row.snap.ops == [] && i < |funcs| && PinnedSites(funcs[i].func) != []
  }

  // Acceptance keeps the counts exactly when no function gains its first one: the
  // check passes over rows in which nothing was pinned.
  lemma CountsKeptExactly(funcs: seq<Named>, rows: seq<Row>)
    requires ModuleAccepted(funcs, rows, false)
    ensures CountsKept(funcs, rows) <==> forall r | 0 <= r < |rows| :: !GainsPin(funcs, rows[r])
  {
    hide PinnedSites, OrderKept, HasRow;
    forall r | 0 <= r < |rows| && rows[r].snap.ops != []
      ensures var i := FindFunc(funcs, rows[r].name); i < |funcs| && |PinnedSites(funcs[i].func)| == |rows[r].snap.ops|
    {
      assert RowAccepted(funcs, rows[r], false);
    }
    if !CountsKept(funcs, rows) {
      var r :| 0 <= r < |rows| && rows[r].snap.ops == [] && FindFunc(funcs, rows[r].name) < |funcs|
               && |PinnedSites(funcs[FindFunc(funcs, rows[r].name)].func)| != 0;
      assert GainsPin(funcs, rows[r]);
    }
  }

  // --- the next pass --------------------------------------------------------------------------

  // Nothing the rows list has lost its pin.
  ghost predicate PinsHeld(later: seq<Named>, rows: seq<Row>) {
    forall r | 0 <= r < |rows| && FindFunc(later, rows[r].name) < |later| ::
      StillPinned(later[FindFunc(later, rows[r].name)].func, rows[r].snap)
  }

  predicate AllListed(funcs: seq<Named>, rows: seq<Row>) {
    forall i | 0 <= i < |funcs| :: HasRow(rows, funcs[i].name)
  }

  ghost predicate RowsAccepted(funcs: seq<Named>, rows: seq<Row>, mayRemove: bool) {
    forall r | 0 <= r < |rows| :: RowAccepted(funcs, rows[r], mayRemove)
  }

  lemma SnapshotCounts(f: Func, snap: Snapshot)
    requires IsSnapshot(f, snap)
    ensures |PinnedSites(f)| == |snap.ops|
  {
  }

  // What one row asks of a function carries through a further pass.
  lemma RowCarries(middle: seq<Named>, later: seq<Named>, row: Row, rows1: seq<Row>, mayRemove: bool)
    requires UniqueNames(middle) && IsModuleSnapshot(middle, rows1) && RowsAccepted(later, rows1, mayRemove)
    requires row.snap.ops != [] && FindFunc(middle, row.name) < |middle|
    requires Accepted(middle[FindFunc(middle, row.name)].func, row.snap) && StillPinned(middle[FindFunc(middle, row.name)].func, row.snap)
    ensures RowAccepted(later, row, mayRemove)
    ensures var j := FindFunc(later, row.name); j < |later| ==> Accepted(later[j].func, row.snap)
    ensures var j := FindFunc(later, row.name);
            j < |later| && PinsHeld(later, rows1) ==> StillPinned(later[j].func, row.snap)
  {
    hide PinnedSites, OrderKept, StillPinned, IsSnapshot;
    var i, j := FindFunc(middle, row.name), FindFunc(later, row.name);
    assert RowAccepted(later, rows1[i], mayRemove);
    SnapshotCounts(middle[i].func, rows1[i].snap);
    if j < |later| {
      AcceptanceComposes(middle[i].func, later[j].func, row.snap, rows1[i].snap);
      if PinsHeld(later, rows1) {
        StillPinnedCarries(middle[i].func, later[j].func, row.snap, rows1[i].snap);
      }
    }
  }

  // The exact condition for two passes under the policy that removes nothing:
  // every module the next check accepts keeps the first snapshot if and only if
  // the first pass took no pin and added no function.
  lemma ModuleComposesExactly(middle: seq<Named>, rows0: seq<Row>, rows1: seq<Row>)
    requires UniqueNames(middle) && IsModuleSnapshot(middle, rows1) && ModuleAccepted(middle, rows0, false)
    requires forall i | 0 <= i < |middle| :: UniqueAddrs(middle[i].func)
    ensures PinsHeld(middle, rows0) && AllListed(middle, rows0) <==>
              forall later | UniqueNames(later) && ModuleAccepted(later, rows1, false) :: ModuleAccepted(later, rows0, false)
  {
    hide ModuleAccepted, PinsHeld, AllListed, IsModuleSnapshot, UniqueNames, UniqueAddrs;
    if PinsHeld(middle, rows0) && AllListed(middle, rows0) {
      forall later | UniqueNames(later) && ModuleAccepted(later, rows1, false)
        ensures ModuleAccepted(later, rows0, false)
      {
        NextComposes(middle, later, rows0, rows1);
      }
    } else if !AllListed(middle, rows0) {
      var later := GainsUnlisted(middle, rows0, rows1);
    } else {
      var later := LosesPin(middle, rows0, rows1);
    }
  }

  lemma NextComposes(middle: seq<Named>, later: seq<Named>, rows0: seq<Row>, rows1: seq<Row>)
    requires UniqueNames(middle) && IsModuleSnapshot(middle, rows1) && ModuleAccepted(middle, rows0, false)
    requires PinsHeld(middle, rows0) && AllListed(middle, rows0) && ModuleAccepted(later, rows1, false)
    ensures ModuleAccepted(later, rows0, false)
  {
    hide PinnedSites, OrderKept, StillPinned, IsSnapshot;
    forall r | 0 <= r < |rows0|
      ensures RowAccepted(later, rows0[r], false)
    {
      if rows0[r].snap.ops != [] {
        assert RowAccepted(middle, rows0[r], false);
        RowCarries(middle, later, rows0[r], rows1, false);
      }
    }
    forall i | 0 <= i < |later| && PinnedSites(later[i].func) != []
      ensures HasRow(rows0, later[i].name)
    {
      var k :| 0 <= k < |rows1| && rows1[k].name == later[i].name;
      assert HasRow(rows0, middle[k].name);
    }
  }

  // One function replaced, the rest as they were, is accepted if its row accepts it.
  lemma OneReplaced(middle: seq<Named>, rows1: seq<Row>, i: nat, f: Func) returns (later: seq<Named>)
    requires UniqueNames(middle) && IsModuleSnapshot(middle, rows1) && i < |middle|
    requires forall k | 0 <= k < |middle| :: UniqueAddrs(middle[k].func)
    requires Accepted(f, rows1[i].snap)
    ensures later == middle[i := Named(middle[i].name, f)] && UniqueNames(later) && ModuleAccepted(later, rows1, false)
    ensures FindFunc(later, middle[i].name) == i
  {
    hide PinnedSites, OrderKept, Accepted, IsSnapshot, UniqueAddrs;
    later := middle[i := Named(middle[i].name, f)];
    forall k | 0 <= k < |later|
      ensures FindFunc(later, later[k].name) == k && RowAccepted(later, rows1[k], false) && HasRow(rows1, later[k].name)
    {
      FoundUnderName(later, k);
      UnchangedAccepted(middle[k].func, rows1[k].snap);
      assert rows1[k].name == later[k].name;
    }
  }

  lemma GainsUnlisted(middle: seq<Named>, rows0: seq<Row>, rows1: seq<Row>) returns (later: seq<Named>)
    requires UniqueNames(middle) && IsModuleSnapshot(middle, rows1) && ModuleAccepted(middle, rows0, false)
    requires forall i | 0 <= i < |middle| :: UniqueAddrs(middle[i].func)
    requires !AllListed(middle, rows0)
    ensures UniqueNames(later) && ModuleAccepted(later, rows1, false) && !ModuleAccepted(later, rows0, false)
  {
    hide PinnedSites, OrderKept, IsSnapshot, UniqueAddrs, HasRow;
    var i :| 0 <= i < |middle| && !HasRow(rows0, middle[i].name);
    var a := StoreZero(1, FLAG_VOLATILE);
    OnePinned([], a);
    assert [] + [a] == [a];
    hide Stores, StoreZero;
    SnapshotCounts(middle[i].func, rows1[i].snap);
    later := OneReplaced(middle, rows1, i, Stores([a]));
    assert later[i].func == Stores([a]) && PinnedSites(later[i].func) != [];
  }

  lemma LosesPin(middle: seq<Named>, rows0: seq<Row>, rows1: seq<Row>) returns (later: seq<Named>)
    requires UniqueNames(middle) && IsModuleSnapshot(middle, rows1) && ModuleAccepted(middle, rows0, false)
    requires forall i | 0 <= i < |middle| :: UniqueAddrs(middle[i].func)
    requires !PinsHeld(middle, rows0)
    ensures UniqueNames(later) && ModuleAccepted(later, rows1, false) && !ModuleAccepted(later, rows0, false)
  {
    hide PinnedSites, OrderKept, IsSnapshot, UniqueAddrs, HasRow, StillPinned;
    var r :| 0 <= r < |rows0| && FindFunc(middle, rows0[r].name) < |middle|
             && !StillPinned(middle[FindFunc(middle, rows0[r].name)].func, rows0[r].snap);
    var i := FindFunc(middle, rows0[r].name);
    assert RowAccepted(middle, rows0[r], false);
    var f := Rejected(middle[i].func, rows0[r].snap, rows1[i].snap);
    later := OneReplaced(middle, rows1, i, f);
    assert !RowAccepted(later, rows0[r], false);
  }

  lemma Rejected(f1: Func, snap0: Snapshot, snap1: Snapshot) returns (f2: Func)
    requires UniqueAddrs(f1) && IsSnapshot(f1, snap1) && !StillPinned(f1, snap0)
    ensures snap0.ops != [] && Accepted(f2, snap1) && !Accepted(f2, snap0)
  {
    var i, s :| 0 <= i < |snap0.ops| && FoundAt(f1, snap0.ops[i], s) && !IsPinned(InstAt(f1, s));
    f2 := LosesOperation(f1, snap0, snap1, i, s);
  }

  // --- any number of passes ------------------------------------------------------------------------

  // modules[k + 1] is what pass k made of modules[k], accepted against the
  // snapshot taken just before it, with nothing losing its pin.
  ghost predicate ModulePasses(modules: seq<seq<Named>>, rows: seq<seq<Row>>, mayRemove: bool) {
    && |modules| == |rows| + 1
    && (forall k: nat | k < |modules| :: UniqueNames(modules[k]))
    && forall k: nat | k < |rows| ::
         IsModuleSnapshot(modules[k], rows[k]) && ModuleAccepted(modules[k + 1], rows[k], mayRemove) && PinsHeld(modules[k + 1], rows[k])
  }

  // One row of the first snapshot, when no pass may remove a function.
  lemma {:induction false} RowKept(modules: seq<seq<Named>>, rows: seq<seq<Row>>, r: nat, n: nat)
    requires ModulePasses(modules, rows, false) && 0 < n <= |rows| && r < |rows[0]| && rows[0][r].snap.ops != []
    ensures var i := FindFunc(modules[n], rows[0][r].name);
            i < |modules[n]| && Accepted(modules[n][i].func, rows[0][r].snap) && StillPinned(modules[n][i].func, rows[0][r].snap)
  {
    hide IsModuleSnapshot, Accepted, StillPinned, UniqueNames, HasRow, PinnedSites;
    if n == 1 {
      assert RowAccepted(modules[1], rows[0][r], false);
    } else {
      RowKept(modules, rows, r, n - 1);
      RowCarries(modules[n - 1], modules[n], rows[0][r], rows[n - 1], false);
    }
  }

  // Over any sequence of such passes the first snapshot is kept if and only if
  // everything pinned is in a function that was there at the start.
  lemma ModuleChainsExactly(modules: seq<seq<Named>>, rows: seq<seq<Row>>, n: nat)
    requires ModulePasses(modules, rows, false) && 0 < n <= |rows|
    ensures ModuleAccepted(modules[n], rows[0], false) <==>
              forall i | 0 <= i < |modules[n]| && PinnedSites(modules[n][i].func) != [] ::
                exists j :: 0 <= j < |modules[0]| && modules[0][j].name == modules[n][i].name
  {
    hide StillPinned, UniqueNames, PinnedSites, OrderKept, IsSnapshot;
    forall r | 0 <= r < |rows[0]|
      ensures RowAccepted(modules[n], rows[0][r], false)
    {
      if rows[0][r].snap.ops != [] {
        RowKept(modules, rows, r, n);
      }
    }
    forall name
      ensures HasRow(rows[0], name) <==> exists j :: 0 <= j < |modules[0]| && modules[0][j].name == name
    {
      RowsNamed(modules[0], rows[0], name);
    }
  }

  lemma RowsNamed(funcs: seq<Named>, rows: seq<Row>, name: string)
    requires IsModuleSnapshot(funcs, rows)
    ensures HasRow(rows, name) <==> exists j :: 0 <= j < |funcs| && funcs[j].name == name
  {
    hide IsSnapshot;
    if HasRow(rows, name) {
      var r :| 0 <= r < |rows| && rows[r].name == name;
      assert funcs[r].name == name;
    }
    if j :| 0 <= j < |funcs| && funcs[j].name == name {
      assert rows[j].name == name;
    }
  }

  // --- when functions may be removed ----------------------------------------------------------------

  predicate Present(funcs: seq<Named>, name: string) {
    FindFunc(funcs, name) < |funcs|
  }

  // Gone after some pass before n, and there again after pass n.
  predicate CameBack(modules: seq<seq<Named>>, n: nat, name: string)
    requires n < |modules|
  {
    Present(modules[n], name) && exists k :: 0 < k < n && !Present(modules[k], name)
  }

  ghost predicate NoGain(later: seq<Named>, rows: seq<Row>) {
    forall r | 0 <= r < |rows| :: !GainsPin(later, rows[r])
  }

  ghost predicate NoGains(modules: seq<seq<Named>>, rows: seq<seq<Row>>)
    requires |modules| == |rows| + 1
  {
    forall k: nat | k < |rows| :: NoGain(modules[k + 1], rows[k])
  }

  // A function found later with something pinned had something pinned before.
  lemma PinnedBeforeToo(middle: seq<Named>, later: seq<Named>, rows1: seq<Row>, mayRemove: bool, name: string)
    requires UniqueNames(middle) && IsModuleSnapshot(middle, rows1) && ModuleAccepted(later, rows1, mayRemove) && NoGain(later, rows1)
    requires var j := FindFunc(later, name); j < |later| && PinnedSites(later[j].func) != []
    ensures var i := FindFunc(middle, name); i < |middle| && PinnedSites(middle[i].func) != []
  {
    hide PinnedSites, OrderKept, IsSnapshot;
    var j := FindFunc(later, name);
    assert HasRow(rows1, later[j].name);
    var r :| 0 <= r < |rows1| && rows1[r].name == name;
    FoundUnderName(middle, r);
    assert !GainsPin(later, rows1[r]);
    SnapshotCounts(middle[r].func, rows1[r].snap);
  }

  lemma {:induction false} PinnedFromStart(modules: seq<seq<Named>>, rows: seq<seq<Row>>, mayRemove: bool, n: nat, name: string)
    requires ModulePasses(modules, rows, mayRemove) && NoGains(modules, rows) && n <= |rows|
    requires var j := FindFunc(modules[n], name); j < |modules[n]| && PinnedSites(modules[n][j].func) != []
    ensures var i := FindFunc(modules[0], name); i < |modules[0]| && PinnedSites(modules[0][i].func) != []
  {
    hide IsModuleSnapshot, ModuleAccepted, PinsHeld, NoGain, UniqueNames, PinnedSites;
    if n > 0 {
      PinnedBeforeToo(modules[n - 1], modules[n], rows[n - 1], mayRemove, name);
      PinnedFromStart(modules, rows, mayRemove, n - 1, name);
    }
  }

  // One row of the first snapshot, when functions may be removed: kept as long as
  // its function stays; one that comes back has nothing pinned.
  lemma {:induction false} RowStory(modules: seq<seq<Named>>, rows: seq<seq<Row>>, r: nat, n: nat)
    requires ModulePasses(modules, rows, true) && NoGains(modules, rows) && 0 < n <= |rows|
    requires r < |rows[0]| && rows[0][r].snap.ops != [] && Present(modules[n], rows[0][r].name)
    ensures var f := modules[n][FindFunc(modules[n], rows[0][r].name)].func;
            if CameBack(modules, n, rows[0][r].name) then PinnedSites(f) == []
            else Accepted(f, rows[0][r].snap) && StillPinned(f, rows[0][r].snap)
  {
    hide IsModuleSnapshot, Accepted, StillPinned, UniqueNames, HasRow, PinnedSites, NoGain;
    var row, name := rows[0][r], rows[0][r].name;
    if n == 1 {
      assert RowAccepted(modules[1], row, true);
    } else if !Present(modules[n - 1], name) {
      assert CameBack(modules, n, name);
      if PinnedSites(modules[n][FindFunc(modules[n], name)].func) != [] {
        PinnedBeforeToo(modules[n - 1], modules[n], rows[n - 1], true, name);
      }
    } else {
      RowStory(modules, rows, r, n - 1);
      if CameBack(modules, n - 1, name) {
        assert CameBack(modules, n, name);
        if PinnedSites(modules[n][FindFunc(modules[n], name)].func) != [] {
          PinnedBeforeToo(modules[n - 1], modules[n], rows[n - 1], true, name);
        }
      } else {
        assert !CameBack(modules, n, name);
        RowCarries(modules[n - 1], modules[n], row, rows[n - 1], true);
      }
    }
  }

  // Over any sequence of passes that may remove functions, when none loses a pin or
  // gives a function its first, the first snapshot is kept if and only if no
  // function it lists operations of was removed and came back.
  lemma DeletingChainsExactly(modules: seq<seq<Named>>, rows: seq<seq<Row>>, n: nat)
    requires ModulePasses(modules, rows, true) && NoGains(modules, rows) && 0 < n <= |rows|
    ensures ModuleAccepted(modules[n], rows[0], true) <==>
              forall r | 0 <= r < |rows[0]| && rows[0][r].snap.ops != [] :: !CameBack(modules, n, rows[0][r].name)
  {
    hide StillPinned, PinnedSites, OrderKept, IsSnapshot, NoGains, CameBack;
    forall r | 0 <= r < |rows[0]|
      ensures RowAccepted(modules[n], rows[0][r], true) <==> rows[0][r].snap.ops == [] || !CameBack(modules, n, rows[0][r].name)
    {
      RowDecided(modules, rows, r, n);
    }
    forall i | 0 <= i < |modules[n]| && PinnedSites(modules[n][i].func) != []
      ensures HasRow(rows[0], modules[n][i].name)
    {
      FoundUnderName(modules[n], i);
      PinnedFromStart(modules, rows, true, n, modules[n][i].name);
      RowsNamed(modules[0], rows[0], modules[n][i].name);
    }
  }

  lemma RowDecided(modules: seq<seq<Named>>, rows: seq<seq<Row>>, r: nat, n: nat)
    requires ModulePasses(modules, rows, true) && NoGains(modules, rows) && 0 < n <= |rows| && r < |rows[0]|
    ensures RowAccepted(modules[n], rows[0][r], true) <==> rows[0][r].snap.ops == [] || !CameBack(modules, n, rows[0][r].name)
  {
    hide StillPinned, PinnedSites, OrderKept, IsModuleSnapshot, ModuleAccepted, NoGains, PinsHeld, UniqueNames;
    if rows[0][r].snap.ops != [] && Present(modules[n], rows[0][r].name) {
      RowStory(modules, rows, r, n);
    }
  }

  // In particular: when no pass removes a function, loses a pin or gives a function
  // its first, every later module keeps the first snapshot and all it lists.
  lemma ModuleAcceptanceChains(modules: seq<seq<Named>>, rows: seq<seq<Row>>, n: nat)
    requires ModulePasses(modules, rows, false) && NoGains(modules, rows) && 0 < n <= |rows|
    ensures ModuleAccepted(modules[n], rows[0], false) && PinsHeld(modules[n], rows[0]) && NoGain(modules[n], rows[0])
  {
    hide StillPinned, PinnedSites, ModuleAccepted, NoGains, IsSnapshot, Accepted;
    ModuleChainsExactly(modules, rows, n);
    forall i | 0 <= i < |modules[n]| && PinnedSites(modules[n][i].func) != []
      ensures exists j :: 0 <= j < |modules[0]| && modules[0][j].name == modules[n][i].name
    {
      FoundUnderName(modules[n], i);
      PinnedFromStart(modules, rows, false, n, modules[n][i].name);
    }
    forall r | 0 <= r < |rows[0]|
      ensures Present(modules[n], rows[0][r].name) ==>
                StillPinned(modules[n][FindFunc(modules[n], rows[0][r].name)].func, rows[0][r].snap)
      ensures !GainsPin(modules[n], rows[0][r])
    {
      if rows[0][r].snap.ops != [] {
        RowKept(modules, rows, r, n);
      } else {
        EmptyRowKept(modules, rows, r, n);
      }
    }
  }

  lemma EmptyRowKept(modules: seq<seq<Named>>, rows: seq<seq<Row>>, r: nat, n: nat)
    requires ModulePasses(modules, rows, false) && NoGains(modules, rows) && 0 < n <= |rows| && r < |rows[0]|
    requires rows[0][r].snap.ops == []
    ensures !GainsPin(modules[n], rows[0][r]) && forall f :: StillPinned(f, rows[0][r].snap)
  {
    hide PinnedSites, ModuleAccepted, NoGains, IsSnapshot, PinsHeld;
    if GainsPin(modules[n], rows[0][r]) {
      PinnedFromStart(modules, rows, false, n, rows[0][r].name);
      FoundUnderName(modules[0], r);
      SnapshotCounts(modules[0][r].func, rows[0][r].snap);
    }
  }

  // --- a concrete case -----------------------------------------------------------------------------

  // A pass adds a function with nothing pinned, and the next gives it a volatile
  // store. Each is accepted; the second introduces an operation, and the two
  // together do not keep the first snapshot.
  lemma GainedPinAccepted()
    ensures var plain, pinned := [Named("g", Stores([]))], [Named("g", Stores([StoreZero(1, FLAG_VOLATILE)]))];
            var rows := [Row("g", Snapshot([], []))];
            && Verified(plain[0].func) && Verified(pinned[0].func)
            && IsModuleSnapshot([], []) && IsModuleSnapshot(plain, rows)
            && ModuleAccepted(plain, [], false) && ModuleAccepted(pinned, rows, false)
            && !CountsKept(pinned, rows) && !ModuleAccepted(pinned, [], false)
  {
    var a := StoreZero(1, FLAG_VOLATILE);
    StoresVerified([]);
    StoresVerified([a]);
    hide Verified;
    OnePinned([], a);
    assert [] + [a] == [a];
    NonePinned();
    GainedBy(Named("g", Stores([])), Named("g", Stores([a])));
  }

  lemma GainedBy(plain: Named, pinned: Named)
    requires plain.name == pinned.name && PinnedSites(plain.func) == [] && PinnedSites(pinned.func) != []
    ensures var rows := [Row(plain.name, Snapshot([], []))];
            && IsModuleSnapshot([], []) && IsModuleSnapshot([plain], rows)
            && ModuleAccepted([plain], [], false) && ModuleAccepted([pinned], rows, false)
            && !CountsKept([pinned], rows) && !ModuleAccepted([pinned], [], false)
  {
    hide PinnedSites, OrderKept;
    var rows := [Row(plain.name, Snapshot([], []))];
    assert rows[0].name == plain.name;
    assert HasRow(rows, plain.name);
    assert FindFunc([pinned], plain.name) == 0;
    assert GainsPin([pinned], rows[0]);
    CountsKeptExactly([pinned], rows);
    assert [pinned][0] == pinned && !HasRow([], pinned.name);
  }

  lemma NonePinned()
    ensures PinnedSites(Stores([])) == []
  {
    var f := Stores([]);
    assert f.blocks[0].insts == [Inst(0, IR_RET, TYPE_VOID, 0, 0, 0, 0, [], [])];
    assert PinnedIn(f, 0, 1) == PinnedIn(f, 0, 0) + [];
    assert PinnedBefore(f, 1) == PinnedBefore(f, 0) + PinnedIn(f, 0, 1);
  }

  // A pass removes a function with a volatile store, and the next brings back its
  // name without one. Each is accepted where functions may be removed, together
  // they are not.
  lemma ReturnNotKept()
    ensures var pinned, plain := [Named("g", Stores([StoreZero(1, FLAG_VOLATILE)]))], [Named("g", Stores([]))];
            var rows := [Row("g", Snapshot([1], [[false]]))];
            && IsModuleSnapshot(pinned, rows) && IsModuleSnapshot([], [])
            && ModuleAccepted([], rows, true) && ModuleAccepted(plain, [], true) && !ModuleAccepted(plain, rows, true)
  {
    var a := StoreZero(1, FLAG_VOLATILE);
    OnePinned([], a);
    assert [] + [a] == [a];
    NonePinned();
    ReturnedBy(Named("g", Stores([a])), Named("g", Stores([])), Snapshot([1], [[false]]));
  }

  lemma ReturnedBy(pinned: Named, plain: Named, snap: Snapshot)
    requires plain.name == pinned.name && PinnedSites(plain.func) == [] && IsSnapshot(pinned.func, snap) && snap.ops != []
    ensures var rows := [Row(plain.name, snap)];
            && IsModuleSnapshot([pinned], rows) && IsModuleSnapshot([], [])
            && ModuleAccepted([], rows, true) && ModuleAccepted([plain], [], true) && !ModuleAccepted([plain], rows, true)
  {
    hide PinnedSites, OrderKept, IsSnapshot;
    var rows := [Row(plain.name, snap)];
    assert FindFunc([plain], plain.name) == 0;
    assert !RowAccepted([plain], rows[0], true);
  }
}
