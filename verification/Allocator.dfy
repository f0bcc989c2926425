/** The allocator from end to end, as a backend drives it: build the intervals,
    pin some, scan, and run the located program. */
module Allocator {
  import opened Mir
  import opened Intervals
  import opened LinearScan
  import opened Simulation

  // What the backend decides about a register between building and scanning.
  datatype Pin = Pin(fixed: Byte, noSpill: bool)

  function PinnedTable(built: seq<CgInterval>, pins: nat -> Pin): seq<CgInterval> {
    seq(|built|, v requires 0 <= v < |built| => built[v].(fixed := pins(v).fixed, noSpill := pins(v).noSpill))
  }

  // The policy's promises about the intervals of this program, pinned this way.
  ghost predicate PolicyHonours(view: View, m: Machine, policy: Policy, pins: nat -> Pin) {
    forall built | BuiltFrom(view, built) ::
      HonoursContract(policy, PinnedTable(built, pins)) && RejectsClobbered(policy, m, PinnedTable(built, pins))
  }

  // What the internal-error checks demand of the program, the policy and the pins.
  ghost predicate NothingToReject(view: View, policy: Policy, pins: nat -> Pin) {
    WellFormed(view) && forall built | BuiltFrom(view, built) :: SoundPolicy(policy, PinnedTable(built, pins))
  }

  // What building and pinning leave is what the scan asks for.
  lemma BuiltIsUnplaced(view: View, built: seq<CgInterval>, pinned: seq<CgInterval>)
    requires BuiltFrom(view, built) && Pinned(built, pinned)
    ensures Unplaced(pinned)
  {
    forall v | 0 <= v < |pinned|
      ensures pinned[v].phys == 0 && pinned[v].slot == 0 && pinned[v].fixed < 256
      ensures pinned[v].live ==> pinned[v].vreg == v && pinned[v].start <= pinned[v].end
    {
      if v > 0 {
        FreshInterval(view, v, built[v]);
      }
    }
  }

  lemma FreshInterval(view: View, v: nat, it: CgInterval)
    requires IsIntervalOf(view, v, it)
    ensures it.phys == 0 && it.slot == 0 && (it.live ==> it.vreg == v && it.start <= it.end)
  {
    var points := PointsBefore(view, v, |view.blocks|);
    if points != {} {
      var p :| p in points;
    }
  }

  // Every run of the located program does what the register program does.
  ghost predicate SimulatesAll(view: View, m: Machine, policy: Policy, table: seq<CgInterval>) {
    forall s, l, n | Related(view, s, l, table, policy.spillSize) ::
      Related(view, VirtualRun(view, m, s, n), LocatedRun(view, m, table, policy.spillSize, l, n), table, policy.spillSize)
  }

  method Allocate(view: View, policy: Policy, pins: nat -> Pin, slots: CgSpillSlots, ghost m: Machine, ghost most: nat)
    returns (ok: bool, table: seq<CgInterval>)
    requires MachineHonoursView(view, m, policy.spillSize) && PolicyHonours(view, m, policy, pins)
    requires FrameFits(policy, view.nvregs + 1, most, slots.nextOffset)
    modifies slots
    ensures NothingToReject(view, policy, pins) ==> ok
    ensures ok ==> WellFormed(view) && SimulatesAll(view, m, policy, table)
  {
    hide MachineHonoursView, PolicyHonours, NothingToReject, WellFormed, SimulatesAll, BuiltFrom, Unplaced, HonoursContract,
         RejectsClobbered, SoundPolicy, Allocation, PinnedTable, Pinned;
    var liveIn, liveOut := new set<nat>[|view.blocks|](_ => {}), new set<nat>[|view.blocks|](_ => {});
    var intervals := new CgInterval[view.nvregs + 1];
    ok := CgIntervalsBuild(view, liveIn, liveOut, intervals);
    table := [];
    if !ok {
      IllFormedRejected(view, policy, pins);
      return;
    }
    ghost var built, top := intervals[..], slots.nextOffset;
    Pinning(pins, intervals);
    ghost var pinned := intervals[..];
    ReadyToScan(view, m, policy, pins, built, pinned);
    ok := CgLinearScan(intervals, policy, slots, most);
    table := intervals[..];
    if ok {
      AllRunsSimulate(view, m, policy, built, pinned, table, top, slots.nextOffset);
    }
  }

  lemma IllFormedRejected(view: View, policy: Policy, pins: nat -> Pin)
    requires !WellFormed(view)
    ensures !NothingToReject(view, policy, pins)
  {
  }

  lemma ReadyToScan(view: View, m: Machine, policy: Policy, pins: nat -> Pin, built: seq<CgInterval>, pinned: seq<CgInterval>)
    requires PolicyHonours(view, m, policy, pins) && BuiltFrom(view, built) && pinned == PinnedTable(built, pins)
    ensures Pinned(built, pinned) && Unplaced(pinned) && |pinned| == view.nvregs + 1
    ensures HonoursContract(policy, pinned) && RejectsClobbered(policy, m, pinned)
    ensures NothingToReject(view, policy, pins) ==> SoundPolicy(policy, pinned)
  {
    forall v | 0 <= v < |built|
      ensures pinned[v] == built[v].(fixed := pinned[v].fixed, noSpill := pinned[v].noSpill) && pinned[v].fixed < 256
    {
      assert pinned[v] == built[v].(fixed := pins(v).fixed, noSpill := pins(v).noSpill);
    }
    hide BuiltFrom, Unplaced, HonoursContract, RejectsClobbered, SoundPolicy;
    BuiltIsUnplaced(view, built, pinned);
  }

  lemma AllRunsSimulate(view: View, m: Machine, policy: Policy, built: seq<CgInterval>, pinned: seq<CgInterval>,
                        table: seq<CgInterval>, top: int, bottom: int)
    requires WellFormed(view) && MachineHonoursView(view, m, policy.spillSize)
    requires BuiltFrom(view, built) && Pinned(built, pinned) && RejectsClobbered(policy, m, pinned)
    requires Allocation(policy, pinned, table, top, bottom)
    ensures SimulatesAll(view, m, policy, table)
  {
    assert Compiled(view, m, policy, built, pinned, table, top, bottom);
    hide Compiled, Related;
    forall s, l, n | Related(view, s, l, table, policy.spillSize)
      ensures Related(view, VirtualRun(view, m, s, n), LocatedRun(view, m, table, policy.spillSize, l, n), table, policy.spillSize)
    {
      AllocationSimulates(view, m, policy, built, pinned, table, top, bottom, s, l, n);
    }
  }

  method Pinning(pins: nat -> Pin, intervals: array<CgInterval>)
    modifies intervals
    ensures intervals[..] == PinnedTable(old(intervals[..]), pins)
  {
    ghost var built := intervals[..];
    var v: nat := 0;
    while v < intervals.Length
      invariant v <= intervals.Length
      invariant intervals[..v] == PinnedTable(built, pins)[..v] && intervals[v..] == built[v..]
    {
      intervals[v] := intervals[v].(fixed := pins(v).fixed, noSpill := pins(v).noSpill);
      v := v + 1;
    }
  }
}
