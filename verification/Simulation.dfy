/** What allocation is for: the program whose registers have been replaced by
    their locations does, step for step, what the virtual-register program does,
    although calls scribble over registers and spilled values live as bytes in
    one shared frame. */
module Simulation {
  import opened Mir
  import opened Intervals
  import opened LinearScan

  type Value = seq<Byte>

  // What one instruction does with its operand values and the outside world.
  datatype Outcome = Outcome(value: Value, world: int, halts: bool, next: Point)

  // exec gives instructions their meaning; scribble(t, r) is whatever a call at
  // step t leaves in a clobbered register r.
  datatype Machine = Machine(
    exec: (Point, seq<Value>, int) -> Outcome,
    clobbers: nat -> bool,
    scribble: (nat, nat) -> Value)

  datatype VirtualState = VirtualState(pc: Point, world: int, halted: bool, vregs: nat -> Value)

  datatype LocatedState = LocatedState(pc: Point, world: int, halted: bool, regs: nat -> Value, frame: int -> Byte)

  // --- the virtual-register program ------------------------------------------

  function VirtualArgs(s: VirtualState, uses: seq<nat>): seq<Value> {
    seq(|uses|, k requires 0 <= k < |uses| => if uses[k] == 0 then [] else s.vregs(uses[k]))
  }

  function VirtualStep(view: View, m: Machine, s: VirtualState): VirtualState {
    if s.halted || !InRange(view, s.pc) then s
    else
      var inst := InstAt(view, s.pc);
      var out := m.exec(s.pc, VirtualArgs(s, inst.uses), s.world);
      VirtualState(out.next, out.world, out.halts,
                   (v: nat) => if v == inst.def && v != 0 then out.value else s.vregs(v))
  }

  function VirtualRun(view: View, m: Machine, s: VirtualState, n: nat): VirtualState {
    if n == 0 then s else VirtualStep(view, m, VirtualRun(view, m, s, n - 1))
  }

  // --- the located program ----------------------------------------------------

  function FrameBytes(frame: int -> Byte, slot: int, size: nat): Value {
    seq(size, k => frame(slot + k))
  }

  function ReadLocation(s: LocatedState, it: CgInterval, size: nat): Value {
    if it.phys != 0 then s.regs(it.phys) else FrameBytes(s.frame, it.slot, size)
  }

  function LocatedArgs(s: LocatedState, table: seq<CgInterval>, size: nat -> nat, uses: seq<nat>): seq<Value> {
    seq(|uses|, k requires 0 <= k < |uses| =>
      if 0 < uses[k] < |table| then ReadLocation(s, table[uses[k]], size(uses[k])) else [])
  }

  function WriteRegister(regs: nat -> Value, phys: nat, value: Value): nat -> Value {
    (r: nat) => if r == phys then value else regs(r)
  }

  function WriteFrame(frame: int -> Byte, slot: int, value: Value): int -> Byte {
    (a: int) => if slot <= a < slot + |value| then value[a - slot] else frame(a)
  }

  // Register numbers are stored plus one; a call spoils every clobbered one.
  function AfterCall(m: Machine, isCall: bool, t: nat, regs: nat -> Value): nat -> Value {
    (r: nat) => if isCall && r > 0 && m.clobbers(r - 1) then m.scribble(t, r) else regs(r)
  }

  function LocatedStep(view: View, m: Machine, table: seq<CgInterval>, size: nat -> nat, t: nat, s: LocatedState)
    : LocatedState
  {
    if s.halted || !InRange(view, s.pc) then s
    else
      var inst := InstAt(view, s.pc);
      var out := m.exec(s.pc, LocatedArgs(s, table, size, inst.uses), s.world);
      var regs := AfterCall(m, IsCall(view, s.pc), t, s.regs);
      if !(0 < inst.def < |table|) then LocatedState(out.next, out.world, out.halts, regs, s.frame)
      else if table[inst.def].phys != 0 then
        LocatedState(out.next, out.world, out.halts, WriteRegister(regs, table[inst.def].phys, out.value), s.frame)
      else
        LocatedState(out.next, out.world, out.halts, regs, WriteFrame(s.frame, table[inst.def].slot, out.value))
  }

  function LocatedRun(view: View, m: Machine, table: seq<CgInterval>, size: nat -> nat, s: LocatedState, n: nat)
    : LocatedState
  {
    if n == 0 then s else LocatedStep(view, m, table, size, n - 1, LocatedRun(view, m, table, size, s, n - 1))
  }

  // --- hypotheses ---------------------------------------------------------------

  // The machine goes where the view says it may go and defines values of the
  // width the target reserves for them.
  ghost predicate MachineHonoursView(view: View, m: Machine, size: nat -> nat) {
    forall p, args, w | InRange(view, p) ::
      var out := m.exec(p, args, w);
      && (out.halts || Step(view, p, out.next))
      && |out.value| == size(InstAt(view, p).def)
  }

  // Between building and scanning the backend only pins.
  ghost predicate Pinned(built: seq<CgInterval>, pinned: seq<CgInterval>) {
    && |pinned| == |built|
    && forall v | 0 <= v < |built| ::
         pinned[v] == built[v].(fixed := pinned[v].fixed, noSpill := pinned[v].noSpill) && pinned[v].fixed < 256
  }

  // reg_usable turns clobbered registers away from values that cross a call,
  // and no value pinned to a clobbered register crosses one.
  ghost predicate RejectsClobbered(policy: Policy, m: Machine, pinned: seq<CgInterval>) {
    forall v, r: nat | 0 < v < |pinned| && pinned[v].live && pinned[v].liveAcrossCall && m.clobbers(r) ::
      if pinned[v].fixed != 0 then pinned[v].fixed != r + 1
      else !policy.regUsable(v, r, pinned[v].start, pinned[v].end)
  }

  ghost predicate Compiled(view: View, m: Machine, policy: Policy, built: seq<CgInterval>, pinned: seq<CgInterval>,
                           table: seq<CgInterval>, top: int, bottom: int) {
    && WellFormed(view) && MachineHonoursView(view, m, policy.spillSize)
    && BuiltFrom(view, built) && Pinned(built, pinned) && RejectsClobbered(policy, m, pinned)
    && Allocation(policy, pinned, table, top, bottom)
  }

  // --- the simulation relation ---------------------------------------------------

  ghost predicate Agrees(s: VirtualState, l: LocatedState, table: seq<CgInterval>, size: nat -> nat, v: nat) {
    v < |table| && ReadLocation(l, table[v], size(v)) == s.vregs(v)
  }

  // Same place, same world, and every live register's location holds its value.
  ghost predicate Related(view: View, s: VirtualState, l: LocatedState, table: seq<CgInterval>, size: nat -> nat) {
    && s.pc == l.pc && s.world == l.world && s.halted == l.halted
    && (!s.halted ==> forall v | Live(view, v, s.pc) :: Agrees(s, l, table, size, v))
  }

  lemma SameArgs(view: View, s: VirtualState, l: LocatedState, table: seq<CgInterval>, size: nat -> nat)
    requires WellFormed(view) && |table| == view.nvregs + 1 && Related(view, s, l, table, size)
    requires !s.halted && InRange(view, s.pc)
    ensures VirtualArgs(s, InstAt(view, s.pc).uses) == LocatedArgs(l, table, size, InstAt(view, s.pc).uses)
  {
    var uses := InstAt(view, s.pc).uses;
    forall k | 0 <= k < |uses|
      ensures VirtualArgs(s, uses)[k] == LocatedArgs(l, table, size, uses)[k]
    {
      if uses[k] != 0 {
        LiveEquation(view, uses[k], s.pc);
        LiveIsVreg(view, uses[k], s.pc);
        assert Agrees(s, l, table, size, uses[k]);
      }
    }
  }

  // Everything the build and the scan say about one register alive at a point.
  lemma LocationFacts(view: View, m: Machine, policy: Policy, built: seq<CgInterval>, pinned: seq<CgInterval>,
                      table: seq<CgInterval>, top: int, bottom: int, v: nat, p: Point)
    requires Compiled(view, m, policy, built, pinned, table, top, bottom) && InRange(view, p)
    requires 1 <= v <= view.nvregs
    requires Live(view, v, p) || LiveAfter(view, v, p) || InstAt(view, p).def == v
    ensures |table| == |pinned| == view.nvregs + 1 && table[v].live && pinned[v].live
    ensures table[v].start <= PointNumber(view, p) <= table[v].end
    ensures Placed(policy, v, table[v])
    ensures OnlyPlaced(pinned[v], table[v]) && IsIntervalOf(view, v, built[v])
    ensures pinned[v] == built[v].(fixed := pinned[v].fixed, noSpill := pinned[v].noSpill)
  {
    IntervalCovers(view, v, built[v], p);
    assert OnlyPlaced(pinned[v], table[v]);
  }

  // A value that survives a call is not in a register the call spoils.
  lemma SurvivesCall(view: View, m: Machine, policy: Policy, built: seq<CgInterval>, pinned: seq<CgInterval>,
                     table: seq<CgInterval>, top: int, bottom: int, v: nat, p: Point)
    requires Compiled(view, m, policy, built, pinned, table, top, bottom) && InRange(view, p)
    requires 1 <= v <= view.nvregs && LiveAfter(view, v, p) && v != InstAt(view, p).def && IsCall(view, p)
    ensures v < |table| && (table[v].phys != 0 ==> !m.clobbers(table[v].phys - 1))
  {
    LocationFacts(view, m, policy, built, pinned, table, top, bottom, v, p);
    assert CrossesAt(view, v, p);
    assert built[v].liveAcrossCall;
  }

  // Writing one register's location leaves every other live location alone.
  lemma Undisturbed(view: View, m: Machine, policy: Policy, built: seq<CgInterval>, pinned: seq<CgInterval>,
                    table: seq<CgInterval>, top: int, bottom: int, v: nat, p: Point)
    requires Compiled(view, m, policy, built, pinned, table, top, bottom) && InRange(view, p)
    requires 1 <= v <= view.nvregs && LiveAfter(view, v, p) && InstAt(view, p).def != 0 && v != InstAt(view, p).def
    ensures var d := InstAt(view, p).def;
            && v < |table| && d < |table| && Apart(policy, v, d, table[v], table[d]) && Overlap(table[v], table[d])
            && Placed(policy, v, table[v]) && Placed(policy, d, table[d])
  {
    var d := InstAt(view, p).def;
    DefIsVreg(view, p);
    LocationFacts(view, m, policy, built, pinned, table, top, bottom, v, p);
    LocationFacts(view, m, policy, built, pinned, table, top, bottom, d, p);
  }

  lemma DefIsVreg(view: View, p: Point)
    requires WellFormed(view) && InRange(view, p)
    ensures InstAt(view, p).def <= view.nvregs
  {
    assert GoodBlock(view, view.blocks[p.block]);
    assert GoodInst(view, InstAt(view, p));
  }

  lemma ReadBackFrame(frame: int -> Byte, slot: int, value: Value)
    ensures FrameBytes(WriteFrame(frame, slot, value), slot, |value|) == value
  {
  }

  lemma ReadElsewhere(frame: int -> Byte, slot: int, value: Value, other: int, size: nat)
    requires other + size <= slot || slot + |value| <= other
    ensures FrameBytes(WriteFrame(frame, slot, value), other, size) == FrameBytes(frame, other, size)
  {
  }

  // One lock step.
  lemma StepSimulates(view: View, m: Machine, policy: Policy, built: seq<CgInterval>, pinned: seq<CgInterval>,
                      table: seq<CgInterval>, top: int, bottom: int, t: nat, s: VirtualState, l: LocatedState)
    requires Compiled(view, m, policy, built, pinned, table, top, bottom)
    requires Related(view, s, l, table, policy.spillSize)
    ensures Related(view, VirtualStep(view, m, s), LocatedStep(view, m, table, policy.spillSize, t, l), table, policy.spillSize)
  {
    if !s.halted && InRange(view, s.pc) {
      SameArgs(view, s, l, table, policy.spillSize);
      var s', l' := VirtualStep(view, m, s), LocatedStep(view, m, table, policy.spillSize, t, l);
      if !s'.halted {
        forall v | Live(view, v, s'.pc)
          ensures Agrees(s', l', table, policy.spillSize, v)
        {
          LiveIsVreg(view, v, s'.pc);
          ValueSurvives(view, m, policy, built, pinned, table, top, bottom, t, s, l, v);
        }
      }
    }
  }

  lemma ValueSurvives(view: View, m: Machine, policy: Policy, built: seq<CgInterval>, pinned: seq<CgInterval>,
                      table: seq<CgInterval>, top: int, bottom: int, t: nat, s: VirtualState, l: LocatedState, v: nat)
    requires Compiled(view, m, policy, built, pinned, table, top, bottom)
    requires Related(view, s, l, table, policy.spillSize) && !s.halted && InRange(view, s.pc)
    requires VirtualArgs(s, InstAt(view, s.pc).uses) == LocatedArgs(l, table, policy.spillSize, InstAt(view, s.pc).uses)
    requires !VirtualStep(view, m, s).halted
    requires 1 <= v <= view.nvregs && Live(view, v, VirtualStep(view, m, s).pc)
    ensures Agrees(VirtualStep(view, m, s), LocatedStep(view, m, table, policy.spillSize, t, l), table, policy.spillSize, v)
  {
    var p, inst := s.pc, InstAt(view, s.pc);
    var out := m.exec(p, VirtualArgs(s, inst.uses), s.world);
    assert Step(view, p, out.next) && |out.value| == policy.spillSize(inst.def);
    assert LiveVia(view, v, p, out.next);
    LocationFacts(view, m, policy, built, pinned, table, top, bottom, v, p);
    DefIsVreg(view, p);
    if v == inst.def {
      ReadBackFrame(l.frame, table[v].slot, out.value);
    } else {
      OtherSurvives(view, m, policy, built, pinned, table, top, bottom, t, s, l, v, out);
    }
  }

  // A live value other than the one this instruction defines.
  lemma OtherSurvives(view: View, m: Machine, policy: Policy, built: seq<CgInterval>, pinned: seq<CgInterval>,
                      table: seq<CgInterval>, top: int, bottom: int, t: nat, s: VirtualState, l: LocatedState, v: nat, out: Outcome)
    requires Compiled(view, m, policy, built, pinned, table, top, bottom)
    requires Related(view, s, l, table, policy.spillSize) && !s.halted && InRange(view, s.pc)
    requires VirtualArgs(s, InstAt(view, s.pc).uses) == LocatedArgs(l, table, policy.spillSize, InstAt(view, s.pc).uses)
    requires out == m.exec(s.pc, VirtualArgs(s, InstAt(view, s.pc).uses), s.world)
    requires 1 <= v <= view.nvregs && v != InstAt(view, s.pc).def && LiveAfter(view, v, s.pc)
    requires |out.value| == policy.spillSize(InstAt(view, s.pc).def)
    ensures Agrees(VirtualStep(view, m, s), LocatedStep(view, m, table, policy.spillSize, t, l), table, policy.spillSize, v)
  {
    var p, d := s.pc, InstAt(view, s.pc).def;
    LocationFacts(view, m, policy, built, pinned, table, top, bottom, v, p);
    LiveEquation(view, v, p);
    assert Agrees(s, l, table, policy.spillSize, v);
    if IsCall(view, p) {
      SurvivesCall(view, m, policy, built, pinned, table, top, bottom, v, p);
    }
    DefIsVreg(view, p);
    if d != 0 {
      Undisturbed(view, m, policy, built, pinned, table, top, bottom, v, p);
    }
    hide Compiled, Related, Live, LiveAfter, LiveVia, WellFormed;
    if d != 0 && table[v].phys == 0 && table[d].phys == 0 {
      ReadElsewhere(l.frame, table[d].slot, out.value, table[v].slot, policy.spillSize(v));
    }
  }

  // The main theorem: every run, of any length, stays related.
  lemma {:induction false} AllocationSimulates(
      view: View, m: Machine, policy: Policy, built: seq<CgInterval>, pinned: seq<CgInterval>, table: seq<CgInterval>,
      top: int, bottom: int, s: VirtualState, l: LocatedState, n: nat)
    requires Compiled(view, m, policy, built, pinned, table, top, bottom)
    requires Related(view, s, l, table, policy.spillSize)
    ensures Related(view, VirtualRun(view, m, s, n), LocatedRun(view, m, table, policy.spillSize, l, n), table, policy.spillSize)
  {
    hide Compiled, Related, VirtualStep, LocatedStep;
    if n > 0 {
      AllocationSimulates(view, m, policy, built, pinned, table, top, bottom, s, l, n - 1);
      StepSimulates(view, m, policy, built, pinned, table, top, bottom, n - 1,
                    VirtualRun(view, m, s, n - 1), LocatedRun(view, m, table, policy.spillSize, l, n - 1));
    }
  }
}
