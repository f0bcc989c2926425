/** The backend's read-only view of machine IR and what it means for a virtual
    register to be live: a path of program points from here to a use, with no
    definition on the way. Register 0 means "none" throughout, and block
    targets are one-based. */
module Mir {

  datatype Inst = Inst(def: nat, uses: seq<nat>, targets: seq<nat>, clobbersCall: bool)

  // hasCallInfo is false when the target leaves inst_clobbers_call NULL.
  datatype View = View(nvregs: nat, maxUses: nat, blocks: seq<seq<Inst>>, hasCallInfo: bool)

  // The point just before instruction `inst` of zero-based block `block`.
  datatype Point = Point(block: nat, inst: nat)

  predicate GoodInst(view: View, inst: Inst) {
    && inst.def <= view.nvregs
    && |inst.uses| <= view.maxUses
    && (forall u | u in inst.uses :: u <= view.nvregs)
    && (forall t | t in inst.targets :: 1 <= t <= |view.blocks|)
  }

  predicate GoodBlock(view: View, block: seq<Inst>) {
    forall inst | inst in block :: GoodInst(view, inst)
  }

  // What the allocator's internal-error checks demand of a view.
  predicate WellFormed(view: View) {
    forall b | 0 <= b < |view.blocks| :: GoodBlock(view, view.blocks[b])
  }

  predicate InRange(view: View, p: Point) {
    p.block < |view.blocks| && p.inst < |view.blocks[p.block]|
  }

  function InstAt(view: View, p: Point): Inst
    requires InRange(view, p)
  {
    view.blocks[p.block][p.inst]
  }

  predicate IsCall(view: View, p: Point)
    requires InRange(view, p)
  {
    view.hasCallInfo && InstAt(view, p).clobbersCall
  }

  // Control may fall through to the next instruction or leave, also from the
  // middle of a block, to the head of any target.
  predicate Step(view: View, p: Point, q: Point) {
    && InRange(view, p)
    && (q == Point(p.block, p.inst + 1)
        || (q.inst == 0 && q.block + 1 in InstAt(view, p).targets))
  }

  ghost predicate UsePath(view: View, v: nat, path: seq<Point>) {
    && |path| > 0
    && InRange(view, path[0])
    && if |path| == 1 then
        v in InstAt(view, path[0]).uses
      else
        && InstAt(view, path[0]).def != v
        && Step(view, path[0], path[1])
        && UsePath(view, v, path[1..])
  }

  ghost predicate StartsUse(view: View, v: nat, p: Point, path: seq<Point>) {
    UsePath(view, v, path) && path[0] == p
  }

  // v's current value may still be read by some path that starts at p.
  ghost predicate Live(view: View, v: nat, p: Point) {
    v != 0 && exists path :: StartsUse(view, v, p, path)
  }

  ghost predicate LiveVia(view: View, v: nat, p: Point, q: Point) {
    Step(view, p, q) && Live(view, v, q)
  }

  ghost predicate LiveAfter(view: View, v: nat, p: Point) {
    exists q :: LiveVia(view, v, p, q)
  }

  // The path definition satisfies the backward data-flow equation.
  lemma LiveEquation(view: View, v: nat, p: Point)
    ensures Live(view, v, p) <==>
            v != 0 && InRange(view, p)
            && (v in InstAt(view, p).uses || (InstAt(view, p).def != v && LiveAfter(view, v, p)))
  {
    if Live(view, v, p) {
      var path :| StartsUse(view, v, p, path);
      if |path| > 1 {
        assert StartsUse(view, v, path[1], path[1..]);
        assert LiveVia(view, v, p, path[1]);
      }
    }
    if v != 0 && InRange(view, p) {
      if v in InstAt(view, p).uses {
        assert StartsUse(view, v, p, [p]);
      } else if InstAt(view, p).def != v && LiveAfter(view, v, p) {
        var q :| LiveVia(view, v, p, q);
        var path :| StartsUse(view, v, q, path);
        assert ([p] + path)[1..] == path;
        assert StartsUse(view, v, p, [p] + path);
      }
    }
  }

  lemma LiveIsVreg(view: View, v: nat, p: Point)
    requires WellFormed(view) && Live(view, v, p)
    ensures 1 <= v <= view.nvregs
  {
    var path :| StartsUse(view, v, p, path);
    UsedIsVreg(view, v, path);
  }

  lemma {:induction false} UsedIsVreg(view: View, v: nat, path: seq<Point>)
    requires WellFormed(view) && UsePath(view, v, path)
    ensures v <= view.nvregs
  {
    if |path| == 1 {
      assert InstAt(view, path[0]) in view.blocks[path[0].block];
    } else {
      UsedIsVreg(view, v, path[1..]);
    }
  }
}
