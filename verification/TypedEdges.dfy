/** What the verifier leaves open about types: it compares an edge argument's
    annotation with the parameter, never with the value the argument names. So a
    run can pass a value of a wrong type exactly when some edge is annotated
    wrongly. */
module TypedEdges {
  import opened Shared
  import opened Ir
  import opened Cfg
  import opened Verifier
  import opened Execution

  // Only terminators are built with edges.
  ghost predicate BranchesOnly(f: Func) {
    forall b: nat, i: nat | b < |f.blocks| && i < |f.blocks[b].insts| ::
      f.blocks[b].insts[i].edges == [] || IsTerminator(f.blocks[b].insts[i].op)
  }

  // --- a path without repetition ---------------------------------------------------

  lemma {:induction false} SimplePath(g: Graph, p: seq<nat>, b: nat) returns (q: seq<nat>)
    requires PathTo(g, p, b)
    ensures PathTo(g, q, b) && Distinct(q)
    decreases |p|
  {
    if |p| == 1 {
      q := p;
    } else {
      DropLast(g, p, b);
      var front := SimplePath(g, p[..|p| - 1], p[|p| - 2]);
      if b in front {
        var k :| 0 <= k < |front| && front[k] == b;
        q := front[..k + 1];
        forall j | 0 < j < |q|
          ensures Arc(g, q[j - 1], q[j])
        {
          assert Arc(g, front[j - 1], front[j]);
        }
      } else {
        ExtendPath(g, front, p[|p| - 2], b);
        q := front + [b];
      }
    }
  }

  // --- a semantics that walks it -----------------------------------------------------

  ghost predicate EdgeAt(f: Func, b: nat, e: nat, t: nat) {
    && b < |f.blocks| && f.blocks[b].insts != []
    && var edges := f.blocks[b].insts[|f.blocks[b].insts| - 1].edges;
       e < |edges| && edges[e].target == t + 1
  }

  ghost function NextEdge(f: Func, b: nat, t: nat): nat {
    if e: nat :| EdgeAt(f, b, e, t) then e else 0
  }

  ghost predicate IsStep(p: seq<nat>, j: nat, b: nat) {
    j + 1 < |p| && p[j] == b
  }

  // Follows p, and leaves any other block by edge `last`.
  ghost function Choice(f: Func, p: seq<nat>, last: nat, b: nat): nat {
    if j: nat :| IsStep(p, j, b) then NextEdge(f, b, p[j + 1]) else last
  }

  ghost function Driver(f: Func, p: seq<nat>, last: nat): Semantics {
    Semantics((b: nat, pos: nat, vs: seq<Value>) => 0, (b: nat, pos: nat, vs: seq<Value>) => Choice(f, p, last, b), o => 0)
  }

  lemma NextEdgeLeads(f: Func, b: nat, t: nat)
    requires BranchesOnly(f) && Arc(f.blocks, b, t) && TerminatorLast(f.blocks[b])
    ensures EdgeAt(f, b, NextEdge(f, b, t), t)
  {
    var i: nat, e: nat :| ArcAt(f.blocks, b, i, e, t);
    assert i == |f.blocks[b].insts| - 1;
    assert EdgeAt(f, b, e, t);
  }

  lemma ChoiceOnPath(f: Func, p: seq<nat>, last: nat, k: nat)
    requires Distinct(p) && k < |p|
    ensures Choice(f, p, last, p[k]) == if k + 1 < |p| then NextEdge(f, p[k], p[k + 1]) else last
  {
    forall j | IsStep(p, j, p[k])
      ensures j == k
    {
    }
    if k + 1 < |p| {
      assert IsStep(p, k, p[k]);
    }
  }

  ghost predicate NeverStuck(f: Func, sem: Semantics, s: State) {
    forall n: nat :: !Run(f, sem, s, n).Stuck?
  }

  ghost predicate At(st: State, b: nat, pos: nat) {
    st.Running? && st.block == b && st.pos == pos
  }

  lemma StepInBlock(f: Func, sem: Semantics, s: State, n: nat, b: nat, pos: nat)
    requires NeverStuck(f, sem, s) && b < |f.blocks| && TerminatorLast(f.blocks[b])
    requires At(Run(f, sem, s, n), b, pos) && pos + 1 < |f.blocks[b].insts|
    ensures At(Run(f, sem, s, n + 1), b, pos + 1)
  {
    assert !Run(f, sem, s, n + 1).Stuck?;
  }

  lemma {:induction false} ToTerminator(f: Func, sem: Semantics, s: State, n: nat, b: nat, pos: nat) returns (m: nat)
    requires NeverStuck(f, sem, s) && b < |f.blocks| && TerminatorLast(f.blocks[b])
    requires At(Run(f, sem, s, n), b, pos) && pos < |f.blocks[b].insts|
    ensures At(Run(f, sem, s, m), b, |f.blocks[b].insts| - 1)
    decreases |f.blocks[b].insts| - pos
  {
    if pos == |f.blocks[b].insts| - 1 {
      m := n;
    } else {
      StepInBlock(f, sem, s, n, b, pos);
      m := ToTerminator(f, sem, s, n + 1, b, pos + 1);
    }
  }

  // At the end of a block the semantics takes the edge it chose.
  lemma TakesEdge(f: Func, p: seq<nat>, last: nat, sem: Semantics, s: State, n: nat, b: nat, e: nat)
    requires sem == Driver(f, p, last) && Choice(f, p, last, b) == e
    requires NeverStuck(f, sem, s) && b < |f.blocks| && TerminatorLast(f.blocks[b])
    requires At(Run(f, sem, s, n), b, |f.blocks[b].insts| - 1)
    requires var edges := f.blocks[b].insts[|f.blocks[b].insts| - 1].edges; e < |edges|
    ensures var edge := f.blocks[b].insts[|f.blocks[b].insts| - 1].edges[e];
            && Run(f, sem, s, n + 1) == TakeEdge(f, sem, Run(f, sem, s, n).env, edge)
            && Run(f, sem, s, n + 1).Running?
            && At(Run(f, sem, s, n + 1), edge.target - 1, 0)
  {
    var st := Run(f, sem, s, n);
    assert !Run(f, sem, s, n + 1).Stuck?;
    assert Run(f, sem, s, n + 1) == Step(f, sem, st);
    var vs := Evaluate(sem, st.env, f.blocks[b].insts[st.pos].ops);
    assert vs.Values?;
    assert sem.branch(b, st.pos, vs.values) == e;
  }

  lemma {:induction false} Follow(f: Func, instOk: (nat, nat) -> bool, p: seq<nat>, last: nat, s: State, k: nat) returns (n: nat)
    requires Accepts(f, instOk) && BranchesOnly(f) && Distinct(p) && IsPath(f.blocks, p) && p[0] == 0 && k < |p|
    requires NeverStuck(f, Driver(f, p, last), s) && At(s, 0, 0)
    ensures At(Run(f, Driver(f, p, last), s, n), p[k], 0)
  {
    hide Step, TakeEdge, Choice, NextEdge;
    if k == 0 {
      n := 0;
    } else {
      var sem, b := Driver(f, p, last), p[k - 1];
      n := Follow(f, instOk, p, last, s, k - 1);
      PathInRange(f.blocks, p, k - 1);
      assert BlockOk(f, instOk, b);
      n := ToTerminator(f, sem, s, n, b, 0);
      assert Arc(f.blocks, b, p[k]);
      NextEdgeLeads(f, b, p[k]);
      ChoiceOnPath(f, p, last, k - 1);
      TakesEdge(f, p, last, sem, s, n, b, NextEdge(f, b, p[k]));
      n := n + 1;
    }
  }

  lemma Startable(f: Func) returns (s: State)
    ensures StartState(f, s)
  {
    var env: map<nat, Value> := map id | id in f.paramVals :: Value(if 0 < id <= |f.vals| then f.vals[id - 1].ty else 0, 0);
    s := Running(0, 0, env);
  }

  ghost predicate WrongAt(f: Func, b: nat, i: nat, k: nat) {
    && b < |f.blocks| && i < |f.blocks[b].insts| && k < |f.blocks[b].insts[i].edges|
    && !TrueArgs(f, f.blocks[b].insts[i].edges[k].args)
  }

  lemma WrongSomewhere(f: Func)
    requires !TrueEdges(f)
    ensures exists b, i, k :: WrongAt(f, b, i, k)
  {
    hide TrueArgs;
    var b: nat, i: nat, k: nat :| b < |f.blocks| && i < |f.blocks[b].insts| && k < |f.blocks[b].insts[i].edges|
      && !TrueArgs(f, f.blocks[b].insts[i].edges[k].args);
    assert WrongAt(f, b, i, k);
  }

  // A wrongly annotated edge is reached and taken on some run.
  lemma WrongEdgeTaken(f: Func, instOk: (nat, nat) -> bool, b: nat, i: nat, k: nat) returns (sem: Semantics, s: State)
    requires Accepts(f, instOk) && TableAgrees(f) && TypesTabled(f) && BranchesOnly(f)
    requires WrongAt(f, b, i, k)
    ensures StartState(f, s) && !NeverStuck(f, sem, s)
  {
    hide Step, TakeEdge, Choice, TrueArgs, EdgeOk;
    assert BlockOk(f, instOk, b) && InstOk(f, instOk, b, i);
    var walk :| PathTo(f.blocks, walk, b);
    var p := SimplePath(f.blocks, walk, b);
    sem := Driver(f, p, k);
    s := Startable(f);
    if NeverStuck(f, sem, s) {
      var n := Follow(f, instOk, p, k, s, |p| - 1);
      n := ToTerminator(f, sem, s, n, b, 0);
      ChoiceOnPath(f, p, k, |p| - 1);
      TakesEdge(f, p, k, sem, s, n, b, k);
      AcceptedNeverStuck(f, sem, instOk, s, n);
      var st, edge := Run(f, sem, s, n), f.blocks[b].insts[i].edges[k];
      var path :| Walked(f, st, path);
      EdgeTypesExactly(f, sem, st, path, edge);
      assert false;
    }
  }

  // Whatever instructions compute and branches choose, no run of an accepted
  // function goes wrong: exactly when every edge is annotated truly.
  lemma NeverStuckExactly(f: Func, instOk: (nat, nat) -> bool)
    requires Accepts(f, instOk) && TableAgrees(f) && TypesTabled(f) && BranchesOnly(f)
    ensures TrueEdges(f) <==> forall sem, s | StartState(f, s) :: NeverStuck(f, sem, s)
  {
    hide TrueArgs, StartState;
    forall sem, s | TrueEdges(f) && StartState(f, s)
      ensures NeverStuck(f, sem, s)
    {
      forall n: nat
        ensures !Run(f, sem, s, n).Stuck?
      {
        AcceptedNeverStuck(f, sem, instOk, s, n);
      }
    }
    if !TrueEdges(f) {
      WrongSomewhere(f);
      var b, i, k :| WrongAt(f, b, i, k);
      var sem, s := WrongEdgeTaken(f, instOk, b, i, k);
    }
  }

  // --- a concrete case -----------------------------------------------------------------

  const TYPE_F64: nat := 5
  const IR_BR: nat := 53

  const Parameter: Operand := Operand(OpValue, TYPE_F64, 0, 0, 1, 0)

  // The i32 parameter is passed on under the annotation f64.
  function Mislabelled(): Func {
    var leave := Inst(0, IR_BR, 0, 0, 0, 0, 0, [], [Edge(2, [Parameter], 0)]);
    var ret := Inst(1, IR_RET, 0, 0, 0, 0, 0, [], []);
    Func([1], [Block("entry", [], [leave]), Block("next", [2], [ret])],
         [ValInfo(TYPE_I32, DefFparam, 0, 0), ValInfo(TYPE_F64, DefBparam, 2, 0)])
  }

  // The verifier accepts it: checks 4 and 7 to 9 say nothing of a branch or a
  // return without operands or flags.
  lemma MislabelledAccepted()
    ensures Accepts(Mislabelled(), (b, pos) => true) && TableAgrees(Mislabelled()) && TypesTabled(Mislabelled())
  {
    var f := Mislabelled();
    var g := f.blocks;
    assert ArcAt(g, 0, 0, 0, 1);
    ExtendPath(g, [0], 0, 1);
    EntryReachable(g);
    assert PathTo(g, [0] + [1], 1);
    assert UseOk(f, Parameter, 1, 0);
    assert BlockOk(f, (b, pos) => true, 0);
    assert BlockOk(f, (b, pos) => true, 1);
  }

  // And a run that branches passes an i32 as an f64.
  lemma MislabelledPasses(sem: Semantics, s: State)
    requires StartState(Mislabelled(), s) && sem.branch(0, 0, []) == 0
    ensures Run(Mislabelled(), sem, s, 1) == Stuck(TypeMismatch)
  {
    var f := Mislabelled();
    var e := f.blocks[0].insts[0].edges[0];
    assert s.env[1].ty == TYPE_I32;
    assert e.args == [Parameter];
    assert Evaluate(sem, s.env, e.args[1..]) == Values([]);
    assert Evaluate(sem, s.env, e.args) == Values([s.env[1]] + []);
    assert !TypesMatch(f, [s.env[1]] + [], [2]) by {
      assert ([s.env[1]] + [])[0].ty != f.vals[[2][0] - 1].ty;
    }
    assert TakeEdge(f, sem, s.env, e) == Stuck(TypeMismatch);
    assert Run(f, sem, s, 0) == s;
  }
}
