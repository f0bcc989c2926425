/** Running a function, with every way of going wrong explicit, and the proof
    that an accepted function never goes wrong on any run. */
module Execution {
  import opened Ir
  import opened Cfg
  import opened Verifier

  // A value carries the type it was made with.
  datatype Value = Value(ty: nat, bits: int)

  // Meaning of instructions: the bits an instruction computes from its operand
  // values, the edge a terminator takes (past the last edge: the function
  // ends), and the bits of an operand that is not an SSA value.
  datatype Semantics = Semantics(
    result: (nat, nat, seq<Value>) -> int,
    branch: (nat, nat, seq<Value>) -> nat,
    constant: Operand -> int)

  datatype Fault = UnassignedRead(id: nat) | BadTarget | ArityMismatch | TypeMismatch | FellOffBlock

  datatype State =
    | Running(block: nat, pos: nat, env: map<nat, Value>)
    | Finished
    | Stuck(fault: Fault)

  datatype Operands = Values(values: seq<Value>) | Unassigned(id: nat)

  function Evaluate(sem: Semantics, env: map<nat, Value>, os: seq<Operand>): Operands {
    if os == [] then Values([])
    else
      var o := os[0];
      if o.kind == OpValue && UsedId(o) !in env then Unassigned(UsedId(o))
      else
        match Evaluate(sem, env, os[1..])
        case Unassigned(id) => Unassigned(id)
        case Values(vs) => Values([if o.kind == OpValue then env[UsedId(o)] else Value(o.ty, sem.constant(o))] + vs)
  }

  // Parameters take their values together; id 0 binds nothing.
  function Bind(env: map<nat, Value>, params: seq<nat>, values: seq<Value>): map<nat, Value>
    requires |params| == |values|
    decreases params
  {
    if params == [] then env else Bind(env[params[0] := values[0]], params[1..], values[1..])
  }

  predicate TypesMatch(f: Func, values: seq<Value>, params: seq<nat>)
    requires |values| == |params|
  {
    forall j | 0 <= j < |params| :: 0 < params[j] <= |f.vals| && values[j].ty == f.vals[params[j] - 1].ty
  }

  function TakeEdge(f: Func, sem: Semantics, env: map<nat, Value>, e: Edge): State {
    match Evaluate(sem, env, e.args)
    case Unassigned(id) => Stuck(UnassignedRead(id))
    case Values(vs) =>
      if e.target == 0 || e.target > |f.blocks| then Stuck(BadTarget)
      else
        var params := f.blocks[e.target - 1].params;
        if |vs| != |params| then Stuck(ArityMismatch)
        else if !TypesMatch(f, vs, params) then Stuck(TypeMismatch)
        else Running(e.target - 1, 0, Bind(env, params, vs))
  }

  function Step(f: Func, sem: Semantics, s: State): State {
    if !s.Running? then s
    else if s.block >= |f.blocks| || s.pos >= |f.blocks[s.block].insts| then Stuck(FellOffBlock)
    else
      var inst := f.blocks[s.block].insts[s.pos];
      match Evaluate(sem, s.env, inst.ops)
      case Unassigned(id) => Stuck(UnassignedRead(id))
      case Values(vs) =>
        if IsTerminator(inst.op) then
          var k := sem.branch(s.block, s.pos, vs);
          if k >= |inst.edges| then Finished else TakeEdge(f, sem, s.env, inst.edges[k])
        else
          Running(s.block, s.pos + 1,
                  if inst.result == 0 then s.env else s.env[inst.result := Value(inst.ty, sem.result(s.block, s.pos, vs))])
  }

  function Run(f: Func, sem: Semantics, s: State, n: nat): State {
    if n == 0 then s else Step(f, sem, Run(f, sem, s, n - 1))
  }

  // --- the definition table agrees with the instructions --------------------------

  // Terminators define nothing.
  predicate Defines(inst: Inst, id: nat) {
    inst.result == id && !IsTerminator(inst.op)
  }

  ghost predicate DefinedWhere(f: Func, id: nat) {
    0 < id <= |f.vals|
    && var vi := f.vals[id - 1];
       match vi.kind
       case DefNone => true
       case DefFparam => id in f.paramVals
       case DefBparam => 0 < vi.block <= |f.blocks| && id in f.blocks[vi.block - 1].params
       case DefInst =>
         && 0 < vi.block <= |f.blocks| && vi.pos < |f.blocks[vi.block - 1].insts|
         && Defines(f.blocks[vi.block - 1].insts[vi.pos], id)
  }

  ghost predicate TableAgrees(f: Func) {
    forall id: nat | 0 < id <= |f.vals| :: DefinedWhere(f, id)
  }

  // The table records the type each instruction was built with.
  ghost predicate TypesTabled(f: Func) {
    forall b: nat, k: nat | b < |f.blocks| && k < |f.blocks[b].insts| :: ResultTyped(f, f.blocks[b].insts[k])
  }

  predicate ResultTyped(f: Func, inst: Inst) {
    !IsTerminator(inst.op) && 0 < inst.result <= |f.vals| ==> f.vals[inst.result - 1].ty == inst.ty
  }

  // Every value argument is annotated with the type of the value it names.
  predicate TrueArgs(f: Func, args: seq<Operand>) {
    forall o | o in args && o.kind == OpValue && 0 < UsedId(o) <= |f.vals| :: o.ty == f.vals[UsedId(o) - 1].ty
  }

  ghost predicate TrueEdges(f: Func) {
    forall b: nat, i: nat, k: nat | b < |f.blocks| && i < |f.blocks[b].insts| && k < |f.blocks[b].insts[i].edges| ::
      TrueArgs(f, f.blocks[b].insts[i].edges[k].args)
  }

  // --- what a run has assigned -------------------------------------------------------

  predicate BlockAssigns(block: Block, pos: nat, id: nat) {
    id in block.params || exists k :: 0 <= k < pos && k < |block.insts| && Defines(block.insts[k], id)
  }

  // After walking path to its last block and executing the first pos
  // instructions there.
  ghost predicate Assigned(f: Func, path: seq<nat>, pos: nat, id: nat) {
    || id in f.paramVals
    || (exists k | 0 <= k < |path| :: path[k] < |f.blocks| &&
          BlockAssigns(f.blocks[path[k]], if k == |path| - 1 then pos else |f.blocks[path[k]].insts|, id))
  }

  ghost predicate Walked(f: Func, s: State, path: seq<nat>) {
    && s.Running? && PathTo(f.blocks, path, s.block)
    && s.block < |f.blocks| && s.pos < |f.blocks[s.block].insts|
    && (forall id: nat | id != 0 && Assigned(f, path, s.pos, id) :: id in s.env)
    && TypedEnv(f, s.env)
  }

  ghost predicate TypedEnv(f: Func, env: map<nat, Value>) {
    forall id | id in env && 0 < id <= |f.vals| :: env[id].ty == f.vals[id - 1].ty
  }

  ghost predicate Healthy(f: Func, s: State) {
    s.Finished? || exists path :: Walked(f, s, path)
  }

  // A use the verifier accepts has been assigned on the path walked so far.
  lemma AcceptedUseAssigned(f: Func, o: Operand, path: seq<nat>, b: nat, pos: nat)
    requires TableAgrees(f) && UseOk(f, o, b + 1, pos) && o.kind == OpValue
    requires PathTo(f.blocks, path, b) && b < |f.blocks|
    ensures Assigned(f, path, pos, UsedId(o))
  {
    var id := UsedId(o);
    assert DefinedWhere(f, id);
    var vi := f.vals[id - 1];
    if vi.kind == DefBparam || vi.kind == DefInst {
      var d := vi.block - 1;
      if d == b {
        assert path[|path| - 1] == b;
        assert BlockAssigns(f.blocks[b], pos, id);
      } else {
        assert d in path;
        var k :| 0 <= k < |path| && path[k] == d;
        assert BlockAssigns(f.blocks[d], |f.blocks[d].insts|, id);
      }
    }
  }

  lemma {:induction false} EvaluateSucceeds(sem: Semantics, env: map<nat, Value>, os: seq<Operand>)
    requires forall o | o in os && o.kind == OpValue :: UsedId(o) in env
    ensures Evaluate(sem, env, os).Values? && |Evaluate(sem, env, os).values| == |os|
  {
    if os != [] {
      assert os[0] in os;
      EvaluateSucceeds(sem, env, os[1..]);
    }
  }

  lemma OperandsEvaluate(f: Func, sem: Semantics, s: State, path: seq<nat>, os: seq<Operand>)
    requires TableAgrees(f) && Walked(f, s, path) && UsesOk(f, os, s.block + 1, s.pos)
    ensures Evaluate(sem, s.env, os).Values? && |Evaluate(sem, s.env, os).values| == |os|
  {
    forall o | o in os && o.kind == OpValue
      ensures UsedId(o) in s.env
    {
      assert UseOk(f, o, s.block + 1, s.pos);
      AcceptedUseAssigned(f, o, path, s.block, s.pos);
    }
    EvaluateSucceeds(sem, s.env, os);
  }

  // The type an operand's value carries: its definition's, not its annotation.
  function CarriedType(f: Func, o: Operand): nat {
    if o.kind == OpValue && 0 < UsedId(o) <= |f.vals| then f.vals[UsedId(o) - 1].ty else o.ty
  }

  lemma {:induction false} EvaluatedTypes(f: Func, sem: Semantics, env: map<nat, Value>, os: seq<Operand>)
    requires TypedEnv(f, env) && forall o | o in os && o.kind == OpValue :: 0 < UsedId(o) <= |f.vals|
    requires Evaluate(sem, env, os).Values?
    ensures var vs := Evaluate(sem, env, os).values;
            |vs| == |os| && forall j | 0 <= j < |os| :: vs[j].ty == CarriedType(f, os[j])
  {
    if os != [] {
      assert os[0] in os;
      EvaluatedTypes(f, sem, env, os[1..]);
    }
  }

  lemma {:induction false} BindAssigns(f: Func, env: map<nat, Value>, params: seq<nat>, values: seq<Value>)
    requires |params| == |values| && TypesMatch(f, values, params) && TypedEnv(f, env)
    ensures forall id :: id in Bind(env, params, values) <==> id in env || id in params
    ensures TypedEnv(f, Bind(env, params, values))
    decreases params
  {
    if params != [] {
      BindAssigns(f, env[params[0] := values[0]], params[1..], values[1..]);
    }
  }

  // Executing an ordinary instruction.
  lemma AdvanceHealthy(f: Func, sem: Semantics, s: State, path: seq<nat>, s': State)
    requires Walked(f, s, path) && s' == Step(f, sem, s) && s'.Running?
    requires s'.block == s.block && s'.pos == s.pos + 1 < |f.blocks[s.block].insts|
    requires var r := f.blocks[s.block].insts[s.pos].result; s'.env.Keys >= s.env.Keys && (r != 0 ==> r in s'.env)
    requires TypedEnv(f, s'.env)
    ensures Walked(f, s', path)
  {
    forall id: nat | id != 0 && Assigned(f, path, s'.pos, id)
      ensures id in s'.env
    {
      if !Assigned(f, path, s.pos, id) {
        var k :| 0 <= k < |path| && path[k] < |f.blocks| &&
          BlockAssigns(f.blocks[path[k]], if k == |path| - 1 then s'.pos else |f.blocks[path[k]].insts|, id);
        assert k == |path| - 1;
      }
    }
  }

  // An accepted edge passes the parameters' types exactly when its value
  // arguments are annotated truly: the verifier compares the annotations only.
  lemma EdgeTypesExactly(f: Func, sem: Semantics, s: State, path: seq<nat>, e: Edge)
    requires TableAgrees(f) && Walked(f, s, path) && EdgeOk(f, e, s.block + 1, s.pos)
    ensures TakeEdge(f, sem, s.env, e) == Stuck(TypeMismatch) <==> !TrueArgs(f, e.args)
    ensures TrueArgs(f, e.args) ==> TakeEdge(f, sem, s.env, e).Running?
  {
    OperandsEvaluate(f, sem, s, path, e.args);
    forall o | o in e.args && o.kind == OpValue
      ensures 0 < UsedId(o) <= |f.vals|
    {
      assert UseOk(f, o, s.block + 1, s.pos);
    }
    EvaluatedTypes(f, sem, s.env, e.args);
    var vs, params := Evaluate(sem, s.env, e.args).values, f.blocks[e.target - 1].params;
    if TypesMatch(f, vs, params) {
      forall o | o in e.args && o.kind == OpValue
        ensures o.ty == f.vals[UsedId(o) - 1].ty
      {
        var j :| 0 <= j < |e.args| && e.args[j] == o;
        assert vs[j].ty == f.vals[params[j] - 1].ty == o.ty;
      }
    }
  }

  // Taking an accepted edge annotated truly.
  lemma EdgeHealthy(f: Func, sem: Semantics, instOk: (nat, nat) -> bool, s: State, path: seq<nat>, e: Edge, k: nat)
    requires Accepts(f, instOk) && TableAgrees(f) && Walked(f, s, path)
    requires s.pos == |f.blocks[s.block].insts| - 1 && k < |f.blocks[s.block].insts[s.pos].edges|
    requires e == f.blocks[s.block].insts[s.pos].edges[k] && EdgeOk(f, e, s.block + 1, s.pos) && TrueArgs(f, e.args)
    ensures Healthy(f, TakeEdge(f, sem, s.env, e))
  {
    OperandsEvaluate(f, sem, s, path, e.args);
    EdgeTypesExactly(f, sem, s, path, e);
    var vs, t := Evaluate(sem, s.env, e.args).values, e.target - 1;
    var s' := TakeEdge(f, sem, s.env, e);
    var params := f.blocks[t].params;
    assert s' == Running(t, 0, Bind(s.env, params, vs));
    BindAssigns(f, s.env, params, vs);
    assert ArcAt(f.blocks, s.block, s.pos, k, t);
    ExtendPath(f.blocks, path, s.block, t);
    assert BlockOk(f, instOk, t) && BlockOk(f, instOk, s.block);
    var path' := path + [t];
    forall id: nat | id != 0 && Assigned(f, path', 0, id)
      ensures id in s'.env
    {
      EdgeAssigns(f, path, s.block, s.pos, t, id);
    }
    assert Walked(f, s', path');
  }

  lemma EdgeAssigns(f: Func, path: seq<nat>, b: nat, pos: nat, t: nat, id: nat)
    requires PathTo(f.blocks, path, b) && b < |f.blocks| && t < |f.blocks| && pos == |f.blocks[b].insts| - 1
    requires Assigned(f, path + [t], 0, id)
    ensures Assigned(f, path, pos, id) || id in f.blocks[t].params || Defines(f.blocks[b].insts[pos], id)
  {
    var path' := path + [t];
    if id !in f.paramVals {
      var k :| 0 <= k < |path'| && path'[k] < |f.blocks| &&
        BlockAssigns(f.blocks[path'[k]], if k == |path'| - 1 then 0 else |f.blocks[path'[k]].insts|, id);
      if k < |path| - 1 {
        assert BlockAssigns(f.blocks[path[k]], |f.blocks[path[k]].insts|, id);
      } else if k == |path| - 1 {
        assert BlockAssigns(f.blocks[b], pos, id) || Defines(f.blocks[b].insts[pos], id);
      }
    }
  }

  // The only thing that can go wrong in a step is an argument of a wrong type.
  ghost predicate HealthyOrMistyped(f: Func, s: State) {
    Healthy(f, s) || s == Stuck(TypeMismatch)
  }

  lemma StepHealthy(f: Func, sem: Semantics, instOk: (nat, nat) -> bool, s: State)
    requires Accepts(f, instOk) && TableAgrees(f) && TypesTabled(f) && HealthyOrMistyped(f, s)
    ensures HealthyOrMistyped(f, Step(f, sem, s))
    ensures TrueEdges(f) && Healthy(f, s) ==> Healthy(f, Step(f, sem, s))
  {
    if s.Running? {
      var path :| Walked(f, s, path);
      assert BlockOk(f, instOk, s.block) && InstOk(f, instOk, s.block, s.pos);
      var inst := f.blocks[s.block].insts[s.pos];
      OperandsEvaluate(f, sem, s, path, inst.ops);
      var vs := Evaluate(sem, s.env, inst.ops).values;
      if IsTerminator(inst.op) {
        var k := sem.branch(s.block, s.pos, vs);
        if k < |inst.edges| {
          EdgeTypesExactly(f, sem, s, path, inst.edges[k]);
          if TrueArgs(f, inst.edges[k].args) {
            EdgeHealthy(f, sem, instOk, s, path, inst.edges[k], k);
          }
        }
      } else {
        assert ResultTyped(f, inst);
        AdvanceHealthy(f, sem, s, path, Step(f, sem, s));
      }
    }
  }

  // A run starts at the entry with the function's parameters assigned.
  ghost predicate StartState(f: Func, s: State) {
    && s.Running? && s.block == 0 && s.pos == 0 && TypedEnv(f, s.env)
    && forall id | id in f.paramVals && id != 0 :: id in s.env
  }

  lemma StartHealthy(f: Func, instOk: (nat, nat) -> bool, s: State)
    requires Accepts(f, instOk) && StartState(f, s)
    ensures Healthy(f, s)
  {
    assert PathTo(f.blocks, [0], 0) && BlockOk(f, instOk, 0);
    assert Walked(f, s, [0]);
  }

  // The main theorem: whatever instructions compute and branches choose, a run
  // of an accepted function never reads an unassigned value, never takes an
  // edge with a wrong target or argument count, and never runs off a block;
  // and never passes a value of a wrong type if every edge is annotated truly.
  lemma {:induction false} AcceptedNeverStuck(f: Func, sem: Semantics, instOk: (nat, nat) -> bool, s: State, n: nat)
    requires Accepts(f, instOk) && TableAgrees(f) && TypesTabled(f) && StartState(f, s)
    ensures HealthyOrMistyped(f, Run(f, sem, s, n))
    ensures TrueEdges(f) ==> Healthy(f, Run(f, sem, s, n)) && !Run(f, sem, s, n).Stuck?
  {
    if n == 0 {
      StartHealthy(f, instOk, s);
    } else {
      AcceptedNeverStuck(f, sem, instOk, s, n - 1);
      StepHealthy(f, sem, instOk, Run(f, sem, s, n - 1));
    }
  }
}
