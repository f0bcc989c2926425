/** The printer's numbering table: values in document order, filled in by one walk. */
module IrValueNames {
  import opened Ir
  import opened IrTokens
  import opened IrPrint
  import opened Renumbering
  import Renumber

  const VN_NONE: nat := 0xFFFF_FFFF

  // num[id] is the place of the last definition of id so far, counted from zero.
  ghost predicate VnIs(num: seq<nat>, defs: seq<nat>) {
    forall id: nat | id < |num| :: num[id] == if NewId(defs, id) == 0 then VN_NONE else NewId(defs, id) - 1
  }

  lemma VnStep(num: seq<nat>, defs: seq<nat>, id: nat)
    requires VnIs(num, defs) && id < |num|
    ensures VnIs(num[id := |defs|], defs + [id])
  {
    assert (defs + [id])[..|defs|] == defs;
  }

  // Number the ids of a list that are not zero.
  method NumberIds(ids: seq<nat>, num: array<nat>, next: nat, ghost defs: seq<nat>) returns (next': nat)
    requires VnIs(num[..], defs) && next == |defs| && forall id | id in ids :: id < num.Length
    modifies num
    ensures VnIs(num[..], defs + NonZero(ids)) && next' == |defs + NonZero(ids)|
  {
    hide VnIs, NonZero;
    next' := next;
    var i := 0;
    Renumber.NothingBefore(ids, defs);
    while i < |ids|
      invariant 0 <= i <= |ids| && next' == |defs + NonZero(ids[..i])|
      invariant VnIs(num[..], defs + NonZero(ids[..i]))
    {
      ghost var sofar: seq<nat>, before: seq<nat> := defs + NonZero(ids[..i]), num[..];
      assert ids[i] in ids;
      Renumber.NonZeroStep(ids, i);
      if ids[i] != 0 {
        VnStep(before, sofar, ids[i]);
        num[ids[i]] := next';
        assert num[..] == before[ids[i] := |sofar|];
        next' := next' + 1;
        assert defs + NonZero(ids[..i + 1]) == sofar + [ids[i]];
      } else {
        assert defs + NonZero(ids[..i + 1]) == sofar;
      }
      i := i + 1;
    }
    assert ids[..i] == ids;
  }

  predicate IdsFit(f: Func, ids: seq<nat>) {
    forall id | id in ids :: id <= |f.vals|
  }

  // Ids in range, and no parameter without an id.
  predicate Numberable(f: Func) {
    && |f.vals| < ID_LIMIT && IdsFit(f, f.paramVals) && 0 !in f.paramVals
    && forall b | 0 <= b < |f.blocks| ::
         IdsFit(f, f.blocks[b].params) && 0 !in f.blocks[b].params && IdsFit(f, Results(f.blocks[b].insts))
  }

  method VnBuild(f: Func) returns (num: array<nat>)
    requires Numberable(f)
    ensures fresh(num) && num.Length == |f.vals| + 1 && VnIs(num[..], Defs(f))
  {
    hide VnIs, NonZero, DefsBefore;
    num := new nat[|f.vals| + 1](_ => VN_NONE);
    ghost var none: seq<nat> := [];
    VnEmpty(num[..]);
    Renumber.NoDefsYet(f, none);
    var next := NumberIds(f.paramVals, num, 0, none);
    var b := 0;
    while b < |f.blocks|
      invariant 0 <= b <= |f.blocks| && fresh(num) && num.Length == |f.vals| + 1
      invariant VnIs(num[..], DefsBefore(f, b)) && next == |DefsBefore(f, b)|
    {
      ghost var defs := DefsBefore(f, b);
      next := NumberIds(f.blocks[b].params, num, next, defs);
      next := NumberIds(Results(f.blocks[b].insts), num, next, defs + NonZero(f.blocks[b].params));
      Renumber.NextDefs(f, b);
      b := b + 1;
    }
    WholeFunction(f);
  }

  lemma WholeFunction(f: Func)
    ensures DefsBefore(f, |f.blocks|) == Defs(f)
  {
  }

  lemma VnEmpty(num: seq<nat>)
    requires forall id | 0 <= id < |num| :: num[id] == VN_NONE
    ensures VnIs(num, [])
  {
  }

  // A value is printed by its number; one that is never defined as a bad one.
  method PrintVal(f: Func, num: array<nat>, id: nat) returns (t: Tok)
    requires num.Length == |f.vals| + 1 && |Defs(f)| < VN_NONE && VnIs(num[..], Defs(f))
    ensures t == ValTok(f, id)
  {
    if id == 0 || id > |f.vals| || num[id] == VN_NONE {
      assert 0 < id <= |f.vals| ==> num[..][id] == VN_NONE;
      return Pident("bad" + Decimal(id));
    }
    assert num[..][id] == num[id];
    return Pident(Decimal(num[id]));
  }
}
