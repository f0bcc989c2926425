/** A module's symbol table: names interned through a hash index, and for each
    symbol where it is defined, kept in step as globals and functions come and go. */
module Symbols {
  import opened Shared
  import opened Probing

  datatype Linkage = Internal | External | Weak | Common

  // A global or a function, as far as binding goes.
  datatype Definition = Definition(name: string, linkage: Linkage)

  datatype DefKind = NoDef | GlobalDef | FuncDef

  datatype SymAttrs = SymAttrs(defKind: DefKind, defIndex: nat)

  datatype SymBinding = SymBinding(definedHere: bool, external: bool)

  function Names(defs: seq<Definition>): (r: seq<string>) {
    seq(|defs|, i requires 0 <= i < |defs| => defs[i].name)
  }

  // Where a scan of the definitions finds a name; globals come first.
  function DefinedAt(name: string, globals: seq<Definition>, funcs: seq<Definition>): SymAttrs {
    var g, f := Find(Names(globals), name), Find(Names(funcs), name);
    if g < |globals| then SymAttrs(GlobalDef, g) else if f < |funcs| then SymAttrs(FuncDef, f) else SymAttrs(NoDef, 0)
  }

  function BindingOf(name: string, globals: seq<Definition>, funcs: seq<Definition>): SymBinding {
    var at := DefinedAt(name, globals, funcs);
    match at.defKind
    case GlobalDef => SymBinding(true, globals[at.defIndex].linkage != Internal)
    case FuncDef => SymBinding(true, funcs[at.defIndex].linkage != Internal)
    case NoDef => SymBinding(false, true)
  }

  ghost predicate Interned(syms: seq<string>, defs: seq<Definition>) {
    forall k | 0 <= k < |defs| :: defs[k].name in syms
  }

  // The recorded definition sites are those a scan would find.
  ghost predicate Coherent(syms: seq<string>, attrs: seq<SymAttrs>, globals: seq<Definition>, funcs: seq<Definition>) {
    && |attrs| == |syms| && Interned(syms, globals) && Interned(syms, funcs)
    && forall s | 0 <= s < |syms| :: attrs[s] == DefinedAt(syms[s], globals, funcs)
  }

  lemma FindName(defs: seq<Definition>, d: Definition, name: string)
    ensures Find(Names(defs + [d]), name) ==
              if Find(Names(defs), name) < |defs| then Find(Names(defs), name)
              else if d.name == name then |defs|
              else |defs| + 1
  {
    assert Names(defs + [d]) == Names(defs) + [d.name];
    FindStable(Names(defs), [d.name], name);
  }

  // A symbol nothing defines yet.
  lemma NewSymbolCoherent(syms: seq<string>, attrs: seq<SymAttrs>, globals: seq<Definition>, funcs: seq<Definition>, name: string)
    requires Coherent(syms, attrs, globals, funcs) && name !in syms
    ensures Coherent(syms + [name], attrs + [SymAttrs(NoDef, 0)], globals, funcs)
  {
    NotDefined(syms, globals, name);
    NotDefined(syms, funcs, name);
  }

  lemma NotDefined(syms: seq<string>, defs: seq<Definition>, name: string)
    requires Interned(syms, defs) && name !in syms
    ensures Find(Names(defs), name) == |defs|
  {
    forall i | 0 <= i < |defs|
      ensures Names(defs)[i] != name
    {
      assert defs[i].name in syms;
    }
  }

  lemma GlobalCoherent(syms: seq<string>, attrs: seq<SymAttrs>, globals: seq<Definition>, funcs: seq<Definition>, d: Definition, s: nat)
    requires Coherent(syms, attrs, globals, funcs) && Distinct(syms) && s < |syms| && syms[s] == d.name
    ensures Coherent(syms, if attrs[s].defKind.GlobalDef? then attrs else attrs[s := SymAttrs(GlobalDef, |globals|)], globals + [d], funcs)
  {
    hide Names;
    forall t | 0 <= t < |syms|
      ensures t != s ==> DefinedAt(syms[t], globals + [d], funcs) == attrs[t]
    {
      FindName(globals, d, syms[t]);
    }
    FindName(globals, d, d.name);
  }

  lemma FuncCoherent(syms: seq<string>, attrs: seq<SymAttrs>, globals: seq<Definition>, funcs: seq<Definition>, d: Definition, s: nat)
    requires Coherent(syms, attrs, globals, funcs) && Distinct(syms) && s < |syms| && syms[s] == d.name
    ensures Coherent(syms, if attrs[s].defKind.NoDef? then attrs[s := SymAttrs(FuncDef, |funcs|)] else attrs, globals, funcs + [d])
  {
    hide Names;
    forall t | 0 <= t < |syms|
      ensures t != s ==> DefinedAt(syms[t], globals, funcs + [d]) == attrs[t]
    {
      FindName(funcs, d, syms[t]);
    }
    FindName(funcs, d, d.name);
  }

  // The most symbols the index can be sized for.
  const INDEX_LIMIT: nat := 0xFFFF_FFFF / 4

  class IrModule {
    const hash: string -> nat
    var syms: seq<string>
    var attrs: seq<SymAttrs>
    var slots: array<nat>
    var indexed: nat
    var globals: seq<Definition>
    var funcs: seq<Definition>

    // The index is current, or will be rebuilt before it is used.
    ghost predicate IndexValid()
      reads this, slots
    {
      && Distinct(syms) && |attrs| == |syms|
      && (slots.Length > 0 && indexed == |syms| ==> Indexed(hash, syms, |syms|, slots[..]))
    }

    ghost predicate Valid()
      reads this, slots
    {
      IndexValid() && Coherent(syms, attrs, globals, funcs)
    }

    constructor (hash: string -> nat)
      ensures Valid() && fresh(slots) && this.hash == hash && syms == [] && globals == [] && funcs == []
    {
      this.hash := hash;
      syms, attrs, globals, funcs, indexed := [], [], [], [], 0;
      slots := new nat[0];
    }

    // Whatever shape the table is in, an empty slot ends the probe.
    method EnsureIndex()
      requires IndexValid() && |syms| < INDEX_LIMIT
      modifies this`slots, this`indexed
      ensures IndexValid() && indexed == |syms| < slots.Length && Indexed(hash, syms, |syms|, slots[..])
      ensures slots == old(slots) || fresh(slots)
    {
      if slots.Length == 0 || indexed != |syms| || |syms| >= slots.Length - slots.Length / 4 {
        slots := Rebuild(hash, syms, |syms| + 1);
        indexed := |syms|;
      }
    }

    // The index a linear search for the name would give, the next one if it is new.
    method IrSym(name: string) returns (index: nat)
      requires IndexValid() && |syms| < INDEX_LIMIT
      modifies this`syms, this`attrs, this`slots, this`indexed, slots
      ensures IndexValid() && (slots == old(slots) || fresh(slots))
      ensures index == Find(old(syms), name) < |syms| && syms[index] == name && syms == Inserted(old(syms), name)
      ensures attrs == if name in old(syms) then old(attrs) else old(attrs) + [SymAttrs(NoDef, 0)]
      ensures old(Coherent(syms, attrs, globals, funcs)) ==> Coherent(syms, attrs, globals, funcs)
    {
      hide Indexed, Coherent;
      ghost var was := syms;
      EnsureIndex();
      var at, d := Probe(hash, syms, |syms|, slots, name);
      if slots[at] != 0 {
        return slots[at] - 1;
      }
      AppendedKeeps(hash, syms, slots[..], name, d);
      assert syms[..|syms|] == syms;
      if Coherent(syms, attrs, globals, funcs) {
        NewSymbolCoherent(syms, attrs, globals, funcs, name);
      }
      syms := syms + [name];
      attrs := attrs + [SymAttrs(NoDef, 0)];
      slots[at] := |syms|;
      indexed := |syms|;
      return |syms| - 1;
    }

    method IrGlobalNew(d: Definition)
      requires Valid() && |syms| < INDEX_LIMIT
      modifies this`syms, this`attrs, this`slots, this`indexed, this`globals, slots
      ensures Valid() && globals == old(globals) + [d] && syms == Inserted(old(syms), d.name)
      ensures slots == old(slots) || fresh(slots)
    {
      hide Indexed, Coherent;
      var n := |globals|;
      var s := IrSym(d.name);
      GlobalCoherent(syms, attrs, globals, funcs, d, s);
      globals := globals + [d];
      if !attrs[s].defKind.GlobalDef? {
        attrs := attrs[s := SymAttrs(GlobalDef, n)];
      }
    }

    method IrFuncNew(d: Definition)
      requires Valid() && |syms| < INDEX_LIMIT
      modifies this`syms, this`attrs, this`slots, this`indexed, this`funcs, slots
      ensures Valid() && funcs == old(funcs) + [d] && syms == Inserted(old(syms), d.name)
      ensures slots == old(slots) || fresh(slots)
    {
      hide Indexed, Coherent;
      var n := |funcs|;
      var s := IrSym(d.name);
      FuncCoherent(syms, attrs, globals, funcs, d, s);
      funcs := funcs + [d];
      if attrs[s].defKind.NoDef? {
        attrs := attrs[s := SymAttrs(FuncDef, n)];
      }
    }

    // Forget where functions are, then record the functions there are now.
    method IrModuleRefreshFuncSymbolDefs(ghost before: seq<Definition>)
      requires IndexValid() && Coherent(syms, attrs, globals, before)
      requires |syms| + |funcs| < INDEX_LIMIT
      modifies this`syms, this`attrs, this`slots, this`indexed, slots
      ensures Valid() && syms == InsertedAll(old(syms), Names(funcs)) && (slots == old(slots) || fresh(slots))
    {
      hide Indexed, Coherent;
      ForgetFuncs(before);
      ghost var start := syms;
      var i := 0;
      assert funcs[..0] == [] && Names([]) == [];
      while i < |funcs|
        invariant 0 <= i <= |funcs| == old(|funcs|) && IndexValid()
        invariant Coherent(syms, attrs, globals, funcs[..i])
        invariant syms == InsertedAll(start, Names(funcs[..i])) && |syms| <= |start| + i
        invariant slots == old(slots) || fresh(slots)
      {
        var s := IrSymFor(i);
        assert funcs[..i + 1] == funcs[..i] + [funcs[i]];
        InsertedOneMore(start, Names(funcs[..i]), funcs[i].name);
        assert Names(funcs[..i + 1]) == Names(funcs[..i]) + [funcs[i].name];
        FuncCoherent(syms, attrs, globals, funcs[..i], funcs[i], s);
        if attrs[s].defKind.NoDef? {
          attrs := attrs[s := SymAttrs(FuncDef, i)];
        }
        i := i + 1;
      }
      assert funcs[..|funcs|] == funcs;
    }

    // Interning during a refresh, when only the first i functions are recorded.
    method IrSymFor(i: nat) returns (s: nat)
      requires IndexValid() && i < |funcs| && Coherent(syms, attrs, globals, funcs[..i]) && |syms| < INDEX_LIMIT
      modifies this`syms, this`attrs, this`slots, this`indexed, slots
      ensures IndexValid() && Coherent(syms, attrs, globals, funcs[..i])
      ensures syms == Inserted(old(syms), funcs[i].name) && s < |syms| && syms[s] == funcs[i].name
      ensures slots == old(slots) || fresh(slots)
    {
      hide Indexed, Coherent;
      ghost var was, wasAttrs := syms, attrs;
      s := IrSym(funcs[i].name);
      if funcs[i].name !in was {
        NewSymbolCoherent(was, wasAttrs, globals, funcs[..i], funcs[i].name);
      }
    }

    method ForgetFuncs(ghost before: seq<Definition>)
      requires IndexValid() && Coherent(syms, attrs, globals, before)
      modifies this`attrs
      ensures IndexValid() && Coherent(syms, attrs, globals, [])
    {
      hide Indexed;
      ghost var was := attrs;
      var i := 0;
      while i < |syms|
        invariant 0 <= i <= |syms| && IndexValid()
        invariant forall s | 0 <= s < i :: attrs[s] == if was[s].defKind.FuncDef? then SymAttrs(NoDef, 0) else was[s]
        invariant forall s | i <= s < |syms| :: attrs[s] == was[s]
      {
        if attrs[i].defKind.FuncDef? {
          attrs := attrs[i := SymAttrs(NoDef, 0)];
        }
        i := i + 1;
      }
    }

    // Binding from the recorded sites. Symbols are numbered from one.
    method IrSymBinding(symIndex: nat) returns (b: SymBinding)
      requires Valid()
      ensures b == if 0 < symIndex <= |syms| then BindingOf(syms[symIndex - 1], globals, funcs) else SymBinding(false, true)
    {
      hide Indexed;
      if symIndex == 0 || symIndex > |syms| {
        return SymBinding(false, true);
      }
      var a := attrs[symIndex - 1];
      if a.defKind.GlobalDef? && a.defIndex < |globals| {
        return SymBinding(true, globals[a.defIndex].linkage != Internal);
      }
      if a.defKind.FuncDef? && a.defIndex < |funcs| {
        return SymBinding(true, funcs[a.defIndex].linkage != Internal);
      }
      return SymBinding(false, true);
    }

    // Binding by scanning the definitions, as for a module without recorded sites.
    method ScannedBinding(symIndex: nat) returns (b: SymBinding)
      ensures b == if 0 < symIndex <= |syms| then BindingOf(syms[symIndex - 1], globals, funcs) else SymBinding(false, true)
    {
      b := SymBinding(false, true);
      if symIndex == 0 || symIndex > |syms| {
        return;
      }
      var name := syms[symIndex - 1];
      var i := ScanNames(globals, name);
      if i < |globals| {
        return SymBinding(true, globals[i].linkage != Internal);
      }
      i := ScanNames(funcs, name);
      if i < |funcs| {
        return SymBinding(true, funcs[i].linkage != Internal);
      }
    }
  }

  method ScanNames(defs: seq<Definition>, name: string) returns (i: nat)
    ensures i == Find(Names(defs), name)
  {
    i := 0;
    while i < |defs| && defs[i].name != name
      invariant 0 <= i <= |defs| && forall k | 0 <= k < i :: Names(defs)[k] != name
    {
      i := i + 1;
    }
    assert i < |defs| ==> Names(defs)[i] == name;
  }
}
