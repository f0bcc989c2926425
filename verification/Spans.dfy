/** Source locations interned through a hash index: those an IR module refers to,
    and those debug information refers to. */
module Spans {
  import opened Shared
  import opened Probing

  datatype Path = NoPath | Path(text: string)

  datatype Span = Span(
    fileId: nat, line: nat, col: nat, len: nat, presumedPath: Path, presumedLine: nat, debugLoc: nat, order: nat, origin: nat)

  // What identifies a location to the interning table of a module: all of it.
  // The one for debug information drops debugLoc first.

  const LOC_LIMIT: nat := 0xFFFF_FFFF / 4

  class IrLocs {
    const hash: Span -> nat
    var locs: seq<Span>
    var slots: array<nat>
    var indexed: nat

    ghost predicate Valid()
      reads this, slots
    {
      Distinct(locs) && (slots.Length > 0 && indexed == |locs| ==> Indexed(hash, locs, |locs|, slots[..]))
    }

    constructor (hash: Span -> nat)
      ensures Valid() && fresh(slots) && locs == []
    {
      this.hash := hash;
      locs, indexed := [], 0;
      slots := new nat[0];
    }

    method EnsureIndex()
      requires Valid() && |locs| < LOC_LIMIT
      modifies this`slots, this`indexed
      ensures Valid() && indexed == |locs| < slots.Length && Indexed(hash, locs, |locs|, slots[..])
      ensures slots == old(slots) || fresh(slots)
    {
      if slots.Length == 0 || indexed != |locs| || |locs| >= slots.Length - slots.Length / 4 {
        slots := Rebuild(hash, locs, |locs| + 1);
        indexed := |locs|;
      }
    }

    // Ids start at one; a span without a file has none.
    method IrInternSpan(span: Span) returns (id: nat)
      requires Valid() && |locs| < LOC_LIMIT
      modifies this, slots
      ensures Valid() && (slots == old(slots) || fresh(slots))
      ensures if span.fileId == 0 then id == 0 && locs == old(locs)
              else id == Find(old(locs), span) + 1 && locs == Inserted(old(locs), span)
      ensures id > 0 ==> id <= |locs| && locs[id - 1] == span
    {
      hide Indexed;
      if span.fileId == 0 {
        return 0;
      }
      EnsureIndex();
      var at, d := Probe(hash, locs, |locs|, slots, span);
      if slots[at] != 0 {
        return slots[at];
      }
      AppendedKeeps(hash, locs, slots[..], span, d);
      assert locs[..|locs|] == locs;
      locs := locs + [span];
      slots[at] := |locs|;
      indexed := |locs|;
      return |locs|;
    }
  }

  class DebugSpans {
    const hash: Span -> nat
    var spans: seq<Span>
    var slots: array<nat>

    // Below seven tenths full, so a probe always ends.
    ghost predicate Valid()
      reads this, slots
    {
      && Distinct(spans)
      && (slots.Length == 0 ==> spans == [])
      && (slots.Length > 0 ==> slots.Length >= 64 && |spans| * 10 < slots.Length * 7 && Indexed(hash, spans, |spans|, slots[..]))
    }

    constructor (hash: Span -> nat)
      ensures Valid() && fresh(slots) && spans == []
    {
      this.hash := hash;
      spans := [];
      slots := new nat[0];
    }

    method GrowSlots()
      requires Valid()
      modifies this`slots
      ensures Valid() && fresh(slots) && slots.Length == if old(slots.Length) == 0 then 64 else old(slots.Length) * 2
    {
      hide Indexed;
      var count := if slots.Length == 0 then 64 else slots.Length * 2;
      slots := new nat[count](_ => 0);
      NothingIndexed(hash, spans, slots[..]);
      var i := 0;
      while i < |spans|
        invariant 0 <= i <= |spans| < slots.Length == count && fresh(slots)
        invariant Indexed(hash, spans, i, slots[..])
      {
        PlaceNext(hash, spans, i, slots);
        i := i + 1;
      }
    }

    method DiagAddDebugSpan(given: Span) returns (id: nat)
      requires Valid()
      modifies this, slots
      ensures Valid() && (slots == old(slots) || fresh(slots))
      ensures var key := given.(debugLoc := 0);
              if given.fileId == 0 then id == 0 && spans == old(spans)
              else id == Find(old(spans), key) + 1 && spans == Inserted(old(spans), key)
      ensures id > 0 ==> id <= |spans| && spans[id - 1] == given.(debugLoc := 0)
    {
      hide Indexed;
      var sp := given.(debugLoc := 0);
      if sp.fileId == 0 {
        return 0;
      }
      if slots.Length == 0 || (|spans| + 1) * 10 >= slots.Length * 7 {
        GrowSlots();
      }
      assert (|spans| + 1) * 10 < slots.Length * 7;
      var at, d := Probe(hash, spans, |spans|, slots, sp);
      if slots[at] != 0 {
        return slots[at];
      }
      AppendedKeeps(hash, spans, slots[..], sp, d);
      assert spans[..|spans|] == spans;
      spans := spans + [sp];
      slots[at] := |spans|;
      return |spans|;
    }
  }
}
