/** Emitting the line program: the header's file table is collected first, then
    each function's rows are encoded against it. */
module LineProgram {
  import opened Leb128
  import opened LineMachine
  import opened DebugFiles
  import opened LineRows
  import opened Probing

  // --- the header ------------------------------------------------------------------------

  method RowFile(files: Tables, place: Place, input: Path) returns (id: nat)
    requires files.Valid()
    modifies files`files, files`dirs
    ensures files.Valid() && old(files.files) <= files.files && old(files.dirs) <= files.dirs
    ensures var shown := Shown(PathOf(place, input));
            && id == Find(Paths(old(files.files)), shown) + 1 <= |files.files| && files.files[id - 1].path == shown
            && Paths(files.files) == Inserted(Paths(old(files.files)), shown)
  {
    id := files.AddFile(PathOf(place, input));
  }

  method CollectFiles(files: Tables, funcs: seq<DebugFunc>, input: Path)
    requires files.Valid() && files.files == []
    modifies files`files, files`dirs
    ensures files.Valid() && HeaderReady(Paths(files.files), funcs, input)
    ensures |files.files| <= 1 + TotalRows(funcs, |funcs|)
  {
    hide EntryFor, FuncPathsIn, Find;
    var id := files.AddFile(input);
    var n := 0;
    while n < |funcs|
      invariant 0 <= n <= |funcs| && files.Valid()
      invariant 0 < |files.files| <= 1 + TotalRows(funcs, n) && files.files[0].path == Shown(input)
      invariant forall k | 0 <= k < n :: FuncPathsIn(Paths(files.files), funcs[k], input)
    {
      ghost var before := files.files;
      CollectFunc(files, funcs[n], input);
      forall k | 0 <= k < n
        ensures FuncPathsIn(Paths(files.files), funcs[k], input)
      {
        StillIn(before, files.files, funcs[k], input);
      }
      n := n + 1;
    }
  }

  lemma StillIn(before: seq<FileEntry>, after: seq<FileEntry>, f: DebugFunc, input: Path)
    requires before <= after && FuncPathsIn(Paths(before), f, input)
    ensures FuncPathsIn(Paths(after), f, input)
  {
    assert Paths(before) <= Paths(after);
  }

  method CollectFunc(files: Tables, f: DebugFunc, input: Path)
    requires files.Valid()
    modifies files`files, files`dirs
    ensures files.Valid() && old(files.files) <= files.files && FuncPathsIn(Paths(files.files), f, input)
    ensures |files.files| <= |old(files.files)| + 1 + |f.rows|
  {
    hide EntryFor, Find;
    if f.place.hasFile {
      var id := files.AddFile(f.place.path);
      assert Paths(files.files)[id - 1] == Shown(f.place.path);
    }
    ghost var start := files.files;
    var i := 0;
    while i < |f.rows|
      invariant 0 <= i <= |f.rows| && files.Valid() && start <= files.files
      invariant |files.files| <= |start| + i
      invariant f.place.hasFile ==> Shown(f.place.path) in Paths(files.files)
      invariant forall k | 0 <= k < i && Labelled(f.rows[k]) && f.rows[k].place.Attributed? ::
          Shown(PathOf(f.rows[k].place.place, input)) in Paths(files.files)
    {
      if f.rows[i].number != 0 && f.rows[i].place.Attributed? {
        ghost var before := files.files;
        var id := RowFile(files, f.rows[i].place.place, input);
        assert Paths(files.files)[id - 1] == Shown(PathOf(f.rows[i].place.place, input));
        assert Paths(before) <= Paths(files.files);
      }
      i := i + 1;
    }
  }

  // --- the encoders' bytes ------------------------------------------------------------------

  method EmitUleb(value: nat) returns (items: seq<Item>)
    requires value < U64_LIMIT
    ensures items == AsItems(Uleb(value))
  {
    var bytes := new nat[10](_ => 0);
    var n := CgDwarfUleb(value, bytes);
    items := ToItems(bytes[..n]);
  }

  method EmitSleb(value: int) returns (items: seq<Item>)
    requires I64_MIN <= value <= I64_MAX
    ensures items == AsItems(Sleb(value))
  {
    var bytes := new nat[10](_ => 0);
    var n := CgDwarfSleb(value, bytes);
    items := ToItems(bytes[..n]);
  }

  method ToItems(bytes: seq<nat>) returns (items: seq<Item>)
    ensures items == AsItems(bytes)
  {
    items := [];
    var i := |bytes|;
    while i > 0
      invariant 0 <= i <= |bytes| && items == AsItems(bytes[i..])
    {
      i := i - 1;
      items := [Byte(bytes[i])] + items;
      assert bytes[i..][1..] == bytes[i + 1..];
    }
  }

  // --- one function -------------------------------------------------------------------------

  // The program so far decodes to these rows and leaves these registers.
  ghost predicate SoFar(items: seq<Item>, paths: seq<string>, expected: seq<SourceRow>, r: Registers) {
    && Run(items, Initial).Ran? && Run(items, Initial).regs == r
    && AllSay(paths, Run(items, Initial).rows, expected)
  }

  lemma Appended(items: seq<Item>, piece: seq<Item>, paths: seq<string>, expected: seq<SourceRow>, r: Registers,
                 r': Registers, rows: seq<Row>, more: seq<SourceRow>)
    requires SoFar(items, paths, expected, r) && Run(piece, r) == Ran(r', rows) && AllSay(paths, rows, more)
    ensures SoFar(items + piece, paths, expected + more, r')
  {
    RunJoins(items, piece, Initial);
    SayMore(paths, Run(items, Initial).rows, expected, rows, more);
  }

  // Pieces that only set registers.
  lemma Quietly(items: seq<Item>, piece: seq<Item>, paths: seq<string>, expected: seq<SourceRow>, r: Registers, r': Registers)
    requires SoFar(items, paths, expected, r) && Run(piece, r) == Ran(r', [])
    ensures SoFar(items + piece, paths, expected, r')
  {
    Appended(items, piece, paths, expected, r, r', [], []);
    assert expected + [] == expected;
  }

  // Bring the file and line registers up to date and copy a row, marking the
  // end of the prologue if asked.
  method EmitRow(items: seq<Item>, address: Label, currentFile: nat, currentLine: nat, file: nat, line: nat, prologueEnd: bool,
                 ghost paths: seq<string>, ghost expected: seq<SourceRow>, ghost r: Registers)
    returns (out: seq<Item>)
    requires SoFar(items, paths, expected, r) && r.file == currentFile && r.line == currentLine && !r.prologueEnd
    requires 0 < file <= |paths| && file < U64_LIMIT && currentLine < 0x1_0000_0000 && line < 0x1_0000_0000
    ensures SoFar(out, paths, expected + [SourceRow(address, paths[file - 1], line, prologueEnd, false)],
                  Registers(At(address), file, line, false))
  {
    hide EntryFor, SoFar, Run, SetAddress, SetFile, AdvanceLine, Copy, SetPrologueEnd;
    RunSimple(address, r);
    out := EmitSetAddress(items, address);
    Quietly(items, SetAddress(address), paths, expected, r, r.(address := At(address)));
    ghost var s := r.(address := At(address));
    ghost var before := out;
    if file != currentFile {
      RunSetFile(file, s);
      var number := EmitUleb(file);
      out := out + ([Byte(4)] + number);
      SetFileIs(file);
      Quietly(before, SetFile(file), paths, expected, s, s.(file := file));
    }
    s := s.(file := file);
    before := out;
    if line != currentLine {
      RunAdvanceLine(line - currentLine, s);
      var delta := EmitSleb(line - currentLine);
      out := out + ([Byte(3)] + delta);
      AdvanceLineIs(line - currentLine);
      Quietly(before, AdvanceLine(line - currentLine), paths, expected, s, s.(line := line));
    }
    s := s.(line := line);
    before := out;
    if prologueEnd {
      RunSimple(address, s);
      out := out + [Byte(10)];
      SimpleIs();
      Quietly(before, SetPrologueEnd, paths, expected, s, s.(prologueEnd := true));
      s := s.(prologueEnd := true);
    }
    before := out;
    RunSimple(address, s);
    out := out + [Byte(1)];
    SimpleIs();
    Appended(before, Copy, paths, expected, s, s.(prologueEnd := false), [RowOf(s, false)],
             [SourceRow(address, paths[file - 1], line, prologueEnd, false)]);
  }

  method EmitSetAddress(items: seq<Item>, address: Label) returns (out: seq<Item>)
    ensures out == items + SetAddress(address)
  {
    out := items + [Byte(0), Byte(9), Byte(2), Quad(address)];
  }

  lemma SetFileIs(file: nat)
    ensures SetFile(file) == [Byte(4)] + AsItems(Uleb(file))
  {
  }

  lemma AdvanceLineIs(delta: int)
    ensures AdvanceLine(delta) == [Byte(3)] + AsItems(Sleb(delta))
  {
  }

  lemma SimpleIs()
    ensures SetPrologueEnd == [Byte(10)] && Copy == [Byte(1)] && EndSequence == [Byte(0), Byte(1), Byte(1)]
  {
  }

  // The row of the function itself.
  method EmitEntry(items: seq<Item>, files: Tables, f: DebugFunc, n: nat, input: Path, ghost expected: seq<SourceRow>)
    returns (out: seq<Item>, file: nat)
    requires files.Valid() && InputFirst(Paths(files.files), input) && FuncPathsIn(Paths(files.files), f, input) && FuncFits(f) && |files.files| < U64_LIMIT
    requires SoFar(items, Paths(files.files), expected, Initial)
    modifies files`files, files`dirs
    ensures files.Valid() && files.files == old(files.files) && 0 < file <= |files.files|
    ensures files.files[file - 1].path == EntryPath(f, input)
    ensures SoFar(out, Paths(files.files), expected + RowsTo(f, n, input, 0),
                  Registers(At(RowLabel(n, 0)), file, LineOf(f.place), false))
  {
    hide EntryFor, SoFar, Find;
    ghost var paths := Paths(files.files);
    file := 1;
    if f.place.hasFile {
      FindIn(paths, Shown(f.place.path));
      file := files.AddFile(f.place.path);
      SamePaths(files.files, old(files.files));
    }
    out := EmitRow(items, RowLabel(n, 0), 1, 1, file, LineOf(f.place), false, paths, expected, Initial);
  }

  lemma FindIn(paths: seq<string>, p: string)
    requires p in paths
    ensures Find(paths, p) < |paths| && Inserted(paths, p) == paths
  {
  }

  lemma SamePaths(after: seq<FileEntry>, before: seq<FileEntry>)
    requires before <= after && Paths(after) == Paths(before)
    ensures after == before
  {
    assert |Paths(after)| == |after| && |Paths(before)| == |before|;
  }

  // One labelled row.
  method EmitLabelled(items: seq<Item>, files: Tables, f: DebugFunc, n: nat, input: Path, k: nat, currentFile: nat,
                      currentLine: nat, seen: bool, ghost expected: seq<SourceRow>, ghost r: Registers)
    returns (out: seq<Item>, file: nat, line: nat)
    requires files.Valid() && k < |f.rows| && Labelled(f.rows[k]) && FuncFits(f) && |files.files| < U64_LIMIT
    requires FuncPathsIn(Paths(files.files), f, input)
    requires SoFar(items, Paths(files.files), expected + RowsTo(f, n, input, k), r)
    requires r.file == currentFile && r.line == currentLine && !r.prologueEnd
    requires 0 < currentFile <= |files.files| && files.files[currentFile - 1].path == PathAt(f, input, k)
    requires currentLine == LineAt(f, k) && seen == LineSeen(f, k) && currentLine < 0x1_0000_0000
    modifies files`files, files`dirs
    ensures files.Valid() && files.files == old(files.files) && 0 < file <= |files.files|
    ensures files.files[file - 1].path == PathAt(f, input, k + 1) && line == LineAt(f, k + 1) < 0x1_0000_0000
    ensures SoFar(out, Paths(files.files), expected + RowsTo(f, n, input, k + 1), Registers(At(RowLabel(n, f.rows[k].number)), file, line, false))
  {
    hide EntryFor, SoFar, Find, RowsTo, FuncPathsIn, PathAt, LineAt, LineSeen, FuncFits;
    ghost var paths := Paths(files.files);
    file, line := LabelledPlace(files, f, input, k, currentFile);
    var number, prologueEnd := f.rows[k].number, !seen && line != 0;
    ghost var rows := RowsTo(f, n, input, k);
    ghost var next := SourceRow(RowLabel(n, number), paths[file - 1], line, prologueEnd, false);
    out := EmitRow(items, RowLabel(n, number), currentFile, currentLine, file, line, prologueEnd, paths, expected + rows, r);
    NextRow(f, n, input, k, next);
    assert expected + rows + [next] == expected + (rows + [next]);
  }

  lemma NextRow(f: DebugFunc, n: nat, input: Path, k: nat, next: SourceRow)
    requires k < |f.rows| && Labelled(f.rows[k])
    requires next == SourceRow(RowLabel(n, f.rows[k].number), PathAt(f, input, k + 1), LineAt(f, k + 1),
                               !LineSeen(f, k) && LineAt(f, k + 1) != 0, false)
    ensures RowsTo(f, n, input, k + 1) == RowsTo(f, n, input, k) + [next]
  {
  }

  // A row without a place keeps the file and has line zero.
  method LabelledPlace(files: Tables, f: DebugFunc, input: Path, k: nat, currentFile: nat) returns (file: nat, line: nat)
    requires files.Valid() && k < |f.rows| && Labelled(f.rows[k]) && FuncFits(f)
    requires FuncPathsIn(Paths(files.files), f, input)
    requires 0 < currentFile <= |files.files| && files.files[currentFile - 1].path == PathAt(f, input, k)
    modifies files`files, files`dirs
    ensures files.Valid() && files.files == old(files.files) && 0 < file <= |files.files|
    ensures files.files[file - 1].path == PathAt(f, input, k + 1) && line == LineAt(f, k + 1) < 0x1_0000_0000
  {
    hide EntryFor, Find;
    file, line := currentFile, 0;
    if f.rows[k].place.Attributed? {
      FindIn(Paths(files.files), Shown(PathOf(f.rows[k].place.place, input)));
      file := RowFile(files, f.rows[k].place.place, input);
      SamePaths(files.files, old(files.files));
      line := LineOf(f.rows[k].place.place);
    }
  }

  // Registers after k rows of function n.
  ghost predicate Current(files: seq<FileEntry>, f: DebugFunc, input: Path, k: nat, r: Registers)
    requires k <= |f.rows|
  {
    && 0 < r.file <= |files| && files[r.file - 1].path == PathAt(f, input, k)
    && r.line == LineAt(f, k) && !r.prologueEnd && LineAt(f, k) < 0x1_0000_0000
  }

  method EmitNext(items: seq<Item>, files: Tables, f: DebugFunc, n: nat, input: Path, k: nat, currentFile: nat,
                  currentLine: nat, seen: bool, ghost expected: seq<SourceRow>, ghost r: Registers)
    returns (out: seq<Item>, file: nat, line: nat, seen': bool, ghost r': Registers)
    requires files.Valid() && k < |f.rows| && FuncFits(f) && |files.files| < U64_LIMIT && FuncPathsIn(Paths(files.files), f, input)
    requires SoFar(items, Paths(files.files), expected + RowsTo(f, n, input, k), r)
    requires Current(files.files, f, input, k, r) && r.file == currentFile && r.line == currentLine && seen == LineSeen(f, k)
    modifies files`files, files`dirs
    ensures files.Valid() && files.files == old(files.files)
    ensures SoFar(out, Paths(files.files), expected + RowsTo(f, n, input, k + 1), r')
    ensures Current(files.files, f, input, k + 1, r') && r'.file == file && r'.line == line && seen' == LineSeen(f, k + 1)
  {
    hide EntryFor, SoFar, LineSeen, RowsTo, PathAt, FuncRows, FuncPathsIn, FuncFits;
    SeenStep(f, k + 1);
    Unlabelled(f, n, input, k);
    out, file, line, seen', r' := items, currentFile, currentLine, seen, r;
    if f.rows[k].number != 0 {
      out, file, line := EmitLabelled(items, files, f, n, input, k, currentFile, currentLine, seen, expected, r);
      r' := Registers(At(RowLabel(n, f.rows[k].number)), file, line, false);
      seen' := seen || line != 0;
    }
  }

  method EmitRows(items: seq<Item>, files: Tables, f: DebugFunc, n: nat, input: Path, entryFile: nat, ghost expected: seq<SourceRow>,
                  ghost r0: Registers)
    returns (out: seq<Item>, ghost r: Registers)
    requires files.Valid() && FuncPathsIn(Paths(files.files), f, input) && FuncFits(f) && |files.files| < U64_LIMIT
    requires SoFar(items, Paths(files.files), expected + RowsTo(f, n, input, 0), r0)
    requires Current(files.files, f, input, 0, r0) && r0.file == entryFile
    modifies files`files, files`dirs
    ensures files.Valid() && files.files == old(files.files)
    ensures SoFar(out, Paths(files.files), expected + RowsTo(f, n, input, |f.rows|), r) && Current(files.files, f, input, |f.rows|, r)
  {
    hide EntryFor, SoFar, LineSeen, RowsTo, PathAt, LineAt, FuncRows, FuncFits, FuncPathsIn;
    NothingSeen(f, input);
    var currentFile, currentLine, prologueEnd, i := entryFile, LineOf(f.place), false, 0;
    out, r := items, r0;
    while i < |f.rows|
      invariant 0 <= i <= |f.rows| && files.Valid() && files.files == old(files.files)
      invariant SoFar(out, Paths(files.files), expected + RowsTo(f, n, input, i), r) && Current(files.files, f, input, i, r)
      invariant r.file == currentFile && r.line == currentLine && prologueEnd == LineSeen(f, i)
    {
      out, currentFile, currentLine, prologueEnd, r :=
        EmitNext(out, files, f, n, input, i, currentFile, currentLine, prologueEnd, expected, r);
      i := i + 1;
    }
  }

  method EmitFunc(items: seq<Item>, files: Tables, f: DebugFunc, n: nat, input: Path, ghost expected: seq<SourceRow>)
    returns (out: seq<Item>)
    requires files.Valid() && InputFirst(Paths(files.files), input) && FuncPathsIn(Paths(files.files), f, input) && FuncFits(f) && |files.files| < U64_LIMIT
    requires SoFar(items, Paths(files.files), expected, Initial)
    modifies files`files, files`dirs
    ensures files.Valid() && files.files == old(files.files)
    ensures SoFar(out, Paths(files.files), expected + FuncRows(f, n, input), Initial)
  {
    hide EntryFor, SoFar, LineSeen, RowsTo, PathAt, LineAt, FuncRows, FuncFits, FuncPathsIn, Paths, InputFirst;
    EntryFits(f);
    NothingSeen(f, input);
    ghost var paths, k := Paths(files.files), |f.rows|;
    var file: nat;
    out, file := EmitEntry(items, files, f, n, input, expected);
    ghost var r;
    out, r := EmitRows(out, files, f, n, input, file, expected, Registers(At(RowLabel(n, 0)), file, LineOf(f.place), false));
    RowNamed(files.files, r.file);
    out := EmitEnd(out, n, paths, expected + RowsTo(f, n, input, k), r,
                   SourceRow(EndLabel(n), PathAt(f, input, k), LineAt(f, k), false, true));
    RowsJoin(expected, f, n, input);
  }

  lemma Unlabelled(f: DebugFunc, n: nat, input: Path, k: nat)
    requires k < |f.rows|
    ensures !Labelled(f.rows[k]) ==>
              RowsTo(f, n, input, k + 1) == RowsTo(f, n, input, k) && PathAt(f, input, k + 1) == PathAt(f, input, k)
  {
  }

  lemma RowNamed(files: seq<FileEntry>, id: nat)
    requires 0 < id <= |files|
    ensures id <= |Paths(files)| && Paths(files)[id - 1] == files[id - 1].path
  {
  }

  lemma EntryFits(f: DebugFunc)
    requires FuncFits(f)
    ensures LineOf(f.place) < 0x1_0000_0000
  {
  }

  lemma NothingSeen(f: DebugFunc, input: Path)
    ensures !LineSeen(f, 0) && PathAt(f, input, 0) == EntryPath(f, input) && LineAt(f, 0) == LineOf(f.place)
  {
  }

  lemma RowsJoin(expected: seq<SourceRow>, f: DebugFunc, n: nat, input: Path)
    ensures var k := |f.rows|;
            expected + RowsTo(f, n, input, k) + [SourceRow(EndLabel(n), PathAt(f, input, k), LineAt(f, k), false, true)] ==
            expected + FuncRows(f, n, input)
  {
  }

  method EmitEnd(items: seq<Item>, n: nat, ghost paths: seq<string>, ghost expected: seq<SourceRow>, ghost r: Registers, ghost last: SourceRow)
    returns (out: seq<Item>)
    requires SoFar(items, paths, expected, r) && last.address == EndLabel(n) && last.endSequence && !last.prologueEnd
    requires 0 < r.file <= |paths| && paths[r.file - 1] == last.path && r.line == last.line && !r.prologueEnd
    ensures SoFar(out, paths, expected + [last], Initial)
  {
    hide EntryFor, SoFar, Run, SetAddress, EndSequence;
    RunSimple(EndLabel(n), r);
    var moved := EmitSetAddress(items, EndLabel(n));
    ghost var s := r.(address := At(EndLabel(n)));
    Quietly(items, SetAddress(EndLabel(n)), paths, expected, r, s);
    RunSimple(EndLabel(n), s);
    SimpleIs();
    out := moved + [Byte(0), Byte(1), Byte(1)];
    Appended(moved, EndSequence, paths, expected, s, Initial, [RowOf(s, true)], [last]);
  }

  // The whole program. Decoded, it gives exactly the rows of the source, and
  // it names no file that is not in the header.
  method EmitDebugLine(files: Tables, funcs: seq<DebugFunc>, input: Path) returns (items: seq<Item>)
    requires files.Valid() && HeaderReady(Paths(files.files), funcs, input) && |files.files| < U64_LIMIT
    requires forall n | 0 <= n < |funcs| :: FuncFits(funcs[n])
    modifies files`files, files`dirs
    ensures files.Valid() && files.files == old(files.files)
    ensures var run := Run(items, Initial);
            run.Ran? && run.regs == Initial && AllSay(Paths(files.files), run.rows, ModuleRows(funcs, input, |funcs|))
  {
    hide EntryFor, SoFar, Run, FuncFits, FuncPathsIn, FuncRows;
    StartsEmpty(Paths(files.files));
    items := [];
    ghost var paths := Paths(files.files);
    var n := 0;
    while n < |funcs|
      invariant 0 <= n <= |funcs| && files.Valid() && files.files == old(files.files)
      invariant SoFar(items, paths, ModuleRows(funcs, input, n), Initial)
    {
      items := EmitFunc(items, files, funcs[n], n, input, ModuleRows(funcs, input, n));
      n := n + 1;
    }
    Decodes(items, paths, ModuleRows(funcs, input, n));
  }

  lemma StartsEmpty(paths: seq<string>)
    ensures SoFar([], paths, [], Initial)
  {
  }

  lemma Decodes(items: seq<Item>, paths: seq<string>, expected: seq<SourceRow>)
    requires SoFar(items, paths, expected, Initial)
    ensures var run := Run(items, Initial); run.Ran? && run.regs == Initial && AllSay(paths, run.rows, expected)
  {
  }

  // From an empty table: collect the header's files, then emit against it.
  method CgEmitDebugLine(compDir: string, funcs: seq<DebugFunc>, input: Path) returns (files: Tables, items: seq<Item>)
    requires forall n | 0 <= n < |funcs| :: FuncFits(funcs[n])
    requires TotalRows(funcs, |funcs|) < U64_LIMIT - 1
    ensures fresh(files) && files.Valid() && files.compDir == compDir
    ensures var run := Run(items, Initial);
            run.Ran? && run.regs == Initial && AllSay(Paths(files.files), run.rows, ModuleRows(funcs, input, |funcs|))
  {
    files := new Tables(compDir);
    CollectFiles(files, funcs, input);
    items := EmitDebugLine(files, funcs, input);
  }

  // At most this many files beyond the input.
  function TotalRows(funcs: seq<DebugFunc>, n: nat): nat
    requires n <= |funcs|
  {
    if n == 0 then 0 else TotalRows(funcs, n - 1) + 1 + |funcs[n - 1].rows|
  }
}
