/** The rows a line table should have: what the emitter promises, in terms of the
    functions and locations it is given. */
module LineRows {
  import opened LineMachine
  import opened DebugFiles

  // A location after presumed paths and macro sites are resolved.
  datatype Place = Place(hasFile: bool, path: Path, line: nat, presumedLine: nat)

  datatype RowPlace = Unattributed | Attributed(place: Place)

  // Label 0 is the function's own row and labels nothing.
  datatype DebugRow = DebugRow(number: nat, place: RowPlace)

  datatype DebugFunc = DebugFunc(place: Place, rows: seq<DebugRow>)

  function LineOf(p: Place): nat {
    if p.presumedLine != 0 then p.presumedLine else p.line
  }

  function PathOf(p: Place, input: Path): Path {
    if p.path.Path? then p.path else input
  }

  // What a row says, in terms of the source.
  datatype SourceRow = SourceRow(address: Label, path: string, line: nat, prologueEnd: bool, endSequence: bool)

  predicate Labelled(r: DebugRow) {
    r.number != 0
  }

  function RowLine(r: DebugRow): nat {
    if r.place.Unattributed? then 0 else LineOf(r.place.place)
  }

  // The function's own place, or the input file.
  function EntryPath(f: DebugFunc, input: Path): string {
    if f.place.hasFile then Shown(f.place.path) else Shown(input)
  }

  // File and line after the first k rows: a row without a place keeps the file.
  function PathAt(f: DebugFunc, input: Path, k: nat): string
    requires k <= |f.rows|
  {
    if k == 0 then EntryPath(f, input)
    else
      var r := f.rows[k - 1];
      if Labelled(r) && r.place.Attributed? then Shown(PathOf(r.place.place, input)) else PathAt(f, input, k - 1)
  }

  function LineAt(f: DebugFunc, k: nat): nat
    requires k <= |f.rows|
  {
    if k == 0 then LineOf(f.place)
    else if Labelled(f.rows[k - 1]) then RowLine(f.rows[k - 1])
    else LineAt(f, k - 1)
  }

  // Some labelled row among the first k has a line.
  predicate LineSeen(f: DebugFunc, k: nat)
    requires k <= |f.rows|
  {
    exists j | 0 <= j < k :: Labelled(f.rows[j]) && RowLine(f.rows[j]) != 0
  }

  // The function's row, then a row for each label.
  function RowsTo(f: DebugFunc, n: nat, input: Path, k: nat): seq<SourceRow>
    requires k <= |f.rows|
  {
    if k == 0 then [SourceRow(RowLabel(n, 0), EntryPath(f, input), LineOf(f.place), false, false)]
    else
      RowsTo(f, n, input, k - 1) +
      if Labelled(f.rows[k - 1]) then
        [SourceRow(RowLabel(n, f.rows[k - 1].number), PathAt(f, input, k), LineAt(f, k),
                   !LineSeen(f, k - 1) && LineAt(f, k) != 0, false)]
      else []
  }

  function FuncRows(f: DebugFunc, n: nat, input: Path): seq<SourceRow> {
    var k := |f.rows|;
    RowsTo(f, n, input, k) + [SourceRow(EndLabel(n), PathAt(f, input, k), LineAt(f, k), false, true)]
  }

  function ModuleRows(funcs: seq<DebugFunc>, input: Path, n: nat): seq<SourceRow>
    requires n <= |funcs|
  {
    if n == 0 then [] else ModuleRows(funcs, input, n - 1) + FuncRows(funcs[n - 1], n - 1, input)
  }

  // A decoded row says what a source row says, given the header's file table.
  predicate Says(paths: seq<string>, r: Row, s: SourceRow) {
    && r.address == At(s.address) && 0 < r.file <= |paths| && paths[r.file - 1] == s.path
    && r.line == s.line && r.prologueEnd == s.prologueEnd && r.endSequence == s.endSequence
  }

  predicate AllSay(paths: seq<string>, rows: seq<Row>, expected: seq<SourceRow>) {
    |rows| == |expected| && forall k | 0 <= k < |rows| :: Says(paths, rows[k], expected[k])
  }

  lemma SayMore(paths: seq<string>, rows: seq<Row>, expected: seq<SourceRow>, more: seq<Row>, expectedMore: seq<SourceRow>)
    requires AllSay(paths, rows, expected) && AllSay(paths, more, expectedMore)
    ensures AllSay(paths, rows + more, expected + expectedMore)
  {
  }

  predicate MarksEnd(rows: seq<SourceRow>) {
    exists i | 0 <= i < |rows| :: rows[i].prologueEnd
  }

  predicate MarksOnce(rows: seq<SourceRow>) {
    forall i, j | 0 <= i < j < |rows| :: !(rows[i].prologueEnd && rows[j].prologueEnd)
  }

  lemma MarksWithOneMore(rows: seq<SourceRow>, r: SourceRow)
    ensures MarksEnd(rows + [r]) <==> MarksEnd(rows) || r.prologueEnd
    ensures MarksOnce(rows) && !(MarksEnd(rows) && r.prologueEnd) ==> MarksOnce(rows + [r])
  {
    var all := rows + [r];
    assert all[|rows|] == r && forall i | 0 <= i < |rows| :: all[i] == rows[i];
    if MarksEnd(rows) {
      var i :| 0 <= i < |rows| && rows[i].prologueEnd;
      assert all[i].prologueEnd;
    }
  }

  // At most one row ends the prologue, and one does as soon as some labelled
  // row has a line.
  lemma {:induction false} OnePrologueEnd(f: DebugFunc, n: nat, input: Path, k: nat)
    requires k <= |f.rows|
    ensures MarksOnce(RowsTo(f, n, input, k))
    ensures MarksEnd(RowsTo(f, n, input, k)) <==> LineSeen(f, k)
  {
    if k > 0 {
      hide MarksEnd, MarksOnce, LineSeen;
      OnePrologueEnd(f, n, input, k - 1);
      SeenStep(f, k);
      var before, rows := RowsTo(f, n, input, k - 1), RowsTo(f, n, input, k);
      if Labelled(f.rows[k - 1]) {
        MarksWithOneMore(before, rows[|before|]);
        assert rows == before + [rows[|before|]];
      } else {
        assert rows == before;
      }
    }
  }

  lemma SeenStep(f: DebugFunc, k: nat)
    requires 0 < k <= |f.rows|
    ensures LineSeen(f, k) <==> LineSeen(f, k - 1) || (Labelled(f.rows[k - 1]) && LineAt(f, k) != 0)
  {
  }

  // --- the paths that must be in the header ---------------------------------------------

  ghost predicate FuncPathsIn(paths: seq<string>, f: DebugFunc, input: Path) {
    && (f.place.hasFile ==> Shown(f.place.path) in paths)
    && forall k | 0 <= k < |f.rows| && Labelled(f.rows[k]) && f.rows[k].place.Attributed? ::
         Shown(PathOf(f.rows[k].place.place, input)) in paths
  }

  // The input file is number one, and every path a row will name has a number.
  predicate InputFirst(paths: seq<string>, input: Path) {
    |paths| > 0 && paths[0] == Shown(input)
  }

  ghost predicate HeaderReady(paths: seq<string>, funcs: seq<DebugFunc>, input: Path) {
    InputFirst(paths, input) && forall n | 0 <= n < |funcs| :: FuncPathsIn(paths, funcs[n], input)
  }

  // Lines are 32-bit numbers.
  predicate PlaceFits(p: Place) {
    p.line < 0x1_0000_0000 && p.presumedLine < 0x1_0000_0000
  }

  predicate FuncFits(f: DebugFunc) {
    PlaceFits(f.place) && forall k | 0 <= k < |f.rows| && f.rows[k].place.Attributed? :: PlaceFits(f.rows[k].place.place)
  }
}
