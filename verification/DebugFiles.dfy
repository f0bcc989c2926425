/** The file and directory tables of the line program header, and which file on
    disk each of their entries means. */
module DebugFiles {
  import opened Probing

  datatype Path = NoPath | Path(text: string)

  function Shown(path: Path): string {
    if path.NoPath? || path.text == "" then "<unknown>" else path.text
  }

  // --- what a path means ----------------------------------------------------------------

  function FirstSlash(p: string): (i: nat)
    ensures i <= |p| && (i < |p| ==> p[i] == '/') && forall k | 0 <= k < i :: p[k] != '/'
  {
    if p == "" || p[0] == '/' then 0 else 1 + FirstSlash(p[1..])
  }

  function Piece(p: string): seq<string> {
    if p == "" || p == "." then [] else [p]
  }

  // The names along a path; empty ones and "." lead nowhere.
  function Components(p: string): seq<string>
    decreases |p|
  {
    var i := FirstSlash(p);
    if i == |p| then Piece(p) else Piece(p[..i]) + Components(p[i + 1..])
  }

  predicate Absolute(p: string) {
    p != "" && p[0] == '/'
  }

  // Where a path leads, seen from a directory given by its own names.
  function Reached(from: seq<string>, p: string): seq<string> {
    if Absolute(p) then Components(p) else from + Components(p)
  }

  lemma {:induction false} ComponentsJoin(a: string, b: string)
    ensures Components(a + "/" + b) == Components(a) + Components(b)
    decreases |a|
  {
    hide Components, FirstSlash;
    var i := FirstSlash(a);
    ComponentsAt(a, i);
    JoinedAt(a, b, i);
    ComponentsAt(a + "/" + b, i);
    if i < |a| {
      ComponentsJoin(a[i + 1..], b);
    }
  }

  lemma ComponentsAt(p: string, i: nat)
    requires i <= |p| && (i < |p| ==> p[i] == '/') && forall k | 0 <= k < i :: p[k] != '/'
    ensures Components(p) == if i == |p| then Piece(p) else Piece(p[..i]) + Components(p[i + 1..])
  {
    hide FirstSlash;
    OnlyFirst(p, FirstSlash(p), i);
  }

  lemma OnlyFirst(p: string, i: nat, j: nat)
    requires i <= |p| && (i < |p| ==> p[i] == '/') && forall k | 0 <= k < i :: p[k] != '/'
    requires j <= |p| && (j < |p| ==> p[j] == '/') && forall k | 0 <= k < j :: p[k] != '/'
    ensures i == j
  {
  }

  lemma JoinedAt(a: string, b: string, i: nat)
    requires i <= |a|
    ensures var whole := a + "/" + b;
            && whole[..i] == a[..i] && whole[i] == (if i < |a| then a[i] else '/')
            && whole[i + 1..] == (if i < |a| then a[i + 1..] + "/" + b else b)
            && forall k | 0 <= k < i :: whole[k] == a[k]
    ensures a[..|a|] == a
  {
  }

  // --- how a path is split between the two tables ----------------------------------------------

  function LastSlash(p: string): (i: int)
    ensures -1 <= i < |p| && (i >= 0 ==> p[i] == '/') && forall k | i < k < |p| :: p[k] != '/'
  {
    if p == "" then -1
    else if p[|p| - 1] == '/' then |p| - 1
    else LastSlash(p[..|p| - 1])
  }

  // The path lies under the compilation directory.
  predicate Under(shown: string, compDir: string) {
    Absolute(shown) && compDir != "" && |shown| > |compDir| && shown[..|compDir|] == compDir && shown[|compDir|] == '/'
  }

  function Below(shown: string, compDir: string): string {
    if Under(shown, compDir) then shown[|compDir| + 1..] else shown
  }

  datatype FileEntry = FileEntry(path: string, name: string, dir: nat)

  // The directory an entry names: the compilation directory is number zero.
  function DirReached(compDir: string, dirs: seq<string>, dir: nat): seq<string>
    requires dir <= |dirs|
  {
    if dir == 0 then Components(compDir) else Reached(Components(compDir), dirs[dir - 1])
  }

  function EntryReached(compDir: string, dirs: seq<string>, e: FileEntry): seq<string>
    requires e.dir <= |dirs|
  {
    Reached(DirReached(compDir, dirs, e.dir), e.name)
  }

  // A path under the compilation directory with two slashes after its name:
  // what is left of it looks absolute.
  predicate DoubledSlash(shown: string, compDir: string) {
    Absolute(Below(shown, compDir)) && Under(shown, compDir) && Components(compDir) != []
  }

  function DirPart(split: string): string
    requires LastSlash(split) >= 0
  {
    if LastSlash(split) == 0 then "/" else split[..LastSlash(split)]
  }

  predicate NoDir(dir: string) {
    dir == "" || dir == "."
  }

  ghost predicate EntryFor(compDir: string, dirs: seq<string>, shown: string, e: FileEntry) {
    && e.path == shown && e.dir <= |dirs|
    && var split := Below(shown, compDir);
       if LastSlash(split) < 0 then e.name == shown && e.dir == 0
       else
         && e.name == split[LastSlash(split) + 1..]
         && if NoDir(DirPart(split)) then e.dir == 0 else e.dir > 0 && dirs[e.dir - 1] == DirPart(split)
  }

  lemma SplitMeans(split: string)
    requires LastSlash(split) >= 0
    ensures var name := split[LastSlash(split) + 1..];
            && Components(split) == Components(DirPart(split)) + Components(name)
            && (Absolute(split) <==> Absolute(DirPart(split))) && !Absolute(name)
            && (NoDir(DirPart(split)) ==> Components(DirPart(split)) == [])
  {
    var i := LastSlash(split);
    var name := split[i + 1..];
    assert split == split[..i] + "/" + name;
    ComponentsJoin(split[..i], name);
    RootAlone();
    assert Components("") == [] && Components(".") == [];
    assert name != "" ==> name[0] == split[i + 1];
  }

  lemma RootAlone()
    ensures Components("/") == []
  {
    assert FirstSlash("/") == 0;
    assert "/"[1..] == "";
  }

  lemma UnderMeans(shown: string, compDir: string)
    requires Under(shown, compDir)
    ensures Components(shown) == Components(compDir) + Components(Below(shown, compDir))
  {
    var n := |compDir|;
    assert shown == shown[..n] + [shown[n]] + shown[n + 1..];
    ComponentsJoin(compDir, shown[n + 1..]);
  }

  // A header entry leads to the file its path leads to, seen from the
  // compilation directory, exactly when there is no doubled slash after it.
  lemma EntryLeadsToFile(compDir: string, dirs: seq<string>, shown: string, e: FileEntry)
    requires EntryFor(compDir, dirs, shown, e)
    ensures EntryReached(compDir, dirs, e) == Reached(Components(compDir), shown) <==> !DoubledSlash(shown, compDir)
  {
    hide Components, LastSlash;
    var split := Below(shown, compDir);
    if Under(shown, compDir) {
      UnderMeans(shown, compDir);
    }
    if LastSlash(split) >= 0 {
      SplitMeans(split);
      EntryOfSplit(compDir, dirs, shown, e);
    } else {
      RelativeSplit(split);
    }
  }

  lemma RelativeSplit(split: string)
    requires LastSlash(split) < 0
    ensures !Absolute(split)
  {
  }

  lemma EntryOfSplit(compDir: string, dirs: seq<string>, shown: string, e: FileEntry)
    requires EntryFor(compDir, dirs, shown, e) && LastSlash(Below(shown, compDir)) >= 0
    ensures EntryReached(compDir, dirs, e) == Reached(Components(compDir), Below(shown, compDir))
  {
    hide Components, LastSlash, Below, DirPart;
    SplitMeans(Below(shown, compDir));
  }

  // "/w//a.c" seen from "/w" is written as "/a.c".
  lemma DoubledSlashMisread(e: FileEntry)
    requires EntryFor("/w", ["/"], "/w//a.c", e)
    ensures EntryReached("/w", ["/"], e) != Reached(Components("/w"), "/w//a.c")
  {
    assert Below("/w//a.c", "/w") == "/a.c";
    ComponentsJoin("", "w");
    assert "" + "/" + "w" == "/w";
    assert Components("w") == ["w"];
    EntryLeadsToFile("/w", ["/"], "/w//a.c", e);
  }

  // --- the tables -----------------------------------------------------------------------------------

  function Paths(files: seq<FileEntry>): (r: seq<string>) {
    seq(|files|, i requires 0 <= i < |files| => files[i].path)
  }

  class Tables {
    const compDir: string
    var dirs: seq<string>
    var files: seq<FileEntry>

    ghost predicate Valid()
      reads this
    {
      forall i | 0 <= i < |files| :: EntryFor(compDir, dirs, files[i].path, files[i])
    }

    constructor (compDir: string)
      ensures Valid() && this.compDir == compDir && files == [] && dirs == []
    {
      this.compDir, dirs, files := compDir, [], [];
    }

    method AddDir(dir: string) returns (id: nat)
      modifies this`dirs
      ensures old(dirs) <= dirs && id <= |dirs|
      ensures if NoDir(dir) then id == 0 else id > 0 && dirs[id - 1] == dir && dirs == Inserted(old(dirs), dir)
    {
      if NoDir(dir) {
        return 0;
      }
      var i := 0;
      while i < |dirs|
        invariant 0 <= i <= |dirs| && forall k | 0 <= k < i :: dirs[k] != dir
      {
        if dirs[i] == dir {
          return i + 1;
        }
        i := i + 1;
      }
      dirs := dirs + [dir];
      return |dirs|;
    }

    // The number of the file shown under this path, entered if it is new.
    method AddFile(path: Path) returns (id: nat)
      requires Valid()
      modifies this`dirs, this`files
      ensures Valid() && old(files) <= files && old(dirs) <= dirs
      ensures id == Find(Paths(old(files)), Shown(path)) + 1 <= |files| && files[id - 1].path == Shown(path)
      ensures Paths(files) == Inserted(Paths(old(files)), Shown(path))
    {
      hide LastSlash, Below, DirPart;
      var shown := Shown(path);
      var i := 0;
      while i < |files|
        invariant 0 <= i <= |files| && forall k | 0 <= k < i :: Paths(files)[k] != shown
      {
        if files[i].path == shown {
          assert Paths(files)[i] == shown;
          return i + 1;
        }
        i := i + 1;
      }
      var split := Below(shown, compDir);
      var slash := LastSlash(split);
      var e: FileEntry;
      if slash < 0 {
        e := FileEntry(shown, shown, 0);
      } else {
        var dir := AddDir(DirPart(split));
        e := FileEntry(shown, split[slash + 1..], dir);
      }
      files := files + [e];
      assert Paths(files) == Paths(old(files)) + [shown];
      return |files|;
    }
  }
}
