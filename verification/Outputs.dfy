/** The pass over file ids: into which outputs the edits of a file go. Being the
    same file need not be an equivalence, so an edit can miss every output or
    reach two; the tables for which neither happens are found exactly. Files are
    counted from zero here, their ids from one. */
module Outputs {
  import opened Fixits

  predicate SameAt(files: seq<DiagFile>, i: nat, j: nat) {
    SameEditFile(files, i + 1, j + 1)
  }

  // The edits of file i go into the output that file j stands for.
  ghost predicate WrittenInto(files: seq<DiagFile>, i: nat, j: nat) {
    SameAt(files, i, j) && IsWritten(files, j + 1)
  }

  ghost predicate OnlyOutput(files: seq<DiagFile>, i: nat, j: nat) {
    WrittenInto(files, i, j) && forall k | WrittenInto(files, i, k) :: k == j
  }

  ghost predicate WrittenOnce(files: seq<DiagFile>, i: nat) {
    exists j :: OnlyOutput(files, i, j)
  }

  // --- which files are written, in terms of names and identities ------------------

  predicate FirstOfPath(files: seq<DiagFile>, j: nat) {
    j < |files| && forall i | 0 <= i < j :: files[i].path != files[j].path
  }

  // The first file of its identity, every earlier one of its path examined.
  predicate FirstMet(files: seq<DiagFile>, j: nat) {
    && j < |files| && files[j].identity.Known?
    && (forall i | 0 <= i < j :: files[i].identity != files[j].identity)
    && (forall i | 0 <= i < j && files[i].path == files[j].path :: files[i].identity.Known?)
  }

  predicate FirstNamed(files: seq<DiagFile>, j: nat) {
    FirstOfPath(files, j) && files[j].identity.Unknown?
  }

  lemma HandledBefore(files: seq<DiagFile>, j: nat)
    ensures AlreadyHandled(files, j + 1) <==> exists i: nat :: i < j && SameAt(files, i, j)
  {
    if AlreadyHandled(files, j + 1) {
      var prior: nat :| prior < j + 1 && SameEditFile(files, prior, j + 1);
      assert SameAt(files, prior - 1, j);
    }
    if i: nat :| i < j && SameAt(files, i, j) {
      assert SameEditFile(files, i + 1, j + 1);
    }
  }

  lemma WrittenFiles(files: seq<DiagFile>, j: nat)
    requires j < |files|
    ensures IsWritten(files, j + 1) <==> FirstNamed(files, j) || FirstMet(files, j)
  {
    hide AlreadyHandled;
    HandledBefore(files, j);
    if i: nat :| i < j && SameAt(files, i, j) {
      assert files[i].path == files[j].path || files[i].identity == files[j].identity;
    } else {
      forall i: nat | i < j
        ensures files[i].path == files[j].path ==> files[i].identity.Known? && files[j].identity.Known?
        ensures files[i].identity == files[j].identity ==> files[j].identity.Unknown?
      {
        assert !SameAt(files, i, j);
      }
    }
  }

  // --- the condition, file by file -------------------------------------------------

  // The first file under the path of file i could not be examined.
  predicate LedByUnexamined(files: seq<DiagFile>, i: nat, j: nat) {
    i < |files| && FirstNamed(files, j) && files[j].path == files[i].path
  }

  // An examined file that is written takes the edits of file i with it.
  predicate Sponsors(files: seq<DiagFile>, i: nat, j: nat) {
    && i < |files| && FirstMet(files, j)
    && if files[i].identity.Unknown? then files[j].path == files[i].path else files[j].identity == files[i].identity
  }

  ghost predicate Dropped(files: seq<DiagFile>, i: nat) {
    forall j :: !LedByUnexamined(files, i, j) && !Sponsors(files, i, j)
  }

  ghost predicate Doubled(files: seq<DiagFile>, i: nat) {
    exists j, k :: j != k && Sponsors(files, i, j) && (Sponsors(files, i, k) || LedByUnexamined(files, i, k))
  }

  lemma OutputsOf(files: seq<DiagFile>, i: nat, j: nat)
    requires i < |files|
    ensures WrittenInto(files, i, j) <==> Sponsors(files, i, j) || LedByUnexamined(files, i, j)
  {
    if j < |files| {
      hide IsWritten;
      WrittenFiles(files, j);
    }
  }

  // The edits of file i are lost exactly when no unexamined file leads its path
  // and no examined file that is written takes them.
  lemma DroppedExactly(files: seq<DiagFile>, i: nat)
    requires i < |files|
    ensures (forall j :: !WrittenInto(files, i, j)) <==> Dropped(files, i)
  {
    hide WrittenInto, Sponsors, LedByUnexamined;
    forall j: nat
      ensures WrittenInto(files, i, j) <==> Sponsors(files, i, j) || LedByUnexamined(files, i, j)
    {
      OutputsOf(files, i, j);
    }
  }

  lemma OneLeader(files: seq<DiagFile>, i: nat, j: nat, k: nat)
    requires LedByUnexamined(files, i, j) && LedByUnexamined(files, i, k)
    ensures j == k
  {
  }

  // Every selected edit is written exactly once exactly when neither happens.
  lemma WrittenOnceExactly(files: seq<DiagFile>)
    ensures (forall w: FixWork | w.selected && 0 < w.file <= |files| :: WrittenOnce(files, w.file - 1))
            <==> forall i: nat | i < |files| :: !Dropped(files, i) && !Doubled(files, i)
  {
    hide WrittenOnce, Dropped, Doubled;
    forall i: nat | i < |files|
      ensures WrittenOnce(files, i) <==> !Dropped(files, i) && !Doubled(files, i)
    {
      FileWrittenOnce(files, i);
    }
    forall i: nat | i < |files| && forall w: FixWork | w.selected && 0 < w.file <= |files| :: WrittenOnce(files, w.file - 1)
      ensures WrittenOnce(files, i)
    {
      var w := FixWork(i + 1, 0, 0, "", true, 0, false, true);
      assert w.selected && 0 < w.file <= |files|;
    }
  }

  lemma FileWrittenOnce(files: seq<DiagFile>, i: nat)
    requires i < |files|
    ensures WrittenOnce(files, i) <==> !Dropped(files, i) && !Doubled(files, i)
  {
    hide WrittenInto, Sponsors, LedByUnexamined;
    forall j: nat
      ensures WrittenInto(files, i, j) <==> Sponsors(files, i, j) || LedByUnexamined(files, i, j)
    {
      OutputsOf(files, i, j);
    }
    if !Dropped(files, i) && !Doubled(files, i) {
      var j :| WrittenInto(files, i, j);
      forall k | WrittenInto(files, i, k)
        ensures k == j
      {
        if LedByUnexamined(files, i, j) && LedByUnexamined(files, i, k) {
          OneLeader(files, i, j, k);
        }
      }
      assert OnlyOutput(files, i, j);
    }
  }

  // Transitivity is enough, but not needed.
  lemma TransitiveWrittenOnce(files: seq<DiagFile>, i: nat)
    requires Transitive(files) && i < |files|
    ensures WrittenOnce(files, i)
  {
    hide Transitive, WrittenInto;
    var j := FirstSame(files, i, i);
    forall k | WrittenInto(files, i, k)
      ensures k == j
    {
      SameOutput(files, i, j, k);
    }
    assert OnlyOutput(files, i, j);
  }

  lemma FirstSame(files: seq<DiagFile>, i: nat, from: nat) returns (first: nat)
    requires Transitive(files) && SameAt(files, i, from)
    ensures WrittenInto(files, i, first)
    decreases from
  {
    if AlreadyHandled(files, from + 1) {
      HandledBefore(files, from);
      var prior: nat :| prior < from && SameAt(files, prior, from);
      SameEditFileSymmetric(files, prior + 1, from + 1);
      first := FirstSame(files, i, prior);
    } else {
      first := from;
    }
  }

  lemma SameOutput(files: seq<DiagFile>, i: nat, j: nat, k: nat)
    requires Transitive(files) && WrittenInto(files, i, j) && WrittenInto(files, i, k)
    ensures j == k
  {
    SameEditFileSymmetric(files, i + 1, j + 1);
    SameEditFileSymmetric(files, i + 1, k + 1);
    SameEditFileSymmetric(files, j + 1, k + 1);
    HandledBefore(files, j);
    HandledBefore(files, k);
    assert SameAt(files, j, k) && SameAt(files, k, j);
  }

  // --- concrete tables ------------------------------------------------------------------

  // Two examined files share a path with an unexamined one between them: the
  // edits of the last file are lost.
  lemma EditLost()
    ensures var files := [DiagFile("a.c", Known(1, 1)), DiagFile("a.c", Unknown), DiagFile("a.c", Known(1, 2))];
            forall w: FixWork, output | w.selected && w.file == 3 && IsWritten(files, output) :: !GoesInto(files, w, output)
  {
    var files := [DiagFile("a.c", Known(1, 1)), DiagFile("a.c", Unknown), DiagFile("a.c", Known(1, 2))];
    assert SameEditFile(files, 1, 2) && SameEditFile(files, 2, 3);
    assert AlreadyHandled(files, 2) && AlreadyHandled(files, 3);
  }

  // With the unexamined one last, its edits are written into both others.
  lemma EditWrittenTwice(w: FixWork)
    requires w.selected && w.file == 3
    ensures var files := [DiagFile("a.c", Known(1, 1)), DiagFile("a.c", Known(1, 2)), DiagFile("a.c", Unknown)];
            IsWritten(files, 1) && GoesInto(files, w, 1) && IsWritten(files, 2) && GoesInto(files, w, 2)
  {
  }

  // With it first, every edit is written once although the relation is not transitive.
  lemma OnceWithoutTransitivity()
    ensures var files := [DiagFile("a.c", Unknown), DiagFile("a.c", Known(1, 1)), DiagFile("a.c", Known(1, 2))];
            !Transitive(files) && forall i: nat | i < |files| :: WrittenOnce(files, i)
  {
    var files := [DiagFile("a.c", Unknown), DiagFile("a.c", Known(1, 1)), DiagFile("a.c", Known(1, 2))];
    assert SameEditFile(files, 2, 1) && SameEditFile(files, 1, 3) && !SameEditFile(files, 2, 3);
    forall i: nat | i < |files|
      ensures WrittenOnce(files, i)
    {
      assert LedByUnexamined(files, i, 0);
      FileWrittenOnce(files, i);
    }
  }
}
