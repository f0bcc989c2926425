/** Applying fix-its: which edits conflict, which are selected, and the in-place
    splice of the selected ones, right to left, into a copy of the file. */
module Fixits {

  // --- which registered files are one file -------------------------------------

  // identity is the device and inode pair, when the file could be examined.
  datatype Identity = Unknown | Known(device: nat, inode: nat)

  datatype DiagFile = DiagFile(path: string, identity: Identity)

  // File ids are one-based.
  predicate SameEditFile(files: seq<DiagFile>, a: nat, b: nat) {
    && 0 < a <= |files| && 0 < b <= |files|
    && var left, right := files[a - 1], files[b - 1];
       if left.identity.Known? && right.identity.Known? then left.identity == right.identity
       else left.path == right.path
  }

  lemma SameEditFileSymmetric(files: seq<DiagFile>, a: nat, b: nat)
    ensures SameEditFile(files, a, b) <==> SameEditFile(files, b, a)
  {
  }

  ghost predicate Transitive(files: seq<DiagFile>) {
    forall a, b, c | SameEditFile(files, a, b) && SameEditFile(files, b, c) :: SameEditFile(files, a, c)
  }

  // Two different known files and one that could not be examined share a path.
  predicate BridgedAt(files: seq<DiagFile>, i: nat, j: nat, k: nat) {
    && i < |files| && j < |files| && k < |files|
    && files[i].path == files[j].path == files[k].path
    && files[j].identity.Unknown? && files[i].identity.Known? && files[k].identity.Known?
    && files[i].identity != files[k].identity
  }

  // A file known under two paths, one of them also that of an unexamined file.
  predicate AliasedAt(files: seq<DiagFile>, i: nat, j: nat, k: nat) {
    && i < |files| && j < |files| && k < |files|
    && files[i].identity.Unknown? && files[j].identity.Known? && files[k].identity == files[j].identity
    && files[i].path == files[j].path && files[j].path != files[k].path
  }

  // Being the same file is an equivalence exactly when neither happens.
  lemma SameFileTransitiveExactly(files: seq<DiagFile>)
    ensures Transitive(files) <==> forall i, j, k :: !BridgedAt(files, i, j, k) && !AliasedAt(files, i, j, k)
  {
    forall i: nat, j: nat, k: nat | BridgedAt(files, i, j, k) || AliasedAt(files, i, j, k)
      ensures !Transitive(files)
    {
      assert SameEditFile(files, i + 1, j + 1) && SameEditFile(files, j + 1, k + 1) && !SameEditFile(files, i + 1, k + 1);
    }
    if forall i, j, k :: !BridgedAt(files, i, j, k) && !AliasedAt(files, i, j, k) {
      forall a, b, c | SameEditFile(files, a, b) && SameEditFile(files, b, c)
        ensures SameEditFile(files, a, c)
      {
        UnbridgedChains(files, a, b, c);
      }
    }
  }

  lemma UnbridgedChains(files: seq<DiagFile>, a: nat, b: nat, c: nat)
    requires SameEditFile(files, a, b) && SameEditFile(files, b, c)
    requires !BridgedAt(files, a - 1, b - 1, c - 1)
    requires !AliasedAt(files, a - 1, b - 1, c - 1) && !AliasedAt(files, c - 1, b - 1, a - 1)
    ensures SameEditFile(files, a, c)
  {
  }

  // --- conflicts ------------------------------------------------------------------

  // A replacement of original bytes [start, end); ordinal is its place in the
  // list of fix-its.
  datatype FixWork = FixWork(
    file: nat, start: nat, end: nat, insert: string, machineApplicable: bool, ordinal: nat, conflict: bool, selected: bool)

  predicate EditConflicts(files: seq<DiagFile>, a: FixWork, b: FixWork) {
    if !SameEditFile(files, a.file, b.file) then false
    else if a.start == a.end && b.start == b.end then a.start == b.start
    else if a.start == a.end then b.start <= a.start <= b.end
    else if b.start == b.end then a.start <= b.start <= a.end
    else a.start <= b.end && b.start <= a.end
  }

  // One lies wholly before the other with at least a byte between, or a gap of
  // no bytes between two distinct insertion points.
  predicate Separated(a: FixWork, b: FixWork) {
    a.end < b.start || b.end < a.start
  }

  lemma ConflictsSymmetric(files: seq<DiagFile>, a: FixWork, b: FixWork)
    ensures EditConflicts(files, a, b) <==> EditConflicts(files, b, a)
  {
    SameEditFileSymmetric(files, a.file, b.file);
  }

  // Edits of one file are free of conflict exactly when strictly apart.
  lemma NoConflictMeansSeparated(files: seq<DiagFile>, a: FixWork, b: FixWork)
    requires a.start <= a.end && b.start <= b.end && SameEditFile(files, a.file, b.file)
    ensures !EditConflicts(files, a, b) <==> Separated(a, b)
  {
  }

  // --- conflict marks ----------------------------------------------------------------

  // The pair {k, l} comes before (i, j) in the pairwise comparison.
  predicate Compared(k: nat, l: nat, i: nat, j: nat) {
    var lo, hi := if k < l then k else l, if k < l then l else k;
    lo < i || (lo == i && hi < j)
  }

  predicate ConflictSeen(files: seq<DiagFile>, before: seq<FixWork>, i: nat, j: nat, k: nat, l: nat) {
    k < |before| && l < |before| && k != l && Compared(k, l, i, j) && EditConflicts(files, before[k], before[l])
  }

  // Nothing but conflict marks has changed, and those record the pairs compared so far.
  ghost predicate MarkedBy(files: seq<DiagFile>, before: seq<FixWork>, work: seq<FixWork>, i: nat, j: nat) {
    && |work| == |before|
    && (forall k: nat | k < |work| :: work[k] == before[k].(conflict := work[k].conflict))
    && (forall k: nat | k < |work| :: work[k].conflict <==> SeenInConflict(files, before, i, j, k))
  }

  ghost predicate SeenInConflict(files: seq<DiagFile>, before: seq<FixWork>, i: nat, j: nat, k: nat) {
    exists l :: ConflictSeen(files, before, i, j, k, l)
  }

  lemma SeenStep(files: seq<DiagFile>, before: seq<FixWork>, i: nat, j: nat, k: nat)
    requires i < j < |before|
    ensures SeenInConflict(files, before, i, j + 1, k) <==>
              SeenInConflict(files, before, i, j, k) || (EditConflicts(files, before[i], before[j]) && (k == i || k == j))
  {
    hide EditConflicts;
    ConflictsSymmetric(files, before[i], before[j]);
    if SeenInConflict(files, before, i, j + 1, k) {
      var l :| ConflictSeen(files, before, i, j + 1, k, l);
      assert ConflictSeen(files, before, i, j, k, l) || (k == i && l == j) || (k == j && l == i);
    }
    if SeenInConflict(files, before, i, j, k) {
      var l :| ConflictSeen(files, before, i, j, k, l);
      assert ConflictSeen(files, before, i, j + 1, k, l);
    }
    if EditConflicts(files, before[i], before[j]) {
      assert ConflictSeen(files, before, i, j + 1, i, j) && ConflictSeen(files, before, i, j + 1, j, i);
    }
  }

  lemma MarkOne(files: seq<DiagFile>, before: seq<FixWork>, work: seq<FixWork>, i: nat, j: nat)
    requires MarkedBy(files, before, work, i, j) && i < j < |work|
    ensures EditConflicts(files, work[i], work[j]) <==> EditConflicts(files, before[i], before[j])
    ensures if EditConflicts(files, before[i], before[j])
            then MarkedBy(files, before, work[i := work[i].(conflict := true)][j := work[j].(conflict := true)], i, j + 1)
            else MarkedBy(files, before, work, i, j + 1)
  {
    hide EditConflicts, SeenInConflict;
    EditConflictsIgnoresMarks(files, before[i], before[j], work[i], work[j]);
    forall k: nat | k < |work|
      ensures SeenInConflict(files, before, i, j + 1, k) <==>
                SeenInConflict(files, before, i, j, k) || (EditConflicts(files, before[i], before[j]) && (k == i || k == j))
    {
      SeenStep(files, before, i, j, k);
    }
  }

  lemma EditConflictsIgnoresMarks(files: seq<DiagFile>, a: FixWork, b: FixWork, a': FixWork, b': FixWork)
    requires a' == a.(conflict := a'.conflict) && b' == b.(conflict := b'.conflict)
    ensures EditConflicts(files, a', b') <==> EditConflicts(files, a, b)
  {
  }

  ghost predicate ConflictsWith(files: seq<DiagFile>, work: seq<FixWork>, i: nat, j: nat) {
    i < |work| && j < |work| && i != j && EditConflicts(files, work[i], work[j])
  }

  ghost predicate InSomeConflict(files: seq<DiagFile>, work: seq<FixWork>, i: nat) {
    exists j :: ConflictsWith(files, work, i, j)
  }

  ghost function CountConflicts(files: seq<DiagFile>, work: seq<FixWork>, n: nat): nat {
    if n == 0 then 0
    else CountConflicts(files, work, n - 1) + if InSomeConflict(files, work, n - 1) then 1 else 0
  }

  // When row i is complete its mark is final, although later rows go on marking.
  lemma RowIsFinal(files: seq<DiagFile>, before: seq<FixWork>, work: seq<FixWork>, i: nat)
    requires MarkedBy(files, before, work, i, |work|) && i < |work|
    ensures work[i].conflict <==> InSomeConflict(files, before, i)
    ensures MarkedBy(files, before, work, i + 1, i + 2)
  {
    hide EditConflicts;
    forall k: nat
      ensures SeenInConflict(files, before, i + 1, i + 2, k) <==> SeenInConflict(files, before, i, |work|, k)
    {
      if SeenInConflict(files, before, i + 1, i + 2, k) {
        var l :| ConflictSeen(files, before, i + 1, i + 2, k, l);
        assert ConflictSeen(files, before, i, |work|, k, l);
      }
      if SeenInConflict(files, before, i, |work|, k) {
        var l :| ConflictSeen(files, before, i, |work|, k, l);
        assert ConflictSeen(files, before, i + 1, i + 2, k, l);
      }
    }
    if InSomeConflict(files, before, i) {
      var j :| ConflictsWith(files, before, i, j);
      assert ConflictSeen(files, before, i, |work|, i, j);
    }
    if SeenInConflict(files, before, i, |work|, i) {
      var l :| ConflictSeen(files, before, i, |work|, i, l);
      assert ConflictsWith(files, before, i, l);
    }
  }

  // Every pair is compared once, marking both; the count is of edits, not pairs.
  method MarkConflicts(files: seq<DiagFile>, work: array<FixWork>) returns (conflicts: nat)
    requires forall k | 0 <= k < work.Length :: !work[k].conflict
    modifies work
    ensures forall k: nat | k < work.Length :: work[k] == old(work[k]).(conflict := work[k].conflict)
    ensures forall k: nat | k < work.Length :: work[k].conflict <==> InSomeConflict(files, old(work[..]), k)
    ensures conflicts == CountConflicts(files, old(work[..]), work.Length)
  {
    hide EditConflicts, MarkedBy, InSomeConflict;
    ghost var before := work[..];
    conflicts := 0;
    NothingMarked(files, before);
    var i := 0;
    while i < work.Length
      invariant 0 <= i <= work.Length && MarkedBy(files, before, work[..], i, i + 1)
      invariant conflicts == CountConflicts(files, before, i)
    {
      var j := i + 1;
      while j < work.Length
        invariant i < j <= work.Length && MarkedBy(files, before, work[..], i, j)
      {
        ghost var w := work[..];
        MarkOne(files, before, w, i, j);
        if EditConflicts(files, work[i], work[j]) {
          work[i] := work[i].(conflict := true);
          work[j] := work[j].(conflict := true);
          assert work[..] == w[i := w[i].(conflict := true)][j := w[j].(conflict := true)];
        }
        j := j + 1;
      }
      RowIsFinal(files, before, work[..], i);
      if work[i].conflict {
        conflicts := conflicts + 1;
      }
      i := i + 1;
    }
    AllMarked(files, before, work[..]);
  }

  lemma NothingMarked(files: seq<DiagFile>, work: seq<FixWork>)
    requires forall k | 0 <= k < |work| :: !work[k].conflict
    ensures MarkedBy(files, work, work, 0, 1)
  {
    hide EditConflicts;
  }

  lemma AllMarked(files: seq<DiagFile>, before: seq<FixWork>, work: seq<FixWork>)
    requires MarkedBy(files, before, work, |work|, |work| + 1)
    ensures forall k: nat | k < |work| :: work[k] == before[k].(conflict := work[k].conflict)
    ensures forall k: nat | k < |work| :: work[k].conflict <==> InSomeConflict(files, before, k)
  {
    hide EditConflicts;
    forall k: nat | k < |work|
      ensures SeenInConflict(files, before, |work|, |work| + 1, k) <==> InSomeConflict(files, before, k)
    {
      if InSomeConflict(files, before, k) {
        var l :| ConflictsWith(files, before, k, l);
        assert ConflictSeen(files, before, |work|, |work| + 1, k, l);
      }
      if SeenInConflict(files, before, |work|, |work| + 1, k) {
        var l :| ConflictSeen(files, before, |work|, |work| + 1, k, l);
        assert ConflictsWith(files, before, k, l);
      }
    }
  }

  // --- selection --------------------------------------------------------------------------

  datatype Mode = AllFixits | Interactive

  // How many of the first n edits the user would be asked about.
  function Prompts(work: seq<FixWork>, n: nat): nat
    requires n <= |work|
  {
    if n == 0 then 0 else Prompts(work, n - 1) + if work[n - 1].conflict then 0 else 1
  }

  // The first answer that settles all the rest; the end of the input quits.
  function Decisive(answers: string): (p: nat)
    ensures p <= |answers| && forall k | 0 <= k < p :: answers[k] !in "aAqQ"
    ensures p < |answers| ==> answers[p] in "aAqQ"
  {
    if answers == "" || answers[0] in "aAqQ" then 0 else 1 + Decisive(answers[1..])
  }

  // Asked about edit k before the decisive answer, the user said yes; or the
  // decisive answer, given at or before edit k, was "all".
  predicate Accepted(work: seq<FixWork>, answers: string, k: nat)
    requires k < |work|
  {
    var asked, p := Prompts(work, k), Decisive(answers);
    if asked < p then answers[asked] in "yY" else p < |answers| && answers[p] in "aA"
  }

  predicate Chosen(work: seq<FixWork>, mode: Mode, answers: string, k: nat)
    requires k < |work|
  {
    !work[k].conflict && match mode case AllFixits => work[k].machineApplicable case Interactive => Accepted(work, answers, k)
  }

  // Where the loop stands before edit i.
  ghost predicate Asking(work: seq<FixWork>, answers: string, i: nat, asked: nat, acceptAll: bool, quit: bool) {
    && i <= |work| && asked <= |answers| + 1
    && var p := Decisive(answers);
       if acceptAll then !quit && p < |answers| && answers[p] in "aA" && Prompts(work, i) > p
       else if quit then (p < |answers| ==> answers[p] in "qQ") && Prompts(work, i) > p
       else asked == Prompts(work, i) <= p
  }

  lemma {:induction false} PromptsGrow(work: seq<FixWork>, i: nat, j: nat)
    requires i <= j <= |work|
    ensures Prompts(work, i) <= Prompts(work, j)
  {
    if i < j {
      PromptsGrow(work, i, j - 1);
    }
  }

  // What one answer does.
  lemma AnswerOne(work: seq<FixWork>, answers: string, i: nat, asked: nat)
    requires i < |work| && !work[i].conflict && Asking(work, answers, i, asked, false, false)
    ensures var choice := if asked < |answers| then answers[asked] else 'q';
            && Asking(work, answers, i + 1, asked + 1, choice in "aA", choice in "qQ")
            && (Accepted(work, answers, i) <==> choice in "yYaA")
  {
  }

  lemma NothingAfterQuit(work: seq<FixWork>, answers: string, i: nat, asked: nat, k: nat)
    requires Asking(work, answers, i, asked, false, true) && i <= k < |work|
    ensures !Accepted(work, answers, k)
  {
    PromptsGrow(work, i, k);
  }

  // answers stands for what the user types, one per prompt; running out means quit.
  method SelectEdits(work: array<FixWork>, mode: Mode, answers: string) returns (advisorySkipped: nat)
    requires forall k | 0 <= k < work.Length :: !work[k].selected
    modifies work
    ensures forall k: nat | k < work.Length :: work[k] == old(work[k]).(selected := Chosen(old(work[..]), mode, answers, k))
    ensures advisorySkipped == if mode.AllFixits? then CountAdvisory(old(work[..])) else 0
  {
    hide Accepted, Asking;
    ghost var before := work[..];
    advisorySkipped := 0;
    var acceptAll, quit, asked := mode.AllFixits?, false, 0;
    var i := 0;
    AskingFirst(before, answers);
    assert before[..0] == [];
    while i < work.Length && !quit
      invariant 0 <= i <= work.Length == |before|
      invariant !(acceptAll && quit) && (mode.AllFixits? ==> acceptAll)
      invariant mode.Interactive? ==> Asking(before, answers, i, asked, acceptAll, quit)
      invariant forall k: nat | k < i :: work[k] == before[k].(selected := Chosen(before, mode, answers, k))
      invariant forall k | i <= k < work.Length :: work[k] == before[k]
      invariant advisorySkipped == if mode.AllFixits? then CountAdvisory(before[..i]) else 0
      decreases work.Length - i, !quit
    {
      assert before[..i + 1] == before[..i] + [before[i]];
      if work[i].conflict {
        SkipConflict(before, answers, i, asked, acceptAll, quit);
      } else if mode.AllFixits? && !work[i].machineApplicable {
        advisorySkipped := advisorySkipped + 1;
      } else if acceptAll {
        AllAccepted(before, answers, mode, i, asked);
        work[i] := work[i].(selected := true);
      } else {
        AnswerOne(before, answers, i, asked);
        var choice := if asked < |answers| then answers[asked] else 'q';
        asked := asked + 1;
        if choice == 'y' || choice == 'Y' {
          work[i] := work[i].(selected := true);
        } else if choice == 'a' || choice == 'A' {
          work[i] := work[i].(selected := true);
          acceptAll := true;
        } else if choice == 'q' || choice == 'Q' {
          quit := true;
        }
      }
      i := i + 1;
    }
    if quit {
      forall k: nat | i <= k < work.Length
        ensures !Accepted(before, answers, k)
      {
        NothingAfterQuit(before, answers, i, asked, k);
      }
    }
    assert before[..work.Length] == before;
  }

  lemma AskingFirst(work: seq<FixWork>, answers: string)
    ensures Asking(work, answers, 0, 0, false, false)
  {
  }

  lemma SkipConflict(work: seq<FixWork>, answers: string, i: nat, asked: nat, acceptAll: bool, quit: bool)
    requires i < |work| && work[i].conflict
    ensures Asking(work, answers, i, asked, acceptAll, quit) ==> Asking(work, answers, i + 1, asked, acceptAll, quit)
  {
  }

  lemma AllAccepted(work: seq<FixWork>, answers: string, mode: Mode, i: nat, asked: nat)
    requires i < |work| && !work[i].conflict
    ensures mode.Interactive? && Asking(work, answers, i, asked, true, false) ==>
              Accepted(work, answers, i) && Asking(work, answers, i + 1, asked, true, false)
  {
  }

  function CountAdvisory(work: seq<FixWork>): nat {
    if work == [] then 0
    else
      var last := work[|work| - 1];
      CountAdvisory(work[..|work| - 1]) + if !last.conflict && !last.machineApplicable then 1 else 0
  }

  // --- which selected edits go into one file ---------------------------------------------

  ghost predicate WellFormedEdits(work: seq<FixWork>) {
    forall k | 0 <= k < |work| :: work[k].start <= work[k].end
  }

  // What the two steps above leave: nothing selected is in a conflict.
  ghost predicate CleanSelection(files: seq<DiagFile>, work: seq<FixWork>) {
    forall i, j | 0 <= i < |work| && 0 <= j < |work| && i != j && work[i].selected && work[j].selected ::
      !EditConflicts(files, work[i], work[j])
  }

  predicate GoesInto(files: seq<DiagFile>, w: FixWork, file: nat) {
    w.selected && SameEditFile(files, w.file, file)
  }

  // An earlier file id names the same file, so this one is not written.
  ghost predicate AlreadyHandled(files: seq<DiagFile>, file: nat) {
    exists prior: nat :: prior < file && SameEditFile(files, prior, file)
  }

  ghost predicate IsWritten(files: seq<DiagFile>, file: nat) {
    0 < file <= |files| && !AlreadyHandled(files, file)
  }

  // Any two files whose edits go into this one are the same file to each other.
  ghost predicate Cohesive(files: seq<DiagFile>, file: nat) {
    forall a, c | SameEditFile(files, a, file) && SameEditFile(files, c, file) :: SameEditFile(files, a, c)
  }

  // Which a look at the names and identities decides.
  lemma CohesiveExactly(files: seq<DiagFile>, j: nat)
    requires j < |files|
    ensures Cohesive(files, j + 1) <==> forall i, k :: !BridgedAt(files, i, j, k) && !AliasedAt(files, i, j, k)
  {
    forall i: nat, k: nat | BridgedAt(files, i, j, k) || AliasedAt(files, i, j, k)
      ensures !Cohesive(files, j + 1)
    {
      assert SameEditFile(files, i + 1, j + 1) && SameEditFile(files, k + 1, j + 1) && !SameEditFile(files, i + 1, k + 1);
    }
    if forall i, k :: !BridgedAt(files, i, j, k) && !AliasedAt(files, i, j, k) {
      forall a, c | SameEditFile(files, a, j + 1) && SameEditFile(files, c, j + 1)
        ensures SameEditFile(files, a, c)
      {
        SameEditFileSymmetric(files, c, j + 1);
        UnbridgedChains(files, a, j + 1, c);
      }
    }
  }

  lemma TransitiveIsCohesive(files: seq<DiagFile>, file: nat)
    requires Transitive(files)
    ensures Cohesive(files, file)
  {
    forall a, c | SameEditFile(files, a, file) && SameEditFile(files, c, file)
      ensures SameEditFile(files, a, c)
    {
      SameEditFileSymmetric(files, c, file);
    }
  }

  // Selected edits of one output file are then pairwise strictly apart.
  lemma SelectedSeparated(files: seq<DiagFile>, work: seq<FixWork>, file: nat, i: nat, j: nat)
    requires WellFormedEdits(work) && CleanSelection(files, work) && Cohesive(files, file)
    requires i < |work| && j < |work| && i != j && GoesInto(files, work[i], file) && GoesInto(files, work[j], file)
    ensures Separated(work[i], work[j])
  {
    assert SameEditFile(files, work[i].file, work[j].file);
    NoConflictMeansSeparated(files, work[i], work[j]);
  }

  // Two edits that one output would take although they overlap or touch.
  ghost predicate OverlapIn(files: seq<DiagFile>, work: seq<FixWork>, file: nat, i: nat, j: nat) {
    && WellFormedEdits(work) && CleanSelection(files, work) && i < |work| && j < |work| && i != j
    && GoesInto(files, work[i], file) && GoesInto(files, work[j], file) && !Separated(work[i], work[j])
  }

  lemma OverlapsUnlessCohesive(files: seq<DiagFile>, file: nat) returns (work: seq<FixWork>)
    requires !Cohesive(files, file)
    ensures OverlapIn(files, work, file, 0, 1)
  {
    var a, c :| SameEditFile(files, a, file) && SameEditFile(files, c, file) && !SameEditFile(files, a, c);
    SameEditFileSymmetric(files, a, c);
    work := [FixWork(a, 0, 1, "", true, 0, false, true), FixWork(c, 0, 1, "", true, 1, false, true)];
  }

  // For any list of edits, conflict-free selections are strictly apart in every
  // output exactly when every file written is cohesive.
  lemma SeparatedExactly(files: seq<DiagFile>)
    ensures (forall file | IsWritten(files, file) :: Cohesive(files, file))
            <==> forall work, file, i, j | IsWritten(files, file) :: !OverlapIn(files, work, file, i, j)
  {
    hide AlreadyHandled;
    forall work, file, i, j | IsWritten(files, file) && Cohesive(files, file)
      ensures !OverlapIn(files, work, file, i, j)
    {
      if OverlapIn(files, work, file, i, j) {
        SelectedSeparated(files, work, file, i, j);
        assert false;
      }
    }
    if file :| IsWritten(files, file) && !Cohesive(files, file) {
      var work := OverlapsUnlessCohesive(files, file);
      assert OverlapIn(files, work, file, 0, 1);
    }
  }

  // One file that is not: two overlapping edits are sent to it unnoticed.
  lemma BridgedFilesOverlap()
    ensures var files := [DiagFile("a.c", Unknown), DiagFile("a.c", Known(1, 1)), DiagFile("a.c", Known(1, 2))];
            var work := [FixWork(2, 0, 2, "", true, 0, false, true), FixWork(3, 1, 3, "", true, 1, false, true)];
            IsWritten(files, 1) && OverlapIn(files, work, 1, 0, 1)
  {
  }
}
