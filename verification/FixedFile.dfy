/** Writing one fixed file: collect the selected edits, sort them, splice them. */
module FixedFile {
  import opened Fixits
  import opened Splice

  // The edits of the first n that go into a file, in the order found.
  function Collected(files: seq<DiagFile>, work: seq<FixWork>, file: nat, n: nat): seq<FixWork>
    requires n <= |work|
  {
    if n == 0 then []
    else Collected(files, work, file, n - 1) + if GoesInto(files, work[n - 1], file) then [work[n - 1]] else []
  }

  ghost predicate Apart(es: seq<FixWork>) {
    forall i, j | 0 <= i < j < |es| :: Separated(es[i], es[j])
  }

  lemma {:induction false} CollectedFrom(files: seq<DiagFile>, work: seq<FixWork>, file: nat, n: nat, e: FixWork)
    requires n <= |work|
    ensures e in Collected(files, work, file, n) <==> e in work[..n] && GoesInto(files, e, file)
  {
    if n > 0 {
      CollectedFrom(files, work, file, n - 1, e);
      assert work[..n] == work[..n - 1] + [work[n - 1]];
    }
  }

  lemma {:induction false} CollectedApart(files: seq<DiagFile>, work: seq<FixWork>, file: nat, n: nat)
    requires n <= |work| && WellFormedEdits(work) && CleanSelection(files, work) && Cohesive(files, file)
    ensures Apart(Collected(files, work, file, n))
  {
    hide Cohesive, GoesInto, Separated, CleanSelection;
    if n > 0 {
      CollectedApart(files, work, file, n - 1);
      var rest := Collected(files, work, file, n - 1);
      if GoesInto(files, work[n - 1], file) {
        forall i | 0 <= i < |rest|
          ensures Separated(rest[i], work[n - 1])
        {
          CollectedFrom(files, work, file, n - 1, rest[i]);
          var k :| 0 <= k < n - 1 && work[k] == rest[i];
          SelectedSeparated(files, work, file, k, n - 1);
        }
      }
    }
  }

  lemma TwiceInMultiset(es: seq<FixWork>, i: nat, j: nat)
    requires i < j < |es| && es[i] == es[j]
    ensures multiset(es)[es[i]] >= 2
  {
    assert es == es[..i] + [es[i]] + es[i + 1..j] + [es[j]] + es[j + 1..];
  }

  lemma {:induction false} ApartOnce(es: seq<FixWork>, e: FixWork)
    requires Apart(es) && e.start <= e.end
    ensures multiset(es)[e] <= 1
  {
    if es != [] {
      var n := |es| - 1;
      assert es == es[..n] + [es[n]];
      ApartOnce(es[..n], e);
      if es[n] == e {
        assert forall i | 0 <= i < n :: es[..n][i] == es[i] && Separated(es[i], es[n]);
        assert e !in es[..n];
      }
    }
  }

  // Being pairwise apart does not depend on the order.
  lemma ApartPermuted(es: seq<FixWork>, fs: seq<FixWork>)
    requires Apart(es) && multiset(es) == multiset(fs)
    requires forall e | e in es :: e.start <= e.end
    ensures Apart(fs)
  {
    SameElements(es, fs);
    forall i, j | 0 <= i < j < |fs|
      ensures Separated(fs[i], fs[j])
    {
      assert fs[i] in es && fs[j] in es;
      if fs[i] == fs[j] {
        TwiceInMultiset(fs, i, j);
        ApartOnce(es, fs[i]);
        assert false;
      }
    }
  }

  // Overrun: the splice would run past the end of its buffer.
  datatype Written = Unchanged | Mismatch | Overrun | Fixed(text: string)

  // The original text of every file with a selected edit is at hand.
  ghost predicate Offsets(files: seq<DiagFile>, originals: seq<string>, work: seq<FixWork>) {
    && |originals| == |files|
    && forall k | 0 <= k < |work| :: 0 < work[k].file <= |files| && work[k].start <= work[k].end <= |originals[work[k].file - 1]|
  }

  // Every file the edits name holds the same text as the one written.
  ghost predicate OneText(files: seq<DiagFile>, originals: seq<string>, work: seq<FixWork>, file: nat)
    requires Offsets(files, originals, work) && 0 < file <= |files|
  {
    forall k | 0 <= k < |work| && GoesInto(files, work[k], file) :: originals[work[k].file - 1] == originals[file - 1]
  }

  // No leftmost group of the edits, in place order, shrinks the text by two or
  // more; a buffer one longer than the final text is large enough just then.
  ghost predicate RoomEnough(collected: seq<FixWork>) {
    exists es :: InPlaceOrder(es, collected) && NeverShrinksMuch(es)
  }

  ghost predicate InPlaceOrder(es: seq<FixWork>, collected: seq<FixWork>) {
    Descending(es) && multiset(es) == multiset(collected)
  }

  ghost predicate NeverShrinksMuch(es: seq<FixWork>) {
    forall k: nat | k <= |es| :: ShrinksLittle(es, k)
  }

  // All selected edits of the file, substituted at once.
  ghost predicate IsSubstitution(text: string, collected: seq<FixWork>, result: string) {
    exists es :: SubstitutesTo(text, collected, es, result)
  }

  ghost predicate SubstitutesTo(text: string, collected: seq<FixWork>, es: seq<FixWork>, result: string) {
    && Ascending(es) && Within(es, |text|) && multiset(es) == multiset(collected)
    && result == Substituted(text, 0, es)
  }

  method WriteFixedFile(files: seq<DiagFile>, originals: seq<string>, work: seq<FixWork>, file: nat)
    returns (written: Written)
    requires Offsets(files, originals, work) && 0 < file <= |files|
    requires CleanSelection(files, work) && Cohesive(files, file)
    ensures written.Mismatch? <==> !OneText(files, originals, work, file)
    ensures written.Unchanged? <==>
              OneText(files, originals, work, file) && Collected(files, work, file, |work|) == []
    ensures written.Fixed? || written.Overrun? ==>
              (written.Fixed? <==> RoomEnough(Collected(files, work, file, |work|)))
    ensures written.Fixed? ==> IsSubstitution(originals[file - 1], Collected(files, work, file, |work|), written.text)
  {
    hide Cohesive, CleanSelection, RoomEnough, IsSubstitution, GoesInto, TotalGrowth;
    var text := originals[file - 1];
    var selected, finalLen, i := [], |text|, 0;
    assert TotalGrowth([]) == 0 by {
      NoGrowth();
    }
    while i < |work|
      invariant 0 <= i <= |work| && selected == Collected(files, work, file, i)
      invariant finalLen == |text| + TotalGrowth(selected)
      invariant forall k | 0 <= k < i && GoesInto(files, work[k], file) :: originals[work[k].file - 1] == text
    {
      if GoesInto(files, work[i], file) {
        if originals[work[i].file - 1] != text {
          return Mismatch;
        }
        GrowthOfOneMore(selected, work[i]);
        finalLen := finalLen - (work[i].end - work[i].start) + |work[i].insert|;
        selected := selected + [work[i]];
      }
      i := i + 1;
    }
    if |selected| == 0 {
      return Unchanged;
    }
    written := SpliceSelected(files, originals, work, file, selected, finalLen);
  }

  lemma NoGrowth()
    ensures TotalGrowth([]) == 0
  {
  }

  lemma GrowthOfOneMore(es: seq<FixWork>, e: FixWork)
    ensures TotalGrowth(es + [e]) == TotalGrowth(es) + Growth(e)
  {
    assert (es + [e])[..|es|] == es;
  }

  method SpliceSelected(files: seq<DiagFile>, originals: seq<string>, work: seq<FixWork>, file: nat, selected: seq<FixWork>,
                        finalLen: int)
    returns (written: Written)
    requires Offsets(files, originals, work) && 0 < file <= |files| && OneText(files, originals, work, file)
    requires CleanSelection(files, work) && Cohesive(files, file)
    requires selected == Collected(files, work, file, |work|) && finalLen == |originals[file - 1]| + TotalGrowth(selected)
    ensures written.Fixed? || written.Overrun?
    ensures written.Fixed? <==> RoomEnough(selected)
    ensures written.Fixed? ==> IsSubstitution(originals[file - 1], selected, written.text)
  {
    hide Cohesive, CleanSelection, RoomEnough, IsSubstitution, GoesInto, Collected, Descending, Within, Fits, Ascending, Reverse, Substituted, SortedReverse, TotalGrowth;
    var text := originals[file - 1];
    var items := new FixWork[|selected|](i requires 0 <= i < |selected| => selected[i]);
    assert items[..] == selected;
    SortReverse(items);
    var es := items[..];
    SortedReady(files, originals, work, file, es);
    FinalLength(text, selected, es, finalLen);
    var buf := new char[finalLen + 1](_ => '\0');
    var fits, len := SpliceAll(text, es, buf);
    if !fits {
      return Overrun;
    }
    var result := buf[..len];
    Substitution(text, selected, es, result);
    return Fixed(result);
  }

  lemma SortedReady(files: seq<DiagFile>, originals: seq<string>, work: seq<FixWork>, file: nat, es: seq<FixWork>)
    requires Offsets(files, originals, work) && 0 < file <= |files| && OneText(files, originals, work, file)
    requires CleanSelection(files, work) && Cohesive(files, file)
    requires SortedReverse(es) && multiset(es) == multiset(Collected(files, work, file, |work|))
    ensures Descending(es) && Within(es, |originals[file - 1]|)
  {
    hide Cohesive, CleanSelection, GoesInto, Separated;
    var collected := Collected(files, work, file, |work|);
    SameElements(es, collected);
    forall e | e in es
      ensures e.start <= e.end <= |originals[file - 1]|
    {
      CollectedFrom(files, work, file, |work|, e);
      var k :| 0 <= k < |work| && work[k] == e;
    }
    CollectedApart(files, work, file, |work|);
    ApartPermuted(collected, es);
    SortedIsDescending(es);
  }

  lemma FinalLength(text: string, collected: seq<FixWork>, es: seq<FixWork>, finalLen: int)
    requires InPlaceOrder(es, collected) && Within(es, |text|) && finalLen == |text| + TotalGrowth(collected)
    ensures finalLen >= 0 && (Fits(|text|, es, finalLen + 1) <==> RoomEnough(collected))
  {
    hide Descending, Fits, ShrinksLittle, TotalGrowth;
    GrowthPermuted(collected, es);
    LengthGrows(|text|, es, |es|);
    assert es[..|es|] == es;
    SplicedLength(text, es, |es|);
    FinalSizeFitsExactly(|text|, es);
    if fs :| InPlaceOrder(fs, collected) && NeverShrinksMuch(fs) {
      DescendingUnique(es, fs);
    }
  }

  lemma Substitution(text: string, collected: seq<FixWork>, es: seq<FixWork>, result: string)
    requires multiset(es) == multiset(collected) && Descending(es) && Within(es, |text|)
    requires Ascending(Reverse(es)) && Within(Reverse(es), |text|) && result == Substituted(text, 0, Reverse(es))
    ensures IsSubstitution(text, collected, result)
  {
    ReverseElements(es);
    assert SubstitutesTo(text, collected, Reverse(es), result);
  }

  lemma {:induction false} ReverseElements(es: seq<FixWork>)
    ensures multiset(Reverse(es)) == multiset(es)
  {
    if es != [] {
      ReverseElements(es[1..]);
      assert es == [es[0]] + es[1..];
      assert Reverse(es) == Reverse(es[1..]) + [es[0]];
    }
  }

  // The fixed text is the only one: it does not depend on the order of the edits.
  lemma SubstitutionUnique(text: string, collected: seq<FixWork>, other: seq<FixWork>, result: string, result': string)
    requires multiset(collected) == multiset(other)
    requires IsSubstitution(text, collected, result) && IsSubstitution(text, other, result')
    ensures result == result'
  {
    var es :| SubstitutesTo(text, collected, es, result);
    var fs :| SubstitutesTo(text, other, fs, result');
    AscendingUnique(es, fs);
  }

  lemma AscendingUnique(es: seq<FixWork>, fs: seq<FixWork>)
    requires Ascending(es) && Ascending(fs) && multiset(es) == multiset(fs)
    requires forall e | e in es :: e.start <= e.end
    ensures es == fs
  {
    hide Descending, Ascending;
    ReverseElements(es);
    ReverseElements(fs);
    SameElements(es, Reverse(es));
    ReverseDescends(es);
    ReverseDescends(fs);
    DescendingUnique(Reverse(es), Reverse(fs));
    SameReverse(es, fs);
  }

  lemma ReverseDescends(es: seq<FixWork>)
    requires Ascending(es)
    ensures Descending(Reverse(es))
  {
  }

  lemma SameReverse(es: seq<FixWork>, fs: seq<FixWork>)
    requires Reverse(es) == Reverse(fs)
    ensures es == fs
  {
    assert |es| == |Reverse(es)| == |Reverse(fs)| == |fs|;
    forall i | 0 <= i < |es|
      ensures es[i] == fs[i]
    {
      assert Reverse(es)[|es| - 1 - i] == es[i] && Reverse(fs)[|es| - 1 - i] == fs[i];
    }
  }

  // --- all files ---------------------------------------------------------------------

  // Compare, ask, and what is selected can be applied together.
  method MarkAndSelect(files: seq<DiagFile>, work: array<FixWork>, mode: Mode, answers: string) returns (conflicts: nat, advisorySkipped: nat)
    requires forall k | 0 <= k < work.Length :: !work[k].conflict && !work[k].selected
    modifies work
    ensures conflicts == CountConflicts(files, old(work[..]), work.Length)
    ensures CleanSelection(files, work[..])
    ensures forall k: nat | k < work.Length ::
              work[k] == old(work[k]).(conflict := InSomeConflict(files, old(work[..]), k), selected := work[k].selected)
    ensures mode.AllFixits? ==> forall k: nat | k < work.Length ::
              work[k].selected <==> work[k].machineApplicable && !InSomeConflict(files, old(work[..]), k)
  {
    hide InSomeConflict, CountConflicts, CleanSelection;
    ghost var before := work[..];
    conflicts := MarkConflicts(files, work);
    ghost var marked := work[..];
    advisorySkipped := SelectEdits(work, mode, answers);
    SelectionIsClean(files, before, work[..]);
  }

  lemma SelectionIsClean(files: seq<DiagFile>, before: seq<FixWork>, work: seq<FixWork>)
    requires |before| == |work|
    requires forall k: nat | k < |work| :: work[k] == before[k].(conflict := work[k].conflict, selected := work[k].selected)
    requires forall k: nat | k < |work| :: work[k].conflict <==> InSomeConflict(files, before, k)
    requires forall k | 0 <= k < |work| && work[k].selected :: !work[k].conflict
    ensures CleanSelection(files, work)
  {
    hide EditConflicts;
    forall i: nat, j: nat | i < |work| && j < |work| && i != j && work[i].selected
      ensures !EditConflicts(files, work[i], work[j])
    {
      SameConflict(files, before[i], before[j], work[i], work[j]);
      assert !InSomeConflict(files, before, i);
      assert !ConflictsWith(files, before, i, j);
    }
  }

  lemma SameConflict(files: seq<DiagFile>, a: FixWork, b: FixWork, a': FixWork, b': FixWork)
    requires a' == a.(conflict := a'.conflict, selected := a'.selected) && b' == b.(conflict := b'.conflict, selected := b'.selected)
    ensures EditConflicts(files, a', b') <==> EditConflicts(files, a, b)
  {
  }
}
