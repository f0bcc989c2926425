/** The right-to-left in-place splice of selected edits, and why it is one
    simultaneous substitution on the original text. */
module Splice {
  import opened Fixits

  // --- the meaning: every edit replaced at once, left to right ------------------

  ghost predicate Ascending(es: seq<FixWork>) {
    forall i, j | 0 <= i < j < |es| :: es[i].end < es[j].start
  }

  ghost predicate Within(es: seq<FixWork>, n: nat) {
    forall e | e in es :: e.start <= e.end <= n
  }

  // text from position `at` on, with the edits of es substituted.
  function Substituted(text: string, at: nat, es: seq<FixWork>): string
    requires at <= |text| && Ascending(es) && Within(es, |text|)
    requires es != [] ==> at <= es[0].start
    decreases |es|
  {
    if es == [] then text[at..]
    else
      assert es[0] in es;
      assert forall e | e in es[1..] :: e in es;
      assert |es| > 1 ==> es[0].end < es[1].start;
      text[at..es[0].start] + es[0].insert + Substituted(text, es[0].end, es[1..])
  }

  function Reverse(es: seq<FixWork>): seq<FixWork> {
    seq(|es|, i requires 0 <= i < |es| => es[|es| - 1 - i])
  }

  ghost predicate Descending(es: seq<FixWork>) {
    forall i, j | 0 <= i < j < |es| :: es[j].end < es[i].start
  }

  // --- the algorithm: one splice after another, from the right --------------------

  function SpliceOne(text: string, e: FixWork): string {
    if e.start <= e.end <= |text| then text[..e.start] + e.insert + text[e.end..] else text
  }

  // The text after the first k edits of a descending list.
  function Spliced(text: string, es: seq<FixWork>, k: nat): string
    requires k <= |es|
  {
    if k == 0 then text else SpliceOne(Spliced(text, es, k - 1), es[k - 1])
  }

  function LengthAfter(n: nat, es: seq<FixWork>, k: nat): int
    requires k <= |es|
  {
    if k == 0 then n else LengthAfter(n, es, k - 1) - (es[k - 1].end - es[k - 1].start) + |es[k - 1].insert|
  }

  // What lies left of the last edit made is still the original text, so the
  // next edit's offsets still mean what they meant.
  lemma {:induction false} PrefixUntouched(text: string, es: seq<FixWork>, k: nat)
    requires 0 < k <= |es| && Descending(es) && Within(es, |text|)
    ensures var before, e := Spliced(text, es, k - 1), es[k - 1];
            e.start <= e.end <= |before| && before[..e.end] == text[..e.end]
  {
    assert es[k - 1] in es;
    if k > 1 {
      PrefixUntouched(text, es, k - 1);
      var before, e, last := Spliced(text, es, k - 2), es[k - 1], es[k - 2];
      assert e.end < last.start;
      assert before[..last.end][..e.end] == before[..e.end] == text[..last.end][..e.end];
      assert Spliced(text, es, k - 1)[..e.end] == before[..e.end];
    }
  }

  // Starting later just drops the text in between.
  lemma SubstitutedFrom(text: string, at: nat, from: nat, es: seq<FixWork>)
    requires at <= from <= |text| && Ascending(es) && Within(es, |text|)
    requires es != [] ==> from <= es[0].start
    ensures Substituted(text, at, es) == text[at..from] + Substituted(text, from, es)
  {
    if es == [] {
      assert text[at..] == text[at..from] + text[from..];
    } else {
      hide Substituted, Ascending, Within;
      var e := es[0];
      SubstitutedHead(text, at, es);
      SubstitutedHead(text, from, es);
      assert text[at..e.start] == text[at..from] + text[from..e.start];
      Regroup(text[at..from], text[from..e.start], e.insert, Substituted(text, e.end, es[1..]));
    }
  }

  lemma Regroup(a: string, b: string, c: string, d: string)
    ensures (a + b) + c + d == a + (b + c + d)
  {
  }

  lemma SubstitutedHead(text: string, at: nat, es: seq<FixWork>)
    requires es != [] && Ascending(es) && Within(es, |text|) && at <= es[0].start
    ensures es[0].start <= es[0].end <= |text| && Ascending(es[1..]) && Within(es[1..], |text|)
    ensures |es| > 1 ==> es[0].end <= es[1..][0].start
    ensures Substituted(text, at, es) == text[at..es[0].start] + es[0].insert + Substituted(text, es[0].end, es[1..])
  {
    assert es[0] in es;
    assert forall e | e in es[1..] :: e in es;
    assert |es| > 1 ==> es[0].end < es[1].start;
  }

  lemma ReversedEdits(es: seq<FixWork>, n: nat, k: nat)
    requires k <= |es| && Descending(es) && Within(es, n)
    ensures Ascending(Reverse(es[..k])) && Within(Reverse(es[..k]), n)
  {
    ReversedAscends(es, k);
    ReversedWithin(es, n, k);
  }

  lemma ReversedAt(es: seq<FixWork>, k: nat, i: nat)
    requires i < k <= |es|
    ensures Reverse(es[..k])[i] == es[k - 1 - i]
  {
  }

  lemma ReversedAscends(es: seq<FixWork>, k: nat)
    requires k <= |es| && Descending(es)
    ensures Ascending(Reverse(es[..k]))
  {
    var r := Reverse(es[..k]);
    forall i, j | 0 <= i < j < |r|
      ensures r[i].end < r[j].start
    {
      hide Reverse;
      ReversedAt(es, k, i);
      ReversedAt(es, k, j);
    }
  }

  lemma ReversedWithin(es: seq<FixWork>, n: nat, k: nat)
    requires k <= |es| && Within(es, n)
    ensures Within(Reverse(es[..k]), n)
  {
    var r := Reverse(es[..k]);
    forall e | e in r
      ensures e.start <= e.end <= n
    {
      var i :| 0 <= i < |r| && r[i] == e;
      ReversedAt(es, k, i);
      assert es[k - 1 - i] in es;
    }
  }

  lemma ReverseStep(es: seq<FixWork>, n: nat, k: nat)
    requires 0 < k <= |es| && Descending(es) && Within(es, n)
    ensures Reverse(es[..k]) == [es[k - 1]] + Reverse(es[..k - 1])
    ensures es[k - 1].start <= es[k - 1].end <= n
    ensures Reverse(es[..k - 1]) != [] ==> es[k - 1].end < Reverse(es[..k - 1])[0].start
  {
    var front, rest := es[..k], es[..k - 1];
    assert front[k - 1] == es[k - 1] && forall i | 0 <= i < k - 1 :: front[i] == rest[i];
    assert es[k - 1] in es;
  }

  // Splicing a descending list, one edit at a time from the right, is one
  // simultaneous substitution of the same edits.
  lemma {:induction false} SplicesSubstitute(text: string, es: seq<FixWork>, k: nat)
    requires k <= |es| && Descending(es) && Within(es, |text|)
    ensures Ascending(Reverse(es[..k])) && Within(Reverse(es[..k]), |text|)
    ensures Spliced(text, es, k) == Substituted(text, 0, Reverse(es[..k]))
  {
    hide Ascending, Within, Descending, Reverse, Substituted;
    ReversedEdits(es, |text|, k);
    if k == 0 {
      NothingSubstituted(text, es);
    } else {
      ReverseStep(es, |text|, k);
      SplicesSubstitute(text, es, k - 1);
      ReversedEdits(es, |text|, k - 1);
      PrefixUntouched(text, es, k);
      var e, rest := es[k - 1], Reverse(es[..k - 1]);
      OneMoreSubstituted(text, e, rest);
      assert Reverse(es[..k])[1..] == rest;
    }
  }

  lemma NothingSubstituted(text: string, es: seq<FixWork>)
    ensures Ascending(Reverse(es[..0])) && Within(Reverse(es[..0]), |text|) && Substituted(text, 0, Reverse(es[..0])) == text
  {
  }

  lemma OneMoreSubstituted(text: string, e: FixWork, rest: seq<FixWork>)
    requires Ascending(rest) && Within(rest, |text|) && e.start <= e.end <= |text|
    requires Ascending([e] + rest) && Within([e] + rest, |text|)
    requires rest != [] ==> e.end < rest[0].start
    ensures SpliceOne(Substituted(text, 0, rest), e) == Substituted(text, 0, [e] + rest)
  {
    SubstitutedFrom(text, 0, e.end, rest);
    SubstitutedHead(text, 0, [e] + rest);
    assert ([e] + rest)[1..] == rest;
    var before := Substituted(text, 0, rest);
    assert before[..e.start] == text[0..e.end][..e.start] == text[0..e.start];
    assert before[e.end..] == Substituted(text, e.end, rest);
  }

  // --- sorting: later starts first ---------------------------------------------------

  predicate Earlier(a: FixWork, b: FixWork) {
    a.start < b.start || (a.start == b.start && a.ordinal < b.ordinal)
  }

  ghost predicate SortedReverse(es: seq<FixWork>) {
    forall i, j | 0 <= i < j < |es| :: !Earlier(es[i], es[j])
  }

  // Insertion sort, in place.
  method SortReverse(items: array<FixWork>)
    modifies items
    ensures SortedReverse(items[..]) && multiset(items[..]) == old(multiset(items[..]))
  {
    var i := 1;
    while i < items.Length
      invariant items.Length == 0 || 1 <= i <= items.Length
      invariant SortedReverse(items[..if items.Length == 0 then 0 else i])
      invariant multiset(items[..]) == old(multiset(items[..]))
    {
      InsertInto(items, i);
      i := i + 1;
    }
    assert items[..] == items[..items.Length];
  }

  // Move items[i] left past everything earlier than it.
  method InsertInto(items: array<FixWork>, i: nat)
    requires 1 <= i < items.Length && SortedReverse(items[..i])
    modifies items
    ensures SortedReverse(items[..i + 1]) && multiset(items[..]) == old(multiset(items[..]))
  {
    hide Earlier;
    var item := items[i];
    ghost var s := items[..];
    var j := i;
    assert s[..i] == items[..i];
    while j > 0 && Earlier(items[j - 1], item)
      invariant 0 <= j <= i
      invariant forall k | 0 <= k <= j :: k < i ==> items[k] == s[k]
      invariant forall k | j < k <= i :: items[k] == s[k - 1]
      invariant forall k | i < k < items.Length :: items[k] == s[k]
      invariant forall k | j <= k < i :: Earlier(s[k], item)
    {
      items[j] := items[j - 1];
      j := j - 1;
    }
    items[j] := item;
    Inserted(s, i, j, items[..]);
  }

  lemma Inserted(s: seq<FixWork>, i: nat, j: nat, t: seq<FixWork>)
    requires j <= i < |s| == |t| && SortedReverse(s[..i])
    requires forall k | 0 <= k < j :: t[k] == s[k]
    requires t[j] == s[i]
    requires forall k | j < k <= i :: t[k] == s[k - 1]
    requires forall k | i < k < |s| :: t[k] == s[k]
    requires forall k | j <= k < i :: Earlier(s[k], s[i])
    requires j > 0 ==> !Earlier(s[j - 1], s[i])
    ensures SortedReverse(t[..i + 1]) && multiset(t) == multiset(s)
  {
    hide Earlier;
    forall x, y | 0 <= x < y <= i
      ensures !Earlier(t[x], t[y])
    {
      InsertedPair(s, i, j, t, x, y);
    }
    InsertedElements(s, i, j, t);
  }

  lemma InsertedElements(s: seq<FixWork>, i: nat, j: nat, t: seq<FixWork>)
    requires j <= i < |s| == |t|
    requires forall k | 0 <= k < j :: t[k] == s[k]
    requires t[j] == s[i]
    requires forall k | j < k <= i :: t[k] == s[k - 1]
    requires forall k | i < k < |s| :: t[k] == s[k]
    ensures multiset(t) == multiset(s)
  {
    var a, b, c := s[..j], s[j..i], s[i + 1..];
    Rearranged(s, t, a, s[i], b, c);
  }

  lemma Rearranged<T(!new)>(s: seq<T>, t: seq<T>, a: seq<T>, x: T, b: seq<T>, c: seq<T>)
    requires |s| == |t| == |a| + |b| + |c| + 1
    requires forall k | 0 <= k < |s| ::
      (s[k] == if k < |a| then a[k] else if k < |a| + |b| then b[k - |a|] else if k == |a| + |b| then x else c[k - |a| - |b| - 1])
    requires forall k | 0 <= k < |s| ::
      (t[k] == if k < |a| then a[k] else if k == |a| then x else if k <= |a| + |b| then b[k - |a| - 1] else c[k - |a| - |b| - 1])
    ensures multiset(t) == multiset(s)
  {
    assert t == a + [x] + b + c;
    assert s == a + b + [x] + c;
  }

  lemma InsertedPair(s: seq<FixWork>, i: nat, j: nat, t: seq<FixWork>, x: nat, y: nat)
    requires j <= i < |s| == |t| && SortedReverse(s[..i]) && x < y <= i
    requires forall k | 0 <= k < j :: t[k] == s[k]
    requires t[j] == s[i]
    requires forall k | j < k <= i :: t[k] == s[k - 1]
    requires forall k | j <= k < i :: Earlier(s[k], s[i])
    requires j > 0 ==> !Earlier(s[j - 1], s[i])
    ensures !Earlier(t[x], t[y])
  {
    var u, v := if x < j then x else x - 1, if y < j then y else y - 1;
    if y == j {
      assert x < j - 1 ==> !Earlier(s[..i][x], s[..i][j - 1]);
    } else if x != j {
      assert !Earlier(s[..i][u], s[..i][v]);
    }
  }

  // Distinct ordinals and strict separation make the sorted list descending.
  lemma SortedIsDescending(es: seq<FixWork>)
    requires SortedReverse(es) && forall i, j | 0 <= i < j < |es| :: Separated(es[i], es[j])
    requires forall e | e in es :: e.start <= e.end
    ensures Descending(es)
  {
    forall i, j | 0 <= i < j < |es|
      ensures es[j].end < es[i].start
    {
      assert es[i] in es && es[j] in es;
      assert Separated(es[i], es[j]) && !Earlier(es[i], es[j]);
    }
  }

  // The first of a descending list is the one that starts last.
  lemma HeadStartsLast(es: seq<FixWork>, e: FixWork)
    requires Descending(es) && e in es && e != es[0] && e.start <= e.end
    ensures e.start < es[0].start
  {
    var k :| 0 <= k < |es| && es[k] == e;
    assert es[k].end < es[0].start;
  }

  lemma SameElements(es: seq<FixWork>, fs: seq<FixWork>)
    requires multiset(es) == multiset(fs)
    ensures |es| == |fs| && forall e :: e in es <==> e in fs
  {
    assert |multiset(es)| == |es| && |multiset(fs)| == |fs|;
    assert forall e :: e in es <==> e in multiset(es);
    assert forall e :: e in fs <==> e in multiset(fs);
  }

  lemma SameRest(es: seq<FixWork>, fs: seq<FixWork>)
    requires es != [] && fs != [] && es[0] == fs[0] && multiset(es) == multiset(fs)
    ensures multiset(es[1..]) == multiset(fs[1..])
  {
    assert es == [es[0]] + es[1..] && fs == [fs[0]] + fs[1..];
    assert multiset(es[1..]) == multiset(es) - multiset{es[0]};
    assert multiset(fs[1..]) == multiset(fs) - multiset{fs[0]};
  }

  // Two descending lists of the same edits are the same list: the result does
  // not depend on the order the edits were collected in.
  lemma {:induction false} DescendingUnique(es: seq<FixWork>, fs: seq<FixWork>)
    requires Descending(es) && Descending(fs) && multiset(es) == multiset(fs)
    requires forall e | e in es :: e.start <= e.end
    ensures es == fs
  {
    SameElements(es, fs);
    if es != [] {
      assert es[0] in es && fs[0] in fs;
      if es[0] != fs[0] {
        HeadStartsLast(es, fs[0]);
        HeadStartsLast(fs, es[0]);
      }
      SameRest(es, fs);
      DescendingUnique(es[1..], fs[1..]);
      assert es == [es[0]] + es[1..] && fs == [fs[0]] + fs[1..];
    }
  }

  // --- the buffer -------------------------------------------------------------------------

  // Move n characters within the buffer, overlapping or not.
  method Memmove(buf: array<char>, to: nat, from: nat, n: nat)
    requires to + n <= buf.Length && from + n <= buf.Length
    modifies buf
    ensures forall k | 0 <= k < buf.Length :: buf[k] == if to <= k < to + n then old(buf[from + k - to]) else old(buf[k])
  {
    forall k | 0 <= k < n {
      buf[to + k] := buf[from + k];
    }
  }

  method Memcpy(buf: array<char>, to: nat, src: string)
    requires to + |src| <= buf.Length
    modifies buf
    ensures forall k | 0 <= k < buf.Length :: buf[k] == if to <= k < to + |src| then src[k - to] else old(buf[k])
  {
    forall k | 0 <= k < |src| {
      buf[to + k] := src[k];
    }
  }

  // Make room (or close up), then drop the new text in.
  method SpliceInPlace(buf: array<char>, len: nat, e: FixWork) returns (len': nat)
    requires len <= buf.Length && e.start <= e.end <= len
    requires len - (e.end - e.start) + |e.insert| <= buf.Length
    modifies buf
    ensures len' == len - (e.end - e.start) + |e.insert| && buf[..len'] == SpliceOne(old(buf[..len]), e)
  {
    var newLen := |e.insert|;
    ghost var text := buf[..len];
    Memmove(buf, e.start + newLen, e.end, len - e.end);
    ghost var roomy := buf[..];
    Memcpy(buf, e.start, e.insert);
    len' := len - (e.end - e.start) + newLen;
    CharsInPlace(text, e, roomy, buf[..len']);
    SplicedChars(text, e, buf[..len']);
  }

  // Room is made first, then the new text is dropped in.
  lemma CharsInPlace(text: string, e: FixWork, roomy: string, result: string)
    requires e.start <= e.end <= |text| && |result| == |text| - (e.end - e.start) + |e.insert| <= |roomy|
    requires forall k | 0 <= k < |roomy| && k < e.start :: roomy[k] == text[k]
    requires forall k | e.start + |e.insert| <= k < |result| :: roomy[k] == text[e.end + k - (e.start + |e.insert|)]
    requires forall k | 0 <= k < |result| ::
               result[k] == if e.start <= k < e.start + |e.insert| then e.insert[k - e.start] else roomy[k]
    ensures forall k | 0 <= k < |result| :: result[k] == SplicedChar(text, e, k)
  {
  }

  function SplicedChar(text: string, e: FixWork, k: nat): char
    requires e.start <= e.end <= |text| && k < |text| - (e.end - e.start) + |e.insert|
  {
    if k < e.start then text[k]
    else if k < e.start + |e.insert| then e.insert[k - e.start]
    else text[k - |e.insert| + e.end - e.start]
  }

  lemma SplicedChars(text: string, e: FixWork, result: string)
    requires e.start <= e.end <= |text| && |result| == |text| - (e.end - e.start) + |e.insert|
    requires forall k | 0 <= k < |result| :: result[k] == SplicedChar(text, e, k)
    ensures result == SpliceOne(text, e)
  {
    var a, b, c := text[..e.start], e.insert, text[e.end..];
    var whole := a + b + c;
    forall k | 0 <= k < |result|
      ensures result[k] == whole[k]
    {
      assert whole[k] == if k < |a| then a[k] else if k < |a| + |b| then b[k - |a|] else c[k - |a| - |b|];
    }
    assert result == whole;
  }

  // The buffer holds every intermediate text.
  ghost predicate Fits(n: nat, es: seq<FixWork>, capacity: nat) {
    forall k: nat | k <= |es| :: FitsAfter(n, es, k, capacity)
  }

  predicate FitsAfter(n: nat, es: seq<FixWork>, k: nat, capacity: nat)
    requires k <= |es|
  {
    LengthAfter(n, es, k) <= capacity
  }

  lemma SplicedLength(text: string, es: seq<FixWork>, k: nat)
    requires k <= |es| && Descending(es) && Within(es, |text|)
    ensures |Spliced(text, es, k)| == LengthAfter(|text|, es, k)
    decreases k
  {
    if k > 0 {
      SplicedLength(text, es, k - 1);
      PrefixUntouched(text, es, k);
    }
  }

  lemma NextEditFits(text: string, es: seq<FixWork>, i: nat, capacity: nat)
    requires i < |es| && Descending(es) && Within(es, |text|)
    ensures var len, e := |Spliced(text, es, i)|, es[i];
            && e.start <= e.end <= len
            && (FitsAfter(|text|, es, i + 1, capacity) <==> len - (e.end - e.start) + |e.insert| <= capacity)
  {
    PrefixUntouched(text, es, i + 1);
    SplicedLength(text, es, i);
    SplicedLength(text, es, i + 1);
  }

  // The splice loop, up to the first text that would run past the buffer's end.
  method SpliceAll(text: string, es: seq<FixWork>, buf: array<char>) returns (fits: bool, len: nat)
    requires Descending(es) && Within(es, |text|)
    modifies buf
    ensures fits <==> Fits(|text|, es, buf.Length)
    ensures len <= buf.Length && Ascending(Reverse(es)) && Within(Reverse(es), |text|)
    ensures fits ==> buf[..len] == Substituted(text, 0, Reverse(es))
  {
    hide Substituted, Ascending, Reverse, Descending, Within, FitsAfter, Spliced, SpliceOne;
    SplicesSubstitute(text, es, |es|);
    assert es[..|es|] == es;
    NothingSpliced(text, es);
    FitsFirst(|text|, es, buf.Length);
    if buf.Length < |text| {
      return false, 0;
    }
    Memcpy(buf, 0, text);
    len := |text|;
    assert buf[..len] == text;
    var i := 0;
    while i < |es|
      invariant 0 <= i <= |es| && len <= buf.Length && buf[..len] == Spliced(text, es, i)
      invariant forall k: nat | k <= i :: FitsAfter(|text|, es, k, buf.Length)
    {
      NextEditFits(text, es, i, buf.Length);
      SplicedStep(text, es, i);
      if buf.Length < len - (es[i].end - es[i].start) + |es[i].insert| {
        return false, 0;
      }
      len := SpliceInPlace(buf, len, es[i]);
      i := i + 1;
    }
    fits := true;
  }

  lemma NothingSpliced(text: string, es: seq<FixWork>)
    ensures Spliced(text, es, 0) == text
  {
  }

  lemma SplicedStep(text: string, es: seq<FixWork>, i: nat)
    requires i < |es|
    ensures Spliced(text, es, i + 1) == SpliceOne(Spliced(text, es, i), es[i])
  {
  }

  lemma FitsFirst(n: nat, es: seq<FixWork>, capacity: nat)
    ensures FitsAfter(n, es, 0, capacity) <==> n <= capacity
  {
  }

  // How much a set of edits changes the length, in whatever order.
  function Growth(e: FixWork): int {
    |e.insert| - (e.end - e.start)
  }

  function TotalGrowth(es: seq<FixWork>): int {
    if es == [] then 0 else TotalGrowth(es[..|es| - 1]) + Growth(es[|es| - 1])
  }

  lemma {:induction false} LengthGrows(n: nat, es: seq<FixWork>, k: nat)
    requires k <= |es|
    ensures LengthAfter(n, es, k) == n + TotalGrowth(es[..k])
  {
    if k > 0 {
      LengthGrows(n, es, k - 1);
      assert es[..k][..k - 1] == es[..k - 1];
    }
  }

  lemma {:induction false} GrowthWithout(es: seq<FixWork>, i: nat)
    requires i < |es|
    ensures TotalGrowth(es) == TotalGrowth(es[..i] + es[i + 1..]) + Growth(es[i])
  {
    var front := es[..|es| - 1];
    if i < |es| - 1 {
      GrowthWithout(front, i);
      var rest := es[..i] + es[i + 1..];
      assert rest[..|rest| - 1] == front[..i] + front[i + 1..];
    } else {
      assert es[..i] + es[i + 1..] == front;
    }
  }

  lemma MultisetWithout(es: seq<FixWork>, i: nat)
    requires i < |es|
    ensures multiset(es[..i] + es[i + 1..]) == multiset(es) - multiset{es[i]}
  {
    assert es == es[..i] + [es[i]] + es[i + 1..];
  }

  lemma {:induction false} GrowthPermuted(es: seq<FixWork>, fs: seq<FixWork>)
    requires multiset(es) == multiset(fs)
    ensures TotalGrowth(es) == TotalGrowth(fs)
  {
    SameElements(es, fs);
    if es != [] {
      var front, last := es[..|es| - 1], es[|es| - 1];
      assert last in es;
      var i :| 0 <= i < |fs| && fs[i] == last;
      MultisetWithout(fs, i);
      MultisetWithout(es, |es| - 1);
      assert front + es[|es|..] == front;
      GrowthPermuted(front, fs[..i] + fs[i + 1..]);
      GrowthWithout(fs, i);
    }
  }

  // --- how large the buffer is ---------------------------------------------------------------

  // How much the edits from k on, those further left, change the length.
  function LeftGrowth(es: seq<FixWork>, k: nat): int
    requires k <= |es|
    decreases |es| - k
  {
    if k == |es| then 0 else |es[k].insert| - (es[k].end - es[k].start) + LeftGrowth(es, k + 1)
  }

  // The edits from k on do not shrink the text by two or more.
  predicate ShrinksLittle(es: seq<FixWork>, k: nat)
    requires k <= |es|
  {
    LeftGrowth(es, k) >= -1
  }

  lemma {:induction false} GrowthAdds(n: nat, es: seq<FixWork>, k: nat)
    requires k <= |es|
    ensures LengthAfter(n, es, k) + LeftGrowth(es, k) == LengthAfter(n, es, |es|)
    decreases |es| - k
  {
    if k < |es| {
      GrowthAdds(n, es, k + 1);
    }
  }

  // A buffer of the final length plus one holds every intermediate text exactly
  // when no leftmost group of edits shrinks the text by two or more.
  lemma FinalSizeFitsExactly(n: nat, es: seq<FixWork>)
    requires LengthAfter(n, es, |es|) >= 0
    ensures Fits(n, es, LengthAfter(n, es, |es|) + 1) <==> forall k: nat | k <= |es| :: ShrinksLittle(es, k)
  {
    var room: nat := LengthAfter(n, es, |es|) + 1;
    forall k: nat | k <= |es|
      ensures FitsAfter(n, es, k, room) <==> ShrinksLittle(es, k)
    {
      GrowthAdds(n, es, k);
    }
  }

  // Deleting two characters of three is already too much for it.
  lemma FinalSizeTooSmall()
    ensures var es := [FixWork(1, 0, 2, "", true, 0, false, true)];
            LengthAfter(3, es, |es|) == 1 && !Fits(3, es, LengthAfter(3, es, |es|) + 1)
  {
    var es := [FixWork(1, 0, 2, "", true, 0, false, true)];
    assert LengthAfter(3, es, 1) == LengthAfter(3, es, 0) - 2;
    assert !FitsAfter(3, es, 0, 2);
  }
}
