/** The repository's bottom-up merge sort, on an array of register numbers with
    an arbitrary three-way comparison turned into a strict order by its sign. */
module StableSort {

  // Elements that compare equal keep their order, so a sorted result is one
  // where no later element is strictly before an earlier one.
  ghost predicate Sorted(less: (nat, nat) -> bool, s: seq<nat>) {
    forall i, j | 0 <= i < j < |s| :: !less(s[j], s[i])
  }

  // The comparison is a strict weak order: asymmetric, and incomparability chains.
  ghost predicate StrictWeakOrder(less: (nat, nat) -> bool) {
    && (forall a, b | less(a, b) :: !less(b, a))
    && (forall a, b, c | !less(b, a) && !less(c, b) :: !less(c, a))
  }

  // The merge of two runs, the left one winning ties.
  function Merged(less: (nat, nat) -> bool, left: seq<nat>, right: seq<nat>): seq<nat> {
    if left == [] then right
    else if right == [] then left
    else if less(right[0], left[0]) then [right[0]] + Merged(less, left, right[1..])
    else [left[0]] + Merged(less, left[1..], right)
  }

  lemma {:induction false} MergedKeepsElements(less: (nat, nat) -> bool, left: seq<nat>, right: seq<nat>)
    ensures multiset(Merged(less, left, right)) == multiset(left) + multiset(right)
    decreases |left| + |right|
  {
    if left != [] && right != [] {
      if less(right[0], left[0]) {
        MergedKeepsElements(less, left, right[1..]);
        assert right == [right[0]] + right[1..];
      } else {
        MergedKeepsElements(less, left[1..], right);
        assert left == [left[0]] + left[1..];
      }
    }
  }

  lemma MergedFrom(less: (nat, nat) -> bool, left: seq<nat>, right: seq<nat>, x: nat)
    requires x in Merged(less, left, right)
    ensures x in left || x in right
  {
    MergedKeepsElements(less, left, right);
    assert x in multiset(Merged(less, left, right));
  }

  lemma {:induction false} MergedSorted(less: (nat, nat) -> bool, left: seq<nat>, right: seq<nat>)
    requires StrictWeakOrder(less) && Sorted(less, left) && Sorted(less, right)
    ensures Sorted(less, Merged(less, left, right))
    decreases |left| + |right|
  {
    if left != [] && right != [] {
      var takeRight := less(right[0], left[0]);
      var head := if takeRight then right[0] else left[0];
      var left', right' := if takeRight then left else left[1..], if takeRight then right[1..] else right;
      MergedSorted(less, left', right');
      var rest := Merged(less, left', right');
      forall x | x in rest
        ensures !less(x, head)
      {
        MergedFrom(less, left', right', x);
      }
    }
  }

  // Every maximal block of `width` elements, counted from the front, is sorted.
  ghost predicate Runs(less: (nat, nat) -> bool, s: seq<nat>, width: nat)
    requires width > 0
    decreases |s|
  {
    if |s| <= width then Sorted(less, s)
    else Sorted(less, s[..width]) && Runs(less, s[width..], width)
  }

  // One pass: adjacent runs merged pairwise.
  function Pass(less: (nat, nat) -> bool, s: seq<nat>, width: nat): (t: seq<nat>)
    requires width > 0
    decreases |s|
  {
    if |s| <= width then s
    else if |s| <= 2 * width then Merged(less, s[..width], s[width..])
    else Merged(less, s[..width], s[width..2 * width]) + Pass(less, s[2 * width..], width)
  }

  lemma {:induction false} PassKeepsElements(less: (nat, nat) -> bool, s: seq<nat>, width: nat)
    requires width > 0
    ensures multiset(Pass(less, s, width)) == multiset(s)
    decreases |s|
  {
    hide Merged;
    if width < |s| <= 2 * width {
      MergedKeepsElements(less, s[..width], s[width..]);
      assert s == s[..width] + s[width..];
    } else if 2 * width < |s| {
      var a, b, c := s[..width], s[width..2 * width], s[2 * width..];
      MergedKeepsElements(less, a, b);
      PassKeepsElements(less, c, width);
      assert s == a + b + c;
      assert multiset(s) == multiset(a + b) + multiset(c);
    }
  }

  lemma {:induction false} PassSorts(less: (nat, nat) -> bool, s: seq<nat>, width: nat)
    requires StrictWeakOrder(less) && width > 0 && Runs(less, s, width)
    ensures Runs(less, Pass(less, s, width), 2 * width)
    decreases |s|
  {
    if width < |s| <= 2 * width {
      assert Runs(less, s[width..], width);
      MergedSorted(less, s[..width], s[width..]);
      MergedKeepsElements(less, s[..width], s[width..]);
      MultisetLength(Pass(less, s, width), s, less, width);
    } else if 2 * width < |s| {
      var mid, rest := s[width..], s[2 * width..];
      assert mid[..width] == s[width..2 * width] && mid[width..] == rest;
      MergedSorted(less, s[..width], s[width..2 * width]);
      PassSorts(less, rest, width);
      var front := Merged(less, s[..width], s[width..2 * width]);
      MergedLength(less, s[..width], s[width..2 * width]);
      var all := Pass(less, s, width);
      assert all[..2 * width] == front && all[2 * width..] == Pass(less, rest, width);
    }
  }

  // The elements that compare equal to x, in the order they stand in s.
  ghost function Ties(less: (nat, nat) -> bool, s: seq<nat>, x: nat): seq<nat> {
    if s == [] then []
    else (if !less(s[0], x) && !less(x, s[0]) then [s[0]] else []) + Ties(less, s[1..], x)
  }

  lemma Reassociate(a: seq<nat>, b: seq<nat>, c: seq<nat>)
    ensures a + (b + c) == (a + b) + c
  {
  }

  lemma {:induction false} TiesJoin(less: (nat, nat) -> bool, s: seq<nat>, t: seq<nat>, x: nat)
    ensures Ties(less, s + t, x) == Ties(less, s, x) + Ties(less, t, x)
  {
    if s == [] {
      assert s + t == t;
    } else {
      var head := if !less(s[0], x) && !less(x, s[0]) then [s[0]] else [];
      TiesJoin(less, s[1..], t, x);
      assert (s + t)[1..] == s[1..] + t && (s + t)[0] == s[0];
      Reassociate(head, Ties(less, s[1..], x), Ties(less, t, x));
    }
  }

  lemma {:induction false} NoTies(less: (nat, nat) -> bool, s: seq<nat>, x: nat)
    requires forall y | y in s :: less(y, x) || less(x, y)
    ensures Ties(less, s, x) == []
  {
    if s != [] {
      NoTies(less, s[1..], x);
    }
  }

  // Merging never carries an element of the right run past an equal one of the left.
  lemma {:induction false} MergedStable(less: (nat, nat) -> bool, left: seq<nat>, right: seq<nat>, x: nat)
    requires StrictWeakOrder(less) && Sorted(less, left) && Sorted(less, right)
    ensures Ties(less, Merged(less, left, right), x) == Ties(less, left, x) + Ties(less, right, x)
    decreases |left| + |right|
  {
    if left != [] && right != [] {
      if less(right[0], left[0]) {
        var first := right[0];
        MergedStable(less, left, right[1..], x);
        if !less(first, x) && !less(x, first) {
          forall y | y in left
            ensures less(y, x) || less(x, y)
          {
            assert !less(y, left[0]);
          }
          NoTies(less, left, x);
        }
      } else {
        MergedStable(less, left[1..], right, x);
      }
    }
  }

  lemma {:induction false} PassStable(less: (nat, nat) -> bool, s: seq<nat>, width: nat, x: nat)
    requires StrictWeakOrder(less) && width > 0 && Runs(less, s, width)
    ensures Ties(less, Pass(less, s, width), x) == Ties(less, s, x)
    decreases |s|
  {
    hide Merged, Ties, StrictWeakOrder, Sorted;
    if width < |s| <= 2 * width {
      assert Runs(less, s[width..], width);
      MergedStable(less, s[..width], s[width..], x);
      TiesJoin(less, s[..width], s[width..], x);
      assert s == s[..width] + s[width..];
    } else if 2 * width < |s| {
      TwoRuns(less, s, width);
      TwoMerged(less, s, width);
      ThreeParts(s, width, 2 * width);
      hide Runs, Pass;
      var a, b, c := s[..width], s[width..2 * width], s[2 * width..];
      MergedStable(less, a, b, x);
      PassStable(less, c, width, x);
      JoinedStable(less, a, b, c, Merged(less, a, b), Pass(less, c, width), x);
    }
  }

  lemma TwoRuns(less: (nat, nat) -> bool, s: seq<nat>, width: nat)
    requires width > 0 && 2 * width < |s| && Runs(less, s, width)
    ensures Sorted(less, s[..width]) && Sorted(less, s[width..2 * width]) && Runs(less, s[2 * width..], width)
  {
    hide Sorted;
    var rest := s[width..];
    assert Runs(less, rest, width);
    assert rest[..width] == s[width..2 * width] && rest[width..] == s[2 * width..];
  }

  lemma TwoMerged(less: (nat, nat) -> bool, s: seq<nat>, width: nat)
    requires width > 0 && 2 * width < |s|
    ensures Pass(less, s, width) == Merged(less, s[..width], s[width..2 * width]) + Pass(less, s[2 * width..], width)
  {
    hide Merged;
  }

  lemma ThreeParts(s: seq<nat>, i: nat, j: nat)
    requires i <= j <= |s|
    ensures s == s[..i] + s[i..j] + s[j..]
  {
  }

  lemma JoinedStable(less: (nat, nat) -> bool, a: seq<nat>, b: seq<nat>, c: seq<nat>, m: seq<nat>, p: seq<nat>, x: nat)
    requires Ties(less, m, x) == Ties(less, a, x) + Ties(less, b, x) && Ties(less, p, x) == Ties(less, c, x)
    ensures Ties(less, m + p, x) == Ties(less, a + b + c, x)
  {
    hide Ties;
    TiesJoin(less, m, p, x);
    TiesJoin(less, a, b, x);
    TiesJoin(less, a + b, c, x);
  }

  lemma MultisetLength(t: seq<nat>, s: seq<nat>, less: (nat, nat) -> bool, width: nat)
    requires width > 0 && t == Pass(less, s, width)
    ensures |t| == |s|
  {
    PassKeepsElements(less, s, width);
    assert |multiset(t)| == |t| && |multiset(s)| == |s|;
  }

  lemma MergedLength(less: (nat, nat) -> bool, left: seq<nat>, right: seq<nat>)
    ensures |Merged(less, left, right)| == |left| + |right|
  {
    MergedKeepsElements(less, left, right);
    var m := Merged(less, left, right);
    assert |multiset(m)| == |m| && |multiset(left)| == |left| && |multiset(right)| == |right|;
  }

  method CopyInto(dst: array<nat>, at: nat, src: array<nat>, from: nat, count: nat)
    requires dst != src && at + count <= dst.Length && from + count <= src.Length
    modifies dst
    ensures dst[..at + count] == old(dst[..at]) + src[from..from + count]
    ensures dst[at + count..] == old(dst[at + count..])
  {
    var k := 0;
    while k < count
      invariant 0 <= k <= count
      invariant forall x | 0 <= x < dst.Length :: dst[x] == if at <= x < at + k then src[from + x - at] else old(dst[x])
    {
      dst[at + k] := src[from + k];
      k := k + 1;
    }
  }

  // Taking the smaller head, left on ties.
  lemma MergedHead(less: (nat, nat) -> bool, s: seq<nat>, i: nat, mid: nat, j: nat, hi: nat, done: seq<nat>)
    requires i < mid <= j < hi <= |s|
    ensures done + Merged(less, s[i..mid], s[j..hi])
            == if less(s[j], s[i]) then (done + [s[j]]) + Merged(less, s[i..mid], s[j + 1..hi])
               else (done + [s[i]]) + Merged(less, s[i + 1..mid], s[j..hi])
  {
    assert s[i..mid][1..] == s[i + 1..mid] && s[j..hi][1..] == s[j + 1..hi];
  }

  method PlaceNext(dst: array<nat>, k: nat, x: nat, ghost front: seq<nat>, ghost done: seq<nat>)
    requires k < dst.Length && dst[..k] == front + done
    modifies dst
    ensures dst[..k + 1] == front + (done + [x])
  {
    dst[k] := x;
    assert dst[..k + 1] == dst[..k] + [x];
    Reassociate(front, done, [x]);
  }

  // The comparing half of a merge: runs until one side is used up.
  method MergeHeads(less: (nat, nat) -> bool, dst: array<nat>, src: array<nat>, lo: nat, mid: nat, hi: nat, ghost s: seq<nat>)
    returns (i: nat, j: nat, k: nat, ghost done: seq<nat>)
    requires dst != src && dst.Length == src.Length && lo <= mid <= hi <= src.Length && s == src[..]
    modifies dst
    ensures lo <= i <= mid <= j <= hi && k == i + j - mid && (i == mid || j == hi)
    ensures dst[..k] == old(dst[..lo]) + done
    ensures Merged(less, s[lo..mid], s[mid..hi]) == done + Merged(less, s[i..mid], s[j..hi])
  {
    hide Merged;
    done := [];
    i, j, k := lo, mid, lo;
    ghost var front := dst[..lo];
    while i < mid && j < hi
      invariant lo <= i <= mid <= j <= hi && k == i + j - mid && src[..] == s
      invariant dst[..k] == front + done
      invariant Merged(less, s[lo..mid], s[mid..hi]) == done + Merged(less, s[i..mid], s[j..hi])
    {
      MergedHead(less, s, i, mid, j, hi, done);
      if less(src[j], src[i]) {
        PlaceNext(dst, k, src[j], front, done);
        done := done + [src[j]];
        j := j + 1;
      } else {
        PlaceNext(dst, k, src[i], front, done);
        done := done + [src[i]];
        i := i + 1;
      }
      k := k + 1;
    }
  }

  // dst[lo..hi] becomes the merge of src[lo..mid] and src[mid..hi].
  method Merge(less: (nat, nat) -> bool, dst: array<nat>, src: array<nat>, lo: nat, mid: nat, hi: nat)
    requires dst != src && dst.Length == src.Length && lo <= mid <= hi <= src.Length
    modifies dst
    ensures dst[..hi] == old(dst[..lo]) + Merged(less, old(src[lo..mid]), old(src[mid..hi]))
  {
    hide Merged;
    ghost var s, front := src[..], dst[..lo];
    assert src[lo..mid] == s[lo..mid] && src[mid..hi] == s[mid..hi];
    var i, j, k; ghost var done;
    i, j, k, done := MergeHeads(less, dst, src, lo, mid, hi, s);
    MergedEmpty(less, s[i..mid], s[j..hi]);
    ghost var tail := if i < mid then s[i..mid] else s[j..hi];
    Reassociate(front, done, tail);
    if i < mid {
      assert tail == src[i..i + (mid - i)];
      CopyInto(dst, k, src, i, mid - i);
    } else if j < hi {
      assert tail == src[j..j + (hi - j)];
      CopyInto(dst, k, src, j, hi - j);
    } else {
      assert tail == [];
    }
  }

  lemma MergedEmpty(less: (nat, nat) -> bool, left: seq<nat>, right: seq<nat>)
    ensures left == [] ==> Merged(less, left, right) == right
    ensures right == [] ==> Merged(less, left, right) == left
  {
  }

  // tmp[..n] becomes one pass over a[..n].
  method OnePass(less: (nat, nat) -> bool, a: array<nat>, tmp: array<nat>, n: nat, width: nat)
    requires a != tmp && a.Length == tmp.Length && n <= a.Length && width > 0
    modifies tmp
    ensures tmp[..n] == Pass(less, a[..n], width)
  {
    hide Pass, Merged;
    ghost var s := a[..n];
    ghost var whole := Pass(less, s, width);
    var lo := 0;
    ghost var at: nat := 0;
    assert s[0..] == s;
    while lo < n
      invariant 0 <= at <= n && at == (if lo < n then lo else n) && a[..n] == s
      invariant whole == tmp[..at] + Pass(less, s[at..], width)
    {
      var mid := if lo + width < n then lo + width else n;
      var hi := if lo + 2 * width < n then lo + 2 * width else n;
      PassFrom(less, s, width, lo, mid, hi);
      assert s[lo..mid] == a[lo..mid] && s[mid..hi] == a[mid..hi];
      Reassociate(tmp[..lo], Merged(less, s[lo..mid], s[mid..hi]), Pass(less, s[hi..], width));
      Merge(less, tmp, a, lo, mid, hi);
      lo := lo + 2 * width;
      at := hi;
    }
    PassEmpty(less, s[n..], width);
  }

  lemma PassEmpty(less: (nat, nat) -> bool, s: seq<nat>, width: nat)
    requires width > 0 && s == []
    ensures Pass(less, s, width) == []
  {
  }

  // One pass into tmp, copied back.
  method PassAndBack(less: (nat, nat) -> bool, a: array<nat>, tmp: array<nat>, n: nat, width: nat)
    requires a != tmp && a.Length == tmp.Length && n <= a.Length && width > 0
    modifies a, tmp
    ensures a[..n] == Pass(less, old(a[..n]), width) && a[n..] == old(a[n..])
  {
    hide Pass;
    OnePass(less, a, tmp, n, width);
    assert tmp[0..0 + n] == tmp[..n];
    CopyInto(a, 0, tmp, 0, n);
  }

  method CgfSortStable(less: (nat, nat) -> bool, a: array<nat>, n: nat)
    requires StrictWeakOrder(less) && n <= a.Length
    modifies a
    ensures multiset(a[..n]) == old(multiset(a[..n])) && Sorted(less, a[..n])
    ensures forall x :: Ties(less, a[..n], x) == old(Ties(less, a[..n], x))
    ensures a[n..] == old(a[n..])
  {
    hide Pass, Ties, Runs, Sorted, StrictWeakOrder, Shuffled;
    ghost var all := a[..n];
    Unshuffled(less, all);
    if n < 2 {
      OneRun(less, all, all, 1);
      return;
    }
    var tmp := new nat[a.Length];
    var width := 1;
    while width < n
      invariant width > 0 && Runs(less, a[..n], width) && Shuffled(less, a[..n], all)
      invariant a[n..] == old(a[n..])
      decreases n - width
    {
      OnePassShuffles(less, a[..n], all, width);
      PassAndBack(less, a, tmp, n, width);
      width := width * 2;
    }
    OneRun(less, a[..n], all, width);
  }

  // The same elements, those that compare equal in the same order.
  ghost predicate Shuffled(less: (nat, nat) -> bool, t: seq<nat>, s: seq<nat>) {
    multiset(t) == multiset(s) && forall x :: Ties(less, t, x) == Ties(less, s, x)
  }

  lemma Unshuffled(less: (nat, nat) -> bool, s: seq<nat>)
    ensures Shuffled(less, s, s) && Runs(less, s, 1)
  {
    RunsOfOne(less, s);
  }

  lemma OnePassShuffles(less: (nat, nat) -> bool, s: seq<nat>, all: seq<nat>, width: nat)
    requires StrictWeakOrder(less) && width > 0 && Runs(less, s, width) && Shuffled(less, s, all)
    ensures Runs(less, Pass(less, s, width), 2 * width) && Shuffled(less, Pass(less, s, width), all)
  {
    hide Runs, Pass, Ties, StrictWeakOrder;
    PassSorts(less, s, width);
    PassKeepsElements(less, s, width);
    forall x
      ensures Ties(less, Pass(less, s, width), x) == Ties(less, s, x)
    {
      PassStable(less, s, width, x);
    }
  }

  lemma OneRun(less: (nat, nat) -> bool, t: seq<nat>, all: seq<nat>, width: nat)
    requires |t| <= width && 0 < width && Runs(less, t, width) && Shuffled(less, t, all)
    ensures Sorted(less, t) && multiset(t) == multiset(all) && forall x :: Ties(less, t, x) == Ties(less, all, x)
  {
    hide Sorted, Ties;
  }

  lemma {:induction false} RunsOfOne(less: (nat, nat) -> bool, s: seq<nat>)
    ensures Runs(less, s, 1)
    decreases |s|
  {
    if |s| > 1 {
      RunsOfOne(less, s[1..]);
    }
  }

  lemma PassFrom(less: (nat, nat) -> bool, s: seq<nat>, width: nat, lo: nat, mid: nat, hi: nat)
    requires width > 0 && lo < |s|
    requires mid == (if lo + width < |s| then lo + width else |s|) && hi == (if lo + 2 * width < |s| then lo + 2 * width else |s|)
    ensures Pass(less, s[lo..], width) == Merged(less, s[lo..mid], s[mid..hi]) + Pass(less, s[hi..], width)
  {
    hide Pass, Merged;
    var rest := s[lo..];
    PassStep(less, rest, width, mid - lo, hi - lo);
    assert rest[..mid - lo] == s[lo..mid] && rest[mid - lo..hi - lo] == s[mid..hi] && rest[hi - lo..] == s[hi..];
  }

  lemma PassStep(less: (nat, nat) -> bool, s: seq<nat>, width: nat, mid: nat, hi: nat)
    requires width > 0 && s != []
    requires mid == (if width < |s| then width else |s|) && hi == (if 2 * width < |s| then 2 * width else |s|)
    ensures Pass(less, s, width) == Merged(less, s[..mid], s[mid..hi]) + Pass(less, s[hi..], width)
  {
    assert s[..|s|] == s && s[|s|..] == [];
  }
}
