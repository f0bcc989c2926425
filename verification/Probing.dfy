/** Open addressing with linear probing over a table of entries: a slot holds 0,
    or one plus the index of the first entry with some key. */
module Probing {
  import opened Shared
  import DepthFirst

  // The first index holding key, or the length when there is none: what a
  // linear search from the front answers.
  function Find<K(==)>(entries: seq<K>, key: K): (i: nat)
    ensures i <= |entries| && (i < |entries| ==> entries[i] == key)
    ensures forall k | 0 <= k < i :: entries[k] != key
  {
    if entries == [] || entries[0] == key then 0 else 1 + Find(entries[1..], key)
  }

  // An index already found keeps its meaning when entries are added.
  lemma FindStable<K>(entries: seq<K>, more: seq<K>, key: K)
    ensures Find(entries, key) < |entries| ==> Find(entries + more, key) == Find(entries, key)
    ensures Find(entries, key) == |entries| ==> Find(entries + more, key) == |entries| + Find(more, key)
  {
    var i, j, n := Find(entries, key), Find(entries + more, key), |entries|;
    if i < n {
      assert (entries + more)[i] == key;
    } else {
      assert forall k | 0 <= k < n :: (entries + more)[k] != key;
      assert j < n + |more| ==> more[j - n] == key;
      assert Find(more, key) < |more| ==> (entries + more)[n + Find(more, key)] == key;
      assert forall k | n <= k < j :: (entries + more)[k] == more[k - n];
    }
  }

  // The d-th slot looked at.
  function Slot(home: nat, d: nat, cap: nat): (s: nat)
    requires cap > 0
    ensures s < cap
  {
    (home + d) % cap
  }

  lemma SlotStep(home: nat, d: nat, cap: nat)
    requires cap > 0
    ensures Slot(home, 0, cap) == home % cap && Slot(home, d + 1, cap) == (Slot(home, d, cap) + 1) % cap
  {
    var x := home + d;
    assert x == cap * (x / cap) + x % cap;
    ModShift(x % cap + 1, x / cap, cap);
    assert x + 1 == (x % cap + 1) + cap * (x / cap);
  }

  lemma {:induction false} ModShift(r: nat, q: nat, cap: nat)
    requires cap > 0
    ensures (r + cap * q) % cap == r % cap
  {
    if q > 0 {
      ModShift(r, q - 1, cap);
      ModOnce(r + cap * (q - 1), cap);
      assert r + cap * q == r + cap * (q - 1) + cap;
    }
  }

  lemma ModOnce(x: nat, cap: nat)
    requires cap > 0
    ensures (x + cap) % cap == x % cap
  {
    var q, r := x / cap, x % cap;
    assert x + cap == cap * (q + 1) + r;
    ModUnique(x + cap, q + 1, r, cap);
  }

  lemma ModUnique(x: nat, q: nat, r: nat, cap: nat)
    requires cap > 0 && x == cap * q + r && r < cap
    ensures x % cap == r
  {
    var q', r' := x / cap, x % cap;
    assert x == cap * q' + r';
    if q < q' {
      MulGrows(cap, q, q');
    } else if q' < q {
      MulGrows(cap, q', q);
    }
  }

  lemma {:induction false} MulGrows(cap: nat, a: nat, b: nat)
    requires a < b
    ensures cap * a + cap <= cap * b
    decreases b - a
  {
    if a + 1 < b {
      MulGrows(cap, a + 1, b);
      assert cap * (a + 1) == cap * a + cap;
    }
  }

  // Probing gets to every slot.
  lemma EverySlotReached(home: nat, s: nat, cap: nat) returns (d: nat)
    requires s < cap
    ensures d < cap && Slot(home, d, cap) == s
  {
    var h := home % cap;
    d := if h <= s then s - h else s + cap - h;
    var x := h + d;
    assert home == cap * (home / cap) + h;
    ModShift(x, home / cap, cap);
    assert home + d == x + cap * (home / cap);
    if h <= s {
      ModUnique(x, 0, s, cap);
    } else {
      ModUnique(x, 1, s, cap);
    }
  }

  ghost predicate ReachedAt(slots: seq<nat>, home: nat, id: nat, d: nat) {
    d < |slots| && slots[Slot(home, d, |slots|)] == id && forall e: nat | e < d :: slots[Slot(home, e, |slots|)] != 0
  }

  // Probing from home comes to id before any empty slot.
  ghost predicate Reached(slots: seq<nat>, home: nat, id: nat) {
    exists d: nat :: ReachedAt(slots, home, id, d)
  }

  ghost predicate NoSharedIds(slots: seq<nat>) {
    forall s, t | 0 <= s < t < |slots| && slots[s] != 0 :: slots[s] != slots[t]
  }

  // A filled slot names the first entry with its key.
  ghost predicate FirstsOnly<K>(entries: seq<K>, n: nat, slots: seq<nat>)
    requires n <= |entries|
  {
    forall s | 0 <= s < |slots| && slots[s] != 0 :: slots[s] <= n && Find(entries, entries[slots[s] - 1]) == slots[s] - 1
  }

  ghost predicate AllReached<K>(hash: K -> nat, entries: seq<K>, n: nat, slots: seq<nat>)
    requires n <= |entries|
  {
    forall i: nat | i < n && Find(entries, entries[i]) == i :: Reached(slots, hash(entries[i]), i + 1)
  }

  // The slots index the first n entries.
  ghost predicate Indexed<K>(hash: K -> nat, entries: seq<K>, n: nat, slots: seq<nat>) {
    n <= |entries| && FirstsOnly(entries, n, slots) && NoSharedIds(slots) && AllReached(hash, entries, n, slots)
  }

  // Fewer entries than slots leave one empty.
  lemma EmptySlotExists<K>(hash: K -> nat, entries: seq<K>, n: nat, slots: seq<nat>) returns (s: nat)
    requires Indexed(hash, entries, n, slots) && n < |slots|
    ensures s < |slots| && slots[s] == 0
  {
    if forall k | 0 <= k < |slots| :: slots[k] != 0 {
      var ids := seq(|slots|, k requires 0 <= k < |slots| => slots[k] - 1);
      DepthFirst.NoRepeatsFit(ids, n);
    }
    s :| s < |slots| && slots[s] == 0;
  }

  // What a probe from home stops at after d steps.
  ghost predicate Passed<K>(entries: seq<K>, n: nat, slots: seq<nat>, home: nat, key: K, d: nat)
    requires n <= |entries| && FirstsOnly(entries, n, slots) && |slots| > 0
  {
    forall e: nat | e < d :: PassedOver(entries, slots, Slot(home, e, |slots|), key)
  }

  ghost predicate PassedOver<K>(entries: seq<K>, slots: seq<nat>, s: nat, key: K) {
    s < |slots| && 0 < slots[s] <= |entries| && entries[slots[s] - 1] != key
  }

  // Coming to an empty slot means the key is in none of the indexed entries.
  lemma EmptyMeansAbsent<K>(hash: K -> nat, entries: seq<K>, n: nat, slots: seq<nat>, key: K, d: nat)
    requires Indexed(hash, entries, n, slots) && |slots| > 0
    requires Passed(entries, n, slots, hash(key), key, d) && slots[Slot(hash(key), d, |slots|)] == 0
    ensures key !in entries[..n]
  {
    forall i: nat | i < n
      ensures entries[i] != key
    {
      FirstIsNotKey(hash, entries, n, slots, key, d, Find(entries, entries[i]));
    }
  }

  lemma FirstIsNotKey<K>(hash: K -> nat, entries: seq<K>, n: nat, slots: seq<nat>, key: K, d: nat, f: nat)
    requires Indexed(hash, entries, n, slots) && |slots| > 0 && f < n && Find(entries, entries[f]) == f
    requires Passed(entries, n, slots, hash(key), key, d) && slots[Slot(hash(key), d, |slots|)] == 0
    ensures entries[f] != key
  {
    if hash(entries[f]) == hash(key) {
      assert Reached(slots, hash(entries[f]), f + 1);
      ReachedMeansSeen(entries, n, slots, hash(key), key, d, f);
    }
  }

  lemma ReachedMeansSeen<K>(entries: seq<K>, n: nat, slots: seq<nat>, home: nat, key: K, d: nat, f: nat)
    requires n <= |entries| && FirstsOnly(entries, n, slots) && f < n && Reached(slots, home, f + 1)
    requires Passed(entries, n, slots, home, key, d) && slots[Slot(home, d, |slots|)] == 0
    ensures entries[f] != key
  {
    hide Slot, FirstsOnly;
    var e: nat :| ReachedAt(slots, home, f + 1, e);
    assert e < d;
    assert PassedOver(entries, slots, Slot(home, e, |slots|), key);
  }

  // The slot where key is found, or the empty one where it belongs.
  method Probe<K(==)>(hash: K -> nat, entries: seq<K>, ghost n: nat, slots: array<nat>, key: K) returns (at: nat, ghost d: nat)
    requires Indexed(hash, entries, n, slots[..]) && n < slots.Length
    ensures at < slots.Length && at == Slot(hash(key), d, slots.Length) && d < slots.Length
    ensures slots[at] != 0 ==> slots[at] <= n && Find(entries, key) == slots[at] - 1
    ensures slots[at] == 0 ==> key !in entries[..n] && Passed(entries, n, slots[..], hash(key), key, d)
  {
    hide AllReached, Reached;
    ghost var t: seq<nat> := slots[..];
    ghost var home := hash(key);
    ghost var empty := EmptySlotExists(hash, entries, n, t);
    ghost var stop := EverySlotReached(home, empty, slots.Length);
    SlotStep(home, 0, slots.Length);
    at, d := hash(key) % slots.Length, 0;
    while slots[at] != 0
      invariant at < slots.Length && at == Slot(home, d, slots.Length) && d <= stop
      invariant Passed(entries, n, t, home, key, d)
      decreases stop - d
    {
      assert t[at] == slots[at];
      if entries[slots[at] - 1] == key {
        return at, d;
      }
      SlotStep(home, d, slots.Length);
      assert PassedOver(entries, t, at, key);
      at, d := (at + 1) % slots.Length, d + 1;
    }
    EmptyMeansAbsent(hash, entries, n, t, key, d);
  }

  // Filling the empty slot a probe came to indexes one more entry.
  lemma FillKeeps<K>(hash: K -> nat, entries: seq<K>, n: nat, slots: seq<nat>, d: nat)
    requires n < |entries| && Indexed(hash, entries, n, slots) && |slots| > 0
    requires entries[n] !in entries[..n] && d < |slots|
    requires Passed(entries, n, slots, hash(entries[n]), entries[n], d)
    requires slots[Slot(hash(entries[n]), d, |slots|)] == 0
    ensures Indexed(hash, entries, n + 1, slots[Slot(hash(entries[n]), d, |slots|) := n + 1])
  {
    hide Reached;
    var home := hash(entries[n]);
    var at := Slot(home, d, |slots|);
    var filled := slots[at := n + 1];
    assert forall k | 0 <= k < n :: entries[k] == entries[..n][k];
    assert Find(entries, entries[n]) == n;
    forall i: nat | i < n + 1 && Find(entries, entries[i]) == i
      ensures Reached(filled, hash(entries[i]), i + 1)
    {
      if i < n {
        ReachedStill(slots, hash(entries[i]), i + 1, at, n + 1);
      } else {
        ReachedNow(entries, n, slots, home, d);
      }
    }
  }

  lemma ReachedNow<K>(entries: seq<K>, n: nat, slots: seq<nat>, home: nat, d: nat)
    requires n < |entries| && FirstsOnly(entries, n, slots) && d < |slots|
    requires Passed(entries, n, slots, home, entries[n], d) && slots[Slot(home, d, |slots|)] == 0
    ensures Reached(slots[Slot(home, d, |slots|) := n + 1], home, n + 1)
  {
    var filled := slots[Slot(home, d, |slots|) := n + 1];
    forall e: nat | e < d
      ensures filled[Slot(home, e, |slots|)] != 0
    {
      assert PassedOver(entries, slots, Slot(home, e, |slots|), entries[n]);
    }
    assert ReachedAt(filled, home, n + 1, d);
  }

  lemma ReachedStill(slots: seq<nat>, home: nat, id: nat, at: nat, new_: nat)
    requires Reached(slots, home, id) && id != 0 && at < |slots| && slots[at] == 0 && new_ != 0
    ensures Reached(slots[at := new_], home, id)
  {
    var d: nat :| ReachedAt(slots, home, id, d);
    assert ReachedAt(slots[at := new_], home, id, d);
  }

  // An entry whose key is already indexed needs no slot.
  lemma SkipKeeps<K>(hash: K -> nat, entries: seq<K>, n: nat, slots: seq<nat>)
    requires n < |entries| && Indexed(hash, entries, n, slots) && Find(entries, entries[n]) < n
    ensures Indexed(hash, entries, n + 1, slots)
  {
    hide Reached, Find;
    forall i: nat | i < n + 1 && Find(entries, entries[i]) == i
      ensures Reached(slots, hash(entries[i]), i + 1)
    {
      assert i != n;
    }
  }

  // Entries beyond the indexed ones do not matter.
  lemma AppendKeeps<K>(hash: K -> nat, entries: seq<K>, key: K, slots: seq<nat>)
    requires Indexed(hash, entries, |entries|, slots)
    ensures Indexed(hash, entries + [key], |entries|, slots)
  {
    hide Reached;
    forall k | k in entries
      ensures Find(entries + [key], k) == Find(entries, k)
    {
      FindStable(entries, [key], k);
    }
  }

  // A new key is appended and its slot filled.
  lemma AppendedKeeps<K>(hash: K -> nat, entries: seq<K>, slots: seq<nat>, key: K, d: nat)
    requires Indexed(hash, entries, |entries|, slots) && key !in entries && d < |slots|
    requires Passed(entries, |entries|, slots, hash(key), key, d) && slots[Slot(hash(key), d, |slots|)] == 0
    ensures Indexed(hash, entries + [key], |entries| + 1, slots[Slot(hash(key), d, |slots|) := |entries| + 1])
  {
    hide AllReached, NoSharedIds;
    AppendKeeps(hash, entries, key, slots);
    forall e: nat | e < d
      ensures PassedOver(entries + [key], slots, Slot(hash(key), e, |slots|), key)
    {
      assert PassedOver(entries, slots, Slot(hash(key), e, |slots|), key);
    }
    assert (entries + [key])[..|entries|] == entries;
    FillKeeps(hash, entries + [key], |entries|, slots, d);
  }

  lemma NothingIndexed<K>(hash: K -> nat, entries: seq<K>, slots: seq<nat>)
    requires forall s | 0 <= s < |slots| :: slots[s] == 0
    ensures Indexed(hash, entries, 0, slots)
  {
  }

  // Index entry n; a key seen before keeps its first index.
  method InsertNext<K(==)>(hash: K -> nat, entries: seq<K>, n: nat, slots: array<nat>)
    requires n < |entries| && n < slots.Length && Indexed(hash, entries, n, slots[..])
    modifies slots
    ensures Indexed(hash, entries, n + 1, slots[..])
  {
    hide AllReached, NoSharedIds, FirstsOnly, Passed;
    ghost var t: seq<nat> := slots[..];
    var at, d := Probe(hash, entries, n, slots, entries[n]);
    if slots[at] == 0 {
      FillKeeps(hash, entries, n, t, d);
      slots[at] := n + 1;
      ghost var id: nat := n + 1;
      assert slots[..] == t[at := id];
    } else {
      SkipKeeps(hash, entries, n, t);
    }
  }

  // Index entry n, whose key is new, without looking at what the slot holds.
  method PlaceNext<K(==)>(hash: K -> nat, entries: seq<K>, n: nat, slots: array<nat>)
    requires n < |entries| && n < slots.Length && Indexed(hash, entries, n, slots[..])
    requires entries[n] !in entries[..n]
    modifies slots
    ensures Indexed(hash, entries, n + 1, slots[..])
  {
    hide AllReached, NoSharedIds, Passed;
    ghost var t: seq<nat> := slots[..];
    var at, d := Probe(hash, entries, n, slots, entries[n]);
    FillKeeps(hash, entries, n, t, d);
    slots[at] := n + 1;
    ghost var id: nat := n + 1;
    assert slots[..] == t[at := id];
  }

  // A new table: at least twice as many slots as entries to come, a power of two.
  method Rebuild<K(==)>(hash: K -> nat, entries: seq<K>, minimum: nat) returns (slots: array<nat>)
    requires |entries| < minimum
    ensures fresh(slots) && slots.Length >= 2 * minimum && slots.Length >= 32 && PowerOfTwo(slots.Length)
    ensures Indexed(hash, entries, |entries|, slots[..])
  {
    hide AllReached, NoSharedIds, FirstsOnly;
    var cap := 32;
    while cap < minimum * 2
      invariant cap >= 32 && PowerOfTwo(cap)
      decreases minimum * 2 - cap
    {
      assert 2 * cap / 2 == cap;
      cap := cap * 2;
    }
    slots := new nat[cap](_ => 0);
    NothingIndexed(hash, entries, slots[..]);
    var i := 0;
    while i < |entries|
      invariant 0 <= i <= |entries| && fresh(slots) && slots.Length == cap
      invariant Indexed(hash, entries, i, slots[..])
    {
      InsertNext(hash, entries, i, slots);
      i := i + 1;
    }
  }

  // --- runs of insertions ----------------------------------------------------------

  // The table after one insertion.
  function Inserted<K(==)>(entries: seq<K>, key: K): seq<K> {
    if Find(entries, key) < |entries| then entries else entries + [key]
  }

  // The table after inserting each key in turn.
  function InsertedAll<K(==)>(entries: seq<K>, keys: seq<K>): seq<K>
    decreases |keys|
  {
    if keys == [] then entries else InsertedAll(Inserted(entries, keys[0]), keys[1..])
  }

  // Over any run, an index given out stays that key's index, every key
  // inserted has one, and no key has two.
  lemma {:induction false} IndicesStable<K>(entries: seq<K>, keys: seq<K>)
    requires Distinct(entries)
    ensures var after := InsertedAll(entries, keys);
            && Distinct(after) && entries <= after
            && (forall k | k in entries :: Find(after, k) == Find(entries, k))
            && (forall k | k in keys :: Find(after, k) < |after|)
            && (forall k | k in after :: k in entries || k in keys)
    decreases |keys|
  {
    if keys != [] {
      var next := Inserted(entries, keys[0]);
      IndicesStable(next, keys[1..]);
      forall k | k in entries
        ensures Find(next, k) == Find(entries, k)
      {
        FindStable(entries, [keys[0]], k);
      }
      assert keys == [keys[0]] + keys[1..];
      var at := Find(entries, keys[0]);
      assert at < |entries| ==> entries[at] == keys[0];
      assert keys[0] in next;
      var after := InsertedAll(next, keys[1..]);
      assert forall k | k in next :: after[Find(after, k)] == k;
    }
  }

  lemma {:induction false} InsertedOneMore<K>(entries: seq<K>, keys: seq<K>, key: K)
    ensures InsertedAll(entries, keys + [key]) == Inserted(InsertedAll(entries, keys), key)
    decreases |keys|
  {
    if keys != [] {
      assert (keys + [key])[1..] == keys[1..] + [key];
      InsertedOneMore(Inserted(entries, keys[0]), keys[1..], key);
    }
  }
}
