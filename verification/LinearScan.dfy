/** Linear scan with eviction over the built intervals, and the downward spill
    slots. The target's rules come in as a policy of pure functions. */
module LinearScan {
  import opened Shared
  import opened Intervals
  import opened StableSort

  type Byte = b: nat | b < 256

  datatype Policy = Policy(
    nphysRegs: nat,
    spillAll: bool,
    pool: nat -> seq<Byte>,
    sameClass: (nat, nat) -> bool,
    regUsable: (nat, nat, nat, nat) -> bool,
    spillSize: nat -> nat,
    spillAlign: nat -> nat)

  // --- spill slots ------------------------------------------------------------

  class CgSpillSlots {
    var nextOffset: int
    var count: nat

    // A fresh slot below everything handed out so far. The arithmetic is that
    // of a 32-bit word: the caller keeps the frame below 2 GiB.
    method Assign(size: nat, align: nat) returns (ok: bool, slot: int)
      requires nextOffset <= 0 && size + align - nextOffset < 0x8000_0000
      modifies this
      ensures ok <==> PowerOfTwo(size) && PowerOfTwo(align)
      ensures !ok ==> nextOffset == old(nextOffset) && count == old(count)
      ensures ok ==> slot == nextOffset && count == old(count) + 1
      ensures ok ==> slot < 0 && Aligned(slot, align)
      ensures ok ==> slot + size <= old(nextOffset) < slot + size + align
    {
      if !PowerOfTwo(size) || !PowerOfTwo(align) {
        return false, 0;
      }
      var raw := -nextOffset + size;
      raw := RoundUp(raw, align);
      nextOffset := -raw;
      count := count + 1;
      return true, nextOffset;
    }
  }

  ghost predicate IsMultiple(x: int, k: int, align: int) {
    x == k * align
  }

  ghost predicate Aligned(x: int, align: int) {
    exists k :: IsMultiple(x, k, align)
  }

  // For a power of two, the mask form (raw + align - 1) & ~(align - 1).
  function RoundUp(raw: nat, align: nat): (r: int)
    requires align > 0
    ensures raw <= r < raw + align && Aligned(-r, align)
  {
    var q := (raw + align - 1) / align;
    assert IsMultiple(-(q * align), -q, align);
    q * align
  }

  // --- what an allocation must satisfy ----------------------------------------

  predicate Overlap(a: CgInterval, b: CgInterval) {
    a.start <= b.end && b.start <= a.end
  }

  // The promises reg_usable and same_class owe the scan: a usable register is
  // not pinned by an overlapping fixed interval, overlapping fixed intervals
  // name different registers, and one class means one pool.
  ghost predicate HonoursContract(policy: Policy, table: seq<CgInterval>) {
    && (forall v, w | 0 < v < |table| && 0 < w < |table| && v != w ::
          table[v].live && table[w].live && Overlap(table[v], table[w]) && table[w].fixed != 0 ==>
            if table[v].fixed != 0 then table[v].fixed != table[w].fixed
            else !policy.regUsable(v, table[w].fixed - 1, table[v].start, table[v].end))
    && (forall a, b :: policy.sameClass(a, b) ==> policy.pool(a) == policy.pool(b))
  }

  // What interval building leaves behind, before pinning.
  ghost predicate Unplaced(table: seq<CgInterval>) {
    && |table| > 0 && SelfNamed(table)
    && forall v | 0 <= v < |table| ::
         && table[v].phys == 0 && table[v].slot == 0 && table[v].fixed < 256
         && (table[v].live ==> table[v].start <= table[v].end)
  }

  // One interval's register or slot is legal on its own.
  ghost predicate Placed(policy: Policy, v: nat, it: CgInterval) {
    && (it.phys != 0 <==> it.slot == 0)
    && it.phys <= policy.nphysRegs && it.phys < 256
    && (it.fixed != 0 ==> it.phys == it.fixed)
    && (it.noSpill ==> it.phys != 0)
    && (policy.spillAll && !it.noSpill && it.fixed == 0 ==> it.phys == 0)
    && (it.fixed == 0 && it.phys != 0 ==>
          it.phys - 1 in policy.pool(v) && policy.regUsable(v, it.phys - 1, it.start, it.end))
    && (it.slot != 0 ==> it.slot < 0 && Aligned(it.slot, policy.spillAlign(v)))
  }

  // Two intervals never share a register while both alive, nor a byte of frame.
  ghost predicate Apart(policy: Policy, v: nat, w: nat, a: CgInterval, b: CgInterval) {
    && (a.phys != 0 && b.phys != 0 && Overlap(a, b) ==> a.phys != b.phys)
    && (a.slot != 0 && b.slot != 0 ==>
          a.slot + policy.spillSize(v) <= b.slot || b.slot + policy.spillSize(w) <= a.slot)
  }

  ghost predicate OnlyPlaced(before: CgInterval, after: CgInterval) {
    after == before.(phys := after.phys, slot := after.slot)
  }

  // The scan's result: bottom and top bound the frame bytes it handed out.
  ghost predicate Allocation(policy: Policy, before: seq<CgInterval>, after: seq<CgInterval>, top: int, bottom: int) {
    && |after| == |before|
    && (forall v | 0 <= v < |after| :: OnlyPlaced(before[v], after[v]))
    && (forall v | 0 <= v < |after| && (v == 0 || !before[v].live) :: after[v] == before[v])
    && (forall v | 0 < v < |after| && after[v].live ::
          && Placed(policy, v, after[v])
          && (after[v].slot != 0 ==> bottom <= after[v].slot && after[v].slot + policy.spillSize(v) <= top))
    && (forall v, w | 0 < v < |after| && 0 < w < |after| && v != w && after[v].live && after[w].live ::
          Apart(policy, v, w, after[v], after[w]))
  }

  // --- the scan's state --------------------------------------------------------

  // `done` holds the intervals already handled; `active` those of them that own
  // a register and may not have ended before `now`.
  ghost predicate Scanning(policy: Policy, before: seq<CgInterval>, table: seq<CgInterval>, done: set<nat>,
                           active: set<nat>, now: nat, top: int, bottom: int) {
    && |table| == |before| > 0
    && (forall v | 0 <= v < |table| :: OnlyPlaced(before[v], table[v]))
    && (forall v | 0 <= v < |table| && v !in done :: table[v] == before[v])
    && (forall v | v in done :: 0 < v < |table| && table[v].live && table[v].start <= now && Placed(policy, v, table[v]))
    && (forall v | v in done && table[v].slot != 0 :: bottom <= table[v].slot && table[v].slot + policy.spillSize(v) <= top)
    && (forall v, w | v in done && w in done && v != w :: Apart(policy, v, w, table[v], table[w]))
    && (forall v | v in active :: v in done && table[v].phys != 0)
    && (forall v | v in done && table[v].phys != 0 && table[v].end >= now :: v in active)
  }

  ghost predicate Unheld(table: seq<CgInterval>, active: set<nat>, phys: nat) {
    forall v | v in active && v < |table| :: table[v].phys != phys
  }

  ghost predicate AllOngoing(table: seq<CgInterval>, active: set<nat>, now: nat) {
    forall v | v in active && v < |table| :: table[v].end >= now
  }

  // Giving cur a register that no active interval holds, or its own fixed one.
  lemma PlaceInRegister(policy: Policy, before: seq<CgInterval>, table: seq<CgInterval>, done: set<nat>,
                        active: set<nat>, cur: nat, phys: nat, top: int, bottom: int)
    requires Unplaced(before) && HonoursContract(policy, before)
    requires 0 < cur < |before| && cur !in done && before[cur].live
    requires Scanning(policy, before, table, done, active, before[cur].start, top, bottom)
    requires Placed(policy, cur, before[cur].(phys := phys)) && phys != 0
    requires before[cur].fixed == 0 ==> Unheld(table, active, phys)
    ensures Scanning(policy, before, table[cur := table[cur].(phys := phys)], done + {cur}, active + {cur},
                     before[cur].start, top, bottom)
  {
    var it := table[cur].(phys := phys);
    assert table[cur] == before[cur] && OnlyPlaced(before[cur], it);
    forall v | v in done
      ensures Apart(policy, v, cur, table[v], it) && Apart(policy, cur, v, it, table[v])
    {
      PlacedApart(policy, before, table, done, active, cur, phys, top, bottom, v);
    }
  }

  lemma PlacedApart(policy: Policy, before: seq<CgInterval>, table: seq<CgInterval>, done: set<nat>,
                    active: set<nat>, cur: nat, phys: nat, top: int, bottom: int, v: nat)
    requires Unplaced(before) && HonoursContract(policy, before)
    requires 0 < cur < |before| && cur !in done && before[cur].live && v in done
    requires Scanning(policy, before, table, done, active, before[cur].start, top, bottom)
    requires Placed(policy, cur, before[cur].(phys := phys)) && phys != 0
    requires before[cur].fixed == 0 ==> Unheld(table, active, phys)
    ensures Apart(policy, v, cur, table[v], table[cur].(phys := phys))
    ensures Apart(policy, cur, v, table[cur].(phys := phys), table[v])
  {
    assert OnlyPlaced(before[v], table[v]) && Placed(policy, v, table[v]) && table[cur] == before[cur];
    if table[v].phys == phys && Overlap(table[v], table[cur]) {
      assert v in active;
      assert before[cur].fixed != 0;
      assert Overlap(before[v], before[cur]);
      assert false;
    }
  }

  // Spilling an interval that is not in the active list.
  lemma PlaceInSlot(policy: Policy, before: seq<CgInterval>, table: seq<CgInterval>, done: set<nat>,
                    active: set<nat>, cur: nat, slot: int, now: nat, top: int, bottom: int, bottom': int)
    requires Unplaced(before) && 0 < cur < |before| && cur !in done && before[cur].live
    requires before[cur].start <= now && bottom <= top
    requires Scanning(policy, before, table, done, active, now, top, bottom)
    requires Placed(policy, cur, before[cur].(slot := slot)) && slot != 0
    requires bottom' <= slot && slot + policy.spillSize(cur) <= bottom
    ensures Scanning(policy, before, table[cur := table[cur].(slot := slot)], done + {cur}, active, now, top, bottom')
  {
    hide Placed;
    var after := table[cur := table[cur].(slot := slot)];
    assert OnlyPlaced(before[cur], after[cur]);
    forall v, w | v in done + {cur} && w in done + {cur} && v != w
      ensures Apart(policy, v, w, after[v], after[w])
    {
      assert v != cur && w != cur ==> Apart(policy, v, w, table[v], table[w]);
    }
  }

  // Taking the register away from an active interval frees it.
  lemma Evict(policy: Policy, before: seq<CgInterval>, table: seq<CgInterval>, done: set<nat>,
              active: set<nat>, far: nat, now: nat, top: int, bottom: int)
    requires Unplaced(before) && far in active && AllOngoing(table, active, now)
    requires Scanning(policy, before, table, done, active, now, top, bottom)
    ensures Scanning(policy, before, table[far := before[far]], done - {far}, active - {far}, now, top, bottom)
    ensures Unheld(table[far := before[far]], active - {far}, table[far].phys)
    ensures table[far] == before[far].(phys := table[far].phys)
  {
    var after := table[far := before[far]];
    assert OnlyPlaced(before[far], after[far]);
    forall v | v in active - {far} && v < |after|
      ensures after[v].phys != table[far].phys
    {
      assert Apart(policy, v, far, table[v], table[far]);
    }
  }

  lemma AdvanceTime(policy: Policy, before: seq<CgInterval>, table: seq<CgInterval>, done: set<nat>,
                    active: set<nat>, active': set<nat>, now: nat, now': nat, top: int, bottom: int)
    requires Scanning(policy, before, table, done, active, now, top, bottom) && now <= now'
    requires active' <= active && forall v | v in active && table[v].end >= now' :: v in active'
    ensures Scanning(policy, before, table, done, active', now', top, bottom)
  {
  }

  // --- the pieces of one step ---------------------------------------------------

  ghost function Elems(s: seq<nat>): set<nat> {
    set x | x in s
  }

  ghost predicate InTable(s: seq<nat>, n: nat) {
    forall x | x in s :: 0 < x < n
  }

  // Overwriting entry k by the last one and shortening removes exactly entry k.
  lemma SwapRemove(s: seq<nat>, k: nat, t: seq<nat>)
    requires k < |s| && Distinct(s) && t == (if k == |s| - 1 then s[..k] else s[..|s| - 1][k := s[|s| - 1]])
    ensures Distinct(t) && Elems(t) == Elems(s) - {s[k]}
  {
    var last := |s| - 1;
    assert forall i | 0 <= i < |t| :: t[i] == if i == k then s[last] else s[i];
    forall x | x in Elems(s) && x != s[k]
      ensures x in t
    {
      var i :| 0 <= i < |s| && s[i] == x;
      assert x == if i == last then t[k] else t[i];
    }
  }

  // Entries below k survive; nothing that survives has been lost.
  ghost predicate Expiring(table: seq<CgInterval>, were: set<nat>, s: seq<nat>, k: nat, start: nat) {
    && k <= |s| && Distinct(s) && InTable(s, |table|) && Elems(s) <= were
    && (forall i | 0 <= i < k :: s[i] in s && table[s[i]].end >= start)
    && (forall v | v in were && v < |table| && table[v].end >= start :: v in Elems(s))
  }

  lemma ExpireStep(table: seq<CgInterval>, were: set<nat>, s: seq<nat>, k: nat, start: nat)
    requires Expiring(table, were, s, k, start) && k < |s|
    ensures s[k] in s && s[k] < |table|
    ensures table[s[k]].end >= start ==> Expiring(table, were, s, k + 1, start)
    ensures var n := |s| - 1;
            table[s[k]].end < start ==> Expiring(table, were, if k == n then s[..n] else s[..n][k := s[n]], k, start)
  {
    assert s[k] in s;
    if table[s[k]].end < start {
      var n := |s| - 1;
      var t := if k == n then s[..n] else s[..n][k := s[n]];
      SwapRemove(s, k, t);
      SwapExpires(table, were, s, k, t, start);
    }
  }

  lemma SwapExpires(table: seq<CgInterval>, were: set<nat>, s: seq<nat>, k: nat, t: seq<nat>, start: nat)
    requires Expiring(table, were, s, k, start) && k < |s| && s[k] < |table| && table[s[k]].end < start
    requires Distinct(t) && Elems(t) == Elems(s) - {s[k]} && k <= |t| && forall i | 0 <= i < k :: t[i] == s[i]
    ensures Expiring(table, were, t, k, start)
  {
    hide Distinct;
    forall x | x in t
      ensures 0 < x < |table| && x in were
    {
      assert x in Elems(t);
    }
    forall i | 0 <= i < k
      ensures t[i] in t && table[t[i]].end >= start
    {
    }
    forall v | v in were && v < |table| && table[v].end >= start
      ensures v in Elems(t)
    {
    }
  }

  lemma ExpireDone(table: seq<CgInterval>, were: set<nat>, s: seq<nat>, start: nat)
    requires Expiring(table, were, s, |s|, start)
    ensures AllOngoing(table, Elems(s), start) && Elems(s) <= were && Distinct(s)
    ensures forall v | v in were && v < |table| && table[v].end >= start :: v in Elems(s)
  {
  }

  // Drop what ended before `start`, filling holes from the back.
  method ExpireOld(intervals: array<CgInterval>, active: array<nat>, nactive: nat, start: nat, ghost were: set<nat>)
    returns (n: nat)
    requires nactive <= active.Length && Expiring(intervals[..], were, active[..nactive], 0, start)
    modifies active
    ensures n <= nactive && Expiring(intervals[..], were, active[..n], n, start)
  {
    hide Expiring;
    n := nactive;
    var k := 0;
    ghost var table := intervals[..];
    while k < n
      invariant 0 <= k <= n <= nactive && intervals[..] == table
      invariant Expiring(table, were, active[..n], k, start)
      decreases n - k
    {
      ghost var now := active[..n];
      ExpireStep(table, were, now, k, start);
      assert active[k] == now[k];
      if intervals[active[k]].end < start {
        n := n - 1;
        active[k] := active[n];
        assert active[..n] == if k == n then now[..n] else now[..n][k := now[n]];
      } else {
        k := k + 1;
      }
    }
  }

  method ClearUsed(used: array<bool>, n: nat)
    requires n <= used.Length
    modifies used
    ensures forall r | 0 <= r < n :: !used[r]
  {
    var r := 0;
    while r < n
      invariant 0 <= r <= n && forall q | 0 <= q < r :: !used[q]
    {
      used[r] := false;
      r := r + 1;
    }
  }

  // Register r is held by one of the first k entries.
  ghost predicate HeldAmong(table: seq<CgInterval>, active: seq<nat>, k: nat, r: nat) {
    exists i | 0 <= i < k && i < |active| && active[i] < |table| :: table[active[i]].phys == r + 1
  }

  lemma HeldStep(table: seq<CgInterval>, active: seq<nat>, k: nat, r: nat)
    requires k < |active| && active[k] < |table|
    ensures HeldAmong(table, active, k + 1, r) <==> HeldAmong(table, active, k, r) || table[active[k]].phys == r + 1
  {
  }

  lemma HeldIsNotUnheld(table: seq<CgInterval>, active: seq<nat>, r: nat)
    ensures HeldAmong(table, active, |active|, r) <==> !Unheld(table, Elems(active), r + 1)
  {
  }

  method CollectUsed(policy: Policy, intervals: array<CgInterval>, active: array<nat>, nactive: nat, used: array<bool>)
    requires nactive <= active.Length && InTable(active[..nactive], intervals.Length) && used.Length >= policy.nphysRegs
    requires forall v | v in active[..nactive] :: 0 < intervals[v].phys <= policy.nphysRegs
    modifies used
    ensures forall r: nat | r < policy.nphysRegs :: used[r] <==> !Unheld(intervals[..], Elems(active[..nactive]), r + 1)
  {
    hide HeldAmong, Unheld, Elems;
    ghost var table, act := intervals[..], active[..nactive];
    ClearUsed(used, policy.nphysRegs);
    NobodyHolds(table, act);
    var k := 0;
    while k < nactive
      invariant 0 <= k <= nactive
      invariant forall r: nat | r < policy.nphysRegs :: used[r] <==> HeldAmong(table, act, k, r)
    {
      assert active[k] == act[k] && act[k] in act;
      ghost var were := used[..];
      var at := intervals[active[k]].phys - 1;
      used[at] := true;
      forall r: nat | r < policy.nphysRegs
        ensures used[r] <==> HeldAmong(table, act, k + 1, r)
      {
        HeldStep(table, act, k, r);
        assert used[r] <==> were[r] || r == at;
      }
      k := k + 1;
    }
    forall r: nat
      ensures HeldAmong(table, act, nactive, r) <==> !Unheld(table, Elems(act), r + 1)
    {
      HeldIsNotUnheld(table, act, r);
    }
  }

  lemma NobodyHolds(table: seq<CgInterval>, active: seq<nat>)
    ensures forall r :: !HeldAmong(table, active, 0, r)
  {
  }

  // Everything the pool prefers to reg is taken or refused.
  ghost predicate FirstChoice(policy: Policy, it: CgInterval, used: seq<bool>, reg: nat) {
    exists k | 0 <= k < |policy.pool(it.vreg)| && policy.pool(it.vreg)[k] == reg ::
      forall j | 0 <= j < k :: var r := policy.pool(it.vreg)[j];
        r < |used| && (used[r] || !policy.regUsable(it.vreg, r, it.start, it.end))
  }

  // The first pool register that is free and usable; the id plus one is stored
  // in a byte, so register 255 reads back as none.
  method FirstFree(policy: Policy, it: CgInterval, used: array<bool>) returns (ok: bool, phys: nat)
    requires used.Length >= policy.nphysRegs
    ensures ok ==> phys < 256 && (phys != 0 ==>
              && phys <= policy.nphysRegs && !used[phys - 1] && phys - 1 in policy.pool(it.vreg)
              && policy.regUsable(it.vreg, phys - 1, it.start, it.end)
              && FirstChoice(policy, it, used[..], phys - 1))
    ensures ok && phys == 0 && 255 !in policy.pool(it.vreg) ==> forall r | r in policy.pool(it.vreg) ::
              r < policy.nphysRegs && (used[r] || !policy.regUsable(it.vreg, r, it.start, it.end))
    ensures !ok ==> exists r :: r in policy.pool(it.vreg) && r >= policy.nphysRegs
  {
    var pool := policy.pool(it.vreg);
    var k := 0;
    phys := 0;
    while k < |pool|
      invariant 0 <= k <= |pool| && phys == 0
      invariant forall j | 0 <= j < k :: pool[j] < policy.nphysRegs
      invariant forall j | 0 <= j < k :: used[pool[j]] || !policy.regUsable(it.vreg, pool[j], it.start, it.end)
    {
      var reg := pool[k];
      if reg >= policy.nphysRegs {
        assert reg in policy.pool(it.vreg);
        return false, 0;
      }
      if !used[reg] && policy.regUsable(it.vreg, reg, it.start, it.end) {
        phys := (reg + 1) % 256;
        return true, phys;
      }
      k := k + 1;
    }
    ok := true;
  }

  ghost predicate Evictable(policy: Policy, table: seq<CgInterval>, v: nat, it: CgInterval) {
    && v < |table| && table[v].fixed == 0 && !table[v].noSpill && table[v].phys != 0
    && policy.sameClass(table[v].vreg, it.vreg)
    && policy.regUsable(it.vreg, table[v].phys - 1, it.start, it.end)
  }

  // The evictable active interval that ends last, or 0.
  method FarthestEvictable(policy: Policy, intervals: array<CgInterval>, active: array<nat>, nactive: nat, it: CgInterval)
    returns (far: nat)
    requires nactive <= active.Length && InTable(active[..nactive], intervals.Length)
    ensures far != 0 ==> far in active[..nactive] && Evictable(policy, intervals[..], far, it)
    ensures forall v | v in active[..nactive] && Evictable(policy, intervals[..], v, it) ::
              far != 0 && intervals[v].end <= intervals[far].end
  {
    far := 0;
    var k := 0;
    while k < nactive
      invariant 0 <= k <= nactive
      invariant far != 0 ==> far in active[..nactive] && Evictable(policy, intervals[..], far, it)
      invariant forall i | 0 <= i < k && Evictable(policy, intervals[..], active[..nactive][i], it) ::
                  far != 0 && intervals[active[..nactive][i]].end <= intervals[far].end
    {
      assert active[k] == active[..nactive][k] && active[k] in active[..nactive];
      var cand := intervals[active[k]];
      if cand.fixed == 0 && !cand.noSpill && cand.phys != 0 && policy.sameClass(cand.vreg, it.vreg) {
        var reg := cand.phys - 1;
        if policy.regUsable(it.vreg, reg, it.start, it.end) {
          if far == 0 || cand.end > intervals[far].end {
            far := active[k];
          }
        }
      }
      k := k + 1;
    }
  }

  // --- the scan -----------------------------------------------------------------

  // Every slot fits a frame below 2 GiB when each interval costs at most `most` bytes.
  ghost predicate FrameFits(policy: Policy, nvregs: nat, most: nat, top: int) {
    && top <= 0 && nvregs * most - top < 0x8000_0000
    && forall v :: policy.spillSize(v) + policy.spillAlign(v) <= most
  }

  // The registers v may be given over its interval.
  ghost function Usable(policy: Policy, table: seq<CgInterval>, v: nat): set<nat>
    requires v < |table|
  {
    set r: nat | r in policy.pool(v) && policy.regUsable(v, r, table[v].start, table[v].end)
  }

  // v could not evict w: it is pinned or unspillable itself, or of another class.
  predicate CannotEvict(policy: Policy, table: seq<CgInterval>, v: nat, w: nat) {
    w < |table| && (table[w].fixed != 0 || table[w].noSpill || !policy.sameClass(w, v))
  }

  // The others under way where v starts that v could not evict.
  ghost function Immovable(policy: Policy, table: seq<CgInterval>, v: nat): set<nat>
    requires v < |table|
  {
    set w: nat | w < |table| && w != v && table[w].live && table[w].start <= table[v].start <= table[w].end
      && CannotEvict(policy, table, v, w)
  }

  // Fewer of those than registers v may be given. Register 255 is not for use:
  // its number plus one does not fit the byte it is kept in.
  ghost predicate LowPressure(policy: Policy, table: seq<CgInterval>, v: nat)
    requires v < |table|
  {
    255 !in policy.pool(v) && |Immovable(policy, table, v)| < |Usable(policy, table, v)|
  }

  ghost predicate SoundSizes(policy: Policy) {
    forall v :: PowerOfTwo(policy.spillSize(v)) && PowerOfTwo(policy.spillAlign(v))
  }

  predicate Unspillable(table: seq<CgInterval>, v: nat) {
    0 < v < |table| && table[v].live && table[v].fixed == 0 && table[v].noSpill
  }

  // What most internal-error checks of the scan demand of the policy and the pins.
  ghost predicate SoundMachine(policy: Policy, table: seq<CgInterval>) {
    && (forall v, r | r in policy.pool(v) :: r < policy.nphysRegs)
    && SoundSizes(policy)
    && (forall v | 0 < v < |table| && table[v].live :: table[v].fixed <= policy.nphysRegs)
    && (forall v: nat | Unspillable(table, v) :: 255 !in policy.pool(v))
  }

  // What all of them do.
  ghost predicate SoundPolicy(policy: Policy, table: seq<CgInterval>) {
    SoundMachine(policy, table) && forall v: nat | Unspillable(table, v) :: LowPressure(policy, table, v)
  }

  // Every register v may be given is held by an interval under way where v starts
  // that v cannot evict.
  ghost predicate Stuck(policy: Policy, before: seq<CgInterval>, after: seq<CgInterval>, v: nat) {
    && Unspillable(before, v)
    && forall r | r in Usable(policy, before, v) ::
         exists w :: w in Immovable(policy, before, v) && w < |after| && after[w].phys == r + 1
  }

  function OrderLess(table: seq<CgInterval>): (nat, nat) -> bool {
    (a: nat, b: nat) =>
      if a < |table| && b < |table| && table[a].start != table[b].start
      then table[a].start < table[b].start
      else if a < |table| && b < |table| then a < b
      else a < |table|
  }

  lemma OrderIsStrictWeak(table: seq<CgInterval>)
    ensures StrictWeakOrder(OrderLess(table))
  {
  }

  ghost predicate LiveOrder(table: seq<CgInterval>, order: seq<nat>) {
    && Distinct(order)
    && (forall v :: v in order <==> 0 < v < |table| && table[v].live)
    && (forall i, j | 0 <= i < j < |order| ::
          order[i] < |table| && order[j] < |table| && table[order[i]].start <= table[order[j]].start)
  }

  lemma {:induction false} DistinctMultiset(s: seq<nat>)
    requires Distinct(s)
    ensures forall x :: multiset(s)[x] <= 1
  {
    if s != [] {
      var n := |s| - 1;
      DistinctMultiset(s[..n]);
      assert s == s[..n] + [s[n]];
      assert s[n] !in multiset(s[..n]);
    }
  }

  lemma SameMultisetDistinct(s: seq<nat>, t: seq<nat>)
    requires Distinct(s) && multiset(s) == multiset(t)
    ensures Distinct(t) && forall x :: x in t <==> x in s
  {
    DistinctMultiset(s);
    forall i, j | 0 <= i < j < |t|
      ensures t[i] != t[j]
    {
      assert t == t[..j] + [t[j]] + t[j + 1..];
      assert t[i] in t[..j];
      assert multiset(t)[t[j]] <= 1;
    }
    forall x
      ensures x in t <==> x in s
    {
      assert x in t <==> x in multiset(t);
    }
  }

  // Live registers in order of interval start, ties by register number.
  method SortLive(intervals: array<CgInterval>, order: array<nat>) returns (n: nat)
    requires order.Length == intervals.Length > 0 && SelfNamed(intervals[..])
    modifies order
    ensures n < intervals.Length && LiveOrder(intervals[..], order[..n])
  {
    ghost var table := intervals[..];
    n := 0;
    var v := 1;
    while v < intervals.Length
      invariant 1 <= v <= intervals.Length && n < v && intervals[..] == table
      invariant Distinct(order[..n])
      invariant forall x :: x in order[..n] <==> 0 < x < v && table[x].live
    {
      if intervals[v].live {
        ghost var were := order[..n];
        order[n] := v;
        assert order[..n + 1] == were + [v];
        n := n + 1;
      }
      v := v + 1;
    }
    ghost var unsorted := order[..n];
    var entries := intervals[..];
    OrderIsStrictWeak(entries);
    CgfSortStable(OrderLess(entries), order, n);
    SameMultisetDistinct(unsorted, order[..n]);
    forall i, j | 0 <= i < j < n
      ensures order[..n][i] < |table| && order[..n][j] < |table|
      ensures table[order[..n][i]].start <= table[order[..n][j]].start
    {
      assert order[..n][i] in order[..n] && order[..n][j] in order[..n];
      assert !OrderLess(table)(order[..n][j], order[..n][i]);
    }
  }

  // What eviction asks of its two intervals: each may take its new place.
  lemma EvictionLegal(policy: Policy, before: seq<CgInterval>, table: seq<CgInterval>, done: set<nat>, active: set<nat>,
                      cur: nat, far: nat, slot: int, top: int, bottom: int)
    requires Unplaced(before) && HonoursContract(policy, before)
    requires 0 < cur < |before| && cur !in done && before[cur].live && before[cur].fixed == 0
    requires Scanning(policy, before, table, done, active, before[cur].start, top, bottom)
    requires far in active && Evictable(policy, table, far, before[cur])
    requires policy.spillAll ==> before[cur].noSpill
    requires slot < 0 && Aligned(slot, policy.spillAlign(far))
    ensures far != cur && far in done && 0 < far < |table| && before[far].live && before[far].start <= before[cur].start
    ensures Placed(policy, far, before[far].(slot := slot))
    ensures Placed(policy, cur, before[cur].(phys := table[far].phys)) && table[far].phys != 0
  {
    assert OnlyPlaced(before[far], table[far]) && Placed(policy, far, table[far]);
    assert before[far].vreg == far && before[cur].vreg == cur;
  }

  // Eviction as one move: far goes to the slot, cur takes over its register.
  lemma EvictAndPlace(policy: Policy, before: seq<CgInterval>, table: seq<CgInterval>, done: set<nat>, active: set<nat>,
                      cur: nat, far: nat, slot: int, top: int, bottom: int, bottom': int)
    requires Unplaced(before) && HonoursContract(policy, before) && bottom <= top
    requires 0 < cur < |before| && cur !in done && before[cur].live && before[cur].fixed == 0
    requires Scanning(policy, before, table, done, active, before[cur].start, top, bottom)
    requires AllOngoing(table, active, before[cur].start) && far in active
    requires Evictable(policy, table, far, before[cur])
    requires policy.spillAll ==> before[cur].noSpill
    requires slot < 0 && Aligned(slot, policy.spillAlign(far))
    requires bottom' <= slot && slot + policy.spillSize(far) <= bottom
    ensures far != cur
    ensures Scanning(policy, before,
                     table[cur := table[cur].(phys := table[far].phys)][far := table[far].(phys := 0, slot := slot)],
                     done + {cur}, active - {far} + {cur}, before[cur].start, top, bottom')
  {
    hide Placed, HonoursContract, Aligned;
    var now, phys := before[cur].start, table[far].phys;
    EvictionLegal(policy, before, table, done, active, cur, far, slot, top, bottom);
    Evict(policy, before, table, done, active, far, now, top, bottom);
    var t1 := table[far := before[far]];
    PlaceInSlot(policy, before, t1, done - {far}, active - {far}, far, slot, now, top, bottom, bottom');
    var t2 := t1[far := t1[far].(slot := slot)];
    assert done - {far} + {far} == done;
    PlaceInRegister(policy, before, t2, done, active - {far}, cur, phys, top, bottom');
    assert t2[cur := t2[cur].(phys := phys)]
        == table[cur := table[cur].(phys := phys)][far := table[far].(phys := 0, slot := slot)];
  }

  ghost predicate State(policy: Policy, before: seq<CgInterval>, table: seq<CgInterval>, done: set<nat>,
                        active: seq<nat>, now: nat, top: int, bottom: int) {
    && Unplaced(before) && HonoursContract(policy, before) && bottom <= top <= 0
    && Scanning(policy, before, table, done, Elems(active), now, top, bottom)
    && Distinct(active) && AllOngoing(table, Elems(active), now)
  }

  ghost predicate Pending(before: seq<CgInterval>, done: set<nat>, cur: nat) {
    0 < cur < |before| && cur !in done && before[cur].live
  }

  // The interval whose turn it is.
  ghost predicate Turn(before: seq<CgInterval>, done: set<nat>, cur: nat, now: nat) {
    Pending(before, done, cur) && before[cur].start == now
  }

  lemma StateFacts(policy: Policy, before: seq<CgInterval>, table: seq<CgInterval>, done: set<nat>,
                   active: seq<nat>, cur: nat, now: nat, top: int, bottom: int)
    requires State(policy, before, table, done, active, now, top, bottom) && Pending(before, done, cur)
    ensures |table| == |before| && table[cur] == before[cur] && InTable(active, |table|)
    ensures before[cur].vreg == cur && before[cur].phys == 0 && before[cur].slot == 0 && before[cur].fixed < 256
    ensures before[cur].start <= before[cur].end
    ensures forall v | v in active :: v in done && v != cur && 0 < table[v].phys <= policy.nphysRegs && table[v].slot == 0
  {
    forall v | v in active
      ensures v in done && v != cur && 0 < v < |table| && 0 < table[v].phys <= policy.nphysRegs && table[v].slot == 0
    {
      assert v in Elems(active);
      assert Placed(policy, v, table[v]);
    }
  }

  lemma StateInRegister(policy: Policy, before: seq<CgInterval>, table: seq<CgInterval>, done: set<nat>,
                        active: seq<nat>, cur: nat, phys: nat, now: nat, top: int, bottom: int)
    requires State(policy, before, table, done, active, now, top, bottom) && Turn(before, done, cur, now)
    requires Placed(policy, cur, before[cur].(phys := phys)) && phys != 0
    requires before[cur].fixed == 0 ==> Unheld(table, Elems(active), phys)
    ensures |table| == |before|
    ensures State(policy, before, table[cur := table[cur].(phys := phys)], done + {cur}, active + [cur], now, top, bottom)
  {
    StateFacts(policy, before, table, done, active, cur, now, top, bottom);
    PlaceInRegister(policy, before, table, done, Elems(active), cur, phys, top, bottom);
    assert Elems(active + [cur]) == Elems(active) + {cur};
    forall v | v in Elems(active + [cur]) && v < |table|
      ensures table[cur := table[cur].(phys := phys)][v].end >= now
    {
      assert v != cur ==> v in Elems(active);
    }
    assert Distinct(active + [cur]);
  }

  lemma StateInSlot(policy: Policy, before: seq<CgInterval>, table: seq<CgInterval>, done: set<nat>,
                    active: seq<nat>, cur: nat, slot: int, now: nat, top: int, bottom: int, bottom': int)
    requires State(policy, before, table, done, active, now, top, bottom) && Turn(before, done, cur, now)
    requires before[cur].fixed == 0 && !before[cur].noSpill
    requires slot < 0 && Aligned(slot, policy.spillAlign(cur))
    requires bottom' <= slot && slot + policy.spillSize(cur) <= bottom
    ensures |table| == |before|
    ensures State(policy, before, table[cur := table[cur].(slot := slot)], done + {cur}, active, now, top, bottom')
  {
    StateFacts(policy, before, table, done, active, cur, now, top, bottom);
    PlaceInSlot(policy, before, table, done, Elems(active), cur, slot, now, top, bottom, bottom');
  }

  lemma StateEvicted(policy: Policy, before: seq<CgInterval>, table: seq<CgInterval>, done: set<nat>,
                     active: seq<nat>, cur: nat, k: nat, slot: int, now: nat, top: int, bottom: int, bottom': int)
    requires State(policy, before, table, done, active, now, top, bottom) && Turn(before, done, cur, now)
    requires k < |active| && before[cur].fixed == 0 && (policy.spillAll ==> before[cur].noSpill)
    requires Evictable(policy, table, active[k], before[cur])
    requires slot < 0 && Aligned(slot, policy.spillAlign(active[k]))
    requires bottom' <= slot && slot + policy.spillSize(active[k]) <= bottom
    ensures |table| == |before| && active[k] != cur
    ensures var far := active[k];
            State(policy, before,
                  table[cur := table[cur].(phys := table[far].phys)][far := table[far].(phys := 0, slot := slot)],
                  done + {cur}, active[k := cur], now, top, bottom')
  {
    var far := active[k];
    assert far in Elems(active);
    StateFacts(policy, before, table, done, active, cur, now, top, bottom);
    EvictAndPlace(policy, before, table, done, Elems(active), cur, far, slot, top, bottom, bottom');
    ReplaceEntry(active, k, cur);
    var after := table[cur := table[cur].(phys := table[far].phys)][far := table[far].(phys := 0, slot := slot)];
    forall v | v in Elems(active[k := cur]) && v < |after|
      ensures after[v].end >= now
    {
      assert v != cur ==> v in Elems(active);
    }
  }

  lemma ReplaceEntry(s: seq<nat>, k: nat, x: nat)
    requires k < |s| && Distinct(s) && x !in s
    ensures Distinct(s[k := x]) && Elems(s[k := x]) == Elems(s) - {s[k]} + {x}
  {
    var t := s[k := x];
    assert forall i | 0 <= i < |t| :: t[i] == if i == k then x else s[i];
    assert t[k] == x;
    forall y | y in Elems(s) && y != s[k]
      ensures y in t
    {
      var i :| 0 <= i < |s| && s[i] == y;
      assert t[i] == y;
    }
  }

  // --- one interval ---------------------------------------------------------------

  method Spill(policy: Policy, intervals: array<CgInterval>, v: nat, slots: CgSpillSlots, ghost most: nat)
    returns (ok: bool)
    requires v < intervals.Length && intervals[v].slot == 0
    requires slots.nextOffset <= 0 && most - slots.nextOffset < 0x8000_0000
    requires forall w :: policy.spillSize(w) + policy.spillAlign(w) <= most
    requires intervals[v].vreg == v
    modifies intervals, slots
    ensures ok <==> PowerOfTwo(policy.spillSize(v)) && PowerOfTwo(policy.spillAlign(v))
    ensures old(slots.nextOffset) - most <= slots.nextOffset <= old(slots.nextOffset)
    ensures ok ==> var slot := slots.nextOffset;
              && slot < 0 && Aligned(slot, policy.spillAlign(v)) && slot + policy.spillSize(v) <= old(slots.nextOffset)
              && intervals[..] == old(intervals[..])[v := old(intervals[v]).(slot := slot)]
  {
    hide Aligned, PowerOfTwo;
    ok := true;
    if intervals[v].slot == 0 {
      var slot;
      assert policy.spillSize(v) + policy.spillAlign(v) <= most;
      ok, slot := slots.Assign(policy.spillSize(intervals[v].vreg), policy.spillAlign(intervals[v].vreg));
      if ok {
        intervals[v] := intervals[v].(slot := slot);
      }
    }
  }

  // Everything the loop does for one interval once the expired ones are gone.
  method PlaceOne(policy: Policy, intervals: array<CgInterval>, cur: nat, active: array<nat>, nactive: nat,
                  used: array<bool>, slots: CgSpillSlots, ghost most: nat,
                  ghost before: seq<CgInterval>, ghost done: set<nat>, ghost now: nat, ghost top: int)
    returns (ok: bool, n: nat)
    requires nactive < active.Length && used.Length >= policy.nphysRegs
    requires Turn(before, done, cur, now)
    requires State(policy, before, intervals[..], done, active[..nactive], now, top, slots.nextOffset)
    requires most - slots.nextOffset < 0x8000_0000
    requires forall w :: policy.spillSize(w) + policy.spillAlign(w) <= most
    modifies intervals, active, used, slots
    ensures old(slots.nextOffset) - most <= slots.nextOffset
    ensures ok ==> n <= nactive + 1
    ensures ok ==> State(policy, before, intervals[..], done + {cur}, active[..n], now, top, slots.nextOffset)
    ensures SoundPolicy(policy, before) ==> ok
    ensures SoundMachine(policy, before) && !ok ==> Stuck(policy, before, intervals[..], cur)
  {
    hide State, Turn, Placed, Evictable, Unheld, Aligned, PowerOfTwo, Stuck, Unspillable, LowPressure;
    ghost var table, act, bottom := intervals[..], active[..nactive], slots.nextOffset;
    TurnRange(policy, before, table, done, act, cur, now, top, bottom);
    StateFacts(policy, before, table, done, act, cur, now, top, bottom);
    var it := intervals[cur];
    ok, n := true, nactive;
    if it.fixed != 0 {
      if it.fixed > policy.nphysRegs {
        FixedOutOfRange(policy, before, done, cur, now);
        return false, n;
      }
      intervals[cur] := it.(phys := it.fixed);
      active[nactive] := cur;
      n := nactive + 1;
      FixedPlaced(policy, before, cur);
      StateInRegister(policy, before, table, done, act, cur, it.fixed, now, top, bottom);
      assert intervals[..] == table[cur := table[cur].(phys := it.fixed)] && active[..n] == act + [cur];
      return;
    }
    if policy.spillAll && !it.noSpill {
      ok := Spill(policy, intervals, cur, slots, most);
      if ok {
        StateInSlot(policy, before, table, done, act, cur, slots.nextOffset, now, top, bottom, slots.nextOffset);
        assert active[..n] == act;
      }
      return;
    }
    CollectUsed(policy, intervals, active, nactive, used);
    var phys;
    ok, phys := FirstFree(policy, it, used);
    if !ok {
      return;
    }
    if phys == 0 {
      AllHeld(policy, table, act, it, used[..]);
      ok := EvictOrSpill(policy, intervals, cur, active, nactive, slots, most, before, done, now, top);
      return;
    }
    intervals[cur] := it.(phys := phys);
    active[nactive] := cur;
    n := nactive + 1;
    FreePlaced(policy, before, cur, phys);
    StateInRegister(policy, before, table, done, act, cur, phys, now, top, bottom);
    assert intervals[..] == table[cur := table[cur].(phys := phys)] && active[..n] == act + [cur];
  }

  // Every register cur may be given is in use.
  ghost predicate NoneFree(policy: Policy, table: seq<CgInterval>, active: seq<nat>, it: CgInterval) {
    forall r: nat | r in policy.pool(it.vreg) && policy.regUsable(it.vreg, r, it.start, it.end) :: !Unheld(table, Elems(active), r + 1)
  }

  lemma AllHeld(policy: Policy, table: seq<CgInterval>, active: seq<nat>, it: CgInterval, used: seq<bool>)
    requires |used| >= policy.nphysRegs
    requires forall r: nat | r < policy.nphysRegs :: used[r] <==> !Unheld(table, Elems(active), r + 1)
    requires 255 !in policy.pool(it.vreg) ==> forall r | r in policy.pool(it.vreg) ::
               r < policy.nphysRegs && (used[r] || !policy.regUsable(it.vreg, r, it.start, it.end))
    ensures 255 !in policy.pool(it.vreg) ==> NoneFree(policy, table, active, it)
  {
  }

  lemma FreePlaced(policy: Policy, before: seq<CgInterval>, cur: nat, phys: nat)
    requires cur < |before| && before[cur].slot == 0 && before[cur].fixed == 0 && before[cur].vreg == cur
    requires 0 < phys < 256 && phys <= policy.nphysRegs && (policy.spillAll ==> before[cur].noSpill)
    requires phys - 1 in policy.pool(cur) && policy.regUsable(cur, phys - 1, before[cur].start, before[cur].end)
    ensures Placed(policy, cur, before[cur].(phys := phys))
  {
  }

  ghost predicate NoneOutlives(policy: Policy, table: seq<CgInterval>, active: seq<nat>, it: CgInterval) {
    forall v | v in active && Evictable(policy, table, v, it) :: table[v].end <= it.end
  }

  ghost predicate SomeEvictable(policy: Policy, table: seq<CgInterval>, active: seq<nat>, it: CgInterval) {
    exists v :: v in active && Evictable(policy, table, v, it)
  }

  // No register is free: the longer-lived of cur and the farthest evictable
  // interval goes to the frame, except that an unspillable cur always wins.
  method EvictOrSpill(policy: Policy, intervals: array<CgInterval>, cur: nat, active: array<nat>, nactive: nat,
                      slots: CgSpillSlots, ghost most: nat,
                      ghost before: seq<CgInterval>, ghost done: set<nat>, ghost now: nat, ghost top: int)
    returns (ok: bool)
    requires nactive < active.Length && Turn(before, done, cur, now)
    requires before[cur].fixed == 0 && (policy.spillAll ==> before[cur].noSpill)
    requires State(policy, before, intervals[..], done, active[..nactive], now, top, slots.nextOffset)
    requires most - slots.nextOffset < 0x8000_0000
    requires forall w :: policy.spillSize(w) + policy.spillAlign(w) <= most
    requires 255 !in policy.pool(cur) ==> NoneFree(policy, intervals[..], active[..nactive], before[cur])
    modifies intervals, active, slots
    ensures old(slots.nextOffset) - most <= slots.nextOffset
    ensures ok ==> State(policy, before, intervals[..], done + {cur}, active[..nactive], now, top, slots.nextOffset)
    ensures SoundSizes(policy) ==>
              (ok <==> !before[cur].noSpill || SomeEvictable(policy, old(intervals[..]), old(active[..nactive]), before[cur]))
    ensures SoundPolicy(policy, before) ==> ok
    ensures SoundMachine(policy, before) && !ok ==> Stuck(policy, before, intervals[..], cur)
    ensures ok && !before[cur].noSpill ==>
              (intervals[..][cur].phys == 0 <==> NoneOutlives(policy, old(intervals[..]), old(active[..nactive]), before[cur]))
  {
    hide State, Turn, Placed, Evictable, Unheld, Aligned, PowerOfTwo, Stuck, LowPressure, Unspillable;
    ghost var table, act, bottom := intervals[..], active[..nactive], slots.nextOffset;
    TurnRange(policy, before, table, done, act, cur, now, top, bottom);
    StateFacts(policy, before, table, done, act, cur, now, top, bottom);
    var it := intervals[cur];
    var far := FarthestEvictable(policy, intervals, active, nactive, it);
    if far != 0 && (intervals[far].end > it.end || it.noSpill) {
      assert table[far].vreg == far by {
        TableSelfNamed(policy, before, table, done, act, now, top, bottom, far);
      }
      intervals[cur] := it.(phys := intervals[far].phys);
      intervals[far] := intervals[far].(phys := 0);
      assert intervals[far] == table[far].(phys := 0);
      ok := Spill(policy, intervals, far, slots, most);
      if ok {
        var k := 0;
        ghost var after := intervals[..];
        while active[k] != far
          invariant 0 <= k < nactive && active[..nactive] == act && intervals[..] == after
          invariant far in act[k..]
          decreases nactive - k
        {
          assert act[k] == active[k] && act[k..] == [act[k]] + act[k + 1..];
          k := k + 1;
        }
        assert act[k] == far;
        StateEvicted(policy, before, table, done, act, cur, k, slots.nextOffset, now, top, bottom, slots.nextOffset);
        active[k] := cur;
        assert active[..nactive] == act[k := cur];
        assert after == table[cur := table[cur].(phys := table[far].phys)][far := table[far].(phys := 0, slot := slots.nextOffset)];
      }
    } else if it.noSpill {
      if SoundMachine(policy, before) {
        NothingToEvict(policy, before, table, done, act, cur, now, top, bottom);
      }
      if SoundPolicy(policy, before) {
        StuckMeansPressure(policy, before, table, cur);
      }
      ok := false;
    } else {
      ok := Spill(policy, intervals, cur, slots, most);
      if ok {
        StateInSlot(policy, before, table, done, act, cur, slots.nextOffset, now, top, bottom, slots.nextOffset);
      }
      assert active[..nactive] == act;
    }
  }

  lemma TableSelfNamed(policy: Policy, before: seq<CgInterval>, table: seq<CgInterval>, done: set<nat>,
                       active: seq<nat>, now: nat, top: int, bottom: int, v: nat)
    requires State(policy, before, table, done, active, now, top, bottom) && v in active
    ensures v < |table| && table[v].vreg == v
  {
    assert v in Elems(active);
    assert OnlyPlaced(before[v], table[v]);
  }

  lemma {:induction false} SubsetSize<T>(s: set<T>, t: set<T>)
    requires s <= t
    ensures |s| <= |t|
    decreases |s|
  {
    if s != {} {
      var x :| x in s;
      SubsetSize(s - {x}, t - {x});
    }
  }

  // The registers a set of intervals holds are no more than the intervals.
  lemma {:induction false} HeldSize(table: seq<CgInterval>, ws: set<nat>, rs: set<nat>)
    requires forall w | w in ws :: w < |table|
    requires forall r | r in rs :: exists w :: w in ws && table[w].phys == r + 1
    ensures |rs| <= |ws|
    decreases ws
  {
    if ws == {} {
      assert rs == {};
    } else {
      var w :| w in ws;
      var held := set r | r in rs && table[w].phys == r + 1;
      forall r | r in rs - held
        ensures exists w' :: w' in ws - {w} && table[w'].phys == r + 1
      {
        var w' :| w' in ws && table[w'].phys == r + 1;
        assert w' in ws - {w};
      }
      HeldSize(table, ws - {w}, rs - held);
      SubsetSize(held, {table[w].phys - 1});
    }
  }

  // Under low pressure somebody who holds a register cur may have can be evicted.
  lemma PressureEvicts(policy: Policy, before: seq<CgInterval>, table: seq<CgInterval>, done: set<nat>,
                       active: seq<nat>, cur: nat, now: nat, top: int, bottom: int)
    requires State(policy, before, table, done, active, now, top, bottom) && Turn(before, done, cur, now)
    requires LowPressure(policy, before, cur) && NoneFree(policy, table, active, before[cur])
    ensures SomeEvictable(policy, table, active, before[cur])
  {
    hide State, Turn, NoneFree, SomeEvictable, Immovable, Usable;
    TurnRange(policy, before, table, done, active, cur, now, top, bottom);
    StateFacts(policy, before, table, done, active, cur, now, top, bottom);
    if !SomeEvictable(policy, table, active, before[cur]) {
      AllImmovable(policy, before, table, done, active, cur, now, top, bottom);
      HeldSize(table, Immovable(policy, before, cur), Usable(policy, before, cur));
    }
  }

  // With nobody to evict, whoever holds a register cur may have is immovable.
  lemma AllImmovable(policy: Policy, before: seq<CgInterval>, table: seq<CgInterval>, done: set<nat>,
                     active: seq<nat>, cur: nat, now: nat, top: int, bottom: int)
    requires State(policy, before, table, done, active, now, top, bottom) && Turn(before, done, cur, now)
    requires NoneFree(policy, table, active, before[cur]) && !SomeEvictable(policy, table, active, before[cur])
    ensures |table| == |before| && forall w | w in Immovable(policy, before, cur) :: w < |table|
    ensures forall r | r in Usable(policy, before, cur) :: exists w :: w in Immovable(policy, before, cur) && table[w].phys == r + 1
  {
    StateFacts(policy, before, table, done, active, cur, now, top, bottom);
    forall r | r in Usable(policy, before, cur)
      ensures exists w :: w in Immovable(policy, before, cur) && table[w].phys == r + 1
    {
      assert !Unheld(table, Elems(active), r + 1);
      var w :| w in Elems(active) && w < |table| && table[w].phys == r + 1;
      HolderImmovable(policy, before, table, done, active, cur, now, top, bottom, w);
    }
  }

  lemma NothingToEvict(policy: Policy, before: seq<CgInterval>, table: seq<CgInterval>, done: set<nat>,
                       active: seq<nat>, cur: nat, now: nat, top: int, bottom: int)
    requires State(policy, before, table, done, active, now, top, bottom) && Turn(before, done, cur, now)
    requires before[cur].noSpill && before[cur].fixed == 0 && SoundMachine(policy, before)
    requires 255 !in policy.pool(cur) ==> NoneFree(policy, table, active, before[cur])
    requires !SomeEvictable(policy, table, active, before[cur])
    ensures Stuck(policy, before, table, cur)
  {
    hide State, NoneFree, SomeEvictable, Immovable, Usable;
    assert Unspillable(before, cur);
    AllImmovable(policy, before, table, done, active, cur, now, top, bottom);
  }

  // Then at least as many such intervals are under way as there are registers.
  lemma StuckMeansPressure(policy: Policy, before: seq<CgInterval>, after: seq<CgInterval>, v: nat)
    requires Stuck(policy, before, after, v)
    ensures |Usable(policy, before, v)| <= |Immovable(policy, before, v)| && Unspillable(before, v) && !LowPressure(policy, before, v)
  {
    hide Immovable, Usable;
    var holders := set w | w in Immovable(policy, before, v) && w < |after|;
    HeldSize(after, holders, Usable(policy, before, v));
    SubsetSize(holders, Immovable(policy, before, v));
  }

  // In an allocation nobody is.
  lemma AllocatedNotStuck(policy: Policy, before: seq<CgInterval>, after: seq<CgInterval>, top: int, bottom: int, v: nat)
    requires Unplaced(before) && Allocation(policy, before, after, top, bottom)
    ensures !Stuck(policy, before, after, v)
  {
    hide Stuck, Usable, Immovable;
    if Unspillable(before, v) {
      assert OnlyPlaced(before[v], after[v]) && Placed(policy, v, after[v]);
      var r := after[v].phys - 1;
      forall w | w in Immovable(policy, before, v) && w < |after|
        ensures after[w].phys != r + 1
      {
        ImmovableOverlaps(policy, before, v, w);
        assert OnlyPlaced(before[w], after[w]);
        assert Apart(policy, v, w, after[v], after[w]);
      }
      assert r in Usable(policy, before, v) by {
        UsableIs(policy, before, v, r);
      }
    }
    StuckHolds(policy, before, after, v);
  }

  lemma ImmovableOverlaps(policy: Policy, table: seq<CgInterval>, v: nat, w: nat)
    requires v < |table| && w in Immovable(policy, table, v)
    ensures w < |table| && w != v && table[w].live && table[w].start <= table[v].start <= table[w].end
  {
  }

  lemma UsableIs(policy: Policy, table: seq<CgInterval>, v: nat, r: nat)
    requires v < |table|
    ensures r in Usable(policy, table, v) <==> r in policy.pool(v) && policy.regUsable(v, r, table[v].start, table[v].end)
  {
  }

  lemma StuckHolds(policy: Policy, before: seq<CgInterval>, after: seq<CgInterval>, v: nat)
    ensures Unspillable(before, v) ==>
              (Stuck(policy, before, after, v) <==> forall r | r in Usable(policy, before, v) ::
                 exists w :: w in Immovable(policy, before, v) && w < |after| && after[w].phys == r + 1)
    ensures Stuck(policy, before, after, v) ==> Unspillable(before, v)
  {
  }

  lemma HolderImmovable(policy: Policy, before: seq<CgInterval>, table: seq<CgInterval>, done: set<nat>,
                        active: seq<nat>, cur: nat, now: nat, top: int, bottom: int, w: nat)
    requires State(policy, before, table, done, active, now, top, bottom) && Turn(before, done, cur, now)
    requires w in active && w < |table| && table[w].phys != 0 && !Evictable(policy, table, w, before[cur])
    requires policy.regUsable(before[cur].vreg, table[w].phys - 1, before[cur].start, before[cur].end)
    ensures w in Immovable(policy, before, cur)
  {
    StateFacts(policy, before, table, done, active, cur, now, top, bottom);
    assert w in Elems(active);
    assert OnlyPlaced(before[w], table[w]);
  }

  lemma TurnRange(policy: Policy, before: seq<CgInterval>, table: seq<CgInterval>, done: set<nat>,
                  active: seq<nat>, cur: nat, now: nat, top: int, bottom: int)
    requires State(policy, before, table, done, active, now, top, bottom) && Turn(before, done, cur, now)
    ensures bottom <= 0 && Pending(before, done, cur)
  {
  }

  lemma FixedOutOfRange(policy: Policy, before: seq<CgInterval>, done: set<nat>, cur: nat, now: nat)
    requires Turn(before, done, cur, now) && before[cur].fixed > policy.nphysRegs
    ensures !SoundMachine(policy, before)
  {
  }

  lemma FixedPlaced(policy: Policy, before: seq<CgInterval>, cur: nat)
    requires cur < |before| && before[cur].slot == 0 && 0 < before[cur].fixed < 256
    requires before[cur].fixed <= policy.nphysRegs
    ensures Placed(policy, cur, before[cur].(phys := before[cur].fixed))
  {
  }

  // --- the whole scan ---------------------------------------------------------------

  lemma StateAdvances(policy: Policy, before: seq<CgInterval>, table: seq<CgInterval>, done: set<nat>,
                      active: seq<nat>, active': seq<nat>, now: nat, now': nat, top: int, bottom: int)
    requires State(policy, before, table, done, active, now, top, bottom) && now <= now'
    requires Expiring(table, Elems(active), active', |active'|, now')
    ensures State(policy, before, table, done, active', now', top, bottom)
  {
    ExpireDone(table, Elems(active), active', now');
    AdvanceTime(policy, before, table, done, Elems(active), Elems(active'), now, now', top, bottom);
  }

  lemma ExpireStart(policy: Policy, before: seq<CgInterval>, table: seq<CgInterval>, done: set<nat>,
                    active: seq<nat>, now: nat, now': nat, top: int, bottom: int)
    requires State(policy, before, table, done, active, now, top, bottom)
    ensures Expiring(table, Elems(active), active, 0, now')
  {
    assert forall v | v in active :: v in Elems(active);
  }

  lemma StateInitial(policy: Policy, before: seq<CgInterval>, top: int)
    requires Unplaced(before) && HonoursContract(policy, before) && top <= 0
    ensures State(policy, before, before, {}, [], 0, top, top)
  {
  }

  lemma StateFinal(policy: Policy, before: seq<CgInterval>, table: seq<CgInterval>, done: set<nat>,
                   active: seq<nat>, now: nat, top: int, bottom: int)
    requires State(policy, before, table, done, active, now, top, bottom)
    requires forall v | 0 < v < |before| && before[v].live :: v in done
    ensures Allocation(policy, before, table, top, bottom)
  {
    forall v | 0 <= v < |table|
      ensures OnlyPlaced(before[v], table[v])
      ensures 0 < v && table[v].live ==> v in done
      ensures v == 0 || !before[v].live ==> table[v] == before[v]
    {
      assert OnlyPlaced(before[v], table[v]);
    }
  }

  // The scan stands before entry i of the order, having spent at most `most`
  // frame bytes on each entry behind it.
  ghost predicate Progress(policy: Policy, before: seq<CgInterval>, table: seq<CgInterval>, order: seq<nat>, i: nat,
                           active: seq<nat>, top: int, bottom: int, most: nat) {
    && i <= |order| && LiveOrder(before, order)
    && State(policy, before, table, Elems(order[..i]), active, Now(before, order, i), top, bottom)
    && top - i * most <= bottom
  }

  ghost function Now(before: seq<CgInterval>, order: seq<nat>, i: nat): nat {
    if 0 < i <= |order| && order[i - 1] < |before| then before[order[i - 1]].start else 0
  }

  lemma NextTurn(policy: Policy, before: seq<CgInterval>, table: seq<CgInterval>, order: seq<nat>, i: nat,
                 active: seq<nat>, top: int, bottom: int, most: nat)
    requires Progress(policy, before, table, order, i, active, top, bottom, most) && i < |order|
    ensures order[i] < |before| && table[order[i]] == before[order[i]] && |table| == |before|
    ensures Now(before, order, i) <= before[order[i]].start == Now(before, order, i + 1)
    ensures Turn(before, Elems(order[..i]), order[i], Now(before, order, i + 1))
    ensures Expiring(table, Elems(active), active, 0, Now(before, order, i + 1))
  {
    var cur := order[i];
    assert cur in order;
    StateFacts(policy, before, table, Elems(order[..i]), active, cur, Now(before, order, i), top, bottom);
    ExpireStart(policy, before, table, Elems(order[..i]), active, Now(before, order, i), Now(before, order, i + 1), top, bottom);
  }

  lemma BudgetLeft(n: nat, i: nat, most: nat)
    requires i < n
    ensures i * most + most == (i + 1) * most <= n * most
  {
  }

  lemma ElemsStep(order: seq<nat>, i: nat)
    requires i < |order|
    ensures Elems(order[..i + 1]) == Elems(order[..i]) + {order[i]}
  {
    assert order[..i + 1] == order[..i] + [order[i]];
  }

  // One trip round the scan's loop.
  method ScanStep(intervals: array<CgInterval>, policy: Policy, slots: CgSpillSlots, cur: nat, active: array<nat>, nactive: nat,
                  used: array<bool>, ghost most: nat, ghost before: seq<CgInterval>, ghost order: seq<nat>, ghost i: nat,
                  ghost top: int)
    returns (ok: bool, n: nat)
    requires i < |order| && cur == order[i] && nactive <= i && |order| < active.Length && used.Length >= policy.nphysRegs
    requires Progress(policy, before, intervals[..], order, i, active[..nactive], top, slots.nextOffset, most)
    requires FrameFits(policy, |before|, most, top) && |order| < |before|
    modifies intervals, active, used, slots
    ensures ok ==> n <= i + 1
    ensures ok ==> Progress(policy, before, intervals[..], order, i + 1, active[..n], top, slots.nextOffset, most)
    ensures SoundPolicy(policy, before) ==> ok
    ensures SoundMachine(policy, before) && !ok ==> Stuck(policy, before, intervals[..], cur)
  {
    hide State, Expiring, Elems, SoundPolicy, SoundMachine, Stuck, LiveOrder, Turn, Now;
    ghost var table, act, bottom := intervals[..], active[..nactive], slots.nextOffset;
    ghost var done, now, now' := Elems(order[..i]), Now(before, order, i), Now(before, order, i + 1);
    NextTurn(policy, before, table, order, i, act, top, bottom, most);
    n := ExpireOld(intervals, active, nactive, intervals[cur].start, Elems(act));
    assert intervals[..] == table;
    StateAdvances(policy, before, table, done, act, active[..n], now, now', top, bottom);
    BudgetLeft(|before|, i, most);
    ok, n := PlaceOne(policy, intervals, cur, active, n, used, slots, most, before, done, now', top);
    ElemsStep(order, i);
  }

  // Fails only where the source raises an internal error; on a sound machine exactly
  // when the table it leaves has an unspillable interval stuck, which takes more
  // intervals under way than low pressure allows.
  method CgLinearScan(intervals: array<CgInterval>, policy: Policy, slots: CgSpillSlots, ghost most: nat)
    returns (ok: bool)
    requires Unplaced(intervals[..]) && HonoursContract(policy, intervals[..])
    requires FrameFits(policy, intervals.Length, most, slots.nextOffset)
    modifies intervals, slots
    ensures ok ==> Allocation(policy, old(intervals[..]), intervals[..], old(slots.nextOffset), slots.nextOffset)
    ensures SoundPolicy(policy, old(intervals[..])) ==> ok
    ensures SoundMachine(policy, old(intervals[..])) ==>
              (ok <==> forall v: nat :: !Stuck(policy, old(intervals[..]), intervals[..], v))
  {
    hide State, Unplaced, HonoursContract, SoundPolicy, SoundMachine, Stuck, Allocation, LiveOrder, Elems;
    ghost var before, top := intervals[..], slots.nextOffset;
    UnplacedNamed(before);
    var order := new nat[intervals.Length];
    var active := new nat[intervals.Length];
    var used := new bool[policy.nphysRegs];
    var nactive: nat := 0;
    var norder := SortLive(intervals, order);
    ghost var sequence := order[..norder];
    assert intervals[..] == before;
    ProgressInitial(policy, before, sequence, top, most);
    assert active[..0] == [];
    var i := 0;
    while i < norder
      invariant 0 <= i <= norder && nactive <= i && order[..norder] == sequence
      invariant Progress(policy, before, intervals[..], sequence, i, active[..nactive], top, slots.nextOffset, most)
    {
      assert order[i] == sequence[i];
      ok, nactive := ScanStep(intervals, policy, slots, order[i], active, nactive, used, most, before, sequence, i, top);
      if !ok {
        return;
      }
      i := i + 1;
    }
    ProgressFinal(policy, before, intervals[..], sequence, active[..nactive], top, slots.nextOffset, most);
    forall v: nat
      ensures !Stuck(policy, before, intervals[..], v)
    {
      AllocatedNotStuck(policy, before, intervals[..], top, slots.nextOffset, v);
    }
    ok := true;
  }

  lemma UnplacedNamed(before: seq<CgInterval>)
    requires Unplaced(before)
    ensures SelfNamed(before) && |before| > 0
  {
  }

  lemma ProgressInitial(policy: Policy, before: seq<CgInterval>, order: seq<nat>, top: int, most: nat)
    requires Unplaced(before) && HonoursContract(policy, before) && top <= 0 && LiveOrder(before, order)
    ensures Progress(policy, before, before, order, 0, [], top, top, most)
  {
    StateInitial(policy, before, top);
  }

  lemma ProgressFinal(policy: Policy, before: seq<CgInterval>, table: seq<CgInterval>, order: seq<nat>,
                      active: seq<nat>, top: int, bottom: int, most: nat)
    requires Progress(policy, before, table, order, |order|, active, top, bottom, most)
    ensures Allocation(policy, before, table, top, bottom)
  {
    assert order[..|order|] == order;
    assert forall v | 0 < v < |before| && before[v].live :: v in order;
    StateFinal(policy, before, table, Elems(order), active, Now(before, order, |order|), top, bottom);
  }
}
