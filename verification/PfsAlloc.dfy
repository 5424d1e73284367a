/** Sector allocation without a free-space map: free space is whatever no other file's extents cover. */
module PfsAlloc {
  import opened Common
  import opened PfsFormat

  predicate IsFile(e: Entry) {
    e.kind != KIND_FREE && e.kind != KIND_DIR
  }

  function End(x: Extent): nat {
    x.start + x.sectors
  }

  predicate Owns(e: Entry, slot: nat, lba: nat)
    requires slot < |e.extents|
  {
    IsFile(e) && e.extents[slot].start <= lba < End(e.extents[slot])
  }

  /** Some file other than `skip` owns sector `lba`. */
  ghost predicate Covered(t: seq<Entry>, skip: Option<nat>, lba: nat) {
    exists i: nat, s: nat :: i < |t| && Some(i) != skip && s < |t[i].extents| && Owns(t[i], s, lba)
  }

  /** u32 arithmetic on extent ends does not overflow, which the kernel takes for granted. */
  predicate EndsFit(t: seq<Entry>) {
    forall i, s :: 0 <= i < |t| && 0 <= s < |t[i].extents| && IsFile(t[i]) ==>
      End(t[i].extents[s]) < 0x1_0000_0000
  }

  // ---- pfs_find_free_run ----

  /** The extents before position (n, m) of a scan miss `c`; `next` is the nearest one above it. */
  ghost predicate Scanned(t: seq<Entry>, skip: Option<nat>, c: nat, next: Option<nat>, n: nat, m: nat) {
    && (forall i: nat, s: nat | i < |t| && s < |t[i].extents| && (i < n || (i == n && s < m)) ::
          Some(i) != skip && IsFile(t[i]) && t[i].extents[s].sectors > 0
          ==> !Owns(t[i], s, c) &&
              (t[i].extents[s].start > c ==> next.Some? && next.value <= t[i].extents[s].start))
    && (next.Some? ==> next.value > c && Covered(t, skip, next.value))
  }

  /** `run` is the first free run at or after `from`, at its full length or capped at `maxLen`. */
  ghost predicate IsFirstRun(t: seq<Entry>, skip: Option<nat>, from: nat, maxLen: nat, run: Extent) {
    && from <= run.start
    && 0 < run.sectors <= maxLen
    && End(run) <= DISK_SECTORS
    && (forall x :: from <= x < run.start ==> Covered(t, skip, x))
    && (forall x :: run.start <= x < End(run) ==> !Covered(t, skip, x))
    && (run.sectors == maxLen || End(run) == DISK_SECTORS || Covered(t, skip, End(run)))
  }

  lemma GapBelowObstacle(t: seq<Entry>, skip: Option<nat>, c: nat, next: Option<nat>)
    requires Scanned(t, skip, c, next, |t|, 0)
    ensures forall x :: c <= x && (next.Some? ==> x < next.value) ==> !Covered(t, skip, x)
  {
  }

  method FindFreeRun(t: seq<Entry>, startFrom: nat, maxLen: nat, skip: Option<nat>)
    returns (r: Option<Extent>)
    requires EndsFit(t)
    ensures r.Some? ==> IsFirstRun(t, skip, startFrom, maxLen, r.value)
    ensures r.None? <==> maxLen == 0 || forall x :: startFrom <= x < DISK_SECTORS ==> Covered(t, skip, x)
  {
    var candidate := startFrom;
    while true
      invariant startFrom <= candidate
      invariant forall x :: startFrom <= x < candidate ==> Covered(t, skip, x)
      decreases DISK_SECTORS - candidate
    {
      if candidate >= DISK_SECTORS {
        return None;
      }
      var nextObstacle: Option<nat> := None;
      var blocked := false;
      ghost var c := candidate;
      for index := 0 to |t|
        invariant !blocked && candidate == c
        invariant Scanned(t, skip, c, nextObstacle, index, 0)
      {
        if Some(index) == skip || !IsFile(t[index]) {
          continue;
        }
        for slot := 0 to |t[index].extents|
          invariant !blocked && candidate == c
          invariant Scanned(t, skip, c, nextObstacle, index, slot)
        {
          var extent := t[index].extents[slot];
          if extent.sectors == 0 {
            continue;
          }
          var usedEnd := End(extent);
          if extent.start <= candidate < usedEnd {
            forall x | c <= x < usedEnd ensures Covered(t, skip, x) {
              assert Owns(t[index], slot, x);
            }
            candidate := usedEnd;
            blocked := true;
            break;
          }
          if extent.start > candidate && (nextObstacle.None? || extent.start < nextObstacle.value) {
            assert Owns(t[index], slot, extent.start);
            nextObstacle := Some(extent.start);
          }
        }
        if blocked {
          break;
        }
      }
      if blocked {
        continue;
      }
      GapBelowObstacle(t, skip, c, nextObstacle);
      var endBound := if nextObstacle.Some? then Min(nextObstacle.value, DISK_SECTORS) else DISK_SECTORS;
      if endBound <= candidate {
        return None;
      }
      var take := Min(endBound - candidate, maxLen);
      assert !Covered(t, skip, candidate);
      if take == 0 {
        return None;
      }
      return Some(Extent(candidate, take));
    }
  }

  /** First-fit exactness: nothing else meets the description. */
  lemma FirstRunUnique(t: seq<Entry>, skip: Option<nat>, from: nat, maxLen: nat, a: Extent, b: Extent)
    requires IsFirstRun(t, skip, from, maxLen, a) && IsFirstRun(t, skip, from, maxLen, b)
    ensures a == b
  {
    assert !Covered(t, skip, a.start) && !Covered(t, skip, b.start);
    assert a.start == b.start;
    assert End(a) < End(b) ==> !Covered(t, skip, End(a));
    assert End(b) < End(a) ==> !Covered(t, skip, End(b));
  }

  // ---- Logical sectors ----

  /** The disk sectors of a file in logical order. */
  ghost function Lbas(extents: seq<Extent>): seq<nat> {
    if extents == [] then []
    else
      var last := extents[|extents| - 1];
      Lbas(extents[..|extents| - 1]) + Range(last.start, last.sectors)
  }

  lemma LbasPush(extents: seq<Extent>, x: Extent)
    ensures Lbas(extents + [x]) == Lbas(extents) + Range(x.start, x.sectors)
  {
    assert (extents + [x])[..|extents|] == extents;
  }

  lemma {:induction false} LbasPrefix(extents: seq<Extent>, n: nat)
    requires n <= |extents|
    ensures |Lbas(extents[..n])| <= |Lbas(extents)|
    ensures Lbas(extents)[..|Lbas(extents[..n])|] == Lbas(extents[..n])
    decreases |extents| - n
  {
    if n == |extents| {
      assert extents[..n] == extents;
    } else {
      LbasPush(extents[..n], extents[n]);
      assert extents[..n] + [extents[n]] == extents[..n + 1];
      LbasPrefix(extents, n + 1);
    }
  }

  /** pfs_entry_total_sectors. */
  method TotalSectors(e: Entry) returns (total: nat)
    ensures total == |Lbas(e.extents)|
  {
    total := 0;
    for slot := 0 to |e.extents|
      invariant total == |Lbas(e.extents[..slot])|
    {
      LbasPush(e.extents[..slot], e.extents[slot]);
      assert e.extents[..slot] + [e.extents[slot]] == e.extents[..slot + 1];
      total := total + e.extents[slot].sectors;
    }
    assert e.extents[..|e.extents|] == e.extents;
  }

  /** pfs_entry_lba_for_sector: walks the extents to the sector that holds a logical one. */
  method LbaForSector(e: Entry, logicalSector: nat) returns (r: Option<nat>)
    ensures r == if logicalSector < |Lbas(e.extents)| then Some(Lbas(e.extents)[logicalSector]) else None
  {
    var remaining: nat := logicalSector;
    for slot := 0 to |e.extents|
      invariant logicalSector == |Lbas(e.extents[..slot])| + remaining
    {
      var extent := e.extents[slot];
      LbasPush(e.extents[..slot], extent);
      assert e.extents[..slot] + [extent] == e.extents[..slot + 1];
      LbasPrefix(e.extents, slot + 1);
      if extent.sectors == 0 {
        continue;
      }
      if remaining < extent.sectors {
        assert Lbas(e.extents[..slot + 1])[logicalSector] == extent.start + remaining;
        return Some(extent.start + remaining);
      }
      remaining := remaining - extent.sectors;
    }
    assert e.extents[..|e.extents|] == e.extents;
    return None;
  }

  // ---- pfs_grow_extents ----

  /** The first `n` sectors at or after `from` that no file but `skip` owns, or as many as there are. */
  ghost function FreeList(t: seq<Entry>, skip: Option<nat>, from: nat, n: nat): seq<nat>
    decreases DISK_SECTORS - from
  {
    if n == 0 || from >= DISK_SECTORS then []
    else if Covered(t, skip, from) then FreeList(t, skip, from + 1, n)
    else [from] + FreeList(t, skip, from + 1, n - 1)
  }

  ghost predicate Ascending(s: seq<nat>) {
    forall i, j :: 0 <= i < j < |s| ==> s[i] < s[j]
  }

  /** The list holds free sectors only, in order. */
  lemma {:induction false} FreeListSound(t: seq<Entry>, skip: Option<nat>, from: nat, n: nat)
    ensures var f := FreeList(t, skip, from, n);
      && |f| <= n
      && Ascending(f)
      && forall k :: 0 <= k < |f| ==> from <= f[k] < DISK_SECTORS && !Covered(t, skip, f[k])
    decreases DISK_SECTORS - from
  {
    if n == 0 || from >= DISK_SECTORS {
    } else if Covered(t, skip, from) {
      FreeListSound(t, skip, from + 1, n);
    } else {
      FreeListSound(t, skip, from + 1, n - 1);
    }
  }

  /** It skips no free sector: each one is listed unless it lies beyond a full list. */
  lemma {:induction false} FreeListComplete(t: seq<Entry>, skip: Option<nat>, from: nat, n: nat, x: nat)
    requires from <= x < DISK_SECTORS && !Covered(t, skip, x)
    ensures var f := FreeList(t, skip, from, n);
      x in f || (|f| == n && forall k :: 0 <= k < n ==> f[k] < x)
    decreases DISK_SECTORS - from
  {
    if n == 0 || x == from {
    } else if Covered(t, skip, from) {
      FreeListComplete(t, skip, from + 1, n, x);
    } else {
      FreeListComplete(t, skip, from + 1, n - 1, x);
    }
  }

  lemma {:induction false} FreeListSkipsCovered(t: seq<Entry>, skip: Option<nat>, from: nat, to: nat, n: nat)
    requires from <= to <= DISK_SECTORS
    requires forall x :: from <= x < to ==> Covered(t, skip, x)
    ensures FreeList(t, skip, from, n) == FreeList(t, skip, to, n)
    decreases DISK_SECTORS - from
  {
    if from < to && n > 0 {
      FreeListSkipsCovered(t, skip, from + 1, to, n);
    }
  }

  lemma {:induction false} FreeListTakesRun(t: seq<Entry>, skip: Option<nat>, start: nat, k: nat, n: nat)
    requires k <= n && start + k <= DISK_SECTORS
    requires forall x :: start <= x < start + k ==> !Covered(t, skip, x)
    ensures FreeList(t, skip, start, n) == Range(start, k) + FreeList(t, skip, start + k, n - k)
    decreases k
  {
    if k == 0 {
      assert Range(start, 0) == [];
    } else {
      FreeListTakesRun(t, skip, start + 1, k - 1, n - 1);
      assert Range(start, k) == [start] + Range(start + 1, k - 1);
    }
  }

  /** One search step consumes the run it found from the front of the free list. */
  lemma RunHeadsFreeList(t: seq<Entry>, skip: Option<nat>, from: nat, n: nat, run: Extent)
    requires IsFirstRun(t, skip, from, n, run)
    ensures FreeList(t, skip, from, n) ==
            Range(run.start, run.sectors) + FreeList(t, skip, End(run), n - run.sectors)
  {
    FreeListSkipsCovered(t, skip, from, run.start, n);
    FreeListTakesRun(t, skip, run.start, run.sectors, n);
  }

  /** Number of maximal runs of consecutive sectors. */
  ghost function Runs(s: seq<nat>): nat {
    if |s| == 0 then 0
    else Runs(s[..|s| - 1]) + if |s| == 1 || s[|s| - 1] != s[|s| - 2] + 1 then 1 else 0
  }

  lemma {:induction false} RunsMonotone(a: seq<nat>, b: seq<nat>)
    ensures Runs(a) <= Runs(a + b)
    decreases |b|
  {
    if |b| == 0 {
      assert a + b == a;
    } else {
      RunsMonotone(a, b[..|b| - 1]);
      assert (a + b)[..|a + b| - 1] == a + b[..|b| - 1];
    }
  }

  lemma {:induction false} RunsAddRange(a: seq<nat>, start: nat, n: nat)
    requires n > 0
    ensures Runs(a + Range(start, n)) ==
            Runs(a) + if |a| > 0 && a[|a| - 1] + 1 == start then 0 else 1
    decreases n
  {
    var s := a + Range(start, n);
    if n == 1 {
      assert s[..|s| - 1] == a;
    } else {
      assert s[..|s| - 1] == a + Range(start, n - 1);
      RunsAddRange(a, start, n - 1);
    }
  }

  /** Non-empty, strictly ascending extents with a gap between neighbours. */
  predicate Canonical(extents: seq<Extent>) {
    extents == [] ||
    var front, last := extents[..|extents| - 1], extents[|extents| - 1];
    Canonical(front) && last.sectors > 0 && (front == [] || End(front[|front| - 1]) < last.start)
  }

  lemma {:induction false} CanonicalRuns(extents: seq<Extent>)
    requires Canonical(extents)
    ensures Runs(Lbas(extents)) == |extents|
    ensures extents != [] ==>
              |Lbas(extents)| > 0 && Lbas(extents)[|Lbas(extents)| - 1] + 1 == End(extents[|extents| - 1])
  {
    if extents == [] {
    } else {
      var front, last := extents[..|extents| - 1], extents[|extents| - 1];
      CanonicalRuns(front);
      RunsAddRange(Lbas(front), last.start, last.sectors);
    }
  }

  lemma {:induction false} CanonicalAscends(extents: seq<Extent>)
    requires Canonical(extents)
    ensures Ascending(Lbas(extents))
    ensures forall k :: 0 <= k < |Lbas(extents)| ==> Lbas(extents)[k] < SearchStart(extents)
  {
    if extents == [] {
    } else {
      CanonicalAscends(extents[..|extents| - 1]);
    }
  }

  /** Where the search for more space begins. */
  function SearchStart(extents: seq<Extent>): nat {
    if extents == [] then DATA_START else End(extents[|extents| - 1])
  }

  /** Exact success condition of growth: enough free sectors after the last extent, in at most 4 runs. */
  ghost predicate Growable(t: seq<Entry>, skip: Option<nat>, extents: seq<Extent>, additional: nat) {
    var free := FreeList(t, skip, SearchStart(extents), additional);
    |free| == additional && Runs(Lbas(extents) + free) <= MAX_EXTENTS
  }

  /** Between search steps: what is owned plus what is still to be found never changes. */
  ghost predicate GrowInv(t: seq<Entry>, skip: Option<nat>, was: seq<Extent>, additional: nat,
                          now: seq<Extent>, from: nat, remaining: nat) {
    && remaining <= additional
    && Canonical(now)
    && (now != [] ==> End(now[|now| - 1]) <= from)
    && |Lbas(now)| == |Lbas(was)| + (additional - remaining)
    && Lbas(was) + FreeList(t, skip, SearchStart(was), additional)
       == Lbas(now) + FreeList(t, skip, from, remaining)
  }

  lemma Reassociate(total: seq<nat>, now: seq<nat>, r: seq<nat>, tail: seq<nat>)
    requires total == now + (r + tail)
    ensures total == (now + r) + tail
  {
  }

  lemma CanonicalPush(front: seq<Extent>, x: Extent)
    ensures Canonical(front + [x]) <==>
            Canonical(front) && x.sectors > 0 && (front == [] || End(front[|front| - 1]) < x.start)
  {
    assert (front + [x])[..|front|] == front;
  }

  lemma RangeSplit(start: nat, m: nat, n: nat)
    ensures Range(start, m + n) == Range(start, m) + Range(start + m, n)
  {
  }

  lemma ExtendLast(front: seq<Extent>, x: Extent, n: nat)
    requires Canonical(front + [x])
    ensures var grown := front + [Extent(x.start, x.sectors + n)];
      Canonical(grown) && Lbas(grown) == Lbas(front + [x]) + Range(End(x), n)
  {
    var x' := Extent(x.start, x.sectors + n);
    CanonicalPush(front, x);
    CanonicalPush(front, x');
    LbasPush(front, x);
    LbasPush(front, x');
    RangeSplit(x.start, x.sectors, n);
    Reassociate(Lbas(front + [x']), Lbas(front), Range(x.start, x.sectors), Range(End(x), n));
  }

  lemma GrowStep(t: seq<Entry>, skip: Option<nat>, was: seq<Extent>, additional: nat,
                 now: seq<Extent>, from: nat, remaining: nat, run: Extent, next: seq<Extent>)
    requires GrowInv(t, skip, was, additional, now, from, remaining)
    requires IsFirstRun(t, skip, from, remaining, run)
    requires Canonical(next) && next != [] && End(next[|next| - 1]) == End(run)
    requires Lbas(next) == Lbas(now) + Range(run.start, run.sectors)
    ensures GrowInv(t, skip, was, additional, next, End(run), remaining - run.sectors)
  {
    RunHeadsFreeList(t, skip, from, remaining, run);
    Reassociate(Lbas(was) + FreeList(t, skip, SearchStart(was), additional), Lbas(now),
                Range(run.start, run.sectors), FreeList(t, skip, End(run), remaining - run.sectors));
  }

  /** The extent list with one more run, joined to the last extent when it continues it. */
  function WithRun(extents: seq<Extent>, run: Extent): seq<Extent> {
    var k := |extents| - 1;
    if extents != [] && run.start == End(extents[k])
    then extents[..k] + [Extent(extents[k].start, extents[k].sectors + run.sectors)]
    else extents + [run]
  }

  lemma WithRunLbas(now: seq<Extent>, run: Extent)
    requires Canonical(now) && run.sectors > 0 && (now == [] || End(now[|now| - 1]) <= run.start)
    ensures var next := WithRun(now, run);
      && Canonical(next) && next != [] && End(next[|next| - 1]) == End(run)
      && Lbas(next) == Lbas(now) + Range(run.start, run.sectors)
  {
    if now != [] && run.start == End(now[|now| - 1]) {
      var front, x := now[..|now| - 1], now[|now| - 1];
      assert now == front + [x];
      ExtendLast(front, x, run.sectors);
    } else {
      LbasPush(now, run);
      CanonicalPush(now, run);
    }
  }

  lemma GrowAdvances(t: seq<Entry>, skip: Option<nat>, was: seq<Extent>, additional: nat,
                     now: seq<Extent>, from: nat, remaining: nat, run: Extent)
    requires GrowInv(t, skip, was, additional, now, from, remaining)
    requires IsFirstRun(t, skip, from, remaining, run)
    ensures GrowInv(t, skip, was, additional, WithRun(now, run), run.start + run.sectors, remaining - run.sectors)
  {
    WithRunLbas(now, run);
    GrowStep(t, skip, was, additional, now, from, remaining, run, WithRun(now, run));
  }

  lemma TooManyRuns(t: seq<Entry>, skip: Option<nat>, was: seq<Extent>, additional: nat,
                    now: seq<Extent>, from: nat, remaining: nat, run: Extent)
    requires GrowInv(t, skip, was, additional, now, from, remaining)
    requires IsFirstRun(t, skip, from, remaining, run)
    requires |WithRun(now, run)| > MAX_EXTENTS
    ensures !Growable(t, skip, was, additional)
  {
    RunHeadsFreeList(t, skip, from, remaining, run);
    var tail := FreeList(t, skip, End(run), remaining - run.sectors);
    var r := Range(run.start, run.sectors);
    CanonicalRuns(now);
    RunsAddRange(Lbas(now), run.start, run.sectors);
    RunsMonotone(Lbas(now) + r, tail);
    assert Lbas(now) + (r + tail) == (Lbas(now) + r) + tail;
  }

  lemma NoRunLeft(t: seq<Entry>, skip: Option<nat>, was: seq<Extent>, additional: nat,
                  now: seq<Extent>, from: nat, remaining: nat)
    requires GrowInv(t, skip, was, additional, now, from, remaining) && remaining > 0
    requires forall x :: from <= x < DISK_SECTORS ==> Covered(t, skip, x)
    ensures !Growable(t, skip, was, additional)
  {
    if from < DISK_SECTORS {
      FreeListSkipsCovered(t, skip, from, DISK_SECTORS, remaining);
    }
    assert FreeList(t, skip, from, remaining) == [];
    assert |Lbas(was) + FreeList(t, skip, SearchStart(was), additional)| == |Lbas(now)|;
  }

  lemma GrowDone(t: seq<Entry>, skip: Option<nat>, was: seq<Extent>, additional: nat, now: seq<Extent>, from: nat)
    requires GrowInv(t, skip, was, additional, now, from, 0) && |now| <= MAX_EXTENTS
    ensures Growable(t, skip, was, additional)
    ensures Lbas(now) == Lbas(was) + FreeList(t, skip, SearchStart(was), additional)
  {
    CanonicalRuns(now);
    assert Lbas(now) + FreeList(t, skip, from, 0) == Lbas(now);
  }

  method AppendRun(extents: array<Extent>, count0: nat, run: Extent) returns (ok: bool, count: nat)
    requires extents.Length == MAX_EXTENTS && count0 <= MAX_EXTENTS
    modifies extents
    ensures ok <==> |WithRun(old(extents[..count0]), run)| <= MAX_EXTENTS
    ensures ok ==> count <= MAX_EXTENTS && extents[..count] == WithRun(old(extents[..count0]), run)
  {
    count := count0;
    if count > 0 && run.start == extents[count - 1].start + extents[count - 1].sectors {
      extents[count - 1] := Extent(extents[count - 1].start, extents[count - 1].sectors + run.sectors);
    } else {
      if count >= MAX_EXTENTS {
        return false, count;
      }
      extents[count] := run;
      count := count + 1;
    }
    return true, count;
  }

  /** One round of the growth loop: finds the next free run and appends it. */
  method TakeRun(t: seq<Entry>, extents: array<Extent>, count0: nat, from: nat, remaining: nat, skip: Option<nat>,
                 ghost was: seq<Extent>, ghost additional: nat)
    returns (ok: bool, count: nat, run: Extent)
    requires EndsFit(t)
    requires extents.Length == MAX_EXTENTS && count0 <= MAX_EXTENTS && remaining > 0
    requires GrowInv(t, skip, was, additional, extents[..count0], from, remaining)
    modifies extents
    ensures !ok ==> !Growable(t, skip, was, additional)
    ensures ok ==> count <= MAX_EXTENTS && 0 < run.sectors <= remaining
    ensures ok ==> GrowInv(t, skip, was, additional, extents[..count], run.start + run.sectors,
                           remaining - run.sectors)
  {
    ghost var now := extents[..count0];
    var found := FindFreeRun(t, from, remaining, skip);
    if found.None? {
      NoRunLeft(t, skip, was, additional, now, from, remaining);
      return false, count0, Extent(0, 0);
    }
    run := found.value;
    ok, count := AppendRun(extents, count0, run);
    if ok {
      GrowAdvances(t, skip, was, additional, now, from, remaining, run);
    } else {
      TooManyRuns(t, skip, was, additional, now, from, remaining, run);
    }
  }

  /** pfs_grow_extents: extends `extents[..count]` in place, coalescing into the last one. */
  method GrowExtents(t: seq<Entry>, extents: array<Extent>, count0: nat, additional: nat, skip: Option<nat>)
    returns (ok: bool, count: nat)
    requires EndsFit(t)
    requires extents.Length == MAX_EXTENTS && count0 <= MAX_EXTENTS
    requires Canonical(extents[..count0])
    modifies extents
    ensures ok <==> Growable(t, skip, old(extents[..count0]), additional)
    ensures ok ==> count <= MAX_EXTENTS && Canonical(extents[..count])
    ensures ok ==> Lbas(extents[..count]) ==
                   old(Lbas(extents[..count0]) + FreeList(t, skip, SearchStart(extents[..count0]), additional))
  {
    count := count0;
    var remaining: nat := additional;
    var searchFrom: nat := if count > 0 then extents[count - 1].start + extents[count - 1].sectors else DATA_START;
    ghost var was := extents[..count0];
    while remaining > 0
      invariant count <= MAX_EXTENTS
      invariant GrowInv(t, skip, was, additional, extents[..count], searchFrom, remaining)
    {
      var run;
      ok, count, run := TakeRun(t, extents, count, searchFrom, remaining, skip, was, additional);
      if !ok {
        return false, count;
      }
      remaining := remaining - run.sectors;
      searchFrom := run.start + run.sectors;
    }
    GrowDone(t, skip, was, additional, extents[..count], searchFrom);
    return true, count;
  }
}
