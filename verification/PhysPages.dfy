/** Physical pages: never-issued ranges and a bounded stack of returned pages. */
module PhysPages {
  import opened Common
  import opened PageTables

  const STACK_MAX := 4096
  const RANGES_MAX := 32

  datatype PageRange = PageRange(next: nat, end: nat)

  datatype Pool = Pool(ranges: seq<PageRange>, stack: seq<nat>)

  predicate Holds(r: PageRange, page: nat) {
    r.next <= page < r.end && page % PAGE_SIZE == 0
  }

  predicate InRanges(ranges: seq<PageRange>, page: nat) {
    exists i :: 0 <= i < |ranges| && Holds(ranges[i], page)
  }

  predicate IsFree(p: Pool, page: nat) {
    page in p.stack || InRanges(p.ranges, page)
  }

  predicate RangeOk(r: PageRange) {
    r.next % PAGE_SIZE == 0 && r.end % PAGE_SIZE == 0 && r.end <= ADDR_FRAMES * PAGE_SIZE
  }

  /** A returned page is on the stack once and in no range; ranges do not overlap. */
  predicate PoolInv(p: Pool) {
    && |p.stack| <= STACK_MAX
    && (forall i :: 0 <= i < |p.stack| ==> IsPage(p.stack[i]) && !InRanges(p.ranges, p.stack[i]))
    && (forall i, j :: 0 <= i < |p.stack| && 0 <= j < |p.stack| && i != j ==> p.stack[i] != p.stack[j])
    && (forall i :: 0 <= i < |p.ranges| ==> RangeOk(p.ranges[i]))
    && (forall i, j :: 0 <= i < |p.ranges| && 0 <= j < |p.ranges| && i != j ==>
          || p.ranges[i].end <= p.ranges[j].next || p.ranges[j].end <= p.ranges[i].next
          || p.ranges[i].next >= p.ranges[i].end || p.ranges[j].next >= p.ranges[j].end)
  }

  function FirstRange(ranges: seq<PageRange>, i: nat): (r: Option<nat>)
    requires i <= |ranges|
    ensures r.Some? ==> i <= r.value < |ranges| && ranges[r.value].next < ranges[r.value].end
    ensures r.None? ==> forall k :: i <= k < |ranges| ==> ranges[k].next >= ranges[k].end
    decreases |ranges| - i
  {
    if i == |ranges| then None
    else if ranges[i].next < ranges[i].end then Some(i)
    else FirstRange(ranges, i + 1)
  }

  function TakenFrom(r: PageRange): PageRange {
    PageRange(r.next + PAGE_SIZE, r.end)
  }

  /** alloc_page: the last returned page, else the next unissued one. */
  function Take(p: Pool): (Pool, Option<nat>) {
    if p.stack != [] then
      (Pool(p.ranges, p.stack[..|p.stack| - 1]), Some(p.stack[|p.stack| - 1]))
    else
      var i := FirstRange(p.ranges, 0);
      if i.None? then (p, None)
      else (Pool(p.ranges[i.value := TakenFrom(p.ranges[i.value])], []), Some(p.ranges[i.value].next))
  }

  /** free_page. */
  function Give(p: Pool, page: nat): (Pool, bool) {
    if page % PAGE_SIZE != 0 || |p.stack| >= STACK_MAX then (p, false)
    else (Pool(p.ranges, p.stack + [page]), true)
  }

  lemma TakeFromRange(ranges: seq<PageRange>, i: nat, page: nat)
    requires i < |ranges| && ranges[i].next < ranges[i].end && RangeOk(ranges[i])
    requires PoolInv(Pool(ranges, []))
    ensures InRanges(ranges[i := TakenFrom(ranges[i])], page) <==> InRanges(ranges, page) && page != ranges[i].next
  {
    var ranges' := ranges[i := TakenFrom(ranges[i])];
    if InRanges(ranges', page) {
      var k :| 0 <= k < |ranges'| && Holds(ranges'[k], page);
      assert Holds(ranges[k], page);
    }
    if InRanges(ranges, page) && page != ranges[i].next {
      var k :| 0 <= k < |ranges| && Holds(ranges[k], page);
      assert Holds(ranges'[k], page);
    }
  }

  /** Allocation fails only when nothing is free; otherwise exactly the page it returns stops being free. */
  lemma TakeExact(p: Pool)
    requires PoolInv(p)
    ensures var (p', r) := Take(p);
      && PoolInv(p')
      && (r.None? ==> p' == p && forall x :: !IsFree(p, x))
      && (r.Some? ==> IsPage(r.value) && IsFree(p, r.value)
                      && forall x :: IsFree(p', x) <==> IsFree(p, x) && x != r.value)
  {
    var (p', r) := Take(p);
    if p.stack != [] {
      var n := |p.stack| - 1;
      assert p.stack == p'.stack + [p.stack[n]];
    } else {
      var i := FirstRange(p.ranges, 0);
      if i.Some? {
        forall x ensures InRanges(p'.ranges, x) <==> InRanges(p.ranges, x) && x != r.value {
          TakeFromRange(p.ranges, i.value, x);
        }
        assert Holds(p.ranges[i.value], r.value);
      }
    }
  }

  /** Returning an issued page makes it free again exactly when the stack has room. */
  lemma GiveExact(p: Pool, page: nat)
    requires PoolInv(p) && IsPage(page) && !IsFree(p, page)
    ensures var (p', ok) := Give(p, page);
      && PoolInv(p')
      && (ok <==> |p.stack| < STACK_MAX)
      && (!ok ==> p' == p)
      && (ok ==> forall x :: IsFree(p', x) <==> IsFree(p, x) || x == page)
  {
  }

  /** A returned page is the next one handed out. */
  lemma TakeUndoesGive(p: Pool, page: nat)
    requires Give(p, page).1
    ensures Take(Give(p, page).0) == (p, Some(page))
  {
    assert (p.stack + [page])[..|p.stack|] == p.stack;
  }

  /** Whole pages of a stretch of memory: from the first page boundary up to the last. */
  function PagesUp(a: nat): (r: nat)
    ensures a <= r < a + PAGE_SIZE && r % PAGE_SIZE == 0
  {
    (a + PAGE_SIZE - 1) / PAGE_SIZE * PAGE_SIZE
  }

  function PagesDown(a: nat): (r: nat)
    ensures r <= a < r + PAGE_SIZE && r % PAGE_SIZE == 0
  {
    a / PAGE_SIZE * PAGE_SIZE
  }

  lemma PageInside(start: nat, end: nat, x: nat)
    requires x % PAGE_SIZE == 0
    ensures PagesUp(start) <= x < PagesDown(end) <==> start <= x && x + PAGE_SIZE <= end
  {
  }

  /** Ranges without a common page do not overlap. */
  lemma RangesApart(a: PageRange, b: PageRange)
    requires RangeOk(a) && RangeOk(b) && a.next < a.end && b.next < b.end && forall x: nat ::
      !(Holds(a, x) && Holds(b, x))
    ensures a.end <= b.next || b.end <= a.next
  {
    var x := if a.next < b.next then b.next else a.next;
    assert !(Holds(a, x) && Holds(b, x));
  }

  /** A range of pages none of which is free joins the pool. */
  lemma NewRange(p: Pool, r: PageRange)
    requires PoolInv(p) && RangeOk(r) && r.next < r.end && forall x: nat :: Holds(r, x) ==> !IsFree(p, x)
    ensures PoolInv(Pool(p.ranges + [r], p.stack))
    ensures forall x: nat :: IsFree(Pool(p.ranges + [r], p.stack), x) <==> IsFree(p, x) || Holds(r, x)
  {
    var ranges := p.ranges + [r];
    forall i | 0 <= i < |p.ranges| && p.ranges[i].next < p.ranges[i].end
      ensures p.ranges[i].end <= r.next || r.end <= p.ranges[i].next
    {
      forall x: nat | Holds(p.ranges[i], x) ensures InRanges(p.ranges, x) {}
      RangesApart(p.ranges[i], r);
    }
    forall x: nat ensures InRanges(ranges, x) <==> InRanges(p.ranges, x) || Holds(r, x) {
      if InRanges(p.ranges, x) {
        var i :| 0 <= i < |p.ranges| && Holds(p.ranges[i], x);
        assert Holds(ranges[i], x);
      }
      if Holds(r, x) {
        assert Holds(ranges[|p.ranges|], x);
      }
    }
    forall i | 0 <= i < |p.stack| ensures !InRanges(ranges, p.stack[i]) {
      assert IsFree(p, p.stack[i]);
    }
  }

  // ---- The allocator object ----

  /** Pages still in ranges. */
  function Unissued(ranges: seq<PageRange>): nat {
    if ranges == [] then 0
    else
      var r := ranges[|ranges| - 1];
      Unissued(ranges[..|ranges| - 1]) + if r.next < r.end then (r.end - r.next) / PAGE_SIZE else 0
  }

  lemma {:induction false} UnissuedStep(ranges: seq<PageRange>, i: nat)
    requires i < |ranges| && ranges[i].next < ranges[i].end && RangeOk(ranges[i])
    ensures Unissued(ranges) == Unissued(ranges[i := TakenFrom(ranges[i])]) + 1
  {
    var n := |ranges| - 1;
    var ranges' := ranges[i := TakenFrom(ranges[i])];
    if i == n {
      assert ranges'[..n] == ranges[..n];
    } else {
      assert ranges'[..n] == ranges[..n][i := TakenFrom(ranges[i])];
      UnissuedStep(ranges[..n], i);
    }
  }

  lemma {:induction false} NoneUnissued(ranges: seq<PageRange>)
    requires forall k :: 0 <= k < |ranges| ==> ranges[k].next >= ranges[k].end
    ensures Unissued(ranges) == 0
  {
    if ranges != [] {
      NoneUnissued(ranges[..|ranges| - 1]);
    }
  }

  /** Pages that can still be handed out. */
  function FreeCount(p: Pool): nat {
    |p.stack| + Unissued(p.ranges)
  }

  /** Each allocation uses up one page, and fails only when none is left. */
  lemma TakeCounts(p: Pool)
    requires PoolInv(p)
    ensures var (p', r) := Take(p);
      if r.Some? then FreeCount(p) == FreeCount(p') + 1 else FreeCount(p) == 0
  {
    if p.stack == [] {
      var i := FirstRange(p.ranges, 0);
      if i.Some? {
        UnissuedStep(p.ranges, i.value);
      } else {
        NoneUnissued(p.ranges);
      }
    }
  }

  class PhysPageAllocator {
    const ranges: array<PageRange>
    var rangeCount: nat
    var totalPages: nat
    var allocatedPages: nat
    const freeStack: array<nat>
    var freeCount: nat

    constructor ()
      ensures Valid() && Pages() == Pool([], []) && fresh(ranges) && fresh(freeStack)
    {
      ranges := new PageRange[RANGES_MAX](i => PageRange(0, 0));
      freeStack := new nat[STACK_MAX](i => 0);
      rangeCount, totalPages, allocatedPages, freeCount := 0, 0, 0, 0;
    }

    ghost predicate Shape()
      reads this
    {
      ranges.Length == RANGES_MAX && rangeCount <= RANGES_MAX && freeStack.Length == STACK_MAX && freeCount <= STACK_MAX
    }

    ghost function Pages(): Pool
      requires Shape()
      reads this, ranges, freeStack
    {
      Pool(ranges[..rangeCount], freeStack[..freeCount])
    }

    ghost predicate Valid()
      reads this, ranges, freeStack
    {
      Shape() && PoolInv(Pages())
    }

    /** Every page added is counted once: issued, on the stack, or not issued yet. */
    ghost predicate Balanced()
      requires Shape()
      reads this, ranges
    {
      totalPages == allocatedPages + freeCount + Unissued(ranges[..rangeCount])
    }

    /** add_range: the whole pages of a stretch become free, if there is room for one more range. */
    method AddRange(start: nat, end: nat)
      requires Valid() && end <= ADDR_FRAMES * PAGE_SIZE && forall x: nat :: start <= x < end ==> !IsFree(Pages(), x)
      modifies this, ranges
      ensures Valid()
      ensures forall x: nat :: IsFree(Pages(), x) <==>
        old(IsFree(Pages(), x))
            || (old(rangeCount) < RANGES_MAX && x % PAGE_SIZE == 0 && start <= x && x + PAGE_SIZE <= end)
      ensures old(Balanced()) ==> Balanced()
    {
      var first, last := PagesUp(start), PagesDown(end);
      if first >= last || rangeCount >= RANGES_MAX {
        return;
      }
      hide PoolInv, IsFree;
      ghost var before := Pages();
      forall x: nat | x % PAGE_SIZE == 0 {
        PageInside(start, end, x);
      }
      NewRange(before, PageRange(first, last));
      ranges[rangeCount] := PageRange(first, last);
      rangeCount := rangeCount + 1;
      totalPages := totalPages + (last - first) / PAGE_SIZE;
      assert ranges[..rangeCount] == before.ranges + [PageRange(first, last)];
      assert ranges[..rangeCount][..rangeCount - 1] == before.ranges;
    }

    method AllocPage() returns (r: Option<nat>)
      requires Valid()
      modifies this, ranges, freeStack
      ensures Valid()
      ensures (Pages(), r) == Take(old(Pages()))
      ensures old(Balanced()) ==> Balanced()
      ensures totalPages == old(totalPages)
    {
      TakeExact(Pages());
      if freeCount > 0 {
        freeCount := freeCount - 1;
        r := Some(freeStack[freeCount]);
        freeStack[freeCount] := 0;
        allocatedPages := allocatedPages + 1;
        assert freeStack[..freeCount] == old(freeStack[..freeCount])[..freeCount];
        return;
      }
      ghost var before := ranges[..rangeCount];
      for index := 0 to rangeCount
        invariant ranges[..rangeCount] == before && freeCount == 0 && freeCount == old(freeCount)
        invariant rangeCount == old(rangeCount) && allocatedPages == old(allocatedPages)
        invariant totalPages == old(totalPages)
        invariant FirstRange(before, 0) == FirstRange(before, index)
      {
        var range := ranges[index];
        if range.next < range.end {
          UnissuedStep(before, index);
          ranges[index] := TakenFrom(range);
          allocatedPages := allocatedPages + 1;
          assert ranges[..rangeCount] == before[index := TakenFrom(before[index])];
          return Some(range.next);
        }
      }
      return None;
    }

    method FreePage(page: nat) returns (ok: bool)
      requires Valid() && IsPage(page) && !IsFree(Pages(), page)
      modifies this, freeStack
      ensures Valid()
      ensures (Pages(), ok) == Give(old(Pages()), page)
      ensures old(Balanced()) && (ok ==> old(allocatedPages) > 0) ==> Balanced()
    {
      GiveExact(Pages(), page);
      if page % PAGE_SIZE != 0 || freeCount >= STACK_MAX {
        return false;
      }
      freeStack[freeCount] := page;
      freeCount := freeCount + 1;
      allocatedPages := if allocatedPages > 0 then allocatedPages - 1 else 0;
      assert freeStack[..freeCount] == old(freeStack[..freeCount]) + [page];
      return true;
    }
  }
}
