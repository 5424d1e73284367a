/** The user library's bump allocator over the pages the kernel grants. */
module UserHeap {
  import opened PageTables
  import opened PhysPages
  import opened PageOwners
  import opened Mappings
  import opened AddressSpaces
  import opened ProcessSpaces
  import opened ImagePages
  import opened UserMemory
  import opened Sparing
  import opened ProcessMemory

  const USIZE := 0x1_0000_0000_0000_0000
  const MIN_HEAP_CHUNK := 0x1_0000
  const ALIGN_MAX := 0x4000_0000_0000

  /** Rounding an address of any heap window up to an alignment of at most 2^46 stays below 2^64. */
  lemma AlignFits(pid: nat, a: nat, align: nat)
    requires pid < PID_LIMIT && a <= HeapBase(pid) + USER_HEAP_STRIDE && align <= ALIGN_MAX
    ensures a + align - 1 < USIZE
  {
  }

  /** The next power of two does not: from the start of every heap window it wraps around. */
  lemma AlignWraps(pid: nat)
    ensures HeapBase(pid) + 2 * ALIGN_MAX - 1 >= USIZE
  {
  }

  /** align_up for an alignment that is a power of two: the next multiple. */
  function AlignUp(value: nat, align: nat): (r: nat)
    requires align > 0
    ensures value <= r < value + align && r % align == 0
  {
    var k := (value + align - 1) / align;
    Multiple(k, align);
    k * align
  }

  /** And no smaller multiple will do. */
  lemma LeastMultiple(value: nat, align: nat, p: nat)
    requires align > 0 && value <= p && p % align == 0
    ensures AlignUp(value, align) <= p
  {
    var r := AlignUp(value, align);
    var a, b := p / align, r / align;
    assert p == align * a && r == align * b;
    MultiplesApart(align, a, b);
  }

  lemma MultiplesApart(d: nat, a: nat, b: nat)
    ensures if a < b then d * a + d <= d * b else d * b <= d * a
  {
    if a < b {
      AtLeastOne(d, b - a);
      assert d * b == d * a + d * (b - a);
    } else {
      assert d * a == d * b + d * (a - b);
    }
  }

  /** A block of this size and alignment fits at `p` into the room from `next` to `end`. */
  predicate FitsAt(next: nat, end: nat, size: nat, align: nat, p: nat)
    requires align > 0
  {
    next <= p && p % align == 0 && p + size <= end
  }

  ghost predicate Fits(next: nat, end: nat, size: nat, align: nat)
    requires align > 0
  {
    exists p: nat :: FitsAt(next, end, size, align, p)
  }

  /** `p` is the lowest place in the room where the block fits. */
  ghost predicate LowestFit(next: nat, end: nat, size: nat, align: nat, p: nat)
    requires align > 0
  {
    FitsAt(next, end, size, align, p) && forall q: nat :: FitsAt(next, end, size, align, q) ==> p <= q
  }

  lemma FitsIff(next: nat, end: nat, size: nat, align: nat)
    requires align > 0
    ensures Fits(next, end, size, align) <==> AlignUp(next, align) + size <= end
    ensures Fits(next, end, size, align) ==> LowestFit(next, end, size, align, AlignUp(next, align))
  {
    forall q: nat | FitsAt(next, end, size, align, q) ensures AlignUp(next, align) <= q {
      LeastMultiple(next, align, q);
    }
    if AlignUp(next, align) + size <= end {
      assert FitsAt(next, end, size, align, AlignUp(next, align));
    }
  }

  /** Pages of a new chunk: 64 KiB, or room for the block however its start has to be rounded. */
  function ChunkPages(size: nat, align: nat): nat {
    AlignUp(if size + align < MIN_HEAP_CHUNK then MIN_HEAP_CHUNK else size + align, PAGE_SIZE) / PAGE_SIZE
  }

  lemma AtLeastOne(a: nat, d: nat)
    requires d > 0
    ensures a * d >= a
  {
    assert a * d == a * (d - 1) + a;
  }

  lemma Multiple(k: nat, align: nat)
    requires align > 0
    ensures k * align % align == 0
  {
    var q, r := k * align / align, k * align % align;
    assert k * align == align * q + r;
    if k > q {
      assert r == align * (k - q);
      AtLeastOne(align, k - q);
    } else if k < q {
      assert align * (q - k) == -r;
      AtLeastOne(align, q - k);
    }
  }

  /** A run of mapped pages, or a block of bytes. */
  datatype Span = Span(start: nat, size: nat)

  function End(s: Span): nat {
    s.start + s.size
  }

  ghost predicate ChunkMapped(mem: Memory, k: nat, c: Span) {
    c.size % PAGE_SIZE == 0 && AllMapped(mem, k, c.start, c.size / PAGE_SIZE)
  }

  predicate Within(b: Span, c: Span) {
    c.start <= b.start && End(b) <= End(c)
  }

  /** Blocks lie in chunks, each after the one before. */
  ghost predicate BlocksOk(blocks: seq<Span>, chunks: seq<Span>, next: nat) {
    && (forall i :: 0 <= i < |blocks| ==>
         End(blocks[i]) <= next && exists c :: 0 <= c < |chunks| && Within(blocks[i], chunks[c]))
    && forall i, j :: 0 <= i < j < |blocks| ==> End(blocks[i]) <= blocks[j].start
  }

  /** The room left lies at the end of the last chunk, below everything the kernel has not handed out. */
  predicate RoomOk(chunks: seq<Span>, next: nat, end: nat, heapNext: nat) {
    && next <= end <= heapNext
    && (if chunks == [] then end == 0 else 0 < chunks[|chunks| - 1].start <= next && end == End(chunks[|chunks| - 1]))
  }

  lemma BlockFits(blocks: seq<Span>, chunks: seq<Span>, next: nat, b: Span)
    requires BlocksOk(blocks, chunks, next) && next <= b.start && chunks != [] && Within(b, chunks[|chunks| - 1])
    ensures BlocksOk(blocks + [b], chunks, End(b))
  {
    var all := blocks + [b];
    forall i | 0 <= i < |all|
      ensures End(all[i]) <= End(b) && exists c :: 0 <= c < |chunks| && Within(all[i], chunks[c])
    {
      if i < |blocks| {
        assert all[i] == blocks[i];
      } else {
        assert all[i] == b && Within(all[i], chunks[|chunks| - 1]);
      }
    }
  }

  lemma ChunkAdded(blocks: seq<Span>, chunks: seq<Span>, next: nat, c: Span)
    requires BlocksOk(blocks, chunks, next)
    ensures BlocksOk(blocks, chunks + [c], next)
  {
    var all := chunks + [c];
    forall i | 0 <= i < |blocks|
      ensures End(blocks[i]) <= next && exists d :: 0 <= d < |all| && Within(blocks[i], all[d])
    {
      var d :| 0 <= d < |chunks| && Within(blocks[i], chunks[d]);
      assert all[d] == chunks[d];
    }
  }

  lemma RunIsChunk(mem0: Memory, roles0: Roles, mem: Memory, roles: Roles, k: nat, base: nat, n: nat)
    requires IsTableRole(roles0, k, []) && RunMapped(mem0, roles0, mem, roles, k, base, n)
    ensures ChunkMapped(mem, k, Span(base, n * PAGE_SIZE))
  {
  }

  /** A chunk for size + align bytes has room for the block wherever the alignment puts it. */
  lemma ChunkSuffices(base: nat, size: nat, align: nat, chunkSize: nat)
    requires align > 0 && size + align <= chunkSize
    ensures AlignUp(base, align) + size <= base + AlignUp(chunkSize, PAGE_SIZE) / PAGE_SIZE * PAGE_SIZE
  {
    var r := AlignUp(chunkSize, PAGE_SIZE);
    assert r == r / PAGE_SIZE * PAGE_SIZE;
  }

  /** A chunk lies in the part of the heap window that was handed out. */
  predicate ChunkIn(pid: nat, heapNext: nat, c: Span) {
    HeapBase(pid) <= c.start && c.start % PAGE_SIZE == 0 && 0 < c.size && c.size % PAGE_SIZE == 0 && End(c) <= heapNext
  }

  ghost predicate HeapOk(mem: Memory, k: nat, pid: nat, heapNext: nat, next: nat, end: nat, blocks: seq<Span>,
                         chunks: seq<Span>) {
    && RoomOk(chunks, next, end, heapNext) && BlocksOk(blocks, chunks, next)
    && forall c :: 0 <= c < |chunks| ==> ChunkIn(pid, heapNext, chunks[c]) && ChunkMapped(mem, k, chunks[c])
  }

  /** Blocks are apart from each other, and every address of a block is mapped. */
  lemma BlocksMapped(mem: Memory, k: nat, pid: nat, heapNext: nat, next: nat, end: nat, blocks: seq<Span>,
                     chunks: seq<Span>, i: nat, a: nat)
    requires HeapOk(mem, k, pid, heapNext, next, end, blocks, chunks) && i < |blocks|
    requires blocks[i].start <= a < End(blocks[i])
    ensures Walk(mem, k, PathOf(a)).Frame?
    ensures forall j :: i < j < |blocks| ==> End(blocks[i]) <= blocks[j].start
  {
    var c :| 0 <= c < |chunks| && Within(blocks[i], chunks[c]);
    var n := (a - chunks[c].start) / PAGE_SIZE;
    var page := chunks[c].start + n * PAGE_SIZE;
    PageAligned(chunks[c].start, n);
    assert a / PAGE_SIZE == page / PAGE_SIZE;
    assert n < chunks[c].size / PAGE_SIZE;
    assert PathOf(a) == PageAt(chunks[c].start, n);
  }

  /** Chunks outlive whatever leaves the windows of the process alone. */
  lemma HeapKept(mem0: Memory, roles0: Roles, mem: Memory, roles: Roles, k: nat, pid: nat, heapNext: nat, next: nat,
                 end: nat, blocks: seq<Span>, chunks: seq<Span>)
    requires HeapOk(mem0, k, pid, heapNext, next, end, blocks, chunks) && pid < PID_LIMIT
    requires heapNext <= HeapBase(pid) + USER_HEAP_STRIDE && RegionKept(Pages(pid), roles0, mem0, roles, mem, k)
    ensures HeapOk(mem, k, pid, heapNext, next, end, blocks, chunks)
  {
    forall c, i: nat | 0 <= c < |chunks| && i < chunks[c].size / PAGE_SIZE
      ensures Walk(mem, k, PageAt(chunks[c].start, i)).Frame?
    {
      assert ChunkIn(pid, heapNext, chunks[c]) && ChunkMapped(mem0, k, chunks[c]);
      PageAligned(chunks[c].start, i);
      WindowPage(pid, chunks[c].start + i * PAGE_SIZE);
    }
  }

  /** And whatever the process itself maps. */
  lemma HeapOutlasts(mem0: Memory, roles0: Roles, mem: Memory, roles: Roles, k: nat, pid: nat, heapNext0: nat,
                     heapNext: nat, next: nat, end: nat, blocks: seq<Span>, chunks: seq<Span>, base: nat, n: nat)
    requires HeapOk(mem0, k, pid, heapNext0, next, end, blocks, chunks) && heapNext0 <= heapNext
    requires IsTableRole(roles0, k, [])
    requires SameWalks(roles0, mem0, mem) || RunMapped(mem0, roles0, mem, roles, k, base, n)
    ensures HeapOk(mem, k, pid, heapNext, next, end, blocks, chunks)
  {
    forall c, i: nat | 0 <= c < |chunks| && i < chunks[c].size / PAGE_SIZE
      ensures Walk(mem, k, PageAt(chunks[c].start, i)).Frame?
    {
      assert ChunkIn(pid, heapNext0, chunks[c]) && ChunkMapped(mem0, k, chunks[c]);
      assert Starts(roles0, k, PageAt(chunks[c].start, i));
    }
  }

  /** And the unmapping of any recorded run that is not one of them. */
  lemma HeapSurvivesUnmap(mem0: Memory, pool0: Pool, roles0: Roles, mem: Memory, pool: Pool, roles: Roles, k: nat,
                          pid: nat, heapNext: nat, mmapNext: nat, next: nat, end: nat, blocks: seq<Span>,
                          chunks: seq<Span>, m: Mapping)
    requires TreeOk(mem0, roles0) && IsRole(roles0, k, Table(0, [])) && BoundsOk(pid, heapNext, mmapNext)
    requires HeapOk(mem0, k, pid, heapNext, next, end, blocks, chunks) && InHandedOut(pid, heapNext, mmapNext, m)
    requires forall c :: 0 <= c < |chunks| ==> Apart(RunOf(chunks[c]), m)
    requires Emptied(mem0, pool0, roles0, mem, pool, roles, k, m.virt, m.pages)
    ensures HeapOk(mem, k, pid, heapNext, next, end, blocks, chunks)
  {
    forall c, i: nat | 0 <= c < |chunks| && i < chunks[c].size / PAGE_SIZE
      ensures Walk(mem, k, PageAt(chunks[c].start, i)).Frame?
    {
      assert ChunkIn(pid, heapNext, chunks[c]) && ChunkMapped(mem0, k, chunks[c]);
      var path := PageAt(chunks[c].start, i);
      assert Starts(roles0, k, path);
      if SharesAny(mem0, k, m.virt, m.pages, k, path) {
        SharerPage(mem0, roles0, k, m.virt, m.pages, k, path);
        var j: nat :| j < m.pages && PageAt(m.virt, j) == path;
        ChunkRun(pid, heapNext, mmapNext, chunks[c]);
        ApartPages(pid, heapNext, mmapNext, RunOf(chunks[c]), m, i, j);
      }
    }
  }

  /** A block at the first fitting address of the room left. */
  lemma HeapBumped(mem: Memory, k: nat, pid: nat, heapNext: nat, next: nat, end: nat, blocks: seq<Span>,
                   chunks: seq<Span>, b: Span)
    requires HeapOk(mem, k, pid, heapNext, next, end, blocks, chunks) && next <= b.start && End(b) <= end && 0 < b.size
    ensures HeapOk(mem, k, pid, heapNext, End(b), end, blocks + [b], chunks)
  {
    BlockFits(blocks, chunks, next, b);
  }

  /** A block in a chunk the kernel has just granted at the end of the heap. */
  lemma HeapRefilled(mem0: Memory, roles0: Roles, mem: Memory, roles: Roles, k: nat, pid: nat, heapNext0: nat,
                     next: nat, end: nat, blocks: seq<Span>, chunks: seq<Span>, pages: nat, b: Span)
    requires HeapOk(mem0, k, pid, heapNext0, next, end, blocks, chunks) && IsTableRole(roles0, k, [])
    requires RunMapped(mem0, roles0, mem, roles, k, heapNext0, pages) && pages > 0
    requires HeapBase(pid) <= heapNext0 && heapNext0 % PAGE_SIZE == 0
    requires heapNext0 <= b.start && End(b) <= heapNext0 + pages * PAGE_SIZE
    ensures HeapOk(mem, k, pid, heapNext0 + pages * PAGE_SIZE, End(b), heapNext0 + pages * PAGE_SIZE, blocks + [b],
                   chunks + [Span(heapNext0, pages * PAGE_SIZE)])
  {
    var chunk := Span(heapNext0, pages * PAGE_SIZE);
    HeapOutlasts(mem0, roles0, mem, roles, k, pid, heapNext0, heapNext0 + pages * PAGE_SIZE, next, end, blocks, chunks,
                 heapNext0, pages);
    RunIsChunk(mem0, roles0, mem, roles, k, heapNext0, pages);
    ChunkAdded(blocks, chunks, next, chunk);
    BlockFits(blocks, chunks + [chunk], next, b);
    PageAligned(0, pages);
  }

  /** A chunk as the run the kernel granted. */
  function RunOf(c: Span): Mapping {
    Mapping(true, c.start, c.size / PAGE_SIZE)
  }

  lemma ChunkRun(pid: nat, heapNext: nat, mmapNext: nat, c: Span)
    requires ChunkIn(pid, heapNext, c)
    ensures InHandedOut(pid, heapNext, mmapNext, RunOf(c)) && EndOf(RunOf(c)) == End(c)
  {
    assert c.size == c.size / PAGE_SIZE * PAGE_SIZE;
  }

  class BumpAllocator {
    const memory: ProcessMemory
    var base: nat
    var next: nat
    var end: nat
    var granted: nat
    ghost var blocks: seq<Span>
    var chunks: seq<Span>  // kept for the statements here; the library forgets them

    constructor (memory: ProcessMemory)
      requires memory.Valid()
      ensures Valid() && this.memory == memory && blocks == []
    {
      this.memory := memory;
      base, next, end, granted, blocks, chunks := 0, 0, 0, 0, [], [];
    }

    ghost predicate Valid()
      reads this, memory, memory.vm, memory.mappings
    {
      memory.Valid()
          && HeapOk(memory.vm.mem, memory.vm.kernelRoot, memory.pid, memory.heapNext, next, end, blocks, chunks)
    }

    /** alloc: the lowest place in the room left, if there is one; else in a new chunk at the end of the heap, if the
        kernel grants it. */
    method Alloc(size: nat, align: nat) returns (ptr: nat)
      requires Valid() && 0 < size && 0 < align <= ALIGN_MAX
      modifies this, memory, memory.vm, memory.mappings
      ensures Valid() && memory.guards == old(memory.guards)
      ensures ptr != 0 ==> blocks == old(blocks) + [Span(ptr, size)] && next == ptr + size
      ensures ptr == 0 ==> blocks == old(blocks) && next == old(next)
      ensures old(Fits(next, end, size, align)) ==> ptr != 0 && old(LowestFit(next, end, size, align, ptr))
      ensures old(Fits(next, end, size, align)) ==> unchanged(this`base, this`end, this`granted, this`chunks)
      ensures old(Fits(next, end, size, align)) ==> unchanged(memory, memory.vm, memory.mappings)
      ensures !old(Fits(next, end, size, align)) ==>
        Refilled(size, align, ptr, old(memory.heapNext), old(base), old(end), old(granted), old(chunks))
      ensures ptr == 0 ==>
        || old(next) + align + size >= USIZE || size + align >= USIZE
             || !old(memory.HeapGrants(ChunkPages(size, align)))
        || AllUsed(old(memory.mappings[..])) || FreeCount(old(memory.vm.pool)) < 4 * ChunkPages(size, align)
      ensures Spares(Pages(memory.pid), old(memory.vm.roles), old(memory.vm.mem), memory.vm.roles, memory.vm.mem,
        memory.vm.kernelRoot, 0)
    {
      hide Spares, HeapOk, Owned, MemoryOk, Fits, LowestFit;
      HeapStarts(memory.vm.mem, memory.vm.kernelRoot, memory.pid, memory.heapNext, next, end, blocks, chunks);
      NothingDone(Pages(memory.pid), memory.vm.roles, memory.vm.mem, memory.vm.kernelRoot, 0);
      FitsIff(next, end, size, align);
      EndBounded(memory.vm.mem, memory.vm.roles, memory.vm.kernelRoot, memory.pid, memory.heapNext, memory.mmapNext,
                 memory.mappings[..], memory.guards);
      var aligned := AlignUp(next, align);
      if aligned + size >= USIZE {
        return 0;
      }
      if aligned + size <= end {
        HeapBumped(memory.vm.mem, memory.vm.kernelRoot, memory.pid, memory.heapNext, next, end, blocks, chunks,
                   Span(aligned, size));
        blocks := blocks + [Span(aligned, size)];
        next := aligned + size;
        return aligned;
      }
      if size + align >= USIZE {
        return 0;
      }
      ptr := Refill(size, align);
    }

    /** What a call that asked for a new chunk leaves: the block at the first multiple in the chunk, which is the room
        now, or all as it was. */
    ghost predicate Refilled(size: nat, align: nat, ptr: nat, heapNext0: nat, base0: nat, end0: nat, granted0: nat,
                             chunks0: seq<Span>)
      requires align > 0
      reads this, memory
    {
      var bytes := ChunkPages(size, align) * PAGE_SIZE;
      if ptr == 0 then base == base0 && end == end0 && granted == granted0 && chunks == chunks0
      else
        && LowestFit(heapNext0, heapNext0 + bytes, size, align, ptr)
        && memory.heapNext == end == heapNext0 + bytes && chunks == chunks0 + [Span(heapNext0, bytes)]
        && granted == granted0 + bytes && base == if base0 == 0 then heapNext0 else base0
    }

    /** The second half of alloc: a new chunk, and the block at its start. */
    method Refill(size: nat, align: nat) returns (ptr: nat)
      requires Valid() && 0 < size && 0 < align <= ALIGN_MAX && size + align < USIZE
      modifies this, memory, memory.vm, memory.mappings
      ensures Valid() && memory.guards == old(memory.guards)
      ensures ptr != 0 ==> blocks == old(blocks) + [Span(ptr, size)] && next == ptr + size
      ensures ptr == 0 ==> blocks == old(blocks) && next == old(next)
      ensures Refilled(size, align, ptr, old(memory.heapNext), old(base), old(end), old(granted), old(chunks))
      ensures ptr == 0 ==>
        || !old(memory.HeapGrants(ChunkPages(size, align))) || AllUsed(old(memory.mappings[..]))
        || FreeCount(old(memory.vm.pool)) < 4 * ChunkPages(size, align)
      ensures Spares(Pages(memory.pid), old(memory.vm.roles), old(memory.vm.mem), memory.vm.roles, memory.vm.mem,
        memory.vm.kernelRoot, 0)
    {
      hide RunMapped, Owned, MemoryOk, SameWalks, HeapOk, AllUsed, Spares, Fits, LowestFit;
      var chunkSize := if size + align < MIN_HEAP_CHUNK then MIN_HEAP_CHUNK else size + align;
      var pages := AlignUp(chunkSize, PAGE_SIZE) / PAGE_SIZE;
      assert pages == ChunkPages(size, align);
      ghost var mem0, roles0, k, pid, before := memory.vm.mem, memory.vm.roles, memory.vm.kernelRoot, memory.pid,
          memory.heapNext;
      MemoryBounds(mem0, roles0, k, pid, before, memory.mmapNext, memory.mappings[..], memory.guards);
      HeapStarts(mem0, k, pid, before, next, end, blocks, chunks);
      var start := memory.MemAllocPages(pages);
      if start == 0 {
        HeapOutlasts(mem0, roles0, memory.vm.mem, memory.vm.roles, k, pid, before, memory.heapNext, next, end, blocks,
                     chunks, 0, 0);
        return 0;
      }
      ChunkSuffices(start, size, align, chunkSize);
      FitsIff(start, start + pages * PAGE_SIZE, size, align);
      ptr := AlignUp(start, align);
      HeapRefilled(mem0, roles0, memory.vm.mem, memory.vm.roles, k, pid, before, next, end, blocks, chunks, pages,
                   Span(ptr, size));
      if base == 0 {
        base := start;
      }
      next := ptr + size;
      end := start + pages * PAGE_SIZE;
      granted := granted + pages * PAGE_SIZE;
      chunks := chunks + [Span(start, pages * PAGE_SIZE)];
      blocks := blocks + [Span(ptr, size)];
    }
  }

  /** The room ends far below 2^64. */
  lemma EndBounded(mem: Memory, roles: Roles, k: nat, pid: nat, heapNext: nat, mmapNext: nat, maps: seq<Mapping>,
                   guards: set<nat>)
    requires MemoryOk(mem, roles, k, pid, heapNext, mmapNext, maps, guards)
    ensures heapNext < USIZE
  {
  }

  lemma HeapStarts(mem: Memory, k: nat, pid: nat, heapNext: nat, next: nat, end: nat, blocks: seq<Span>,
                   chunks: seq<Span>)
    requires HeapOk(mem, k, pid, heapNext, next, end, blocks, chunks)
    ensures next <= end <= heapNext && (end > 0 ==> next > 0)
  {
  }

  lemma MemoryBounds(mem: Memory, roles: Roles, k: nat, pid: nat, heapNext: nat, mmapNext: nat, maps: seq<Mapping>,
                     guards: set<nat>)
    requires MemoryOk(mem, roles, k, pid, heapNext, mmapNext, maps, guards)
    ensures BoundsOk(pid, heapNext, mmapNext) && HeapBase(pid) > 0
  {
  }
}
