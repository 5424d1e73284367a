/** mem_alloc_pages, mem_map_pages and mem_unmap_pages of one process, and what its exit gives back. */
module ProcessMemory {
  import opened PageTables
  import opened PhysPages
  import opened PageOwners
  import opened Mappings
  import opened AddressSpaces
  import opened ProcessSpaces
  import opened Sparing
  import opened UserMemory

  const USER_HEAP_MAX_PAGES_PER_CALL := 4096
  const USER_MMAP_MAX_PAGES_PER_CALL := 16384

  lemma OutsideAll(maps: seq<Mapping>, guards: set<nat>, m: Mapping, p: nat)
    requires ApartFromAll(maps, guards, m) && p < m.pages
    ensures !Inside(maps, m.virt + p * PAGE_SIZE)
  {
    forall i | 0 <= i < |maps| && maps[i].used ensures !(maps[i].virt <= m.virt + p * PAGE_SIZE < EndOf(maps[i])) {
      assert Apart(maps[i], m);
    }
  }

  /** Handed-out addresses in no recorded run are unmapped. */
  lemma StillVacant(mem: Memory, pool: Pool, roles: Roles, k: nat, pid: nat, heapNext: nat, mmapNext: nat,
                    maps: seq<Mapping>, guards: set<nat>, m: Mapping)
    requires Owned(mem, pool, roles) && IsRole(roles, k, Table(0, []))
    requires MemoryOk(mem, roles, k, pid, heapNext, mmapNext, maps, guards)
    requires InHandedOut(pid, heapNext, mmapNext, m) && ApartFromAll(maps, guards, m)
    ensures RunVacant(mem, k, m.virt, m.pages)
  {
    hide Owned;
    forall p: nat | p < m.pages ensures Walk(mem, k, PageAt(m.virt, p)) == Unmapped {
      PageAligned(m.virt, p);
      OutsideAll(maps, guards, m, p);
      WindowExact(mem, pool, roles, k, pid, heapNext, mmapNext, maps, m.virt + p * PAGE_SIZE);
    }
    assert Limit(4) == 0x10_0000_0000;
  }

  /** The first unused record now has the run, all others are as they were. */
  predicate RecordAdded(maps: seq<Mapping>, maps': seq<Mapping>, m: Mapping) {
    exists slot :: 0 <= slot < |maps| && !maps[slot].used && (forall i :: 0 <= i < slot ==> maps[i].used)
                   && maps' == maps[slot := m]
  }

  predicate RecordStruck(maps: seq<Mapping>, maps': seq<Mapping>, m: Mapping) {
    exists slot :: 0 <= slot < |maps| && maps[slot] == m && maps' == maps[slot := NO_MAPPING]
  }

  /** The same runs are recorded in the same places. */
  predicate SameRecords(maps: seq<Mapping>, maps': seq<Mapping>) {
    |maps'| == |maps| && forall i :: 0 <= i < |maps| ==>
        maps'[i].used == maps[i].used && (maps[i].used ==> maps'[i] == maps[i])
  }

  /** The pages were free, and no more than four were taken for each of the run. */
  ghost predicate Paid(pool: Pool, pool': Pool, pages: nat) {
    FreeCount(pool') + pages <= FreeCount(pool) <= FreeCount(pool') + 4 * pages
  }

  predicate AllUsed(maps: seq<Mapping>) {
    forall i :: 0 <= i < |maps| ==> maps[i].used
  }

  class ProcessMemory {
    const vm: Vm
    const pid: nat
    var heapNext: nat
    var mmapNext: nat
    const mappings: array<Mapping>
    ghost var guards: set<nat>

    ghost predicate Valid()
      reads this, vm, mappings
    {
      && vm.Valid() && mappings.Length == PROCESS_MAPPING_MAX
      && MemoryOk(vm.mem, vm.roles, vm.kernelRoot, pid, heapNext, mmapNext, mappings[..], guards)
    }

    /** app_set_heap_window for a fresh process. */
    constructor (vm: Vm, pid: nat)
      requires vm.Valid() && pid < PID_LIMIT && Recorded(vm.roles, pid, [])
      ensures Valid() && this.vm == vm && this.pid == pid && fresh(mappings) && guards == {}
      ensures heapNext == HeapBase(pid) && mmapNext == MmapBase(pid) && forall m :: m in mappings[..] ==> !m.used
    {
      this.vm, this.pid := vm, pid;
      heapNext, mmapNext, guards := HeapBase(pid), MmapBase(pid), {};
      mappings := new Mapping[PROCESS_MAPPING_MAX](i => NO_MAPPING);
      new;
      hide Owned, Accounted, Recorded, MemoryOk;
      FreshMemory(vm.mem, vm.roles, vm.kernelRoot, pid, mappings[..]);
    }

    static lemma FreshMemory(mem: Memory, roles: Roles, k: nat, pid: nat, maps: seq<Mapping>)
      requires pid < PID_LIMIT && Recorded(roles, pid, []) && |maps| == PROCESS_MAPPING_MAX
      requires forall i :: 0 <= i < |maps| ==> !maps[i].used
      ensures MemoryOk(mem, roles, k, pid, HeapBase(pid), MmapBase(pid), maps, {})
    {
    }

    /** process_track_mapping. */
    method TrackMapping(virt: nat, pages: nat) returns (ok: bool, ghost slot: nat)
      modifies mappings
      ensures !ok ==> AllUsed(old(mappings[..])) && mappings[..] == old(mappings[..])
      ensures ok ==> slot < mappings.Length && !old(mappings[..])[slot].used
      ensures ok ==> mappings[..] == old(mappings[..])[slot := Mapping(true, virt, pages)]
      ensures ok ==> forall i :: 0 <= i < slot ==> old(mappings[..])[i].used
    {
      for i := 0 to mappings.Length
        invariant mappings[..] == old(mappings[..]) && forall j :: 0 <= j < i ==> mappings[j].used
      {
        if !mappings[i].used {
          mappings[i] := Mapping(true, virt, pages);
          return true, i;
        }
      }
      return false, 0;
    }

    /** process_untrack_mapping: strikes off the first record of exactly this run. */
    method UntrackMapping(virt: nat, pages: nat) returns (ok: bool, ghost slot: nat)
      modifies mappings
      ensures !ok ==> mappings[..] == old(mappings[..]) && Mapping(true, virt, pages) !in mappings[..]
      ensures ok ==> slot < mappings.Length && old(mappings[..])[slot] == Mapping(true, virt, pages)
      ensures ok ==> mappings[..] == old(mappings[..])[slot := NO_MAPPING]
    {
      for i := 0 to mappings.Length
        invariant mappings[..] == old(mappings[..]) && forall j :: 0 <= j < i ==>
          mappings[j] != Mapping(true, virt, pages)
      {
        if mappings[i].used && mappings[i].virt == virt && mappings[i].pages == pages {
          mappings[i] := NO_MAPPING;
          return true, i;
        }
      }
      return false, 0;
    }

    /** Recording and mapping a run that was just handed out; a run that cannot be mapped is struck off again. */
    method MapTracked(virt: nat, pages: nat) returns (ok: bool, ghost slot: nat)
      requires Valid() && InHandedOut(pid, heapNext, mmapNext, Mapping(true, virt, pages))
      requires ApartFromAll(mappings[..], guards, Mapping(true, virt, pages))
      modifies vm, mappings
      ensures Valid()
      ensures ok ==> RunMapped(old(vm.mem), old(vm.roles), vm.mem, vm.roles, vm.kernelRoot, virt, pages)
      ensures ok ==> RecordAdded(old(mappings[..]), mappings[..], Mapping(true, virt, pages))
      ensures ok ==> !AllUsed(old(mappings[..])) && Paid(old(vm.pool), vm.pool, pages)
      ensures !ok ==> SameRecords(old(mappings[..]), mappings[..])
      ensures !ok ==> SameWalks(old(vm.roles), old(vm.mem), vm.mem)
      ensures !ok ==> AllUsed(old(mappings[..])) || FreeCount(old(vm.pool)) < 4 * pages
      ensures Spares(Pages(pid), old(vm.roles), old(vm.mem), vm.roles, vm.mem, vm.kernelRoot, 0)
    {
      hide Owned, MemoryOk, RunMapped, SameWalks, NoneLost, RunVacant, MayTouchRun, Spares, RunIn;
      ghost var k := vm.kernelRoot;
      ghost var m := Mapping(true, virt, pages);
      ghost var mem0, pool0, roles0, maps := vm.mem, vm.pool, vm.roles, mappings[..];
      Bounds(mem0, roles0, k, pid, heapNext, mmapNext, maps, guards);
      RunTouchable(roles0, k, pid, heapNext, mmapNext, m);
      StillVacant(mem0, pool0, roles0, k, pid, heapNext, mmapNext, maps, guards, m);
      HandedOutIn(pid, heapNext, mmapNext, m);
      SameSame(mem0, roles0);
      NothingDone(Pages(pid), roles0, mem0, k, 0);
      ok, slot := TrackMapping(virt, pages);
      if !ok {
        return;
      }
      ok := vm.MapUserPages(vm.kernelRoot, virt, pages);
      OwnedParts(vm.mem, vm.pool, vm.roles);
      if ok {
        RunMappedSpares(Pages(pid), roles0, mem0, vm.roles, vm.mem, k, 0, virt, pages);
        MappedKeeps(mem0, roles0, vm.mem, vm.roles, k, pid, heapNext, mmapNext, maps, guards, slot, m);
      } else {
        NothingMappedSpares(Pages(pid), roles0, mem0, vm.pool, vm.roles, vm.mem, k, 0);
        assert mappings[..][slot] == m;
        var struck, at := UntrackMapping(virt, pages);
        Struck(maps, slot, m, at, pid, heapNext, mmapNext, guards);
        UnmappedKeeps(mem0, roles0, vm.mem, vm.pool, vm.roles, k, pid, heapNext, mmapNext, maps, guards, slot);
      }
    }

    static lemma SameSame(mem: Memory, roles: Roles)
      ensures SameWalks(roles, mem, mem)
    {
    }

    static lemma Bounds(mem: Memory, roles: Roles, k: nat, pid: nat, heapNext: nat, mmapNext: nat, maps: seq<Mapping>,
                        guards: set<nat>)
      requires MemoryOk(mem, roles, k, pid, heapNext, mmapNext, maps, guards)
      ensures BoundsOk(pid, heapNext, mmapNext) && MappingsOk(pid, heapNext, mmapNext, maps)
    {
    }

    /** The record struck off is the one just made. */
    static lemma Struck(maps: seq<Mapping>, slot: nat, m: Mapping, at: nat, pid: nat, heapNext: nat, mmapNext: nat,
                        guards: set<nat>)
      requires slot < |maps| && !maps[slot].used && m.used && ApartFromAll(maps, guards, m) && m.pages > 0
      requires at < |maps| && maps[slot := m][at] == m
      ensures at == slot && maps[slot := m][slot := NO_MAPPING] == maps[slot := NO_MAPPING]
    {
    }

    /** A bump pointer moved forward. */
    static lemma HandOut(mem: Memory, roles: Roles, k: nat, pid: nat, heapNext: nat, mmapNext: nat, maps: seq<Mapping>,
                         guards: set<nat>, heapNext': nat, mmapNext': nat)
      requires MemoryOk(mem, roles, k, pid, heapNext, mmapNext, maps, guards)
      requires heapNext <= heapNext' && mmapNext <= mmapNext' && BoundsOk(pid, heapNext', mmapNext')
      ensures MemoryOk(mem, roles, k, pid, heapNext', mmapNext', maps, guards)
    {
    }

    /** What lies beyond a bump pointer is apart from everything recorded or reserved. */
    static lemma Beyond(mem: Memory, roles: Roles, k: nat, pid: nat, heapNext: nat, mmapNext: nat, maps: seq<Mapping>,
                        guards: set<nat>, m: Mapping)
      requires MemoryOk(mem, roles, k, pid, heapNext, mmapNext, maps, guards)
      requires (HeapBase(pid) <= heapNext <= m.virt && EndOf(m) <= HeapBase(pid) + USER_HEAP_STRIDE)
               || (MmapBase(pid) <= mmapNext <= m.virt && EndOf(m) <= MmapBase(pid) + USER_MMAP_SIZE)
      ensures ApartFromAll(maps, guards, m)
    {
    }

    static lemma Aligned(base: nat, n: nat)
      requires base % PAGE_SIZE == 0
      ensures (base + n * PAGE_SIZE) % PAGE_SIZE == 0
    {
      PageAligned(base, n);
    }

    /** Whether the heap window has room for the request, which is then handed out for good. */
    predicate HeapGrants(pageCount: nat)
      reads this
    {
      0 < pageCount <= USER_HEAP_MAX_PAGES_PER_CALL
          && heapNext + pageCount * PAGE_SIZE <= HeapBase(pid) + USER_HEAP_STRIDE
    }

    predicate MmapGrants(pageCount: nat, flags: nat)
      reads this
    {
      0 < pageCount <= USER_MMAP_MAX_PAGES_PER_CALL && flags <= 1
          && mmapNext + (pageCount + 2 * flags) * PAGE_SIZE <= MmapBase(pid) + USER_MMAP_SIZE
    }

    /** abi_mem_alloc_pages: a fresh mapped run at the end of the heap, or 0. The addresses are handed out exactly if
        the window has room for them, mapped or not. */
    method MemAllocPages(pageCount: nat) returns (base: nat)
      requires Valid()
      modifies this, vm, mappings
      ensures Valid() && mmapNext == old(mmapNext) && guards == old(guards)
      ensures heapNext == old(heapNext) + if old(HeapGrants(pageCount)) then pageCount * PAGE_SIZE else 0
      ensures base != 0 ==> old(HeapGrants(pageCount)) && !AllUsed(old(mappings[..])) && base == old(heapNext)
      ensures base != 0 ==> RunMapped(old(vm.mem), old(vm.roles), vm.mem, vm.roles, vm.kernelRoot, base, pageCount)
      ensures base != 0 ==> Paid(old(vm.pool), vm.pool, pageCount)
      ensures base != 0 ==> RecordAdded(old(mappings[..]), mappings[..], Mapping(true, base, pageCount))
      ensures base == 0 ==> SameWalks(old(vm.roles), old(vm.mem), vm.mem)
      ensures base == 0 ==> SameRecords(old(mappings[..]), mappings[..])
      ensures base == 0 ==> !old(HeapGrants(pageCount)) || AllUsed(old(mappings[..]))
                            || FreeCount(old(vm.pool)) < 4 * pageCount
      ensures Spares(Pages(pid), old(vm.roles), old(vm.mem), vm.roles, vm.mem, vm.kernelRoot, 0)
    {
      hide Owned, MemoryOk, RunMapped, SameWalks, ApartFromAll, Spares;
      ghost var k := vm.kernelRoot;
      NothingDone(Pages(pid), vm.roles, vm.mem, k, 0);
      SameSame(vm.mem, vm.roles);
      Bounds(vm.mem, vm.roles, k, pid, heapNext, mmapNext, mappings[..], guards);
      if pageCount == 0 || pageCount > USER_HEAP_MAX_PAGES_PER_CALL {
        return 0;
      }
      base := heapNext;
      var next := heapNext + pageCount * PAGE_SIZE;
      if next > HeapBase(pid) + USER_HEAP_STRIDE {
        return 0;
      }
      Aligned(base, pageCount);
      Beyond(vm.mem, vm.roles, k, pid, heapNext, mmapNext, mappings[..], guards, Mapping(true, base, pageCount));
      HandOut(vm.mem, vm.roles, k, pid, heapNext, mmapNext, mappings[..], guards, next, mmapNext);
      heapNext := next;
      var ok, slot := MapTracked(base, pageCount);
      if !ok {
        return 0;
      }
    }

    /** abi_mem_map_pages: a fresh mapped run in the mmap window, between two reserved guard pages if asked. */
    method MemMapPages(pageCount: nat, flags: nat) returns (base: nat)
      requires Valid()
      modifies this, vm, mappings
      ensures Valid() && heapNext == old(heapNext)
      ensures mmapNext ==
        old(mmapNext) + if old(MmapGrants(pageCount, flags)) then (pageCount + 2 * flags) * PAGE_SIZE else 0
      ensures guards == if flags == 1 && old(MmapGrants(pageCount, flags))
        then old(guards) + {old(mmapNext), old(mmapNext) + PAGE_SIZE + pageCount * PAGE_SIZE} else old(guards)
      ensures base != 0 ==> old(MmapGrants(pageCount, flags)) && !AllUsed(old(mappings[..]))
      ensures base != 0 ==> base == old(mmapNext) + flags * PAGE_SIZE
      ensures base != 0 ==> RunMapped(old(vm.mem), old(vm.roles), vm.mem, vm.roles, vm.kernelRoot, base, pageCount)
      ensures base != 0 ==> Paid(old(vm.pool), vm.pool, pageCount)
      ensures base != 0 ==> RecordAdded(old(mappings[..]), mappings[..], Mapping(true, base, pageCount))
      ensures base == 0 ==> SameWalks(old(vm.roles), old(vm.mem), vm.mem)
      ensures base == 0 ==> SameRecords(old(mappings[..]), mappings[..])
      ensures base == 0 ==> !old(MmapGrants(pageCount, flags)) || AllUsed(old(mappings[..]))
                            || FreeCount(old(vm.pool)) < 4 * pageCount
      ensures Spares(Pages(pid), old(vm.roles), old(vm.mem), vm.roles, vm.mem, vm.kernelRoot, 0)
    {
      hide Owned, MemoryOk, RunMapped, SameWalks, ApartFromAll, Spares;
      ghost var k := vm.kernelRoot;
      NothingDone(Pages(pid), vm.roles, vm.mem, k, 0);
      SameSame(vm.mem, vm.roles);
      Bounds(vm.mem, vm.roles, k, pid, heapNext, mmapNext, mappings[..], guards);
      if pageCount == 0 || pageCount > USER_MMAP_MAX_PAGES_PER_CALL || flags > 1 {
        return 0;
      }
      var total := pageCount + 2 * flags;
      var reservation := mmapNext;
      var next := mmapNext + total * PAGE_SIZE;
      if next > MmapBase(pid) + USER_MMAP_SIZE {
        return 0;
      }
      base := reservation + flags * PAGE_SIZE;
      Reservation(pid, heapNext, reservation, pageCount, flags);
      ghost var m := Mapping(true, base, pageCount);
      Beyond(vm.mem, vm.roles, k, pid, heapNext, mmapNext, mappings[..], guards, m);
      HandOut(vm.mem, vm.roles, k, pid, heapNext, mmapNext, mappings[..], guards, heapNext, next);
      if flags == 1 {
        Reserve(vm.mem, vm.roles, k, pid, heapNext, reservation, next, mappings[..], guards, pageCount, old(vm.mem),
                old(vm.roles));
        guards := guards + {reservation, base + pageCount * PAGE_SIZE};
      }
      mmapNext := next;
      var ok, slot := MapTracked(base, pageCount);
      if !ok {
        return 0;
      }
    }

    /** The reservation and the run inside it lie in the mmap window. */
    static lemma Reservation(pid: nat, heapNext: nat, mmapNext: nat, pages: nat, flags: nat)
      requires BoundsOk(pid, heapNext, mmapNext) && pages > 0 && flags <= 1
      requires mmapNext + (pages + 2 * flags) * PAGE_SIZE <= MmapBase(pid) + USER_MMAP_SIZE
      ensures BoundsOk(pid, heapNext, mmapNext + (pages + 2 * flags) * PAGE_SIZE)
      ensures var m := Mapping(true, mmapNext + flags * PAGE_SIZE, pages);
        && InHandedOut(pid, heapNext, mmapNext + (pages + 2 * flags) * PAGE_SIZE, m)
        && mmapNext <= m.virt && EndOf(m) <= MmapBase(pid) + USER_MMAP_SIZE
    {
      Aligned(mmapNext, pages + 2 * flags);
      Aligned(mmapNext, flags);
    }

    /** The two guard pages of a reservation. */
    static lemma Reserve(mem: Memory, roles: Roles, k: nat, pid: nat, heapNext: nat, mmapNext: nat, next: nat,
                         maps: seq<Mapping>, guards: set<nat>, pages: nat, mem0: Memory, roles0: Roles)
      requires MemoryOk(mem0, roles0, k, pid, heapNext, mmapNext, maps, guards)
      requires MemoryOk(mem, roles, k, pid, heapNext, next, maps, guards)
      requires next == mmapNext + (pages + 2) * PAGE_SIZE && next <= MmapBase(pid) + USER_MMAP_SIZE
      ensures var guards' := guards + {mmapNext, mmapNext + PAGE_SIZE + pages * PAGE_SIZE};
        && MemoryOk(mem, roles, k, pid, heapNext, next, maps, guards')
        && ApartFromAll(maps, guards', Mapping(true, mmapNext + PAGE_SIZE, pages))
    {
      Aligned(mmapNext, pages + 1);
    }

    /** A guard page is never mapped. */
    lemma GuardUnmapped(g: nat)
      requires Valid() && g in guards
      ensures Walk(vm.mem, vm.kernelRoot, PathOf(g)) == Unmapped
    {
      WindowExact(vm.mem, vm.pool, vm.roles, vm.kernelRoot, pid, heapNext, mmapNext, mappings[..], g);
    }

    /** abi_mem_unmap_pages: only whole recorded runs can be unmapped. */
    method MemUnmapPages(address: nat, pageCount: nat) returns (status: int)
      requires Valid()
      modifies this, vm, mappings
      ensures Valid() && heapNext == old(heapNext) && mmapNext == old(mmapNext) && guards == old(guards)
      ensures status == if pageCount <= USER_MMAP_MAX_PAGES_PER_CALL
        && Mapping(true, address, pageCount) in old(mappings[..]) then 0 else -1
      ensures status == 0 ==>
        Emptied(old(vm.mem), old(vm.pool), old(vm.roles), vm.mem, vm.pool, vm.roles, vm.kernelRoot, address, pageCount)
      ensures status == 0 ==> RecordStruck(old(mappings[..]), mappings[..], Mapping(true, address, pageCount))
      ensures status == -1 ==> vm.mem == old(vm.mem) && vm.roles == old(vm.roles) && mappings[..] == old(mappings[..])
      ensures Spares(Pages(pid), old(vm.roles), old(vm.mem), vm.roles, vm.mem, vm.kernelRoot, 0)
    {
      hide Owned, MemoryOk, Emptied, MayTouchRun, Spares, RunIn;
      ghost var k := vm.kernelRoot;
      NothingDone(Pages(pid), vm.roles, vm.mem, k, 0);
      ghost var mem0, pool0, roles0, maps := vm.mem, vm.pool, vm.roles, mappings[..];
      Bounds(mem0, roles0, k, pid, heapNext, mmapNext, maps, guards);
      if address == 0 || pageCount == 0 || pageCount > USER_MMAP_MAX_PAGES_PER_CALL || address % PAGE_SIZE != 0 {
        return -1;
      }
      var struck, slot := UntrackMapping(address, pageCount);
      if !struck {
        return -1;
      }
      OwnedParts(mem0, pool0, roles0);
      RunTouchable(roles0, k, pid, heapNext, mmapNext, maps[slot]);
      HandedOutIn(pid, heapNext, mmapNext, maps[slot]);
      var reclaimed := vm.UnmapUserPages(vm.kernelRoot, address, pageCount);
      EmptiedSpares(Pages(pid), roles0, mem0, pool0, vm.roles, vm.mem, vm.pool, k, 0, address, pageCount);
      RemovedKeeps(mem0, pool0, roles0, vm.mem, vm.pool, vm.roles, k, pid, heapNext, mmapNext, maps, guards, slot);
      return 0;
    }
  }
}
