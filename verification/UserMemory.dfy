/** Heap and mmap pages of one process: bump windows, and a table recording every run mapped in them. */
module UserMemory {
  import opened PageTables
  import opened PhysPages
  import opened PageOwners
  import opened Mappings
  import opened AddressSpaces
  import opened ProcessSpaces
  import opened WindowTables

  datatype Mapping = Mapping(used: bool, virt: nat, pages: nat)

  const NO_MAPPING := Mapping(false, 0, 0)
  const USER_MMAP_SIZE := 0x3000_0000

  // ---- Windows as address ranges ----

  lemma HeapSlots(pid: nat, j: nat)
    requires pid < PID_LIMIT && j < HEAP_SLOTS
    ensures (128 * pid + j) / 512 == pid / 4 && (128 * pid + j) % 512 == pid % 4 * HEAP_SLOTS + j
  {
    var r := pid % 4;
    assert 128 * pid + j == 512 * (pid / 4) + (128 * r + j);
  }

  lemma HeapQuotients(pid: nat, a: nat, j: nat)
    requires pid < PID_LIMIT && j < HEAP_SLOTS && a / 0x20_0000 == 0x7FF_FC80_0000 + (128 * pid + j)
    ensures a / 0x20_0000 % ENTRIES == pid % 4 * HEAP_SLOTS + j
    ensures a / 0x4000_0000 % ENTRIES == pid / 4 % ENTRIES
    ensures a / 0x80_0000_0000 % ENTRIES == 288 + pid / 2048
  {
    HeapSlots(pid, j);
    var x := 128 * pid + j;
    assert a / 0x4000_0000 == a / 0x20_0000 / 512;
    assert a / 0x4000_0000 == 0x3_FFFE_4000 + x / 512;
    assert a / 0x80_0000_0000 == a / 0x4000_0000 / 512;
    assert a / 0x80_0000_0000 == 0x1FF_FF20 + pid / 2048;
  }

  lemma HeapAddress(pid: nat, a: nat)
    requires pid < PID_LIMIT && HeapBase(pid) <= a < HeapBase(pid) + USER_HEAP_STRIDE
    ensures InHeap(pid, PathOf(a)) && PathOf(a)[0] >= SHARED_TOP
  {
    var j := (a - HeapBase(pid)) / 0x20_0000;
    HeapQuotients(pid, a, j);
    HeapIndices(pid);
    PathOfBits(a);
    assert PathOf(a)[..2] == HeapDir(pid);
  }

  lemma MmapAddress(pid: nat, a: nat)
    requires pid < PID_LIMIT && MmapBase(pid) <= a < MmapBase(pid) + USER_MMAP_STRIDE
    ensures InMmap(pid, PathOf(a)) && PathOf(a)[0] >= SHARED_TOP
  {
    MmapIndices(pid);
    PathOfBits(a);
    MmapQuotients(pid, a);
    assert PathOf(a)[..2] == MmapDir(pid);
  }

  lemma MmapQuotients(pid: nat, a: nat)
    requires pid < PID_LIMIT && MmapBase(pid) <= a < MmapBase(pid) + USER_MMAP_STRIDE
    ensures a / 0x80_0000_0000 % ENTRIES == 320 + pid / 512 && a / 0x4000_0000 % ENTRIES == pid % 512
  {
    assert a / 0x4000_0000 == 0x3_FFFE_8000 + pid;
    assert a / 0x80_0000_0000 == a / 0x4000_0000 / 512;
    assert a / 0x80_0000_0000 == 0x1FF_FF40 + pid / 512;
  }

  lemma StackAddress(pid: nat, a: nat)
    requires pid < PID_LIMIT && StackBase(pid) <= a < StackBase(pid) + KERNEL_STACK_STRIDE
    ensures InStack(pid, PathOf(a)) && PathOf(a)[0] >= SHARED_TOP
  {
    StackIndices(pid);
    PathOfBits(a);
    assert a / 0x20_0000 == 0x7FF_FD80_0000 + pid;
    assert a / 0x4000_0000 == 0x3_FFFE_C000 + pid / 512;
    assert a / 0x80_0000_0000 == 0x1FF_FF60;
  }

  // ---- The mapping table ----

  const PROCESS_MAPPING_MAX := 64

  function EndOf(m: Mapping): nat {
    m.virt + m.pages * PAGE_SIZE
  }

  predicate BoundsOk(pid: nat, heapNext: nat, mmapNext: nat) {
    && pid < PID_LIMIT && heapNext % PAGE_SIZE == 0 && mmapNext % PAGE_SIZE == 0
    && HeapBase(pid) <= heapNext <= HeapBase(pid) + USER_HEAP_STRIDE
    && MmapBase(pid) <= mmapNext <= MmapBase(pid) + USER_MMAP_SIZE
  }

  /** A recorded run lies in the part of a window that was handed out. */
  predicate InHandedOut(pid: nat, heapNext: nat, mmapNext: nat, m: Mapping) {
    && m.virt % PAGE_SIZE == 0 && m.pages > 0
    && ((HeapBase(pid) <= m.virt && EndOf(m) <= heapNext) || (MmapBase(pid) <= m.virt && EndOf(m) <= mmapNext))
  }

  predicate Apart(m: Mapping, n: Mapping) {
    EndOf(m) <= n.virt || EndOf(n) <= m.virt
  }

  predicate MappingsOk(pid: nat, heapNext: nat, mmapNext: nat, maps: seq<Mapping>) {
    && (forall i :: 0 <= i < |maps| && maps[i].used ==> InHandedOut(pid, heapNext, mmapNext, maps[i]))
    && (forall i, j :: 0 <= i < j < |maps| && maps[i].used && maps[j].used ==> Apart(maps[i], maps[j]))
  }

  predicate InOwnWindows(pid: nat, place: Path) {
    InHeap(pid, place) || InMmap(pid, place)
  }

  ghost predicate RecordedIn(role: Role, maps: seq<Mapping>) {
    exists i :: 0 <= i < |maps| && maps[i].used && InRun(role, 0, maps[i].virt, maps[i].pages)
  }

  /** Every page in use in the two windows belongs to a recorded run. */
  ghost predicate Recorded(roles: Roles, pid: nat, maps: seq<Mapping>) {
    forall q :: q in roles && roles[q].Data? && InOwnWindows(pid, roles[q].place) ==> RecordedIn(roles[q], maps)
  }

  /** Every page of a recorded run is mapped. */
  ghost predicate Backed(mem: Memory, k: nat, maps: seq<Mapping>) {
    forall i, p: nat :: 0 <= i < |maps| && maps[i].used && p < maps[i].pages ==>
        Walk(mem, k, PageAt(maps[i].virt, p)).Frame?
  }

  /** Reserved guard pages are handed out but in no recorded run. */
  ghost predicate GuardsOk(pid: nat, mmapNext: nat, maps: seq<Mapping>, guards: set<nat>) {
    forall g :: g in guards ==>
      && g % PAGE_SIZE == 0 && MmapBase(pid) <= g && g + PAGE_SIZE <= mmapNext
      && forall i :: 0 <= i < |maps| && maps[i].used ==> Apart(Mapping(true, g, 1), maps[i])
  }

  // ---- From places back to addresses ----

  lemma InWindow(pid: nat, a: nat)
    requires pid < PID_LIMIT
    requires HeapBase(pid) <= a < HeapBase(pid) + USER_HEAP_STRIDE
      || MmapBase(pid) <= a < MmapBase(pid) + USER_MMAP_STRIDE
    ensures InOwnWindows(pid, PathOf(a)) && PathOf(a)[0] >= SHARED_TOP
  {
    if a < HeapBase(pid) + USER_HEAP_STRIDE && HeapBase(pid) <= a {
      HeapAddress(pid, a);
    } else {
      MmapAddress(pid, a);
    }
  }

  /** Page addresses of the windows are told apart by their paths. */
  lemma PathAddress(a: nat, b: nat)
    requires a % PAGE_SIZE == 0 && b % PAGE_SIZE == 0 && PathOf(a) == PathOf(b)
    requires USER_HEAP_BASE <= a < USER_HEAP_BASE + 0x1_0000_0000_0000
    requires USER_HEAP_BASE <= b < USER_HEAP_BASE + 0x1_0000_0000_0000
    ensures a == b
  {
    assert Limit(4) == 0x10_0000_0000;
    DigitsInjective(a / PAGE_SIZE, b / PAGE_SIZE, 4);
  }

  lemma EndsMeet(page: Path, place: Path, q: Path)
    requires page != [] && q != [] && Front(page) == place + Front(q) && page[|page| - 1] == q[|q| - 1]
    ensures page == place + q
  {
    assert page == Front(page) + [page[|page| - 1]] && q == Front(q) + [q[|q| - 1]];
    assert place + q == (place + Front(q)) + [q[|q| - 1]];
  }

  /** Walks that share an entry lead to the same address. */
  lemma SharesPlace(mem: Memory, roles: Roles, k: nat, page: Path, table: nat, q: Path)
    requires TreeOk(mem, roles) && IsTableRole(roles, k, []) && |page| == 4 && Starts(roles, table, q)
    requires Shares(mem, k, page, table, q)
    ensures page == roles[table].place + q
  {
    hide TreeOk, TableOk, LinkOk;
    ReachedRole(mem, roles, k, Front(page));
    ReachedRole(mem, roles, table, Front(q));
    EndsMeet(page, roles[table].place, q);
  }

  /** A walk that shares an entry of a run leads to an address of the run. */
  lemma SharerPlace(mem: Memory, roles: Roles, k: nat, base: nat, n: nat, table: nat, q: Path)
    requires TreeOk(mem, roles) && IsTableRole(roles, k, []) && Starts(roles, table, q)
    requires SharesAny(mem, k, base, n, table, q)
    ensures exists i: nat :: i < n && PageAt(base, i) == roles[table].place + q
  {
    hide TreeOk;
    var i: nat :| i < n && Shares(mem, k, PageAt(base, i), table, q);
    SharesPlace(mem, roles, k, PageAt(base, i), table, q);
  }

  /** And from a root to a page of the run. */
  lemma SharerPage(mem: Memory, roles: Roles, k: nat, base: nat, n: nat, root: nat, path: Path)
    requires TreeOk(mem, roles) && IsTableRole(roles, k, []) && IsTableRole(roles, root, []) && |path| == 4
    requires SharesAny(mem, k, base, n, root, path)
    ensures exists i: nat :: i < n && PageAt(base, i) == path
  {
    hide TreeOk, SharesAny;
    assert Starts(roles, root, path) && roles[root].place + path == path;
    SharerPlace(mem, roles, k, base, n, root, path);
  }

  /** Runs apart have different pages. */
  lemma ApartPages(pid: nat, heapNext: nat, mmapNext: nat, m: Mapping, n: Mapping, i: nat, j: nat)
    requires BoundsOk(pid, heapNext, mmapNext) && InHandedOut(pid, heapNext, mmapNext, m)
    requires InHandedOut(pid, heapNext, mmapNext, n)
    requires Apart(m, n) && i < m.pages && j < n.pages
    ensures PageAt(m.virt, i) != PageAt(n.virt, j)
  {
    PageAligned(m.virt, i);
    PageAligned(n.virt, j);
    if PageAt(m.virt, i) == PageAt(n.virt, j) {
      PathAddress(m.virt + i * PAGE_SIZE, n.virt + j * PAGE_SIZE);
    }
  }

  /** A page seen at an address the kernel maps itself is the page of that owner and place, */
  lemma MappedIsData(mem: Memory, pool: Pool, roles: Roles, root: nat, path: Path)
    requires Owned(mem, pool, roles) && MayTouch(roles, root, path) && Walk(mem, root, path).Frame?
    ensures IsRole(roles, Walk(mem, root, path).page, Data(roles[root].owner, path))
  {
    assert Front(path) == path[..3];
    WalkSplits(mem, root, path);
    OwnTable(mem, roles, root, path, 3);
    var pt := TableAt(mem, root, path[..3]).value;
    assert LeavesOkAt(mem, roles, pt) && LeafOk(mem, roles, pt, path[3]);
    assert Below(path[..3], path[3]) == path;
  }

  /** so that no page is seen twice: not at two addresses, and not by two processes in their images. */
  lemma PagesApart(mem: Memory, pool: Pool, roles: Roles, a: nat, path: Path, b: nat, path': Path)
    requires Owned(mem, pool, roles) && MayTouch(roles, a, path) && MayTouch(roles, b, path')
    requires Walk(mem, a, path).Frame? && Walk(mem, b, path') == Walk(mem, a, path)
    ensures roles[a].owner == roles[b].owner && path == path'
  {
    hide Owned, MayTouch;
    MappedIsData(mem, pool, roles, a, path);
    MappedIsData(mem, pool, roles, b, path');
  }

  ghost predicate Inside(maps: seq<Mapping>, a: nat) {
    exists i :: 0 <= i < |maps| && maps[i].used && maps[i].virt <= a < EndOf(maps[i])
  }

  lemma MappedIsRecorded(mem: Memory, pool: Pool, roles: Roles, k: nat, pid: nat, maps: seq<Mapping>, a: nat)
    requires Owned(mem, pool, roles) && IsRole(roles, k, Table(0, [])) && Recorded(roles, pid, maps)
    requires forall i :: 0 <= i < |maps| && maps[i].used ==>
      maps[i].virt % PAGE_SIZE == 0 && USER_HEAP_BASE <= maps[i].virt
          && EndOf(maps[i]) <= USER_HEAP_BASE + 0x1_0000_0000_0000
    requires a % PAGE_SIZE == 0 && PathOf(a)[0] >= SHARED_TOP && InOwnWindows(pid, PathOf(a))
    requires USER_HEAP_BASE <= a < USER_HEAP_BASE + 0x1_0000_0000_0000
    requires Walk(mem, k, PathOf(a)).Frame?
    ensures Inside(maps, a)
  {
    var path := PathOf(a);
    MappedIsData(mem, pool, roles, k, path);
    var q := Walk(mem, k, path).page;
    var i :| 0 <= i < |maps| && maps[i].used && InRun(roles[q], 0, maps[i].virt, maps[i].pages);
    var p: nat :| p < maps[i].pages && path == PageAt(maps[i].virt, p);
    PageAligned(maps[i].virt, p);
    PathAddress(a, maps[i].virt + p * PAGE_SIZE);
  }

  lemma RecordedIsMapped(mem: Memory, k: nat, maps: seq<Mapping>, a: nat)
    requires Backed(mem, k, maps) && Inside(maps, a) && a % PAGE_SIZE == 0
    requires forall i :: 0 <= i < |maps| && maps[i].used ==> maps[i].virt % PAGE_SIZE == 0
    ensures Walk(mem, k, PathOf(a)).Frame?
  {
    var i :| 0 <= i < |maps| && maps[i].used && maps[i].virt <= a < EndOf(maps[i]);
    var p := (a - maps[i].virt) / PAGE_SIZE;
    assert a == maps[i].virt + p * PAGE_SIZE;
    assert PageAt(maps[i].virt, p) == PathOf(a);
  }

  lemma HandedOutRange(pid: nat, heapNext: nat, mmapNext: nat, m: Mapping)
    requires BoundsOk(pid, heapNext, mmapNext) && InHandedOut(pid, heapNext, mmapNext, m)
    ensures USER_HEAP_BASE <= m.virt && EndOf(m) <= USER_HEAP_BASE + 0x1_0000_0000_0000
  {
  }

  /** A page of the windows is mapped exactly when it is in a recorded run. */
  lemma WindowExact(mem: Memory, pool: Pool, roles: Roles, k: nat, pid: nat, heapNext: nat, mmapNext: nat,
                    maps: seq<Mapping>, a: nat)
    requires Owned(mem, pool, roles) && IsRole(roles, k, Table(0, [])) && BoundsOk(pid, heapNext, mmapNext)
    requires MappingsOk(pid, heapNext, mmapNext, maps) && Recorded(roles, pid, maps) && Backed(mem, k, maps)
    requires a % PAGE_SIZE == 0
    requires HeapBase(pid) <= a < HeapBase(pid) + USER_HEAP_STRIDE
      || MmapBase(pid) <= a < MmapBase(pid) + USER_MMAP_STRIDE
    ensures if Inside(maps, a) then Walk(mem, k, PathOf(a)).Frame? else Walk(mem, k, PathOf(a)) == Unmapped
  {
    hide Owned;
    InWindow(pid, a);
    KernelWalk(mem, pool, roles, k, PathOf(a));
    forall i | 0 <= i < |maps| && maps[i].used
      ensures USER_HEAP_BASE <= maps[i].virt && EndOf(maps[i]) <= USER_HEAP_BASE + 0x1_0000_0000_0000
    {
      HandedOutRange(pid, heapNext, mmapNext, maps[i]);
    }
    if Walk(mem, k, PathOf(a)).Frame? {
      MappedIsRecorded(mem, pool, roles, k, pid, maps, a);
    }
    if Inside(maps, a) {
      RecordedIsMapped(mem, k, maps, a);
    }
  }

  lemma KernelWalk(mem: Memory, pool: Pool, roles: Roles, k: nat, path: Path)
    requires Owned(mem, pool, roles) && IsRole(roles, k, Table(0, [])) && |path| == 4 && path[0] >= SHARED_TOP
    ensures !Walk(mem, k, path).Large?
  {
    assert [] + path == path;
    NeverLarge(mem, roles, k, path);
  }

  // ---- What mapping and unmapping do to the record ----

  ghost predicate MemoryOk(mem: Memory, roles: Roles, k: nat, pid: nat, heapNext: nat, mmapNext: nat,
                           maps: seq<Mapping>, guards: set<nat>) {
    && BoundsOk(pid, heapNext, mmapNext) && MappingsOk(pid, heapNext, mmapNext, maps)
    && Recorded(roles, pid, maps) && Backed(mem, k, maps) && GuardsOk(pid, mmapNext, maps, guards)
  }

  lemma RunTouchable(roles: Roles, k: nat, pid: nat, heapNext: nat, mmapNext: nat, m: Mapping)
    requires IsRole(roles, k, Table(0, [])) && BoundsOk(pid, heapNext, mmapNext)
    requires InHandedOut(pid, heapNext, mmapNext, m)
    ensures MayTouchRun(roles, k, m.virt, m.pages)
  {
    forall i: nat | i < m.pages ensures MayTouch(roles, k, PageAt(m.virt, i)) {
      PageAligned(m.virt, i);
      InWindow(pid, m.virt + i * PAGE_SIZE);
    }
  }

  lemma RecordGrows(roles0: Roles, roles: Roles, pid: nat, maps: seq<Mapping>, slot: nat, m: Mapping)
    requires Recorded(roles0, pid, maps) && slot < |maps| && !maps[slot].used && m.used
    requires RolesKept(roles0, roles)
    requires forall q :: q in roles && q !in roles0 ==> !roles[q].Data? || InRun(roles[q], 0, m.virt, m.pages)
    ensures Recorded(roles, pid, maps[slot := m])
  {
    var maps' := maps[slot := m];
    forall q | q in roles && roles[q].Data? && InOwnWindows(pid, roles[q].place) ensures RecordedIn(roles[q], maps') {
      if q in roles0 {
        var i :| 0 <= i < |maps| && maps[i].used && InRun(roles[q], 0, maps[i].virt, maps[i].pages);
        assert maps'[i] == maps[i];
      } else {
        assert maps'[slot] == m;
      }
    }
  }

  lemma BackedGrows(mem0: Memory, roles0: Roles, mem: Memory, roles: Roles, k: nat, maps: seq<Mapping>, slot: nat,
                    m: Mapping)
    requires Backed(mem0, k, maps) && slot < |maps| && IsTableRole(roles0, k, []) && m.used
    requires RunMapped(mem0, roles0, mem, roles, k, m.virt, m.pages)
    ensures Backed(mem, k, maps[slot := m])
  {
    var maps' := maps[slot := m];
    forall i, p: nat | 0 <= i < |maps'| && maps'[i].used && p < maps'[i].pages
      ensures Walk(mem, k, PageAt(maps'[i].virt, p)).Frame?
    {
      if i != slot {
        assert Starts(roles0, k, PageAt(maps[i].virt, p));
      }
    }
  }

  lemma MappingsGrow(pid: nat, heapNext: nat, mmapNext: nat, maps: seq<Mapping>, guards: set<nat>, slot: nat,
                     m: Mapping)
    requires MappingsOk(pid, heapNext, mmapNext, maps) && GuardsOk(pid, mmapNext, maps, guards) && slot < |maps|
    requires m.used && InHandedOut(pid, heapNext, mmapNext, m) && ApartFromAll(maps, guards, m)
    ensures MappingsOk(pid, heapNext, mmapNext, maps[slot := m]) && GuardsOk(pid, mmapNext, maps[slot := m], guards)
  {
  }

  predicate ApartFromAll(maps: seq<Mapping>, guards: set<nat>, m: Mapping) {
    && (forall i :: 0 <= i < |maps| && maps[i].used ==> Apart(maps[i], m))
    && (forall g :: g in guards ==> Apart(Mapping(true, g, 1), m))
  }

  /** A run was mapped and recorded. */
  lemma MappedKeeps(mem0: Memory, roles0: Roles, mem: Memory, roles: Roles, k: nat, pid: nat, heapNext: nat,
                    mmapNext: nat, maps: seq<Mapping>, guards: set<nat>, slot: nat, m: Mapping)
    requires MemoryOk(mem0, roles0, k, pid, heapNext, mmapNext, maps, guards) && IsRole(roles0, k, Table(0, []))
    requires slot < |maps| && !maps[slot].used && m.used && InHandedOut(pid, heapNext, mmapNext, m)
    requires ApartFromAll(maps, guards, m) && RunMapped(mem0, roles0, mem, roles, k, m.virt, m.pages)
    ensures MemoryOk(mem, roles, k, pid, heapNext, mmapNext, maps[slot := m], guards)
  {
    RecordGrows(roles0, roles, pid, maps, slot, m);
    BackedGrows(mem0, roles0, mem, roles, k, maps, slot, m);
    MappingsGrow(pid, heapNext, mmapNext, maps, guards, slot, m);
  }

  /** Nothing was mapped. */
  lemma UnmappedKeeps(mem0: Memory, roles0: Roles, mem: Memory, pool: Pool, roles: Roles, k: nat, pid: nat,
                      heapNext: nat, mmapNext: nat, maps: seq<Mapping>, guards: set<nat>, slot: nat)
    requires MemoryOk(mem0, roles0, k, pid, heapNext, mmapNext, maps, guards) && IsRole(roles0, k, Table(0, []))
    requires SameWalks(roles0, mem0, mem) && NoneLost(pool, roles0, roles)
    requires slot < |maps| && !maps[slot].used
    ensures MemoryOk(mem, roles, k, pid, heapNext, mmapNext, maps[slot := NO_MAPPING], guards)
  {
    var maps' := maps[slot := NO_MAPPING];
    forall q | q in roles && roles[q].Data? && InOwnWindows(pid, roles[q].place) ensures RecordedIn(roles[q], maps') {
      var i :| 0 <= i < |maps| && maps[i].used && InRun(roles[q], 0, maps[i].virt, maps[i].pages);
      assert maps'[i] == maps[i];
    }
    forall i, p: nat | 0 <= i < |maps'| && maps'[i].used && p < maps'[i].pages
      ensures Walk(mem, k, PageAt(maps'[i].virt, p)).Frame?
    {
      assert Starts(roles0, k, PageAt(maps[i].virt, p));
    }
  }

  lemma RecordShrinks(roles0: Roles, roles: Roles, pid: nat, maps: seq<Mapping>, slot: nat)
    requires Recorded(roles0, pid, maps) && slot < |maps|
    requires RunFreed(roles0, roles, 0, maps[slot].virt, maps[slot].pages)
    ensures Recorded(roles, pid, maps[slot := NO_MAPPING])
  {
    var maps' := maps[slot := NO_MAPPING];
    forall q | q in roles && roles[q].Data? && InOwnWindows(pid, roles[q].place) ensures RecordedIn(roles[q], maps') {
      var i :| 0 <= i < |maps| && maps[i].used && InRun(roles[q], 0, maps[i].virt, maps[i].pages);
      assert i != slot;
      assert maps'[i] == maps[i];
    }
  }

  lemma BackedShrinks(mem0: Memory, roles0: Roles, mem: Memory, k: nat, pid: nat, heapNext: nat, mmapNext: nat,
                      maps: seq<Mapping>, slot: nat, i: nat, p: nat)
    requires TreeOk(mem0, roles0) && IsTableRole(roles0, k, []) && BoundsOk(pid, heapNext, mmapNext)
    requires MappingsOk(pid, heapNext, mmapNext, maps) && Backed(mem0, k, maps)
    requires slot < |maps| && i < |maps| && i != slot && maps[slot].used && maps[i].used && p < maps[i].pages
    requires Cleared(roles0, mem0, mem, k, maps[slot].virt, maps[slot].pages)
    ensures Walk(mem, k, PageAt(maps[i].virt, p)).Frame?
  {
    var path := PageAt(maps[i].virt, p);
    assert Starts(roles0, k, path);
    assert Apart(maps[i], maps[slot]) by {
      assert if i < slot then Apart(maps[i], maps[slot]) else Apart(maps[slot], maps[i]);
    }
    if SharesAny(mem0, k, maps[slot].virt, maps[slot].pages, k, path) {
      SharerPage(mem0, roles0, k, maps[slot].virt, maps[slot].pages, k, path);
      var j: nat :| j < maps[slot].pages && PageAt(maps[slot].virt, j) == path;
      ApartPages(pid, heapNext, mmapNext, maps[i], maps[slot], p, j);
    }
  }

  /** A recorded run was unmapped and struck off. */
  lemma RemovedKeeps(mem0: Memory, pool0: Pool, roles0: Roles, mem: Memory, pool: Pool, roles: Roles, k: nat, pid: nat,
                     heapNext: nat, mmapNext: nat, maps: seq<Mapping>, guards: set<nat>, slot: nat)
    requires MemoryOk(mem0, roles0, k, pid, heapNext, mmapNext, maps, guards) && TreeOk(mem0, roles0)
    requires IsRole(roles0, k, Table(0, [])) && slot < |maps| && maps[slot].used
    requires Emptied(mem0, pool0, roles0, mem, pool, roles, k, maps[slot].virt, maps[slot].pages)
    ensures MemoryOk(mem, roles, k, pid, heapNext, mmapNext, maps[slot := NO_MAPPING], guards)
  {
    var maps' := maps[slot := NO_MAPPING];
    RecordShrinks(roles0, roles, pid, maps, slot);
    forall i, p: nat | 0 <= i < |maps'| && maps'[i].used && p < maps'[i].pages
      ensures Walk(mem, k, PageAt(maps'[i].virt, p)).Frame?
    {
      BackedShrinks(mem0, roles0, mem, k, pid, heapNext, mmapNext, maps, slot, i, p);
    }
  }
}
