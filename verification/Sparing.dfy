/** What calls of one process leave alone: the windows and roots of every other process. */
module Sparing {
  import opened PageTables
  import opened PhysPages
  import opened PageOwners
  import opened Mappings
  import opened ProcessSpaces
  import opened PageReturn
  import opened WindowTables
  import opened UserMemory

  /** Where the kernel half of the address space may change: nowhere, in the heap and mmap windows of a process, or in
      its stack slice. */
  datatype Region = Nowhere | Pages(pid: nat) | Stack(pid: nat)

  predicate Numbered(r: Region) {
    r.Nowhere? || r.pid < PID_LIMIT
  }

  predicate InRegion(r: Region, place: Path) {
    match r
    case Nowhere => false
    case Pages(pid) => InOwnWindows(pid, place)
    case Stack(pid) => InStack(pid, place)
  }

  /** Regions of different processes, and the two of one process, have no address in common. */
  lemma RegionsApart(a: Region, b: Region, place: Path)
    requires Numbered(a) && Numbered(b) && |place| == 4 && InRegion(a, place) && InRegion(b, place)
    ensures a == b
  {
    WindowsApart(a.pid, b.pid, place);
    RegionTop(a, place);
    RegionTop(b, place);
  }

  lemma RegionTop(r: Region, place: Path)
    requires Numbered(r) && |place| == 4 && InRegion(r, place)
    ensures place[0] >= SHARED_TOP && (r.Stack? <==> place[0] >= 352)
  {
    HeapIndices(r.pid);
    MmapIndices(r.pid);
    StackIndices(r.pid);
    assert place[0] == place[..2][0];
  }

  /** Outside the region the kernel root translates as before, and no kernel data page is new. */
  ghost predicate OnlyIn(r: Region, roles0: Roles, mem0: Memory, roles: Roles, mem: Memory, k: nat) {
    && (forall q :: q in roles && roles[q].Data? && roles[q].owner == 0 && !InRegion(r, roles[q].place) ==>
          IsRole(roles0, q, roles[q]))
    && (forall path: Path :: |path| == 4 && !InRegion(r, path) ==>
         Walk(mem, k, path) == Walk(mem0, k, path))
  }

  /** Processes other than `pid` have the roots they had; with number 0, all have. */
  ghost predicate OtherRoots(roles0: Roles, roles: Roles, pid: nat) {
    forall q: nat, o: nat :: o != 0 && o != pid ==>
        (IsRole(roles, q, Table(o, [])) <==> IsRole(roles0, q, Table(o, [])))
  }

  /** And translate every address outside the region as before, images included. */
  ghost predicate OtherViews(r: Region, roles0: Roles, mem0: Memory, mem: Memory, pid: nat) {
    forall q: nat, path: Path ::
        IsProcessRoot(roles0, q) && roles0[q].owner != pid && |path| == 4 && !InRegion(r, path) ==>
      Walk(mem, q, path) == Walk(mem0, q, path)
  }

  /** A call of process `pid` that changes the kernel half in the region only, and nothing else of other processes. */
  ghost predicate Spares(r: Region, roles0: Roles, mem0: Memory, roles: Roles, mem: Memory, k: nat, pid: nat) {
    OnlyIn(r, roles0, mem0, roles, mem, k) && OtherRoots(roles0, roles, pid) && OtherViews(r, roles0, mem0, mem, pid)
  }

  /** Inside the region nothing changed: the kernel root translates as before, and no data page is new. */
  ghost predicate RegionKept(r: Region, roles0: Roles, mem0: Memory, roles: Roles, mem: Memory, k: nat) {
    && (forall q :: q in roles && roles[q].Data? && InRegion(r, roles[q].place) ==> IsRole(roles0, q, roles[q]))
    && (forall path: Path :: |path| == 4 && InRegion(r, path) ==> Walk(mem, k, path) == Walk(mem0, k, path))
  }

  lemma SparesAll(r: Region, other: Region, roles0: Roles, mem0: Memory, roles: Roles, mem: Memory, k: nat)
    requires OnlyIn(r, roles0, mem0, roles, mem, k) && PlacesOk(roles) && Numbered(r) && Numbered(other) && r != other
    ensures RegionKept(other, roles0, mem0, roles, mem, k)
  {
    forall q | q in roles && roles[q].Data? && InRegion(other, roles[q].place) ensures IsRole(roles0, q, roles[q]) {
      RegionTop(other, roles[q].place);
      if InRegion(r, roles[q].place) {
        RegionsApart(r, other, roles[q].place);
      }
      if roles[q].owner != 0 {
        ImagePrefix(roles[q].place, 1);
      }
    }
    forall path: Path | |path| == 4 && InRegion(other, path) ensures Walk(mem, k, path) == Walk(mem0, k, path) {
      RegionTop(other, path);
      if InRegion(r, path) {
        RegionsApart(r, other, path);
      }
    }
  }

  lemma SparesChain(r: Region, roles0: Roles, mem0: Memory, roles1: Roles, mem1: Memory, roles: Roles, mem: Memory,
                    k: nat, pid: nat)
    requires Spares(r, roles0, mem0, roles1, mem1, k, pid) && Spares(r, roles1, mem1, roles, mem, k, pid)
    ensures Spares(r, roles0, mem0, roles, mem, k, pid)
  {
    forall path: Path | |path| == 4 && !InRegion(r, path)
      ensures Walk(mem, k, path) == Walk(mem0, k, path)
    {
      assert Walk(mem1, k, path) == Walk(mem0, k, path);
    }
    forall q: nat, o: nat | o != 0 && o != pid
      ensures IsRole(roles, q, Table(o, [])) <==> IsRole(roles0, q, Table(o, []))
    {
      assert IsRole(roles1, q, Table(o, [])) <==> IsRole(roles0, q, Table(o, []));
    }
    forall q: nat, path: Path | IsProcessRoot(roles0, q) && roles0[q].owner != pid && |path| == 4 && !InRegion(r, path)
      ensures Walk(mem, q, path) == Walk(mem0, q, path)
    {
      assert IsRole(roles1, q, Table(roles0[q].owner, []));
    }
  }

  /** A call that keeps all roots keeps those of the others. */
  lemma SparesOthers(r: Region, roles0: Roles, mem0: Memory, roles: Roles, mem: Memory, k: nat, pid: nat)
    requires Spares(r, roles0, mem0, roles, mem, k, 0)
    ensures Spares(r, roles0, mem0, roles, mem, k, pid)
    ensures forall q :: pid != 0 ==> (IsRole(roles, q, Table(pid, [])) <==> IsRole(roles0, q, Table(pid, [])))
  {
  }

  lemma SparesMore(r: Region, roles0: Roles, mem0: Memory, roles: Roles, mem: Memory, k: nat, pid: nat)
    requires Spares(Nowhere, roles0, mem0, roles, mem, k, pid)
    ensures Spares(r, roles0, mem0, roles, mem, k, pid)
  {
  }

  // ---- Kinds of calls ----

  /** Roles that gained only inner tables, loose pages and data of one run or of one process. */
  ghost predicate Gained(roles0: Roles, roles: Roles, r: Region) {
    && RolesKept(roles0, roles)
    && forall q :: q in roles && q !in roles0 ==>
         IsInner(roles[q]) || roles[q].Loose?
             || (roles[q].Data? && (roles[q].owner != 0 || InRegion(r, roles[q].place)))
  }

  /** Roles that only lost pages or let them go, no process root but `pid`'s among them. */
  ghost predicate Lost(roles0: Roles, roles: Roles, pid: nat) {
    && (forall q :: q in roles ==> q in roles0 && (roles[q] == roles0[q] || roles[q].Loose?))
    && (forall q :: IsProcessRoot(roles0, q) && roles0[q].owner != pid ==> IsRole(roles, q, roles0[q]))
  }

  lemma GainedSpares(r: Region, roles0: Roles, mem0: Memory, roles: Roles, mem: Memory, k: nat, pid: nat)
    requires Gained(roles0, roles, r)
    requires forall path: Path :: |path| == 4 && !InRegion(r, path) ==>
      Walk(mem, k, path) == Walk(mem0, k, path)
    requires OtherViews(r, roles0, mem0, mem, pid)
    ensures Spares(r, roles0, mem0, roles, mem, k, pid)
  {
  }

  lemma LostSpares(r: Region, roles0: Roles, mem0: Memory, roles: Roles, mem: Memory, k: nat, pid: nat)
    requires Lost(roles0, roles, pid)
    requires forall path: Path :: |path| == 4 && !InRegion(r, path) ==>
      Walk(mem, k, path) == Walk(mem0, k, path)
    requires OtherViews(r, roles0, mem0, mem, pid)
    ensures Spares(r, roles0, mem0, roles, mem, k, pid)
  {
    forall q: nat, o: nat | o != 0 && o != pid
      ensures IsRole(roles, q, Table(o, [])) <==> IsRole(roles0, q, Table(o, []))
    {
      if IsRole(roles0, q, Table(o, [])) {
        assert IsProcessRoot(roles0, q);
      }
    }
  }

  /** A run of the region. */
  ghost predicate RunIn(r: Region, base: nat, n: nat) {
    forall i: nat :: i < n ==> InRegion(r, PageAt(base, i))
  }

  /** Mapping a run of the region spares the others. */
  lemma RunMappedSpares(r: Region, roles0: Roles, mem0: Memory, roles: Roles, mem: Memory, k: nat, pid: nat, base: nat,
                        n: nat)
    requires TreeOk(mem, roles) && IsRole(roles0, k, Table(0, [])) && RunIn(r, base, n)
    requires RunMapped(mem0, roles0, mem, roles, k, base, n)
    ensures Spares(r, roles0, mem0, roles, mem, k, pid)
  {
    forall path: Path | |path| == 4 && !InRegion(r, path)
      ensures Walk(mem, k, path) == Walk(mem0, k, path)
    {
      assert Starts(roles0, k, path);
      if SharesAny(mem, k, base, n, k, path) {
        SharerPage(mem, roles, k, base, n, k, path);
      }
    }
    forall q: nat, path: Path | IsProcessRoot(roles0, q) && |path| == 4 && !InRegion(r, path)
      ensures Walk(mem, q, path) == Walk(mem0, q, path)
    {
      assert Starts(roles0, q, path);
      if SharesAny(mem, k, base, n, q, path) {
        SharerPage(mem, roles, k, base, n, q, path);
      }
    }
    GainedSpares(r, roles0, mem0, roles, mem, k, pid);
  }

  /** So does failing to. */
  lemma NothingMappedSpares(r: Region, roles0: Roles, mem0: Memory, pool: Pool, roles: Roles, mem: Memory, k: nat,
                            pid: nat)
    requires IsRole(roles0, k, Table(0, [])) && SameWalks(roles0, mem0, mem) && NoneLost(pool, roles0, roles)
    ensures Spares(r, roles0, mem0, roles, mem, k, pid)
  {
    forall path: Path | |path| == 4 ensures Walk(mem, k, path) == Walk(mem0, k, path) {
      assert Starts(roles0, k, path);
    }
    forall q: nat, path: Path | IsProcessRoot(roles0, q) && |path| == 4
      ensures Walk(mem, q, path) == Walk(mem0, q, path)
    {
      assert Starts(roles0, q, path);
    }
    GainedSpares(r, roles0, mem0, roles, mem, k, pid);
  }

  /** Unmapping a run of the region spares the others. */
  lemma EmptiedSpares(r: Region, roles0: Roles, mem0: Memory, pool0: Pool, roles: Roles, mem: Memory, pool: Pool,
                      k: nat, pid: nat, base: nat, n: nat)
    requires TreeOk(mem0, roles0) && IsRole(roles0, k, Table(0, [])) && RunIn(r, base, n)
    requires Emptied(mem0, pool0, roles0, mem, pool, roles, k, base, n)
    ensures Spares(r, roles0, mem0, roles, mem, k, pid)
  {
    forall path: Path | |path| == 4 && !InRegion(r, path)
      ensures Walk(mem, k, path) == Walk(mem0, k, path)
    {
      assert Starts(roles0, k, path);
      if SharesAny(mem0, k, base, n, k, path) {
        SharerPage(mem0, roles0, k, base, n, k, path);
      }
    }
    forall q: nat, path: Path | IsProcessRoot(roles0, q) && |path| == 4 && !InRegion(r, path)
      ensures Walk(mem, q, path) == Walk(mem0, q, path)
    {
      assert Starts(roles0, q, path);
      if SharesAny(mem0, k, base, n, q, path) {
        SharerPage(mem0, roles0, k, base, n, q, path);
      }
    }
    LostSpares(r, roles0, mem0, roles, mem, k, pid);
  }

  /** Releasing pages without touching another process's root. */
  lemma ReleasedLoses(pool0: Pool, roles0: Roles, gone: set<nat>, pool: Pool, roles: Roles, pid: nat)
    requires Released(pool0, roles0, gone, pool, roles)
    requires forall q :: q in gone && IsProcessRoot(roles0, q) ==> roles0[q].owner == pid
    ensures Lost(roles0, roles, pid)
  {
  }

  lemma NothingDone(r: Region, roles: Roles, mem: Memory, k: nat, pid: nat)
    ensures Spares(r, roles, mem, roles, mem, k, pid)
  {
  }

  // ---- What a spared process keeps ----

  lemma WindowPage(pid: nat, a: nat)
    requires pid < PID_LIMIT && a % PAGE_SIZE == 0
    requires HeapBase(pid) <= a < HeapBase(pid) + USER_HEAP_STRIDE
      || MmapBase(pid) <= a < MmapBase(pid) + USER_MMAP_STRIDE
    ensures InRegion(Pages(pid), PathOf(a))
  {
    InWindow(pid, a);
  }

  /** Runs that were handed out lie in the region. */
  lemma HandedOutIn(pid: nat, heapNext: nat, mmapNext: nat, m: Mapping)
    requires BoundsOk(pid, heapNext, mmapNext) && InHandedOut(pid, heapNext, mmapNext, m)
    ensures RunIn(Pages(pid), m.virt, m.pages)
  {
    forall i: nat | i < m.pages ensures InRegion(Pages(pid), PageAt(m.virt, i)) {
      PageAligned(m.virt, i);
      InWindow(pid, m.virt + i * PAGE_SIZE);
    }
  }

  /** The record of a process whose windows were left alone still says exactly what is mapped. */
  lemma MemoryKept(mem0: Memory, roles0: Roles, mem: Memory, roles: Roles, k: nat, pid: nat, heapNext: nat,
                   mmapNext: nat, maps: seq<Mapping>, guards: set<nat>)
    requires MemoryOk(mem0, roles0, k, pid, heapNext, mmapNext, maps, guards)
    requires RegionKept(Pages(pid), roles0, mem0, roles, mem, k)
    ensures MemoryOk(mem, roles, k, pid, heapNext, mmapNext, maps, guards)
  {
    forall i, p: nat | 0 <= i < |maps| && maps[i].used && p < maps[i].pages
      ensures Walk(mem, k, PageAt(maps[i].virt, p)).Frame?
    {
      HandedOutIn(pid, heapNext, mmapNext, maps[i]);
      assert InRegion(Pages(pid), PageAt(maps[i].virt, p));
    }
  }

  /** A root translates the lower half, images included, as before. */
  ghost predicate LowViewKept(mem0: Memory, mem: Memory, root: nat) {
    forall path: Path :: |path| == 4 && path[0] < SHARED_TOP ==> Walk(mem, root, path) == Walk(mem0, root, path)
  }

  /** And the stack slice of process `pid`. */
  ghost predicate SameView(mem0: Memory, mem: Memory, root: nat, pid: nat) {
    && LowViewKept(mem0, mem, root)
    && forall path: Path :: |path| == 4 && InStack(pid, path) ==> Walk(mem, root, path) == Walk(mem0, root, path)
  }

  lemma ViewKept(r: Region, roles0: Roles, mem0: Memory, roles: Roles, mem: Memory, k: nat, caller: nat, pid: nat,
                 root: nat)
    requires Spares(r, roles0, mem0, roles, mem, k, caller) && Numbered(r) && r != Stack(pid)
    requires IsRole(roles0, root, Table(pid, [])) && 0 < pid < PID_LIMIT && pid != caller
    ensures SameView(mem0, mem, root, pid)
  {
    forall path: Path | |path| == 4 && (path[0] < SHARED_TOP || InStack(pid, path))
      ensures Walk(mem, root, path) == Walk(mem0, root, path)
    {
      if InRegion(r, path) {
        RegionTop(r, path);
        RegionsApart(r, Stack(pid), path);
      }
      assert IsProcessRoot(roles0, root);
    }
  }

  // ---- Processes that do not run ----

  /** A process without a root owns no page at all. */
  lemma {:induction false} OwnerHasRoot(mem: Memory, pool: Pool, roles: Roles, q: nat)
    requires Owned(mem, pool, roles) && q in roles && !roles[q].Loose? && roles[q].owner != 0
    ensures exists r :: IsRole(roles, r, Table(roles[q].owner, []))
    decreases |roles[q].place|
  {
    if roles[q].place == [] {
      assert IsRole(roles, q, Table(roles[q].owner, []));
    } else {
      assert AnchorOk(mem, roles, q);
      var p :| IsParent(mem, roles, p, q);
      OwnerHasRoot(mem, pool, roles, p);
    }
  }

  /** Nothing is mapped for the process and it has no root. */
  ghost predicate Idle(roles: Roles, pid: nat) {
    Recorded(roles, pid, []) && forall q :: !IsRole(roles, q, Table(pid, []))
  }

  lemma IdleOwnsNothing(mem: Memory, pool: Pool, roles: Roles, pid: nat)
    requires Owned(mem, pool, roles) && Idle(roles, pid) && pid != 0
    ensures Unowned(roles, pid)
  {
    forall q | q in roles && !roles[q].Loose? ensures roles[q].owner != pid {
      if roles[q].owner == pid {
        OwnerHasRoot(mem, pool, roles, q);
      }
    }
  }

  lemma IdleKept(r: Region, roles0: Roles, mem0: Memory, roles: Roles, mem: Memory, k: nat, pid: nat, other: nat)
    requires Spares(r, roles0, mem0, roles, mem, k, pid) && PlacesOk(roles) && Numbered(r) && 0 < other < PID_LIMIT
    requires other != pid
    requires Idle(roles0, other) && r != Pages(other)
    ensures Idle(roles, other)
  {
    SparesAll(r, Pages(other), roles0, mem0, roles, mem, k);
    forall q | q in roles && roles[q].Data? && InOwnWindows(other, roles[q].place) ensures RecordedIn(roles[q], []) {
      assert InRegion(Pages(other), roles[q].place);
      assert IsRole(roles0, q, roles[q]);
    }
  }
}
