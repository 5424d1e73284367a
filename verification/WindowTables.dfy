/** Taking down the shared tables of one process's heap, mmap and stack windows. */
module WindowTables {
  import opened Common
  import opened PageTables
  import opened PhysPages
  import opened PageOwners
  import opened PageReturn
  import opened Mappings
  import opened AddressSpaces
  import opened ProcessSpaces

  // ---- Where the windows lie ----

  const HEAP_SLOTS := 128  // page tables in a 256 MiB window

  function HeapDir(pid: nat): (p: Path)
    ensures |p| == 2
  {
    PathOf(HeapBase(pid))[..2]
  }

  function HeapSlot(pid: nat): nat {
    PathOf(HeapBase(pid))[2]
  }

  function MmapDir(pid: nat): (p: Path)
    ensures |p| == 2
  {
    PathOf(MmapBase(pid))[..2]
  }

  function StackDir(pid: nat): (p: Path)
    ensures |p| == 2
  {
    PathOf(StackBase(pid))[..2]
  }

  function StackSlot(pid: nat): nat {
    PathOf(StackBase(pid))[2]
  }

  /** Places at or below slots `lo` to `hi` of a page directory. */
  predicate InSlots(dir: Path, lo: nat, hi: nat, place: Path)
    requires |dir| == 2
  {
    |place| >= 3 && place[..2] == dir && lo <= place[2] < hi
  }

  predicate InHeap(pid: nat, place: Path) {
    InSlots(HeapDir(pid), HeapSlot(pid), HeapSlot(pid) + HEAP_SLOTS, place)
  }

  predicate InMmap(pid: nat, place: Path) {
    IsPrefix(MmapDir(pid), place)
  }

  predicate InStack(pid: nat, place: Path) {
    InSlots(StackDir(pid), StackSlot(pid), StackSlot(pid) + 1, place)
  }

  lemma HeapIndices(pid: nat)
    requires pid < PID_LIMIT
    ensures HeapDir(pid) == [288 + pid / 2048, pid / 4 % 512] && HeapSlot(pid) == pid % 4 * HEAP_SLOTS
  {
    hide PathOf;
    var base := HeapBase(pid);
    HeapTop(pid);
    PathOfBits(base);
    assert base / 0x4000_0000 == 0x3_FFFE_4000 + pid / 4;
    assert base / 0x20_0000 == 0x7FF_FC80_0000 + 128 * pid;
  }

  lemma MmapIndices(pid: nat)
    requires pid < PID_LIMIT
    ensures MmapDir(pid) == [320 + pid / 512, pid % 512]
  {
    MmapTop(pid);
    PathOfBits(MmapBase(pid));
    assert MmapBase(pid) / 0x4000_0000 == 0x3_FFFE_8000 + pid;
  }

  lemma StackIndices(pid: nat)
    requires pid < PID_LIMIT
    ensures StackDir(pid) == [352, pid / 512] && StackSlot(pid) == pid % 512
  {
    StackTop(pid);
    PathOfBits(StackBase(pid));
    assert StackBase(pid) / 0x4000_0000 == 0x3_FFFE_C000 + pid / 512;
    assert StackBase(pid) / 0x20_0000 == 0x7FF_FD80_0000 + pid;
  }

  /** The process in whose window a place lies, read off the place. */
  function WindowPid(place: Path): int
    requires |place| >= 3
  {
    if place[0] < 320 then (place[0] - 288) * 2048 + place[1] * 4 + place[2] / HEAP_SLOTS
    else if place[0] < 352 then (place[0] - 320) * 512 + place[1]
    else place[1] * 512 + place[2]
  }

  lemma HeapPid(pid: nat, place: Path)
    requires pid < PID_LIMIT && InHeap(pid, place)
    ensures WindowPid(place) == pid
  {
    HeapIndices(pid);
    assert place[0] == place[..2][0] == 288 + pid / 2048 && place[1] == place[..2][1] == pid / 4 % 512;
    assert place[2] / HEAP_SLOTS == pid % 4;
  }

  lemma MmapPid(pid: nat, place: Path)
    requires pid < PID_LIMIT && InMmap(pid, place) && |place| >= 3
    ensures WindowPid(place) == pid
  {
    MmapIndices(pid);
    assert place[0] == place[..2][0] && place[1] == place[..2][1];
  }

  lemma StackPid(pid: nat, place: Path)
    requires pid < PID_LIMIT && InStack(pid, place)
    ensures WindowPid(place) == pid
  {
    StackIndices(pid);
    assert place[0] == place[..2][0] && place[1] == place[..2][1];
  }

  predicate InWindows(pid: nat, place: Path) {
    InHeap(pid, place) || InMmap(pid, place) || InStack(pid, place)
  }

  lemma PlacePid(pid: nat, place: Path)
    requires pid < PID_LIMIT && |place| >= 3 && InWindows(pid, place)
    ensures WindowPid(place) == pid
  {
    if InHeap(pid, place) {
      HeapPid(pid, place);
    } else if InMmap(pid, place) {
      MmapPid(pid, place);
    } else {
      StackPid(pid, place);
    }
  }

  /** No page table or page serves the windows of two processes. */
  lemma WindowsApart(pid: nat, other: nat, place: Path)
    requires pid < PID_LIMIT && other < PID_LIMIT && |place| >= 3
    requires InWindows(pid, place) && InWindows(other, place)
    ensures pid == other
  {
    PlacePid(pid, place);
    PlacePid(other, place);
  }

  /** From number 16384 on they do: its mmap window is where the stacks of processes 0 to 511 are. */
  lemma WindowsMeet(pid: nat)
    requires pid < 512
    ensures MmapBase(PID_LIMIT) == StackBase(0) && InMmap(PID_LIMIT, PathOf(StackBase(pid)))
  {
    PathOfBits(MmapBase(PID_LIMIT));
    StackIndices(pid);
  }

  // ---- Cutting one entry ----

  lemma RootStays(roles: Roles, k: nat, place: Path)
    requires IsRole(roles, k, Table(0, [])) && place != []
    ensures k !in Subtree(roles, place)
  {
  }

  /** A kernel table below another is what the other's entry leads to. */
  lemma ChildLink(mem: Memory, pool: Pool, roles: Roles, table: nat, i: nat, x: nat)
    requires Owned(mem, pool, roles) && table in roles && roles[table].Table? && roles[table].owner == 0
    requires 0 < |roles[table].place| < 3 && roles[table].place[0] >= SHARED_TOP && i < ENTRIES
    requires IsRole(roles, x, Table(0, Below(roles[table].place, i)))
    ensures IsTable(mem, table) && Next(mem, table, i) == Some(x)
  {
    assert TableOk(mem, roles, table);
    assert AnchorOk(mem, roles, x);
    var p :| IsParent(mem, roles, p, x);
    assert Front(Below(roles[table].place, i)) == roles[table].place;
    assert p == table;
  }

  lemma LinkChild(mem: Memory, pool: Pool, roles: Roles, table: nat, i: nat)
    requires Owned(mem, pool, roles) && table in roles && roles[table].Table? && roles[table].owner == 0
    requires 0 < |roles[table].place| < 3 && roles[table].place[0] >= SHARED_TOP && i < ENTRIES
    requires IsTable(mem, table) && Next(mem, table, i).Some?
    ensures IsRole(roles, Next(mem, table, i).value, Table(0, Below(roles[table].place, i)))
  {
    assert TableOk(mem, roles, table) && LinkOk(mem, roles, table, i);
    assert PlacesOk(roles);
    SubtreeIsShared(roles, Below(roles[table].place, i), Next(mem, table, i).value);
  }

  /** Below a page-directory slot there is exactly the page table it leads to. */
  lemma SlotSubtree(mem: Memory, pool: Pool, roles: Roles, pd: nat, i: nat)
    requires Owned(mem, pool, roles) && pd in roles && roles[pd].Table? && roles[pd].owner == 0
    requires |roles[pd].place| == 2 && roles[pd].place[0] >= SHARED_TOP && i < ENTRIES
    ensures IsTable(mem, pd)
    ensures Subtree(roles, Below(roles[pd].place, i)) == if Next(mem, pd, i).Some? then {Next(mem, pd, i).value} else {}
  {
    var place := Below(roles[pd].place, i);
    RoleNotPage(mem, pool, roles, pd);
    if Next(mem, pd, i).Some? {
      LinkChild(mem, pool, roles, pd, i);
    }
    forall x | x in Subtree(roles, place) ensures Next(mem, pd, i) == Some(x) {
      SubtreeIsShared(roles, place, x);
      assert TableOk(mem, roles, x);
      assert roles[x].place == place;
      ChildLink(mem, pool, roles, pd, i, x);
    }
  }

  /** A set of tables is gone, and no walk from what is left notices. */
  ghost predicate TablesGone(mem0: Memory, pool0: Pool, roles0: Roles, gone: set<nat>, mem: Memory, pool: Pool,
                             roles: Roles) {
    Released(pool0, roles0, gone, pool, roles) && SameWalks(roles, mem0, mem)
  }

  lemma TablesGoneChain(mem0: Memory, pool0: Pool, roles0: Roles, a: set<nat>, mem1: Memory, pool1: Pool, roles1: Roles,
                        b: set<nat>, mem: Memory, pool: Pool, roles: Roles)
    requires TablesGone(mem0, pool0, roles0, a, mem1, pool1, roles1)
    requires TablesGone(mem1, pool1, roles1, b, mem, pool, roles)
    ensures TablesGone(mem0, pool0, roles0, a + b, mem, pool, roles)
  {
    ReleasedChain(pool0, roles0, a, pool1, roles1, b, pool, roles);
    forall table: nat, path: Path | Starts(roles, table, path)
      ensures Walk(mem, table, path) == Walk(mem0, table, path)
    {
      assert Starts(roles1, table, path);
    }
  }

  lemma NoTablesGone(mem: Memory, pool: Pool, roles: Roles)
    ensures TablesGone(mem, pool, roles, {}, mem, pool, roles)
  {
  }

  /** One table was cut off and given back. */
  lemma OneGone(mem0: Memory, pool0: Pool, roles0: Roles, pt: nat, mem: Memory, pool: Pool, given: bool)
    requires pt in roles0 && !roles0[pt].Loose? && InUse(pool0, roles0) && SameWalks(Loosened(roles0, {pt}), mem0, mem)
    requires (pool, given) == Give(pool0, pt)
    ensures TablesGone(mem0, pool0, roles0, {pt}, mem, pool,
                       if given then Loosened(roles0, {pt}) - {pt} else Loosened(roles0, {pt}))
  {
    GiveExact(pool0, pt);
    var roles := if given then Loosened(roles0, {pt}) - {pt} else Loosened(roles0, {pt});
    forall table: nat, path: Path | Starts(roles, table, path)
      ensures Walk(mem, table, path) == Walk(mem0, table, path)
    {
      assert Starts(Loosened(roles0, {pt}), table, path);
    }
  }

  /** The page table of one page-directory slot of a heap or stack window is returned and the slot cleared. */
  method ReclaimSlot(vm: Vm, pd: nat, i: nat)
    requires vm.Valid() && CanCut(vm.mem, vm.roles, pd, i) && |vm.roles[pd].place| == 2
    modifies vm`mem, vm`pool, vm`roles
    ensures vm.Valid() && IsRole(vm.roles, pd, old(vm.roles)[pd])
    ensures TablesGone(old(vm.mem), old(vm.pool), old(vm.roles),
      Subtree(old(vm.roles), Below(old(vm.roles)[pd].place, i)),
                       vm.mem, vm.pool, vm.roles)
  {
    hide Owned, SameWalks, TablesGone;
    ghost var mem0, pool0, roles0 := vm.mem, vm.pool, vm.roles;
    OwnedParts(mem0, pool0, roles0);
    SlotSubtree(mem0, pool0, roles0, pd, i);
    NoTablesGone(mem0, pool0, roles0);
    var pt := Next(vm.mem, pd, i);
    if pt.Some? {
      ghost var gone := Subtree(roles0, Below(roles0[pd].place, i));
      assert pt.value in gone;
      CutOwned(mem0, pool0, roles0, pd, i);
      RootStays(roles0, vm.kernelRoot, Below(roles0[pd].place, i));
      AccountedSame(vm.pages, pool0, roles0, Loosened(roles0, gone));
      var (more, given) := Give(vm.pool, pt.value);
      vm.pool := more;
      vm.mem := Put(vm.mem, pd, i, 0);
      vm.roles := Loosened(roles0, gone);
      if given {
        OwnedParts(vm.mem, pool0, vm.roles);
        FreeOwned(vm.mem, pool0, vm.roles, more, pt.value);
        AccountedGive(vm.pages, pool0, vm.roles, more, pt.value);
        vm.roles := vm.roles - {pt.value};
      }
      OneGone(mem0, pool0, roles0, pt.value, vm.mem, vm.pool, given);
    }
  }

  // ---- The heap window ----

  /** Kernel tables at slots `lo` to `hi` of a page directory. */
  function SlotTables(roles: Roles, dir: Path, lo: nat, hi: nat): set<nat>
    requires |dir| == 2
  {
    set x | x in roles && roles[x].Table? && InSlots(dir, lo, hi, roles[x].place)
  }

  lemma SlotTablesStep(roles: Roles, dir: Path, lo: nat, i: nat)
    requires |dir| == 2 && lo <= i < ENTRIES
    ensures SlotTables(roles, dir, lo, i) + Subtree(roles, Below(dir, i)) == SlotTables(roles, dir, lo, i + 1)
  {
    forall x | x in roles && roles[x].Table?
      ensures IsPrefix(Below(dir, i), roles[x].place) <==> InSlots(dir, i, i + 1, roles[x].place)
    {
      var place := roles[x].place;
      if |place| >= 3 {
        assert place[..3] == place[..2] + [place[2]];
      }
    }
  }

  ghost predicate NoDataInSlots(roles: Roles, dir: Path, lo: nat, hi: nat)
    requires |dir| == 2
  {
    forall x :: x in roles && roles[x].Data? ==> !InSlots(dir, lo, hi, roles[x].place)
  }

  /** A kernel page directory whose slots `lo` to `hi` map no data. */
  ghost predicate ClearableDir(roles: Roles, pd: nat, dir: Path, lo: nat, hi: nat)
    requires |dir| == 2
  {
    IsRole(roles, pd, Table(0, dir)) && dir[0] >= SHARED_TOP && hi <= ENTRIES && NoDataInSlots(roles, dir, lo, hi)
  }

  lemma Cuttable(mem: Memory, pool: Pool, roles: Roles, pd: nat, dir: Path, lo: nat, hi: nat, i: nat)
    requires Owned(mem, pool, roles) && |dir| == 2 && ClearableDir(roles, pd, dir, lo, hi) && lo <= i < hi
    ensures CanCut(mem, roles, pd, i)
  {
    RoleNotPage(mem, pool, roles, pd);
    forall x | x in roles && roles[x].Data? ensures !IsPrefix(Below(dir, i), roles[x].place) {
      assert PlacesOk(roles);
      var place := roles[x].place;
      assert place[..3] == place[..2] + [place[2]];
    }
  }

  lemma StillClearable(mem0: Memory, pool0: Pool, roles0: Roles, gone: set<nat>, mem: Memory, pool: Pool, roles: Roles,
                       pd: nat, dir: Path, lo: nat, hi: nat)
    requires TablesGone(mem0, pool0, roles0, gone, mem, pool, roles) && |dir| == 2
    requires ClearableDir(roles0, pd, dir, lo, hi) && IsRole(roles, pd, roles0[pd])
    ensures ClearableDir(roles, pd, dir, lo, hi)
  {
  }

  lemma SubtreeShrinks(mem0: Memory, pool0: Pool, roles0: Roles, dir: Path, lo: nat, i: nat, mem: Memory, pool: Pool,
                       roles: Roles)
    requires |dir| == 2 && lo <= i < ENTRIES
    requires TablesGone(mem0, pool0, roles0, SlotTables(roles0, dir, lo, i), mem, pool, roles)
    ensures Subtree(roles, Below(dir, i)) == Subtree(roles0, Below(dir, i))
  {
    forall x | x in Subtree(roles0, Below(dir, i)) ensures x !in SlotTables(roles0, dir, lo, i) {
      assert roles0[x].place[..3][2] == i;
    }
  }

  /** The loop of reclaim_process_window_tables over the slots of a heap window. */
  method ReclaimSlots(vm: Vm, pd: nat, ghost dir: Path, lo: nat, hi: nat)
    requires vm.Valid() && |dir| == 2 && lo <= hi && ClearableDir(vm.roles, pd, dir, lo, hi)
    modifies vm`mem, vm`pool, vm`roles
    ensures vm.Valid()
    ensures TablesGone(old(vm.mem), old(vm.pool), old(vm.roles), SlotTables(old(vm.roles), dir, lo, hi),
                       vm.mem, vm.pool, vm.roles)
  {
    hide Owned, TablesGone, ClearableDir, CanCut, SlotTables, Subtree;
    ghost var mem0, pool0, roles0 := vm.mem, vm.pool, vm.roles;
    DirRole(roles0, pd, dir, lo, hi);
    EmptySlots(roles0, dir, lo);
    NoTablesGone(mem0, pool0, roles0);
    for i := lo to hi
      invariant vm.Valid() && ClearableDir(vm.roles, pd, dir, lo, hi) && IsRole(vm.roles, pd, Table(0, dir))
      invariant TablesGone(mem0, pool0, roles0, SlotTables(roles0, dir, lo, i), vm.mem, vm.pool, vm.roles)
    {
      ghost var mem1, pool1, roles1 := vm.mem, vm.pool, vm.roles;
      Cuttable(mem1, pool1, roles1, pd, dir, lo, hi, i);
      SubtreeShrinks(mem0, pool0, roles0, dir, lo, i, mem1, pool1, roles1);
      ReclaimSlot(vm, pd, i);
      SlotTablesStep(roles0, dir, lo, i);
      StillClearable(mem1, pool1, roles1, Subtree(roles1, Below(dir, i)), vm.mem, vm.pool, vm.roles, pd, dir, lo, hi);
      TablesGoneChain(mem0, pool0, roles0, SlotTables(roles0, dir, lo, i), mem1, pool1, roles1,
                      Subtree(roles1, Below(dir, i)), vm.mem, vm.pool, vm.roles);
    }
  }

  lemma DirRole(roles: Roles, pd: nat, dir: Path, lo: nat, hi: nat)
    requires |dir| == 2 && ClearableDir(roles, pd, dir, lo, hi)
    ensures IsRole(roles, pd, Table(0, dir)) && hi <= ENTRIES
  {
  }

  lemma EmptySlots(roles: Roles, dir: Path, lo: nat)
    requires |dir| == 2
    ensures SlotTables(roles, dir, lo, lo) == {}
  {
  }

  /** The kernel table of a directory, found from the kernel root or not there at all. */
  lemma DirFound(mem: Memory, pool: Pool, roles: Roles, k: nat, dir: Path)
    requires Owned(mem, pool, roles) && IsRole(roles, k, Table(0, [])) && |dir| == 2 && dir[0] >= SHARED_TOP
    ensures IsTable(mem, k)
    ensures var pdpt := Next(mem, k, dir[0]);
      if pdpt.None? then forall x :: x in roles && roles[x].Table? ==> !IsPrefix(dir, roles[x].place)
      else
        && IsRole(roles, pdpt.value, Table(0, dir[..1])) && IsTable(mem, pdpt.value)
        && var pd := Next(mem, pdpt.value, dir[1]);
           if pd.None? then forall x :: x in roles && roles[x].Table? ==> !IsPrefix(dir, roles[x].place)
           else IsRole(roles, pd.value, Table(0, dir)) && IsTable(mem, pd.value)
  {
    RoleNotPage(mem, pool, roles, k);
    assert dir[..0] == [] && dir[..2] == dir;
    NextReached(mem, roles, k, dir, 0, k);
    var pdpt := Next(mem, k, dir[0]);
    if pdpt.None? {
      NothingDeeper(mem, k, dir, 1);
    } else {
      KernelChild(mem, pool, roles, k, dir[..1]);
      NextReached(mem, roles, k, dir, 1, pdpt.value);
      if Next(mem, pdpt.value, dir[1]).Some? {
        KernelChild(mem, pool, roles, k, dir);
      }
    }
    forall x | x in roles && roles[x].Table? && IsPrefix(dir, roles[x].place) ensures TableAt(mem, k, dir).Some? {
      SubtreeIsShared(roles, dir, x);
      OwnReached(mem, pool, roles, k, x);
      if TableAt(mem, k, dir).None? {
        NothingDeeper(mem, k, roles[x].place, 2);
      }
    }
  }

  lemma KernelChild(mem: Memory, pool: Pool, roles: Roles, k: nat, place: Path)
    requires Owned(mem, pool, roles) && IsRole(roles, k, Table(0, [])) && 1 <= |place| <= 3 && place[0] >= SHARED_TOP
    requires TableAt(mem, k, place).Some?
    ensures IsRole(roles, TableAt(mem, k, place).value, Table(0, place)) && IsTable(mem, TableAt(mem, k, place).value)
  {
    assert [] + place == place;
    ReachedRole(mem, roles, k, place);
    RoleNotPage(mem, pool, roles, TableAt(mem, k, place).value);
  }

  lemma NoSlotTables(roles: Roles, dir: Path, lo: nat, hi: nat)
    requires |dir| == 2 && forall x :: x in roles && roles[x].Table? ==> !IsPrefix(dir, roles[x].place)
    ensures SlotTables(roles, dir, lo, hi) == {} && Subtree(roles, dir) == {}
  {
  }

  /** Clears and returns the page tables at some slots of a kernel page directory, if there is one. */
  method ReclaimDirSlots(vm: Vm, dir: Path, lo: nat, hi: nat)
    requires vm.Valid() && |dir| == 2 && dir[0] >= SHARED_TOP && lo <= hi <= ENTRIES
    requires NoDataInSlots(vm.roles, dir, lo, hi)
    modifies vm`mem, vm`pool, vm`roles
    ensures vm.Valid()
    ensures TablesGone(old(vm.mem), old(vm.pool), old(vm.roles), SlotTables(old(vm.roles), dir, lo, hi),
                       vm.mem, vm.pool, vm.roles)
  {
    hide Owned, TablesGone, NoDataInSlots;
    DirFound(vm.mem, vm.pool, vm.roles, vm.kernelRoot, dir);
    NoTablesGone(vm.mem, vm.pool, vm.roles);
    var pdpt := Next(vm.mem, vm.kernelRoot, dir[0]);
    if pdpt.None? {
      NoSlotTables(vm.roles, dir, lo, hi);
      return;
    }
    var pd := Next(vm.mem, pdpt.value, dir[1]);
    if pd.None? {
      NoSlotTables(vm.roles, dir, lo, hi);
      return;
    }
    ReclaimSlots(vm, pd.value, dir, lo, hi);
  }

  // ---- The mmap window ----

  /** Each table below the directory is a child of it, ranked by its slot; the directory comes last. */
  lemma DirChild(mem0: Memory, pool0: Pool, roles0: Roles, pd: nat, dir: Path, i: nat)
    requires Owned(mem0, pool0, roles0) && |dir| == 2 && dir[0] >= SHARED_TOP && IsRole(roles0, pd, Table(0, dir))
    requires i < ENTRIES
    ensures IsTable(mem0, pd)
    ensures forall x :: x in Subtree(roles0, dir) ==> x in roles0 && !roles0[x].Loose?
    ensures var pt := Next(mem0, pd, i);
      if pt.Some? then OnlyAt(roles0, Subtree(roles0, dir), FirstOf(i) + ENTRIES, pt.value)
      else forall x :: x in Subtree(roles0, dir) ==> Rank(roles0[x].place) != FirstOf(i) + ENTRIES
  {
    RoleNotPage(mem0, pool0, roles0, pd);
    if Next(mem0, pd, i).Some? {
      LinkChild(mem0, pool0, roles0, pd, i);
      assert Below(dir, i)[..2] == dir;
    }
    forall x | x in Subtree(roles0, dir) && Rank(roles0[x].place) == FirstOf(i) + ENTRIES
      ensures Next(mem0, pd, i) == Some(x)
    {
      RankedSlot(mem0, pool0, roles0, dir, x, i);
      ChildLink(mem0, pool0, roles0, pd, i, x);
    }
  }

  lemma RankedSlot(mem0: Memory, pool0: Pool, roles0: Roles, dir: Path, x: nat, i: nat)
    requires Owned(mem0, pool0, roles0) && |dir| == 2 && dir[0] >= SHARED_TOP && x in Subtree(roles0, dir)
    requires i < ENTRIES
    requires Rank(roles0[x].place) == FirstOf(i) + ENTRIES
    ensures IsRole(roles0, x, Table(0, Below(dir, i)))
  {
    SubtreeIsShared(roles0, dir, x);
    RoleNotPage(mem0, pool0, roles0, x);
    var place := roles0[x].place;
    assert |place| == 3 && place[2] == i;
    assert place == place[..2] + [place[2]];
  }

  lemma NoRankBetween(mem0: Memory, pool0: Pool, roles0: Roles, dir: Path, i: nat, x: nat)
    requires Owned(mem0, pool0, roles0) && |dir| == 2 && dir[0] >= SHARED_TOP && x in Subtree(roles0, dir)
    requires i < ENTRIES
    ensures !(FirstOf(i) <= Rank(roles0[x].place) < FirstOf(i) + ENTRIES)
    ensures Rank(roles0[x].place) == FirstOf(ENTRIES) ==> roles0[x] == Table(0, dir)
  {
    SubtreeIsShared(roles0, dir, x);
    RoleNotPage(mem0, pool0, roles0, x);
    var place := roles0[x].place;
    if |place| == 2 {
      assert place == place[..2] == dir;
    }
  }

  lemma DirLast(mem0: Memory, pool0: Pool, roles0: Roles, pd: nat, dir: Path)
    requires Owned(mem0, pool0, roles0) && |dir| == 2 && dir[0] >= SHARED_TOP && IsRole(roles0, pd, Table(0, dir))
    ensures forall x :: x in Subtree(roles0, dir) ==> x in roles0 && !roles0[x].Loose?
    ensures OnlyAt(roles0, Subtree(roles0, dir), FirstOf(ENTRIES), pd)
  {
    assert dir[..2] == dir;
    forall x | x in Subtree(roles0, dir) && Rank(roles0[x].place) == FirstOf(ENTRIES) ensures x == pd {
      NoRankBetween(mem0, pool0, roles0, dir, 0, x);
    }
  }

  lemma SkipToTable(mem0: Memory, pool0: Pool, roles0: Roles, dir: Path, pool: Pool, roles: Roles, i: nat)
    requires Owned(mem0, pool0, roles0) && |dir| == 2 && dir[0] >= SHARED_TOP && i < ENTRIES
    requires GivenBack(pool0, roles0, Subtree(roles0, dir), pool, roles, FirstOf(i))
    ensures GivenBack(pool0, roles0, Subtree(roles0, dir), pool, roles, FirstOf(i) + ENTRIES)
  {
    forall x | x in Subtree(roles0, dir) ensures !(FirstOf(i) <= Rank(roles0[x].place) < FirstOf(i) + ENTRIES) {
      NoRankBetween(mem0, pool0, roles0, dir, i, x);
    }
    SkipRanks(pool0, roles0, Subtree(roles0, dir), pool, roles, FirstOf(i), FirstOf(i) + ENTRIES);
  }

  /** One page table of the directory is returned. */
  method FreeDirTable(vm: Vm, pd: nat, ghost dir: Path, i: nat, ghost mem0: Memory, ghost pool0: Pool,
                      ghost roles0: Roles)
    requires Owned(mem0, pool0, roles0) && |dir| == 2 && dir[0] >= SHARED_TOP && IsRole(roles0, pd, Table(0, dir))
    requires i < ENTRIES && pd in mem0 && pd in vm.mem && vm.mem[pd] == mem0[pd]
    requires GivenBack(pool0, roles0, Subtree(roles0, dir), vm.pool, vm.roles, FirstOf(i))
    modifies vm`pool, vm`roles
    ensures GivenBack(pool0, roles0, Subtree(roles0, dir), vm.pool, vm.roles, FirstOf(i + 1))
  {
    hide Owned, GivenBack;
    DirChild(mem0, pool0, roles0, pd, dir, i);
    SkipToTable(mem0, pool0, roles0, dir, vm.pool, vm.roles, i);
    var pt := Next(vm.mem, pd, i);
    if pt.Some? {
      GivePage(vm, pt.value, pool0, roles0, Subtree(roles0, dir), FirstOf(i) + ENTRIES);
    } else {
      SkipRanks(pool0, roles0, Subtree(roles0, dir), vm.pool, vm.roles, FirstOf(i) + ENTRIES, FirstOf(i + 1));
    }
  }

  method FreeDirTables(vm: Vm, pd: nat, ghost dir: Path, ghost mem0: Memory, ghost pool0: Pool, ghost roles0: Roles)
    requires Owned(mem0, pool0, roles0) && |dir| == 2 && dir[0] >= SHARED_TOP && IsRole(roles0, pd, Table(0, dir))
    requires pd in mem0 && pd in vm.mem && vm.mem[pd] == mem0[pd]
    requires GivenBack(pool0, roles0, Subtree(roles0, dir), vm.pool, vm.roles, 0)
    modifies vm`pool, vm`roles
    ensures GivenBack(pool0, roles0, Subtree(roles0, dir), vm.pool, vm.roles, ALL_RANKS)
  {
    hide Owned, GivenBack, Subtree;
    for i := 0 to ENTRIES
      invariant GivenBack(pool0, roles0, Subtree(roles0, dir), vm.pool, vm.roles, FirstOf(i))
    {
      FreeDirTable(vm, pd, dir, i, mem0, pool0, roles0);
    }
    DirLast(mem0, pool0, roles0, pd, dir);
    GivePage(vm, pd, pool0, roles0, Subtree(roles0, dir), FirstOf(ENTRIES));
    LastSkip(mem0, pool0, roles0, dir, vm.pool, vm.roles);
  }

  lemma LastSkip(mem0: Memory, pool0: Pool, roles0: Roles, dir: Path, pool: Pool, roles: Roles)
    requires Owned(mem0, pool0, roles0) && |dir| == 2
    requires GivenBack(pool0, roles0, Subtree(roles0, dir), pool, roles, FirstOf(ENTRIES) + 1)
    ensures GivenBack(pool0, roles0, Subtree(roles0, dir), pool, roles, ALL_RANKS)
  {
    SkipRanks(pool0, roles0, Subtree(roles0, dir), pool, roles, FirstOf(ENTRIES) + 1, ALL_RANKS);
  }

  lemma DirCuttable(mem: Memory, pool: Pool, roles: Roles, pdpt: nat, dir: Path)
    requires Owned(mem, pool, roles) && |dir| == 2 && dir[0] >= SHARED_TOP && IsRole(roles, pdpt, Table(0, dir[..1]))
    requires NoDataBelow(roles, dir)
    ensures CanCut(mem, roles, pdpt, dir[1]) && Below(roles[pdpt].place, dir[1]) == dir
  {
    RoleNotPage(mem, pool, roles, pdpt);
    assert dir[..1] + [dir[1]] == dir;
  }

  lemma DirGone(mem0: Memory, pool0: Pool, roles0: Roles, dir: Path, mem: Memory, pool: Pool, roles: Roles)
    requires SameWalks(Loosened(roles0, Subtree(roles0, dir)), mem0, mem)
    requires Released(pool0, roles0, Subtree(roles0, dir), pool, roles)
    ensures TablesGone(mem0, pool0, roles0, Subtree(roles0, dir), mem, pool, roles)
  {
    var was := Loosened(roles0, Subtree(roles0, dir));
    forall table: nat, path: Path | Starts(roles, table, path)
      ensures Walk(mem, table, path) == Walk(mem0, table, path)
    {
      assert Starts(was, table, path);
    }
  }

  /** A whole page directory with its page tables: the part of reclaim_process_window_tables for the mmap window. */
  method ReclaimDir(vm: Vm, dir: Path)
    requires vm.Valid() && |dir| == 2 && dir[0] >= SHARED_TOP && NoDataBelow(vm.roles, dir)
    modifies vm`mem, vm`pool, vm`roles
    ensures vm.Valid()
    ensures TablesGone(old(vm.mem), old(vm.pool), old(vm.roles), Subtree(old(vm.roles), dir), vm.mem, vm.pool, vm.roles)
  {
    hide Owned, TablesGone, NoDataBelow, CanCut, SameWalks, GivenBack, Released;
    ghost var mem0, pool0, roles0 := vm.mem, vm.pool, vm.roles;
    DirFound(mem0, pool0, roles0, vm.kernelRoot, dir);
    NoTablesGone(mem0, pool0, roles0);
    var pdpt := Next(vm.mem, vm.kernelRoot, dir[0]);
    if pdpt.None? {
      NoSlotTables(roles0, dir, 0, 0);
      return;
    }
    var pd := Next(vm.mem, pdpt.value, dir[1]);
    if pd.None? {
      NoSlotTables(roles0, dir, 0, 0);
      return;
    }
    DirCuttable(mem0, pool0, roles0, pdpt.value, dir);
    OwnedParts(mem0, pool0, roles0);
    CutOwned(mem0, pool0, roles0, pdpt.value, dir[1]);
    vm.roles := Loosened(roles0, Subtree(roles0, dir));
    NothingGivenBack(pool0, roles0, Subtree(roles0, dir));
    FreeDirTables(vm, pd.value, dir, mem0, pool0, roles0);
    vm.mem := Put(vm.mem, pdpt.value, dir[1], 0);
    ReturnedOwned(vm.mem, pool0, roles0, Subtree(roles0, dir), vm.pool, vm.roles, ALL_RANKS);
    AllGivenBack(pool0, roles0, Subtree(roles0, dir), vm.pool, vm.roles);
    KeepsRoot(pool0, roles0, Subtree(roles0, dir), vm.pool, vm.roles, vm.kernelRoot, dir);
    ReleasedAccounts(vm.pages, pool0, roles0, Subtree(roles0, dir), vm.pool, vm.roles);
    DirGone(mem0, pool0, roles0, dir, vm.mem, vm.pool, vm.roles);
  }

  lemma KeepsRoot(pool0: Pool, roles0: Roles, gone: set<nat>, pool: Pool, roles: Roles, k: nat, dir: Path)
    requires Released(pool0, roles0, gone, pool, roles) && IsRole(roles0, k, Table(0, []))
    requires dir != [] && gone == Subtree(roles0, dir)
    ensures IsRole(roles, k, Table(0, []))
  {
  }

  // ---- reclaim_process_window_tables ----

  /** The tables of the heap and mmap windows. */
  function WindowTablesOf(roles: Roles, pid: nat): set<nat> {
    SlotTables(roles, HeapDir(pid), HeapSlot(pid), HeapSlot(pid) + HEAP_SLOTS) + Subtree(roles, MmapDir(pid))
  }

  ghost predicate WindowsEmpty(roles: Roles, pid: nat) {
    && NoDataInSlots(roles, HeapDir(pid), HeapSlot(pid), HeapSlot(pid) + HEAP_SLOTS)
    && NoDataBelow(roles, MmapDir(pid))
  }

  lemma MmapUntouched(mem0: Memory, pool0: Pool, roles0: Roles, mem: Memory, pool: Pool, roles: Roles, pid: nat)
    requires pid < PID_LIMIT && WindowsEmpty(roles0, pid)
    requires TablesGone(mem0, pool0, roles0,
      SlotTables(roles0, HeapDir(pid), HeapSlot(pid), HeapSlot(pid) + HEAP_SLOTS),
                        mem, pool, roles)
    ensures NoDataBelow(roles, MmapDir(pid)) && Subtree(roles, MmapDir(pid)) == Subtree(roles0, MmapDir(pid))
  {
    HeapIndices(pid);
    MmapIndices(pid);
    forall x | x in Subtree(roles0, MmapDir(pid))
      ensures x !in SlotTables(roles0, HeapDir(pid), HeapSlot(pid), HeapSlot(pid) + HEAP_SLOTS)
    {
      assert roles0[x].place[..2][0] == 320 + pid / 512;
    }
  }

  /** reclaim_process_window_tables: every table of the two windows goes, and no translation changes. */
  method ReclaimProcessWindowTables(vm: Vm, pid: nat)
    requires vm.Valid() && pid < PID_LIMIT && WindowsEmpty(vm.roles, pid)
    modifies vm`mem, vm`pool, vm`roles
    ensures vm.Valid()
    ensures TablesGone(old(vm.mem), old(vm.pool), old(vm.roles), WindowTablesOf(old(vm.roles), pid), vm.mem, vm.pool,
      vm.roles)
  {
    hide Owned, Accounted, TablesGone, NoDataBelow, NoDataInSlots, SlotTables, Subtree, HeapDir, MmapDir, HeapSlot,
        WindowsEmpty;
    ghost var mem0, pool0, roles0 := vm.mem, vm.pool, vm.roles;
    WindowParts(roles0, pid);
    var first := HeapSlot(pid);
    ReclaimDirSlots(vm, HeapDir(pid), first, first + HEAP_SLOTS);
    ghost var mem1, pool1, roles1 := vm.mem, vm.pool, vm.roles;
    MmapUntouched(mem0, pool0, roles0, mem1, pool1, roles1, pid);
    ReclaimDir(vm, MmapDir(pid));
    TablesGoneChain(mem0, pool0, roles0, SlotTables(roles0, HeapDir(pid), first, first + HEAP_SLOTS), mem1, pool1,
                    roles1, Subtree(roles1, MmapDir(pid)), vm.mem, vm.pool, vm.roles);
  }

  lemma WindowParts(roles: Roles, pid: nat)
    requires pid < PID_LIMIT
    ensures HeapDir(pid)[0] >= SHARED_TOP && MmapDir(pid)[0] >= SHARED_TOP && HeapSlot(pid) + HEAP_SLOTS <= ENTRIES
    ensures WindowsEmpty(roles, pid) ==> NoDataInSlots(roles, HeapDir(pid), HeapSlot(pid), HeapSlot(pid) + HEAP_SLOTS)
  {
    HeapIndices(pid);
    MmapIndices(pid);
  }

  /** None of these tables serves an address in a window of another process. */
  lemma NotAnothers(mem: Memory, pool: Pool, roles: Roles, pid: nat, other: nat, x: nat, place: Path)
    requires pid < PID_LIMIT && other < PID_LIMIT && pid != other && x in WindowTablesOf(roles, pid)
    requires |place| == 4 && InWindows(other, place)
    ensures !IsPrefix(roles[x].place, place)
  {
    if IsPrefix(roles[x].place, place) {
      var mine := roles[x].place;
      if |mine| >= 3 {
        assert mine[..2] == place[..|mine|][..2] == place[..2] && mine[2] == place[..|mine|][2] == place[2];
      } else {
        assert mine == MmapDir(pid) == place[..2];
      }
      WindowsApart(pid, other, place);
    }
  }
}
