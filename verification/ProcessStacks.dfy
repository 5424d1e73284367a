/** Kernel stacks: 32 pages at the top of a 2 MiB slice of the shared stack window. */
module ProcessStacks {
  import opened Common
  import opened PageTables
  import opened PhysPages
  import opened PageOwners
  import opened PageReturn
  import opened Mappings
  import opened AddressSpaces
  import opened ProcessSpaces
  import opened WindowTables
  import opened UserMemory
  import opened Sparing
  import opened ProcessExit

  const KERNEL_STACK_PAGES := 32

  function StackRun(pid: nat): Mapping {
    Mapping(true, StackBase(pid) + KERNEL_STACK_STRIDE - KERNEL_STACK_PAGES * PAGE_SIZE, KERNEL_STACK_PAGES)
  }

  lemma StackPages(pid: nat, i: nat)
    requires pid < PID_LIMIT && i < KERNEL_STACK_PAGES
    ensures InStack(pid, PageAt(StackRun(pid).virt, i)) && PageAt(StackRun(pid).virt, i)[0] >= SHARED_TOP
    ensures StackRun(pid).virt % PAGE_SIZE == 0
  {
    StackAddress(pid, StackRun(pid).virt + i * PAGE_SIZE);
  }

  lemma StackTouchable(roles: Roles, k: nat, pid: nat)
    requires IsRole(roles, k, Table(0, [])) && pid < PID_LIMIT
    ensures MayTouchRun(roles, k, StackRun(pid).virt, KERNEL_STACK_PAGES)
  {
    forall i: nat | i < KERNEL_STACK_PAGES ensures MayTouch(roles, k, PageAt(StackRun(pid).virt, i)) {
      StackPages(pid, i);
    }
    StackPages(pid, 0);
  }

  lemma StackIn(pid: nat)
    requires pid < PID_LIMIT
    ensures RunIn(Stack(pid), StackRun(pid).virt, KERNEL_STACK_PAGES)
  {
    forall i: nat | i < KERNEL_STACK_PAGES ensures InRegion(Stack(pid), PageAt(StackRun(pid).virt, i)) {
      StackPages(pid, i);
    }
  }

  /** The whole stack is mapped. */
  ghost predicate StackMapped(mem: Memory, k: nat, pid: nat) {
    forall i: nat :: i < KERNEL_STACK_PAGES ==> Walk(mem, k, PageAt(StackRun(pid).virt, i)).Frame?
  }

  /** The slice holds nothing but the stack. */
  ghost predicate OnlyStack(roles: Roles, pid: nat) {
    forall q :: q in roles && roles[q].Data? && InStack(pid, roles[q].place) ==>
        InRun(roles[q], 0, StackRun(pid).virt, KERNEL_STACK_PAGES)
  }

  ghost predicate NoStack(roles: Roles, pid: nat) {
    forall q :: q in roles && roles[q].Data? ==> !InStack(pid, roles[q].place)
  }

  /** Where no data page is, nothing is mapped. */
  lemma NoStackVacant(mem: Memory, pool: Pool, roles: Roles, k: nat, pid: nat)
    requires Owned(mem, pool, roles) && IsRole(roles, k, Table(0, [])) && pid < PID_LIMIT && NoStack(roles, pid)
    ensures RunVacant(mem, k, StackRun(pid).virt, KERNEL_STACK_PAGES)
  {
    hide Owned, InStack;
    OwnedParts(mem, pool, roles);
    StackTouchable(roles, k, pid);
    forall i: nat | i < KERNEL_STACK_PAGES ensures Walk(mem, k, PageAt(StackRun(pid).virt, i)) == Unmapped {
      var path := PageAt(StackRun(pid).virt, i);
      StackPages(pid, i);
      assert [] + path == path;
      NeverLarge(mem, roles, k, path);
      if Walk(mem, k, path).Frame? {
        MappedIsData(mem, pool, roles, k, path);
      }
    }
  }

  lemma StackGrew(mem0: Memory, roles0: Roles, mem: Memory, roles: Roles, k: nat, pid: nat)
    requires IsRole(roles0, k, Table(0, []))
    requires RunMapped(mem0, roles0, mem, roles, k, StackRun(pid).virt, KERNEL_STACK_PAGES)
    ensures (OnlyStack(roles0, pid) ==> OnlyStack(roles, pid)) && StackMapped(mem, k, pid)
  {
  }

  lemma StackSame(pool: Pool, roles0: Roles, roles: Roles, pid: nat)
    requires NoneLost(pool, roles0, roles)
    ensures OnlyStack(roles0, pid) ==> OnlyStack(roles, pid)
  {
  }

  /** create_process_stack: the top of a freshly mapped stack, or nothing mapped. */
  method CreateProcessStack(vm: Vm, pid: nat) returns (top: Option<nat>)
    requires vm.Valid() && pid < PID_LIMIT
    modifies vm`mem, vm`pool, vm`roles
    ensures vm.Valid()
    ensures top.Some? ==> top.value == EndOf(StackRun(pid)) == StackBase(pid) + KERNEL_STACK_STRIDE
    ensures top.Some? ==>
      RunMapped(old(vm.mem), old(vm.roles), vm.mem, vm.roles, vm.kernelRoot, StackRun(pid).virt, KERNEL_STACK_PAGES)
    ensures top.None? ==> SameWalks(old(vm.roles), old(vm.mem), vm.mem) && NoneLost(vm.pool, old(vm.roles), vm.roles)
    ensures top.None? && RunVacant(old(vm.mem), vm.kernelRoot, StackRun(pid).virt, KERNEL_STACK_PAGES) ==>
      FreeCount(old(vm.pool)) < 4 * KERNEL_STACK_PAGES
    ensures Spares(Stack(pid), old(vm.roles), old(vm.mem), vm.roles, vm.mem, vm.kernelRoot, 0)
    ensures (OnlyStack(old(vm.roles), pid) ==> OnlyStack(vm.roles, pid))
    ensures (top.Some? ==> StackMapped(vm.mem, vm.kernelRoot, pid))
  {
    hide Owned, MayTouchRun, RunMapped, SameWalks, NoneLost, Spares, RunIn, OnlyStack, StackMapped;
    ghost var mem0, roles0, k := vm.mem, vm.roles, vm.kernelRoot;
    StackTouchable(vm.roles, vm.kernelRoot, pid);
    StackIn(pid);
    var stackTop := StackBase(pid) + KERNEL_STACK_STRIDE;
    var ok := vm.MapUserPages(vm.kernelRoot, stackTop - KERNEL_STACK_PAGES * PAGE_SIZE, KERNEL_STACK_PAGES);
    OwnedParts(vm.mem, vm.pool, vm.roles);
    if ok {
      RunMappedSpares(Stack(pid), roles0, mem0, vm.roles, vm.mem, k, 0, StackRun(pid).virt, KERNEL_STACK_PAGES);
      StackGrew(mem0, roles0, vm.mem, vm.roles, k, pid);
    } else {
      NothingMappedSpares(Stack(pid), roles0, mem0, vm.pool, vm.roles, vm.mem, k, 0);
      StackSame(vm.pool, roles0, vm.roles, pid);
    }
    return if ok then Some(stackTop) else None;
  }

  /** Walks to addresses outside the process's stack slice read as before. */
  ghost predicate SeeSame(roles0: Roles, mem0: Memory, roles: Roles, mem: Memory, pid: nat) {
    forall table: nat, q: Path :: Starts(roles, table, q) && Starts(roles0, table, q) && roles[table] == roles0[table]
                                  && !InStack(pid, roles[table].place + q) ==>
      Walk(mem, table, q) == Walk(mem0, table, q)
  }

  lemma SharesInStack(mem: Memory, roles: Roles, k: nat, pid: nat, table: nat, q: Path)
    requires TreeOk(mem, roles) && IsTableRole(roles, k, []) && Starts(roles, table, q) && pid < PID_LIMIT
    ensures SharesAny(mem, k, StackRun(pid).virt, KERNEL_STACK_PAGES, table, q) ==> InStack(pid, roles[table].place + q)
  {
    hide InStack, TreeOk;
    if SharesAny(mem, k, StackRun(pid).virt, KERNEL_STACK_PAGES, table, q) {
      SharerPlace(mem, roles, k, StackRun(pid).virt, KERNEL_STACK_PAGES, table, q);
      var i: nat :| i < KERNEL_STACK_PAGES && PageAt(StackRun(pid).virt, i) == roles[table].place + q;
      StackPages(pid, i);
    }
  }

  lemma EmptiedSeeSame(mem0: Memory, pool0: Pool, roles0: Roles, mem: Memory, pool: Pool, roles: Roles, k: nat,
                       pid: nat)
    requires TreeOk(mem0, roles0) && IsTableRole(roles0, k, []) && pid < PID_LIMIT
    requires Emptied(mem0, pool0, roles0, mem, pool, roles, k, StackRun(pid).virt, KERNEL_STACK_PAGES)
    ensures SeeSame(roles0, mem0, roles, mem, pid)
  {
    hide InStack, TreeOk, SharesAny;
    forall table: nat, q: Path | Starts(roles, table, q) && Starts(roles0, table, q) && roles[table] == roles0[table]
                                 && !InStack(pid, roles[table].place + q)
      ensures Walk(mem, table, q) == Walk(mem0, table, q)
    {
      SharesInStack(mem0, roles0, k, pid, table, q);
    }
  }

  lemma SeeSameChain(mem0: Memory, pool0: Pool, roles0: Roles, a: set<nat>, mem1: Memory, pool1: Pool, roles1: Roles,
                     b: set<nat>, mem: Memory, pool: Pool, roles: Roles, pid: nat)
    requires SeeSame(roles0, mem0, roles1, mem1, pid) && Released(pool0, roles0, a, pool1, roles1)
    requires TablesGone(mem1, pool1, roles1, b, mem, pool, roles)
    ensures SeeSame(roles0, mem0, roles, mem, pid) && Released(pool0, roles0, a + b, pool, roles)
  {
    ReleasedChain(pool0, roles0, a, pool1, roles1, b, pool, roles);
    forall table: nat, q: Path | Starts(roles, table, q) && Starts(roles0, table, q) && roles[table] == roles0[table]
                                 && !InStack(pid, roles[table].place + q)
      ensures Walk(mem, table, q) == Walk(mem0, table, q)
    {
      assert Starts(roles1, table, q);
    }
  }

  lemma SliceEmpty(mem0: Memory, pool0: Pool, roles0: Roles, mem: Memory, pool: Pool, roles: Roles, k: nat, pid: nat)
    requires IsRole(roles0, k, Table(0, [])) && OnlyStack(roles0, pid)
    requires Emptied(mem0, pool0, roles0, mem, pool, roles, k, StackRun(pid).virt, KERNEL_STACK_PAGES)
    ensures NoDataInSlots(roles, StackDir(pid), StackSlot(pid), StackSlot(pid) + 1)
    ensures SlotTables(roles, StackDir(pid), StackSlot(pid), StackSlot(pid) + 1)
         == SlotTables(roles0, StackDir(pid), StackSlot(pid), StackSlot(pid) + 1)
  {
  }

  /** reclaim_process_stack: the stack's pages and their page table are returned, each once. */
  method ReclaimProcessStack(vm: Vm, pid: nat)
    requires vm.Valid() && pid < PID_LIMIT && OnlyStack(vm.roles, pid) && 0 !in vm.roles
    modifies vm`mem, vm`pool, vm`roles
    ensures vm.Valid() && SeeSame(old(vm.roles), old(vm.mem), vm.roles, vm.mem, pid)
    ensures Released(old(vm.pool), old(vm.roles), RecordedPages(old(vm.roles), [StackRun(pid)])
                     + SlotTables(old(vm.roles), StackDir(pid), StackSlot(pid), StackSlot(pid) + 1), vm.pool, vm.roles)
    ensures Spares(Stack(pid), old(vm.roles), old(vm.mem), vm.roles, vm.mem, vm.kernelRoot, 0)
    ensures NoStack(vm.roles, pid)
    ensures forall other :: NoStack(old(vm.roles), other) ==> NoStack(vm.roles, other)
  {
    StackIndices(pid);
    hide Owned, MayTouchRun, Emptied, OnlyStack, Spares, NoDataInSlots, SeeSame, Released, TablesGone, StackDir,
        StackSlot;
    ghost var mem0, pool0, roles0, k := vm.mem, vm.pool, vm.roles, vm.kernelRoot;
    StackTouchable(vm.roles, vm.kernelRoot, pid);
    OwnedParts(mem0, pool0, roles0);
    var run := StackRun(pid);
    var reclaimed := vm.UnmapUserPages(vm.kernelRoot, run.virt, run.pages);
    ghost var mem1, pool1, roles1 := vm.mem, vm.pool, vm.roles;
    EmptiedSeeSame(mem0, pool0, roles0, mem1, pool1, roles1, k, pid);
    EmptiedReleases(mem0, pool0, roles0, mem1, pool1, roles1, k, StackRun(pid));
    SliceEmpty(mem0, pool0, roles0, mem1, pool1, roles1, k, pid);
    ReclaimDirSlots(vm, StackDir(pid), StackSlot(pid), StackSlot(pid) + 1);
    SeeSameChain(mem0, pool0, roles0, RecordedPages(roles0, [StackRun(pid)]), mem1, pool1, roles1,
                 SlotTables(roles1, StackDir(pid), StackSlot(pid), StackSlot(pid) + 1), vm.mem, vm.pool, vm.roles, pid);
    ReclaimSpares(mem0, pool0, roles0, vm.mem, vm.pool, vm.roles, k, pid);
    StackGone(pool0, roles0, vm.pool, vm.roles, pid);
  }

  /** Of the slice nothing is left, and no other one has gained anything. */
  lemma StackGone(pool0: Pool, roles0: Roles, pool: Pool, roles: Roles, pid: nat)
    requires Released(pool0, roles0, RecordedPages(roles0, [StackRun(pid)])
                      + SlotTables(roles0, StackDir(pid), StackSlot(pid), StackSlot(pid) + 1), pool, roles)
    requires OnlyStack(roles0, pid)
    ensures NoStack(roles, pid) && forall other :: NoStack(roles0, other) ==> NoStack(roles, other)
  {
    forall q | q in roles0 && roles0[q].Data? && InStack(pid, roles0[q].place)
      ensures q in RecordedPages(roles0, [StackRun(pid)])
    {
      assert [StackRun(pid)][0] == StackRun(pid);
    }
  }

  lemma NothingThere(roles: Roles, pid: nat)
    requires NoStack(roles, pid)
    ensures OnlyStack(roles, pid)
  {
  }

  lemma ReclaimSpares(mem0: Memory, pool0: Pool, roles0: Roles, mem: Memory, pool: Pool, roles: Roles, k: nat, pid: nat)
    requires SeeSame(roles0, mem0, roles, mem, pid) && IsRole(roles0, k, Table(0, [])) && IsRole(roles, k, Table(0, []))
    requires Released(pool0, roles0, RecordedPages(roles0, [StackRun(pid)])
                      + SlotTables(roles0, StackDir(pid), StackSlot(pid), StackSlot(pid) + 1), pool, roles)
    requires OnlyStack(roles0, pid)
    ensures Spares(Stack(pid), roles0, mem0, roles, mem, k, 0) && OnlyStack(roles, pid)
  {
    var gone := RecordedPages(roles0, [StackRun(pid)])
        + SlotTables(roles0, StackDir(pid), StackSlot(pid), StackSlot(pid) + 1);
    ReleasedLoses(pool0, roles0, gone, pool, roles, 0);
    forall path: Path | |path| == 4 && !InRegion(Stack(pid), path) ensures Walk(mem, k, path) == Walk(mem0, k, path) {
      assert [] + path == path;
      assert Starts(roles, k, path) && Starts(roles0, k, path);
    }
    forall q: nat, path: Path | IsProcessRoot(roles0, q) && |path| == 4 && !InRegion(Stack(pid), path)
      ensures Walk(mem, q, path) == Walk(mem0, q, path)
    {
      assert [] + path == path && IsRole(roles, q, roles0[q]);
      assert Starts(roles, q, path) && Starts(roles0, q, path);
    }
    LostSpares(Stack(pid), roles0, mem0, roles, mem, k, 0);
  }
}
