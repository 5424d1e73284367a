/** prepare_process: an address space, the program's segments in it, and a stack, or nothing of them. */
module ProcessStart {
  import opened Common
  import opened PageTables
  import opened PhysPages
  import opened PageOwners
  import opened PageReturn
  import opened Mappings
  import opened AddressSpaces
  import opened ProcessSpaces
  import opened ImagePages
  import opened SpaceTeardown
  import opened WindowTables
  import opened UserMemory
  import opened Sparing
  import opened ProcessStacks

  const APP_LOAD_MIN := 0x20_0000
  const APP_LOAD_MAX := 0x900_0000

  /** A loadable segment of a program file; `whole` says that the file holds all the bytes its header names. */
  datatype Segment = Segment(paddr: nat, memsz: nat, whole: bool)

  lemma OnlyStackKept(r: Region, mem0: Memory, roles0: Roles, mem: Memory, roles: Roles, k: nat, caller: nat, pid: nat)
    requires OnlyStack(roles0, pid) && Spares(r, roles0, mem0, roles, mem, k, caller) && PlacesOk(roles)
    requires Numbered(r) && pid < PID_LIMIT && r != Stack(pid)
    ensures OnlyStack(roles, pid)
  {
    SparesAll(r, Stack(pid), roles0, mem0, roles, mem, k);
    forall q | q in roles && roles[q].Data? && InStack(pid, roles[q].place)
      ensures InRun(roles[q], 0, StackRun(pid).virt, KERNEL_STACK_PAGES)
    {
      assert InRegion(Stack(pid), roles[q].place);
      assert IsRole(roles0, q, roles[q]);
    }
  }

  lemma NoStackKept(r: Region, mem0: Memory, roles0: Roles, mem: Memory, roles: Roles, k: nat, caller: nat, pid: nat)
    requires NoStack(roles0, pid) && Spares(r, roles0, mem0, roles, mem, k, caller) && PlacesOk(roles)
    requires Numbered(r) && pid < PID_LIMIT && r != Stack(pid)
    ensures NoStack(roles, pid)
  {
    SparesAll(r, Stack(pid), roles0, mem0, roles, mem, k);
    forall q | q in roles && roles[q].Data? && InStack(pid, roles[q].place) ensures IsRole(roles0, q, roles[q]) {
      assert InRegion(Stack(pid), roles[q].place);
    }
  }

  /** The kernel's large page at address 0 is nobody's, and is reached through the low tables. */
  lemma LowKept(r: Region, mem0: Memory, roles0: Roles, mem: Memory, roles: Roles, k: nat, caller: nat)
    requires LowMapped(mem0, k) && Spares(r, roles0, mem0, roles, mem, k, caller) && Numbered(r)
    ensures LowMapped(mem, k)
  {
    var path: Path := [0, 0, 0, 0];
    if InRegion(r, path) {
      RegionTop(r, path);
    }
  }

  lemma LowTablesThere(mem: Memory, k: nat)
    requires LowMapped(mem, k)
    ensures LowTablesPresent(mem, k)
  {
  }

  lemma SpaceSpares(mem0: Memory, roles0: Roles, mem: Memory, roles: Roles, k: nat, pid: nat, root: nat)
    requires SpaceCreated(mem0, roles0, mem, roles, k, pid, root) && IsRole(roles0, k, Table(0, []))
    ensures Spares(Nowhere, roles0, mem0, roles, mem, k, pid) && IsRole(roles, root, Table(pid, []))
  {
    forall path: Path | |path| == 4 ensures Walk(mem, k, path) == Walk(mem0, k, path) {
      assert Starts(roles0, k, path);
    }
    forall q: nat, path: Path | IsProcessRoot(roles0, q) && |path| == 4
      ensures Walk(mem, q, path) == Walk(mem0, q, path)
    {
      assert Starts(roles0, q, path);
    }
  }

  lemma ImageSpares(mem0: Memory, roles0: Roles, mem: Memory, roles: Roles, k: nat, pid: nat, root: nat)
    requires GrownPrivately(roles0, mem0, mem, pid) && OwnPagesAdded(roles0, roles, pid) && pid != 0
    requires IsRole(roles0, k, Table(0, []))
    ensures Spares(Nowhere, roles0, mem0, roles, mem, k, pid)
    ensures (IsRole(roles0, root, Table(pid, [])) ==> IsRole(roles, root, Table(pid, [])))
  {
    forall path: Path | |path| == 4 ensures Walk(mem, k, path) == Walk(mem0, k, path) {
      assert Starts(roles0, k, path);
    }
    forall q: nat, path: Path | IsProcessRoot(roles0, q) && roles0[q].owner != pid && |path| == 4
      ensures Walk(mem, q, path) == Walk(mem0, q, path)
    {
      assert Starts(roles0, q, path);
    }
    GainedSpares(Nowhere, roles0, mem0, roles, mem, k, pid);
  }

  lemma DestroySpares(pool0: Pool, roles0: Roles, mem: Memory, pool: Pool, roles: Roles, k: nat, pid: nat)
    requires Released(pool0, roles0, OfOwner(roles0, pid), pool, roles)
    ensures Spares(Nowhere, roles0, mem, roles, mem, k, pid) && forall q :: !IsRole(roles, q, Table(pid, []))
  {
    ReleasedLoses(pool0, roles0, OfOwner(roles0, pid), pool, roles, pid);
    LostSpares(Nowhere, roles0, mem, roles, mem, k, pid);
    assert forall q :: IsRole(roles, q, Table(pid, [])) ==> q in OfOwner(roles0, pid);
  }

  /** A start that failed leaves the number idle. */
  lemma StillIdle(r: Region, mem0: Memory, roles0: Roles, mem: Memory, roles: Roles, k: nat, pid: nat)
    requires Spares(r, roles0, mem0, roles, mem, k, pid) && PlacesOk(roles) && 0 < pid < PID_LIMIT
    requires (r == Nowhere || r == Stack(pid))
    requires Idle(roles0, pid) && forall q :: !IsRole(roles, q, Table(pid, []))
    ensures Idle(roles, pid)
  {
    StillUnrecorded(r, mem0, roles0, mem, roles, k, pid);
  }

  lemma StillUnrecorded(r: Region, mem0: Memory, roles0: Roles, mem: Memory, roles: Roles, k: nat, pid: nat)
    requires Spares(r, roles0, mem0, roles, mem, k, pid) && PlacesOk(roles) && 0 < pid < PID_LIMIT
    requires (r == Nowhere || r == Stack(pid))
    requires Recorded(roles0, pid, [])
    ensures Recorded(roles, pid, [])
  {
    SparesAll(r, Pages(pid), roles0, mem0, roles, mem, k);
    forall q | q in roles && roles[q].Data? && InOwnWindows(pid, roles[q].place) ensures RecordedIn(roles[q], []) {
      assert InRegion(Pages(pid), roles[q].place);
      assert IsRole(roles0, q, roles[q]);
    }
  }

  lemma SegmentTouchable(roles: Roles, root: nat, pid: nat, base: nat, n: nat)
    requires IsRole(roles, root, Table(pid, [])) && pid != 0
    requires base % PAGE_SIZE == 0 && APP_LOAD_MIN <= base && base + n * PAGE_SIZE <= APP_LOAD_MAX
    ensures MayTouchRun(roles, root, base, n)
  {
    forall i: nat | i < n ensures MayTouch(roles, root, PageAt(base, i)) {
      PageAligned(base, i);
      ImageWindow(base + i * PAGE_SIZE);
      assert PageAt(base, i)[..3][..2] == PageAt(base, i)[..2] == [0, 0];
    }
  }

  function PageStart(a: nat): nat {
    a / PAGE_SIZE * PAGE_SIZE
  }

  function PageCount(s: Segment): nat {
    (s.paddr + s.memsz + PAGE_SIZE - 1) / PAGE_SIZE - s.paddr / PAGE_SIZE
  }

  predicate InAppArea(s: Segment) {
    APP_LOAD_MIN <= s.paddr && s.paddr + s.memsz <= APP_LOAD_MAX
  }

  /** The pages of a segment lie where programs are loaded, and hold it. */
  lemma SegmentPages(s: Segment)
    requires InAppArea(s)
    ensures PageStart(s.paddr) % PAGE_SIZE == 0 && APP_LOAD_MIN <= PageStart(s.paddr) <= s.paddr
    ensures s.paddr + s.memsz <= PageStart(s.paddr) + PageCount(s) * PAGE_SIZE <= APP_LOAD_MAX
  {
    var last := (s.paddr + s.memsz + PAGE_SIZE - 1) / PAGE_SIZE;
    assert PageStart(s.paddr) + PageCount(s) * PAGE_SIZE == last * PAGE_SIZE;
  }

  /** Every page of every segment is mapped. */
  ghost predicate Loaded(mem: Memory, root: nat, segments: seq<Segment>) {
    forall i :: 0 <= i < |segments| && segments[i].memsz > 0 ==>
      segments[i].whole && InAppArea(segments[i])
          && AllMapped(mem, root, PageStart(segments[i].paddr), PageCount(segments[i]))
  }

  lemma LoadedMore(roles0: Roles, mem0: Memory, mem: Memory, root: nat, pid: nat, segments: seq<Segment>, s: Segment)
    requires GrownPrivately(roles0, mem0, mem, pid) && IsRole(roles0, root, Table(pid, [])) && pid != 0
    requires Loaded(mem0, root, segments)
    requires s.memsz > 0 ==> s.whole && InAppArea(s) && AllMapped(mem, root, PageStart(s.paddr), PageCount(s))
    ensures Loaded(mem, root, segments + [s])
  {
    hide GrownPrivately, InAppArea;
    forall i, p: nat | 0 <= i < |segments| && segments[i].memsz > 0 && p < PageCount(segments[i])
      ensures Walk(mem, root, PageAt(PageStart(segments[i].paddr), p)).Frame?
    {
      FramesStay(roles0, mem0, mem, root, pid, PageAt(PageStart(segments[i].paddr), p));
    }
  }

  lemma LoadedKept(mem0: Memory, mem: Memory, root: nat, segments: seq<Segment>)
    requires Loaded(mem0, root, segments) && LowViewKept(mem0, mem, root)
    ensures Loaded(mem, root, segments)
  {
    forall i, p: nat | 0 <= i < |segments| && segments[i].memsz > 0 && p < PageCount(segments[i])
      ensures Walk(mem, root, PageAt(PageStart(segments[i].paddr), p)).Frame?
    {
      SegmentPages(segments[i]);
      PageAligned(PageStart(segments[i].paddr), p);
      ImageWindow(PageStart(segments[i].paddr) + p * PAGE_SIZE);
    }
  }

  /** Every segment with memory is whole and in the area for programs. */
  predicate Sound(segments: seq<Segment>) {
    forall i :: 0 <= i < |segments| && segments[i].memsz > 0 ==> segments[i].whole && InAppArea(segments[i])
  }

  /** How many pages the segments have, a page that two of them share counted twice. */
  function TotalPages(segments: seq<Segment>): nat {
    if segments == [] then 0
    else
      var n := |segments| - 1;
      TotalPages(segments[..n]) + if segments[n].memsz > 0 then PageCount(segments[n]) else 0
  }

  lemma {:induction false} PartPages(segments: seq<Segment>, n: nat)
    requires n <= |segments|
    ensures TotalPages(segments[..n]) <= TotalPages(segments)
  {
    if n < |segments| {
      PartPages(segments[..|segments| - 1], n);
      assert segments[..|segments| - 1][..n] == segments[..n];
    } else {
      assert segments[..n] == segments;
    }
  }

  /** load_program_elf_isolated: every segment's pages are mapped, unless one is broken or outside the area for programs
      or the pages run out. */
  method LoadSegments(vm: Vm, root: nat, pid: nat, segments: seq<Segment>) returns (ok: bool)
    requires vm.Valid() && IsRole(vm.roles, root, Table(pid, [])) && pid != 0
    modifies vm`mem, vm`pool, vm`roles
    ensures vm.Valid() && IsRole(vm.roles, root, Table(pid, []))
    ensures Spares(Nowhere, old(vm.roles), old(vm.mem), vm.roles, vm.mem, vm.kernelRoot, pid)
    ensures ok ==> Loaded(vm.mem, root, segments)
    ensures if ok then FreeCount(vm.pool) + 4 * TotalPages(segments) >= FreeCount(old(vm.pool))
            else !Sound(segments) || FreeCount(old(vm.pool)) < 4 * TotalPages(segments)
  {
    hide Owned, Accounted, Spares, GrownPrivately, OwnPagesAdded, MayTouchRun, PageCount;
    ghost var mem0, roles0, k := vm.mem, vm.roles, vm.kernelRoot;
    NothingDone(Nowhere, roles0, mem0, k, pid);
    for n := 0 to |segments|
      invariant vm.Valid() && IsRole(vm.roles, root, Table(pid, []))
      invariant Spares(Nowhere, roles0, mem0, vm.roles, vm.mem, k, pid)
      invariant Loaded(vm.mem, root, segments[..n])
      invariant FreeCount(vm.pool) + 4 * TotalPages(segments[..n]) >= FreeCount(old(vm.pool))
    {
      var s := segments[n];
      assert segments[..n + 1] == segments[..n] + [s];
      assert segments[..n + 1][..n] == segments[..n];
      PartPages(segments, n + 1);
      if s.memsz == 0 {
        continue;
      }
      if !s.whole || !InAppArea(s) {
        return false;
      }
      SegmentPages(s);
      SegmentTouchable(vm.roles, root, pid, PageStart(s.paddr), PageCount(s));
      ghost var mem1, roles1 := vm.mem, vm.roles;
      var mapped := MapImagePages(vm, root, PageStart(s.paddr), PageCount(s));
      ImageSpares(mem1, roles1, vm.mem, vm.roles, k, pid, root);
      SparesChain(Nowhere, roles0, mem0, roles1, mem1, vm.roles, vm.mem, k, pid);
      if !mapped {
        return false;
      }
      LoadedMore(roles1, mem1, vm.mem, root, pid, segments[..n], s);
    }
    assert segments[..|segments|] == segments;
    ok := true;
  }

  /** A loaded process, or an idle number: what preparing one leaves. */
  ghost predicate Prepared(roles: Roles, mem: Memory, k: nat, pid: nat, segments: seq<Segment>, root: Option<nat>) {
    match root
    case Some(r) => IsRole(roles, r, Table(pid, [])) && Recorded(roles, pid, []) && StackMapped(mem, k, pid)
        && Loaded(mem, r, segments)
    case None => Idle(roles, pid)
  }

  /** Why there is no process: a segment that cannot be loaded, no low kernel tables to copy, or too few pages, with
      `more` for what comes after the segments. */
  ghost predicate SpaceRefused(mem: Memory, pool: Pool, k: nat, segments: seq<Segment>, more: nat) {
    !Sound(segments) || !LowTablesPresent(mem, k) || FreeCount(pool) < 6 + 4 * TotalPages(segments) + more
  }

  lemma PreparedSound(roles: Roles, mem: Memory, k: nat, pid: nat, segments: seq<Segment>, root: Option<nat>)
    requires Prepared(roles, mem, k, pid, segments, root) && root.Some?
    ensures Sound(segments)
  {
  }

  /** The address space and the segments; on a failure the space is torn down again. */
  method PrepareSpace(vm: Vm, pid: nat, segments: seq<Segment>) returns (root: Option<nat>)
    requires vm.Valid() && 0 < pid < PID_LIMIT && Idle(vm.roles, pid)
    modifies vm`mem, vm`pool, vm`roles
    ensures vm.Valid()
    ensures Spares(Nowhere, old(vm.roles), old(vm.mem), vm.roles, vm.mem, vm.kernelRoot, pid)
    ensures root.Some? ==> IsRole(vm.roles, root.value, Table(pid, [])) && Loaded(vm.mem, root.value, segments)
    ensures root.None? ==> forall q :: !IsRole(vm.roles, q, Table(pid, []))
    ensures if root.Some? then FreeCount(vm.pool) + 6 + 4 * TotalPages(segments) >= FreeCount(old(vm.pool))
            else SpaceRefused(old(vm.mem), old(vm.pool), vm.kernelRoot, segments, 0)
  {
    hide Owned, Accounted, Spares, SpaceCreated, SameWalks, NoneLost, Released, Recorded, Unowned, Sound;
    ghost var mem0, roles0, k := vm.mem, vm.roles, vm.kernelRoot;
    IdleOwnsNothing(vm.mem, vm.pool, vm.roles, pid);
    root := CreateProcessAddressSpace(vm, pid);
    if root.None? {
      NothingMappedSpares(Nowhere, roles0, mem0, vm.pool, vm.roles, vm.mem, k, 0);
      SparesOthers(Nowhere, roles0, mem0, vm.roles, vm.mem, k, pid);
      return;
    }
    SpaceSpares(mem0, roles0, vm.mem, vm.roles, k, pid, root.value);
    ghost var mem1, roles1 := vm.mem, vm.roles;
    var loaded := LoadSegments(vm, root.value, pid, segments);
    SparesChain(Nowhere, roles0, mem0, roles1, mem1, vm.roles, vm.mem, k, pid);
    if !loaded {
      Unmake(vm, pid, root.value, Nowhere, roles0, mem0);
      root := None;
    }
  }

  /** Tearing a space down again after what happened since `roles0`. */
  method Unmake(vm: Vm, pid: nat, root: nat, ghost r: Region, ghost roles0: Roles, ghost mem0: Memory)
    requires vm.Valid() && 0 < pid < PID_LIMIT && IsRole(vm.roles, root, Table(pid, []))
    requires Spares(r, roles0, mem0, vm.roles, vm.mem, vm.kernelRoot, pid)
    modifies vm`pool, vm`roles
    ensures vm.Valid() && Spares(r, roles0, mem0, vm.roles, vm.mem, vm.kernelRoot, pid)
    ensures Spares(Nowhere, old(vm.roles), vm.mem, vm.roles, vm.mem, vm.kernelRoot, pid)
    ensures forall q :: !IsRole(vm.roles, q, Table(pid, []))
  {
    hide Owned, Accounted, Spares, Released;
    ghost var pool1, roles1 := vm.pool, vm.roles;
    DestroyProcessAddressSpace(vm, root);
    DestroySpares(pool1, roles1, vm.mem, vm.pool, vm.roles, vm.kernelRoot, pid);
    SparesMore(r, roles1, vm.mem, vm.roles, vm.mem, vm.kernelRoot, pid);
    SparesChain(r, roles0, mem0, roles1, vm.mem, vm.roles, vm.mem, vm.kernelRoot, pid);
  }

  /** The stack slice and the image have nothing in common. */
  lemma StackSpares(roles0: Roles, mem0: Memory, roles: Roles, mem: Memory, k: nat, pid: nat, root: nat)
    requires Spares(Stack(pid), roles0, mem0, roles, mem, k, 0) && IsRole(roles0, root, Table(pid, []))
    requires 0 < pid < PID_LIMIT
    ensures LowViewKept(mem0, mem, root)
  {
    forall path: Path | |path| == 4 && path[0] < SHARED_TOP ensures Walk(mem, root, path) == Walk(mem0, root, path) {
      if InStack(pid, path) {
        RegionTop(Stack(pid), path);
      }
      assert IsProcessRoot(roles0, root);
    }
  }

  lemma StillVacant(roles0: Roles, mem0: Memory, roles: Roles, mem: Memory, k: nat, pid: nat)
    requires Spares(Nowhere, roles0, mem0, roles, mem, k, pid)
    ensures RunVacant(mem0, k, StackRun(pid).virt, KERNEL_STACK_PAGES) ==>
            RunVacant(mem, k, StackRun(pid).virt, KERNEL_STACK_PAGES)
  {
  }

  /** prepare_process, up to the first context of the process. */
  method PrepareProcess(vm: Vm, pid: nat, segments: seq<Segment>) returns (root: Option<nat>)
    requires vm.Valid() && 0 < pid < PID_LIMIT && Idle(vm.roles, pid) && OnlyStack(vm.roles, pid)
    modifies vm`mem, vm`pool, vm`roles
    ensures vm.Valid() && OnlyStack(vm.roles, pid)
    ensures Spares(Stack(pid), old(vm.roles), old(vm.mem), vm.roles, vm.mem, vm.kernelRoot, pid)
    ensures Prepared(vm.roles, vm.mem, vm.kernelRoot, pid, segments, root)
    ensures root.None? ==>
      SpaceRefused(old(vm.mem), old(vm.pool), vm.kernelRoot, segments, 4 * KERNEL_STACK_PAGES)
      || !RunVacant(old(vm.mem), vm.kernelRoot, StackRun(pid).virt, KERNEL_STACK_PAGES)
  {
    hide Owned, Accounted, Spares, Idle, OnlyStack, RunMapped, SameWalks, NoneLost, StackMapped, RunVacant, Recorded,
        PlacesOk, Loaded, LowViewKept, Sound, LowTablesPresent;
    ghost var mem0, roles0, k := vm.mem, vm.roles, vm.kernelRoot;
    root := PrepareSpace(vm, pid, segments);
    OwnedParts(vm.mem, vm.pool, vm.roles);
    OnlyStackKept(Nowhere, mem0, roles0, vm.mem, vm.roles, k, pid, pid);
    SparesMore(Stack(pid), roles0, mem0, vm.roles, vm.mem, k, pid);
    if root.None? {
      StillIdle(Nowhere, mem0, roles0, vm.mem, vm.roles, k, pid);
      return;
    }
    ghost var mem1, roles1 := vm.mem, vm.roles;
    StillVacant(roles0, mem0, roles1, mem1, k, pid);
    var top := CreateProcessStack(vm, pid);
    StackSpares(roles1, mem1, vm.roles, vm.mem, k, pid, root.value);
    LoadedKept(mem1, vm.mem, root.value, segments);
    SparesOthers(Stack(pid), roles1, mem1, vm.roles, vm.mem, k, pid);
    SparesChain(Stack(pid), roles0, mem0, roles1, mem1, vm.roles, vm.mem, k, pid);
    OwnedParts(vm.mem, vm.pool, vm.roles);
    if top.None? {
      ghost var roles2 := vm.roles;
      Unmake(vm, pid, root.value, Stack(pid), roles0, mem0);
      root := None;
      OwnedParts(vm.mem, vm.pool, vm.roles);
      OnlyStackKept(Nowhere, vm.mem, roles2, vm.mem, vm.roles, k, pid, pid);
      StillIdle(Stack(pid), mem0, roles0, vm.mem, vm.roles, k, pid);
      return;
    }
    IdleUnrecorded(roles0, pid);
    StillUnrecorded(Stack(pid), mem0, roles0, vm.mem, vm.roles, k, pid);
  }

  lemma IdleUnrecorded(roles: Roles, pid: nat)
    requires Idle(roles, pid)
    ensures Recorded(roles, pid, [])
  {
  }
}
