/** The exit of a process: recorded runs, window tables, then the private address space and the stack. */
module ProcessExit {
  import opened PageTables
  import opened PhysPages
  import opened PageOwners
  import opened PageReturn
  import opened Mappings
  import opened AddressSpaces
  import opened ProcessSpaces
  import opened WindowTables
  import opened SpaceTeardown
  import opened UserMemory
  import opened Sparing
  import opened ProcessMemory

  /** Walks to addresses outside the process's heap and mmap windows read as before. */
  ghost predicate OthersSee(roles0: Roles, mem0: Memory, roles: Roles, mem: Memory, pid: nat) {
    forall table: nat, q: Path :: Starts(roles, table, q) && Starts(roles0, table, q) && roles[table] == roles0[table]
                                  && !InOwnWindows(pid, roles[table].place + q) ==>
      Walk(mem, table, q) == Walk(mem0, table, q)
  }

  ghost function RecordedPages(roles: Roles, maps: seq<Mapping>): set<nat> {
    set x | x in roles && RecordedIn(roles[x], maps)
  }

  /** Some of the recorded runs are gone. */
  ghost predicate RunsGone(mem0: Memory, pool0: Pool, roles0: Roles, maps: seq<Mapping>, mem: Memory, pool: Pool,
                           roles: Roles, pid: nat) {
    && Released(pool0, roles0, RecordedPages(roles0, maps), pool, roles)
    && OthersSee(roles0, mem0, roles, mem, pid)
  }

  lemma NoRunsGone(mem: Memory, pool: Pool, roles: Roles, pid: nat)
    ensures RunsGone(mem, pool, roles, [], mem, pool, roles, pid)
  {
  }

  lemma RunPageInWindows(pid: nat, heapNext: nat, mmapNext: nat, m: Mapping, i: nat)
    requires BoundsOk(pid, heapNext, mmapNext) && InHandedOut(pid, heapNext, mmapNext, m) && i < m.pages
    ensures InOwnWindows(pid, PageAt(m.virt, i))
  {
    InWindow(pid, m.virt + i * PAGE_SIZE);
  }

  lemma SharesInWindows(mem: Memory, roles: Roles, k: nat, pid: nat, heapNext: nat, mmapNext: nat, m: Mapping,
                        table: nat, q: Path)
    requires TreeOk(mem, roles) && IsTableRole(roles, k, []) && Starts(roles, table, q)
    requires BoundsOk(pid, heapNext, mmapNext) && InHandedOut(pid, heapNext, mmapNext, m)
    ensures SharesAny(mem, k, m.virt, m.pages, table, q) ==> InOwnWindows(pid, roles[table].place + q)
  {
    hide InOwnWindows, BoundsOk, InHandedOut, TreeOk;
    if SharesAny(mem, k, m.virt, m.pages, table, q) {
      SharerPlace(mem, roles, k, m.virt, m.pages, table, q);
      var i: nat :| i < m.pages && PageAt(m.virt, i) == roles[table].place + q;
      RunPageInWindows(pid, heapNext, mmapNext, m, i);
    }
  }

  /** Unmapping a recorded run is seen in the windows only. */
  lemma EmptiedOthers(mem0: Memory, pool0: Pool, roles0: Roles, mem: Memory, pool: Pool, roles: Roles, k: nat, pid: nat,
                      heapNext: nat, mmapNext: nat, m: Mapping)
    requires TreeOk(mem0, roles0) && IsTableRole(roles0, k, [])
    requires BoundsOk(pid, heapNext, mmapNext) && InHandedOut(pid, heapNext, mmapNext, m)
    requires Emptied(mem0, pool0, roles0, mem, pool, roles, k, m.virt, m.pages)
    ensures OthersSee(roles0, mem0, roles, mem, pid)
  {
    hide InOwnWindows, BoundsOk, InHandedOut, TreeOk, SharesAny;
    forall table: nat, q: Path | Starts(roles, table, q) && Starts(roles0, table, q) && roles[table] == roles0[table]
                                 && !InOwnWindows(pid, roles[table].place + q)
      ensures Walk(mem, table, q) == Walk(mem0, table, q)
    {
      SharesInWindows(mem0, roles0, k, pid, heapNext, mmapNext, m, table, q);
    }
  }

  lemma EmptiedReleases(mem0: Memory, pool0: Pool, roles0: Roles, mem: Memory, pool: Pool, roles: Roles, k: nat,
                        m: Mapping)
    requires IsRole(roles0, k, Table(0, [])) && m.used && 0 !in roles0 && |pool0.stack| <= |pool.stack|
    requires Emptied(mem0, pool0, roles0, mem, pool, roles, k, m.virt, m.pages)
    ensures Released(pool0, roles0, RecordedPages(roles0, [m]), pool, roles)
  {
    forall q | q in roles0 ensures RecordedIn(roles0[q], [m]) <==> InRun(roles0[q], 0, m.virt, m.pages) {
      assert [m][0] == m;
    }
  }

  lemma OthersChain(roles0: Roles, mem0: Memory, roles1: Roles, mem1: Memory, roles: Roles, mem: Memory, pid: nat)
    requires OthersSee(roles0, mem0, roles1, mem1, pid) && OthersSee(roles1, mem1, roles, mem, pid)
    requires forall x :: x in roles && x in roles0 && roles[x] == roles0[x] && roles[x].Table? ==>
      x in roles1 && roles1[x] == roles[x]
    ensures OthersSee(roles0, mem0, roles, mem, pid)
  {
    forall table: nat, q: Path | Starts(roles, table, q) && Starts(roles0, table, q) && roles[table] == roles0[table]
                                 && !InOwnWindows(pid, roles[table].place + q)
      ensures Walk(mem, table, q) == Walk(mem0, table, q)
    {
      assert Starts(roles1, table, q);
    }
  }

  lemma BetweenKept(pool0: Pool, roles0: Roles, a: set<nat>, pool1: Pool, roles1: Roles, b: set<nat>, pool: Pool,
                    roles: Roles)
    requires Released(pool0, roles0, a, pool1, roles1) && Released(pool1, roles1, b, pool, roles)
    ensures forall x :: x in roles && x in roles0 && roles[x] == roles0[x] && roles[x].Table? ==>
      x in roles1 && roles1[x] == roles[x]
  {
  }

  lemma RecordedSplit(roles0: Roles, pool0: Pool, maps: seq<Mapping>, m: Mapping, pool: Pool, roles: Roles)
    requires Released(pool0, roles0, RecordedPages(roles0, maps), pool, roles)
    ensures RecordedPages(roles0, maps) + RecordedPages(roles, [m]) == RecordedPages(roles0, maps + [m])
  {
    forall x | x in roles0
      ensures RecordedIn(roles0[x], maps + [m]) <==> RecordedIn(roles0[x], maps) || RecordedIn(roles0[x], [m])
    {
      RecordedConcat(roles0[x], maps, m);
    }
  }

  lemma RecordedConcat(role: Role, maps: seq<Mapping>, m: Mapping)
    ensures RecordedIn(role, maps + [m]) <==> RecordedIn(role, maps) || RecordedIn(role, [m])
  {
    var all := maps + [m];
    if RecordedIn(role, all) {
      var i :| 0 <= i < |all| && all[i].used && InRun(role, 0, all[i].virt, all[i].pages);
      if i < |maps| {
        assert maps[i] == all[i];
      } else {
        assert [m][0] == all[i];
      }
    }
    if RecordedIn(role, maps) {
      var i :| 0 <= i < |maps| && maps[i].used && InRun(role, 0, maps[i].virt, maps[i].pages);
      assert all[i] == maps[i];
    }
    if RecordedIn(role, [m]) {
      assert all[|maps|] == m;
    }
  }

  lemma RunsGoneChain(mem0: Memory, pool0: Pool, roles0: Roles, maps: seq<Mapping>, mem1: Memory, pool1: Pool,
                      roles1: Roles, m: Mapping, mem: Memory, pool: Pool, roles: Roles, pid: nat)
    requires RunsGone(mem0, pool0, roles0, maps, mem1, pool1, roles1, pid)
    requires RunsGone(mem1, pool1, roles1, [m], mem, pool, roles, pid)
    ensures RunsGone(mem0, pool0, roles0, maps + [m], mem, pool, roles, pid)
  {
    var a, b := RecordedPages(roles0, maps), RecordedPages(roles1, [m]);
    RecordedSplit(roles0, pool0, maps, m, pool1, roles1);
    ReleasedChain(pool0, roles0, a, pool1, roles1, b, pool, roles);
    BetweenKept(pool0, roles0, a, pool1, roles1, b, pool, roles);
    OthersChain(roles0, mem0, roles1, mem1, roles, mem, pid);
  }

  lemma UnusedRunGone(mem: Memory, pool: Pool, roles: Roles, m: Mapping, pid: nat)
    requires !m.used
    ensures RunsGone(mem, pool, roles, [m], mem, pool, roles, pid)
  {
    assert RecordedPages(roles, [m]) == {};
  }

  /** One round of process_reclaim_mappings. */
  method ReclaimMapping(p: ProcessMemory, i: nat) returns (pages: nat)
    requires p.Valid() && i < p.mappings.Length && 0 !in p.vm.roles
    modifies p.vm, p.mappings
    ensures p.Valid() && p.mappings[..] == old(p.mappings[..])[i := p.mappings[i]] && !p.mappings[i].used
    ensures RunsGone(old(p.vm.mem), old(p.vm.pool), old(p.vm.roles), [old(p.mappings[..])[i]], p.vm.mem, p.vm.pool,
      p.vm.roles, p.pid)
    ensures 0 !in p.vm.roles
    ensures pages == |old(p.vm.roles)| - |p.vm.roles|
  {
    hide Owned, MemoryOk, Emptied, MayTouchRun, Released, OthersSee;
    ghost var mem0, pool0, roles0, maps, k := p.vm.mem, p.vm.pool, p.vm.roles, p.mappings[..], p.vm.kernelRoot;
    ProcessMemory.Bounds(mem0, roles0, k, p.pid, p.heapNext, p.mmapNext, maps, p.guards);
    if !p.mappings[i].used {
      UnusedRunGone(mem0, pool0, roles0, maps[i], p.pid);
      return 0;
    }
    OwnedParts(mem0, pool0, roles0);
    RunTouchable(roles0, k, p.pid, p.heapNext, p.mmapNext, maps[i]);
    pages := p.vm.UnmapUserPages(p.vm.kernelRoot, p.mappings[i].virt, p.mappings[i].pages);
    EmptiedOthers(mem0, pool0, roles0, p.vm.mem, p.vm.pool, p.vm.roles, k, p.pid, p.heapNext, p.mmapNext, maps[i]);
    EmptiedReleases(mem0, pool0, roles0, p.vm.mem, p.vm.pool, p.vm.roles, k, maps[i]);
    NoNewPages(pool0, roles0, RecordedPages(roles0, [maps[i]]), p.vm.pool, p.vm.roles, 0);
    RemovedKeeps(mem0, pool0, roles0, p.vm.mem, p.vm.pool, p.vm.roles, k, p.pid, p.heapNext, p.mmapNext, maps, p.guards,
                 i);
    p.mappings[i] := NO_MAPPING;
  }

  lemma NoNewPages(pool0: Pool, roles0: Roles, gone: set<nat>, pool: Pool, roles: Roles, x: nat)
    requires Released(pool0, roles0, gone, pool, roles) && x !in roles0
    ensures x !in roles
  {
  }

  /** process_reclaim_mappings: every recorded run is unmapped and returned; the result counts the pages. */
  method ReclaimMappings(p: ProcessMemory) returns (reclaimed: nat)
    requires p.Valid() && 0 !in p.vm.roles
    modifies p.vm, p.mappings
    ensures p.Valid() && forall m :: m in p.mappings[..] ==> !m.used
    ensures RunsGone(old(p.vm.mem), old(p.vm.pool), old(p.vm.roles), old(p.mappings[..]), p.vm.mem, p.vm.pool,
      p.vm.roles, p.pid)
    ensures reclaimed == |old(p.vm.roles)| - |p.vm.roles|
  {
    hide Owned, MemoryOk, RunsGone;
    ghost var mem0, pool0, roles0, maps := p.vm.mem, p.vm.pool, p.vm.roles, p.mappings[..];
    reclaimed := 0;
    NoRunsGone(mem0, pool0, roles0, p.pid);
    assert maps[..0] == [];
    for i := 0 to p.mappings.Length
      invariant p.Valid() && 0 !in p.vm.roles
      invariant forall j :: 0 <= j < i ==> !p.mappings[j].used
      invariant p.mappings[i..] == maps[i..]
      invariant RunsGone(mem0, pool0, roles0, maps[..i], p.vm.mem, p.vm.pool, p.vm.roles, p.pid)
      invariant reclaimed == |roles0| - |p.vm.roles|
    {
      ghost var mem1, pool1, roles1 := p.vm.mem, p.vm.pool, p.vm.roles;
      assert p.mappings[..][i] == p.mappings[i..][0] == maps[i];
      var pages := ReclaimMapping(p, i);
      RunsGoneChain(mem0, pool0, roles0, maps[..i], mem1, pool1, roles1, maps[i], p.vm.mem, p.vm.pool, p.vm.roles,
                    p.pid);
      assert maps[..i] + [maps[i]] == maps[..i + 1];
      reclaimed := reclaimed + pages;
    }
    assert maps[..p.mappings.Length] == maps;
  }

  // ---- Exit ----

  /** With no run recorded the windows hold no data. */
  lemma NothingLeft(mem: Memory, roles: Roles, k: nat, pid: nat, heapNext: nat, mmapNext: nat, maps: seq<Mapping>,
                    guards: set<nat>)
    requires MemoryOk(mem, roles, k, pid, heapNext, mmapNext, maps, guards) && forall m :: m in maps ==> !m.used
    ensures WindowsEmpty(roles, pid) && pid < PID_LIMIT
  {
    forall i | 0 <= i < |maps| ensures !maps[i].used {
      assert maps[i] in maps;
    }
    forall x | x in roles && roles[x].Data? ensures !RecordedIn(roles[x], maps) {
    }
  }

  /** Everything that is one process's alone: its private pages, its recorded pages, its window tables. */
  ghost function ExitPages(roles: Roles, pid: nat, maps: seq<Mapping>): set<nat> {
    RecordedPages(roles, maps) + WindowTablesOf(roles, pid) + OfOwner(roles, pid)
  }

  lemma DataOnly(roles: Roles, maps: seq<Mapping>)
    ensures forall x :: x in RecordedPages(roles, maps) ==> roles[x].Data? && roles[x].owner == 0
  {
  }

  /** Recorded pages are data, so the tables are the same after they are gone. */
  lemma TablesStay(pool0: Pool, roles0: Roles, maps: seq<Mapping>, pool: Pool, roles: Roles, pid: nat)
    requires Released(pool0, roles0, RecordedPages(roles0, maps), pool, roles) && pid != 0
    ensures WindowTablesOf(roles, pid) == WindowTablesOf(roles0, pid) && OfOwner(roles, pid) == OfOwner(roles0, pid)
  {
    DataOnly(roles0, maps);
  }

  lemma WindowTablesShared(mem: Memory, pool: Pool, roles: Roles, pid: nat, x: nat)
    requires Owned(mem, pool, roles) && pid < PID_LIMIT && x in WindowTablesOf(roles, pid)
    ensures roles[x].Table? && roles[x].owner == 0
  {
    HeapIndices(pid);
    MmapIndices(pid);
    var place := roles[x].place;
    assert place[..2][0] == place[0];
    SubtreeIsShared(roles, place[..2], x);
  }

  lemma OwnedStay(mem: Memory, pool0: Pool, roles0: Roles, pool: Pool, roles: Roles, pid: nat)
    requires Owned(mem, pool0, roles0) && 0 < pid < PID_LIMIT
    requires Released(pool0, roles0, WindowTablesOf(roles0, pid), pool, roles)
    ensures OfOwner(roles, pid) == OfOwner(roles0, pid)
  {
    forall x | x in WindowTablesOf(roles0, pid) ensures roles0[x].owner == 0 {
      WindowTablesShared(mem, pool0, roles0, pid, x);
    }
  }

  /** What an exit does. */
  ghost predicate Exited(mem0: Memory, pool0: Pool, roles0: Roles, maps: seq<Mapping>, mem: Memory, pool: Pool,
                         roles: Roles, pid: nat) {
    && Released(pool0, roles0, ExitPages(roles0, pid, maps), pool, roles)
    && OthersSee(roles0, mem0, roles, mem, pid)
  }

  lemma TablesGoneOthers(mem0: Memory, pool0: Pool, roles0: Roles, gone: set<nat>, mem: Memory, pool: Pool,
                         roles: Roles, pid: nat)
    requires TablesGone(mem0, pool0, roles0, gone, mem, pool, roles)
    ensures Released(pool0, roles0, gone, pool, roles) && OthersSee(roles0, mem0, roles, mem, pid)
  {
  }

  lemma SameOthers(roles0: Roles, roles: Roles, mem: Memory, pid: nat)
    ensures OthersSee(roles0, mem, roles, mem, pid)
  {
  }

  /** The three parts of an exit together. */
  lemma ExitParts(mem0: Memory, pool0: Pool, roles0: Roles, maps: seq<Mapping>, mem1: Memory, pool1: Pool,
                  roles1: Roles, mem2: Memory, pool2: Pool, roles2: Roles, pool: Pool, roles: Roles, pid: nat)
    requires RunsGone(mem0, pool0, roles0, maps, mem1, pool1, roles1, pid) && 0 < pid < PID_LIMIT
    requires Owned(mem1, pool1, roles1)
    requires TablesGone(mem1, pool1, roles1, WindowTablesOf(roles1, pid), mem2, pool2, roles2)
    requires Released(pool2, roles2, OfOwner(roles2, pid), pool, roles)
    ensures Exited(mem0, pool0, roles0, maps, mem2, pool, roles, pid)
  {
    hide Released, OthersSee, TablesGone, Owned;
    var a, b, c := RecordedPages(roles0, maps), WindowTablesOf(roles1, pid), OfOwner(roles2, pid);
    TablesGoneOthers(mem1, pool1, roles1, b, mem2, pool2, roles2, pid);
    TablesStay(pool0, roles0, maps, pool1, roles1, pid);
    OwnedStay(mem1, pool1, roles1, pool2, roles2, pid);
    BetweenKept(pool0, roles0, a, pool1, roles1, b, pool2, roles2);
    OthersChain(roles0, mem0, roles1, mem1, roles2, mem2, pid);
    ReleasedChain(pool0, roles0, a, pool1, roles1, b, pool2, roles2);
    BetweenKept(pool0, roles0, a + b, pool2, roles2, c, pool, roles);
    SameOthers(roles2, roles, mem2, pid);
    OthersChain(roles0, mem0, roles2, mem2, roles, mem2, pid);
    ReleasedChain(pool0, roles0, a + b, pool2, roles2, c, pool, roles);
  }

  /** The pages an exit lets go are no other process's roots, and none is left that is the process's own. */
  lemma ExitSpares(mem0: Memory, pool0: Pool, roles0: Roles, maps: seq<Mapping>, mem: Memory, pool: Pool, roles: Roles,
                   k: nat, pid: nat)
    requires Owned(mem0, pool0, roles0) && IsRole(roles0, k, Table(0, [])) && IsRole(roles, k, Table(0, []))
    requires 0 < pid < PID_LIMIT
    requires Recorded(roles0, pid, maps) && Exited(mem0, pool0, roles0, maps, mem, pool, roles, pid)
    ensures Spares(Pages(pid), roles0, mem0, roles, mem, k, pid) && Idle(roles, pid)
  {
    forall q | q in ExitPages(roles0, pid, maps) && IsProcessRoot(roles0, q) ensures roles0[q].owner == pid {
      if q in WindowTablesOf(roles0, pid) {
        WindowTablesShared(mem0, pool0, roles0, pid, q);
      }
    }
    ReleasedLoses(pool0, roles0, ExitPages(roles0, pid, maps), pool, roles, pid);
    forall path: Path | |path| == 4 && !InRegion(Pages(pid), path) ensures Walk(mem, k, path) == Walk(mem0, k, path) {
      assert [] + path == path;
      assert Starts(roles, k, path) && Starts(roles0, k, path);
    }
    forall q: nat, path: Path | IsProcessRoot(roles0, q) && roles0[q].owner != pid && |path| == 4
        && !InRegion(Pages(pid), path)
      ensures Walk(mem, q, path) == Walk(mem0, q, path)
    {
      assert [] + path == path && IsRole(roles, q, roles0[q]);
      assert Starts(roles, q, path) && Starts(roles0, q, path);
    }
    LostSpares(Pages(pid), roles0, mem0, roles, mem, k, pid);
    ExitIdle(pool0, roles0, maps, pool, roles, pid);
  }

  lemma ExitIdle(pool0: Pool, roles0: Roles, maps: seq<Mapping>, pool: Pool, roles: Roles, pid: nat)
    requires Recorded(roles0, pid, maps) && Released(pool0, roles0, ExitPages(roles0, pid, maps), pool, roles)
    ensures Idle(roles, pid)
  {
    hide RecordedIn, WindowTablesOf;
    forall q | q in roles && !roles[q].Loose?
      ensures q in roles0 && roles[q] == roles0[q] && q !in ExitPages(roles0, pid, maps)
    {
    }
    assert forall q :: q in roles && roles[q].Data? && InOwnWindows(pid, roles[q].place) ==>
        q in RecordedPages(roles0, maps);
    assert forall q :: IsRole(roles, q, Table(pid, [])) ==> q in OfOwner(roles0, pid);
  }

  lemma RootLasts(mem0: Memory, pool0: Pool, roles0: Roles, maps: seq<Mapping>, mem1: Memory, pool1: Pool,
                  roles1: Roles, pid: nat, root: nat)
    requires RunsGone(mem0, pool0, roles0, maps, mem1, pool1, roles1, pid) && IsProcessRoot(roles0, root)
    ensures IsRole(roles1, root, roles0[root])
  {
    DataOnly(roles0, maps);
  }

  lemma RootLastsTables(mem1: Memory, pool1: Pool, roles1: Roles, mem2: Memory, pool2: Pool, roles2: Roles, pid: nat,
                        root: nat)
    requires TablesGone(mem1, pool1, roles1, WindowTablesOf(roles1, pid), mem2, pool2, roles2)
    requires IsProcessRoot(roles1, root)
    ensures IsRole(roles2, root, roles1[root])
  {
  }

  /** The exit sequence of process_trampoline: all that was the process's alone is returned, each page once,
      and no address outside its heap and mmap windows translates differently from any root that is left. */
  method ExitProcess(p: ProcessMemory, root: nat)
    requires p.Valid() && IsRole(p.vm.roles, root, Table(p.pid, [])) && p.pid != 0 && 0 !in p.vm.roles
    modifies p.vm, p.mappings
    ensures p.vm.Valid()
    ensures Exited(old(p.vm.mem), old(p.vm.pool), old(p.vm.roles), old(p.mappings[..]), p.vm.mem, p.vm.pool, p.vm.roles,
      p.pid)
    ensures Spares(Pages(p.pid), old(p.vm.roles), old(p.vm.mem), p.vm.roles, p.vm.mem, p.vm.kernelRoot, p.pid)
    ensures Idle(p.vm.roles, p.pid)
  {
    hide Owned, MemoryOk, RunsGone, TablesGone, Released, Exited, WindowsEmpty, Recorded, Spares, Idle;
    var vm := p.vm;
    var pid := p.pid;
    ghost var mem0, pool0, roles0, maps := vm.mem, vm.pool, vm.roles, p.mappings[..];
    var reclaimed := ReclaimMappings(p);
    ghost var mem1, pool1, roles1 := vm.mem, vm.pool, vm.roles;
    NothingLeft(mem1, roles1, vm.kernelRoot, pid, p.heapNext, p.mmapNext, p.mappings[..], p.guards);
    RootLasts(mem0, pool0, roles0, maps, mem1, pool1, roles1, pid, root);
    ReclaimProcessWindowTables(vm, pid);
    ghost var mem2, pool2, roles2 := vm.mem, vm.pool, vm.roles;
    RootLastsTables(mem1, pool1, roles1, mem2, pool2, roles2, pid, root);
    DestroyProcessAddressSpace(vm, root);
    ExitParts(mem0, pool0, roles0, maps, mem1, pool1, roles1, mem2, pool2, roles2, vm.pool, vm.roles, pid);
    RecordOf(mem0, roles0, vm.kernelRoot, pid, old(p.heapNext), old(p.mmapNext), maps, old(p.guards));
    ExitSpares(mem0, pool0, roles0, maps, vm.mem, vm.pool, vm.roles, vm.kernelRoot, pid);
  }

  lemma RecordOf(mem: Memory, roles: Roles, k: nat, pid: nat, heapNext: nat, mmapNext: nat, maps: seq<Mapping>,
                 guards: set<nat>)
    requires MemoryOk(mem, roles, k, pid, heapNext, mmapNext, maps, guards)
    ensures Recorded(roles, pid, maps) && pid < PID_LIMIT
  {
  }
}
