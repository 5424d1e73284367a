/** All processes on one set of tables: starting, memory calls, exits and late stack reclaims, in any order. */
module UserSpaces {
  import opened Common
  import opened PageTables
  import opened PhysPages
  import opened PageOwners
  import opened PageReturn
  import opened Mappings
  import opened AddressSpaces
  import opened ProcessSpaces
  import opened ImagePages
  import opened SpaceTeardown
  import opened WindowTables
  import opened UserMemory
  import opened Sparing
  import opened ProcessMemory
  import opened ProcessExit
  import opened ProcessStacks
  import opened ProcessStart
  import opened UserHeap

  const PENDING_MAX := 16

  /** As many pages as starting a program can take: four for each page of an image and a stack, six for the root. */
  function StartPages(segments: seq<Segment>): nat {
    6 + 4 * TotalPages(segments) + 4 * KERNEL_STACK_PAGES
  }

  /** What is remembered of a process: its program, the kernel's record of its memory, and its own allocator, which is
      not followed any further once the program has unmapped one of the allocator's chunks. */
  datatype ProcState = ProcState(root: nat, segments: seq<Segment>, tidy: bool, heapNext: nat, mmapNext: nat,
                                 maps: seq<Mapping>, guards: set<nat>, next: nat, end: nat, blocks: seq<Span>,
                                 chunks: seq<Span>)

  datatype World = World(mem: Memory, roles: Roles, procs: map<nat, ProcState>, pending: seq<nat>, nextPid: nat)

  ghost predicate ProcOk(mem: Memory, roles: Roles, k: nat, pid: nat, s: ProcState) {
    && MemoryOk(mem, roles, k, pid, s.heapNext, s.mmapNext, s.maps, s.guards)
    && (s.tidy ==> HeapOk(mem, k, pid, s.heapNext, s.next, s.end, s.blocks, s.chunks))
    && IsRole(roles, s.root, Table(pid, [])) && Loaded(mem, s.root, s.segments) && StackMapped(mem, k, pid)
  }

  /** Stacks wait for their reclaim once each, and only after the process ended. */
  predicate PendingOk(pending: seq<nat>, running: set<nat>, nextPid: nat) {
    && |pending| <= PENDING_MAX
    && (forall i :: 0 <= i < |pending| ==> 0 < pending[i] < nextPid && pending[i] !in running)
    && (forall i, j :: 0 <= i < j < |pending| ==> pending[i] != pending[j])
  }

  ghost predicate WorldOk(w: World, k: nat) {
    && 1 <= w.nextPid <= PID_LIMIT && PendingOk(w.pending, w.procs.Keys, w.nextPid)
    && (forall pid :: pid in w.procs ==> 0 < pid < w.nextPid && ProcOk(w.mem, w.roles, k, pid, w.procs[pid]))
    && (forall pid: nat :: 0 < pid < PID_LIMIT && pid !in w.procs ==> Idle(w.roles, pid))
    && (forall pid: nat :: pid < PID_LIMIT ==> OnlyStack(w.roles, pid))
    && LowMapped(w.mem, k) && (forall pid: nat :: w.nextPid <= pid < PID_LIMIT ==> NoStack(w.roles, pid))
  }

  /** A process later on: its image and its stack are the same pages, guards stay reserved, blocks stay handed out. */
  ghost predicate ProcLater(mem0: Memory, mem: Memory, pid: nat, s: ProcState, s': ProcState) {
    && s'.root == s.root && s'.segments == s.segments && SameView(mem0, mem, s.root, pid)
    && s.guards <= s'.guards && (s'.tidy ==> s.tidy && s.blocks <= s'.blocks)
  }

  /** A later state; numbers are not reused. */
  ghost predicate Later(w: World, w': World) {
    && w.nextPid <= w'.nextPid && (forall pid :: pid in w.procs ==> pid < w.nextPid)
    && (forall pid :: pid in w'.procs ==> pid in w.procs || pid >= w.nextPid)
    && (forall pid :: pid in w'.procs && pid in w.procs ==> ProcLater(w.mem, w'.mem, pid, w.procs[pid], w'.procs[pid]))
  }

  lemma LaterSame(w: World, k: nat)
    requires WorldOk(w, k)
    ensures Later(w, w)
  {
  }

  lemma LaterChain(a: World, b: World, c: World)
    requires Later(a, b) && Later(b, c)
    ensures Later(a, c)
  {
    forall pid | pid in c.procs && pid in a.procs ensures ProcLater(a.mem, c.mem, pid, a.procs[pid], c.procs[pid]) {
      assert ProcLater(a.mem, b.mem, pid, a.procs[pid], b.procs[pid])
          && ProcLater(b.mem, c.mem, pid, b.procs[pid], c.procs[pid]);
    }
  }

  // ---- One call seen by everybody ----

  /** Another process is as it was. */
  lemma ProcKept(r: Region, mem0: Memory, roles0: Roles, mem: Memory, roles: Roles, k: nat, caller: nat, pid: nat,
                 s: ProcState)
    requires ProcOk(mem0, roles0, k, pid, s) && Spares(r, roles0, mem0, roles, mem, k, caller) && PlacesOk(roles)
    requires Numbered(r) && 0 < pid < PID_LIMIT && pid != caller && r != Pages(pid) && r != Stack(pid)
    ensures ProcOk(mem, roles, k, pid, s) && ProcLater(mem0, mem, pid, s, s)
  {
    hide MemoryOk, HeapOk, PlacesOk, RegionKept, OnlyIn, OtherViews, Loaded, SameView;
    ViewKept(r, roles0, mem0, roles, mem, k, caller, pid, s.root);
    ViewLow(mem0, mem, s.root, pid);
    LoadedKept(mem0, mem, s.root, s.segments);
    SparesAll(r, Pages(pid), roles0, mem0, roles, mem, k);
    SparesAll(r, Stack(pid), roles0, mem0, roles, mem, k);
    MemoryKept(mem0, roles0, mem, roles, k, pid, s.heapNext, s.mmapNext, s.maps, s.guards);
    MemoryBounds(mem0, roles0, k, pid, s.heapNext, s.mmapNext, s.maps, s.guards);
    if s.tidy {
      HeapKept(mem0, roles0, mem, roles, k, pid, s.heapNext, s.next, s.end, s.blocks, s.chunks);
    }
    StackKept(roles0, mem0, roles, mem, k, pid);
    assert IsRole(roles, s.root, Table(pid, [])) <==> IsRole(roles0, s.root, Table(pid, []));
  }

  lemma ViewLow(mem0: Memory, mem: Memory, root: nat, pid: nat)
    requires SameView(mem0, mem, root, pid)
    ensures LowViewKept(mem0, mem, root)
  {
  }

  lemma StackKept(roles0: Roles, mem0: Memory, roles: Roles, mem: Memory, k: nat, pid: nat)
    requires RegionKept(Stack(pid), roles0, mem0, roles, mem, k) && StackMapped(mem0, k, pid) && pid < PID_LIMIT
    ensures StackMapped(mem, k, pid)
  {
    forall i: nat | i < KERNEL_STACK_PAGES ensures Walk(mem, k, PageAt(StackRun(pid).virt, i)).Frame? {
      StackPages(pid, i);
      assert InRegion(Stack(pid), PageAt(StackRun(pid).virt, i));
    }
  }

  /** A call of one process that keeps that process right keeps all of them right. */
  lemma CallKeeps(w: World, w': World, k: nat, r: Region, caller: nat)
    requires WorldOk(w, k) && PlacesOk(w'.roles) && Spares(r, w.roles, w.mem, w'.roles, w'.mem, k, caller)
    requires 0 < caller < w'.nextPid && (r == Nowhere || r == Pages(caller) || r == Stack(caller))
    requires w.nextPid <= w'.nextPid <= PID_LIMIT && PendingOk(w'.pending, w'.procs.Keys, w'.nextPid)
    requires forall pid :: pid != caller ==>
      (pid in w'.procs <==> pid in w.procs) && (pid in w.procs ==> w'.procs[pid] == w.procs[pid])
    requires if caller in w'.procs then caller < w'.nextPid && ProcOk(w'.mem, w'.roles, k, caller, w'.procs[caller])
             else Idle(w'.roles, caller)
    requires caller in w'.procs ==>
      if caller in w.procs then ProcLater(w.mem, w'.mem, caller, w.procs[caller], w'.procs[caller])
          else caller >= w.nextPid
    requires OnlyStack(w'.roles, caller)
    ensures WorldOk(w', k) && Later(w, w')
  {
    hide ProcOk, ProcLater, Spares, PlacesOk, Idle, OnlyStack, NoStack, PendingOk, LowMapped;
    LowKept(r, w.mem, w.roles, w'.mem, w'.roles, k, caller);
    forall pid: nat | w'.nextPid <= pid < PID_LIMIT ensures NoStack(w'.roles, pid) {
      NoStackKept(r, w.mem, w.roles, w'.mem, w'.roles, k, caller, pid);
    }
    forall pid | pid in w'.procs
      ensures 0 < pid < w'.nextPid && ProcOk(w'.mem, w'.roles, k, pid, w'.procs[pid])
      ensures pid in w.procs ==> ProcLater(w.mem, w'.mem, pid, w.procs[pid], w'.procs[pid])
    {
      if pid != caller {
        ProcKept(r, w.mem, w.roles, w'.mem, w'.roles, k, caller, pid, w.procs[pid]);
      }
    }
    forall pid: nat | 0 < pid < PID_LIMIT && pid !in w'.procs ensures Idle(w'.roles, pid) {
      if pid != caller {
        IdleKept(r, w.roles, w.mem, w'.roles, w'.mem, k, caller, pid);
      }
    }
    forall pid: nat | pid < PID_LIMIT ensures OnlyStack(w'.roles, pid) {
      if pid != caller {
        OnlyStackKept(r, w.mem, w.roles, w'.mem, w'.roles, k, caller, pid);
      }
    }
  }

  /** What a memory call leaves of its own process beside its memory: the root, the image and the stack. */
  lemma OwnKept(mem0: Memory, roles0: Roles, mem: Memory, roles: Roles, k: nat, pid: nat, root: nat,
                segments: seq<Segment>)
    requires Spares(Pages(pid), roles0, mem0, roles, mem, k, 0) && PlacesOk(roles) && 0 < pid < PID_LIMIT
    requires StackMapped(mem0, k, pid) && OnlyStack(roles0, pid) && IsRole(roles0, root, Table(pid, []))
    requires Loaded(mem0, root, segments)
    ensures StackMapped(mem, k, pid) && OnlyStack(roles, pid) && IsRole(roles, root, Table(pid, []))
    ensures Loaded(mem, root, segments)
    ensures SameView(mem0, mem, root, pid)
  {
    hide Loaded, OnlyStack, StackMapped, PlacesOk;
    SparesAll(Pages(pid), Stack(pid), roles0, mem0, roles, mem, k);
    StackKept(roles0, mem0, roles, mem, k, pid);
    OnlyStackKept(Pages(pid), mem0, roles0, mem, roles, k, 0, pid);
    ViewKept(Pages(pid), roles0, mem0, roles, mem, k, 0, pid, root);
    LoadedKept(mem0, mem, root, segments);
  }

  /** A memory call of one process, seen on the world. */
  lemma MemoryCallKeeps(w: World, w': World, k: nat, pid: nat)
    requires WorldOk(w, k) && PlacesOk(w'.roles) && pid in w.procs && pid in w'.procs
    requires Spares(Pages(pid), w.roles, w.mem, w'.roles, w'.mem, k, 0)
    requires w'.procs == w.procs[pid := w'.procs[pid]] && w'.pending == w.pending && w'.nextPid == w.nextPid
    requires var s, s' := w.procs[pid], w'.procs[pid];
      && s'.root == s.root && s'.segments == s.segments && s.guards <= s'.guards && s.blocks <= s'.blocks
      && (s'.tidy ==> s.tidy)
      && MemoryOk(w'.mem, w'.roles, k, pid, s'.heapNext, s'.mmapNext, s'.maps, s'.guards)
      && (s'.tidy ==> HeapOk(w'.mem, k, pid, s'.heapNext, s'.next, s'.end, s'.blocks, s'.chunks))
    ensures WorldOk(w', k) && Later(w, w')
  {
    hide MemoryOk, HeapOk, StackMapped, OnlyStack, Idle, Spares, PlacesOk, Loaded, SameView;
    assert ProcOk(w.mem, w.roles, k, pid, w.procs[pid]);
    SparesOthers(Pages(pid), w.roles, w.mem, w'.roles, w'.mem, k, pid);
    OwnKept(w.mem, w.roles, w'.mem, w'.roles, k, pid, w.procs[pid].root, w.procs[pid].segments);
    CallKeeps(w, w', k, Pages(pid), pid);
  }

  /** queue_stack_reclaim: a seventeenth stack is not remembered. */
  function Queued(pending: seq<nat>, pid: nat): seq<nat> {
    if |pending| < PENDING_MAX then pending + [pid] else pending
  }

  /** An exit: the number is idle, and its stack waits unless sixteen already do. */
  lemma ExitKeeps(w: World, w': World, k: nat, pid: nat)
    requires WorldOk(w, k) && PlacesOk(w'.roles) && pid in w.procs && Idle(w'.roles, pid)
    requires Spares(Pages(pid), w.roles, w.mem, w'.roles, w'.mem, k, pid)
    requires w'.procs == w.procs - {pid} && w'.nextPid == w.nextPid
    requires w'.pending == Queued(w.pending, pid)
    ensures WorldOk(w', k) && Later(w, w')
  {
    hide ProcOk, OnlyStack, Idle, Spares, PlacesOk;
    OnlyStackKept(Pages(pid), w.mem, w.roles, w'.mem, w'.roles, k, pid, pid);
    CallKeeps(w, w', k, Pages(pid), pid);
  }

  /** A late reclaim of the stack of a process that ended. */
  lemma ReclaimKeeps(w: World, w': World, k: nat)
    requires WorldOk(w, k) && PlacesOk(w'.roles) && w.pending != []
    requires var pid := w.pending[0];
      Spares(Stack(pid), w.roles, w.mem, w'.roles, w'.mem, k, 0) && OnlyStack(w'.roles, pid)
    requires w'.procs == w.procs && w'.nextPid == w.nextPid && w'.pending == w.pending[1..]
    ensures WorldOk(w', k) && Later(w, w')
  {
    hide ProcOk, OnlyStack, Spares, PlacesOk;
    var pid := w.pending[0];
    assert Idle(w.roles, pid);
    SparesOthers(Stack(pid), w.roles, w.mem, w'.roles, w'.mem, k, pid);
    StillIdle(Stack(pid), w.mem, w.roles, w'.mem, w'.roles, k, pid);
    CallKeeps(w, w', k, Stack(pid), pid);
  }

  /** A start, successful or not, uses up the number. */
  lemma StartKeeps(w: World, w': World, k: nat, root: Option<nat>, segments: seq<Segment>)
    requires WorldOk(w, k) && PlacesOk(w'.roles) && w.nextPid < PID_LIMIT && w'.nextPid == w.nextPid + 1
    requires w'.pending == w.pending
    requires var pid := w.nextPid;
      && Spares(Stack(pid), w.roles, w.mem, w'.roles, w'.mem, k, pid) && OnlyStack(w'.roles, pid)
      && Prepared(w'.roles, w'.mem, k, pid, segments, root)
      && if root.None? then w'.procs == w.procs else
           && w'.procs.Keys == w.procs.Keys + {pid} && w'.procs == w.procs[pid := w'.procs[pid]]
           && var s := w'.procs[pid];
             && s.root == root.value && s.segments == segments
             && MemoryOk(w'.mem, w'.roles, k, pid, s.heapNext, s.mmapNext, s.maps, s.guards)
             && HeapOk(w'.mem, k, pid, s.heapNext, s.next, s.end, s.blocks, s.chunks)
    ensures WorldOk(w', k) && Later(w, w')
  {
    hide MemoryOk, HeapOk, OnlyStack, Spares, PlacesOk, Idle, Loaded;
    assert w.nextPid !in w.procs;
    CallKeeps(w, w', k, Stack(w.nextPid), w.nextPid);
  }

  // ---- The system ----

  /** What a program or the scheduler asks for. */
  datatype Call = Start(segments: seq<Segment>) | Memory(pid: nat, call: MemoryCall) | Exit(pid: nat) | ReclaimStacks

  datatype MemoryCall =
    | AllocPages(pages: nat)
    | MapPages(pages: nat, flags: nat)
    | UnmapPages(address: nat, pages: nat)
    | Block(size: nat, align: nat)

  /** A running process: its program's root and segments, and its allocator, which knows the kernel's record of its
      memory. */
  datatype Process = Process(root: nat, segments: seq<Segment>, tidy: bool, heap: BumpAllocator)

  class Spaces {
    const vm: Vm
    var nextPid: nat
    var procs: map<nat, Process>
    var pending: seq<nat>

    constructor (vm: Vm)
      requires vm.Valid() && 0 !in vm.pages && LowMapped(vm.mem, vm.kernelRoot)
      requires forall q :: q in vm.roles ==> vm.roles[q].Table? && vm.roles[q].owner == 0
      ensures Valid() && this.vm == vm && procs == map[]
    {
      this.vm, nextPid, procs, pending := vm, 1, map[], [];
    }

    ghost function Objects(): set<object>
      reads this
    {
      (set p | p in procs.Values :: p.heap as object) + (set p | p in procs.Values :: p.heap.memory as object)
      + (set p | p in procs.Values :: p.heap.memory.mappings as object)
    }

    /** Each process has its own objects, over the shared tables. */
    ghost predicate Shape()
      reads this
    {
      && (forall pid :: pid in procs ==>
            procs[pid].heap.memory.vm == vm && procs[pid].heap.memory.pid == pid
                && procs[pid].heap.memory.mappings.Length == PROCESS_MAPPING_MAX)
      && (forall a, b :: a in procs && b in procs && a != b ==>
            procs[a].heap != procs[b].heap && procs[a].heap.memory != procs[b].heap.memory
                && procs[a].heap.memory.mappings != procs[b].heap.memory.mappings)
    }

    static ghost function StateIn(process: Process): ProcState
      reads process.heap, process.heap.memory, process.heap.memory.mappings
    {
      var p, m := process.heap, process.heap.memory;
      ProcState(process.root, process.segments, process.tidy, m.heapNext, m.mmapNext, m.mappings[..], m.guards, p.next,
          p.end, p.blocks, p.chunks)
    }

    ghost function StateOf(pid: nat): ProcState
      requires pid in procs
      reads this, procs[pid].heap, procs[pid].heap.memory, procs[pid].heap.memory.mappings
    {
      StateIn(procs[pid])
    }

    ghost function Now(): World
      requires Shape()
      reads this, vm, Objects()
    {
      World(vm.mem, vm.roles, map pid | pid in procs :: StateOf(pid), pending, nextPid)
    }

    ghost predicate Valid()
      reads this, vm, Objects()
    {
      Shape() && vm.Valid() && 0 !in vm.pages && WorldOk(Now(), vm.kernelRoot)
    }

    lemma ProcValid(pid: nat)
      requires Valid() && pid in procs
      ensures procs[pid].heap.memory.Valid() && (procs[pid].tidy ==> procs[pid].heap.Valid()) && 0 < pid < PID_LIMIT
    {
      hide Owned, Accounted, MemoryOk, HeapOk;
      assert Now().procs[pid] == StateOf(pid);
    }

    /** Back to a valid state after process `pid` changed its own memory. */
    lemma MemoryCallDone(w: World, pid: nat)
      requires Shape() && vm.Valid() && 0 !in vm.pages && WorldOk(w, vm.kernelRoot) && pid in procs
      requires w.pending == pending && w.nextPid == nextPid && w.procs.Keys == procs.Keys
      requires forall other :: other in procs && other != pid ==> StateOf(other) == w.procs[other]
      requires Spares(Pages(pid), w.roles, w.mem, vm.roles, vm.mem, vm.kernelRoot, 0)
      requires procs[pid].heap.memory.Valid() && (procs[pid].tidy ==> procs[pid].heap.Valid() && w.procs[pid].tidy)
      requires procs[pid].root == w.procs[pid].root && procs[pid].segments == w.procs[pid].segments
      requires w.procs[pid].guards <= procs[pid].heap.memory.guards && w.procs[pid].blocks <= procs[pid].heap.blocks
      ensures Valid() && Later(w, Now())
    {
      hide MemoryOk, HeapOk, WorldOk, Later, Spares, Owned, Accounted;
      ghost var w' := Now();
      OwnedParts(vm.mem, vm.pool, vm.roles);
      assert w'.procs[pid] == StateOf(pid);
      assert w'.procs == w.procs[pid := w'.procs[pid]];
      MemoryCallKeeps(w, w', vm.kernelRoot, pid);
    }

    /** abi_mem_alloc_pages, called by one of the processes. */
    method MemAlloc(pid: nat, pages: nat) returns (base: nat)
      requires Valid() && pid in procs
      modifies vm, procs[pid].heap.memory, procs[pid].heap.memory.mappings
      ensures Valid() && Later(old(Now()), Now())
      ensures base != 0 ==> RunMapped(old(vm.mem), old(vm.roles), vm.mem, vm.roles, vm.kernelRoot, base, pages)
      ensures base == 0 ==> SameWalks(old(vm.roles), old(vm.mem), vm.mem)
      ensures base == 0 ==>
        || !old(procs[pid].heap.memory.HeapGrants(pages)) || AllUsed(old(procs[pid].heap.memory.mappings[..]))
        || FreeCount(old(vm.pool)) < 4 * pages
    {
      hide MemoryOk, HeapOk, WorldOk, Owned, Accounted, Spares;
      ghost var w, k := Now(), vm.kernelRoot;
      ProcValid(pid);
      var p := procs[pid].heap;
      ghost var heapNext := p.memory.heapNext;
      base := p.memory.MemAllocPages(pages);
      if procs[pid].tidy {
        HeapOutlasts(w.mem, w.roles, vm.mem, vm.roles, k, pid, heapNext, p.memory.heapNext, p.next, p.end, p.blocks,
                     p.chunks, base, pages);
      }
      MemoryCallDone(w, pid);
    }

    /** abi_mem_map_pages. */
    method MemMap(pid: nat, pages: nat, flags: nat) returns (base: nat)
      requires Valid() && pid in procs
      modifies vm, procs[pid].heap.memory, procs[pid].heap.memory.mappings
      ensures Valid() && Later(old(Now()), Now())
      ensures base != 0 ==> RunMapped(old(vm.mem), old(vm.roles), vm.mem, vm.roles, vm.kernelRoot, base, pages)
      ensures base == 0 ==> SameWalks(old(vm.roles), old(vm.mem), vm.mem)
      ensures base == 0 ==>
        || !old(procs[pid].heap.memory.MmapGrants(pages, flags)) || AllUsed(old(procs[pid].heap.memory.mappings[..]))
        || FreeCount(old(vm.pool)) < 4 * pages
    {
      hide MemoryOk, HeapOk, WorldOk, Owned, Accounted, Spares, RunMapped, SameWalks;
      ghost var w, k := Now(), vm.kernelRoot;
      ProcValid(pid);
      var p := procs[pid].heap;
      ghost var heapNext := p.memory.heapNext;
      base := p.memory.MemMapPages(pages, flags);
      if procs[pid].tidy {
        HeapOutlasts(w.mem, w.roles, vm.mem, vm.roles, k, pid, heapNext, heapNext, p.next, p.end, p.blocks, p.chunks,
                     base, pages);
      }
      MemoryCallDone(w, pid);
    }

    predicate MissesChunks(pid: nat, address: nat, pages: nat)
      requires pid in procs
      reads this, procs[pid].heap
    {
      forall c :: 0 <= c < |procs[pid].heap.chunks| ==>
          Apart(RunOf(procs[pid].heap.chunks[c]), Mapping(true, address, pages))
    }

    /** From here on the program's allocator is not followed. */
    method Untidy(pid: nat)
      requires Valid() && pid in procs
      modifies this`procs
      ensures Valid() && Later(old(Now()), Now()) && procs == old(procs)[pid := old(procs)[pid].(tidy := false)]
    {
      hide MemoryOk, HeapOk, WorldOk, Owned, Accounted, Spares, Later, Objects, IsRole;
      ghost var w := Now();
      ProcValid(pid);
      NothingDone(Pages(pid), vm.roles, vm.mem, vm.kernelRoot, 0);
      procs := procs[pid := procs[pid].(tidy := false)];
      MemoryCallDone(w, pid);
    }

    /** abi_mem_unmap_pages. */
    method MemUnmap(pid: nat, address: nat, pages: nat) returns (status: int)
      requires Valid() && pid in procs && (procs[pid].tidy ==> MissesChunks(pid, address, pages))
      modifies vm, procs[pid].heap.memory, procs[pid].heap.memory.mappings
      ensures Valid() && Later(old(Now()), Now())
      ensures status == if pages <= USER_MMAP_MAX_PAGES_PER_CALL
        && Mapping(true, address, pages) in old(procs[pid].heap.memory.mappings[..]) then 0 else -1
      ensures status == 0 ==>
        Emptied(old(vm.mem), old(vm.pool), old(vm.roles), vm.mem, vm.pool, vm.roles, vm.kernelRoot, address, pages)
    {
      hide MemoryOk, HeapOk, WorldOk, Owned, Accounted, Spares, Emptied;
      ghost var w, k := Now(), vm.kernelRoot;
      ProcValid(pid);
      var p := procs[pid].heap;
      ghost var m, maps := p.memory, p.memory.mappings[..];
      OwnedParts(vm.mem, vm.pool, vm.roles);
      RunRecorded(w.mem, w.roles, k, pid, m.heapNext, m.mmapNext, maps, m.guards, Mapping(true, address, pages));
      ghost var pool0 := vm.pool;
      status := p.memory.MemUnmapPages(address, pages);
      if status == 0 && procs[pid].tidy {
        HeapSurvivesUnmap(w.mem, pool0, w.roles, vm.mem, vm.pool, vm.roles, k, pid, m.heapNext, m.mmapNext, p.next,
                          p.end, p.blocks, p.chunks, Mapping(true, address, pages));
      }
      MemoryCallDone(w, pid);
    }

    /** A block from the program's own allocator. */
    method HeapAlloc(pid: nat, size: nat, align: nat) returns (ptr: nat)
      requires Valid() && pid in procs && procs[pid].tidy && 0 < size && 0 < align <= ALIGN_MAX
      modifies vm, procs[pid].heap, procs[pid].heap.memory, procs[pid].heap.memory.mappings
      ensures Valid() && Later(old(Now()), Now())
      ensures procs[pid].heap.blocks == old(procs[pid].heap.blocks) + if ptr == 0 then [] else [Span(ptr, size)]
    {
      hide MemoryOk, HeapOk, WorldOk, Owned, Accounted, Spares;
      ghost var w := Now();
      ProcValid(pid);
      ptr := procs[pid].heap.Alloc(size, align);
      MemoryCallDone(w, pid);
    }

    /** A page of the machine that no list holds has no role. */
    lemma ZeroUnused()
      requires Valid()
      ensures 0 !in vm.roles
    {
    }

    /** The numbers without a process are idle, and stack slices hold stacks only. */
    lemma Numbers(pid: nat)
      requires Valid() && 0 < pid < PID_LIMIT
      ensures OnlyStack(vm.roles, pid) && (pid !in procs ==> Idle(vm.roles, pid))
    {
      hide Owned, Accounted, ProcOk, Idle, OnlyStack, PendingOk;
      assert Now().procs.Keys == procs.Keys;
    }

    /** The next number's stack slice is free, and there are low tables to copy. */
    lemma NextIsFree()
      requires Valid() && nextPid < PID_LIMIT
      ensures RunVacant(vm.mem, vm.kernelRoot, StackRun(nextPid).virt, KERNEL_STACK_PAGES)
      ensures LowTablesPresent(vm.mem, vm.kernelRoot)
    {
      hide Owned, Accounted, ProcOk, Idle, OnlyStack, NoStack, PendingOk, LowMapped;
      NoStackVacant(vm.mem, vm.pool, vm.roles, vm.kernelRoot, nextPid);
      LowTablesThere(vm.mem, vm.kernelRoot);
    }

    lemma NowParts()
      requires Valid()
      ensures Now().procs.Keys == procs.Keys && Now().pending == pending && Now().nextPid == nextPid
      ensures Now().roles == vm.roles && Now().mem == vm.mem
    {
      hide Owned, Accounted, WorldOk;
    }

    lemma Counters()
      requires Valid()
      ensures 1 <= nextPid <= PID_LIMIT && PendingOk(pending, procs.Keys, nextPid) && nextPid !in procs
    {
      hide Owned, Accounted, ProcOk, Idle, OnlyStack, PendingOk;
      assert Now().procs.Keys == procs.Keys;
    }

    /** What a running process has, on the world. */
    lemma ProcHas(pid: nat)
      requires Valid() && pid in procs
      ensures IsRole(vm.roles, procs[pid].root, Table(pid, []))
    {
      hide Owned, Accounted, MemoryOk, HeapOk, Loaded, StackMapped;
      assert Now().procs[pid] == StateOf(pid);
    }

    /** Back to a valid state after an exit, */
    lemma ExitDone(w: World, pid: nat)
      requires Shape() && vm.Valid() && 0 !in vm.pages && WorldOk(w, vm.kernelRoot) && pid in w.procs
      requires Idle(vm.roles, pid)
      requires w.nextPid == nextPid && procs.Keys == w.procs.Keys - {pid}
      requires forall other :: other in procs ==> StateOf(other) == w.procs[other]
      requires Spares(Pages(pid), w.roles, w.mem, vm.roles, vm.mem, vm.kernelRoot, pid)
      requires pending == Queued(w.pending, pid)
      ensures Valid() && Later(w, Now())
    {
      hide WorldOk, Later, Spares, Owned, Accounted, Idle;
      OwnedParts(vm.mem, vm.pool, vm.roles);
      assert Now().procs == w.procs - {pid};
      ExitKeeps(w, Now(), vm.kernelRoot, pid);
    }

    /** a reclaimed stack, */
    lemma ReclaimDone(w: World)
      requires Shape() && vm.Valid() && 0 !in vm.pages && WorldOk(w, vm.kernelRoot) && w.pending != []
      requires w.nextPid == nextPid && procs.Keys == w.procs.Keys && pending == w.pending[1..]
      requires forall other :: other in procs ==> StateOf(other) == w.procs[other]
      requires Spares(Stack(w.pending[0]), w.roles, w.mem, vm.roles, vm.mem, vm.kernelRoot, 0)
      requires OnlyStack(vm.roles, w.pending[0])
      ensures Valid() && Later(w, Now())
    {
      hide WorldOk, Later, Spares, Owned, Accounted, OnlyStack;
      OwnedParts(vm.mem, vm.pool, vm.roles);
      assert Now().procs == w.procs;
      ReclaimKeeps(w, Now(), vm.kernelRoot);
    }

    /** and a start. */
    lemma StartDone(w: World, root: Option<nat>, segments: seq<Segment>)
      requires Shape() && vm.Valid() && 0 !in vm.pages && WorldOk(w, vm.kernelRoot) && w.nextPid < PID_LIMIT
      requires nextPid == w.nextPid + 1 && pending == w.pending
      requires procs.Keys == w.procs.Keys + if root.Some? then {w.nextPid} else {}
      requires forall other :: other in w.procs ==> StateOf(other) == w.procs[other]
      requires Spares(Stack(w.nextPid), w.roles, w.mem, vm.roles, vm.mem, vm.kernelRoot, w.nextPid)
      requires OnlyStack(vm.roles, w.nextPid)
      requires Prepared(vm.roles, vm.mem, vm.kernelRoot, w.nextPid, segments, root)
      requires root.Some? ==>
        procs[w.nextPid].root == root.value && procs[w.nextPid].segments == segments && procs[w.nextPid].heap.Valid()
      ensures Valid() && Later(w, Now())
    {
      hide WorldOk, Later, Spares, Owned, Accounted, OnlyStack, Prepared, MemoryOk, HeapOk;
      OwnedParts(vm.mem, vm.pool, vm.roles);
      if root.Some? {
        assert Now().procs == w.procs[w.nextPid := StateOf(w.nextPid)];
      } else {
        assert Now().procs == w.procs;
      }
      StartKeeps(w, Now(), vm.kernelRoot, root, segments);
    }

    /** Taking an ended process off the tables, and its stack into the queue if there is room. */
    method Unlist(ghost w: World, pid: nat)
      requires Shape() && vm.Valid() && 0 !in vm.pages && WorldOk(w, vm.kernelRoot) && Idle(vm.roles, pid)
      requires w.pending == pending && w.nextPid == nextPid && w.procs.Keys == procs.Keys && pid in procs
      requires forall other :: other in procs && other != pid ==> StateOf(other) == w.procs[other]
      requires Spares(Pages(pid), w.roles, w.mem, vm.roles, vm.mem, vm.kernelRoot, pid)
      modifies this
      ensures Valid() && Later(w, Now()) && procs == old(procs) - {pid}
      ensures pending == Queued(old(pending), pid)
    {
      hide MemoryOk, HeapOk, WorldOk, Owned, Accounted, Spares, Idle, Later, StateIn, Objects, PendingOk, Queued;
      procs, pending := procs - {pid}, Queued(pending, pid);
      ExitDone(w, pid);
    }

    /** The end of process_trampoline: all that was the process's alone is returned, and its stack is queued. */
    method Exit(pid: nat)
      requires Valid() && pid in procs
      modifies this, vm, procs[pid].heap.memory.mappings
      ensures Valid() && Later(old(Now()), Now()) && procs == old(procs) - {pid} && Idle(vm.roles, pid)
      ensures pending == if |old(pending)| < PENDING_MAX then old(pending) + [pid] else old(pending)
    {
      hide MemoryOk, HeapOk, WorldOk, Owned, Accounted, Spares, Exited, Idle, Later, PlacesOk, PendingOk;
      ghost var w := Now();
      ProcValid(pid);
      ProcHas(pid);
      ZeroUnused();
      ExitProcess(procs[pid].heap.memory, procs[pid].root);
      Unlist(w, pid);
    }

    /** One round of reclaim_pending_stacks: the stack that waits longest is returned, with its page table. */
    method ReclaimOne()
      requires Valid() && pending != []
      modifies this`pending, vm
      ensures Valid() && Later(old(Now()), Now()) && pending == old(pending)[1..]
      ensures var pid := old(pending)[0];
        Released(old(vm.pool), old(vm.roles), RecordedPages(old(vm.roles), [StackRun(pid)])
                 + SlotTables(old(vm.roles), StackDir(pid), StackSlot(pid), StackSlot(pid) + 1), vm.pool, vm.roles)
      ensures NoStack(vm.roles, old(pending)[0])
      ensures forall other :: NoStack(old(vm.roles), other) ==> NoStack(vm.roles, other)
    {
      hide MemoryOk, HeapOk, WorldOk, Owned, Accounted, Spares, Released, SeeSame, OnlyStack, Later, PlacesOk, Idle,
          PendingOk, NoStack, RecordedPages, SlotTables, StackRun, StackDir, StackSlot;
      ghost var w := Now();
      ZeroUnused();
      var pid := pending[0];
      Counters();
      PendingNumbers(pending, procs.Keys, nextPid);
      Numbers(pid);
      pending := pending[1..];
      ReclaimProcessStack(vm, pid);
      NothingThere(vm.roles, pid);
      ReclaimDone(w);
    }

    /** reclaim_pending_stacks: the queue is emptied, and of the stacks in it nothing is left. */
    method ReclaimStacks()
      requires Valid()
      modifies this`pending, vm
      ensures Valid() && Later(old(Now()), Now()) && pending == []
      ensures forall pid :: pid in old(pending) ==> NoStack(vm.roles, pid)
    {
      hide WorldOk, Owned, Accounted, Later, NoStack, Released, Shape, Now;
      LaterSame(Now(), vm.kernelRoot);
      ghost var n := 0;
      while pending != []
        invariant Valid() && Later(old(Now()), Now())
        invariant n <= |old(pending)| && pending == old(pending)[n..]
        invariant forall i :: 0 <= i < n ==> NoStack(vm.roles, old(pending)[i])
        decreases |pending|
      {
        ghost var w := Now();
        ReclaimOne();
        n := n + 1;
        LaterChain(old(Now()), w, Now());
      }
    }

    /** Entering a prepared process, whose objects are its own, into the tables. */
    method Enlist(ghost w: World, heap: BumpAllocator, root: nat, segments: seq<Segment>)
      requires Shape() && vm.Valid() && 0 !in vm.pages && WorldOk(w, vm.kernelRoot) && w.nextPid < PID_LIMIT
      requires nextPid == w.nextPid + 1 && pending == w.pending && procs.Keys == w.procs.Keys && w.nextPid !in procs
      requires forall other :: other in procs ==> StateOf(other) == w.procs[other]
      requires Spares(Stack(w.nextPid), w.roles, w.mem, vm.roles, vm.mem, vm.kernelRoot, w.nextPid)
      requires OnlyStack(vm.roles, w.nextPid)
      requires Prepared(vm.roles, vm.mem, vm.kernelRoot, w.nextPid, segments, Some(root))
      requires heap.Valid() && heap.memory.vm == vm && heap.memory.pid == w.nextPid
      requires forall other :: other in procs ==>
        procs[other].heap != heap && procs[other].heap.memory != heap.memory
            && procs[other].heap.memory.mappings != heap.memory.mappings
      modifies this`procs
      ensures Valid() && Later(w, Now()) && procs == old(procs)[w.nextPid := Process(root, segments, true, heap)]
    {
      hide MemoryOk, HeapOk, WorldOk, Owned, Accounted, Spares, OnlyStack, Later, Prepared, StateIn, Objects;
      var pid := heap.memory.pid;
      procs := procs[pid := Process(root, segments, true, heap)];
      StartDone(w, Some(root), segments);
    }

    /** The address space, image and stack of the next process, before it is on the tables. */
    method PrepareNext(segments: seq<Segment>) returns (root: Option<nat>)
      requires Valid() && nextPid < PID_LIMIT
      modifies this`nextPid, vm
      ensures Shape() && vm.Valid() && nextPid == old(nextPid) + 1
      ensures forall other :: other in procs ==> StateOf(other) == old(Now()).procs[other]
      ensures Spares(Stack(old(nextPid)), old(vm.roles), old(vm.mem), vm.roles, vm.mem, vm.kernelRoot, old(nextPid))
      ensures OnlyStack(vm.roles, old(nextPid))
      ensures Prepared(vm.roles, vm.mem, vm.kernelRoot, old(nextPid), segments, root)
      ensures root.None? ==> Valid() && Later(old(Now()), Now())
      ensures root.None? ==> !Sound(segments) || old(FreeCount(vm.pool)) < StartPages(segments)
    {
      hide MemoryOk, HeapOk, WorldOk, Owned, Accounted, Spares, OnlyStack, Later, Idle, PendingOk, Prepared, Sound,
          RunVacant, LowTablesPresent;
      ghost var w := Now();
      Counters();
      Numbers(nextPid);
      NextIsFree();
      root := PrepareProcess(vm, nextPid, segments);
      nextPid := nextPid + 1;
      if root.None? {
        StartDone(w, root, segments);
      }
    }

    /** process_spawn of a program file: the next number, and a process if the file can be loaded and there are pages
        enough. */
    method Start(segments: seq<Segment>) returns (started: bool)
      requires Valid() && nextPid < PID_LIMIT
      modifies this`nextPid, this`procs, vm
      ensures Valid() && Later(old(Now()), Now()) && nextPid == old(nextPid) + 1
      ensures if started then old(nextPid) in procs && procs == old(procs)[old(nextPid) := procs[old(nextPid)]]
        else procs == old(procs)
      ensures !started ==> !Sound(segments) || old(FreeCount(vm.pool)) < StartPages(segments)
      ensures started ==> Sound(segments)
      ensures started ==>
        var heap := procs[old(nextPid)].heap; fresh(heap) && fresh(heap.memory) && fresh(heap.memory.mappings)
    {
      hide MemoryOk, HeapOk, WorldOk, Owned, Accounted, Spares, OnlyStack, Later, Idle, Prepared, StateIn, Objects,
          PendingOk, Recorded, Sound, StartPages, StackMapped, Loaded, Now;
      ghost var w := Now();
      NowParts();
      var pid := nextPid;
      Counters();
      var root := PrepareNext(segments);
      if root.None? {
        return false;
      }
      PreparedSound(vm.roles, vm.mem, vm.kernelRoot, pid, segments, root);
      PreparedParts(vm.roles, vm.mem, vm.kernelRoot, pid, segments, root);
      var memory := new ProcessMemory(vm, pid);
      var heap := new BumpAllocator(memory);
      Enlist(w, heap, root.value, segments);
      return true;
    }

    lemma InObjects(pid: nat)
      requires pid in procs
      ensures procs[pid].heap in Objects() && procs[pid].heap.memory in Objects()
      ensures procs[pid].heap.memory.mappings in Objects()
    {
      assert procs[pid] in procs.Values;
    }

    /** Whether the program's library makes the call: blocks have a size and an alignment, and come from mapped
        chunks. */
    predicate Proper(pid: nat, call: MemoryCall)
      requires pid in procs
      reads this
    {
      match call
      case Block(size, align) => procs[pid].tidy && 0 < size && 0 < align <= ALIGN_MAX
      case _ => true
    }

    method MemoryCall(pid: nat, call: MemoryCall)
      requires Valid() && pid in procs && Proper(pid, call)
      modifies this`procs, vm, procs[pid].heap, procs[pid].heap.memory, procs[pid].heap.memory.mappings
      ensures Valid() && Later(old(Now()), Now())
      ensures procs.Keys == old(procs.Keys) && forall other :: other in procs ==>
        procs[other].heap == old(procs)[other].heap
    {
      hide MemoryOk, HeapOk, WorldOk, Owned, Accounted, Later, Shape, Now, Objects;
      match call {
        case AllocPages(pages) => var base := MemAlloc(pid, pages);
        case MapPages(pages, flags) => var base := MemMap(pid, pages, flags);
        case UnmapPages(address, pages) =>
          if procs[pid].tidy && !MissesChunks(pid, address, pages) {
            Untidy(pid);
          } else {
            LaterSame(Now(), vm.kernelRoot);
          }
          ghost var w := Now();
          var status := MemUnmap(pid, address, pages);
          LaterChain(old(Now()), w, Now());
        case Block(size, align) => var ptr := HeapAlloc(pid, size, align);
      }
    }

    /** Whether a call is served: its process runs, or a number is left for a new one. */
    predicate Served(call: Call)
      reads this, Objects()
    {
      match call
      case Start(_) => nextPid < PID_LIMIT
      case Memory(pid, c) => pid in procs && Proper(pid, c)
      case Exit(pid) => pid in procs
      case ReclaimStacks => true
    }

    twostate lemma FreshObjects()
      requires forall pid :: pid in procs ==> var heap := procs[pid].heap;
        || (pid in old(procs) && heap == old(procs)[pid].heap)
        || (fresh(heap) && fresh(heap.memory) && fresh(heap.memory.mappings))
      ensures fresh(Objects() - old(Objects()))
    {
    }

    method Do(call: Call)
      requires Valid() && Served(call)
      modifies this, vm, Objects()
      ensures Valid() && Later(old(Now()), Now()) && fresh(Objects() - old(Objects()))
    {
      hide WorldOk, Owned, Accounted, Later, Shape, Now, Proper, Objects;
      match call {
        case Start(segments) => var started := Start(segments);
        case Memory(pid, c) => InObjects(pid); MemoryCall(pid, c);
        case Exit(pid) => InObjects(pid); Exit(pid);
        case ReclaimStacks => ReclaimStacks();
      }
      FreshObjects();
    }

    /** What every process that runs has, from its own root: its image, its stack and its blocks are mapped, its guards
        are not. */
    lemma RunningHas(pid: nat)
      requires Valid() && pid in procs
      ensures Loaded(vm.mem, procs[pid].root, procs[pid].segments)
      ensures StackMapped(vm.mem, procs[pid].root, pid)
      ensures forall g :: g in procs[pid].heap.memory.guards ==> Walk(vm.mem, procs[pid].root, PathOf(g)) == Unmapped
      ensures procs[pid].tidy ==>
        forall i, a: nat :: 0 <= i < |procs[pid].heap.blocks| && InSpan(procs[pid].heap.blocks[i], a) ==>
        Walk(vm.mem, procs[pid].root, PathOf(a)).Frame?
    {
      hide MemoryOk, HeapOk, Loaded, StackMapped, Owned, Accounted, OnlyStack, Idle, PendingOk;
      ProcValid(pid);
      ProcHas(pid);
      assert Now().procs[pid] == StateOf(pid);
      HasAll(vm.mem, vm.pool, vm.roles, vm.kernelRoot, pid, StateOf(pid));
    }

    /** No page of a running process's image is a page of another one's. */
    lemma ImagesApart(pid: nat, path: Path, other: nat, path': Path)
      requires Valid() && pid in procs && other in procs && pid != other && InImage(path) && InImage(path')
      requires Walk(vm.mem, procs[pid].root, path).Frame?
      ensures Walk(vm.mem, procs[other].root, path') != Walk(vm.mem, procs[pid].root, path)
    {
      hide WorldOk, Owned, Accounted, Now, Shape;
      ProcValid(pid);
      ProcValid(other);
      ProcHas(pid);
      ProcHas(other);
      if Walk(vm.mem, procs[other].root, path') == Walk(vm.mem, procs[pid].root, path) {
        PagesApart(vm.mem, vm.pool, vm.roles, procs[pid].root, path, procs[other].root, path');
      }
    }

    /** Any calls of any processes in any order: afterwards every process that is still there has its image, its stack,
        its guards and its blocks. */
    method Serve(calls: seq<Call>)
      requires Valid()
      modifies this, vm, Objects()
      ensures Valid() && Later(old(Now()), Now())
    {
      hide WorldOk, Owned, Accounted, Later, Served, Shape, Now;
      LaterSame(Now(), vm.kernelRoot);
      for i := 0 to |calls|
        invariant Valid() && Later(old(Now()), Now()) && fresh(Objects() - old(Objects()))
      {
        ghost var w := Now();
        if Served(calls[i]) {
          Do(calls[i]);
          LaterChain(old(Now()), w, Now());
        }
      }
    }
  }

  predicate InSpan(s: Span, a: nat) {
    s.start <= a < End(s)
  }

  /** The kernel root's view of the windows is the process's own. */
  lemma OwnView(mem: Memory, pool: Pool, roles: Roles, k: nat, pid: nat, root: nat, a: nat)
    requires Owned(mem, pool, roles) && IsRole(roles, k, Table(0, [])) && IsRole(roles, root, Table(pid, []))
    requires 0 < pid < PID_LIMIT
    requires HeapBase(pid) <= a < HeapBase(pid) + USER_HEAP_STRIDE
      || MmapBase(pid) <= a < MmapBase(pid) + USER_MMAP_STRIDE
    ensures Walk(mem, root, PathOf(a)) == Walk(mem, k, PathOf(a))
  {
    InWindow(pid, a);
    OwnTop(pid, PathOf(a));
    SeesOwnWindows(mem, pool, roles, k, root, PathOf(a));
  }

  lemma OwnTop(pid: nat, path: Path)
    requires pid < PID_LIMIT && |path| == 4 && (InOwnWindows(pid, path) || InStack(pid, path))
    ensures path[0] >= SHARED_TOP && WindowTop(pid, path[0])
  {
    HeapIndices(pid);
    MmapIndices(pid);
    StackIndices(pid);
    HeapTop(pid);
    MmapTop(pid);
    StackTop(pid);
    assert path[0] == path[..2][0];
  }

  lemma StackSeen(mem: Memory, pool: Pool, roles: Roles, k: nat, pid: nat, root: nat)
    requires Owned(mem, pool, roles) && IsRole(roles, k, Table(0, [])) && IsRole(roles, root, Table(pid, []))
    requires 0 < pid < PID_LIMIT
    requires StackMapped(mem, k, pid)
    ensures StackMapped(mem, root, pid)
  {
    hide Owned, InStack;
    forall i: nat | i < KERNEL_STACK_PAGES ensures Walk(mem, root, PageAt(StackRun(pid).virt, i)).Frame? {
      StackPages(pid, i);
      OwnTop(pid, PageAt(StackRun(pid).virt, i));
      SeesOwnWindows(mem, pool, roles, k, root, PageAt(StackRun(pid).virt, i));
    }
  }

  lemma HasAll(mem: Memory, pool: Pool, roles: Roles, k: nat, pid: nat, s: ProcState)
    requires Owned(mem, pool, roles) && IsRole(roles, k, Table(0, [])) && 0 < pid < PID_LIMIT
    requires ProcOk(mem, roles, k, pid, s)
    ensures StackMapped(mem, s.root, pid)
    ensures forall g :: g in s.guards ==> Walk(mem, s.root, PathOf(g)) == Unmapped
    ensures s.tidy ==>
      forall i, a: nat :: 0 <= i < |s.blocks| && InSpan(s.blocks[i], a) ==> Walk(mem, s.root, PathOf(a)).Frame?
  {
    hide Owned, StackMapped, Loaded, HeapOk;
    StackSeen(mem, pool, roles, k, pid, s.root);
    forall g | g in s.guards ensures Walk(mem, s.root, PathOf(g)) == Unmapped {
      WindowExact(mem, pool, roles, k, pid, s.heapNext, s.mmapNext, s.maps, g);
      OwnView(mem, pool, roles, k, pid, s.root, g);
    }
    if s.tidy {
      forall i, a: nat | 0 <= i < |s.blocks| && InSpan(s.blocks[i], a) ensures Walk(mem, s.root, PathOf(a)).Frame? {
        BlocksMapped(mem, k, pid, s.heapNext, s.next, s.end, s.blocks, s.chunks, i, a);
        BlockPlaces(mem, k, pid, s.heapNext, s.mmapNext, s.next, s.end, s.blocks, s.chunks, i);
        OwnView(mem, pool, roles, k, pid, s.root, a);
      }
    }
  }

  /** Blocks lie in the heap window. */
  lemma BlockPlaces(mem: Memory, k: nat, pid: nat, heapNext: nat, mmapNext: nat, next: nat, end: nat,
                    blocks: seq<Span>, chunks: seq<Span>, i: nat)
    requires HeapOk(mem, k, pid, heapNext, next, end, blocks, chunks) && BoundsOk(pid, heapNext, mmapNext)
    requires i < |blocks|
    ensures HeapBase(pid) <= blocks[i].start && End(blocks[i]) <= HeapBase(pid) + USER_HEAP_STRIDE
  {
    assert End(blocks[i]) <= next;
    var c :| 0 <= c < |chunks| && Within(blocks[i], chunks[c]);
    assert ChunkIn(pid, heapNext, chunks[c]);
  }

  lemma PendingNumbers(pending: seq<nat>, running: set<nat>, nextPid: nat)
    requires PendingOk(pending, running, nextPid) && pending != [] && nextPid <= PID_LIMIT
    ensures 0 < pending[0] < PID_LIMIT && pending[0] !in running
  {
  }

  lemma PreparedParts(roles: Roles, mem: Memory, k: nat, pid: nat, segments: seq<Segment>, root: Option<nat>)
    requires Prepared(roles, mem, k, pid, segments, root) && root.Some?
    ensures Recorded(roles, pid, [])
  {
  }

  lemma RunRecorded(mem: Memory, roles: Roles, k: nat, pid: nat, heapNext: nat, mmapNext: nat, maps: seq<Mapping>,
                    guards: set<nat>, m: Mapping)
    requires MemoryOk(mem, roles, k, pid, heapNext, mmapNext, maps, guards)
    ensures BoundsOk(pid, heapNext, mmapNext) && (m in maps && m.used ==> InHandedOut(pid, heapNext, mmapNext, m))
  {
  }
}
