/** Mapping and unmapping pages over mutable physical memory. */
module AddressSpaces {
  import opened Common
  import opened PageTables
  import opened PhysPages
  import opened PageOwners
  import opened Mappings

  /** 512 large pages of 2 MiB, from address 0 on. */
  function LargeRow(): (row: seq<nat>)
    ensures |row| == ENTRIES
  {
    seq(ENTRIES, i requires 0 <= i < ENTRIES => i * 0x20_0000 + 128 + PRESENT + WRITABLE)
  }

  function BootMemory(k: nat, low: nat, lower: nat): Memory {
    map[k := Zeroed()[0 := MakeEntry(low, PRESENT + WRITABLE)],
        low := Zeroed()[0 := MakeEntry(lower, PRESENT + WRITABLE)],
        lower := LargeRow()]
  }

  ghost function BootRoles(k: nat, low: nat, lower: nat): Roles {
    map[k := Table(0, []), low := Table(0, [0]), lower := Table(0, [0, 0])]
  }

  /** Address 0 is mapped by a large page of 2 MiB. */
  ghost predicate LowMapped(mem: Memory, k: nat) {
    var x := Walk(mem, k, [0, 0, 0, 0]);
    x.Large? && x.level == 2
  }

  lemma BootLow(k: nat, low: nat, lower: nat)
    requires IsPage(k) && IsPage(low) && IsPage(lower) && k != low && k != lower && low != lower
    ensures LowMapped(BootMemory(k, low, lower), k)
  {
    MadeEntry(low);
    MadeEntry(lower);
    var mem := BootMemory(k, low, lower);
    assert [0, 0, 0, 0][1..] == [0, 0, 0] && [0, 0, 0][1..] == [0, 0];
    assert Walk(mem, lower, [0, 0]).Large?;
    assert Walk(mem, low, [0, 0, 0]) == Walk(mem, lower, [0, 0]);
  }

  lemma BootOwned(pool: Pool, k: nat, low: nat, lower: nat)
    requires PoolInv(pool) && IsPage(k) && IsPage(low) && IsPage(lower) && k != low && k != lower && low != lower
    requires !IsFree(pool, k) && !IsFree(pool, low) && !IsFree(pool, lower)
    ensures Owned(BootMemory(k, low, lower), pool, BootRoles(k, low, lower))
    ensures Next(BootMemory(k, low, lower), k, 0) == Some(low) && Next(BootMemory(k, low, lower), low, 0) == Some(lower)
  {
    BootTree(k, low, lower);
    BootRest(pool, k, low, lower);
    BootAnchored(k, low, lower);
  }

  lemma BootTree(k: nat, low: nat, lower: nat)
    requires IsPage(k) && IsPage(low) && IsPage(lower) && k != low && k != lower && low != lower
    ensures TreeOk(BootMemory(k, low, lower), BootRoles(k, low, lower))
    ensures Next(BootMemory(k, low, lower), k, 0) == Some(low) && Next(BootMemory(k, low, lower), low, 0) == Some(lower)
  {
    hide Present, Huge, Addr, MakeEntry, LargeRow, Zeroed;
    LinkRow(low);
    LinkRow(lower);
    LargeEntries();
  }

  /** A table with one entry, which leads on, */
  lemma LinkRow(page: nat)
    requires IsPage(page)
    ensures var row := Zeroed()[0 := MakeEntry(page, PRESENT + WRITABLE)];
      && Present(row[0]) && !Huge(row[0]) && Addr(row[0]) == page
      && forall i :: 0 < i < ENTRIES ==> !Present(row[i])
  {
    MadeEntry(page);
  }

  /** and one whose entries are large pages. */
  lemma LargeEntries()
    ensures forall i :: 0 <= i < ENTRIES ==> Huge(LargeRow()[i])
  {
  }

  lemma BootRest(pool: Pool, k: nat, low: nat, lower: nat)
    requires PoolInv(pool) && IsPage(k) && IsPage(low) && IsPage(lower) && k != low && k != lower && low != lower
    requires !IsFree(pool, k) && !IsFree(pool, low) && !IsFree(pool, lower)
    ensures var (mem, roles) := (BootMemory(k, low, lower), BootRoles(k, low, lower));
      && InUse(pool, roles) && LeavesOk(mem, roles) && UniquePlaces(roles) && PlacesOk(roles) && WindowsOpen(mem, roles)
  {
    hide BootMemory;
  }

  /** All but the root lie below the half that is kept track of. */
  lemma BootAnchored(k: nat, low: nat, lower: nat)
    requires k != low && k != lower && low != lower
    ensures Anchored(BootMemory(k, low, lower), BootRoles(k, low, lower))
  {
    hide BootMemory;
  }

  class Vm {
    var mem: Memory
    var pool: Pool
    const kernelRoot: nat
    ghost var roles: Roles
    ghost const pages: iset<nat>  // of the machine; they neither appear nor get lost

    ghost predicate Valid()
      reads this
    {
      Owned(mem, pool, roles) && Accounted(pages, pool, roles) && IsRole(roles, kernelRoot, Table(0, []))
    }

    /** The kernel root as it is before the first process: the first gigabyte is mapped by large pages, through two
        tables of its own, and nothing else is mapped. */
    constructor (pool: Pool, kernelRoot: nat, low: nat, lower: nat)
      requires PoolInv(pool) && IsPage(kernelRoot) && IsPage(low) && IsPage(lower)
      requires kernelRoot != low && kernelRoot != lower && low != lower
      requires !IsFree(pool, kernelRoot) && !IsFree(pool, low) && !IsFree(pool, lower)
      ensures Valid() && this.pool == pool && this.kernelRoot == kernelRoot
      ensures roles == BootRoles(kernelRoot, low, lower)
      ensures pages == iset x: nat | IsFree(pool, x) || x == kernelRoot || x == low || x == lower
      ensures Next(mem, kernelRoot, 0) == Some(low) && IsTable(mem, low) && Next(mem, low, 0) == Some(lower)
      ensures LowMapped(mem, kernelRoot)
    {
      this.pool, this.kernelRoot := pool, kernelRoot;
      mem, roles := BootMemory(kernelRoot, low, lower), BootRoles(kernelRoot, low, lower);
      pages := iset x: nat | IsFree(pool, x) || x == kernelRoot || x == low || x == lower;
      new;
      BootOwned(pool, kernelRoot, low, lower);
      BootLow(kernelRoot, low, lower);
    }

    method AllocZeroedPage() returns (r: Option<nat>)
      requires Valid()
      modifies this`mem, this`pool, this`roles
      ensures Valid()
      ensures r.None? ==> mem == old(mem) && pool == old(pool) && roles == old(roles) && FreeCount(pool) == 0
      ensures r.Some? ==> r.value !in old(roles) && IsPage(r.value) && FreeCount(pool) + 1 == FreeCount(old(pool))
      ensures r.Some? ==> mem == old(mem)[r.value := Zeroed()] && roles == old(roles)[r.value := Loose]
      ensures Quiet(old(roles), old(mem), mem)
    {
      TakeExact(pool);
      TakeCounts(pool);
      var (rest, page) := Take(pool);
      if page.None? {
        return None;
      }
      AllocOwned(mem, pool, roles, rest, page.value);
      AccountedTake(pages, pool, roles, rest, page.value);
      AllocQuiet(mem, roles, page.value);
      pool, mem, roles := rest, mem[page.value := Zeroed()], roles[page.value := Loose];
      return page;
    }

    method FreePhysPage(page: nat) returns (ok: bool)
      requires Valid() && IsRole(roles, page, Loose)
      modifies this`pool, this`roles
      ensures Valid()
      ensures (pool, ok) == Give(old(pool), page)
      ensures ok <==> |old(pool.stack)| < STACK_MAX
      ensures roles == if ok then old(roles) - {page} else old(roles)
    {
      GiveExact(pool, page);
      var (more, given) := Give(pool, page);
      if given {
        FreeOwned(mem, pool, roles, more, page);
        AccountedGive(pages, pool, roles, more, page);
        roles := roles - {page};
      }
      pool, ok := more, given;
    }

    /** A whole page is written while nothing refers to it yet. */
    method FillPage(page: nat, row: seq<nat>)
      requires Valid() && IsRole(roles, page, Loose)
      modifies this`mem
      ensures Valid() && mem == old(mem)[page := row]
    {
      LooseWriteOwned(mem, pool, roles, page, row);
      mem := mem[page := row];
    }

    method EnsureNextTable(table: nat, index: nat) returns (r: Option<nat>)
      requires Valid() && MayExtend(roles, table, index)
      modifies this`mem, this`pool, this`roles
      ensures Valid()
      ensures LinkAdded(old(mem), old(roles), mem, roles)
      ensures AddedFor(old(roles), roles, old(roles)[table].owner)
      ensures r.Some? ==> IsTable(mem, table) && Next(mem, table, index) == r
      ensures r.None? ==> mem == old(mem) && pool == old(pool) && roles == old(roles)
      ensures r.None? ==>
        IsTable(mem, table) && (FreeCount(pool) == 0 || (Present(mem[table][index]) && Huge(mem[table][index])))
      ensures FreeCount(pool) <= FreeCount(old(pool)) <= FreeCount(pool) + 1
    {
      hide Owned, LinkAdded, SameWalks, LinkOk, TablesKept, LinksKept;
      RoleNotPage(mem, pool, roles, table);
      NoLinkAdded(mem, roles);
      var entry := mem[table][index];
      if Present(entry) {
        if Huge(entry) {
          return None;
        }
        return Some(Addr(entry));
      }
      ghost var mem0, roles0 := mem, roles;
      r := AllocZeroedPage();
      if r.None? {
        return;
      }
      var next := r.value;
      FreshLink(mem0, roles0, mem, pool, roles, table, index, next);
      AccountedSame(pages, pool, roles, roles[next := LinkedRole(roles, table, index)]);
      roles := roles[next := LinkedRole(roles, table, index)];
      mem := Put(mem, table, index, MakeEntry(next, PRESENT + WRITABLE));
    }

    /** One level of the descent in map_page, from depth `d`. */
    method Descend(root: nat, path: Path, d: nat, table: nat) returns (r: Option<nat>)
      requires Valid() && MayTouch(roles, root, path) && d < 3
      requires IsRole(roles, table, Table(roles[root].owner, path[..d])) && TableAt(mem, root, path[..d]) == Some(table)
      modifies this`mem, this`pool, this`roles
      ensures Valid()
      ensures TablesAdded(old(mem), old(roles), mem, roles)
      ensures r.Some? ==> IsRole(roles, r.value, Table(old(roles)[root].owner, path[..d + 1]))
      ensures r.Some? ==> TableAt(mem, root, path[..d + 1]) == r
      ensures r.None? ==> pool == old(pool) && (FreeCount(pool) == 0 || Walk(mem, root, path).Large?)
      ensures FreeCount(pool) <= FreeCount(old(pool)) <= FreeCount(pool) + 1
    {
      NextOnPath(mem, roles, root, path, d, table);
      ghost var mem0, roles0 := mem, roles;
      r := EnsureNextTable(table, path[d]);
      KeptLinksKeepTables(mem0, roles0, mem, roles);
      if r.None? {
        if Present(mem[table][path[d]]) && Huge(mem[table][path[d]]) {
          LargeOnWay(mem, root, path, d, table);
        }
        return;
      }
      NextOnPath(mem, roles, root, path, d, table);
      OneDeeper(mem0, roles0, mem, pool, roles, root, path, d, table, r.value);
    }

    /** The three levels of map_page above the leaf. */
    method EnsureTables(root: nat, path: Path) returns (pt: Option<nat>)
      requires Valid() && MayTouch(roles, root, path)
      modifies this`mem, this`pool, this`roles
      ensures Valid()
      ensures TablesAdded(old(mem), old(roles), mem, roles)
      ensures pt.Some? ==> IsRole(roles, pt.value, Table(old(roles)[root].owner, path[..3]))
      ensures pt.Some? ==> TableAt(mem, root, path[..3]) == pt
      ensures pt.None? ==> FreeCount(pool) == 0 || Walk(old(mem), root, path).Large?
      ensures FreeCount(pool) <= FreeCount(old(pool)) <= FreeCount(pool) + if pt.None? then 2 else 3
    {
      ghost var mem0, roles0 := mem, roles;
      assert path[..0] == [];
      RoleNotPage(mem, pool, roles, root);
      NothingAdded(mem, roles);
      var next := Some(root);
      for d := 0 to 3
        invariant Valid() && TablesAdded(mem0, roles0, mem, roles)
        invariant FreeCount(pool) <= FreeCount(old(pool)) <= FreeCount(pool) + d
        invariant next.Some? && IsRole(roles, next.value, Table(roles0[root].owner, path[..d]))
        invariant TableAt(mem, root, path[..d]) == next
      {
        ghost var mem1, roles1 := mem, roles;
        next := Descend(root, path, d, next.value);
        TablesAddedChain(mem0, roles0, mem1, roles1, mem, roles);
        if next.None? {
          assert Starts(roles0, root, path);
          return None;
        }
      }
      return next;
    }

    /** map_page. */
    method MapPage(root: nat, virt: nat, phys: nat) returns (ok: bool)
      requires Valid() && MayTouch(roles, root, PathOf(virt)) && IsTableRole(roles, root, [])
      requires IsRole(roles, phys, Loose)
      modifies this`mem, this`pool, this`roles
      ensures Valid()
      ensures ok ==> virt % PAGE_SIZE == 0 && MappedOne(old(mem), old(roles), mem, roles, root, PathOf(virt), phys)
      ensures !ok ==> TablesAdded(old(mem), old(roles), mem, roles)
      ensures !ok && virt % PAGE_SIZE == 0 && Walk(old(mem), root, PathOf(virt)) == Unmapped ==>
        FreeCount(pool) == 0 && FreeCount(old(pool)) <= 2
      ensures FreeCount(pool) <= FreeCount(old(pool)) <= FreeCount(pool) + 3
    {
      hide Owned, MappedOne;
      NothingAdded(mem, roles);
      OwnedParts(mem, pool, roles);
      if virt % PAGE_SIZE != 0 || phys % PAGE_SIZE != 0 {
        return false;
      }
      var path := PathOf(virt);
      ghost var mem0, roles0 := mem, roles;
      var pt := EnsureTables(root, path);
      if pt.None? {
        return false;
      }
      RoleNotPage(mem, pool, roles, pt.value);
      ghost var mem1, roles1 := mem, roles;
      assert Starts(roles0, root, path) && Front(path) == path[..3];
      WalkSplits(mem, root, path);
      if Present(mem[pt.value][path[3]]) {
        return false;
      }
      FillLeaf(root, path, pt.value, phys);
      MappedAfterTables(mem0, roles0, mem1, roles1, mem, roles, root, path, phys);
      return true;
    }

    /** The final write of map_page. */
    method FillLeaf(root: nat, path: Path, pt: nat, phys: nat)
      requires Valid() && MayTouch(roles, root, path) && IsTableRole(roles, root, []) && IsRole(roles, phys, Loose)
      requires IsRole(roles, pt, Table(roles[root].owner, path[..3])) && TableAt(mem, root, path[..3]) == Some(pt)
      requires IsTable(mem, pt) && !Present(mem[pt][path[3]])
      modifies this`mem, this`roles
      ensures Valid()
      ensures MappedOne(old(mem), old(roles), mem, roles, root, path, phys)
    {
      assert Below(path[..3], path[3]) == path;
      BindOwned(mem, pool, roles, pt, path[3], phys);
      FilledIn(mem, roles, root, path, pt, phys);
      AccountedSame(pages, pool, roles, roles[phys := Data(roles[pt].owner, Below(roles[pt].place, path[3]))]);
      mem := Put(mem, pt, path[3], MakeEntry(phys, PRESENT + WRITABLE));
      roles := roles[phys := Data(roles[pt].owner, Below(roles[pt].place, path[3]))];
    }

    /** The descent unmap_page and page_mapped share. */
    method FindTable(root: nat, path: Path) returns (pt: Option<nat>)
      requires Valid() && MayTouch(roles, root, path)
      ensures pt == TableAt(mem, root, path[..3])
      ensures pt.Some? ==> IsRole(roles, pt.value, Table(roles[root].owner, path[..3])) && IsTable(mem, pt.value)
    {
      RoleNotPage(mem, pool, roles, root);
      var table := root;
      assert path[..0] == [];
      for d := 0 to 3
        invariant IsTable(mem, table) && TableAt(mem, root, path[..d]) == Some(table)
      {
        NextReached(mem, roles, root, path, d, table);
        var next := Next(mem, table, path[d]);
        if next.None? {
          assert path[..3][..d + 1] == path[..d + 1];
          NothingDeeper(mem, root, path[..3], d + 1);
          return None;
        }
        ReachedRole(mem, roles, root, path[..d + 1]);
        RoleNotPage(mem, pool, roles, next.value);
        table := next.value;
      }
      OwnTable(mem, roles, root, path, 3);
      return Some(table);
    }

    /** unmap_page: takes exactly one binding away and returns its frame. */
    method UnmapPage(root: nat, virt: nat) returns (r: Option<nat>)
      requires Valid() && MayTouch(roles, root, PathOf(virt))
      modifies this`mem, this`roles
      ensures Valid()
      ensures r.Some? <==> virt % PAGE_SIZE == 0 && Walk(old(mem), root, PathOf(virt)).Frame?
      ensures r.Some? ==> IsRole(old(roles), r.value, Data(old(roles)[root].owner, PathOf(virt)))
      ensures r.Some? ==> roles == old(roles)[r.value := Loose]
      ensures r.Some? ==> Unbound(old(roles), old(mem), mem, root, PathOf(virt), r.value)
      ensures r.None? ==> mem == old(mem) && roles == old(roles)
    {
      hide Accounted, Walk, PathOf, MakeEntry, TreeOk, Anchored, UniquePlaces, PlacesOk, WindowsOpen, InUse;
      var path := PathOf(virt);
      if virt % PAGE_SIZE != 0 {
        return None;
      }
      assert Front(path) == path[..3] && Below(path[..3], path[3]) == path;
      WalkSplits(mem, root, path);
      var pt := FindTable(root, path);
      if pt.None? {
        return None;
      }
      var entry := mem[pt.value][path[3]];
      if !Present(entry) {
        return None;
      }
      UnbindsExactly(mem, roles, root, path, pt.value);
      UnbindOwned(mem, pool, roles, pt.value, path[3]);
      AccountedSame(pages, pool, roles, roles[Addr(entry) := Loose]);
      mem := Put(mem, pt.value, path[3], 0);
      roles := roles[Addr(entry) := Loose];
      return Some(Addr(entry));
    }

    /** page_mapped. */
    method PageMapped(root: nat, virt: nat) returns (mapped: bool)
      requires Valid() && MayTouch(roles, root, PathOf(virt))
      ensures mapped <==> virt % PAGE_SIZE == 0 && Walk(mem, root, PathOf(virt)).Frame?
    {
      var path := PathOf(virt);
      if virt % PAGE_SIZE != 0 {
        return false;
      }
      WalkSplits(mem, root, path);
      var pt := FindTable(root, path);
      if pt.None? {
        return false;
      }
      assert LeavesOkAt(mem, roles, pt.value) && LeafOk(mem, roles, pt.value, path[3]);
      return Next(mem, pt.value, path[3]).Some?;
    }

    /** One round of unmap_user_pages. */
    method ReleasePage(root: nat, virt: nat) returns (phys: Option<nat>, freed: bool)
      requires Valid() && MayTouch(roles, root, PathOf(virt)) && virt % PAGE_SIZE == 0 && IsTableRole(roles, root, [])
      modifies this`mem, this`pool, this`roles
      ensures Valid()
      ensures PageReleased(old(mem), old(pool), old(roles), mem, pool, roles, root, PathOf(virt), phys)
      ensures |roles| + (if freed then 1 else 0) == |old(roles)|
    {
      hide Owned, PageReleased, Unbound;
      OwnedParts(mem, pool, roles);
      ghost var mem0, pool0, roles0 := mem, pool, roles;
      forall q | q in roles && roles[q] == Data(roles[root].owner, PathOf(virt))
        ensures Walk(mem, root, PathOf(virt)) == Frame(q)
      {
        DataReached(mem, pool, roles, root, q);
      }
      freed := false;
      phys := UnmapPage(root, virt);
      if phys.Some? && phys.value != 0 {
        assert roles0.Keys == roles.Keys;
        freed := FreePhysPage(phys.value);
        assert freed ==> roles0.Keys == roles.Keys + {phys.value};
      }
      ReleasedOne(mem0, pool0, roles0, mem, pool, roles, root, PathOf(virt), phys, freed);
    }

    /** unmap_user_pages: every mapped page of the run goes back to the pool. */
    method UnmapUserPages(root: nat, base: nat, pageCount: nat) returns (reclaimed: nat)
      requires Valid() && IsTableRole(roles, root, []) && MayTouchRun(roles, root, base, pageCount)
      modifies this`mem, this`pool, this`roles
      ensures Valid()
      ensures Emptied(old(mem), old(pool), old(roles), mem, pool, roles, root, base, pageCount)
      ensures reclaimed == |old(roles)| - |roles| && |old(pool).stack| <= |pool.stack|
    {
      reclaimed := 0;
      ghost var mem0, pool0, roles0 := mem, pool, roles;
      for index := 0 to pageCount
        invariant Valid() && reclaimed + |roles| == |roles0| && IsTableRole(roles, root, [])
        invariant |pool0.stack| <= |pool.stack|
        invariant Emptied(mem0, pool0, roles0, mem, pool, roles, root, base, index)
      {
        EmptiedTouch(mem0, pool0, roles0, mem, pool, roles, root, base, index, PageAt(base, index));
        ghost var mem1, pool1, roles1 := mem, pool, roles;
        PageAligned(base, index);
        var virt := base + index * PAGE_SIZE;
        var phys, freed := ReleasePage(root, virt);
        EmptiedStep(mem0, pool0, roles0, mem1, pool1, roles1, mem, pool, roles, root, base, index, phys);
        if freed {
          reclaimed := reclaimed + 1;
        }
      }
    }

    /** Allocation and mapping of one page of a run; a page that cannot be mapped is given back. */
    method MapFreshPage(root: nat, base: nat, index: nat) returns (ok: bool, ghost page: nat)
      requires Valid() && MayTouch(roles, root, PageAt(base, index)) && IsTableRole(roles, root, [])
      requires base % PAGE_SIZE == 0
      modifies this`mem, this`pool, this`roles
      ensures Valid()
      ensures ok ==> FreshMapped(old(mem), old(roles), mem, roles, root, PageAt(base, index), page)
      ensures !ok ==> Quiet(old(roles), old(mem), mem) && NoneLost(pool, old(roles), roles)
      ensures !ok && Walk(old(mem), root, PageAt(base, index)) == Unmapped ==> FreeCount(old(pool)) < 4
      ensures ok ==> FreeCount(pool) + 1 <= FreeCount(old(pool)) <= FreeCount(pool) + 4
    {
      hide Owned, FreshMapped, MappedOne;
      ghost var path := PageAt(base, index);
      PageAligned(base, index);
      var virt := base + index * PAGE_SIZE;
      ghost var mem0, roles0 := mem, roles;
      var phys := AllocZeroedPage();
      if phys.None? {
        return false, 0;
      }
      page := phys.value;
      ghost var mem1, roles1 := mem, roles;
      assert Starts(roles0, root, path);
      ok := MapPage(root, virt, phys.value);
      if ok {
        FreshMappedFrom(mem0, roles0, mem1, mem, roles, root, path, page);
      } else {
        QuietChain(mem0, roles0, mem1, roles1, mem);
        ghost var roles2, pool2 := roles, pool;
        var given := FreePhysPage(phys.value);
        NotMapped(roles0, page, roles2, pool2, pool, given);
      }
    }

    /** One round of map_user_pages, undoing the rounds before it if it fails. */
    method MapNextPage(root: nat, base: nat, index: nat, pageCount: nat,
                       ghost mem0: Memory, ghost pool0: Pool, ghost roles0: Roles)
      returns (ok: bool)
      requires Valid() && IsTableRole(roles0, root, []) && index < pageCount
      requires MayTouchRun(roles, root, base, pageCount)
      requires Owned(mem0, pool0, roles0) && RunMapped(mem0, roles0, mem, roles, root, base, index)
      modifies this`mem, this`pool, this`roles
      ensures Valid()
      ensures ok ==> RunMapped(mem0, roles0, mem, roles, root, base, index + 1)
      ensures ok ==> MayTouchRun(roles, root, base, pageCount)
      ensures !ok ==> SameWalks(roles0, mem0, mem) && NoneLost(pool, roles0, roles)
      ensures !ok && RunVacant(mem0, root, base, pageCount) ==> FreeCount(old(pool)) < 4
      ensures ok ==> FreeCount(pool) + 1 <= FreeCount(old(pool)) <= FreeCount(pool) + 4
    {
      hide SameWalks, Emptied, FreshMapped, Cleared, LeavesOk, Anchored, UniquePlaces, PlacesOk, WindowsOpen, TableOk;
      ghost var mem1, roles1 := mem, roles;
      if RunVacant(mem0, root, base, pageCount) {
        NextStillFree(mem0, roles0, mem, roles, root, base, index, pageCount);
      }
      ghost var page;
      ok, page := MapFreshPage(root, base, index);
      if ok {
        RunMappedStep(mem0, roles0, mem1, roles1, mem, roles, root, base, index, page);
      } else {
        ghost var mem2, pool2, roles2 := mem, pool, roles;
        var undone := UnmapUserPages(root, base, index);
        RunUndone(mem0, pool0, roles0, mem1, roles1, mem2, pool2, roles2, mem, pool, roles, root, base, index);
      }
    }

    /** map_user_pages: all of the run or, as far as any address can tell, nothing. */
    method MapUserPages(root: nat, base: nat, pageCount: nat) returns (ok: bool)
      requires Valid() && IsTableRole(roles, root, []) && MayTouchRun(roles, root, base, pageCount)
      modifies this`mem, this`pool, this`roles
      ensures Valid()
      ensures ok ==> RunMapped(old(mem), old(roles), mem, roles, root, base, pageCount)
      ensures !ok ==> SameWalks(old(roles), old(mem), mem) && NoneLost(pool, old(roles), roles)
      ensures !ok && RunVacant(old(mem), root, base, pageCount) ==> FreeCount(old(pool)) < 4 * pageCount
      ensures ok ==> FreeCount(pool) + pageCount <= FreeCount(old(pool)) <= FreeCount(pool) + 4 * pageCount
    {
      ghost var mem0, pool0, roles0 := mem, pool, roles;
      NothingMapped(mem, roles, root, base);
      for index := 0 to pageCount
        invariant Valid() && MayTouchRun(roles, root, base, pageCount)
        invariant RunMapped(mem0, roles0, mem, roles, root, base, index)
        invariant FreeCount(pool) + index <= FreeCount(pool0) <= FreeCount(pool) + 4 * index
      {
        ok := MapNextPage(root, base, index, pageCount, mem0, pool0, roles0);
        if !ok {
          return false;
        }
      }
      return true;
    }
  }
}
