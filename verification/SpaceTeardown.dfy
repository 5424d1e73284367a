/** Giving back everything that is a process's alone: its image pages, their tables and its root. */
module SpaceTeardown {
  import opened Common
  import opened PageTables
  import opened PhysPages
  import opened PageOwners
  import opened PageReturn
  import opened Mappings
  import opened AddressSpaces
  import opened ProcessSpaces

  const PDPT: Path := [0]
  const PD: Path := [0, 0]

  function PtPlace(d: nat): (p: Path)
    requires IMAGE_START <= d < IMAGE_END
    ensures |p| == 3 && p[..2] == PD && p[2] == d && OnImagePath(p)
  {
    [0, 0, d]
  }

  /** The state before anything is given back. */
  ghost predicate Doomed(mem: Memory, pool0: Pool, roles0: Roles, root: nat, pid: nat) {
    Owned(mem, pool0, roles0) && IsRole(roles0, root, Table(pid, [])) && pid != 0
  }

  // ---- Where the pages of the process are ----

  /** Rank tells places of the image window apart. */
  lemma RankPlace(a: Path, b: Path)
    requires a == [] || OnImagePath(if |a| == 4 then Front(a) else a)
    requires b == [] || OnImagePath(if |b| == 4 then Front(b) else b)
    requires Rank(a) == Rank(b)
    ensures a == b
  {
    ImageIndices(a);
    ImageIndices(b);
    RankBound(a);
    RankBound(b);
    if |a| >= 3 && |b| >= 3 {
      var x, y := if |a| == 4 then a[3] else ENTRIES, if |b| == 4 then b[3] else ENTRIES;
      assert a[2] * (ENTRIES + 1) + x == b[2] * (ENTRIES + 1) + y && x <= ENTRIES && y <= ENTRIES;
      assert a[2] == b[2] && x == y;
    }
  }

  lemma ImageIndices(a: Path)
    requires a == [] || OnImagePath(if |a| == 4 then Front(a) else a)
    ensures forall k :: 0 <= k < |a| && k < 2 ==> a[k] == 0
    ensures |a| >= 3 ==> IMAGE_START <= a[2] < IMAGE_END
  {
    if |a| >= 3 {
      var b := if |a| == 4 then Front(a) else a;
      assert b[..2][0] == b[0] == a[0] && b[..2][1] == b[1] == a[1] && b[2] == a[2];
    }
  }

  /** The table of the process at a place is the one its root leads to. */
  lemma TableOf(mem: Memory, pool0: Pool, roles0: Roles, root: nat, pid: nat, place: Path)
    requires Doomed(mem, pool0, roles0, root, pid) && |place| <= 3 && (place == [] || OnImagePath(place))
    ensures var t := TableAt(mem, root, place);
      if t.Some? then IsTable(mem, t.value) && OnlyAt(roles0, OfOwner(roles0, pid), Rank(place), t.value)
          && IsRole(roles0, t.value, Table(pid, place))
      else forall x :: x in OfOwner(roles0, pid) ==> Rank(roles0[x].place) != Rank(place)
  {
    var t := TableAt(mem, root, place);
    assert [] + place == place;
    ReachedRole(mem, roles0, root, place);
    if t.Some? {
      OwnedPlace(mem, pool0, roles0, root, pid, place);
      RoleNotPage(mem, pool0, roles0, t.value);
    }
    forall x | x in OfOwner(roles0, pid) && Rank(roles0[x].place) == Rank(place) ensures t == Some(x) {
      RankPlace(roles0[x].place, place);
      OwnReached(mem, pool0, roles0, root, x);
    }
  }

  /** On the image path the tables a process root reaches are its own. */
  lemma OwnedPlace(mem: Memory, pool0: Pool, roles0: Roles, root: nat, pid: nat, place: Path)
    requires Doomed(mem, pool0, roles0, root, pid) && |place| <= 3 && (place == [] || OnImagePath(place))
    requires TableAt(mem, root, place).Some?
    ensures IsRole(roles0, TableAt(mem, root, place).value, Table(pid, place))
  {
    RoleNotPage(mem, pool0, roles0, root);
    if place != [] {
      ImageIndices(place);
      var whole: Path := if |place| == 3 then place + [0] else if |place| == 2 then place + [1, 0]
          else place + [0, 1, 0];
      assert whole[..3][..2] == [0, 0] && whole[..|place|] == place;
      OwnTable(mem, roles0, root, whole, |place|);
    }
  }

  /** A bottom-level entry of the process maps its only page of that place. */
  lemma DataOf(mem: Memory, pool0: Pool, roles0: Roles, root: nat, pid: nat, place: Path, pt: nat, i: nat)
    requires Doomed(mem, pool0, roles0, root, pid) && |place| == 3 && OnImagePath(place) && i < ENTRIES
    requires TableAt(mem, root, place) == Some(pt) && IsTable(mem, pt)
    ensures var x := Next(mem, pt, i);
      if x.Some? then OnlyAt(roles0, OfOwner(roles0, pid), Rank(Below(place, i)), x.value)
      else forall x :: x in OfOwner(roles0, pid) ==> Rank(roles0[x].place) != Rank(Below(place, i))
  {
    OwnedPlace(mem, pool0, roles0, root, pid, place);
    assert LeavesOkAt(mem, roles0, pt) && LeafOk(mem, roles0, pt, i);
    var whole := Below(place, i);
    assert Front(whole) == place;
    WalkSplits(mem, root, whole);
    forall x | x in OfOwner(roles0, pid) && Rank(roles0[x].place) == Rank(whole) ensures Next(mem, pt, i) == Some(x) {
      RankPlace(roles0[x].place, whole);
      DataReached(mem, pool0, roles0, root, x);
    }
  }

  /** Nothing lies below a table that is not there. */
  lemma NoneBelow(mem: Memory, pool0: Pool, roles0: Roles, root: nat, pid: nat, place: Path, x: nat)
    requires Doomed(mem, pool0, roles0, root, pid) && |place| <= 3 && TableAt(mem, root, place).None?
    requires x in OfOwner(roles0, pid)
    ensures !IsPrefix(place, roles0[x].place)
  {
    var whole := roles0[x].place;
    if IsPrefix(place, whole) {
      if roles0[x].Table? {
        OwnReached(mem, pool0, roles0, root, x);
        NothingDeeper(mem, root, whole, |place|);
      } else {
        DataReached(mem, pool0, roles0, root, x);
        WalkSplits(mem, root, whole);
        assert Front(whole)[..|place|] == whole[..|place|];
        NothingDeeper(mem, root, Front(whole), |place|);
      }
    }
  }

  lemma {:induction false} ReachedIsTable(mem: Memory, table: nat, path: Path)
    ensures var t := TableAt(mem, table, path); t.Some? ==> IsTable(mem, t.value)
    decreases |path|
  {
    if IsTable(mem, table) && path != [] && Next(mem, table, path[0]).Some? {
      ReachedIsTable(mem, Next(mem, table, path[0]).value, path[1..]);
    }
  }

  // ---- destroy_process_address_space ----

  method FreeDataPage(vm: Vm, pt: nat, i: nat, ghost root: nat, ghost d: nat, ghost pool0: Pool, ghost roles0: Roles,
                      ghost pid: nat)
    requires Doomed(vm.mem, pool0, roles0, root, pid) && IMAGE_START <= d < IMAGE_END && i < ENTRIES
    requires TableAt(vm.mem, root, PtPlace(d)) == Some(pt) && IsTable(vm.mem, pt)
    requires GivenBack(pool0, roles0, OfOwner(roles0, pid), vm.pool, vm.roles, FirstOf(d) + i)
    modifies vm`pool, vm`roles
    ensures GivenBack(pool0, roles0, OfOwner(roles0, pid), vm.pool, vm.roles, FirstOf(d) + i + 1)
  {
    hide Owned, GivenBack;
    DataOf(vm.mem, pool0, roles0, root, pid, PtPlace(d), pt, i);
    assert Rank(Below(PtPlace(d), i)) == FirstOf(d) + i;
    var data := Next(vm.mem, pt, i);
    if data.Some? {
      GivePage(vm, data.value, pool0, roles0, OfOwner(roles0, pid), FirstOf(d) + i);
    } else {
      SkipRanks(pool0, roles0, OfOwner(roles0, pid), vm.pool, vm.roles, FirstOf(d) + i, FirstOf(d) + i + 1);
    }
  }

  method FreeDataPages(vm: Vm, pt: nat, ghost root: nat, ghost d: nat, ghost pool0: Pool, ghost roles0: Roles,
                       ghost pid: nat)
    requires Doomed(vm.mem, pool0, roles0, root, pid) && IMAGE_START <= d < IMAGE_END
    requires TableAt(vm.mem, root, PtPlace(d)) == Some(pt) && IsTable(vm.mem, pt)
    requires GivenBack(pool0, roles0, OfOwner(roles0, pid), vm.pool, vm.roles, FirstOf(d))
    modifies vm`pool, vm`roles
    ensures GivenBack(pool0, roles0, OfOwner(roles0, pid), vm.pool, vm.roles, FirstOf(d) + ENTRIES)
  {
    hide Owned, GivenBack;
    ghost var first := FirstOf(d);
    for i := 0 to ENTRIES
      invariant GivenBack(pool0, roles0, OfOwner(roles0, pid), vm.pool, vm.roles, first + i)
    {
      FreeDataPage(vm, pt, i, root, d, pool0, roles0, pid);
    }
  }

  /** The data pages of one private page table, then the table. */
  method FreePageTable(vm: Vm, pt: nat, ghost root: nat, ghost d: nat, ghost pool0: Pool, ghost roles0: Roles,
                       ghost pid: nat)
    requires Doomed(vm.mem, pool0, roles0, root, pid) && IMAGE_START <= d < IMAGE_END
    requires TableAt(vm.mem, root, PtPlace(d)) == Some(pt)
    requires GivenBack(pool0, roles0, OfOwner(roles0, pid), vm.pool, vm.roles, FirstOf(d))
    modifies vm`pool, vm`roles
    ensures GivenBack(pool0, roles0, OfOwner(roles0, pid), vm.pool, vm.roles, FirstOf(d + 1))
  {
    hide Owned, GivenBack;
    ReachedIsTable(vm.mem, root, PtPlace(d));
    FreeDataPages(vm, pt, root, d, pool0, roles0, pid);
    TableOf(vm.mem, pool0, roles0, root, pid, PtPlace(d));
    assert Rank(PtPlace(d)) == FirstOf(d) + ENTRIES && FirstOf(d + 1) == FirstOf(d) + ENTRIES + 1;
    GivePage(vm, pt, pool0, roles0, OfOwner(roles0, pid), FirstOf(d) + ENTRIES);
  }

  lemma SlotOfRank(e: nat, d: nat, rank: nat)
    requires FirstOf(e) <= rank < FirstOf(e + 1)
    ensures FirstOf(d) <= rank < FirstOf(d + 1) ==> e == d
  {
  }

  /** No page of the process lies in a page-directory slot that is empty. */
  lemma EmptySlot(mem: Memory, pool0: Pool, roles0: Roles, root: nat, pid: nat, d: nat, x: nat)
    requires Doomed(mem, pool0, roles0, root, pid) && IMAGE_START <= d < IMAGE_END && x in OfOwner(roles0, pid)
    requires TableAt(mem, root, PtPlace(d)).None?
    ensures !(FirstOf(d) <= Rank(roles0[x].place) < FirstOf(d + 1))
  {
    var place := roles0[x].place;
    ImageIndices(place);
    RankBound(place);
    if |place| >= 3 {
      SlotOfRank(place[2], d, Rank(place));
    }
    if |place| >= 3 && place[2] == d {
      assert place[..3] == PtPlace(d);
      NoneBelow(mem, pool0, roles0, root, pid, PtPlace(d), x);
    }
  }

  lemma WholePrefix(whole: Path, n: nat)
    requires whole == [] || OnImagePath(if |whole| == 4 then Front(whole) else whole)
    requires 1 <= n <= 2 && n <= |whole|
    ensures IsPrefix(if n == 1 then PDPT else PD, whole)
  {
    ImageIndices(whole);
  }

  /** Without a private table there is no page below it. */
  lemma NothingBelow(mem: Memory, pool0: Pool, roles0: Roles, root: nat, pid: nat, place: Path, x: nat)
    requires Doomed(mem, pool0, roles0, root, pid) && (place == PDPT || place == PD) && x in OfOwner(roles0, pid)
    requires TableAt(mem, root, place).None?
    ensures Rank(roles0[x].place) >= FirstOf(ENTRIES) + 3 - |place|
  {
    var whole := roles0[x].place;
    NoneBelow(mem, pool0, roles0, root, pid, place, x);
    ImageIndices(whole);
    RankBound(whole);
    if |whole| >= |place| {
      WholePrefix(whole, |place|);
    }
  }

  lemma LowRank(roles0: Roles, pid: nat, x: nat)
    requires PlacesOk(roles0) && pid != 0 && x in OfOwner(roles0, pid)
    ensures Rank(roles0[x].place) >= FirstOf(IMAGE_START)
  {
    ImageIndices(roles0[x].place);
  }

  lemma FirstRank(pool0: Pool, roles0: Roles, pool: Pool, roles: Roles, pid: nat, root: nat, mem: Memory)
    requires GivenBack(pool0, roles0, OfOwner(roles0, pid), pool, roles, 0) && Doomed(mem, pool0, roles0, root, pid)
    ensures GivenBack(pool0, roles0, OfOwner(roles0, pid), pool, roles, FirstOf(IMAGE_START))
  {
    forall x | x in OfOwner(roles0, pid) ensures Rank(roles0[x].place) >= FirstOf(IMAGE_START) {
      LowRank(roles0, pid, x);
    }
    SkipRanks(pool0, roles0, OfOwner(roles0, pid), pool, roles, 0, FirstOf(IMAGE_START));
  }

  lemma LastRank(pool0: Pool, roles0: Roles, pool: Pool, roles: Roles, pid: nat, root: nat, mem: Memory)
    requires GivenBack(pool0, roles0, OfOwner(roles0, pid), pool, roles, FirstOf(IMAGE_END))
    requires Doomed(mem, pool0, roles0, root, pid)
    ensures GivenBack(pool0, roles0, OfOwner(roles0, pid), pool, roles, FirstOf(ENTRIES))
  {
    forall x | x in OfOwner(roles0, pid) ensures !(FirstOf(IMAGE_END) <= Rank(roles0[x].place) < FirstOf(ENTRIES)) {
      HighRank(roles0, pid, x);
    }
    SkipRanks(pool0, roles0, OfOwner(roles0, pid), pool, roles, FirstOf(IMAGE_END), FirstOf(ENTRIES));
  }

  lemma HighRank(roles0: Roles, pid: nat, x: nat)
    requires PlacesOk(roles0) && pid != 0 && x in OfOwner(roles0, pid)
    ensures !(FirstOf(IMAGE_END) <= Rank(roles0[x].place) < FirstOf(ENTRIES))
  {
    ImageIndices(roles0[x].place);
  }

  lemma SkipSlot(mem: Memory, pool0: Pool, roles0: Roles, pool: Pool, roles: Roles, root: nat, pid: nat, d: nat)
    requires Doomed(mem, pool0, roles0, root, pid) && IMAGE_START <= d < IMAGE_END
    requires TableAt(mem, root, PtPlace(d)).None?
    requires GivenBack(pool0, roles0, OfOwner(roles0, pid), pool, roles, FirstOf(d))
    ensures GivenBack(pool0, roles0, OfOwner(roles0, pid), pool, roles, FirstOf(d + 1))
  {
    forall x | x in OfOwner(roles0, pid) ensures !(FirstOf(d) <= Rank(roles0[x].place) < FirstOf(d + 1)) {
      EmptySlot(mem, pool0, roles0, root, pid, d, x);
    }
    SkipRanks(pool0, roles0, OfOwner(roles0, pid), pool, roles, FirstOf(d), FirstOf(d + 1));
  }

  lemma SkipAll(mem: Memory, pool0: Pool, roles0: Roles, pool: Pool, roles: Roles, root: nat, pid: nat, place: Path)
    requires Doomed(mem, pool0, roles0, root, pid) && (place == PDPT || place == PD) && TableAt(mem, root, place).None?
    requires GivenBack(pool0, roles0, OfOwner(roles0, pid), pool, roles, 0)
    ensures GivenBack(pool0, roles0, OfOwner(roles0, pid), pool, roles, FirstOf(ENTRIES) + 3 - |place|)
  {
    forall x | x in OfOwner(roles0, pid) ensures Rank(roles0[x].place) >= FirstOf(ENTRIES) + 3 - |place| {
      NothingBelow(mem, pool0, roles0, root, pid, place, x);
    }
    SkipRanks(pool0, roles0, OfOwner(roles0, pid), pool, roles, 0, FirstOf(ENTRIES) + 3 - |place|);
  }

  /** The links from a process root to its page directory and page tables. */
  lemma RootLinks(mem: Memory, pool0: Pool, roles0: Roles, root: nat, pid: nat)
    requires Doomed(mem, pool0, roles0, root, pid) && IsTable(mem, root)
    ensures TableAt(mem, root, PDPT) == Next(mem, root, 0)
    ensures var pdpt := Next(mem, root, 0);
      pdpt.Some? ==> IsTable(mem, pdpt.value) && TableAt(mem, root, PD) == Next(mem, pdpt.value, 0)
  {
    assert PD[..0] == [] && PD[..1] == PDPT && PD[..2] == PD;
    NextReached(mem, roles0, root, PD, 0, root);
    var pdpt := Next(mem, root, 0);
    if pdpt.Some? {
      NextReached(mem, roles0, root, PD, 1, pdpt.value);
    }
  }

  lemma DirectoryLink(mem: Memory, pool0: Pool, roles0: Roles, root: nat, pid: nat, pd: nat, d: nat)
    requires Doomed(mem, pool0, roles0, root, pid) && IMAGE_START <= d < IMAGE_END && TableAt(mem, root, PD) == Some(pd)
    ensures IsTable(mem, pd) && TableAt(mem, root, PtPlace(d)) == Next(mem, pd, d)
  {
    NextReached(mem, roles0, root, PtPlace(d), 2, pd);
    assert PtPlace(d)[..3] == PtPlace(d);
  }

  /** One slot of the private page directory. */
  method FreeSlot(vm: Vm, pd: nat, d: nat, ghost root: nat, ghost pool0: Pool, ghost roles0: Roles, ghost pid: nat)
    requires Doomed(vm.mem, pool0, roles0, root, pid) && TableAt(vm.mem, root, PD) == Some(pd)
    requires IMAGE_START <= d < IMAGE_END
    requires GivenBack(pool0, roles0, OfOwner(roles0, pid), vm.pool, vm.roles, FirstOf(d))
    modifies vm`pool, vm`roles
    ensures GivenBack(pool0, roles0, OfOwner(roles0, pid), vm.pool, vm.roles, FirstOf(d + 1))
  {
    hide Owned, GivenBack;
    DirectoryLink(vm.mem, pool0, roles0, root, pid, pd, d);
    var pt := Next(vm.mem, pd, d);
    if pt.Some? {
      FreePageTable(vm, pt.value, root, d, pool0, roles0, pid);
    } else {
      SkipSlot(vm.mem, pool0, roles0, vm.pool, vm.roles, root, pid, d);
    }
  }

  method FreeSlots(vm: Vm, pd: nat, ghost root: nat, ghost pool0: Pool, ghost roles0: Roles, ghost pid: nat)
    requires Doomed(vm.mem, pool0, roles0, root, pid) && TableAt(vm.mem, root, PD) == Some(pd)
    requires GivenBack(pool0, roles0, OfOwner(roles0, pid), vm.pool, vm.roles, FirstOf(IMAGE_START))
    modifies vm`pool, vm`roles
    ensures GivenBack(pool0, roles0, OfOwner(roles0, pid), vm.pool, vm.roles, FirstOf(IMAGE_END))
  {
    hide Owned, GivenBack;
    for d := IMAGE_START to IMAGE_END
      invariant GivenBack(pool0, roles0, OfOwner(roles0, pid), vm.pool, vm.roles, FirstOf(d))
    {
      FreeSlot(vm, pd, d, root, pool0, roles0, pid);
    }
  }

  /** The private page directory with all its tables. */
  method FreeDirectory(vm: Vm, pd: nat, ghost root: nat, ghost pool0: Pool, ghost roles0: Roles, ghost pid: nat)
    requires Doomed(vm.mem, pool0, roles0, root, pid) && TableAt(vm.mem, root, PD) == Some(pd)
    requires GivenBack(pool0, roles0, OfOwner(roles0, pid), vm.pool, vm.roles, 0)
    modifies vm`pool, vm`roles
    ensures GivenBack(pool0, roles0, OfOwner(roles0, pid), vm.pool, vm.roles, FirstOf(ENTRIES) + 1)
  {
    hide Owned, GivenBack;
    FirstRank(pool0, roles0, vm.pool, vm.roles, pid, root, vm.mem);
    FreeSlots(vm, pd, root, pool0, roles0, pid);
    LastRank(pool0, roles0, vm.pool, vm.roles, pid, root, vm.mem);
    TableOf(vm.mem, pool0, roles0, root, pid, PD);
    GivePage(vm, pd, pool0, roles0, OfOwner(roles0, pid), FirstOf(ENTRIES));
  }

  method FreeRootTables(vm: Vm, root: nat, ghost pool0: Pool, ghost roles0: Roles, ghost pid: nat)
    requires Doomed(vm.mem, pool0, roles0, root, pid) && IsTable(vm.mem, root)
    requires GivenBack(pool0, roles0, OfOwner(roles0, pid), vm.pool, vm.roles, 0)
    modifies vm`pool, vm`roles
    ensures GivenBack(pool0, roles0, OfOwner(roles0, pid), vm.pool, vm.roles, FirstOf(ENTRIES) + 2)
  {
    hide Owned, GivenBack;
    RootLinks(vm.mem, pool0, roles0, root, pid);
    var pdpt := Next(vm.mem, root, 0);
    if pdpt.None? {
      SkipAll(vm.mem, pool0, roles0, vm.pool, vm.roles, root, pid, PDPT);
      return;
    }
    TableOf(vm.mem, pool0, roles0, root, pid, PDPT);
    var pd := Next(vm.mem, pdpt.value, 0);
    if pd.Some? {
      FreeDirectory(vm, pd.value, root, pool0, roles0, pid);
    } else {
      SkipAll(vm.mem, pool0, roles0, vm.pool, vm.roles, root, pid, PD);
    }
    GivePage(vm, pdpt.value, pool0, roles0, OfOwner(roles0, pid), FirstOf(ENTRIES) + 1);
  }

  /** destroy_process_address_space: each page of the process is returned once, every other page and all
      translations stay. */
  method DestroyProcessAddressSpace(vm: Vm, root: nat)
    requires vm.Valid() && IsProcessRoot(vm.roles, root)
    modifies vm`pool, vm`roles
    ensures vm.Valid()
    ensures Released(old(vm.pool), old(vm.roles), OfOwner(old(vm.roles), old(vm.roles)[root].owner), vm.pool, vm.roles)
  {
    ghost var pool0, roles0, pid := vm.pool, vm.roles, vm.roles[root].owner;
    assert Doomed(vm.mem, pool0, roles0, root, pid);
    OwnerClosed(vm.mem, pool0, roles0, pid);
    LoosenOwned(vm.mem, pool0, roles0, OfOwner(roles0, pid));
    RoleNotPage(vm.mem, pool0, roles0, root);
    vm.roles := Loosened(vm.roles, OfOwner(vm.roles, pid));
    NothingGivenBack(pool0, roles0, OfOwner(roles0, pid));
    FreeRootTables(vm, root, pool0, roles0, pid);
    TableOf(vm.mem, pool0, roles0, root, pid, []);
    GivePage(vm, root, pool0, roles0, OfOwner(roles0, pid), FirstOf(ENTRIES) + 2);
    ReturnedOwned(vm.mem, pool0, roles0, OfOwner(roles0, pid), vm.pool, vm.roles, ALL_RANKS);
    AllGivenBack(pool0, roles0, OfOwner(roles0, pid), vm.pool, vm.roles);
    ReleasedAccounts(vm.pages, pool0, roles0, OfOwner(roles0, pid), vm.pool, vm.roles);
  }

}
