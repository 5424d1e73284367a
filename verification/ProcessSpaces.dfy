/** A process's own root: everything of the kernel's but the program-image window. */
module ProcessSpaces {
  import opened Common
  import opened PageTables
  import opened PhysPages
  import opened PageOwners
  import opened Mappings
  import opened AddressSpaces

  /** Page-directory entries of the image window 0x200000..0x9000000. */
  const IMAGE_START := 1
  const IMAGE_END := 72

  predicate InImage(path: Path) {
    |path| == 4 && path[0] == 0 && path[1] == 0 && IMAGE_START <= path[2] < IMAGE_END
  }

  /** The window in addresses. */
  lemma ImageWindow(virt: nat)
    requires virt < 0x8000_0000_0000
    ensures InImage(PathOf(virt)) <==> 0x20_0000 <= virt < 0x900_0000
  {
    PathOfBits(virt);
  }

  /** What the kernel maps itself is never hidden behind a large page. */
  lemma {:induction false} NeverLarge(mem: Memory, roles: Roles, table: nat, path: Path)
    requires TreeOk(mem, roles) && Starts(roles, table, path)
    requires var whole := roles[table].place + path;
      |whole| == 4 && if roles[table].owner == 0 then whole[0] >= SHARED_TOP else OnImagePath(whole[..3])
    ensures !Walk(mem, table, path).Large?
    decreases |path|
  {
    assert TableOk(mem, roles, table);
    if |path| > 1 {
      assert LinkOk(mem, roles, table, path[0]);
      var place, whole := roles[table].place, roles[table].place + path;
      assert whole == (place + [path[0]]) + path[1..];
      assert (place + [path[0]])[0] == whole[0];
      if roles[table].owner != 0 {
        ImagePrefix(whole, |place| + 1);
        assert whole[..|place| + 1] == place + [path[0]];
      }
      var next := Next(mem, table, path[0]);
      if next.Some? {
        NeverLarge(mem, roles, next.value, path[1..]);
      }
    }
  }

  lemma ImagePrefix(whole: Path, n: nat)
    requires |whole| == 4 && OnImagePath(whole[..3]) && 1 <= n <= 3
    ensures OnImagePath(whole[..n])
  {
    assert whole[..3][..2] == whole[..2] == [0, 0];
    assert whole[0] == whole[..2][0] == 0 && whole[1] == whole[..2][1] == 0;
    assert whole[..1] == [0];
  }

  // ---- Visibility ----

  /** The kernel's own-half tables hang off the kernel root only, so every root that has a top-level entry
      there has the kernel's. */
  lemma SameTop(mem: Memory, pool: Pool, roles: Roles, k: nat, a: nat, i: nat)
    requires Owned(mem, pool, roles) && IsRole(roles, k, Table(0, [])) && IsTableRole(roles, a, [])
    requires SHARED_TOP <= i < ENTRIES && IsTable(mem, a) && Present(mem[a][i])
    ensures IsTable(mem, k) && Next(mem, a, i).Some? && Next(mem, k, i) == Next(mem, a, i)
  {
    assert TableOk(mem, roles, a) && TableOk(mem, roles, k);
    assert LinkOk(mem, roles, a, i);
    var q := Next(mem, a, i).value;
    assert roles[q].place == [i];
    assert roles[q].owner == 0;
    assert AnchorOk(mem, roles, q);
    var p :| IsParent(mem, roles, p, q);
    assert p == k;
  }

  /** Whatever the kernel root maps in a process's heap, mmap and stack windows is what the process sees, at
      all times. */
  lemma SeesOwnWindows(mem: Memory, pool: Pool, roles: Roles, k: nat, root: nat, path: Path)
    requires Owned(mem, pool, roles) && IsRole(roles, k, Table(0, [])) && IsProcessRoot(roles, root)
    requires |path| == 4 && path[0] >= SHARED_TOP && WindowTop(roles[root].owner, path[0])
    ensures Walk(mem, root, path) == Walk(mem, k, path)
  {
    assert TableOk(mem, roles, root);
    assert WindowOpen(mem, root, roles[root].owner, path[0]);
    SameTop(mem, pool, roles, k, root, path[0]);
  }

  // ---- A cloned root is adopted ----

  function ClearedRow(row: seq<nat>): (s: seq<nat>)
    requires |row| == ENTRIES
    ensures |s| == ENTRIES
    ensures forall i :: 0 <= i < ENTRIES ==> s[i] == if IMAGE_START <= i < IMAGE_END then 0 else row[i]
  {
    seq(ENTRIES, i requires 0 <= i < ENTRIES => if IMAGE_START <= i < IMAGE_END then 0 else row[i])
  }

  ghost predicate Leads(mem: Memory, table: nat, i: nat, next: nat) {
    IsTable(mem, table) && i < ENTRIES && Next(mem, table, i) == Some(next) && IsTable(mem, next)
  }

  /** Pages `a`, `b`, `c` are private copies of the root `k` and of the tables `sp` and `sd` of its first
      addresses, linked to each other, with the image window cleared. */
  ghost predicate Cloned(mem: Memory, k: nat, sp: nat, sd: nat, a: nat, b: nat, c: nat) {
    && Leads(mem, k, 0, sp) && Leads(mem, sp, 0, sd)
    && IsTable(mem, a) && IsTable(mem, b) && IsTable(mem, c)
    && mem[a] == mem[k][0 := MakeEntry(b, PRESENT + WRITABLE)]
    && mem[b] == mem[sp][0 := MakeEntry(c, PRESENT + WRITABLE)]
    && mem[c] == ClearedRow(mem[sd])
  }

  function Adopted(roles: Roles, pid: nat, a: nat, b: nat, c: nat): Roles {
    roles[a := Table(pid, [])][b := Table(pid, [0])][c := Table(pid, [0, 0])]
  }

  /** Nothing belongs to the process yet, and the three pages are held loose. */
  ghost predicate CanAdopt(mem: Memory, roles: Roles, k: nat, sp: nat, sd: nat, pid: nat, a: nat, b: nat, c: nat) {
    && pid != 0 && (forall q :: q in roles && !roles[q].Loose? ==> roles[q].owner != pid)
    && IsRole(roles, a, Loose) && IsRole(roles, b, Loose) && IsRole(roles, c, Loose) && a != b && a != c && b != c
    && IsPage(a) && IsPage(b) && IsPage(c)
    && IsRole(roles, k, Table(0, [])) && Cloned(mem, k, sp, sd, a, b, c)
  }

  lemma AdoptOld(mem: Memory, roles: Roles, k: nat, sp: nat, sd: nat, pid: nat, a: nat, b: nat, c: nat, q: nat)
    requires TreeOk(mem, roles) && CanAdopt(mem, roles, k, sp, sd, pid, a, b, c)
    requires q in roles && roles[q].Table? && LeavesOkAt(mem, roles, q)
    ensures TableOk(mem, Adopted(roles, pid, a, b, c), q) && LeavesOkAt(mem, Adopted(roles, pid, a, b, c), q)
  {
    var roles' := Adopted(roles, pid, a, b, c);
    assert TableOk(mem, roles, q);
    forall i | |roles[q].place| < 3 && 0 <= i < ENTRIES ensures LinkOk(mem, roles', q, i) {
      assert LinkOk(mem, roles, q, i);
    }
    forall i | IsLeafTable(mem, roles, q) && 0 <= i < ENTRIES ensures LeafOk(mem, roles', q, i) {
      assert LeafOk(mem, roles, q, i);
    }
  }

  lemma AdoptRoot(mem: Memory, roles: Roles, k: nat, sp: nat, sd: nat, pid: nat, a: nat, b: nat, c: nat)
    requires TreeOk(mem, roles) && CanAdopt(mem, roles, k, sp, sd, pid, a, b, c)
    ensures TableOk(mem, Adopted(roles, pid, a, b, c), a)
  {
    var roles' := Adopted(roles, pid, a, b, c);
    MadeEntry(b);
    assert TableOk(mem, roles, k);
    forall i | 0 <= i < ENTRIES ensures LinkOk(mem, roles', a, i) {
      assert LinkOk(mem, roles, k, i);
    }
  }

  lemma AdoptPdpt(mem: Memory, roles: Roles, k: nat, sp: nat, sd: nat, pid: nat, a: nat, b: nat, c: nat)
    requires TreeOk(mem, roles) && CanAdopt(mem, roles, k, sp, sd, pid, a, b, c)
    ensures TableOk(mem, Adopted(roles, pid, a, b, c), b)
  {
    var roles' := Adopted(roles, pid, a, b, c);
    MadeEntry(c);
    assert TableOk(mem, roles, k) && LinkOk(mem, roles, k, 0);
    assert TableOk(mem, roles, sp) && roles[sp].place == [0];
    forall i | 0 <= i < ENTRIES ensures LinkOk(mem, roles', b, i) {
      if i > 0 {
        assert mem[b][i] == mem[sp][i];
        assert LinkOk(mem, roles, sp, i);
        assert ([0] + [i])[1] == i;
      } else {
        assert [0] + [0] == [0, 0];
      }
    }
  }

  lemma AdoptPd(mem: Memory, roles: Roles, k: nat, sp: nat, sd: nat, pid: nat, a: nat, b: nat, c: nat)
    requires TreeOk(mem, roles) && CanAdopt(mem, roles, k, sp, sd, pid, a, b, c)
    ensures TableOk(mem, Adopted(roles, pid, a, b, c), c)
  {
    var roles' := Adopted(roles, pid, a, b, c);
    assert TableOk(mem, roles, k) && LinkOk(mem, roles, k, 0);
    assert TableOk(mem, roles, sp) && LinkOk(mem, roles, sp, 0) && roles[sp].place == [0];
    assert TableOk(mem, roles, sd) && roles[sd].place == [0, 0];
    forall i | 0 <= i < ENTRIES ensures LinkOk(mem, roles', c, i) {
      assert LinkOk(mem, roles, sd, i);
      assert ([0, 0] + [i])[..2] == [0, 0];
    }
  }

  lemma AdoptAnchors(mem: Memory, roles: Roles, k: nat, sp: nat, sd: nat, pid: nat, a: nat, b: nat, c: nat)
    requires Anchored(mem, roles) && CanAdopt(mem, roles, k, sp, sd, pid, a, b, c)
    ensures Anchored(mem, Adopted(roles, pid, a, b, c))
  {
    var roles' := Adopted(roles, pid, a, b, c);
    MadeEntry(b);
    MadeEntry(c);
    forall q | q in roles' ensures AnchorOk(mem, roles', q) {
      if q == b {
        assert IsParent(mem, roles', a, b);
      } else if q == c {
        assert IsParent(mem, roles', b, c);
      } else if q != a {
        assert AnchorOk(mem, roles, q);
        if !roles[q].Loose? && roles[q].place != [] {
          if p :| IsParent(mem, roles, p, q) {
            assert IsParent(mem, roles', p, q);
          }
        }
      }
    }
  }

  lemma AdoptUnique(mem: Memory, roles: Roles, k: nat, sp: nat, sd: nat, pid: nat, a: nat, b: nat, c: nat)
    requires UniquePlaces(roles) && PlacesOk(roles) && CanAdopt(mem, roles, k, sp, sd, pid, a, b, c)
    ensures UniquePlaces(Adopted(roles, pid, a, b, c)) && PlacesOk(Adopted(roles, pid, a, b, c))
  {
    var roles' := Adopted(roles, pid, a, b, c);
    forall p, q | p in roles' && q in roles' && roles'[p].Table? && Managed(roles'[p].owner, roles'[p].place)
                  && roles'[p] == roles'[q]
      ensures p == q
    {
      assert |roles'[a].place| == 0 && |roles'[b].place| == 1 && |roles'[c].place| == 2;
    }
  }

  ghost predicate TopsPresent(mem: Memory, k: nat, pid: nat) {
    IsTable(mem, k) && forall i: nat :: i < ENTRIES && WindowTop(pid, i) ==> i != 0 && Present(mem[k][i])
  }

  lemma AdoptOpen(mem: Memory, roles: Roles, k: nat, sp: nat, sd: nat, pid: nat, a: nat, b: nat, c: nat)
    requires WindowsOpen(mem, roles) && CanAdopt(mem, roles, k, sp, sd, pid, a, b, c) && TopsPresent(mem, k, pid)
    ensures WindowsOpen(mem, Adopted(roles, pid, a, b, c))
  {
    var roles' := Adopted(roles, pid, a, b, c);
    forall root: nat, i: nat | IsProcessRoot(roles', root) ensures WindowOpen(mem, root, roles'[root].owner, i) {
      if root != a {
        assert IsProcessRoot(roles, root) && WindowOpen(mem, root, roles[root].owner, i);
      }
    }
  }

  /** The clone becomes the process's root. */
  lemma AdoptOwned(mem: Memory, pool: Pool, roles: Roles, k: nat, sp: nat, sd: nat, pid: nat, a: nat, b: nat, c: nat)
    requires Owned(mem, pool, roles) && CanAdopt(mem, roles, k, sp, sd, pid, a, b, c) && TopsPresent(mem, k, pid)
    ensures Owned(mem, pool, Adopted(roles, pid, a, b, c))
  {
    var roles' := Adopted(roles, pid, a, b, c);
    AdoptRoot(mem, roles, k, sp, sd, pid, a, b, c);
    AdoptPdpt(mem, roles, k, sp, sd, pid, a, b, c);
    AdoptPd(mem, roles, k, sp, sd, pid, a, b, c);
    AdoptAnchors(mem, roles, k, sp, sd, pid, a, b, c);
    AdoptUnique(mem, roles, k, sp, sd, pid, a, b, c);
    AdoptOpen(mem, roles, k, sp, sd, pid, a, b, c);
    forall q | q in roles' && roles'[q].Table? ensures TableOk(mem, roles', q) && LeavesOkAt(mem, roles', q) {
      if q in roles && roles[q].Table? {
        assert LeavesOkAt(mem, roles, q);
        AdoptOld(mem, roles, k, sp, sd, pid, a, b, c, q);
      }
    }
  }

  /** The new root translates nothing in the image window and agrees with the kernel's everywhere else. */
  lemma CloneTranslates(mem: Memory, k: nat, sp: nat, sd: nat, a: nat, b: nat, c: nat, path: Path)
    requires Cloned(mem, k, sp, sd, a, b, c) && IsPage(b) && IsPage(c) && |path| == 4
    ensures Walk(mem, a, path) == if InImage(path) then Unmapped else Walk(mem, k, path)
  {
    MadeEntry(b);
    MadeEntry(c);
    if path[0] == 0 {
      assert Walk(mem, a, path) == Walk(mem, b, path[1..]) && Walk(mem, k, path) == Walk(mem, sp, path[1..]);
      if path[1] == 0 {
        assert path[1..][1..] == path[2..] && path[1..][0] == path[1] && path[2..][0] == path[2];
        assert Walk(mem, b, path[1..]) == Walk(mem, c, path[2..]);
        assert Walk(mem, sp, path[1..]) == Walk(mem, sd, path[2..]);
      }
    }
  }

  // ---- create_process_address_space ----

  /** Below this number the windows of processes do not run into each other. */
  const PID_LIMIT := 16384

  lemma HeapTop(pid: nat)
    requires pid < PID_LIMIT
    ensures PathOf(HeapBase(pid))[0] == 288 + pid / 2048
  {
    PathOfBits(HeapBase(pid));
    assert HeapBase(pid) / 0x80_0000_0000 == 0x1FF_FF20 + pid / 2048;
  }

  lemma MmapTop(pid: nat)
    requires pid < PID_LIMIT
    ensures PathOf(MmapBase(pid))[0] == 320 + pid / 512
  {
    PathOfBits(MmapBase(pid));
    assert MmapBase(pid) / 0x80_0000_0000 == 0x1FF_FF40 + pid / 512;
  }

  lemma StackTop(pid: nat)
    requires pid < PID_LIMIT
    ensures PathOf(StackBase(pid))[0] == 352
  {
    PathOfBits(StackBase(pid));
    assert StackBase(pid) / 0x80_0000_0000 == 0x1FF_FF60;
  }

  /** Heap, mmap and stack windows have top-level entries 288..295, 320..351 and 352. */
  lemma WindowTops(pid: nat, i: nat)
    requires pid < PID_LIMIT && WindowTop(pid, i)
    ensures SHARED_TOP <= i < ENTRIES
    ensures i == 288 + pid / 2048 || i == 320 + pid / 512 || i == 352
  {
    HeapTop(pid);
    MmapTop(pid);
    StackTop(pid);
  }

  lemma LinkAddedChain(m0: Memory, roles: Roles, m1: Memory, roles1: Roles, m2: Memory, roles2: Roles)
    requires TreeOk(m1, roles1)
    requires LinkAdded(m0, roles, m1, roles1) && LinkAdded(m1, roles1, m2, roles2)
    ensures LinkAdded(m0, roles, m2, roles2)
  {
    SameWalksChain(roles, roles1, m0, m1, m2);
  }

  ghost predicate TopPresent(mem: Memory, k: nat, i: nat) {
    IsTable(mem, k) && i < ENTRIES && Next(mem, k, i).Some?
  }

  /** One of the three ensure_next_table calls before the root is cloned. */
  method Pretouch(vm: Vm, i: nat) returns (ok: bool)
    requires vm.Valid() && SHARED_TOP <= i < ENTRIES
    modifies vm`mem, vm`pool, vm`roles
    ensures vm.Valid() && LinkAdded(old(vm.mem), old(vm.roles), vm.mem, vm.roles)
    ensures AddedFor(old(vm.roles), vm.roles, 0)
    ensures ok ==> TopPresent(vm.mem, vm.kernelRoot, i)
    ensures forall j: nat :: TopPresent(old(vm.mem), vm.kernelRoot, j) ==> TopPresent(vm.mem, vm.kernelRoot, j)
    ensures FreeCount(vm.pool) + 1 >= FreeCount(old(vm.pool))
    ensures (!ok ==> FreeCount(vm.pool) == FreeCount(old(vm.pool)) == 0)
  {
    RoleNotPage(vm.mem, vm.pool, vm.roles, vm.kernelRoot);
    assert LinkOk(vm.mem, vm.roles, vm.kernelRoot, i);
    var next := vm.EnsureNextTable(vm.kernelRoot, i);
    return next.Some?;
  }

  lemma AllTopsPresent(mem: Memory, k: nat, pid: nat)
    requires pid < PID_LIMIT && TopPresent(mem, k, PathOf(HeapBase(pid))[0])
    requires TopPresent(mem, k, PathOf(MmapBase(pid))[0])
    requires TopPresent(mem, k, PathOf(StackBase(pid))[0])
    ensures TopsPresent(mem, k, pid)
  {
    forall i: nat | i < ENTRIES && WindowTop(pid, i) ensures i != 0 && Present(mem[k][i]) {
      WindowTops(pid, i);
    }
  }

  method PretouchWindows(vm: Vm, pid: nat) returns (ok: bool)
    requires vm.Valid() && pid < PID_LIMIT
    modifies vm`mem, vm`pool, vm`roles
    ensures vm.Valid() && LinkAdded(old(vm.mem), old(vm.roles), vm.mem, vm.roles)
    ensures AddedFor(old(vm.roles), vm.roles, 0)
    ensures ok ==> TopsPresent(vm.mem, vm.kernelRoot, pid)
    ensures FreeCount(vm.pool) + 3 >= FreeCount(old(vm.pool)) && (!ok ==> FreeCount(vm.pool) == 0)
  {
    ghost var mem0, roles0 := vm.mem, vm.roles;
    var heap, mmap, stack := PathOf(HeapBase(pid))[0], PathOf(MmapBase(pid))[0], PathOf(StackBase(pid))[0];
    WindowTops(pid, heap);
    WindowTops(pid, mmap);
    WindowTops(pid, stack);
    ok := Pretouch(vm, heap);
    if !ok {
      return;
    }
    ghost var mem1, roles1 := vm.mem, vm.roles;
    ok := Pretouch(vm, mmap);
    LinkAddedChain(mem0, roles0, mem1, roles1, vm.mem, vm.roles);
    if !ok {
      return;
    }
    ghost var mem2, roles2 := vm.mem, vm.roles;
    ok := Pretouch(vm, stack);
    LinkAddedChain(mem0, roles0, mem2, roles2, vm.mem, vm.roles);
    if ok {
      AllTopsPresent(vm.mem, vm.kernelRoot, pid);
    }
  }

  /** Pages outside the known ones were written. */
  lemma Untouched(mem: Memory, roles: Roles, mem': Memory)
    requires TreeOk(mem, roles)
    requires forall p :: p in roles && p in mem ==> p in mem' && mem'[p] == mem[p]
    ensures SameWalks(roles, mem, mem') && PagesKept(roles, mem, mem')
  {
    forall table: nat, path: Path | Starts(roles, table, path)
      ensures Walk(mem', table, path) == Walk(mem, table, path)
    {
      UnknownPageFrame(mem, mem', roles, table, path);
    }
  }

  /** The writes that zero the image window of a copied page directory. */
  method ClearImage(vm: Vm, pd: nat)
    requires vm.Valid() && IsRole(vm.roles, pd, Loose) && IsTable(vm.mem, pd)
    modifies vm`mem
    ensures vm.Valid() && vm.mem == old(vm.mem)[pd := ClearedRow(old(vm.mem)[pd])]
  {
    ghost var mem0 := vm.mem;
    for i := IMAGE_START to IMAGE_END
      invariant vm.Valid() && IsTable(vm.mem, pd) && vm.mem == mem0[pd := vm.mem[pd]]
      invariant forall j :: 0 <= j < ENTRIES ==> vm.mem[pd][j] == if IMAGE_START <= j < i then 0 else mem0[pd][j]
    {
      vm.FillPage(pd, vm.mem[pd][i := 0]);
    }
    assert vm.mem[pd] == ClearedRow(mem0[pd]);
  }

  /** A fresh page holding a copy of another. */
  method CopyTable(vm: Vm, from: nat) returns (r: Option<nat>)
    requires vm.Valid() && from in vm.roles && IsTable(vm.mem, from)
    modifies vm`mem, vm`pool, vm`roles
    ensures vm.Valid()
    ensures r.None? ==>
      vm.mem == old(vm.mem) && vm.pool == old(vm.pool) && vm.roles == old(vm.roles) && FreeCount(vm.pool) == 0
    ensures r.Some? ==>
      r.value !in old(vm.roles) && IsPage(r.value) && FreeCount(vm.pool) + 1 == FreeCount(old(vm.pool))
    ensures r.Some? ==> vm.roles == old(vm.roles)[r.value := Loose]
    ensures r.Some? ==> vm.mem == old(vm.mem)[r.value := old(vm.mem)[from]]
  {
    r := vm.AllocZeroedPage();
    if r.Some? {
      vm.FillPage(r.value, vm.mem[from]);
    }
  }

  /** What a new process root translates. */
  ghost predicate SeesAllButImage(mem: Memory, k: nat, root: nat) {
    forall path: Path :: |path| == 4 ==> Walk(mem, root, path) == if InImage(path) then Unmapped else Walk(mem, k, path)
  }

  ghost predicate Unowned(roles: Roles, pid: nat) {
    pid != 0 && forall q :: q in roles && !roles[q].Loose? ==> roles[q].owner != pid
  }

  lemma CloneAdoptable(mem0: Memory, roles0: Roles, mem: Memory, pool: Pool, k: nat, sp: nat, sd: nat, pid: nat,
                       a: nat, b: nat, c: nat)
    requires TreeOk(mem0, roles0) && InUse(pool, roles0[a := Loose][b := Loose][c := Loose])
    requires Unowned(roles0, pid) && a !in roles0 && b !in roles0 && c !in roles0 && a != b && a != c && b != c
    requires IsRole(roles0, k, Table(0, [])) && TopsPresent(mem0, k, pid) && Leads(mem0, k, 0, sp)
    requires Leads(mem0, sp, 0, sd)
    requires IsTable(mem, a) && IsTable(mem, b) && IsTable(mem, c)
    requires mem == mem0[a := mem[a]][b := mem[b]][c := mem[c]]
    requires mem[a] == mem0[k][0 := MakeEntry(b, PRESENT + WRITABLE)]
    requires mem[b] == mem0[sp][0 := MakeEntry(c, PRESENT + WRITABLE)] && mem[c] == ClearedRow(mem0[sd])
    ensures CanAdopt(mem, roles0[a := Loose][b := Loose][c := Loose], k, sp, sd, pid, a, b, c)
    ensures TopsPresent(mem, k, pid)
    ensures k in roles0
    ensures Adopted(roles0[a := Loose][b := Loose][c := Loose], pid, a, b, c) == Adopted(roles0, pid, a, b, c)
  {
    LowTables(mem0, roles0, k, sp, sd);
    hide TreeOk, ClearedRow, TopsPresent;
    assert mem[k] == mem0[k] && mem[sp] == mem0[sp] && mem[sd] == mem0[sd];
    assert IsPage(a) && IsPage(b) && IsPage(c);
    SameTops(mem0, mem, k, pid);
  }

  lemma SameTops(mem0: Memory, mem: Memory, k: nat, pid: nat)
    requires TopsPresent(mem0, k, pid) && IsTable(mem, k) && mem[k] == mem0[k]
    ensures TopsPresent(mem, k, pid)
  {
  }

  lemma CloneDone(mem0: Memory, roles0: Roles, mem: Memory, pool: Pool, k: nat, sp: nat, sd: nat, pid: nat, a: nat,
                  b: nat, c: nat)
    requires TreeOk(mem0, roles0) && Owned(mem, pool, roles0[a := Loose][b := Loose][c := Loose])
    requires Unowned(roles0, pid) && a !in roles0 && b !in roles0 && c !in roles0 && a != b && a != c && b != c
    requires IsRole(roles0, k, Table(0, [])) && TopsPresent(mem0, k, pid) && Leads(mem0, k, 0, sp)
    requires Leads(mem0, sp, 0, sd)
    requires IsTable(mem, a) && IsTable(mem, b) && IsTable(mem, c)
    requires mem == mem0[a := mem[a]][b := mem[b]][c := mem[c]]
    requires mem[a] == mem0[k][0 := MakeEntry(b, PRESENT + WRITABLE)]
    requires mem[b] == mem0[sp][0 := MakeEntry(c, PRESENT + WRITABLE)] && mem[c] == ClearedRow(mem0[sd])
    ensures Owned(mem, pool, Adopted(roles0, pid, a, b, c))
    ensures SameWalks(roles0, mem0, mem) && SeesAllButImage(mem, k, a)
  {
    hide Owned, TreeOk, SameWalks, TopsPresent, Unowned, ClearedRow, Leads;
    var roles := roles0[a := Loose][b := Loose][c := Loose];
    OwnedParts(mem, pool, roles);
    CloneAdoptable(mem0, roles0, mem, pool, k, sp, sd, pid, a, b, c);
    Untouched(mem0, roles0, mem);
    AdoptOwned(mem, pool, roles, k, sp, sd, pid, a, b, c);
    forall path: Path | |path| == 4
      ensures Walk(mem, a, path) == if InImage(path) then Unmapped else Walk(mem, k, path)
    {
      CloneTranslates(mem, k, sp, sd, a, b, c, path);
    }
  }

  /** The table an entry of a known upper table leads to is known. */
  lemma LeadsOn(mem: Memory, roles: Roles, table: nat, next: nat)
    requires TreeOk(mem, roles) && table in roles && roles[table].Table? && |roles[table].place| < 2
    requires IsTable(mem, table) && Next(mem, table, 0) == Some(next)
    ensures Leads(mem, table, 0, next) && next in roles && roles[next].Table?
    ensures |roles[next].place| == |roles[table].place| + 1
  {
    assert TableOk(mem, roles, table) && LinkOk(mem, roles, table, 0);
    assert TableOk(mem, roles, next);
  }

  /** A dropped copy is given back, or kept for good when the stack is full. */
  lemma Dropped(roles0: Roles, a: nat, b: nat, pool: Pool, given: bool, stack: nat)
    requires a !in roles0 && b !in roles0 && a != b && |pool.stack| == (if given then stack + 1 else stack)
    requires given || stack >= STACK_MAX
    ensures var roles := roles0[a := Loose][b := Loose];
      NoneLost(pool, roles0[a := Loose], if given then roles - {b} else roles)
  {
  }

  lemma LowTables(mem: Memory, roles: Roles, k: nat, sp: nat, sd: nat)
    requires TreeOk(mem, roles) && IsRole(roles, k, Table(0, [])) && Leads(mem, k, 0, sp) && Leads(mem, sp, 0, sd)
    ensures k in roles && sp in roles && sd in roles
  {
    assert TableOk(mem, roles, k) && LinkOk(mem, roles, k, 0);
    assert TableOk(mem, roles, sp) && LinkOk(mem, roles, sp, 0);
  }

  /** The image window of the last copy is cleared and the three copies are linked. */
  method LinkClones(vm: Vm, pid: nat, sp: nat, sd: nat, a: nat, b: nat, c: nat, ghost mem0: Memory, ghost roles0: Roles)
    requires vm.Valid() && vm.roles == roles0[a := Loose][b := Loose][c := Loose] && TreeOk(mem0, roles0)
    requires Unowned(roles0, pid) && a !in roles0 && b !in roles0 && c !in roles0 && a != b && a != c && b != c
    requires IsRole(roles0, vm.kernelRoot, Table(0, [])) && TopsPresent(mem0, vm.kernelRoot, pid)
    requires Leads(mem0, vm.kernelRoot, 0, sp) && Leads(mem0, sp, 0, sd)
    requires vm.mem == mem0[a := mem0[vm.kernelRoot]][b := mem0[sp]][c := mem0[sd]]
    modifies vm`mem, vm`roles
    ensures vm.Valid() && vm.roles == Adopted(roles0, pid, a, b, c)
    ensures SameWalks(roles0, mem0, vm.mem) && SeesAllButImage(vm.mem, vm.kernelRoot, a)
  {
    hide Owned, TreeOk, SameWalks, SeesAllButImage, TopsPresent, Unowned;
    ClearImage(vm, c);
    vm.FillPage(b, vm.mem[b][0 := MakeEntry(c, PRESENT + WRITABLE)]);
    vm.FillPage(a, vm.mem[a][0 := MakeEntry(b, PRESENT + WRITABLE)]);
    CloneDone(mem0, roles0, vm.mem, vm.pool, vm.kernelRoot, sp, sd, pid, a, b, c);
    AccountedSame(vm.pages, vm.pool, vm.roles, Adopted(roles0, pid, a, b, c));
    vm.roles := Adopted(roles0, pid, a, b, c);
  }

  /** Known pages were not written. */
  ghost predicate RowsKept(roles: Roles, mem: Memory, mem': Memory) {
    forall p :: p in roles && p in mem ==> p in mem' && mem'[p] == mem[p]
  }

  /** The private page directory, the last of the three copies. */
  method ClonePd(vm: Vm, pid: nat, sp: nat, sd: nat, a: nat, b: nat, ghost mem0: Memory, ghost roles0: Roles)
    returns (ok: bool, ghost c: nat)
    requires vm.Valid() && vm.roles == roles0[a := Loose][b := Loose] && TreeOk(mem0, roles0)
    requires Unowned(roles0, pid) && a !in roles0 && b !in roles0 && a != b
    requires IsRole(roles0, vm.kernelRoot, Table(0, [])) && TopsPresent(mem0, vm.kernelRoot, pid)
    requires Leads(mem0, vm.kernelRoot, 0, sp) && Leads(mem0, sp, 0, sd)
    requires vm.mem == mem0[a := mem0[vm.kernelRoot]][b := mem0[sp]]
    modifies vm`mem, vm`pool, vm`roles
    ensures vm.Valid()
    ensures ok ==> c !in roles0 && a != c && b != c && vm.roles == Adopted(roles0, pid, a, b, c)
    ensures ok ==> SameWalks(roles0, mem0, vm.mem) && SeesAllButImage(vm.mem, vm.kernelRoot, a)
    ensures !ok ==>
      vm.mem == old(vm.mem) && vm.pool == old(vm.pool) && vm.roles == old(vm.roles) && FreeCount(vm.pool) == 0
    ensures ok ==> FreeCount(vm.pool) + 1 == FreeCount(old(vm.pool))
  {
    LowTables(mem0, roles0, vm.kernelRoot, sp, sd);
    c := 0;
    var pd := CopyTable(vm, sd);
    if pd.None? {
      return false, c;
    }
    c := pd.value;
    LinkClones(vm, pid, sp, sd, a, b, pd.value, mem0, roles0);
    return true, c;
  }

  lemma RowsAdded(roles: Roles, mem: Memory, a: nat, ra: seq<nat>, b: nat, rb: seq<nat>)
    requires a !in roles && b !in roles
    ensures RowsKept(roles, mem, mem[a := ra]) && RowsKept(roles, mem, mem[a := ra][b := rb])
  {
  }

  /** The private page-directory-pointer table. */
  method ClonePdpt(vm: Vm, pid: nat, sp: nat, a: nat, ghost mem0: Memory, ghost roles0: Roles)
    returns (ok: bool, ghost b: nat, ghost c: nat)
    requires vm.Valid() && vm.roles == roles0[a := Loose] && TreeOk(mem0, roles0)
    requires Unowned(roles0, pid) && a !in roles0
    requires IsRole(roles0, vm.kernelRoot, Table(0, [])) && TopsPresent(mem0, vm.kernelRoot, pid)
    requires Leads(mem0, vm.kernelRoot, 0, sp) && vm.mem == mem0[a := mem0[vm.kernelRoot]]
    modifies vm`mem, vm`pool, vm`roles
    ensures vm.Valid()
    ensures ok ==>
      b !in roles0 && c !in roles0 && a != b && a != c && b != c && vm.roles == Adopted(roles0, pid, a, b, c)
    ensures ok ==> SameWalks(roles0, mem0, vm.mem) && SeesAllButImage(vm.mem, vm.kernelRoot, a)
    ensures !ok ==> IsRole(vm.roles, a, Loose) && RowsKept(roles0, mem0, vm.mem)
    ensures !ok ==> NoneLost(vm.pool, old(vm.roles), vm.roles)
    ensures if ok then FreeCount(vm.pool) + 2 == FreeCount(old(vm.pool))
            else FreeCount(old(vm.pool)) < 2 || Next(mem0, sp, 0).None?
  {
    hide Owned, TreeOk, SameWalks, SeesAllButImage, TopsPresent, Unowned, RowsKept;
    b, c := 0, 0;
    LeadsOn(mem0, roles0, vm.kernelRoot, sp);
    var pdpt := CopyTable(vm, sp);
    if pdpt.None? {
      RowsAdded(roles0, mem0, a, mem0[vm.kernelRoot], a, mem0[vm.kernelRoot]);
      return false, b, c;
    }
    b := pdpt.value;
    var sharedPd := Next(vm.mem, pdpt.value, 0);
    if sharedPd.Some? {
      LeadsOn(mem0, roles0, sp, sharedPd.value);
      ok, c := ClonePd(vm, pid, sp, sharedPd.value, a, pdpt.value, mem0, roles0);
      if ok {
        return;
      }
    }
    RowsAdded(roles0, mem0, a, mem0[vm.kernelRoot], pdpt.value, mem0[sp]);
    ghost var stack := |vm.pool.stack|;
    var given := vm.FreePhysPage(pdpt.value);
    Dropped(roles0, a, pdpt.value, vm.pool, given, stack);
    return false, b, c;
  }

  /** The failed copies of a root are all given back, but for a full stack. */
  lemma AllDropped(roles0: Roles, a: nat, pool1: Pool, roles1: Roles, pool: Pool, given: bool)
    requires a !in roles0 && NoneLost(pool1, roles0[a := Loose], roles1) && IsRole(roles1, a, Loose)
    requires (pool, given) == Give(pool1, a) && IsPage(a)
    ensures NoneLost(pool, roles0, if given then roles1 - {a} else roles1)
  {
    var was := roles0[a := Loose];
    forall q | q in roles0 ensures q in roles1 && roles1[q] == roles0[q] {
      assert q in was;
    }
    forall q | q in roles1 && q !in roles0 && q != a
      ensures roles1[q].Table? || (roles1[q].Loose? && (q == 0 || |pool.stack| >= STACK_MAX))
    {
      assert q !in was;
    }
  }

  /** create_process_address_space after the pretouch. */
  method CloneRoot(vm: Vm, pid: nat) returns (r: Option<nat>, ghost b: nat, ghost c: nat)
    requires vm.Valid() && Unowned(vm.roles, pid) && TopsPresent(vm.mem, vm.kernelRoot, pid)
    modifies vm`mem, vm`pool, vm`roles
    ensures vm.Valid() && SameWalks(old(vm.roles), old(vm.mem), vm.mem)
    ensures r.Some? ==> r.value !in old(vm.roles) && b !in old(vm.roles) && c !in old(vm.roles)
    ensures r.Some? ==> vm.roles == Adopted(old(vm.roles), pid, r.value, b, c) && r.value != b && r.value != c && b != c
    ensures r.Some? ==> SeesAllButImage(vm.mem, vm.kernelRoot, r.value)
    ensures r.None? ==> NoneLost(vm.pool, old(vm.roles), vm.roles)
    ensures if r.Some? then FreeCount(vm.pool) + 3 == FreeCount(old(vm.pool))
            else FreeCount(old(vm.pool)) < 3 || !LowTablesPresent(old(vm.mem), vm.kernelRoot)
  {
    hide Owned, TreeOk, SameWalks, SeesAllButImage, TopsPresent, Unowned;
    b, c := 0, 0;
    ghost var mem0, roles0 := vm.mem, vm.roles;
    OwnedParts(vm.mem, vm.pool, vm.roles);
    RoleNotPage(vm.mem, vm.pool, vm.roles, vm.kernelRoot);
    Untouched(mem0, roles0, mem0);
    var pml4 := CopyTable(vm, vm.kernelRoot);
    if pml4.None? {
      return None, b, c;
    }
    var sharedPdpt := Next(vm.mem, pml4.value, 0);
    if sharedPdpt.Some? {
      LeadsOn(mem0, roles0, vm.kernelRoot, sharedPdpt.value);
      var ok;
      ok, b, c := ClonePdpt(vm, pid, sharedPdpt.value, pml4.value, mem0, roles0);
      if ok {
        return pml4, b, c;
      }
    }
    Untouched(mem0, roles0, vm.mem);
    ghost var pool1, roles1 := vm.pool, vm.roles;
    var given := vm.FreePhysPage(pml4.value);
    AllDropped(roles0, pml4.value, pool1, roles1, vm.pool, given);
    return None, b, c;
  }

  /** The kernel root has tables for its first gigabyte. */
  ghost predicate LowTablesPresent(mem: Memory, k: nat) {
    && IsTable(mem, k) && Next(mem, k, 0).Some?
    && var sp := Next(mem, k, 0).value;
       IsTable(mem, sp) && Next(mem, sp, 0).Some?
  }

  /** Links that were there lead to the same low tables. */
  lemma LowTablesKept(mem: Memory, roles: Roles, mem': Memory, k: nat)
    requires TreeOk(mem, roles) && IsRole(roles, k, Table(0, [])) && LinksKept(roles, mem, mem')
    requires LowTablesPresent(mem, k)
    ensures LowTablesPresent(mem', k)
  {
    LeadsOn(mem, roles, k, Next(mem, k, 0).value);
  }

  lemma StillUnowned(roles0: Roles, roles: Roles, pid: nat)
    requires Unowned(roles0, pid) && RolesKept(roles0, roles) && AddedFor(roles0, roles, 0)
    ensures Unowned(roles, pid)
  {
  }

  /** What creating an address space did. */
  ghost predicate SpaceCreated(mem0: Memory, roles0: Roles, mem: Memory, roles: Roles, k: nat, pid: nat, root: nat) {
    && root !in roles0 && IsRole(roles, root, Table(pid, []))
    && SeesAllButImage(mem, k, root)
    && SameWalks(roles0, mem0, mem)
    && RolesKept(roles0, roles) && forall q :: q in roles && q !in roles0 && q != root ==> IsInner(roles[q])
  }

  lemma Created(mem0: Memory, roles0: Roles, mem1: Memory, roles1: Roles, mem: Memory, k: nat, pid: nat,
                a: nat, b: nat, c: nat)
    requires LinkAdded(mem0, roles0, mem1, roles1) && SameWalks(roles1, mem1, mem)
    requires a !in roles1 && b !in roles1 && c !in roles1 && a != b && a != c && SeesAllButImage(mem, k, a)
    ensures SpaceCreated(mem0, roles0, mem, Adopted(roles1, pid, a, b, c), k, pid, a)
  {
    SameWalksChain(roles0, roles1, mem0, mem1, mem);
  }

  lemma NotCreated(mem0: Memory, roles0: Roles, mem1: Memory, roles1: Roles, mem: Memory, pool: Pool, roles: Roles)
    requires LinkAdded(mem0, roles0, mem1, roles1) && SameWalks(roles1, mem1, mem)
    requires NoneLost(pool, roles1, roles)
    ensures SameWalks(roles0, mem0, mem) && NoneLost(pool, roles0, roles)
  {
    SameWalksChain(roles0, roles1, mem0, mem1, mem);
  }

  /** create_process_address_space: it fails only for lack of pages or of low kernel tables. */
  method CreateProcessAddressSpace(vm: Vm, pid: nat) returns (r: Option<nat>)
    requires vm.Valid() && Unowned(vm.roles, pid) && pid < PID_LIMIT
    modifies vm`mem, vm`pool, vm`roles
    ensures vm.Valid()
    ensures r.Some? ==> SpaceCreated(old(vm.mem), old(vm.roles), vm.mem, vm.roles, vm.kernelRoot, pid, r.value)
    ensures r.None? ==> SameWalks(old(vm.roles), old(vm.mem), vm.mem)
    ensures r.None? ==> NoneLost(vm.pool, old(vm.roles), vm.roles)
    ensures if r.Some? then FreeCount(vm.pool) + 6 >= FreeCount(old(vm.pool))
            else FreeCount(old(vm.pool)) < 6 || !LowTablesPresent(old(vm.mem), vm.kernelRoot)
  {
    ghost var mem0, roles0 := vm.mem, vm.roles;
    var ok := PretouchWindows(vm, pid);
    if !ok {
      return None;
    }
    ghost var mem1, roles1 := vm.mem, vm.roles;
    StillUnowned(roles0, roles1, pid);
    if LowTablesPresent(mem0, vm.kernelRoot) {
      LowTablesKept(mem0, roles0, mem1, vm.kernelRoot);
    }
    ghost var b, c;
    r, b, c := CloneRoot(vm, pid);
    if r.Some? {
      Created(mem0, roles0, mem1, roles1, vm.mem, vm.kernelRoot, pid, r.value, b, c);
    } else {
      NotCreated(mem0, roles0, mem1, roles1, vm.mem, vm.pool, vm.roles);
    }
  }
}
