/** Loading a program image: pages of a process's own window, invisible to everyone else. */
module ImagePages {
  import opened PageTables
  import opened PhysPages
  import opened PageOwners
  import opened Mappings
  import opened AddressSpaces
  import opened ProcessSpaces

  /** Translations changed only for walks of the root's owner, and only from nothing to a page. */
  ghost predicate GrownPrivately(roles: Roles, mem: Memory, mem': Memory, owner: nat) {
    forall table: nat, q: Path :: Starts(roles, table, q) && Walk(mem', table, q) != Walk(mem, table, q) ==>
      roles[table].owner == owner && Walk(mem, table, q) == Unmapped && Walk(mem', table, q).Frame?
  }

  /** New pages are the owner's tables and image pages, or kept because the stack is full. */
  ghost predicate OwnPagesAdded(roles: Roles, roles': Roles, owner: nat) {
    && RolesKept(roles, roles')
    && forall q :: q in roles' && q !in roles ==>
         IsInner(roles'[q]) || roles'[q].Loose? || (roles'[q].Data? && roles'[q].owner == owner)
  }

  /** Who shares a private entry is of the same process. */
  lemma SharerIsOwn(mem: Memory, roles: Roles, root: nat, path: Path, table: nat, q: Path)
    requires TreeOk(mem, roles) && IsProcessRoot(roles, root) && MayTouch(roles, root, path)
    requires Starts(roles, table, q) && Shares(mem, root, path, table, q)
    ensures roles[table].owner == roles[root].owner
  {
    assert Front(path) == path[..3];
    OwnTable(mem, roles, root, path, 3);
    ReachedRole(mem, roles, table, Front(q));
  }

  lemma FreshIsPrivate(mem: Memory, roles: Roles, mem': Memory, roles': Roles, root: nat, path: Path, phys: nat)
    requires TreeOk(mem', roles') && IsProcessRoot(roles, root) && MayTouch(roles, root, path)
    requires FreshMapped(mem, roles, mem', roles', root, path, phys)
    ensures GrownPrivately(roles, mem, mem', roles[root].owner)
  {
    forall table: nat, q: Path | Starts(roles, table, q) && Walk(mem', table, q) != Walk(mem, table, q)
      ensures roles[table].owner == roles[root].owner && Walk(mem, table, q) == Unmapped && Walk(mem', table, q).Frame?
    {
      SharerIsOwn(mem', roles', root, path, table, q);
    }
  }

  lemma QuietIsPrivate(mem: Memory, roles: Roles, mem': Memory, owner: nat)
    requires SameWalks(roles, mem, mem')
    ensures GrownPrivately(roles, mem, mem', owner)
  {
  }

  lemma PrivateChain(roles: Roles, m0: Memory, m1: Memory, roles1: Roles, m2: Memory, owner: nat)
    requires GrownPrivately(roles, m0, m1, owner) && GrownPrivately(roles1, m1, m2, owner)
    requires RolesKept(roles, roles1)
    ensures GrownPrivately(roles, m0, m2, owner)
  {
    forall table: nat, q: Path | Starts(roles, table, q) && Walk(m2, table, q) != Walk(m0, table, q)
      ensures roles[table].owner == owner && Walk(m0, table, q) == Unmapped && Walk(m2, table, q).Frame?
    {
      assert Starts(roles1, table, q);
    }
  }

  /** Translations at the root only grow. */
  lemma FramesStay(roles: Roles, mem: Memory, mem': Memory, root: nat, owner: nat, path: Path)
    requires GrownPrivately(roles, mem, mem', owner) && IsProcessRoot(roles, root) && |path| == 4
    requires Walk(mem, root, path).Frame?
    ensures Walk(mem', root, path) == Walk(mem, root, path)
  {
    assert Starts(roles, root, path);
  }

  ghost predicate AllMapped(mem: Memory, root: nat, base: nat, n: nat) {
    forall i: nat :: i < n ==> Walk(mem, root, PageAt(base, i)).Frame?
  }

  /** One round of map_image_pages. */
  method MapImagePage(vm: Vm, root: nat, base: nat, index: nat) returns (ok: bool)
    requires vm.Valid() && IsProcessRoot(vm.roles, root) && MayTouch(vm.roles, root, PageAt(base, index))
    requires base % PAGE_SIZE == 0
    modifies vm`mem, vm`pool, vm`roles
    ensures vm.Valid() && OwnPagesAdded(old(vm.roles), vm.roles, old(vm.roles)[root].owner)
    ensures GrownPrivately(old(vm.roles), old(vm.mem), vm.mem, old(vm.roles)[root].owner)
    ensures ok ==> Walk(vm.mem, root, PageAt(base, index)).Frame? && FreeCount(vm.pool) + 4 >= FreeCount(old(vm.pool))
    ensures !ok ==> FreeCount(old(vm.pool)) < 4
  {
    ghost var mem0, roles0, path := vm.mem, vm.roles, PageAt(base, index);
    PageAligned(base, index);
    var virt := base + index * PAGE_SIZE;
    assert Starts(roles0, root, path);
    QuietIsPrivate(mem0, roles0, mem0, roles0[root].owner);
    var mapped := vm.PageMapped(root, virt);
    if mapped {
      return true;
    }
    assert [] + path == path;
    NeverLarge(mem0, roles0, root, path);
    ghost var page;
    ok, page := vm.MapFreshPage(root, base, index);
    if ok {
      FreshIsPrivate(mem0, roles0, vm.mem, vm.roles, root, path, page);
    } else {
      QuietIsPrivate(mem0, roles0, vm.mem, roles0[root].owner);
    }
  }

  /** map_image_pages: no other process and no kernel address notices, also when it fails halfway. */
  method MapImagePages(vm: Vm, root: nat, base: nat, pageCount: nat) returns (ok: bool)
    requires vm.Valid() && IsProcessRoot(vm.roles, root) && MayTouchRun(vm.roles, root, base, pageCount)
    modifies vm`mem, vm`pool, vm`roles
    ensures vm.Valid() && OwnPagesAdded(old(vm.roles), vm.roles, old(vm.roles)[root].owner)
    ensures GrownPrivately(old(vm.roles), old(vm.mem), vm.mem, old(vm.roles)[root].owner)
    ensures ok ==> AllMapped(vm.mem, root, base, pageCount)
    ensures if ok then FreeCount(vm.pool) + 4 * pageCount >= FreeCount(old(vm.pool))
            else FreeCount(old(vm.pool)) < 4 * pageCount
  {
    hide Owned, GrownPrivately;
    ghost var mem0, roles0, owner := vm.mem, vm.roles, vm.roles[root].owner;
    QuietIsPrivate(mem0, roles0, mem0, owner);
    for index := 0 to pageCount
      invariant vm.Valid() && OwnPagesAdded(roles0, vm.roles, owner)
      invariant GrownPrivately(roles0, mem0, vm.mem, owner)
      invariant AllMapped(vm.mem, root, base, index)
      invariant FreeCount(vm.pool) + 4 * index >= FreeCount(old(vm.pool))
    {
      ghost var mem1, roles1 := vm.mem, vm.roles;
      ok := MapImagePage(vm, root, base, index);
      PrivateChain(roles0, mem0, mem1, roles1, vm.mem, owner);
      if !ok {
        return;
      }
      forall i: nat | i < index + 1 ensures Walk(vm.mem, root, PageAt(base, i)).Frame? {
        if i < index {
          FramesStay(roles1, mem1, vm.mem, root, owner, PageAt(base, i));
        }
      }
    }
    return true;
  }
}
