/** Who owns each physical page, and how the elementary steps on tables keep that exact. */
module PageOwners {
  import opened Common
  import opened PageTables
  import opened PhysPages

  /** Places the kernel itself builds: roots, private tables, and the shared upper half. */
  predicate Managed(owner: nat, place: Path) {
    owner != 0 || place == [] || place[0] >= SHARED_TOP
  }

  function Front(place: Path): Path
    requires place != []
  {
    place[..|place| - 1]
  }

  function Below(place: Path, i: nat): Path
    requires |place| < 4 && i < ENTRIES
  {
    place + [i]
  }

  predicate IsRole(roles: Roles, page: nat, role: Role) {
    page in roles && roles[page] == role
  }

  /** Pages in use are real pages and not free. */
  ghost predicate InUse(pool: Pool, roles: Roles) {
    PoolInv(pool) && forall x :: x in roles ==> IsPage(x) && !IsFree(pool, x)
  }

  /** A managed bottom-level entry that is present maps the data page of exactly that owner and place; bit 7
      of such an entry is never set. */
  ghost predicate LeafOk(mem: Memory, roles: Roles, pt: nat, i: nat)
    requires pt in roles && roles[pt].Table? && |roles[pt].place| == 3 && IsTable(mem, pt) && i < ENTRIES
  {
    Present(mem[pt][i]) ==>
      !Huge(mem[pt][i]) && IsRole(roles, Addr(mem[pt][i]), Data(roles[pt].owner, Below(roles[pt].place, i)))
  }

  ghost predicate LeavesOkAt(mem: Memory, roles: Roles, pt: nat)
    requires pt in roles
  {
    roles[pt].Table? && |roles[pt].place| == 3 && Managed(roles[pt].owner, roles[pt].place) && IsTable(mem, pt)
    ==> forall i :: 0 <= i < ENTRIES ==> LeafOk(mem, roles, pt, i)
  }

  ghost predicate LeavesOk(mem: Memory, roles: Roles) {
    forall pt :: pt in roles ==> LeavesOkAt(mem, roles, pt)
  }

  /** `p` is the table that links to page `q` at the place of `q`. */
  ghost predicate IsParent(mem: Memory, roles: Roles, p: nat, q: nat)
    requires q in roles && !roles[q].Loose? && roles[q].place != []
  {
    var place := roles[q].place;
    && IsRole(roles, p, Table(roles[q].owner, Front(place)))
    && IsTable(mem, p)
    && var e := mem[p][place[|place| - 1]];
       Present(e) && Addr(e) == q && (roles[q].Table? ==> !Huge(e))
  }

  ghost predicate AnchorOk(mem: Memory, roles: Roles, q: nat)
    requires q in roles
  {
    !roles[q].Loose? && roles[q].place != [] && Managed(roles[q].owner, roles[q].place)
    ==> exists p :: IsParent(mem, roles, p, q)
  }

  /** Every managed page below a root is linked from its own parent. */
  ghost predicate Anchored(mem: Memory, roles: Roles) {
    forall q :: q in roles ==> AnchorOk(mem, roles, q)
  }

  ghost predicate UniquePlaces(roles: Roles) {
    forall p, q | p in roles && q in roles && roles[p].Table? && Managed(roles[p].owner, roles[p].place) ::
      roles[p] == roles[q] ==> p == q
  }

  /** Private pages serve the image window; data pages are managed and have full places. */
  ghost predicate PlacesOk(roles: Roles) {
    forall q :: q in roles && !roles[q].Loose? ==>
      && (roles[q].owner != 0 && roles[q].place != [] ==>
            OnImagePath(if |roles[q].place| == 4 then Front(roles[q].place) else roles[q].place))
      && (roles[q].Data? ==> |roles[q].place| == 4 && Managed(roles[q].owner, roles[q].place))
  }

  const USER_HEAP_BASE := 0xFFFF_9000_0000_0000
  const USER_HEAP_STRIDE := 0x1000_0000
  const USER_MMAP_BASE := 0xFFFF_A000_0000_0000
  const USER_MMAP_STRIDE := 0x4000_0000
  const KERNEL_STACK_BASE := 0xFFFF_B000_0000_0000
  const KERNEL_STACK_STRIDE := 0x20_0000

  function HeapBase(pid: nat): nat { USER_HEAP_BASE + pid * USER_HEAP_STRIDE }

  function MmapBase(pid: nat): nat { USER_MMAP_BASE + pid * USER_MMAP_STRIDE }

  function StackBase(pid: nat): nat { KERNEL_STACK_BASE + pid * KERNEL_STACK_STRIDE }

  /** A top-level entry through which the heap, mmap or stack window of a process is reached. */
  predicate WindowTop(pid: nat, i: nat) {
    i == PathOf(HeapBase(pid))[0] || i == PathOf(MmapBase(pid))[0] || i == PathOf(StackBase(pid))[0]
  }

  ghost predicate IsProcessRoot(roles: Roles, root: nat) {
    root in roles && roles[root].Table? && roles[root].place == [] && roles[root].owner != 0
  }

  ghost predicate WindowOpen(mem: Memory, root: nat, pid: nat, i: nat) {
    i < ENTRIES && WindowTop(pid, i) && IsTable(mem, root) ==> Present(mem[root][i])
  }

  /** Every process root has the top-level entries of its own windows. */
  ghost predicate WindowsOpen(mem: Memory, roles: Roles) {
    forall root: nat, i: nat :: IsProcessRoot(roles, root) ==> WindowOpen(mem, root, roles[root].owner, i)
  }

  /** Entries of roots are never cleared. */
  ghost predicate RootsKept(mem: Memory, mem': Memory, roles': Roles) {
    forall root: nat, i: nat ::
        IsProcessRoot(roles', root) && IsTable(mem, root) && i < ENTRIES && Present(mem[root][i]) ==>
      IsTable(mem', root) && Present(mem'[root][i])
  }

  lemma StillOpen(mem: Memory, roles: Roles, mem': Memory, roles': Roles)
    requires TreeOk(mem, roles) && WindowsOpen(mem, roles) && RootsKept(mem, mem', roles')
    requires forall root :: IsProcessRoot(roles', root) ==> root in roles && roles[root] == roles'[root]
    ensures WindowsOpen(mem', roles')
  {
    forall root: nat, i: nat | IsProcessRoot(roles', root) ensures WindowOpen(mem', root, roles'[root].owner, i) {
      assert IsProcessRoot(roles, root) && TableOk(mem, roles, root);
      assert WindowOpen(mem, root, roles[root].owner, i);
    }
  }

  ghost predicate Owned(mem: Memory, pool: Pool, roles: Roles) {
    && InUse(pool, roles)
    && TreeOk(mem, roles)
    && LeavesOk(mem, roles)
    && Anchored(mem, roles)
    && UniquePlaces(roles)
    && PlacesOk(roles)
    && WindowsOpen(mem, roles)
  }

  /** The pages of the machine are those that can be handed out and those in use. A page that could not be returned
      because the stack was full stays in use as a loose page. */
  ghost predicate Accounted(pages: iset<nat>, pool: Pool, roles: Roles) {
    forall x: nat :: x in pages <==> IsFree(pool, x) || x in roles
  }

  /** Every page of the machine is exactly one of never handed out, on the free stack, or in one use. */
  lemma OneUse(pages: iset<nat>, mem: Memory, pool: Pool, roles: Roles, x: nat)
    requires Owned(mem, pool, roles) && Accounted(pages, pool, roles) && x in pages
    ensures InRanges(pool.ranges, x) || x in pool.stack || x in roles
    ensures !(InRanges(pool.ranges, x) && x in pool.stack) && !(InRanges(pool.ranges, x) && x in roles)
    ensures !(x in pool.stack && x in roles)
  {
    assert IsFree(pool, x) || x in roles;
  }

  lemma AccountedTake(pages: iset<nat>, pool: Pool, roles: Roles, pool': Pool, p: nat)
    requires PoolInv(pool) && Accounted(pages, pool, roles) && Take(pool) == (pool', Some(p))
    ensures Accounted(pages, pool', roles[p := Loose])
  {
    TakeExact(pool);
  }

  lemma AccountedGive(pages: iset<nat>, pool: Pool, roles: Roles, pool': Pool, p: nat)
    requires InUse(pool, roles) && Accounted(pages, pool, roles) && p in roles && Give(pool, p) == (pool', true)
    ensures Accounted(pages, pool', roles - {p})
  {
    GiveExact(pool, p);
  }

  lemma AccountedSame(pages: iset<nat>, pool: Pool, roles: Roles, roles': Roles)
    requires Accounted(pages, pool, roles) && roles'.Keys == roles.Keys
    ensures Accounted(pages, pool, roles')
  {
    assert forall x: nat :: x in roles' <==> x in roles'.Keys;
  }

  /** All walks that start in a known table read the same. */
  ghost predicate SameWalks(roles: Roles, mem: Memory, mem': Memory) {
    forall table: nat, path: Path :: Starts(roles, table, path) ==> Walk(mem', table, path) == Walk(mem, table, path)
  }

  // ---- Framing ----

  /** Every page known before keeps its role, and known tables keep their contents. */
  ghost predicate Extends(mem: Memory, roles: Roles, mem': Memory, roles': Roles) {
    forall q :: q in roles ==>
      && q in roles' && roles'[q] == roles[q]
      && (roles[q].Table? && q in mem ==> q in mem' && mem'[q] == mem[q])
  }

  lemma ExtendsPage(mem: Memory, roles: Roles, mem': Memory, roles': Roles, q: nat)
    requires Extends(mem, roles, mem', roles') && q in roles
    ensures roles[q].Table? && TableOk(mem, roles, q) ==> TableOk(mem', roles', q)
    ensures roles[q].Table? && TableOk(mem, roles, q) && LeavesOkAt(mem, roles, q) ==> LeavesOkAt(mem', roles', q)
  {
    if roles[q].Table? && TableOk(mem, roles, q) {
      forall i | |roles[q].place| < 3 && 0 <= i < ENTRIES ensures LinkOk(mem', roles', q, i) {
        assert LinkOk(mem, roles, q, i);
      }
      forall i | LeavesOkAt(mem, roles, q) && |roles[q].place| == 3 && Managed(roles[q].owner, roles[q].place)
          && 0 <= i < ENTRIES
        ensures LeafOk(mem', roles', q, i)
      {
        assert LeafOk(mem, roles, q, i);
      }
    }
  }

  lemma ExtendsAnchor(mem: Memory, roles: Roles, mem': Memory, roles': Roles, q: nat)
    requires Extends(mem, roles, mem', roles') && q in roles && AnchorOk(mem, roles, q)
    ensures AnchorOk(mem', roles', q)
  {
    if !roles[q].Loose? && roles[q].place != [] {
      if r :| IsParent(mem, roles, r, q) {
        assert IsParent(mem', roles', r, q);
      }
    }
  }

  // ---- A page is handed out ----

  /** A fresh page joins as a loose page. */
  lemma AllocOwned(mem: Memory, pool: Pool, roles: Roles, pool': Pool, p: nat)
    requires Owned(mem, pool, roles) && Take(pool) == (pool', Some(p))
    ensures p !in roles
    ensures Owned(mem[p := Zeroed()], pool', roles[p := Loose])
  {
    TakeExact(pool);
    var mem', roles' := mem[p := Zeroed()], roles[p := Loose];
    assert Extends(mem, roles, mem', roles');
    forall q | q in roles' && roles'[q].Table? ensures TableOk(mem', roles', q) && LeavesOkAt(mem', roles', q) {
      assert TableOk(mem, roles, q) && LeavesOkAt(mem, roles, q);
      ExtendsPage(mem, roles, mem', roles', q);
    }
    forall q | q in roles' ensures AnchorOk(mem', roles', q) {
      if q != p {
        ExtendsAnchor(mem, roles, mem', roles', q);
      }
    }
    StillOpen(mem, roles, mem', roles');
  }

  /** Contents of a page that is no table do not matter. */
  lemma LooseWriteOwned(mem: Memory, pool: Pool, roles: Roles, p: nat, row: seq<nat>)
    requires Owned(mem, pool, roles) && IsRole(roles, p, Loose)
    ensures Owned(mem[p := row], pool, roles)
    ensures SameWalks(roles, mem, mem[p := row])
  {
    var mem' := mem[p := row];
    assert Extends(mem, roles, mem', roles);
    forall q | q in roles ensures AnchorOk(mem', roles, q) && LeavesOkAt(mem', roles, q) {
      ExtendsAnchor(mem, roles, mem', roles, q);
      assert LeavesOkAt(mem, roles, q);
      if roles[q].Table? {
        assert TableOk(mem, roles, q);
        ExtendsPage(mem, roles, mem', roles, q);
      }
    }
    forall q | q in roles && roles[q].Table? ensures TableOk(mem', roles, q) {
      assert TableOk(mem, roles, q);
      ExtendsPage(mem, roles, mem', roles, q);
    }
    StillOpen(mem, roles, mem', roles);
    forall table: nat, path: Path | Starts(roles, table, path)
      ensures Walk(mem', table, path) == Walk(mem, table, path)
    {
      UnknownPageFrame(mem, mem', roles, table, path);
    }
  }

  // ---- A new table is linked in ----

  ghost predicate CanLink(mem: Memory, roles: Roles, p: nat, i: nat, q: nat) {
    && p in roles && roles[p].Table? && |roles[p].place| < 3 && i < ENTRIES && IsTable(mem, p)
    && !Present(mem[p][i])
    && Managed(roles[p].owner, Below(roles[p].place, i))
    && (roles[p].owner != 0 ==> OnImagePath(Below(roles[p].place, i)))
    && IsRole(roles, q, Loose) && IsPage(q) && q in mem && mem[q] == Zeroed()
  }

  function Linked(mem: Memory, p: nat, i: nat, q: nat): Memory {
    Put(mem, p, i, MakeEntry(q, PRESENT + WRITABLE))
  }

  ghost function LinkedRole(roles: Roles, p: nat, i: nat): Role
    requires p in roles && roles[p].Table? && |roles[p].place| < 3 && i < ENTRIES
  {
    Table(roles[p].owner, Below(roles[p].place, i))
  }

  lemma {:induction false} LinkFrame(mem: Memory, roles: Roles, p: nat, i: nat, q: nat, table: nat, path: Path)
    requires TreeOk(mem, roles) && CanLink(mem, roles, p, i, q) && Starts(roles, table, path)
    ensures Walk(Linked(mem, p, i, q), table, path) == Walk(mem, table, path)
    ensures var t := TableAt(mem, table, path[..|path| - 1]);
      t.Some? ==> TableAt(Linked(mem, p, i, q), table, path[..|path| - 1]) == t
    decreases |path|
  {
    var mem' := Linked(mem, p, i, q);
    assert TableOk(mem, roles, table);
    if table == p && path[0] == i {
      MadeEntry(q);
      assert mem'[q] == Zeroed();
      assert Walk(mem', q, path[1..]) == Unmapped;
    } else if |path| > 1 {
      assert LinkOk(mem, roles, table, path[0]);
      assert path[..|path| - 1][1..] == path[1..][..|path| - 2];
      var next := Next(mem, table, path[0]);
      if next.Some? {
        LinkFrame(mem, roles, p, i, q, next.value, path[1..]);
      }
    }
  }

  lemma LinkTree(mem: Memory, roles: Roles, p: nat, i: nat, q: nat)
    requires TreeOk(mem, roles) && CanLink(mem, roles, p, i, q)
    ensures TreeOk(Linked(mem, p, i, q), roles[q := LinkedRole(roles, p, i)])
  {
    MadeEntry(q);
    var mem', roles' := Linked(mem, p, i, q), roles[q := LinkedRole(roles, p, i)];
    forall x | x in roles' && roles'[x].Table? ensures TableOk(mem', roles', x) {
      if x != q {
        assert TableOk(mem, roles, x);
        forall j | |roles'[x].place| < 3 && 0 <= j < ENTRIES ensures LinkOk(mem', roles', x, j) {
          assert LinkOk(mem, roles, x, j);
        }
      }
    }
  }

  lemma LinkLeaves(mem: Memory, roles: Roles, p: nat, i: nat, q: nat)
    requires TreeOk(mem, roles) && LeavesOk(mem, roles) && CanLink(mem, roles, p, i, q)
    ensures LeavesOk(Linked(mem, p, i, q), roles[q := LinkedRole(roles, p, i)])
  {
    var mem', roles' := Linked(mem, p, i, q), roles[q := LinkedRole(roles, p, i)];
    forall x | x in roles' ensures LeavesOkAt(mem', roles', x) {
      if x != q {
        assert LeavesOkAt(mem, roles, x);
        forall j | 0 <= j < ENTRIES && roles[x].Table? && |roles[x].place| == 3 && IsTable(mem, x)
                   && Managed(roles[x].owner, roles[x].place)
          ensures LeafOk(mem', roles', x, j)
        {
          assert LeafOk(mem, roles, x, j);
        }
      }
    }
  }

  lemma LinkAnchors(mem: Memory, roles: Roles, p: nat, i: nat, q: nat)
    requires Anchored(mem, roles) && CanLink(mem, roles, p, i, q)
    ensures Anchored(Linked(mem, p, i, q), roles[q := LinkedRole(roles, p, i)])
  {
    MadeEntry(q);
    var mem', roles' := Linked(mem, p, i, q), roles[q := LinkedRole(roles, p, i)];
    forall x | x in roles' ensures AnchorOk(mem', roles', x) {
      if x == q {
        assert IsParent(mem', roles', p, q);
      } else {
        assert AnchorOk(mem, roles, x);
        if !roles[x].Loose? && roles[x].place != [] {
          if r :| IsParent(mem, roles, r, x) {
            assert IsParent(mem', roles', r, x);
          }
        }
      }
    }
  }

  /** The place of a new table was vacant. */
  lemma LinkUnique(mem: Memory, roles: Roles, p: nat, i: nat, q: nat)
    requires Anchored(mem, roles) && UniquePlaces(roles) && CanLink(mem, roles, p, i, q)
    ensures UniquePlaces(roles[q := LinkedRole(roles, p, i)])
  {
    var role := LinkedRole(roles, p, i);
    assert Front(role.place) == roles[p].place && Managed(roles[p].owner, roles[p].place);
    forall x | x in roles && x != q ensures roles[x] != role {
      assert AnchorOk(mem, roles, x);
    }
  }

  lemma LinkOwned(mem: Memory, pool: Pool, roles: Roles, p: nat, i: nat, q: nat)
    requires Owned(mem, pool, roles) && CanLink(mem, roles, p, i, q)
    ensures Owned(Linked(mem, p, i, q), pool, roles[q := LinkedRole(roles, p, i)])
    ensures SameWalks(roles, mem, Linked(mem, p, i, q))
  {
    LinkTree(mem, roles, p, i, q);
    LinkLeaves(mem, roles, p, i, q);
    LinkAnchors(mem, roles, p, i, q);
    LinkUnique(mem, roles, p, i, q);
    MadeEntry(q);
    StillOpen(mem, roles, Linked(mem, p, i, q), roles[q := LinkedRole(roles, p, i)]);
    forall table: nat, path: Path | Starts(roles, table, path)
      ensures Walk(Linked(mem, p, i, q), table, path) == Walk(mem, table, path)
    {
      LinkFrame(mem, roles, p, i, q, table, path);
    }
  }

  // ---- A bottom-level entry changes ----

  /** Writing a bottom-level entry changes exactly the walks that reach its table and index. */
  lemma {:induction false} LeafWrite(mem: Memory, roles: Roles, pt: nat, i: nat, e: nat, table: nat, path: Path)
    requires TreeOk(mem, roles) && Starts(roles, table, path)
    requires pt in roles && roles[pt].Table? && |roles[pt].place| == 3 && i < ENTRIES && IsTable(mem, pt)
    ensures var t := TableAt(mem, table, path[..|path| - 1]);
      && TableAt(Put(mem, pt, i, e), table, path[..|path| - 1]) == t
      && Walk(Put(mem, pt, i, e), table, path) ==
         if t == Some(pt) && path[|path| - 1] == i then Leaf(Put(mem, pt, i, e), pt, i) else Walk(mem, table, path)
    decreases |path|
  {
    assert TableOk(mem, roles, table);
    if |path| > 1 {
      assert LinkOk(mem, roles, table, path[0]);
      assert path[..|path| - 1][1..] == path[1..][..|path| - 2];
      var next := Next(mem, table, path[0]);
      if next.Some? {
        LeafWrite(mem, roles, pt, i, e, next.value, path[1..]);
      }
    }
  }

  ghost predicate IsLeafTable(mem: Memory, roles: Roles, pt: nat) {
    pt in roles && roles[pt].Table? && |roles[pt].place| == 3 && Managed(roles[pt].owner, roles[pt].place)
    && IsTable(mem, pt)
  }

  ghost predicate CanBind(mem: Memory, roles: Roles, pt: nat, i: nat, q: nat) {
    IsLeafTable(mem, roles, pt) && i < ENTRIES && !Present(mem[pt][i]) && IsRole(roles, q, Loose) && IsPage(q)
  }

  lemma BindTree(mem: Memory, roles: Roles, pt: nat, i: nat, q: nat, e: nat, role: Role)
    requires TreeOk(mem, roles) && IsLeafTable(mem, roles, pt) && i < ENTRIES
    requires q in roles && !roles[q].Table? && !role.Table?
    ensures TreeOk(Put(mem, pt, i, e), roles[q := role])
  {
    var mem', roles' := Put(mem, pt, i, e), roles[q := role];
    forall x | x in roles' && roles'[x].Table? ensures TableOk(mem', roles', x) {
      assert TableOk(mem, roles, x);
      forall j | |roles'[x].place| < 3 && 0 <= j < ENTRIES ensures LinkOk(mem', roles', x, j) {
        assert LinkOk(mem, roles, x, j);
      }
    }
  }

  lemma BindLeaves(mem: Memory, roles: Roles, pt: nat, i: nat, q: nat)
    requires LeavesOk(mem, roles) && CanBind(mem, roles, pt, i, q)
    ensures LeavesOk(Put(mem, pt, i, MakeEntry(q, PRESENT + WRITABLE)),
                     roles[q := Data(roles[pt].owner, Below(roles[pt].place, i))])
  {
    MadeEntry(q);
    var mem' := Put(mem, pt, i, MakeEntry(q, PRESENT + WRITABLE));
    var roles' := roles[q := Data(roles[pt].owner, Below(roles[pt].place, i))];
    forall x | x in roles' ensures LeavesOkAt(mem', roles', x) {
      assert LeavesOkAt(mem, roles, x);
      forall j | 0 <= j < ENTRIES && IsLeafTable(mem, roles, x) ensures LeafOk(mem', roles', x, j) {
        assert LeafOk(mem, roles, x, j);
      }
    }
  }

  lemma BindAnchors(mem: Memory, roles: Roles, pt: nat, i: nat, q: nat)
    requires Anchored(mem, roles) && CanBind(mem, roles, pt, i, q)
    ensures Anchored(Put(mem, pt, i, MakeEntry(q, PRESENT + WRITABLE)),
                     roles[q := Data(roles[pt].owner, Below(roles[pt].place, i))])
  {
    MadeEntry(q);
    var mem' := Put(mem, pt, i, MakeEntry(q, PRESENT + WRITABLE));
    var roles' := roles[q := Data(roles[pt].owner, Below(roles[pt].place, i))];
    forall x | x in roles' ensures AnchorOk(mem', roles', x) {
      if x == q {
        assert IsParent(mem', roles', pt, q);
      } else {
        assert AnchorOk(mem, roles, x);
        if !roles[x].Loose? && roles[x].place != [] {
          if r :| IsParent(mem, roles, r, x) {
            assert IsParent(mem', roles', r, x);
          }
        }
      }
    }
  }

  /** A loose page becomes the data page of one vacant place. */
  lemma BindOwned(mem: Memory, pool: Pool, roles: Roles, pt: nat, i: nat, q: nat)
    requires Owned(mem, pool, roles) && CanBind(mem, roles, pt, i, q)
    ensures Owned(Put(mem, pt, i, MakeEntry(q, PRESENT + WRITABLE)), pool,
                  roles[q := Data(roles[pt].owner, Below(roles[pt].place, i))])
  {
    BindTree(mem, roles, pt, i, q, MakeEntry(q, PRESENT + WRITABLE), Data(roles[pt].owner, Below(roles[pt].place, i)));
    BindLeaves(mem, roles, pt, i, q);
    BindAnchors(mem, roles, pt, i, q);
    StillOpen(mem, roles, Put(mem, pt, i, MakeEntry(q, PRESENT + WRITABLE)),
              roles[q := Data(roles[pt].owner, Below(roles[pt].place, i))]);
  }

  ghost predicate CanUnbind(mem: Memory, roles: Roles, pt: nat, i: nat) {
    IsLeafTable(mem, roles, pt) && i < ENTRIES && Present(mem[pt][i])
  }

  lemma UnbindLeaves(mem: Memory, roles: Roles, pt: nat, i: nat)
    requires LeavesOk(mem, roles) && UniquePlaces(roles) && CanUnbind(mem, roles, pt, i)
    ensures IsRole(roles, Addr(mem[pt][i]), Data(roles[pt].owner, Below(roles[pt].place, i)))
    ensures LeavesOk(Put(mem, pt, i, 0), roles[Addr(mem[pt][i]) := Loose])
  {
    assert LeavesOkAt(mem, roles, pt);
    assert LeafOk(mem, roles, pt, i);
    var mem', roles' := Put(mem, pt, i, 0), roles[Addr(mem[pt][i]) := Loose];
    forall x | x in roles' ensures LeavesOkAt(mem', roles', x) {
      assert LeavesOkAt(mem, roles, x);
      forall j | 0 <= j < ENTRIES && IsLeafTable(mem, roles, x) ensures LeafOk(mem', roles', x, j) {
        assert LeafOk(mem, roles, x, j);
        OnePlace(roles, pt, i, x, j);
      }
    }
  }

  lemma UnbindAnchors(mem: Memory, roles: Roles, pt: nat, i: nat)
    requires Anchored(mem, roles) && CanUnbind(mem, roles, pt, i)
    requires IsRole(roles, Addr(mem[pt][i]), Data(roles[pt].owner, Below(roles[pt].place, i)))
    ensures Anchored(Put(mem, pt, i, 0), roles[Addr(mem[pt][i]) := Loose])
  {
    var mem', roles' := Put(mem, pt, i, 0), roles[Addr(mem[pt][i]) := Loose];
    forall x | x in roles' ensures AnchorOk(mem', roles', x) {
      assert AnchorOk(mem, roles, x);
      if !roles'[x].Loose? && roles[x].place != [] {
        if r :| IsParent(mem, roles, r, x) {
          assert IsParent(mem', roles', r, x);
        }
      }
    }
  }

  /** The page a managed leaf maps is its data page, mapped nowhere else that is managed. */
  lemma UnbindOwned(mem: Memory, pool: Pool, roles: Roles, pt: nat, i: nat)
    requires Owned(mem, pool, roles) && CanUnbind(mem, roles, pt, i)
    ensures IsRole(roles, Addr(mem[pt][i]), Data(roles[pt].owner, Below(roles[pt].place, i)))
    ensures Owned(Put(mem, pt, i, 0), pool, roles[Addr(mem[pt][i]) := Loose])
  {
    UnbindLeaves(mem, roles, pt, i);
    BindTree(mem, roles, pt, i, Addr(mem[pt][i]), 0, Loose);
    UnbindAnchors(mem, roles, pt, i);
    StillOpen(mem, roles, Put(mem, pt, i, 0), roles[Addr(mem[pt][i]) := Loose]);
  }

  lemma OnePlace(roles: Roles, pt: nat, i: nat, x: nat, j: nat)
    requires pt in roles && x in roles && roles[pt].Table? && roles[x].Table?
    requires |roles[pt].place| == 3 && |roles[x].place| == 3 && i < ENTRIES && j < ENTRIES
    requires UniquePlaces(roles) && Managed(roles[pt].owner, roles[pt].place)
    ensures roles[pt].owner == roles[x].owner && Below(roles[pt].place, i) == Below(roles[x].place, j) ==>
      pt == x && i == j
  {
    var a, b := Below(roles[pt].place, i), Below(roles[x].place, j);
    if roles[pt].owner == roles[x].owner && a == b {
      assert roles[pt].place == a[..3] && roles[x].place == b[..3];
      assert i == a[3] && j == b[3];
    }
  }

  // ---- A loose page is returned ----

  /** Only loose pages went away. */
  ghost predicate LooseGone(roles: Roles, roles': Roles) {
    && (forall x :: x in roles' ==> x in roles && roles'[x] == roles[x])
    && (forall x :: x in roles && !roles[x].Loose? ==> x in roles')
  }

  /** Freeing concerns nobody: no table, leaf or anchor mentions a loose page. */
  lemma LooseGoneOwned(mem: Memory, pool: Pool, roles: Roles, pool': Pool, roles': Roles)
    requires Owned(mem, pool, roles) && LooseGone(roles, roles') && InUse(pool', roles')
    ensures Owned(mem, pool', roles')
  {
    StillOpen(mem, roles, mem, roles');
    forall x | x in roles' && roles'[x].Table? ensures TableOk(mem, roles', x) {
      assert TableOk(mem, roles, x);
      forall j | |roles'[x].place| < 3 && 0 <= j < ENTRIES ensures LinkOk(mem, roles', x, j) {
        assert LinkOk(mem, roles, x, j);
      }
    }
    forall x | x in roles' ensures LeavesOkAt(mem, roles', x) {
      assert LeavesOkAt(mem, roles, x);
      forall j | 0 <= j < ENTRIES && IsLeafTable(mem, roles, x) ensures LeafOk(mem, roles', x, j) {
        assert LeafOk(mem, roles, x, j);
      }
    }
    forall x | x in roles' ensures AnchorOk(mem, roles', x) {
      assert AnchorOk(mem, roles, x);
      if !roles[x].Loose? && roles[x].place != [] {
        if r :| IsParent(mem, roles, r, x) {
          assert IsParent(mem, roles', r, x);
        }
      }
    }
  }

  lemma FreeOwned(mem: Memory, pool: Pool, roles: Roles, pool': Pool, q: nat)
    requires Owned(mem, pool, roles) && IsRole(roles, q, Loose) && Give(pool, q) == (pool', true)
    ensures Owned(mem, pool', roles - {q})
  {
    GiveExact(pool, q);
    LooseGoneOwned(mem, pool, roles, pool', roles - {q});
  }

  // ---- A set of pages is let go ----

  /** `roles` with the pages of `gone` loose. */
  function Loosened(roles: Roles, gone: set<nat>): Roles {
    map x | x in roles :: if x in gone then Loose else roles[x]
  }

  /** Pages of `gone` are linked from pages of `gone` only, so they can be let go together. */
  ghost predicate Closed(mem: Memory, roles: Roles, gone: set<nat>) {
    && (forall x, i: nat | x in roles && x !in gone && roles[x].Table? && |roles[x].place| < 3 && IsTable(mem, x)
                           && i < ENTRIES && Next(mem, x, i).Some? ::
          Next(mem, x, i).value !in gone)
    && (forall x, i: nat | x !in gone && IsLeafTable(mem, roles, x) && i < ENTRIES && Present(mem[x][i]) ::
          Addr(mem[x][i]) !in gone)
    && (forall q, p | q in roles && q !in gone && !roles[q].Loose? && roles[q].place != []
                      && Managed(roles[q].owner, roles[q].place) && IsParent(mem, roles, p, q) ::
          p !in gone)
  }

  lemma LoosenOwned(mem: Memory, pool: Pool, roles: Roles, gone: set<nat>)
    requires Owned(mem, pool, roles) && Closed(mem, roles, gone)
    ensures Owned(mem, pool, Loosened(roles, gone))
  {
    var roles' := Loosened(roles, gone);
    StillOpen(mem, roles, mem, roles');
    forall x | x in roles' && roles'[x].Table? ensures TableOk(mem, roles', x) {
      assert TableOk(mem, roles, x);
      forall j | |roles'[x].place| < 3 && 0 <= j < ENTRIES ensures LinkOk(mem, roles', x, j) {
        assert LinkOk(mem, roles, x, j);
      }
    }
    forall x | x in roles' ensures LeavesOkAt(mem, roles', x) {
      assert LeavesOkAt(mem, roles, x);
      forall j | 0 <= j < ENTRIES && IsLeafTable(mem, roles', x) ensures LeafOk(mem, roles', x, j) {
        assert LeafOk(mem, roles, x, j);
      }
    }
    forall x | x in roles' ensures AnchorOk(mem, roles', x) {
      assert AnchorOk(mem, roles, x);
      if !roles'[x].Loose? && roles[x].place != [] && Managed(roles[x].owner, roles[x].place) {
        var r :| IsParent(mem, roles, r, x);
        assert IsParent(mem, roles', r, x);
      }
    }
  }

  /** All pages of one process. */
  function OfOwner(roles: Roles, owner: nat): set<nat> {
    set x | x in roles && !roles[x].Loose? && roles[x].owner == owner
  }

  /** Nothing outside a process's private pages leads into them. */
  lemma OwnerClosed(mem: Memory, pool: Pool, roles: Roles, owner: nat)
    requires Owned(mem, pool, roles) && owner != 0
    ensures Closed(mem, roles, OfOwner(roles, owner))
  {
    var gone := OfOwner(roles, owner);
    forall x, i: nat | x in roles && x !in gone && roles[x].Table? && |roles[x].place| < 3 && IsTable(mem, x)
                       && i < ENTRIES && Next(mem, x, i).Some?
      ensures Next(mem, x, i).value !in gone
    {
      assert TableOk(mem, roles, x);
      assert LinkOk(mem, roles, x, i);
    }
    forall x, i: nat | x !in gone && IsLeafTable(mem, roles, x) && i < ENTRIES && Present(mem[x][i])
      ensures Addr(mem[x][i]) !in gone
    {
      assert LeavesOkAt(mem, roles, x);
      assert LeafOk(mem, roles, x, i);
    }
  }

  // ---- A shared subtree without data is cut off ----

  /** All kernel tables at or below a place. */
  function Subtree(roles: Roles, place: Path): set<nat> {
    set x | x in roles && roles[x].Table? && IsPrefix(place, roles[x].place)
  }

  ghost predicate NoDataBelow(roles: Roles, place: Path) {
    forall x :: x in roles && roles[x].Data? ==> !IsPrefix(place, roles[x].place)
  }

  ghost predicate CanCut(mem: Memory, roles: Roles, p: nat, i: nat) {
    && p in roles && roles[p].Table? && roles[p].owner == 0 && 0 < |roles[p].place| < 3 && i < ENTRIES
    && roles[p].place[0] >= SHARED_TOP && IsTable(mem, p)
    && NoDataBelow(roles, Below(roles[p].place, i))
  }

  lemma PrefixStep(a: Path, b: Path, j: nat)
    requires |b| < 4 && j < ENTRIES && IsPrefix(a, Below(b, j)) && !IsPrefix(a, b)
    ensures a == Below(b, j)
  {
  }

  /** Tables of the subtree are the kernel's: private pages live elsewhere. */
  lemma SubtreeIsShared(roles: Roles, place: Path, x: nat)
    requires PlacesOk(roles) && place != [] && place[0] >= SHARED_TOP && x in Subtree(roles, place)
    ensures roles[x].owner == 0 && roles[x].place != [] && roles[x].place[0] == place[0]
  {
    assert roles[x].place[..|place|][0] == place[0];
  }

  lemma CutLink(mem: Memory, pool: Pool, roles: Roles, p: nat, i: nat, x: nat, j: nat)
    requires Owned(mem, pool, roles) && CanCut(mem, roles, p, i)
    requires x in roles && roles[x].Table? && |roles[x].place| < 3 && j < ENTRIES
    requires x !in Subtree(roles, Below(roles[p].place, i))
    ensures var roles' := Loosened(roles, Subtree(roles, Below(roles[p].place, i)));
      IsTable(Put(mem, p, i, 0), x) && LinkOk(Put(mem, p, i, 0), roles', x, j)
  {
    var place := Below(roles[p].place, i);
    assert TableOk(mem, roles, x);
    assert LinkOk(mem, roles, x, j);
    var next := Next(mem, x, j);
    if next.Some? && next.value in Subtree(roles, place) {
      PrefixStep(place, roles[x].place, j);
      assert roles[x].place == place[..|place| - 1] == roles[p].place;
      assert x == p && j == i;
    }
  }

  lemma CutTree(mem: Memory, pool: Pool, roles: Roles, p: nat, i: nat)
    requires Owned(mem, pool, roles) && CanCut(mem, roles, p, i)
    ensures TreeOk(Put(mem, p, i, 0), Loosened(roles, Subtree(roles, Below(roles[p].place, i))))
  {
    hide LinkOk, Subtree;
    var mem', roles' := Put(mem, p, i, 0), Loosened(roles, Subtree(roles, Below(roles[p].place, i)));
    forall x | x in roles' && roles'[x].Table? ensures TableOk(mem', roles', x) {
      assert TableOk(mem, roles, x);
      forall j | |roles[x].place| < 3 && 0 <= j < ENTRIES ensures LinkOk(mem', roles', x, j) {
        CutLink(mem, pool, roles, p, i, x, j);
      }
    }
  }

  lemma CutLeaves(mem: Memory, pool: Pool, roles: Roles, p: nat, i: nat)
    requires Owned(mem, pool, roles) && CanCut(mem, roles, p, i)
    ensures LeavesOk(Put(mem, p, i, 0), Loosened(roles, Subtree(roles, Below(roles[p].place, i))))
  {
    var gone := Subtree(roles, Below(roles[p].place, i));
    var mem', roles' := Put(mem, p, i, 0), Loosened(roles, gone);
    forall x | x in roles' ensures LeavesOkAt(mem', roles', x) {
      assert LeavesOkAt(mem, roles, x);
      forall j | 0 <= j < ENTRIES && IsLeafTable(mem', roles', x) ensures LeafOk(mem', roles', x, j) {
        assert LeafOk(mem, roles, x, j);
      }
    }
  }

  lemma FrontOutside(place: Path, whole: Path)
    requires whole != [] && !IsPrefix(place, whole)
    ensures !IsPrefix(place, Front(whole))
  {
    assert |place| < |whole| ==> whole[..|place|] == Front(whole)[..|place|];
  }

  lemma CutAnchor(mem: Memory, roles: Roles, p: nat, i: nat, r: nat, x: nat)
    requires CanCut(mem, roles, p, i) && x in roles && !roles[x].Loose? && roles[x].place != []
    requires IsParent(mem, roles, r, x) && !IsPrefix(Below(roles[p].place, i), roles[x].place)
    ensures IsParent(Put(mem, p, i, 0), Loosened(roles, Subtree(roles, Below(roles[p].place, i))), r, x)
  {
    var place := Below(roles[p].place, i);
    var last := roles[x].place[|roles[x].place| - 1];
    FrontOutside(place, roles[x].place);
    assert roles[x].place == Below(Front(roles[x].place), last);
    assert !(r == p && last == i);
  }

  lemma CutAnchors(mem: Memory, pool: Pool, roles: Roles, p: nat, i: nat)
    requires Owned(mem, pool, roles) && CanCut(mem, roles, p, i)
    ensures Anchored(Put(mem, p, i, 0), Loosened(roles, Subtree(roles, Below(roles[p].place, i))))
  {
    var place := Below(roles[p].place, i);
    var mem', roles' := Put(mem, p, i, 0), Loosened(roles, Subtree(roles, place));
    forall x | x in roles' ensures AnchorOk(mem', roles', x) {
      assert AnchorOk(mem, roles, x);
      if !roles'[x].Loose? && roles[x].place != [] && Managed(roles[x].owner, roles[x].place) {
        var r :| IsParent(mem, roles, r, x);
        CutAnchor(mem, roles, p, i, r, x);
      }
    }
  }

  /** A walk below a place without data finds nothing. */
  lemma {:induction false} NothingBelow(mem: Memory, pool: Pool, roles: Roles, place: Path, table: nat, path: Path)
    requires Owned(mem, pool, roles) && Starts(roles, table, path)
    requires place != [] && place[0] >= SHARED_TOP && NoDataBelow(roles, place)
    requires IsPrefix(place, roles[table].place + path)
    ensures Walk(mem, table, path) == Unmapped
    decreases |path|
  {
    var whole := roles[table].place + path;
    assert whole[0] == whole[..|place|][0] == place[0];
    assert TableOk(mem, roles, table) && LeavesOkAt(mem, roles, table);
    if |path| == 1 {
      assert LeafOk(mem, roles, table, path[0]);
      assert Below(roles[table].place, path[0]) == whole;
    } else {
      assert LinkOk(mem, roles, table, path[0]);
      var next := Next(mem, table, path[0]);
      assert (roles[table].place + [path[0]])[0] == whole[0];
      if next.Some? {
        assert whole == (roles[table].place + [path[0]]) + path[1..];
        NothingBelow(mem, pool, roles, place, next.value, path[1..]);
      }
    }
  }

  /** Cutting an entry whose subtree maps no data changes no translation, and the whole subtree comes loose. */
  lemma CutOwned(mem: Memory, pool: Pool, roles: Roles, p: nat, i: nat)
    requires Owned(mem, pool, roles) && CanCut(mem, roles, p, i)
    ensures Owned(Put(mem, p, i, 0), pool, Loosened(roles, Subtree(roles, Below(roles[p].place, i))))
    ensures SameWalks(Loosened(roles, Subtree(roles, Below(roles[p].place, i))), mem, Put(mem, p, i, 0))
  {
    var place := Below(roles[p].place, i);
    CutTree(mem, pool, roles, p, i);
    CutLeaves(mem, pool, roles, p, i);
    CutAnchors(mem, pool, roles, p, i);
    var mem', roles' := Put(mem, p, i, 0), Loosened(roles, Subtree(roles, place));
    StillOpen(mem, roles, mem', roles');
    forall table: nat, path: Path | Starts(roles', table, path)
      ensures Walk(mem', table, path) == Walk(mem, table, path)
    {
      if IsPrefix(place, roles[table].place + path) {
        NothingBelow(mem, pool, roles, place, table, path);
        NothingBelow(mem', pool, roles', place, table, path);
      } else {
        WriteFrame(mem, roles, p, i, 0, table, path);
      }
    }
  }
}
