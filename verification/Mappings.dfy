/** What mapping and unmapping pages does to translations, as facts about memory values. */
module Mappings {
  import opened Common
  import opened PageTables
  import opened PhysPages
  import opened PageOwners

  /** Mappings the kernel makes: its own half through its root, the image window through a process's root. */
  ghost predicate MayTouch(roles: Roles, root: nat, path: Path) {
    && root in roles && roles[root].Table? && roles[root].place == [] && |path| == 4
    && (if roles[root].owner == 0 then path[0] >= SHARED_TOP else OnImagePath(path[..3]))
  }

  /** Pages keep what they were for; new ones may appear. */
  ghost predicate RolesKept(roles: Roles, roles': Roles) {
    forall q :: q in roles ==> q in roles' && roles'[q] == roles[q]
  }

  /** Walks that see the entry at the end of `path` from `root`. */
  ghost predicate Shares(mem: Memory, root: nat, path: Path, table: nat, q: Path)
    requires |path| == 4 && q != []
  {
    var t := TableAt(mem, table, Front(q));
    t.Some? && t == TableAt(mem, root, Front(path)) && q[|q| - 1] == path[3]
  }

  /** Exactly the walks that share the entry changed, from nothing to `phys`. */
  ghost predicate Bound(roles: Roles, mem: Memory, mem': Memory, root: nat, path: Path, phys: nat)
    requires |path| == 4
  {
    && Walk(mem', root, path) == Frame(phys)
    && Shares(mem', root, path, root, path)
    && forall table: nat, q: Path :: Starts(roles, table, q) ==>
         if Shares(mem', root, path, table, q)
         then Walk(mem, table, q) == Unmapped && Walk(mem', table, q) == Frame(phys)
         else Walk(mem', table, q) == Walk(mem, table, q)
  }

  /** Exactly the walks that share the entry changed, from `phys` to nothing. */
  ghost predicate Unbound(roles: Roles, mem: Memory, mem': Memory, root: nat, path: Path, phys: nat)
    requires |path| == 4
  {
    && Walk(mem, root, path) == Frame(phys) && Walk(mem', root, path) == Unmapped
    && forall table: nat, q: Path :: Starts(roles, table, q) ==>
         && TableAt(mem', table, Front(q)) == TableAt(mem, table, Front(q))
         && if Shares(mem, root, path, table, q)
            then Walk(mem, table, q) == Frame(phys) && Walk(mem', table, q) == Unmapped
            else Walk(mem', table, q) == Walk(mem, table, q)
  }

  lemma SameWalksChain(roles: Roles, roles1: Roles, m0: Memory, m1: Memory, m2: Memory)
    requires SameWalks(roles, m0, m1) && SameWalks(roles1, m1, m2) && RolesKept(roles, roles1)
    ensures SameWalks(roles, m0, m2)
  {
    forall table: nat, q: Path | Starts(roles, table, q) ensures Walk(m2, table, q) == Walk(m0, table, q) {
      assert Starts(roles1, table, q);
    }
  }

  /** After the entry of a reached bottom table is filled, the sharers and only they see the new page. */
  lemma BindsExactly(mem: Memory, roles: Roles, root: nat, path: Path, pt: nat, phys: nat)
    requires TreeOk(mem, roles) && root in roles && roles[root].Table? && roles[root].place == [] && |path| == 4
    requires TableAt(mem, root, Front(path)) == Some(pt) && IsLeafTable(mem, roles, pt)
    requires !Present(mem[pt][path[3]]) && IsPage(phys)
    ensures Bound(roles, mem, Put(mem, pt, path[3], MakeEntry(phys, PRESENT + WRITABLE)), root, path, phys)
  {
    MadeEntry(phys);
    var e := MakeEntry(phys, PRESENT + WRITABLE);
    var mem' := Put(mem, pt, path[3], e);
    assert Starts(roles, root, path);
    LeafWrite(mem, roles, pt, path[3], e, root, path);
    forall table: nat, q: Path | Starts(roles, table, q)
      ensures if Shares(mem', root, path, table, q)
              then Walk(mem, table, q) == Unmapped && Walk(mem', table, q) == Frame(phys)
              else Walk(mem', table, q) == Walk(mem, table, q)
    {
      LeafWrite(mem, roles, pt, path[3], e, table, q);
      WalkSplits(mem, table, q);
    }
  }

  lemma UnbindsExactly(mem: Memory, roles: Roles, root: nat, path: Path, pt: nat)
    requires TreeOk(mem, roles) && root in roles && roles[root].Table? && roles[root].place == [] && |path| == 4
    requires TableAt(mem, root, Front(path)) == Some(pt) && IsLeafTable(mem, roles, pt)
    requires Present(mem[pt][path[3]])
    ensures Unbound(roles, mem, Put(mem, pt, path[3], 0), root, path, Addr(mem[pt][path[3]]))
  {
    var mem' := Put(mem, pt, path[3], 0);
    assert Starts(roles, root, path);
    LeafWrite(mem, roles, pt, path[3], 0, root, path);
    WalkSplits(mem, root, path);
    forall table: nat, q: Path | Starts(roles, table, q)
      ensures TableAt(mem', table, Front(q)) == TableAt(mem, table, Front(q))
      ensures if Shares(mem, root, path, table, q)
              then Walk(mem, table, q) == Frame(Addr(mem[pt][path[3]])) && Walk(mem', table, q) == Unmapped
              else Walk(mem', table, q) == Walk(mem, table, q)
    {
      LeafWrite(mem, roles, pt, path[3], 0, table, q);
      WalkSplits(mem, table, q);
    }
  }

  /** Links between known tables stay; entries appear only where there was none. */
  ghost predicate LinksKept(roles: Roles, mem: Memory, mem': Memory) {
    forall t, i: nat :: t in roles && roles[t].Table? && |roles[t].place| < 3 && IsTable(mem, t) && i < ENTRIES
                        && Next(mem, t, i).Some?
      ==> IsTable(mem', t) && Next(mem', t, i) == Next(mem, t, i)
  }

  /** A table in which the kernel may add a table at `index`. */
  ghost predicate MayExtend(roles: Roles, table: nat, index: nat) {
    && table in roles && roles[table].Table? && |roles[table].place| < 3 && index < ENTRIES
    && Managed(roles[table].owner, Below(roles[table].place, index))
    && (roles[table].owner != 0 ==> OnImagePath(Below(roles[table].place, index)))
  }

  lemma LinkKeepsLinks(mem: Memory, roles: Roles, p: nat, i: nat, q: nat)
    requires CanLink(mem, roles, p, i, q)
    ensures LinksKept(roles, mem, Linked(mem, p, i, q))
    ensures Next(Linked(mem, p, i, q), p, i) == Some(q)
  {
    MadeEntry(q);
  }

  /** Contents of pages that are no tables stay. */
  ghost predicate PagesKept(roles: Roles, mem: Memory, mem': Memory) {
    forall q :: q in roles && !roles[q].Table? && q in mem ==> q in mem' && mem'[q] == mem[q]
  }

  /** A table below a root. */
  predicate IsInner(role: Role) {
    role.Table? && role.place != []
  }

  ghost predicate OnlyTablesAdded(roles: Roles, roles': Roles) {
    RolesKept(roles, roles') && forall q :: q in roles' && q !in roles ==> IsInner(roles'[q])
  }

  ghost predicate AddedFor(roles: Roles, roles': Roles, owner: nat) {
    forall q :: q in roles' && q !in roles ==> IsInner(roles'[q]) && roles'[q].owner == owner
  }

  /** What ensure_next_table does to memory: nothing, or one more table. */
  ghost predicate LinkAdded(mem: Memory, roles: Roles, mem': Memory, roles': Roles) {
    && OnlyTablesAdded(roles, roles') && PagesKept(roles, mem, mem')
    && LinksKept(roles, mem, mem') && SameWalks(roles, mem, mem')
  }

  lemma NoLinkAdded(mem: Memory, roles: Roles)
    ensures LinkAdded(mem, roles, mem, roles)
  {
  }

  lemma FreshLinkAdded(mem0: Memory, roles0: Roles, mem: Memory, roles: Roles, p: nat, i: nat, q: nat)
    requires SameWalks(roles0, mem0, mem) && SameWalks(roles, mem, Linked(mem, p, i, q))
    requires q !in roles0 && mem == mem0[q := Zeroed()] && roles == roles0[q := Loose]
    requires CanLink(mem, roles, p, i, q)
    ensures LinkAdded(mem0, roles0, Linked(mem, p, i, q), roles[q := LinkedRole(roles, p, i)])
  {
    LinkKeepsLinks(mem, roles, p, i, q);
    SameWalksChain(roles0, roles, mem0, mem, Linked(mem, p, i, q));
  }

  /** A zeroed page just taken is linked in: still owned exactly, and no walk notices. */
  lemma FreshLink(mem0: Memory, roles0: Roles, mem: Memory, pool: Pool, roles: Roles, p: nat, i: nat, q: nat)
    requires Owned(mem, pool, roles) && SameWalks(roles0, mem0, mem)
    requires q !in roles0 && IsPage(q) && mem == mem0[q := Zeroed()] && roles == roles0[q := Loose]
    requires MayExtend(roles0, p, i) && IsTable(mem0, p) && !Present(mem0[p][i])
    ensures var mem', roles' := Linked(mem, p, i, q), roles[q := LinkedRole(roles, p, i)];
      && Owned(mem', pool, roles')
      && LinkAdded(mem0, roles0, mem', roles')
      && IsTable(mem', p) && Next(mem', p, i) == Some(q)
  {
    LinkOwned(mem, pool, roles, p, i, q);
    MadeEntry(q);
    FreshLinkAdded(mem0, roles0, mem, roles, p, i, q);
  }

  lemma OwnedParts(mem: Memory, pool: Pool, roles: Roles)
    requires Owned(mem, pool, roles)
    ensures InUse(pool, roles) && TreeOk(mem, roles) && PlacesOk(roles)
  {
  }

  lemma RoleNotPage(mem: Memory, pool: Pool, roles: Roles, p: nat)
    requires Owned(mem, pool, roles) && p in roles && roles[p].Table?
    ensures TableOk(mem, roles, p) && IsPage(p)
  {
  }

  /** The table at depth `d` of the path of a touchable address belongs to the root's owner. */
  lemma NextOnPath(mem: Memory, roles: Roles, root: nat, path: Path, d: nat, table: nat)
    requires TreeOk(mem, roles) && MayTouch(roles, root, path) && d < 3
    requires IsRole(roles, table, Table(roles[root].owner, path[..d]))
    ensures MayExtend(roles, table, path[d])
    ensures IsTable(mem, table) && var next := Next(mem, table, path[d]);
      next.Some? ==> IsRole(roles, next.value, Table(roles[root].owner, path[..d + 1]))
  {
    assert path[..d] + [path[d]] == path[..d + 1];
    assert path[..3][..2] == path[..2];
    if roles[root].owner != 0 {
      assert path[0] == path[..3][0] && path[1] == path[..3][1];
      assert path[..1] == [path[0]] && path[..2] == [path[0], path[1]];
    }
    assert TableOk(mem, roles, table);
    assert LinkOk(mem, roles, table, path[d]);
  }

  lemma TableAtPush(mem: Memory, root: nat, path: Path, i: nat)
    requires |path| < 4 && i < ENTRIES
    ensures TableAt(mem, root, Below(path, i)) ==
            var t := TableAt(mem, root, path);
            if t.None? then None
            else if !IsTable(mem, t.value) then None
            else var n := Next(mem, t.value, i); if n.Some? && IsTable(mem, n.value) then n else None
    decreases |path|
  {
    if path != [] && IsTable(mem, root) {
      var next := Next(mem, root, path[0]);
      assert Below(path, i)[1..] == Below(path[1..], i);
      if next.Some? {
        TableAtPush(mem, next.value, path[1..], i);
      }
    }
  }

  lemma LargeOnWay(mem: Memory, root: nat, path: Path, d: nat, table: nat)
    requires |path| == 4 && d < 3 && TableAt(mem, root, path[..d]) == Some(table) && IsTable(mem, table)
    requires Present(mem[table][path[d]]) && Huge(mem[table][path[d]])
    ensures Walk(mem, root, path).Large?
    decreases d
  {
    LargeFrom(mem, root, path, d, table);
  }

  lemma {:induction false} LargeFrom(mem: Memory, root: nat, path: Path, d: nat, table: nat)
    requires d + 1 < |path| && TableAt(mem, root, path[..d]) == Some(table) && IsTable(mem, table)
    requires Present(mem[table][path[d]]) && Huge(mem[table][path[d]])
    ensures Walk(mem, root, path).Large?
    decreases d
  {
    if d == 0 {
      assert path[..0] == [];
    } else {
      assert path[..d][1..] == path[1..][..d - 1];
      LargeFrom(mem, Next(mem, root, path[0]).value, path[1..], d - 1, table);
    }
  }

  lemma {:induction false} LinksKeepTables(roles: Roles, mem: Memory, mem': Memory, root: nat, path: Path)
    requires TreeOk(mem, roles) && LinksKept(roles, mem, mem')
    requires root in roles && roles[root].Table? && |roles[root].place| + |path| <= 3
    requires forall t :: t in roles && roles[t].Table? ==> IsTable(mem', t)
    ensures TableAt(mem, root, path).Some? ==> TableAt(mem', root, path) == TableAt(mem, root, path)
    decreases |path|
  {
    assert TableOk(mem, roles, root);
    if path != [] {
      assert LinkOk(mem, roles, root, path[0]);
      var next := Next(mem, root, path[0]);
      if next.Some? {
        LinksKeepTables(roles, mem, mem', next.value, path[1..]);
      }
    }
  }

  lemma KeptLinksKeepTables(mem: Memory, roles: Roles, mem': Memory, roles': Roles)
    requires TreeOk(mem, roles) && TreeOk(mem', roles') && RolesKept(roles, roles') && LinksKept(roles, mem, mem')
    ensures TablesKept(roles, mem, mem')
  {
    forall table: nat, q: Path | Starts(roles, table, q) && TableAt(mem, table, Front(q)).Some?
      ensures TableAt(mem', table, Front(q)) == TableAt(mem, table, Front(q))
    {
      forall t | t in roles && roles[t].Table? ensures IsTable(mem', t) {
        assert TableOk(mem', roles', t);
      }
      LinksKeepTables(roles, mem, mem', table, Front(q));
    }
  }

  lemma TablesKeptChain(roles: Roles, roles1: Roles, m0: Memory, m1: Memory, m2: Memory)
    requires TablesKept(roles, m0, m1) && TablesKept(roles1, m1, m2) && RolesKept(roles, roles1)
    ensures TablesKept(roles, m0, m2)
  {
    forall table: nat, q: Path | Starts(roles, table, q) && TableAt(m0, table, Front(q)).Some?
      ensures TableAt(m2, table, Front(q)) == TableAt(m0, table, Front(q))
    {
      assert Starts(roles1, table, q);
    }
  }

  // ---- Tables are added on demand ----

  ghost predicate TablesKept(roles: Roles, mem: Memory, mem': Memory) {
    forall table: nat, q: Path :: Starts(roles, table, q) && TableAt(mem, table, Front(q)).Some? ==>
      TableAt(mem', table, Front(q)) == TableAt(mem, table, Front(q))
  }

  /** No walk and no page that is not a table notices. */
  ghost predicate Quiet(roles: Roles, mem: Memory, mem': Memory) {
    SameWalks(roles, mem, mem') && TablesKept(roles, mem, mem') && PagesKept(roles, mem, mem')
  }

  lemma AllocQuiet(mem: Memory, roles: Roles, p: nat)
    requires TreeOk(mem, roles) && p !in roles
    ensures Quiet(roles, mem, mem[p := Zeroed()])
  {
    var mem' := mem[p := Zeroed()];
    forall table: nat, path: Path | Starts(roles, table, path)
      ensures Walk(mem', table, path) == Walk(mem, table, path)
      ensures TableAt(mem', table, Front(path)) == TableAt(mem, table, Front(path))
    {
      UnknownPageFrame(mem, mem', roles, table, path);
    }
  }

  /** Tables were added, quietly. */
  ghost predicate TablesAdded(mem: Memory, roles: Roles, mem': Memory, roles': Roles) {
    OnlyTablesAdded(roles, roles') && Quiet(roles, mem, mem')
  }

  lemma TablesAddedChain(m0: Memory, roles: Roles, m1: Memory, roles1: Roles, m2: Memory, roles2: Roles)
    requires TablesAdded(m0, roles, m1, roles1) && TablesAdded(m1, roles1, m2, roles2)
    ensures TablesAdded(m0, roles, m2, roles2)
  {
    SameWalksChain(roles, roles1, m0, m1, m2);
    TablesKeptChain(roles, roles1, m0, m1, m2);
  }

  lemma QuietChain(m0: Memory, roles: Roles, m1: Memory, roles1: Roles, m2: Memory)
    requires Quiet(roles, m0, m1) && Quiet(roles1, m1, m2) && RolesKept(roles, roles1)
    ensures Quiet(roles, m0, m2)
  {
    SameWalksChain(roles, roles1, m0, m1, m2);
    TablesKeptChain(roles, roles1, m0, m1, m2);
  }

  lemma NothingAdded(mem: Memory, roles: Roles)
    ensures TablesAdded(mem, roles, mem, roles)
  {
  }

  // ---- Runs of pages ----

  function PageAt(base: nat, i: nat): (p: Path)
    ensures |p| == 4
  {
    PathOf(base + i * PAGE_SIZE)
  }

  lemma PageAligned(base: nat, i: nat)
    requires base % PAGE_SIZE == 0
    ensures (base + i * PAGE_SIZE) % PAGE_SIZE == 0 && PathOf(base + i * PAGE_SIZE) == PageAt(base, i)
  {
    assert base == base / PAGE_SIZE * PAGE_SIZE;
    assert base + i * PAGE_SIZE == (base / PAGE_SIZE + i) * PAGE_SIZE;
  }

  /** The walk sees the entry of one of the first `n` pages from `base`. */
  ghost predicate SharesAny(mem: Memory, root: nat, base: nat, n: nat, table: nat, q: Path)
    requires q != []
  {
    exists i: nat :: i < n && Shares(mem, root, PageAt(base, i), table, q)
  }

  ghost predicate MayTouchRun(roles: Roles, root: nat, base: nat, n: nat) {
    IsTableRole(roles, root, []) && base % PAGE_SIZE == 0 && forall i: nat :: i < n ==>
        MayTouch(roles, root, PageAt(base, i))
  }

  /** Halfway through mapping a run: the sharers of the mapped pages saw nothing there before, all other
      walks read as before. */
  ghost predicate Pending(roles: Roles, mem: Memory, mem': Memory, root: nat, base: nat, n: nat) {
    && (forall i: nat :: i < n ==>
          Walk(mem', root, PageAt(base, i)).Frame? && Shares(mem', root, PageAt(base, i), root, PageAt(base, i)))
    && forall table: nat, q: Path :: Starts(roles, table, q) ==>
         if SharesAny(mem', root, base, n, table, q) then Walk(mem, table, q) == Unmapped
         else Walk(mem', table, q) == Walk(mem, table, q)
  }

  lemma SharersAgree(mem: Memory, root: nat, path: Path, table: nat, q: Path)
    requires |path| == 4 && q != [] && Shares(mem, root, path, table, q)
    ensures Walk(mem, table, q) == Walk(mem, root, path)
  {
    WalkSplits(mem, table, q);
    WalkSplits(mem, root, path);
  }

  lemma SharesKept(roles: Roles, mem: Memory, mem': Memory, root: nat, path: Path, table: nat, q: Path)
    requires TablesKept(roles, mem, mem') && Starts(roles, table, q) && Starts(roles, root, path) && |path| == 4
    requires Shares(mem, root, path, table, q)
    ensures Shares(mem', root, path, table, q)
  {
  }

  lemma PendingWalk(roles0: Roles, mem0: Memory, roles: Roles, mem: Memory, mem': Memory, root: nat, base: nat, n: nat,
                    phys: nat, table: nat, q: Path)
    requires Pending(roles0, mem0, mem, root, base, n) && RolesKept(roles0, roles)
    requires Bound(roles, mem, mem', root, PageAt(base, n), phys) && TablesKept(roles, mem, mem')
    requires root in roles && roles[root].Table? && roles[root].place == []
    requires Starts(roles0, table, q)
    ensures if SharesAny(mem', root, base, n + 1, table, q) then Walk(mem0, table, q) == Unmapped
            else Walk(mem', table, q) == Walk(mem0, table, q)
  {
    assert Starts(roles, table, q);
    if SharesAny(mem', root, base, n + 1, table, q) {
      var i: nat :| i < n + 1 && Shares(mem', root, PageAt(base, i), table, q);
      if !Shares(mem', root, PageAt(base, n), table, q) {
        assert Starts(roles, root, PageAt(base, i));
        SharersAgree(mem', root, PageAt(base, i), table, q);
        OldSharer(roles, mem, mem', root, PageAt(base, n), phys, PageAt(base, i), table, q);
      }
    } else {
      assert !Shares(mem', root, PageAt(base, n), table, q);
      if SharesAny(mem, root, base, n, table, q) {
        var i: nat :| i < n && Shares(mem, root, PageAt(base, i), table, q);
        SharesKept(roles, mem, mem', root, PageAt(base, i), table, q);
      }
    }
  }

  /** Who shares an earlier page of the run after the step shared it before. */
  lemma OldSharer(roles: Roles, mem: Memory, mem': Memory, root: nat, path: Path, phys: nat, p: Path, table: nat,
                  q: Path)
    requires |path| == 4 && |p| == 4 && Bound(roles, mem, mem', root, path, phys) && TablesKept(roles, mem, mem')
    requires root in roles && roles[root].Table? && roles[root].place == [] && Starts(roles, table, q)
    requires Walk(mem, root, p).Frame? && Shares(mem, root, p, root, p)
    requires Shares(mem', root, p, table, q) && !Shares(mem', root, path, table, q)
    ensures Shares(mem, root, p, table, q)
  {
    assert Starts(roles, root, p);
    SharesKept(roles, mem, mem', root, p, root, p);
    SharersAgree(mem', root, p, table, q);
    assert !Shares(mem', root, path, root, p);
    WalkSplits(mem, table, q);
  }

  lemma PendingStep(roles0: Roles, mem0: Memory, roles: Roles, mem: Memory, mem': Memory, root: nat, base: nat, n: nat,
                    phys: nat)
    requires Pending(roles0, mem0, mem, root, base, n) && RolesKept(roles0, roles)
    requires Bound(roles, mem, mem', root, PageAt(base, n), phys) && TablesKept(roles, mem, mem')
    requires root in roles && roles[root].Table? && roles[root].place == []
    ensures Pending(roles0, mem0, mem', root, base, n + 1)
  {
    forall i: nat | i < n + 1
      ensures Walk(mem', root, PageAt(base, i)).Frame? && Shares(mem', root, PageAt(base, i), root, PageAt(base, i))
    {
      if i < n {
        assert Starts(roles, root, PageAt(base, i));
        SharesKept(roles, mem, mem', root, PageAt(base, i), root, PageAt(base, i));
      }
    }
    forall table: nat, q: Path | Starts(roles0, table, q)
      ensures if SharesAny(mem', root, base, n + 1, table, q) then Walk(mem0, table, q) == Unmapped
              else Walk(mem', table, q) == Walk(mem0, table, q)
    {
      PendingWalk(roles0, mem0, roles, mem, mem', root, base, n, phys, table, q);
    }
  }

  lemma PendingFailed(roles0: Roles, mem0: Memory, roles: Roles, mem: Memory, mem': Memory, root: nat, base: nat,
                      n: nat)
    requires Pending(roles0, mem0, mem, root, base, n) && RolesKept(roles0, roles)
    requires SameWalks(roles, mem, mem') && TablesKept(roles, mem, mem')
    requires root in roles && roles[root].Table? && roles[root].place == []
    ensures Pending(roles0, mem0, mem', root, base, n)
  {
    forall i: nat | i < n
      ensures Walk(mem', root, PageAt(base, i)).Frame? && Shares(mem', root, PageAt(base, i), root, PageAt(base, i))
    {
      assert Starts(roles, root, PageAt(base, i));
      SharesKept(roles, mem, mem', root, PageAt(base, i), root, PageAt(base, i));
    }
    forall table: nat, q: Path | Starts(roles0, table, q)
      ensures if SharesAny(mem', root, base, n, table, q) then Walk(mem0, table, q) == Unmapped
              else Walk(mem', table, q) == Walk(mem0, table, q)
    {
      assert Starts(roles, table, q);
      if SharesAny(mem', root, base, n, table, q) {
        var i: nat :| i < n && Shares(mem', root, PageAt(base, i), table, q);
        SharersAgree(mem', root, PageAt(base, i), table, q);
        assert Starts(roles, root, PageAt(base, i));
        WalkSplits(mem, table, q);
        assert Shares(mem, root, PageAt(base, i), table, q);
      } else if SharesAny(mem, root, base, n, table, q) {
        var i: nat :| i < n && Shares(mem, root, PageAt(base, i), table, q);
        SharesKept(roles, mem, mem', root, PageAt(base, i), table, q);
      }
    }
  }

  /** The sharers of the first `n` pages see nothing any more, every other walk reads as before. */
  ghost predicate Cleared(roles: Roles, mem: Memory, mem': Memory, root: nat, base: nat, n: nat) {
    forall table: nat, q: Path :: Starts(roles, table, q) ==>
      && TableAt(mem', table, Front(q)) == TableAt(mem, table, Front(q))
      && if SharesAny(mem, root, base, n, table, q) then Walk(mem', table, q) == Unmapped
         else Walk(mem', table, q) == Walk(mem, table, q)
  }

  lemma ClearedStep(roles: Roles, mem0: Memory, mem: Memory, mem': Memory, root: nat, base: nat, n: nat,
                    phys: Option<nat>)
    requires Cleared(roles, mem0, mem, root, base, n) && Starts(roles, root, PageAt(base, n))
    requires phys.Some? ==> Unbound(roles, mem, mem', root, PageAt(base, n), phys.value)
    requires phys.None? ==> mem' == mem && !Walk(mem, root, PageAt(base, n)).Frame?
    ensures Cleared(roles, mem0, mem', root, base, n + 1)
  {
    var p := PageAt(base, n);
    forall table: nat, q: Path | Starts(roles, table, q)
      ensures TableAt(mem', table, Front(q)) == TableAt(mem0, table, Front(q))
      ensures if SharesAny(mem0, root, base, n + 1, table, q) then Walk(mem', table, q) == Unmapped
              else Walk(mem', table, q) == Walk(mem0, table, q)
    {
      assert Shares(mem0, root, p, table, q) <==> Shares(mem, root, p, table, q);
      if Shares(mem, root, p, table, q) && phys.None? {
        SharersAgree(mem, root, p, table, q);
        WalkSplits(mem, root, p);
      }
      if SharesAny(mem0, root, base, n + 1, table, q) {
        var i: nat :| i < n + 1 && Shares(mem0, root, PageAt(base, i), table, q);
        assert i < n ==> SharesAny(mem0, root, base, n, table, q);
      }
    }
  }

  /** Clearing what was pending restores every translation. */
  lemma RolledBack(roles0: Roles, mem0: Memory, roles: Roles, mem: Memory, mem': Memory, root: nat, base: nat, n: nat)
    requires Pending(roles0, mem0, mem, root, base, n) && RolesKept(roles0, roles)
    requires Cleared(roles, mem, mem', root, base, n)
    ensures SameWalks(roles0, mem0, mem')
  {
    forall table: nat, q: Path | Starts(roles0, table, q) ensures Walk(mem', table, q) == Walk(mem0, table, q) {
      assert Starts(roles, table, q);
    }
  }

  lemma OneDeeper(mem0: Memory, roles0: Roles, mem: Memory, pool: Pool, roles: Roles, root: nat, path: Path, d: nat,
                  table: nat, next: nat)
    requires TreeOk(mem0, roles0) && Owned(mem, pool, roles) && LinksKept(roles0, mem0, mem) && RolesKept(roles0, roles)
    requires |path| == 4 && d < 3 && root in roles0 && roles0[root].Table? && roles0[root].place == []
    requires TableAt(mem0, root, path[..d]) == Some(table) && IsTable(mem, table)
    requires Next(mem, table, path[d]) == Some(next)
    requires next in roles && roles[next].Table?
    ensures TableAt(mem, root, path[..d + 1]) == Some(next)
  {
    RoleNotPage(mem, pool, roles, next);
    forall t | t in roles0 && roles0[t].Table? ensures IsTable(mem, t) {
      assert TableOk(mem, roles, t);
    }
    LinksKeepTables(roles0, mem0, mem, root, path[..d]);
    TableAtPush(mem, root, path[..d], path[d]);
    assert Below(path[..d], path[d]) == path[..d + 1];
  }

  // ---- Reaching tables ----

  /** One more index on the way down. */
  lemma NextReached(mem: Memory, roles: Roles, root: nat, path: Path, d: nat, table: nat)
    requires TreeOk(mem, roles) && root in roles && roles[root].Table? && roles[root].place == []
    requires d < |path| <= 4 && d < 3 && TableAt(mem, root, path[..d]) == Some(table)
    ensures IsTable(mem, table) && TableAt(mem, root, path[..d + 1]) == Next(mem, table, path[d])
  {
    ReachedRole(mem, roles, root, path[..d]);
    assert TableOk(mem, roles, table) && LinkOk(mem, roles, table, path[d]);
    TableAtPush(mem, root, path[..d], path[d]);
    assert Below(path[..d], path[d]) == path[..d + 1];
  }

  lemma {:induction false} NothingDeeper(mem: Memory, table: nat, path: Path, d: nat)
    requires d <= |path| && TableAt(mem, table, path[..d]).None?
    ensures TableAt(mem, table, path).None?
    decreases d
  {
    if IsTable(mem, table) && d > 0 {
      var next := Next(mem, table, path[0]);
      if next.Some? {
        assert path[..d][1..] == path[1..][..d - 1];
        NothingDeeper(mem, next.value, path[1..], d - 1);
      }
    }
  }

  /** What a root reaches on the way to an address it may touch is its owner's. */
  lemma {:induction false} OwnTable(mem: Memory, roles: Roles, root: nat, path: Path, d: nat)
    requires TreeOk(mem, roles) && MayTouch(roles, root, path) && d <= 3 && TableAt(mem, root, path[..d]).Some?
    ensures IsRole(roles, TableAt(mem, root, path[..d]).value, Table(roles[root].owner, path[..d]))
    decreases d
  {
    if d > 0 {
      if TableAt(mem, root, path[..d - 1]).None? {
        assert path[..d][..d - 1] == path[..d - 1];
        NothingDeeper(mem, root, path[..d], d - 1);
      }
      OwnTable(mem, roles, root, path, d - 1);
      var table := TableAt(mem, root, path[..d - 1]).value;
      NextOnPath(mem, roles, root, path, d - 1, table);
      NextReached(mem, roles, root, path, d - 1, table);
    }
  }

  /** Every table of an owner is found by walking its place from the owner's root. */
  lemma {:induction false} OwnReached(mem: Memory, pool: Pool, roles: Roles, root: nat, q: nat)
    requires Owned(mem, pool, roles) && root in roles && roles[root].Table? && roles[root].place == []
    requires q in roles && roles[q].Table? && roles[q].owner == roles[root].owner
    requires Managed(roles[q].owner, roles[q].place)
    ensures TableAt(mem, root, roles[q].place) == Some(q)
    decreases |roles[q].place|
  {
    RoleNotPage(mem, pool, roles, q);
    var place := roles[q].place;
    if place == [] {
      assert roles[q] == roles[root];
    } else {
      assert AnchorOk(mem, roles, q);
      var p :| IsParent(mem, roles, p, q);
      OwnReached(mem, pool, roles, root, p);
      TableAtPush(mem, root, Front(place), place[|place| - 1]);
      assert Below(Front(place), place[|place| - 1]) == place;
    }
  }

  /** Every data page is what its place translates to. */
  lemma DataReached(mem: Memory, pool: Pool, roles: Roles, root: nat, q: nat)
    requires Owned(mem, pool, roles) && root in roles && roles[root].Table? && roles[root].place == []
    requires q in roles && roles[q].Data? && roles[q].owner == roles[root].owner
    ensures roles[q].place != [] && Walk(mem, root, roles[q].place) == Frame(q)
  {
    var place := roles[q].place;
    assert AnchorOk(mem, roles, q);
    var p :| IsParent(mem, roles, p, q);
    OwnReached(mem, pool, roles, root, p);
    WalkSplits(mem, root, place);
  }

  // ---- Freeing a run ----

  ghost predicate InRun(role: Role, owner: nat, base: nat, n: nat) {
    role.Data? && role.owner == owner && exists i: nat :: i < n && role.place == PageAt(base, i)
  }

  /** The owner's data pages of the run are let go and nothing else changes its use. */
  ghost predicate RunFreed(roles: Roles, roles': Roles, owner: nat, base: nat, n: nat) {
    && (forall q :: q in roles' ==> q in roles)
    && forall q :: q in roles ==>
         if InRun(roles[q], owner, base, n) then q in roles' ==> roles'[q] == Loose
         else q in roles' && roles'[q] == roles[q]
  }

  /** What left the roles is free now, and nothing else. */
  ghost predicate Returned(pool: Pool, roles: Roles, pool': Pool, roles': Roles) {
    forall x :: IsFree(pool', x) <==> IsFree(pool, x) || (x in roles && x !in roles')
  }

  lemma AccountedReturned(pages: iset<nat>, pool: Pool, roles: Roles, pool': Pool, roles': Roles)
    requires Accounted(pages, pool, roles) && Returned(pool, roles, pool', roles') && forall x :: x in roles' ==>
      x in roles
    ensures Accounted(pages, pool', roles')
  {
  }

  /** All of the run was returned, but for page 0. */
  ghost predicate AllReturned(roles: Roles, roles': Roles, owner: nat, base: nat, n: nat) {
    forall q :: q in roles && q != 0 && InRun(roles[q], owner, base, n) ==> q !in roles'
  }

  /** What one unmapped page does to the roles: nothing, let go and kept, or freed. */
  ghost predicate PageLetGo(roles: Roles, roles': Roles, role: Role, phys: Option<nat>) {
    && (phys.Some? ==> IsRole(roles, phys.value, role))
    && (forall q :: q in roles && roles[q] == role ==> phys == Some(q))
    && (phys.None? ==> roles' == roles)
    && (phys.Some? ==> roles' == roles[phys.value := Loose] || roles' == roles[phys.value := Loose] - {phys.value})
  }

  lemma RunFreedStep(roles0: Roles, roles: Roles, roles': Roles, owner: nat, base: nat, n: nat, phys: Option<nat>)
    requires RunFreed(roles0, roles, owner, base, n) && PageLetGo(roles, roles', Data(owner, PageAt(base, n)), phys)
    ensures RunFreed(roles0, roles', owner, base, n + 1)
    ensures AllReturned(roles0, roles, owner, base, n) && (phys.Some? && phys.value != 0 ==> phys.value !in roles') ==>
      AllReturned(roles0, roles', owner, base, n + 1)
  {
    forall q | q in roles0
      ensures if InRun(roles0[q], owner, base, n + 1) then q in roles' ==> roles'[q] == Loose
              else q in roles' && roles'[q] == roles0[q]
      ensures (AllReturned(roles0, roles, owner, base, n) && (phys.Some? && phys.value != 0 ==> phys.value !in roles')
               && InRun(roles0[q], owner, base, n + 1) && q != 0) ==> q !in roles'
    {
      if InRun(roles0[q], owner, base, n + 1) && !InRun(roles0[q], owner, base, n) {
        var i: nat :| i < n + 1 && roles0[q].place == PageAt(base, i);
        assert roles[q] == Data(owner, PageAt(base, n));
      } else if InRun(roles0[q], owner, base, n) {
        var i: nat :| i < n && roles0[q].place == PageAt(base, i);
      } else if phys == Some(q) {
        assert InRun(roles0[q], owner, base, n + 1);
      }
    }
  }

  lemma ReturnedChain(p0: Pool, r0: Roles, p1: Pool, r1: Roles, p2: Pool, r2: Roles)
    requires Returned(p0, r0, p1, r1) && Returned(p1, r1, p2, r2) && r1.Keys <= r0.Keys && r2.Keys <= r1.Keys
    ensures Returned(p0, r0, p2, r2)
  {
  }

  lemma RunFreedStarts(roles: Roles, roles': Roles, root: nat, owner: nat, base: nat, n: nat, path: Path)
    requires RunFreed(roles, roles', owner, base, n) && MayTouch(roles, root, path)
    ensures MayTouch(roles', root, path) && roles'[root] == roles[root] && roles'.Keys <= roles.Keys
  {
  }

  lemma ClearedOn(roles0: Roles, roles: Roles, mem0: Memory, mem: Memory, mem': Memory, root: nat, base: nat, n: nat,
                  phys: Option<nat>)
    requires Cleared(roles0, mem0, mem, root, base, n) && Starts(roles0, root, PageAt(base, n))
    requires forall t :: t in roles0 && roles0[t].Table? ==> t in roles && roles[t] == roles0[t]
    requires phys.Some? ==> Unbound(roles, mem, mem', root, PageAt(base, n), phys.value)
    requires phys.None? ==> mem' == mem && !Walk(mem, root, PageAt(base, n)).Frame?
    ensures Cleared(roles0, mem0, mem', root, base, n + 1)
  {
    if phys.Some? {
      forall table: nat, q: Path | Starts(roles0, table, q)
        ensures TableAt(mem', table, Front(q)) == TableAt(mem, table, Front(q))
        ensures if Shares(mem, root, PageAt(base, n), table, q)
                then Walk(mem, table, q) == Frame(phys.value) && Walk(mem', table, q) == Unmapped
                else Walk(mem', table, q) == Walk(mem, table, q)
      {
        assert Starts(roles, table, q);
      }
    }
    ClearedStep(roles0, mem0, mem, mem', root, base, n, phys);
  }

  /** The first `n` pages of a run are unmapped and returned: no other translation, page or use changes. */
  ghost predicate Emptied(mem0: Memory, pool0: Pool, roles0: Roles, mem: Memory, pool: Pool, roles: Roles,
                          root: nat, base: nat, n: nat)
    requires IsTableRole(roles0, root, [])
  {
    && Cleared(roles0, mem0, mem, root, base, n)
    && RunFreed(roles0, roles, roles0[root].owner, base, n)
    && Returned(pool0, roles0, pool, roles)
    && (|pool.stack| < STACK_MAX ==> AllReturned(roles0, roles, roles0[root].owner, base, n))
  }

  /** What one round of unmap_user_pages does. */
  ghost predicate PageReleased(mem: Memory, pool: Pool, roles: Roles, mem': Memory, pool': Pool, roles': Roles,
                               root: nat, path: Path, phys: Option<nat>)
    requires |path| == 4 && IsTableRole(roles, root, [])
  {
    && (phys.Some? ==> Unbound(roles, mem, mem', root, path, phys.value))
    && (phys.None? ==> mem' == mem && !Walk(mem, root, path).Frame?)
    && PageLetGo(roles, roles', Data(roles[root].owner, path), phys)
    && Returned(pool, roles, pool', roles')
    && (phys.Some? && phys.value != 0 ==> (phys.value !in roles' <==> |pool.stack| < STACK_MAX))
    && |pool.stack| <= |pool'.stack|
  }

  lemma ReleasedOne(mem: Memory, pool: Pool, roles: Roles, mem': Memory, pool': Pool, roles': Roles,
                 root: nat, path: Path, phys: Option<nat>, freed: bool)
    requires |path| == 4 && IsTableRole(roles, root, []) && InUse(pool, roles)
    requires forall q :: q in roles && roles[q] == Data(roles[root].owner, path) ==> Walk(mem, root, path) == Frame(q)
    requires phys.None? ==> !Walk(mem, root, path).Frame? && mem' == mem && pool' == pool && roles' == roles
    requires phys.Some? ==> Unbound(roles, mem, mem', root, path, phys.value)
    requires phys.Some? ==> IsRole(roles, phys.value, Data(roles[root].owner, path))
    requires phys.Some? && phys.value != 0 ==> (pool', freed) == Give(pool, phys.value)
    requires phys.Some? && phys.value == 0 ==> pool' == pool && !freed
    requires phys.Some? ==>
      roles' == if freed then roles[phys.value := Loose] - {phys.value} else roles[phys.value := Loose]
    ensures PageReleased(mem, pool, roles, mem', pool', roles', root, path, phys)
  {
    if phys.Some? {
      GiveExact(pool, phys.value);
      forall x ensures IsFree(pool', x) <==> IsFree(pool, x) || (x in roles && x !in roles') {
      }
    }
  }

  lemma EmptiedTouch(mem0: Memory, pool0: Pool, roles0: Roles, mem: Memory, pool: Pool, roles: Roles,
                     root: nat, base: nat, n: nat, path: Path)
    requires MayTouch(roles0, root, path)
    requires Emptied(mem0, pool0, roles0, mem, pool, roles, root, base, n)
    ensures MayTouch(roles, root, path) && roles[root] == roles0[root]
  {
    RunFreedStarts(roles0, roles, root, roles0[root].owner, base, n, path);
  }

  lemma EmptiedStep(mem0: Memory, pool0: Pool, roles0: Roles, mem: Memory, pool: Pool, roles: Roles,
                    mem': Memory, pool': Pool, roles': Roles, root: nat, base: nat, n: nat, phys: Option<nat>)
    requires IsTableRole(roles0, root, []) && MayTouch(roles0, root, PageAt(base, n))
    requires Emptied(mem0, pool0, roles0, mem, pool, roles, root, base, n)
    requires IsTableRole(roles, root, [])
    requires PageReleased(mem, pool, roles, mem', pool', roles', root, PageAt(base, n), phys)
    ensures Emptied(mem0, pool0, roles0, mem', pool', roles', root, base, n + 1)
    ensures IsTableRole(roles', root, [])
  {
    RunFreedStarts(roles0, roles, root, roles0[root].owner, base, n, PageAt(base, n));
    ClearedOn(roles0, roles, mem0, mem, mem', root, base, n, phys);
    RunFreedStep(roles0, roles, roles', roles0[root].owner, base, n, phys);
    ReturnedChain(pool0, roles0, pool, roles, pool', roles');
  }

  lemma LeafKeepsTables(mem: Memory, roles: Roles, pt: nat, i: nat, e: nat)
    requires TreeOk(mem, roles) && pt in roles && roles[pt].Table? && |roles[pt].place| == 3 && i < ENTRIES
    requires IsTable(mem, pt)
    ensures TablesKept(roles, mem, Put(mem, pt, i, e))
  {
    forall table: nat, q: Path | Starts(roles, table, q) && TableAt(mem, table, Front(q)).Some?
      ensures TableAt(Put(mem, pt, i, e), table, Front(q)) == TableAt(mem, table, Front(q))
    {
      LeafWrite(mem, roles, pt, i, e, table, q);
    }
  }

  /** Adding tables first does not change what a binding does. */
  lemma BoundFrom(roles0: Roles, roles1: Roles, mem0: Memory, mem1: Memory, mem: Memory, root: nat, path: Path,
                  phys: nat)
    requires |path| == 4 && RolesKept(roles0, roles1) && SameWalks(roles0, mem0, mem1)
    requires Bound(roles1, mem1, mem, root, path, phys)
    ensures Bound(roles0, mem0, mem, root, path, phys)
  {
    forall table: nat, q: Path | Starts(roles0, table, q)
      ensures if Shares(mem, root, path, table, q)
              then Walk(mem0, table, q) == Unmapped && Walk(mem, table, q) == Frame(phys)
              else Walk(mem, table, q) == Walk(mem0, table, q)
    {
      assert Starts(roles1, table, q);
    }
  }

  /** map_page succeeded: the loose page is the data page of the address, and only tables were added besides. */
  ghost predicate MappedOne(mem: Memory, roles: Roles, mem': Memory, roles': Roles, root: nat, path: Path, phys: nat)
    requires |path| == 4 && IsTableRole(roles, root, [])
  {
    && Bound(roles, mem, mem', root, path, phys)
    && TablesKept(roles, mem, mem') && PagesKept(roles, mem, mem')
    && IsRole(roles', phys, Data(roles[root].owner, path))
    && OnlyTablesAdded(roles, roles'[phys := Loose])
  }

  lemma FilledIn(mem: Memory, roles: Roles, root: nat, path: Path, pt: nat, phys: nat)
    requires TreeOk(mem, roles) && MayTouch(roles, root, path) && IsRole(roles, phys, Loose) && IsPage(phys)
    requires IsRole(roles, pt, Table(roles[root].owner, path[..3])) && TableAt(mem, root, path[..3]) == Some(pt)
    requires IsLeafTable(mem, roles, pt) && !Present(mem[pt][path[3]])
    ensures MappedOne(mem, roles, Put(mem, pt, path[3], MakeEntry(phys, PRESENT + WRITABLE)),
                      roles[phys := Data(roles[root].owner, path)], root, path, phys)
  {
    assert Front(path) == path[..3];
    BindsExactly(mem, roles, root, path, pt, phys);
    LeafKeepsTables(mem, roles, pt, path[3], MakeEntry(phys, PRESENT + WRITABLE));
  }

  lemma MappedAfterTables(mem0: Memory, roles0: Roles, mem1: Memory, roles1: Roles, mem: Memory, roles: Roles,
                          root: nat, path: Path, phys: nat)
    requires |path| == 4 && IsTableRole(roles0, root, []) && IsRole(roles0, phys, Loose)
    requires TablesAdded(mem0, roles0, mem1, roles1)
    requires IsTableRole(roles1, root, []) && MappedOne(mem1, roles1, mem, roles, root, path, phys)
    ensures MappedOne(mem0, roles0, mem, roles, root, path, phys)
  {
    TablesKeptChain(roles0, roles1, mem0, mem1, mem);
    BoundFrom(roles0, roles1, mem0, mem1, mem, root, path, phys);
  }

  // ---- Mapping a run of fresh pages ----

  /** One round of map_user_pages succeeded: a fresh zeroed page is mapped. */
  ghost predicate FreshMapped(mem: Memory, roles: Roles, mem': Memory, roles': Roles, root: nat, path: Path, phys: nat)
    requires |path| == 4 && IsTableRole(roles, root, [])
  {
    && phys !in roles && phys in mem' && mem'[phys] == Zeroed()
    && IsRole(roles', phys, Data(roles[root].owner, path))
    && Bound(roles, mem, mem', root, path, phys)
    && TablesKept(roles, mem, mem') && PagesKept(roles, mem, mem') && RolesKept(roles, roles')
    && forall q :: q in roles' && q !in roles && q != phys ==> IsInner(roles'[q])
  }

  lemma FreshMappedFrom(mem0: Memory, roles0: Roles, mem1: Memory, mem: Memory, roles: Roles, root: nat, path: Path,
                        phys: nat)
    requires |path| == 4 && IsTableRole(roles0, root, []) && phys !in roles0
    requires Quiet(roles0, mem0, mem1) && mem1 == mem0[phys := Zeroed()]
    requires MappedOne(mem1, roles0[phys := Loose], mem, roles, root, path, phys)
    ensures FreshMapped(mem0, roles0, mem, roles, root, path, phys)
  {
    var roles1 := roles0[phys := Loose];
    TablesKeptChain(roles0, roles1, mem0, mem1, mem);
    BoundFrom(roles0, roles1, mem0, mem1, mem, root, path, phys);
    assert IsRole(roles1, phys, Loose);
    forall q | q in roles0 ensures q in roles && roles[q] == roles0[q] {
      assert q in roles1 && roles1[q] == roles0[q];
    }
    forall q | q in roles0 && !roles0[q].Table? && q in mem0 ensures q in mem && mem[q] == mem0[q] {
      assert q in roles1 && !roles1[q].Table? && q in mem1;
    }
    forall q | q in roles && q !in roles0 && q != phys ensures IsInner(roles[q]) {
      assert q in roles[phys := Loose] && q !in roles1;
    }
    assert Bound(roles0, mem0, mem, root, path, phys);
  }

  /** New pages are tables, or are held for good because the stack is full or because they are page 0. */
  ghost predicate NoneLost(pool: Pool, roles: Roles, roles': Roles) {
    && RolesKept(roles, roles')
    && forall q :: q in roles' && q !in roles ==>
         IsInner(roles'[q]) || (roles'[q].Loose? && (q == 0 || |pool.stack| >= STACK_MAX))
  }

  lemma NotMapped(roles0: Roles, page: nat, roles: Roles, pool: Pool, pool': Pool, given: bool)
    requires page !in roles0 && OnlyTablesAdded(roles0[page := Loose], roles) && (pool', given) == Give(pool, page)
    requires IsPage(page)
    ensures NoneLost(pool', roles0, if given then roles - {page} else roles)
  {
    var roles1 := roles0[page := Loose];
    forall q | q in roles0 ensures q in roles && roles[q] == roles0[q] {
      assert q in roles1 && roles1[q] == roles0[q];
    }
    forall q | q in roles && q !in roles0 && q != page ensures IsInner(roles[q]) {
      assert q !in roles1;
    }
    assert page in roles1;
  }

  /** The page of the run is mapped to a fresh zeroed frame. */
  ghost predicate FreshAt(roles0: Roles, mem: Memory, roles: Roles, root: nat, owner: nat, path: Path)
    requires |path| == 4
  {
    var x := Walk(mem, root, path);
    && x.Frame? && x.page !in roles0 && IsRole(roles, x.page, Data(owner, path))
    && x.page in mem && mem[x.page] == Zeroed()
  }

  /** map_user_pages after `n` rounds. */
  ghost predicate RunMapped(mem0: Memory, roles0: Roles, mem: Memory, roles: Roles, root: nat, base: nat, n: nat)
    requires IsTableRole(roles0, root, [])
  {
    && RolesKept(roles0, roles)
    && Pending(roles0, mem0, mem, root, base, n)
    && (forall i: nat :: i < n ==> FreshAt(roles0, mem, roles, root, roles0[root].owner, PageAt(base, i)))
    && forall q :: q in roles && q !in roles0 ==> IsInner(roles[q]) || InRun(roles[q], roles0[root].owner, base, n)
  }

  lemma FreshKept(roles0: Roles, mem: Memory, roles: Roles, mem': Memory, roles': Roles, root: nat, path: Path,
                  path': Path, phys: nat)
    requires |path| == 4 && |path'| == 4 && IsTableRole(roles, root, [])
    requires FreshAt(roles0, mem, roles, root, roles[root].owner, path)
    requires FreshMapped(mem, roles, mem', roles', root, path', phys)
    ensures FreshAt(roles0, mem', roles', root, roles[root].owner, path)
  {
    assert Starts(roles, root, path);
  }

  lemma RunMappedStep(mem0: Memory, roles0: Roles, mem: Memory, roles: Roles, mem': Memory, roles': Roles,
                      root: nat, base: nat, n: nat, phys: nat)
    requires IsTableRole(roles0, root, []) && IsTableRole(roles, root, [])
    requires RunMapped(mem0, roles0, mem, roles, root, base, n)
    requires FreshMapped(mem, roles, mem', roles', root, PageAt(base, n), phys)
    ensures RunMapped(mem0, roles0, mem', roles', root, base, n + 1)
  {
    PendingStep(roles0, mem0, roles, mem, mem', root, base, n, phys);
    var owner := roles0[root].owner;
    forall i: nat | i < n + 1 ensures FreshAt(roles0, mem', roles', root, owner, PageAt(base, i)) {
      if i < n {
        FreshKept(roles0, mem, roles, mem', roles', root, PageAt(base, i), PageAt(base, n), phys);
      }
    }
    forall q | q in roles' && q !in roles0 ensures roles'[q].Table? || InRun(roles'[q], owner, base, n + 1) {
      if q in roles && !roles[q].Table? {
        var i: nat :| i < n && roles[q].place == PageAt(base, i);
      }
    }
  }

  lemma NothingMapped(mem: Memory, roles: Roles, root: nat, base: nat)
    requires IsTableRole(roles, root, [])
    ensures RunMapped(mem, roles, mem, roles, root, base, 0)
  {
  }

  /** The run does not wrap around the 48-bit address space and nothing is mapped there. */
  ghost predicate RunVacant(mem: Memory, root: nat, base: nat, n: nat) {
    n <= Limit(4) && forall i: nat :: i < n ==> Walk(mem, root, PageAt(base, i)) == Unmapped
  }

  /** A page of the run that was free at the start is still free when its turn comes. */
  lemma NextStillFree(mem0: Memory, roles0: Roles, mem: Memory, roles: Roles, root: nat, base: nat, n: nat, pages: nat)
    requires TreeOk(mem, roles) && IsTableRole(roles0, root, []) && IsTableRole(roles, root, [])
    requires RunMapped(mem0, roles0, mem, roles, root, base, n)
    requires n < pages && base % PAGE_SIZE == 0 && RunVacant(mem0, root, base, pages)
    ensures Walk(mem, root, PageAt(base, n)) == Unmapped
  {
    var q := PageAt(base, n);
    assert Starts(roles0, root, q);
    if SharesAny(mem, root, base, n, root, q) {
      var i: nat :| i < n && Shares(mem, root, PageAt(base, i), root, q);
      ReachedRole(mem, roles, root, Front(q));
      ReachedRole(mem, roles, root, Front(PageAt(base, i)));
      assert roles[root].place + Front(q) == Front(q);
      assert roles[root].place + Front(PageAt(base, i)) == Front(PageAt(base, i));
      assert q == Front(q) + [q[3]] && PageAt(base, i) == Front(PageAt(base, i)) + [PageAt(base, i)[3]];
      PagesDistinct(base, i, n);
    }
  }

  lemma PagesDistinct(base: nat, i: nat, j: nat)
    requires i < j < i + Limit(4) && base % PAGE_SIZE == 0
    ensures PageAt(base, i) != PageAt(base, j)
  {
    var b := base / PAGE_SIZE;
    assert base == b * PAGE_SIZE;
    assert base + i * PAGE_SIZE == (b + i) * PAGE_SIZE && base + j * PAGE_SIZE == (b + j) * PAGE_SIZE;
    if PageAt(base, i) == PageAt(base, j) {
      DigitsInjective(b + i, b + j, 4);
    }
  }

  /** Undoing a run that could not be finished: translations as before, no data page left behind. */
  lemma RunUndone(mem0: Memory, pool0: Pool, roles0: Roles, mem1: Memory, roles1: Roles, mem2: Memory, pool2: Pool,
                  roles2: Roles, mem: Memory, pool: Pool, roles: Roles, root: nat, base: nat, n: nat)
    requires Owned(mem0, pool0, roles0) && IsTableRole(roles0, root, []) && IsTableRole(roles2, root, [])
    requires RunMapped(mem0, roles0, mem1, roles1, root, base, n) && IsTableRole(roles1, root, [])
    requires Quiet(roles1, mem1, mem2) && NoneLost(pool2, roles1, roles2)
    requires Emptied(mem2, pool2, roles2, mem, pool, roles, root, base, n) && |pool2.stack| <= |pool.stack|
    ensures SameWalks(roles0, mem0, mem) && NoneLost(pool, roles0, roles)
  {
    PendingFailed(roles0, mem0, roles1, mem1, mem2, root, base, n);
    RolledBack(roles0, mem0, roles2, mem2, mem, root, base, n);
    forall q | q in roles0 ensures q in roles && roles[q] == roles0[q] {
      if InRun(roles0[q], roles0[root].owner, base, n) {
        DataReached(mem0, pool0, roles0, root, q);
        var i: nat :| i < n && roles0[q].place == PageAt(base, i);
        assert Starts(roles0, root, PageAt(base, i));
        assert SharesAny(mem1, root, base, n, root, PageAt(base, i));
        assert false;
      }
    }
  }
}
