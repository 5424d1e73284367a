/** Returning a known set of pages in a fixed order, each exactly once. */
module PageReturn {
  import opened PageTables
  import opened PhysPages
  import opened PageOwners
  import opened Mappings
  import opened AddressSpaces

  /** The rank of the first page under directory entry `d`. */
  function FirstOf(d: nat): nat {
    d * (ENTRIES + 1)
  }

  /** Bottom pages before their table, page tables by directory entry, then the tables above. */
  function Rank(place: Path): nat {
    if |place| == 4 then place[2] * (ENTRIES + 1) + place[3]
    else if |place| == 3 then place[2] * (ENTRIES + 1) + ENTRIES
    else ENTRIES * (ENTRIES + 1) + 2 - |place|
  }

  const ALL_RANKS := ENTRIES * (ENTRIES + 1) + 3

  lemma RankBound(place: Path)
    ensures Rank(place) < ALL_RANKS
    ensures |place| >= 3 ==> FirstOf(place[2]) <= Rank(place) < FirstOf(place[2] + 1)
    ensures |place| < 3 ==> Rank(place) == FirstOf(ENTRIES) + 2 - |place|
  {
  }

  /** Pages of `gone` up to rank `n` are given back, or stay behind because the stack is full; the others are
      held loose and nothing else changed. */
  ghost predicate GivenBack(pool0: Pool, roles0: Roles, gone: set<nat>, pool: Pool, roles: Roles, n: nat) {
    && (forall x :: x in gone ==> x in roles0 && !roles0[x].Loose?)
    && (forall x :: x in roles ==> x in roles0)
    && (forall x :: x in roles0 && x !in gone ==> x in roles && roles[x] == roles0[x])
    && (forall x :: x in gone ==>
          if Rank(roles0[x].place) < n then (x in roles ==> roles[x].Loose?)
              && (|pool.stack| < STACK_MAX ==> x !in roles)
          else IsRole(roles, x, Loose))
    && Returned(pool0, roles0, pool, roles) && InUse(pool, roles) && |pool0.stack| <= |pool.stack|
  }

  lemma NothingGivenBack(pool: Pool, roles: Roles, gone: set<nat>)
    requires InUse(pool, roles) && forall x :: x in gone ==> x in roles && !roles[x].Loose?
    ensures GivenBack(pool, roles, gone, pool, Loosened(roles, gone), 0)
  {
  }

  lemma SkipRanks(pool0: Pool, roles0: Roles, gone: set<nat>, pool: Pool, roles: Roles, n: nat, m: nat)
    requires GivenBack(pool0, roles0, gone, pool, roles, n) && n <= m
    requires forall x :: x in gone ==> !(n <= Rank(roles0[x].place) < m)
    ensures GivenBack(pool0, roles0, gone, pool, roles, m)
  {
  }

  /** The only page of rank `n`. */
  ghost predicate OnlyAt(roles0: Roles, gone: set<nat>, n: nat, page: nat)
    requires forall x :: x in gone ==> x in roles0 && !roles0[x].Loose?
  {
    && page in gone && Rank(roles0[page].place) == n
    && forall x :: x in gone && Rank(roles0[x].place) == n ==> x == page
  }

  lemma OneGivenBack(pool0: Pool, roles0: Roles, gone: set<nat>, pool: Pool, roles: Roles, pool': Pool, given: bool,
                     n: nat, page: nat)
    requires GivenBack(pool0, roles0, gone, pool, roles, n) && OnlyAt(roles0, gone, n, page)
    requires (pool', given) == Give(pool, page)
    ensures GivenBack(pool0, roles0, gone, pool', if given then roles - {page} else roles, n + 1)
  {
    GiveExact(pool, page);
  }

  /** free_phys_page, for a page of the set. */
  method GivePage(vm: Vm, page: nat, ghost pool0: Pool, ghost roles0: Roles, ghost gone: set<nat>, ghost n: nat)
    requires GivenBack(pool0, roles0, gone, vm.pool, vm.roles, n) && OnlyAt(roles0, gone, n, page)
    modifies vm`pool, vm`roles
    ensures GivenBack(pool0, roles0, gone, vm.pool, vm.roles, n + 1)
  {
    var (more, given) := Give(vm.pool, page);
    OneGivenBack(pool0, roles0, gone, vm.pool, vm.roles, more, given, n, page);
    vm.roles := if given then vm.roles - {page} else vm.roles;
    vm.pool := more;
  }

  /** Letting pages go and returning them keeps exact ownership. */
  lemma ReturnedOwned(mem: Memory, pool0: Pool, roles0: Roles, gone: set<nat>, pool: Pool, roles: Roles, n: nat)
    requires Owned(mem, pool0, Loosened(roles0, gone)) && GivenBack(pool0, roles0, gone, pool, roles, n)
    ensures Owned(mem, pool, roles)
  {
    LooseGoneOwned(mem, pool0, Loosened(roles0, gone), pool, roles);
  }

  /** Every page of the set is returned once, or is held for good because the stack is full; no other page
      changed its use. */
  ghost predicate Released(pool0: Pool, roles0: Roles, gone: set<nat>, pool: Pool, roles: Roles) {
    && (forall x :: x in gone ==> x in roles0 && !roles0[x].Loose?)
    && (forall x :: x in roles ==> x in roles0)
    && (forall x :: x in roles0 && x !in gone ==> x in roles && roles[x] == roles0[x])
    && (forall x :: x in gone && x in roles ==> roles[x] == Loose)
    && (|pool.stack| < STACK_MAX ==> forall x :: x in gone ==> x !in roles)
    && Returned(pool0, roles0, pool, roles) && |pool0.stack| <= |pool.stack|
  }

  lemma ReleasedAccounts(pages: iset<nat>, pool0: Pool, roles0: Roles, gone: set<nat>, pool: Pool, roles: Roles)
    requires Released(pool0, roles0, gone, pool, roles) && Accounted(pages, pool0, roles0)
    ensures Accounted(pages, pool, roles)
  {
    hide Accounted;
    AccountedReturned(pages, pool0, roles0, pool, roles);
  }

  lemma AllGivenBack(pool0: Pool, roles0: Roles, gone: set<nat>, pool: Pool, roles: Roles)
    requires GivenBack(pool0, roles0, gone, pool, roles, ALL_RANKS)
    ensures Released(pool0, roles0, gone, pool, roles)
  {
    forall x | x in gone ensures Rank(roles0[x].place) < ALL_RANKS {
      RankBound(roles0[x].place);
    }
  }

  lemma ReleasedChain(pool0: Pool, roles0: Roles, a: set<nat>, pool1: Pool, roles1: Roles, b: set<nat>, pool: Pool,
                      roles: Roles)
    requires Released(pool0, roles0, a, pool1, roles1) && Released(pool1, roles1, b, pool, roles)
    ensures Released(pool0, roles0, a + b, pool, roles)
  {
    ReturnedChain(pool0, roles0, pool1, roles1, pool, roles);
  }
}
