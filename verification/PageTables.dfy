/** The four-level radix tree (Intel SDM Vol. 3A, section 4.5) as a value: tables are pages of 512
    entries, an address is its list of four indices, and every table page has one known place. */
module PageTables {
  import opened Common

  const PAGE_SIZE := 4096
  const ENTRIES := 512
  const ADDR_FRAMES := 0x100_0000_0000  // 2^40 frames: bits 12..51 of an entry
  const PRESENT := 1
  const WRITABLE := 2

  predicate Present(e: nat) { e % 2 == 1 }

  predicate Huge(e: nat) { e / 128 % 2 == 1 }

  function Addr(e: nat): nat { e / PAGE_SIZE % ADDR_FRAMES * PAGE_SIZE }

  predicate IsPage(page: nat) {
    page % PAGE_SIZE == 0 && page < ADDR_FRAMES * PAGE_SIZE
  }

  /** (page & ADDR_MASK) | flags, for flags below the page offset. */
  function MakeEntry(page: nat, flags: nat): nat
    requires flags < PAGE_SIZE
  {
    Addr(page) + flags
  }

  lemma MadeEntry(page: nat)
    requires IsPage(page)
    ensures var e := MakeEntry(page, PRESENT + WRITABLE); Present(e) && !Huge(e) && Addr(e) == page
  {
    var k := page / PAGE_SIZE;
    assert page == PAGE_SIZE * k && k < ADDR_FRAMES;
    assert k % ADDR_FRAMES == k;
    var e := PAGE_SIZE * k + 3;
    assert MakeEntry(page, PRESENT + WRITABLE) == e;
    assert e / 128 == 32 * k && e % 2 == 1 && e / PAGE_SIZE == k;
  }

  type Memory = map<nat, seq<nat>>

  function Zeroed(): (s: seq<nat>)
    ensures |s| == ENTRIES && forall i :: 0 <= i < ENTRIES ==> s[i] == 0
  {
    seq(ENTRIES, i requires i >= 0 => 0)
  }

  type Path = p: seq<nat> | |p| <= 4 && forall i :: 0 <= i < |p| ==> p[i] < ENTRIES witness []

  predicate IsTable(mem: Memory, page: nat) {
    page in mem && |mem[page]| == ENTRIES
  }

  /** Memory after one entry is written. */
  function Put(mem: Memory, page: nat, i: nat, e: nat): Memory {
    if IsTable(mem, page) && i < ENTRIES then
      var row: seq<nat> := mem[page][i := e];
      mem[page := row]
    else mem
  }

  /** table_entry_address: the table an entry points to; None if absent or a large page. */
  function Next(mem: Memory, table: nat, index: nat): Option<nat>
    requires IsTable(mem, table) && index < ENTRIES
  {
    var e := mem[table][index];
    if !Present(e) || Huge(e) then None else Some(Addr(e))
  }

  /** What an address translates to. */
  datatype Xlat = Unmapped | Frame(page: nat) | Large(entry: nat, level: nat)

  /** The hardware walk from `table` along the remaining indices. */
  function Walk(mem: Memory, table: nat, path: Path): Xlat
    requires path != []
    decreases |path|
  {
    if !IsTable(mem, table) then Unmapped
    else
      var e := mem[table][path[0]];
      if !Present(e) then Unmapped
      else if |path| == 1 then Frame(Addr(e))
      else if Huge(e) then Large(e, |path|)
      else Walk(mem, Addr(e), path[1..])
  }

  /** What a bottom-level entry says. */
  function Leaf(mem: Memory, pt: nat, i: nat): Xlat
    requires IsTable(mem, pt) && i < ENTRIES
  {
    var e := mem[pt][i];
    if Present(e) then Frame(Addr(e)) else Unmapped
  }

  /** The table reached from `table` along `path`. */
  function TableAt(mem: Memory, table: nat, path: Path): Option<nat>
    decreases |path|
  {
    if !IsTable(mem, table) then None
    else if path == [] then Some(table)
    else
      var next := Next(mem, table, path[0]);
      if next.None? then None else TableAt(mem, next.value, path[1..])
  }

  // ---- Addresses ----

  /** The low `n` base-512 digits, most significant first. */
  function Digits(v: nat, n: nat): (p: Path)
    requires n <= 4
    ensures |p| == n
  {
    if n == 0 then [] else Digits(v / ENTRIES, n - 1) + [v % ENTRIES]
  }

  /** The four table indices of a virtual address. */
  function PathOf(virt: nat): (p: Path)
    ensures |p| == 4
  {
    Digits(virt / PAGE_SIZE, 4)
  }

  /** They are bits 39..47, 30..38, 21..29 and 12..20. */
  lemma PathOfBits(virt: nat)
    ensures PathOf(virt) == [virt / 0x80_0000_0000 % ENTRIES, virt / 0x4000_0000 % ENTRIES, virt / 0x20_0000 % ENTRIES,
                             virt / 0x1000 % ENTRIES]
  {
    Quotients(virt);
    var v := virt / PAGE_SIZE;
    assert Digits(v, 4) == Digits(v / ENTRIES, 3) + [v % ENTRIES];
    assert Digits(v / ENTRIES, 3) == Digits(v / ENTRIES / ENTRIES, 2) + [v / ENTRIES % ENTRIES];
    assert Digits(v / ENTRIES / ENTRIES, 2) == Digits(v / ENTRIES / ENTRIES / ENTRIES, 1)
        + [v / ENTRIES / ENTRIES % ENTRIES];
  }

  lemma Quotients(virt: nat)
    ensures virt / PAGE_SIZE / ENTRIES == virt / 0x20_0000
    ensures virt / PAGE_SIZE / ENTRIES / ENTRIES == virt / 0x4000_0000
    ensures virt / PAGE_SIZE / ENTRIES / ENTRIES / ENTRIES == virt / 0x80_0000_0000
  {
  }

  /** Numbers closer together than 512^n have different digits. */
  lemma {:induction false} DigitsInjective(v: nat, w: nat, n: nat)
    requires n <= 4 && Digits(v, n) == Digits(w, n) && v < w + Limit(n) && w < v + Limit(n)
    ensures v == w
  {
    if n > 0 {
      var a, b := Digits(v / ENTRIES, n - 1), Digits(w / ENTRIES, n - 1);
      assert a == Digits(v, n)[..n - 1] && b == Digits(w, n)[..n - 1];
      assert v % ENTRIES == Digits(v, n)[n - 1] && w % ENTRIES == Digits(w, n)[n - 1];
      DigitsInjective(v / ENTRIES, w / ENTRIES, n - 1);
    }
  }

  function Limit(n: nat): nat {
    if n == 0 then 1 else ENTRIES * Limit(n - 1)
  }

  // ---- Places ----

  /** What an allocated page is for. Tables and data pages have an owner (0 is the kernel) and a place;
      a loose page is held by running code and mapped nowhere it knows of. */
  datatype Role = Table(owner: nat, place: Path) | Data(owner: nat, place: Path) | Loose

  type Roles = map<nat, Role>

  predicate IsTableRole(roles: Roles, page: nat, place: Path) {
    page in roles && roles[page].Table? && roles[page].place == place
  }

  /** Top-level entries from here on cover the half of the address space the kernel maps itself. */
  const SHARED_TOP := 256

  /** Places of the tables that serve the program-image window 0x200000..0x9000000. */
  predicate OnImagePath(place: Path) {
    place == [0] || place == [0, 0] || (|place| == 3 && place[..2] == [0, 0] && 1 <= place[2] < 72)
  }

  /** A present entry of an upper table leads to the table of the place below it, of the same owner or,
      off the image path, the kernel's; what the kernel maps itself has no large pages. */
  ghost predicate LinkOk(mem: Memory, roles: Roles, page: nat, i: nat)
    requires page in roles && roles[page].Table? && |roles[page].place| < 3 && IsTable(mem, page) && i < ENTRIES
  {
    var r := roles[page];
    var next := Next(mem, page, i);
    && (next.Some? ==>
          && IsTableRole(roles, next.value, r.place + [i])
          && (roles[next.value].owner == r.owner || (roles[next.value].owner == 0 && !OnImagePath(r.place + [i]))))
    && (((r.place + [i])[0] >= SHARED_TOP || (r.owner != 0 && OnImagePath(r.place + [i]))) && Present(mem[page][i])
        ==> !Huge(mem[page][i]))
  }

  ghost predicate TableOk(mem: Memory, roles: Roles, page: nat)
    requires page in roles && roles[page].Table?
  {
    && IsTable(mem, page) && IsPage(page) && |roles[page].place| <= 3
    && (|roles[page].place| < 3 ==> forall i :: 0 <= i < ENTRIES ==> LinkOk(mem, roles, page, i))
  }

  /** Table pages form an unshared tree: each has one place, and links respect places and owners. */
  ghost predicate TreeOk(mem: Memory, roles: Roles) {
    forall p :: p in roles && roles[p].Table? ==> TableOk(mem, roles, p)
  }

  predicate IsPrefix(a: seq<nat>, b: seq<nat>) {
    |a| <= |b| && b[..|a|] == a
  }

  /** `table` is known and `path` leads from it to a leaf. */
  predicate Starts(roles: Roles, table: nat, path: Path) {
    table in roles && roles[table].Table? && path != [] && |roles[table].place| + |path| == 4
  }

  /** A write to one entry is invisible to every walk that does not pass its place. */
  lemma {:induction false} WriteFrame(mem: Memory, roles: Roles, page: nat, i: nat, e: nat, table: nat, path: Path)
    requires TreeOk(mem, roles) && Starts(roles, table, path)
    requires page in roles && roles[page].Table? && i < ENTRIES
    requires !IsPrefix(roles[page].place + [i], roles[table].place + path)
    ensures IsTable(mem, page)
    ensures Walk(Put(mem, page, i, e), table, path) == Walk(mem, table, path)
    ensures TableAt(Put(mem, page, i, e), table, path[..|path| - 1]) == TableAt(mem, table, path[..|path| - 1])
    decreases |path|
  {
    assert TableOk(mem, roles, page) && TableOk(mem, roles, table);
    var place := roles[table].place;
    if table == page {
      assert (place + path)[..|place| + 1] == place + [path[0]];
    }
    if |path| > 1 {
      assert LinkOk(mem, roles, table, path[0]);
      var next := Next(mem, table, path[0]);
      assert path[..|path| - 1][1..] == path[1..][..|path| - 2];
      if next.Some? {
        assert place + path == (place + [path[0]]) + path[1..];
        WriteFrame(mem, roles, page, i, e, next.value, path[1..]);
      }
    }
  }

  /** A write to a private table is invisible to every walk that starts in a table of another owner. */
  lemma {:induction false} PrivateFrame(mem: Memory, roles: Roles, page: nat, i: nat, e: nat, table: nat, path: Path)
    requires TreeOk(mem, roles) && Starts(roles, table, path)
    requires page in roles && roles[page].Table? && i < ENTRIES
    requires roles[page].owner != 0 && roles[table].owner != roles[page].owner
    ensures IsTable(mem, page)
    ensures Walk(Put(mem, page, i, e), table, path) == Walk(mem, table, path)
    decreases |path|
  {
    assert TableOk(mem, roles, page) && TableOk(mem, roles, table);
    if |path| > 1 {
      assert LinkOk(mem, roles, table, path[0]);
      var next := Next(mem, table, path[0]);
      if next.Some? {
        PrivateFrame(mem, roles, page, i, e, next.value, path[1..]);
      }
    }
  }

  /** Pages that are not known tables may change freely. */
  lemma {:induction false} UnknownPageFrame(mem: Memory, mem': Memory, roles: Roles, table: nat, path: Path)
    requires TreeOk(mem, roles) && Starts(roles, table, path)
    requires forall p :: p in roles && roles[p].Table? && p in mem ==> p in mem' && mem'[p] == mem[p]
    ensures Walk(mem', table, path) == Walk(mem, table, path)
    ensures TableAt(mem', table, path[..|path| - 1]) == TableAt(mem, table, path[..|path| - 1])
    decreases |path|
  {
    assert TableOk(mem, roles, table);
    if |path| > 1 {
      assert LinkOk(mem, roles, table, path[0]);
      var next := Next(mem, table, path[0]);
      assert path[..|path| - 1][1..] == path[1..][..|path| - 2];
      if next.Some? {
        UnknownPageFrame(mem, mem', roles, next.value, path[1..]);
      }
    }
  }

  /** A walk is the leaf entry of the last table it reaches. */
  lemma {:induction false} WalkSplits(mem: Memory, table: nat, path: Path)
    requires path != []
    ensures var pt := TableAt(mem, table, path[..|path| - 1]);
      pt.Some? ==> IsTable(mem, pt.value) && Walk(mem, table, path) == Leaf(mem, pt.value, path[|path| - 1])
    ensures TableAt(mem, table, path[..|path| - 1]).None? ==> !Walk(mem, table, path).Frame?
    decreases |path|
  {
    if |path| > 1 && IsTable(mem, table) {
      var next := Next(mem, table, path[0]);
      assert path[..|path| - 1][1..] == path[1..][..|path| - 2];
      if next.Some? {
        WalkSplits(mem, next.value, path[1..]);
      }
    }
  }

  /** The table a walk reaches has the place the walk spells, and the starter's owner or the kernel. */
  lemma {:induction false} ReachedRole(mem: Memory, roles: Roles, table: nat, path: Path)
    requires TreeOk(mem, roles) && table in roles && roles[table].Table? && |roles[table].place| + |path| <= 3
    ensures var pt := TableAt(mem, table, path);
      pt.Some? ==>
        && IsTableRole(roles, pt.value, roles[table].place + path)
        && (roles[pt.value].owner == roles[table].owner || roles[pt.value].owner == 0)
    decreases |path|
  {
    assert TableOk(mem, roles, table);
    var place := roles[table].place;
    if path == [] {
      assert place + path == place;
    } else {
      assert LinkOk(mem, roles, table, path[0]);
      var next := Next(mem, table, path[0]);
      if next.Some? {
        assert place + path == (place + [path[0]]) + path[1..];
        ReachedRole(mem, roles, next.value, path[1..]);
      }
    }
  }

  /** Two roots with the same top-level entry translate everything below it alike. */
  lemma SharedTopEntry(mem: Memory, a: nat, b: nat, path: Path)
    requires |path| == 4 && IsTable(mem, a) && IsTable(mem, b) && mem[a][path[0]] == mem[b][path[0]]
    ensures Walk(mem, a, path) == Walk(mem, b, path)
  {
  }
}
