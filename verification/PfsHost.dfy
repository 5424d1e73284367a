/** The host-side uploader: a second allocator and writer for the same on-disk format. */
module PfsHost {
  import opened Common
  import opened PfsFormat
  import opened PfsAlloc
  import opened PfsTable
  import opened PfsNamespace
  import opened PfsFiles
  import opened PfsBytes
  import opened PfsWrites
  import opened PfsDisk

  // ---- alloc_extents ----

  /** Between rounds the next candidate sector is taken or off the disk, so no two runs touch. */
  ghost predicate Stopped(t: seq<Entry>, skip: Option<nat>, candidate: nat) {
    Covered(t, skip, candidate) || candidate >= DISK_SECTORS
  }

  lemma RunsPush(a: seq<nat>, x: nat)
    ensures Runs(a + [x]) == Runs(a) + if a == [] || x != a[|a| - 1] + 1 then 1 else 0
  {
    assert (a + [x])[..|a|] == a;
  }

  lemma ExtraRun(a: seq<nat>, rest: seq<nat>)
    requires a != [] && rest != [] && rest[0] != a[|a| - 1] + 1
    ensures Runs(a + rest) > Runs(a)
  {
    RunsPush(a, rest[0]);
    RunsMonotone(a + [rest[0]], rest[1..]);
    assert rest == [rest[0]] + rest[1..];
    Reassociate(a + rest, a, [rest[0]], rest[1..]);
  }

  lemma FourRunsUsed(t: seq<Entry>, skip: Option<nat>, needed: nat, now: seq<Extent>, from: nat, remaining: nat)
    requires GrowInv(t, skip, [], needed, now, from, remaining) && remaining > 0
    requires |now| >= MAX_EXTENTS && End(now[|now| - 1]) == from && Stopped(t, skip, from)
    ensures !Growable(t, skip, [], needed)
  {
    var rest := FreeList(t, skip, from, remaining);
    CanonicalRuns(now);
    if rest != [] {
      FreeListSound(t, skip, from, remaining);
      ExtraRun(Lbas(now), rest);
    }
  }

  lemma HostAppends(t: seq<Entry>, skip: Option<nat>, needed: nat, now: seq<Extent>, from: nat, remaining: nat,
                    run: Extent)
    requires GrowInv(t, skip, [], needed, now, from, remaining) && IsFirstRun(t, skip, from, remaining, run)
    requires now != [] ==> End(now[|now| - 1]) == from && Stopped(t, skip, from)
    ensures GrowInv(t, skip, [], needed, now + [run], run.start + run.sectors, remaining - run.sectors)
    ensures remaining > run.sectors ==> Stopped(t, skip, run.start + run.sectors)
  {
    assert !Covered(t, skip, run.start);
    GrowAdvances(t, skip, [], needed, now, from, remaining, run);
    assert WithRun(now, run) == now + [run];
  }

  /** alloc_extents: runs are appended, never merged, yet come out canonical. */
  method AllocExtents(t: seq<Entry>, sectorsNeeded: nat, skip: Option<nat>) returns (ok: bool, extents: seq<Extent>)
    requires EndsFit(t)
    ensures ok <==> Growable(t, skip, [], sectorsNeeded)
    ensures ok ==> |extents| <= MAX_EXTENTS && Canonical(extents)
    ensures ok ==> Lbas(extents) == FreeList(t, skip, DATA_START, sectorsNeeded)
  {
    extents := [];
    var remaining: nat := sectorsNeeded;
    var candidate: nat := DATA_START;
    while remaining > 0
      invariant |extents| <= MAX_EXTENTS
      invariant GrowInv(t, skip, [], sectorsNeeded, extents, candidate, remaining)
      invariant extents != [] ==> End(extents[|extents| - 1]) == candidate
      invariant extents != [] && remaining > 0 ==> Stopped(t, skip, candidate)
    {
      if |extents| >= MAX_EXTENTS {
        FourRunsUsed(t, skip, sectorsNeeded, extents, candidate, remaining);
        return false, extents;
      }
      var found := FindFreeRun(t, candidate, remaining, skip);
      if found.None? {
        NoRunLeft(t, skip, [], sectorsNeeded, extents, candidate, remaining);
        return false, extents;
      }
      var run := found.value;
      HostAppends(t, skip, sectorsNeeded, extents, candidate, remaining, run);
      extents := extents + [run];
      remaining := remaining - run.sectors;
      candidate := run.start + run.sectors;
    }
    GrowDone(t, skip, [], sectorsNeeded, extents, candidate);
    return true, extents;
  }

  // ---- write_file_data ----

  lemma RawAppend(d: seq<Sector>, a: seq<nat>, b: seq<nat>)
    requires IsDisk(d) && DataLbas(a + b) && DataLbas(a) && DataLbas(b)
    ensures Raw(d, a + b) == Raw(d, a) + Raw(d, b)
  {
    var l, r := Raw(d, a + b), Raw(d, a) + Raw(d, b);
    forall k | 0 <= k < |l| ensures l[k] == r[k] {
      var q := k / SECTOR_SIZE;
      assert (a + b)[q] == if q < |a| then a[q] else b[q - |a|];
      if q >= |a| {
        assert (k - SECTOR_SIZE * |a|) / SECTOR_SIZE == q - |a|;
      }
    }
  }

  lemma DataParts(a: seq<nat>, b: seq<nat>)
    requires DataLbas(a + b)
    ensures DataLbas(a) && DataLbas(b)
    ensures forall x :: x in b ==> x !in a
  {
    var s := a + b;
    assert forall i :: 0 <= i < |a| ==> a[i] == s[i];
    assert forall i :: 0 <= i < |b| ==> b[i] == s[|a| + i];
  }

  /** One seek-and-write of a chunk at the start of an extent. */
  method WriteRun(disk: array<Sector>, x: Extent, chunk: seq<byte>)
    requires disk.Length == DISK_SECTORS && DataLbas(Range(x.start, x.sectors))
    requires |chunk| <= SECTOR_SIZE * x.sectors
    modifies disk
    ensures Raw(disk[..], Range(x.start, x.sectors))[..|chunk|] == chunk
    ensures forall k :: 0 <= k < DISK_SECTORS && k !in Range(x.start, x.sectors) ==> disk[k] == old(disk[k])
  {
    assert Lbas([x]) == Range(x.start, x.sectors) by {
      LbasPush([], x);
      assert [] + [x] == [x];
    }
    var ok := WriteBytes(disk, Entry(KIND_FILE, [], 0, [x], 0, 0, 0), 0, chunk);
  }

  lemma PrefixData(extents: seq<Extent>, n: nat)
    requires n <= |extents| && DataLbas(Lbas(extents))
    ensures DataLbas(Lbas(extents[..n]))
    ensures |Lbas(extents[..n])| <= |Lbas(extents)| && Lbas(extents)[..|Lbas(extents[..n])|] == Lbas(extents[..n])
  {
    LbasPrefix(extents, n);
    var k := |Lbas(extents[..n])|;
    assert Lbas(extents) == Lbas(extents[..n]) + Lbas(extents)[k..];
    DataParts(Lbas(extents[..n]), Lbas(extents)[k..]);
  }

  lemma FrontSuffices(d: seq<Sector>, extents: seq<Extent>, n: nat, data: seq<byte>)
    requires IsDisk(d) && n <= |extents| && DataLbas(Lbas(extents)) && DataLbas(Lbas(extents[..n]))
    requires |data| <= SECTOR_SIZE * |Lbas(extents[..n])| && Raw(d, Lbas(extents[..n]))[..|data|] == data
    ensures |data| <= SECTOR_SIZE * |Lbas(extents)| && Raw(d, Lbas(extents))[..|data|] == data
  {
    PrefixData(extents, n);
    var front, all := Lbas(extents[..n]), Lbas(extents);
    assert all == front + all[|front|..];
    RawPrefix(d, front, all[|front|..]);
    assert Raw(d, all)[..|data|] == Raw(d, all)[..SECTOR_SIZE * |front|][..|data|];
  }

  lemma ChunkAppended(d: seq<Sector>, done: seq<nat>, next: seq<nat>, data: seq<byte>, written: nat, count: nat)
    requires IsDisk(d) && DataLbas(done + next) && DataLbas(done) && DataLbas(next)
    requires written == SECTOR_SIZE * |done| && written + count <= |data| && count <= SECTOR_SIZE * |next|
    requires Raw(d, done) == data[..written] && Raw(d, next)[..count] == data[written..written + count]
    ensures Raw(d, done + next)[..written + count] == data[..written + count]
  {
    RawAppend(d, done, next);
  }

  /** write_file_data: extent by extent, until the data is used up. */
  method WriteFileData(disk: array<Sector>, extents: seq<Extent>, data: seq<byte>)
    requires disk.Length == DISK_SECTORS && DataLbas(Lbas(extents))
    requires |data| <= SECTOR_SIZE * |Lbas(extents)|
    modifies disk
    ensures Raw(disk[..], Lbas(extents))[..|data|] == data
    ensures forall x :: 0 <= x < DISK_SECTORS && x !in Lbas(extents) ==> disk[x] == old(disk[x])
  {
    hide DataLbas, Raw;
    var written := 0;
    ghost var reached := 0;
    PrefixData(extents, 0);
    for s := 0 to |extents|
      invariant reached == s && DataLbas(Lbas(extents[..s]))
      invariant written == Min(|data|, SECTOR_SIZE * |Lbas(extents[..s])|)
      invariant Raw(disk[..], Lbas(extents[..s]))[..written] == data[..written]
      invariant forall x :: 0 <= x < DISK_SECTORS && x !in Lbas(extents[..s]) ==> disk[x] == old(disk[x])
    {
      if written >= |data| {
        break;
      }
      PrefixData(extents, s + 1);
      ghost var done, next := Lbas(extents[..s]), Range(extents[s].start, extents[s].sectors);
      LbasPush(extents[..s], extents[s]);
      assert extents[..s] + [extents[s]] == extents[..s + 1];
      DataParts(done, next);
      var chunk := data[written..Min(|data|, written + SECTOR_SIZE * extents[s].sectors)];
      ghost var before := disk[..];
      WriteRun(disk, extents[s], chunk);
      RawFrame(before, disk[..], done);
      ChunkAppended(disk[..], done, next, data, written, |chunk|);
      written := written + |chunk|;
      reached := s + 1;
    }
    assert data[..|data|] == data;
    assert extents[..|extents|] == extents;
    FrontSuffices(disk[..], extents, reached, data);
    PrefixData(extents, reached);
  }

  // ---- create_entry ----

  function HostMode(kind: byte): byte {
    if kind == KIND_DIR then MODE_DEFAULT_DIR else MODE_DEFAULT_FILE
  }

  function HostEntry(kind: byte, name: seq<byte>, size: nat, extents: seq<Extent>): Entry {
    Entry(kind, name, size, extents, 0, 0, HostMode(kind))
  }

  /** The slot create_entry writes: the existing entry, else the first free one. */
  function HostSlot(t: seq<Entry>, name: seq<byte>): Option<nat> {
    if Find(t, name).Some? then Find(t, name) else FreeFrom(t, 0)
  }

  /** Exact success condition of create_entry for a file: no directory of that name, a slot, and enough free sectors in
      at most four runs, the file's present sectors counting as free. */
  ghost predicate HostFits(t: seq<Entry>, name: seq<byte>, size: nat) {
    var slot := HostSlot(t, name);
    slot.Some? && !(Find(t, name).Some? && IsDir(t[slot.value])) && Growable(t, slot, [], SectorsForLen(size))
  }

  /** A whole new file in slot `i`, its sectors freshly chosen among those no other file owns. */
  ghost predicate Fresh(t: seq<Entry>, i: nat, e: Entry) {
    && Canonical(e.extents) && |e.extents| <= MAX_EXTENTS
    && Lbas(e.extents) == FreeList(t, Some(i), DATA_START, SectorsForLen(e.size))
    && e.size <= SECTOR_SIZE * |Lbas(e.extents)| && e.size <= FILE_MAX
  }

  lemma AllocFresh(t: seq<Entry>, i: nat, e: Entry)
    requires e.size <= FILE_MAX && Growable(t, Some(i), [], SectorsForLen(e.size))
    requires Canonical(e.extents) && |e.extents| <= MAX_EXTENTS
    requires Lbas(e.extents) == FreeList(t, Some(i), DATA_START, SectorsForLen(e.size))
    ensures Fresh(t, i, e)
  {
  }

  lemma FreshSector(t: seq<Entry>, i: nat, e: Entry, lba: nat)
    requires Fresh(t, i, e) && lba in Lbas(e.extents)
    ensures DATA_START <= lba < DISK_SECTORS && !Covered(t, Some(i), lba)
  {
    FreeListSound(t, Some(i), DATA_START, SectorsForLen(e.size));
  }

  lemma FreshEntry(t: seq<Entry>, i: nat, e: Entry)
    requires Fresh(t, i, e) && e == HostEntry(KIND_FILE, e.name, e.size, e.extents) && ValidPath(e.name)
    ensures WellFormedEntry(e)
  {
    FreeListSound(t, Some(i), DATA_START, SectorsForLen(e.size));
    LbasInDataArea(e.extents);
  }

  lemma FreshWellFormed(t: seq<Entry>, i: nat, e: Entry)
    requires WellFormed(t) && HostSlot(t, e.name) == Some(i) && Fresh(t, i, e) && WellFormedEntry(e)
    ensures WellFormed(t[i := e])
  {
    WellFormedMeans(t);
    forall s: nat, lba: nat | s < |e.extents| && Owns(e, s, lba) ensures !Covered(t, Some(i), lba) {
      LbasMembers(e.extents, lba);
      FreshSector(t, i, e, lba);
    }
    ReplaceKeepsWellFormed(t, i, e);
  }

  lemma SlotFilled(t: seq<Entry>, d: seq<Sector>, i: nat, e: Entry, d': seq<Sector>)
    requires i < |t| && DistinctNames(t) && DistinctNames(t[i := e]) && HostSlot(t, e.name) == Some(i) && Used(e)
    requires forall j :: 0 <= j < |t| && j != i && Used(t[j]) ==> NodeOf(d', t[j]) == NodeOf(d, t[j])
    ensures Files(t[i := e], d') == Files(t, d)[e.name := NodeOf(d', e)]
  {
    FilesStep(t, d, i, e, d');
    MapPut(Files(t, d), e.name, NodeOf(d', e));
  }

  lemma FreshFiles(t: seq<Entry>, d: seq<Sector>, d': seq<Sector>, i: nat, e: Entry, data: seq<byte>)
    requires i < |t| && WellFormed(t) && DistinctNames(t[i := e]) && HostSlot(t, e.name) == Some(i)
    requires IsFile(e) && Fresh(t, i, e) && e.size == |data| && IsDisk(d) && IsDisk(d')
    requires DataLbas(Lbas(e.extents)) && Raw(d', Lbas(e.extents))[..|data|] == data
    requires forall x :: 0 <= x < DISK_SECTORS && x !in Lbas(e.extents) ==> d'[x] == d[x]
    ensures Files(t[i := e], d') == Files(t, d)[e.name := Node(false, data, e.created, e.mode)]
  {
    WellFormedMeans(t);
    forall x | x in Lbas(e.extents) ensures !Covered(t, Some(i), x) {
      FreshSector(t, i, e, x);
    }
    forall j | 0 <= j < |t| && j != i && Used(t[j]) ensures NodeOf(d', t[j]) == NodeOf(d, t[j]) {
      OthersUntouched(t, i, Lbas(e.extents), d, d', j);
    }
    SlotFilled(t, d, i, e, d');
  }

  method CreateFile(disk: array<Sector>, header: array<byte>, name: seq<byte>, data: seq<byte>) returns (ok: bool)
    requires disk.Length == DISK_SECTORS && GoodHeader(header[..]) && ValidPath(name) && |data| <= FILE_MAX
    modifies disk, header
    ensures GoodHeader(header[..])
    ensures ok <==> HostFits(old(TableOf(header[..])), name, |data|)
    ensures !ok ==> header[..] == old(header[..]) && disk[..] == old(disk[..])
    ensures ok ==> Files(TableOf(header[..]), disk[..]) ==
                   old(Files(TableOf(header[..]), disk[..]))[name := Node(false, data, 0, MODE_DEFAULT_FILE)]
    ensures ok && TreeInv(old(TableOf(header[..]))) && ParentOk(old(TableOf(header[..])), name) ==>
              TreeInv(TableOf(header[..]))
    ensures forall x :: 0 <= x < HEADER_SECTORS ==> disk[x] == old(disk[x])
  {
    var t := TableOf(header[..]);
    var slot := FindEntry(t, name);
    if slot.Some? {
      if IsDir(t[slot.value]) {
        return false;
      }
    } else {
      slot := FreeEntry(t);
      if slot.None? {
        return false;
      }
    }
    ok := FillSlot(disk, header, t, slot.value, name, data);
  }

  /** The allocation, data and entry steps of create_entry once the slot is chosen. */
  method FillSlot(disk: array<Sector>, header: array<byte>, t: seq<Entry>, i: nat, name: seq<byte>, data: seq<byte>)
    returns (ok: bool)
    requires disk.Length == DISK_SECTORS && GoodHeader(header[..]) && ValidPath(name) && |data| <= FILE_MAX
    requires t == TableOf(header[..]) && i < |t| && HostSlot(t, name) == Some(i)
    requires (Find(t, name).Some? ==> !IsDir(t[i]))
    modifies disk, header
    ensures GoodHeader(header[..])
    ensures ok <==> Growable(t, Some(i), [], SectorsForLen(|data|))
    ensures !ok ==> header[..] == old(header[..]) && disk[..] == old(disk[..])
    ensures ok ==> Files(TableOf(header[..]), disk[..]) ==
                   Files(t, old(disk[..]))[name := Node(false, data, 0, MODE_DEFAULT_FILE)]
    ensures ok && TreeInv(t) && ParentOk(t, name) ==> TreeInv(TableOf(header[..]))
    ensures forall x :: 0 <= x < HEADER_SECTORS ==> disk[x] == old(disk[x])
  {
    hide Growable, TreeInv, ParentOk, HostSlot, Canonical, Fresh, WellFormedEntry, Find;
    ghost var d := disk[..];
    WellFormedEndsFit(t);
    var extents;
    ok, extents := AllocExtents(t, SectorsForLen(|data|), Some(i));
    if !ok {
      return false;
    }
    var e := HostEntry(KIND_FILE, name, |data|, extents);
    AllocFresh(t, i, e);
    FreshEntry(t, i, e);
    FreshWellFormed(t, i, e);
    FileLbas(e);
    assert forall x :: 0 <= x < HEADER_SECTORS ==> x !in Lbas(extents);
    WriteFileData(disk, extents, data);
    NamesOk(t[i := e]);
    FreshFiles(t, d, disk[..], i, e, data);
    SetEntry(header, i, e);
    SlotKeepsTree(t, i, e);
  }

  /** Filling a free slot, or overwriting a file under its own name, keeps the tree. */
  lemma SlotKeepsTree(t: seq<Entry>, i: nat, e: Entry)
    requires i < |t| && WellFormed(t) && WellFormed(t[i := e]) && HostSlot(t, e.name) == Some(i) && Used(e)
    requires Find(t, e.name).Some? ==> !IsDir(t[i])
    ensures TreeInv(t) && ParentOk(t, e.name) ==> TreeInv(t[i := e])
  {
    if TreeInv(t) && ParentOk(t, e.name) {
      if Used(t[i]) {
        RemoveKeepsTree(t, i, e);
      } else {
        AddKeepsTree(t, i, e);
      }
    }
  }

  /** The table with one missing directory added; None if a file has the name or no slot is free. */
  function DirAdded(t: seq<Entry>, name: seq<byte>): (r: Option<seq<Entry>>)
    ensures r.Some? ==> |r.value| == |t|
  {
    var found, free := Find(t, name), FreeFrom(t, 0);
    if found.Some? then (if IsDir(t[found.value]) then Some(t) else None)
    else if free.Some? then Some(t[free.value := HostEntry(KIND_DIR, name, 0, [])])
    else None
  }

  function DirsAdded(t: seq<Entry>, dirs: seq<seq<byte>>): (r: Option<seq<Entry>>)
    ensures r.Some? ==> |r.value| == |t|
  {
    if dirs == [] then Some(t)
    else
      var front := DirsAdded(t, dirs[..|dirs| - 1]);
      if front.None? then None else DirAdded(front.value, dirs[|dirs| - 1])
  }

  method CreateDir(header: array<byte>, name: seq<byte>) returns (ok: bool)
    requires GoodHeader(header[..]) && ValidPath(name) && Find(TableOf(header[..]), name).None?
    modifies header
    ensures GoodHeader(header[..])
    ensures DirAdded(old(TableOf(header[..])), name) == if ok then Some(TableOf(header[..])) else None
    ensures !ok ==> header[..] == old(header[..])
    ensures ok ==> HasDir(TableOf(header[..]), name)
    ensures ok && TreeInv(old(TableOf(header[..]))) && ParentOk(old(TableOf(header[..])), name) ==>
              TreeInv(TableOf(header[..]))
  {
    var t := TableOf(header[..]);
    WellFormedEndsFit(t);
    var slot := FreeEntry(t);
    if slot.None? {
      return false;
    }
    var e := HostEntry(KIND_DIR, name, 0, []);
    RelabelKeepsWellFormed(t, slot.value, e);
    NamesOk(t);
    NamesOk(t[slot.value := e]);
    SlotKeepsTree(t, slot.value, e);
    SetEntry(header, slot.value, e);
    HasDirAt(t[slot.value := e], slot.value);
    return true;
  }

  // ---- main ----

  /** valid_path: the kernel's rule and no leading slash. */
  predicate HostPath(path: seq<byte>) {
    ValidPath(path) && path[0] != SLASH
  }

  /** parent_dirs: every directory above `path`, outermost first. */
  function ParentDirs(path: seq<byte>): seq<seq<byte>>
    decreases |path|
  {
    var slash := LastSlash(path);
    if slash.None? then [] else ParentDirs(path[..slash.value]) + [path[..slash.value]]
  }

  /** Legal paths, each the parent of the next. */
  predicate Chain(ps: seq<seq<byte>>) {
    && (forall k :: 0 <= k < |ps| ==> HostPath(ps[k]))
    && (ps != [] ==> Parent(ps[0]).None?)
    && (forall j, k :: 0 <= j < |ps| && 0 <= k < |ps| && k == j + 1 ==> Parent(ps[k]) == Some(ps[j]))
  }

  lemma {:induction false} ParentDirsChain(path: seq<byte>)
    requires HostPath(path)
    ensures Chain(ParentDirs(path))
    ensures Parent(path) == if ParentDirs(path) == [] then None else Some(ParentDirs(path)[|ParentDirs(path)| - 1])
    decreases |path|
  {
    var slash := LastSlash(path);
    if slash.Some? {
      ParentDirsChain(path[..slash.value]);
    }
  }

  lemma ParentReady(t: seq<Entry>, name: seq<byte>)
    requires HostPath(name) && (Parent(name).Some? ==> HasDir(t, Parent(name).value))
    ensures ParentOk(t, name)
  {
  }

  /** The map with the missing directories added. */
  function WithDirs(m: FileMap, dirs: seq<seq<byte>>): FileMap {
    if dirs == [] then m
    else
      var front, last := WithDirs(m, dirs[..|dirs| - 1]), dirs[|dirs| - 1];
      if last in front then front else front[last := Node(true, [], 0, MODE_DEFAULT_DIR)]
  }

  lemma {:induction false} WithDirsMeans(m: FileMap, dirs: seq<seq<byte>>, n: seq<byte>)
    ensures n in WithDirs(m, dirs) <==> n in m || n in dirs
    ensures n in m ==> WithDirs(m, dirs)[n] == m[n]
    ensures n !in m && n in dirs ==> WithDirs(m, dirs)[n] == Node(true, [], 0, MODE_DEFAULT_DIR)
  {
    if dirs != [] {
      var front := dirs[..|dirs| - 1];
      assert dirs == front + [dirs[|dirs| - 1]];
      WithDirsMeans(m, front, n);
    }
  }

  lemma {:induction false} DirsStuck(t: seq<Entry>, dirs: seq<seq<byte>>, k: nat)
    requires k <= |dirs| && DirsAdded(t, dirs[..k]).None?
    ensures DirsAdded(t, dirs).None?
    decreases |dirs| - k
  {
    if k < |dirs| {
      assert dirs[..k + 1][..k] == dirs[..k];
      DirsStuck(t, dirs, k + 1);
    } else {
      assert dirs[..k] == dirs;
    }
  }

  /** The parent loop of main, on the header held in memory. */
  method MakeParents(header: array<byte>, parents: seq<seq<byte>>) returns (ok: bool)
    requires GoodHeader(header[..])
    requires Chain(parents)
    modifies header
    ensures GoodHeader(header[..])
    ensures DirsAdded(old(TableOf(header[..])), parents) == if ok then Some(TableOf(header[..])) else None
    ensures ok && parents != [] ==> HasDir(TableOf(header[..]), parents[|parents| - 1])
    ensures ok && TreeInv(old(TableOf(header[..]))) ==> TreeInv(TableOf(header[..]))
  {
    ghost var t0 := TableOf(header[..]);
    for k := 0 to |parents|
      invariant GoodHeader(header[..])
      invariant DirsAdded(t0, parents[..k]) == Some(TableOf(header[..]))
      invariant k > 0 ==> HasDir(TableOf(header[..]), parents[k - 1])
      invariant TreeInv(old(TableOf(header[..]))) ==> TreeInv(TableOf(header[..]))
    {
      var t := TableOf(header[..]);
      assert parents[..k + 1][..k] == parents[..k];
      assert k > 0 ==> HasDir(t, parents[k - 1]) && Parent(parents[k]) == Some(parents[k - 1]);
      ParentReady(t, parents[k]);
      NamesOk(t);
      var found := FindEntry(t, parents[k]);
      if found.None? {
        ok := CreateDir(header, parents[k]);
        if !ok {
          DirsStuck(t0, parents, k + 1);
          return false;
        }
      } else if t[found.value].kind != KIND_DIR {
        DirsStuck(t0, parents, k + 1);
        return false;
      }
    }
    assert parents[..|parents|] == parents;
    return true;
  }

  /** No file is in the way and the table has room for every missing directory. */
  predicate Makeable(m: FileMap, dirs: seq<seq<byte>>) {
    (forall k :: 0 <= k < |dirs| && dirs[k] in m ==> m[dirs[k]].dir) && |WithDirs(m, dirs)| <= ENTRY_COUNT
  }

  lemma {:induction false} WithDirsKeeps(m: FileMap, dirs: seq<seq<byte>>, name: seq<byte>)
    ensures name in m ==> name in WithDirs(m, dirs) && WithDirs(m, dirs)[name] == m[name]
    ensures name in WithDirs(m, dirs) && name !in m ==> WithDirs(m, dirs)[name].dir
    decreases |dirs|
  {
    if dirs != [] {
      WithDirsKeeps(m, dirs[..|dirs| - 1], name);
    }
  }

  /** The directories can be made exactly when the file map allows it, and then the map has them. */
  lemma {:induction false} DirsAddedIff(t: seq<Entry>, d: seq<Sector>, dirs: seq<seq<byte>>)
    requires WellFormed(t) && forall k :: 0 <= k < |dirs| ==> ValidPath(dirs[k])
    ensures DirsAdded(t, dirs).Some? <==> Makeable(Files(t, d), dirs)
    ensures DirsAdded(t, dirs).Some? ==>
              WellFormed(DirsAdded(t, dirs).value) && Files(DirsAdded(t, dirs).value, d) == WithDirs(Files(t, d), dirs)
    decreases |dirs|
  {
    var m := Files(t, d);
    if dirs == [] {
      NoneToMake(t, d);
    } else {
      hide WellFormed, Files, Makeable, DirAdded, ValidPath;
      var front, last := dirs[..|dirs| - 1], dirs[|dirs| - 1];
      DirsAddedIff(t, d, front);
      WithDirsKeeps(m, front, last);
      MakeableFront(m, front, last);
      assert dirs == front + [last];
      if DirsAdded(t, front).Some? {
        DirAddedIff(DirsAdded(t, front).value, d, last);
      }
    }
  }

  lemma NoneToMake(t: seq<Entry>, d: seq<Sector>)
    requires WellFormed(t)
    ensures Makeable(Files(t, d), [])
  {
    NamesOk(t);
    CountNames(t, d, |t|);
  }

  lemma MakeableFront(m: FileMap, front: seq<seq<byte>>, last: seq<byte>)
    ensures var w := WithDirs(m, front);
      Makeable(m, front + [last]) <==>
      Makeable(m, front) && (if last in w then (last in m ==> m[last].dir) else |w| < ENTRY_COUNT)
  {
    var w, dirs := WithDirs(m, front), front + [last];
    assert dirs[..|dirs| - 1] == front;
    assert forall k :: 0 <= k < |front| ==> dirs[k] == front[k];
    assert dirs[|front|] == last;
    WithDirsKeeps(m, front, last);
    if last !in w {
      SizeAfterPut(w, last, Node(true, [], 0, MODE_DEFAULT_DIR));
    }
  }

  lemma DirAddedIff(t: seq<Entry>, d: seq<Sector>, name: seq<byte>)
    requires WellFormed(t) && ValidPath(name)
    ensures var m := Files(t, d); var r := DirAdded(t, name);
      && (r.Some? <==> if name in m then m[name].dir else |m| < ENTRY_COUNT)
      && (r.Some? ==>
           WellFormed(r.value) && Files(r.value, d) == if name in m then m
           else m[name := Node(true, [], 0, MODE_DEFAULT_DIR)])
  {
    NamesOk(t);
    FilesFind(t, d, name);
    FullTable(t, d);
    CountNames(t, d, |t|);
    var free := FreeFrom(t, 0);
    if Find(t, name).None? && free.Some? {
      var e := HostEntry(KIND_DIR, name, 0, []);
      RelabelKeepsWellFormed(t, free.value, e);
      NamesOk(t[free.value := e]);
      FilesAdd(t, d, free.value, e);
    }
  }

  /** Exact success condition of an upload: the directories can be made, and then the file fits. */
  ghost predicate UploadFits(t: seq<Entry>, dest: seq<byte>, size: nat) {
    var made := DirsAdded(t, ParentDirs(dest));
    made.Some? && HostFits(made.value, dest, size)
  }

  /** The body of main between reading and writing the header. */
  method PutFile(disk: array<Sector>, header: array<byte>, dest: seq<byte>, data: seq<byte>) returns (ok: bool)
    requires disk.Length == DISK_SECTORS && GoodHeader(header[..]) && HostPath(dest) && |data| <= FILE_MAX
    modifies disk, header
    ensures GoodHeader(header[..])
    ensures ok <==> UploadFits(old(TableOf(header[..])), dest, |data|)
    ensures !ok ==> disk[..] == old(disk[..])
    ensures ok ==> Files(TableOf(header[..]), disk[..]) ==
                   Uploaded(old(Files(TableOf(header[..]), disk[..])), dest, data)
    ensures ok && TreeInv(old(TableOf(header[..]))) ==> TreeInv(TableOf(header[..]))
    ensures forall x :: 0 <= x < HEADER_SECTORS ==> disk[x] == old(disk[x])
  {
    var parents := ParentDirs(dest);
    ParentDirsChain(dest);
    DirsAddedIff(TableOf(header[..]), disk[..], parents);
    ok := MakeParents(header, parents);
    if ok {
      ParentReady(TableOf(header[..]), dest);
      ok := CreateFile(disk, header, dest, data);
    }
  }

  function Uploaded(m: FileMap, dest: seq<byte>, data: seq<byte>): FileMap {
    WithDirs(m, ParentDirs(dest))[dest := Node(false, data, 0, MODE_DEFAULT_FILE)]
  }

  /** After an upload the file has the data, its parents are there, and everything else is as before. */
  lemma UploadedMeans(m: FileMap, dest: seq<byte>, data: seq<byte>, n: seq<byte>)
    ensures var m' := Uploaded(m, dest, data);
      && dest in m' && !m'[dest].dir && m'[dest].data == data
      && (n != dest ==> (n in m' <==> n in m || n in ParentDirs(dest)))
      && (n != dest && n in m ==> m'[n] == m[n])
      && (n != dest && n in m' && n !in m ==> m'[n].dir && m'[n].data == [])
  {
    WithDirsMeans(m, ParentDirs(dest), n);
  }

  /** main without option parsing: all or nothing on the file map. */
  method Upload(disk: array<Sector>, dest: seq<byte>, data: seq<byte>) returns (ok: bool)
    requires disk.Length == DISK_SECTORS && DiskInv(disk[..])
    modifies disk
    ensures DiskInv(disk[..])
    ensures !ok ==> disk[..] == old(disk[..])
    ensures ok <==>
      |data| <= FILE_MAX && HostPath(dest) && old(Mounted(disk[..]) && UploadFits(TableOn(disk[..]), dest, |data|))
    ensures ok ==> Mounted(disk[..])
    ensures ok ==> FilesOn(disk[..]) == Uploaded(old(FilesOn(disk[..])), dest, data)
    ensures ok && old(TreeInv(TableOn(disk[..]))) ==> TreeInv(TableOn(disk[..]))
  {
    if |data| > FILE_MAX {
      return false;
    }
    var valid := CheckPath(dest);
    if !valid || dest[0] == SLASH {
      return false;
    }
    var formatted, header := ReadHeader(disk);
    if !formatted {
      return false;
    }
    ok := PutFile(disk, header, dest, data);
    if ok {
      ghost var d := disk[..];
      WriteHeader(disk, header);
      FilesIgnoreHeader(TableOf(header[..]), d, disk[..]);
    }
  }
}
