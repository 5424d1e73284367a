/** Two handles on one file: what the length that the second one remembers leads to. */
module PfsStale {
  import opened Common
  import opened FdTypes
  import opened PfsFormat
  import opened PfsAlloc
  import opened PfsTable
  import opened PfsNamespace
  import opened PfsFiles
  import opened PfsWrites
  import opened PfsDisk

  const NAME: seq<byte> := [97]

  const RW_CREATE := Flags(true, true, true, false, false, false)

  lemma NameIsValid()
    ensures ValidPath(NAME) && LastSlash(NAME).None?
  {
    assert NAME[0] == 97;
  }

  ghost predicate FileAt(d: seq<Sector>, n: seq<byte>, e: Entry)
    requires IsDisk(d) && n in FilesOn(d)
  {
    IsFile(e) && e.name == n && e.size == |FilesOn(d)[n].data| && FilesOn(d)[n].data == Contents(d, e)
  }

  /** A file on the map has an entry of its name and size. */
  lemma FileFound(d: seq<Sector>, n: seq<byte>)
    requires Mounted(d) && n in FilesOn(d) && !FilesOn(d)[n].dir
    ensures Find(TableOn(d), n).Some? && Find(TableOn(d), n).value < ENTRY_COUNT
    ensures FileAt(d, n, TableOn(d)[Find(TableOn(d), n).value])
  {
    NamesOk(TableOn(d));
    FilesFind(TableOn(d), d, n);
    var i := Find(TableOn(d), n).value;
    EntryOk(TableOn(d), i);
    ContentsLength(d, TableOn(d)[i]);
  }

  lemma OnlyEntry(t: seq<Entry>, d: seq<Sector>, n: seq<byte>, k: nat)
    requires DistinctNames(t) && Files(t, d).Keys == {n} && k < |t| && Used(t[k])
    ensures Find(t, n) == Some(k)
  {
    FindUsed(t, k);
    FilesFind(t, d, t[k].name);
    assert t[k].name in Files(t, d).Keys;
  }

  lemma EntryCanonical(t: seq<Entry>, i: nat)
    requires WellFormed(t) && i < |t| && IsFile(t[i])
    ensures Canonical(t[i].extents)
  {
    EntryOk(t, i);
  }

  /** The only file of a disk has room for one sector. */
  lemma OnlyFileFits(d: seq<Sector>, n: seq<byte>, size: nat)
    requires Mounted(d) && FilesOn(d).Keys == {n} && !FilesOn(d)[n].dir && 0 < size <= SECTOR_SIZE
    ensures Find(TableOn(d), n).Some? && Fits(d, Find(TableOn(d), n).value, size)
  {
    FileFound(d, n);
    var t := TableOn(d);
    var i := Find(t, n).value;
    hide WellFormed, FilesOn, Growable, Canonical;
    EntryCanonical(t, i);
    if |Lbas(t[i].extents)| == 0 {
      NamesOk(t);
      forall k | 0 <= k < |t| && Used(t[k]) ensures k == i {
        OnlyEntry(t, d, n, k);
      }
      ExtentsHoldSectors(t[i].extents);
      FirstSectorFree(t, i);
    }
  }

  /** With no other file the first data sector can be taken. */
  lemma FirstSectorFree(t: seq<Entry>, i: nat)
    requires i < |t| && t[i].extents == [] && forall k :: 0 <= k < |t| && Used(t[k]) ==> k == i
    ensures Growable(t, Some(i), t[i].extents, 1) && Lbas(t[i].extents) == []
  {
    assert !Covered(t, Some(i), DATA_START);
    assert FreeList(t, Some(i), DATA_START, 1) == [DATA_START] + FreeList(t, Some(i), DATA_START + 1, 0);
    assert [] + [DATA_START] == [DATA_START] && [DATA_START][..0] == [];
    assert Runs([DATA_START]) == 1;
  }

  lemma ExtentsHoldSectors(extents: seq<Extent>)
    requires Canonical(extents)
    ensures extents != [] ==> |Lbas(extents)| > 0
  {
    if extents != [] {
      SlotEnds(extents, 0);
    }
  }

  /** The two handles' states, as the four calls on them leave them. */
  function HandleOn(index: nat, len: nat, offset: nat): Fd {
    Fd(true, PfsFile, RW_CREATE, len, offset, index)
  }

  lemma OpenedEmpty(d: seq<Sector>, d': seq<Sector>, m: FileMap, now: nat, error: nat, free: Option<nat>)
    requires Mounted(d) && DiskInv(d') && FilesOn(d) == m && free.Some?
    requires m == map[] || (m.Keys == {NAME} && !m[NAME].dir && m[NAME].data == [])
    requires Opened(d, d', NAME, RW_CREATE, now, error, free)
    ensures error == ERR_OK && Mounted(d')
    ensures var m' := FilesOn(d'); m'.Keys == {NAME} && !m'[NAME].dir && m'[NAME].data == []
    ensures m != map[] ==> TableOn(d') == TableOn(d)
  {
    NameIsValid();
    if m != map[] {
      FileFound(d, NAME);
    }
  }

  /** Opening the file for the first or the second time. */
  method OpenFile(pfs: Pfs, ghost m: FileMap, now: nat) returns (slot: nat, ghost index: nat)
    requires pfs.Valid() && Mounted(pfs.disk[..]) && now < MAX_CLOCK && FilesOn(pfs.disk[..]) == m
    requires m == map[] || (m.Keys == {NAME} && !m[NAME].dir && m[NAME].data == [])
    requires FirstClosed(pfs.fds[..], 0).Some?
    modifies pfs.disk, pfs.fds
    ensures pfs.Valid() && Mounted(pfs.disk[..]) && Some(slot) == old(FirstClosed(pfs.fds[..], 0)) && slot < FD_COUNT
    ensures var m' := FilesOn(pfs.disk[..]); m'.Keys == {NAME} && !m'[NAME].dir && m'[NAME].data == []
    ensures m != map[] ==> TableOn(pfs.disk[..]) == old(TableOn(pfs.disk[..]))
    ensures Find(TableOn(pfs.disk[..]), NAME) == Some(index) && index < ENTRY_COUNT
    ensures pfs.fds[..] == old(pfs.fds[..])[slot := HandleOn(index, 0, 0)]
  {
    hide Mounted, WellFormed, Opened, FileAt, DistinctNames;
    ghost var d, free := pfs.disk[..], FirstClosed(pfs.fds[..], 0);
    var error;
    error, slot := pfs.Open(NAME, RW_CREATE, now);
    OpenedEmpty(d, pfs.disk[..], m, now, error, free);
    FileFound(pfs.disk[..], NAME);
    index := Find(TableOn(pfs.disk[..]), NAME).value;
    Size(pfs.disk[..], NAME, TableOn(pfs.disk[..])[index]);
  }

  lemma Size(d: seq<Sector>, n: seq<byte>, e: Entry)
    requires IsDisk(d) && n in FilesOn(d) && FileAt(d, n, e)
    ensures e.size == |FilesOn(d)[n].data|
  {
  }

  /** A write through a handle on the only file. */
  lemma WroteOnly(d: seq<Sector>, d': seq<Sector>, h: Fd, data: seq<byte>, ok: bool)
    requires Mounted(d) && DiskInv(d') && FilesOn(d).Keys == {NAME} && !FilesOn(d)[NAME].dir
    requires Find(TableOn(d), NAME) == Some(h.index) && h.index < ENTRY_COUNT && h.open && h.flags.write
    requires HandleWrite(d, d', h, data, ok) && 0 < WriteOffset(h) + |data| <= SECTOR_SIZE
    ensures ok && Mounted(d') && FilesOn(d').Keys == {NAME} && !FilesOn(d')[NAME].dir
    ensures FilesOn(d')[NAME].data == WrittenVia(FilesOn(d)[NAME].data, h.len, WriteOffset(h), data)
    ensures Find(TableOn(d'), NAME) == Some(h.index)
  {
    hide WellFormed, WrittenVia, CanHold;
    OnlyFileFits(d, NAME, WriteOffset(h) + |data|);
    FileFound(d, NAME);
    NamesOk(TableOn(d'));
    FindUsed(TableOn(d'), h.index);
  }

  /** Writing at the start through a handle that takes the file for empty. */
  method WriteStart(pfs: Pfs, slot: nat, ghost index: nat, ghost c: seq<byte>, data: seq<byte>, now: nat)
    requires pfs.Valid() && Mounted(pfs.disk[..]) && now < MAX_CLOCK && slot < FD_COUNT && index < ENTRY_COUNT
    requires FilesOn(pfs.disk[..]).Keys == {NAME} && !FilesOn(pfs.disk[..])[NAME].dir
    requires FilesOn(pfs.disk[..])[NAME].data == c
    requires Find(TableOn(pfs.disk[..]), NAME) == Some(index) && pfs.fds[slot] == HandleOn(index, 0, 0)
    requires 0 < |data| <= SECTOR_SIZE
    modifies pfs.disk, pfs.fds
    ensures pfs.Valid() && Mounted(pfs.disk[..]) && Find(TableOn(pfs.disk[..]), NAME) == Some(index)
    ensures FilesOn(pfs.disk[..]).Keys == {NAME} && !FilesOn(pfs.disk[..])[NAME].dir
    ensures FilesOn(pfs.disk[..])[NAME].data == WrittenVia(c, 0, 0, data)
    ensures pfs.fds[slot] == HandleOn(index, |data|, |data|)
    ensures forall s :: 0 <= s < FD_COUNT && s != slot ==> pfs.fds[s] == old(pfs.fds[s])
  {
    hide Mounted, WellFormed, HandleWrite, WrittenVia;
    ghost var d := pfs.disk[..];
    var written := pfs.WriteFd(slot, data, now);
    WroteOnly(d, pfs.disk[..], HandleOn(index, 0, 0), data, written.Some?);
  }

  /** A read of a whole sector or less through any open handle on a file that is not empty. */
  lemma ReadsSector(d: seq<Sector>, h: Fd, n: nat)
    requires Mounted(d) && NAME in FilesOn(d) && !FilesOn(d)[NAME].dir && |FilesOn(d)[NAME].data| > 0
    requires Find(TableOn(d), NAME) == Some(h.index) && h.index < ENTRY_COUNT && h.open && h.flags.read
    requires n == Remaining(h.len, h.offset) && h.offset + n <= SECTOR_SIZE
    ensures HandleRead(d, h, n).Some?
  {
    hide WellFormed;
    FileFound(d, NAME);
    EntryOk(TableOn(d), h.index);
  }

  lemma FirstWrite(data: seq<byte>)
    ensures WrittenVia([], 0, 0, data) == data
  {
    FreshHandleWrites([], 0, data);
    assert Written([], 0, data) == data;
  }

  /** The empty file under two handles. */
  method OpenTwice(pfs: Pfs, now: nat) returns (a: nat, b: nat, ghost index: nat)
    requires pfs.Valid() && Mounted(pfs.disk[..]) && now < MAX_CLOCK && FilesOn(pfs.disk[..]) == map[]
    requires forall s :: 0 <= s < FD_COUNT ==> !pfs.fds[s].open
    modifies pfs.disk, pfs.fds
    ensures pfs.Valid() && Mounted(pfs.disk[..]) && a < FD_COUNT && b < FD_COUNT && a != b
    ensures var m := FilesOn(pfs.disk[..]); m.Keys == {NAME} && !m[NAME].dir && m[NAME].data == []
    ensures Find(TableOn(pfs.disk[..]), NAME) == Some(index) && index < ENTRY_COUNT
    ensures pfs.fds[a] == pfs.fds[b] == HandleOn(index, 0, 0)
  {
    hide Mounted, WellFormed;
    ghost var j;
    a, index := OpenFile(pfs, map[], now);
    b, j := OpenFile(pfs, FilesOn(pfs.disk[..]), now);
  }

  /** Reachable from a disk without files: of two handles that were opened on the empty file, the second one's write
      shortens what the first one wrote, and the first one still reads 3 bytes of the file, which has one. */
  method TwoHandles(pfs: Pfs, now: nat) returns (read: Option<seq<byte>>)
    requires pfs.Valid() && Mounted(pfs.disk[..]) && now < MAX_CLOCK && FilesOn(pfs.disk[..]) == map[]
    requires forall s :: 0 <= s < FD_COUNT ==> !pfs.fds[s].open
    modifies pfs.disk, pfs.fds
    ensures pfs.Valid() && NAME in FilesOn(pfs.disk[..]) && FilesOn(pfs.disk[..])[NAME].data == [1]
    ensures read.Some? && |read.value| == 3
  {
    hide Mounted, WellFormed, WrittenVia, FirstClosed;
    var a, b: nat;
    ghost var i;
    a, b, i := OpenTwice(pfs, now);
    WriteStart(pfs, a, i, [], [7, 8, 9], now);
    FirstWrite([7, 8, 9]);
    WriteStart(pfs, b, i, [7, 8, 9], [1], now);
    StaleHandleTruncates();
    read := ReadAgain(pfs, a, i, 3);
  }

  /** Back to the start, and as many bytes as the handle takes the file for. */
  method ReadAgain(pfs: Pfs, slot: nat, ghost index: nat, n: nat) returns (read: Option<seq<byte>>)
    requires pfs.Valid() && Mounted(pfs.disk[..]) && slot < FD_COUNT && pfs.fds[slot] == HandleOn(index, n, n)
    requires NAME in FilesOn(pfs.disk[..]) && !FilesOn(pfs.disk[..])[NAME].dir && |FilesOn(pfs.disk[..])[NAME].data| > 0
    requires Find(TableOn(pfs.disk[..]), NAME) == Some(index) && index < ENTRY_COUNT && n <= SECTOR_SIZE
    modifies pfs.fds
    ensures pfs.Valid() && read.Some? && |read.value| == n
  {
    hide Mounted, WellFormed, HandleRead;
    var position := pfs.SeekFd(slot, 0);
    ReadsSector(pfs.disk[..], HandleOn(index, n, 0), n);
    read := pfs.ReadFd(slot, n);
  }
}
