/** The persistent file system over a mutable disk and descriptor table. */
module PfsDisk {
  import opened Common
  import opened FdTypes
  import opened PfsFormat
  import opened PfsAlloc
  import opened PfsTable
  import opened PfsNamespace
  import opened PfsFiles
  import opened PfsBytes
  import opened PfsWrites

  const MAX_CLOCK := 0x1_0000_0000_0000_0000

  ghost function TableOn(d: seq<Sector>): seq<Entry>
    requires IsDisk(d)
  {
    TableOf(HeaderOf(d))
  }

  /** An unformatted disk is legal; a formatted one has a well-formed table. */
  ghost predicate DiskInv(d: seq<Sector>) {
    IsDisk(d) && (Formatted(HeaderOf(d)) ==> WellFormed(TableOn(d)))
  }

  ghost predicate Mounted(d: seq<Sector>) {
    DiskInv(d) && Formatted(HeaderOf(d))
  }

  ghost function FilesOn(d: seq<Sector>): FileMap
    requires IsDisk(d)
  {
    Files(TableOn(d), d)
  }

  /** `d'` has table `t` and the data sectors of `d`. */
  ghost predicate Rewritten(d: seq<Sector>, d': seq<Sector>, t: seq<Entry>) {
    && IsDisk(d) && Mounted(d')
    && TableOn(d') == t
    && forall x :: HEADER_SECTORS <= x < DISK_SECTORS ==> d'[x] == d[x]
  }

  /** The file map looks at data sectors only. */
  lemma FilesIgnoreHeader(t: seq<Entry>, d: seq<Sector>, d': seq<Sector>)
    requires WellFormed(t) && IsDisk(d) && IsDisk(d')
    requires forall x :: HEADER_SECTORS <= x < DISK_SECTORS ==> d'[x] == d[x]
    ensures Files(t, d') == Files(t, d)
  {
    WellFormedMeans(t);
    forall i | 0 <= i < |t| && Used(t[i]) ensures NodeOf(d', t[i]) == NodeOf(d, t[i]) {
      if IsFile(t[i]) {
        FileLbas(t[i]);
        RawFrame(d, d', Lbas(t[i].extents));
      }
    }
    SameNodes(t, d, d', |t|);
  }

  lemma {:induction false} SameNodes(t: seq<Entry>, d: seq<Sector>, d': seq<Sector>, n: nat)
    requires n <= |t| && forall i :: 0 <= i < n && Used(t[i]) ==> NodeOf(d', t[i]) == NodeOf(d, t[i])
    ensures FilesUpTo(t, d', n) == FilesUpTo(t, d, n)
  {
    if n > 0 {
      SameNodes(t, d, d', n - 1);
    }
  }

  class Pfs {
    const disk: array<Sector>
    const fds: array<Fd>

    constructor (disk: array<Sector>, fds: array<Fd>)
      requires disk.Length == DISK_SECTORS && fds.Length == FD_COUNT
      ensures this.disk == disk && this.fds == fds
    {
      this.disk := disk;
      this.fds := fds;
    }

    ghost predicate Valid()
      reads disk
    {
      fds.Length == FD_COUNT && DiskInv(disk[..])
    }

    /** abi_mkdir on a resolved name. */
    method Mkdir(name: seq<byte>, now: nat) returns (error: nat)
      requires Valid() && ValidPath(name) && now < MAX_CLOCK
      modifies disk
      ensures Valid() && Stepped(old(disk[..]), disk[..], MkdirOp(name, now), error)
    {
      ghost var d := disk[..];
      var ok, header := ReadHeader(disk);
      if !ok {
        return ERR_IO;
      }
      error := MkdirIn(header, name, now);
      if error == ERR_OK {
        WriteHeader(disk, header);
      }
      Commits(d, disk[..], MkdirOp(name, now), header[..], error);
    }

    /** abi_unlink on a resolved name. */
    method Unlink(name: seq<byte>) returns (error: nat)
      requires Valid() && ValidPath(name)
      modifies disk
      ensures Valid() && Stepped(old(disk[..]), disk[..], UnlinkOp(name), error)
    {
      ghost var d := disk[..];
      var ok, header := ReadHeader(disk);
      if !ok {
        return ERR_IO;
      }
      error := UnlinkIn(header, name);
      if error == ERR_OK {
        WriteHeader(disk, header);
      }
      Commits(d, disk[..], UnlinkOp(name), header[..], error);
    }

    /** abi_rename on resolved names. */
    method Rename(oldName: seq<byte>, newName: seq<byte>, now: nat) returns (error: nat)
      requires Valid() && ValidPath(oldName) && now < MAX_CLOCK
      modifies disk
      ensures Valid() && Stepped(old(disk[..]), disk[..], RenameOp(oldName, newName, now), error)
    {
      ghost var d := disk[..];
      var ok, header := ReadHeader(disk);
      if !ok {
        return ERR_IO;
      }
      error := RenameIn(header, oldName, newName, now);
      if error == ERR_OK {
        WriteHeader(disk, header);
      }
      Commits(d, disk[..], RenameOp(oldName, newName, now), header[..], error);
    }

    /** pfs_ensure_file_capacity: grows the allocation of entry `index` to `size` bytes. */
    method EnsureFileCapacity(index: nat, size: nat, now: nat) returns (ok: bool, ghost e': Entry)
      requires Valid() && index < ENTRY_COUNT && now < MAX_CLOCK
      modifies disk
      ensures Valid()
      ensures ok <==> Fits(old(disk[..]), index, size)
      ensures !ok ==> disk[..] == old(disk[..])
      ensures ok ==> var t := old(TableOn(disk[..]));
        Roomy(t, index, SectorsForLen(size), e') && Rewritten(old(disk[..]), disk[..], t[index := e'])
    {
      var formatted, header := ReadHeader(disk);
      var t := TableOf(header[..]);
      e' := t[index];
      if !formatted {
        return false, e';
      }
      if !Used(t[index]) || IsDir(t[index]) {
        return false, e';
      }
      var oldSectors := TotalSectors(t[index]);
      var newSectors := SectorsForLen(size);
      if newSectors <= oldSectors {
        assert t[index := t[index]] == t;
        EntryOk(t, index);
        return true, e';
      }
      var grown;
      ok, grown := GrowEntry(t, index, newSectors, now);
      if ok {
        WellFormedEndsFit(t);
        SetEntry(header, index, grown);
        WriteHeader(disk, header);
        e' := grown;
      }
    }

    /** pfs_update_size: the caller has made room for `size` bytes. */
    method UpdateSize(index: nat, size: nat, now: nat) returns (ok: bool)
      requires Valid() && index < ENTRY_COUNT && now < MAX_CLOCK
      requires Mounted(disk[..]) ==> CanResize(TableOn(disk[..])[index], size)
      modifies disk
      ensures Valid()
      ensures ok <==> old(Mounted(disk[..]) && Used(TableOn(disk[..])[index]))
      ensures !ok ==> disk[..] == old(disk[..])
      ensures ok ==> var t := old(TableOn(disk[..]));
        Rewritten(old(disk[..]), disk[..], t[index := t[index].(size := size, modified := now)])
    {
      var formatted, header := ReadHeader(disk);
      if !formatted {
        return false;
      }
      var t := TableOf(header[..]);
      if !Used(t[index]) {
        return false;
      }
      ghost var h := header[..];
      WellFormedEndsFit(t);
      PutSize(header, index, size, now);
      TablePatched(h, header[..], index, size, now);
      WriteHeader(disk, header);
      ResizeKeepsWellFormed(t, index, size, now);
      return true;
    }

    /** pfs_write_at: growth, zero-fill of the gap, then the data. */
    method WriteAt(index: nat, offset: nat, data: seq<byte>, now: nat) returns (ok: bool, ghost e': Entry)
      requires Valid() && index < ENTRY_COUNT && now < MAX_CLOCK
      modifies disk
      ensures Valid()
      ensures ok <==> offset + |data| <= FILE_MAX && Fits(old(disk[..]), index, offset + |data|)
      ensures !ok ==> disk[..] == old(disk[..])
      ensures ok ==> Mounted(disk[..]) && TableOn(disk[..]) == old(TableOn(disk[..]))[index := e']
      ensures ok ==> WriteDone(old(TableOn(disk[..])), old(disk[..]), disk[..], index, offset, data, e')
    {
      hide WriteDone, WellFormed, Contents, Roomy, HeaderOf, TableOf, SectorsForLen, Lbas, CanHold;
      ghost var d := disk[..];
      var newSize := offset + |data|;
      var formatted, header := ReadHeader(disk);
      var t := TableOf(header[..]);
      e' := t[index];
      if newSize > FILE_MAX || !formatted || !Used(t[index]) {
        return false, e';
      }
      ok, e' := EnsureFileCapacity(index, newSize, now);
      if !ok {
        return false, e';
      }
      WriteSectors(disk, t, d, index, offset, data, e');
    }

    /** pfs_read_at. */
    method ReadAt(index: nat, offset: nat, len: nat) returns (ok: bool, dest: seq<byte>)
      requires Valid() && index < ENTRY_COUNT
      ensures ok <==> Mounted(disk[..]) && Reaches(TableOn(disk[..])[index], offset, len)
      ensures ok ==> dest == Held(disk[..], index, offset, len)
    {
      hide Contents, WellFormed, Canonical;
      var formatted, header := ReadHeader(disk);
      if !formatted {
        return false, [];
      }
      var e := TableOf(header[..])[index];
      EntryOk(TableOf(header[..]), index);
      if offset + len > FILE_MAX || !Used(e) {
        return false, [];
      }
      UsedLbas(e);
      ok, dest := ReadBytes(disk, e, offset, len);
    }

    /** abi_open_pfs on a resolved name: creates or truncates the entry, then takes the first closed slot. */
    method Open(name: seq<byte>, flags: Flags, now: nat) returns (error: nat, slot: nat)
      requires Valid() && now < MAX_CLOCK
      modifies disk, fds
      ensures Valid()
      ensures Opened(old(disk[..]), disk[..], name, flags, now, error, old(FirstClosed(fds[..], 0)))
      ensures error == ERR_OK ==> Some(slot) == old(FirstClosed(fds[..], 0)) && slot < FD_COUNT
      ensures error == ERR_OK ==> OpensAs(disk[..], name, flags, fds[slot])
      ensures error == ERR_OK ==> fds[..] == old(fds[..])[slot := fds[slot]]
      ensures error != ERR_OK ==> fds[..] == old(fds[..])
    {
      ghost var d := disk[..];
      slot := 0;
      var valid := CheckPath(name);
      if !valid || BadFlags(flags) {
        return ERR_INVAL, slot;
      }
      var formatted, header := ReadHeader(disk);
      if !formatted {
        return ERR_IO, slot;
      }
      var index;
      error, index := OpenIn(header, name, flags, now);
      if error == ERR_OK {
        WriteHeader(disk, header);
      }
      OpenCommits(d, disk[..], name, flags, now, header[..], error);
      if error != ERR_OK {
        return error, slot;
      }
      var free := FindClosed(fds);
      if free.None? {
        return ERR_NOSPC, slot;
      }
      slot := free.value;
      OpensFile(TableOn(d), name, flags, now, index);
      fds[slot] := HandleFor(TableOf(header[..]), index, flags);
    }

    /** The file branch of abi_write_fd. */
    method WriteFd(slot: nat, data: seq<byte>, now: nat) returns (written: Option<nat>)
      requires Valid() && now < MAX_CLOCK
      requires slot < FD_COUNT && fds[slot].kind == PfsFile && fds[slot].index < ENTRY_COUNT
      modifies disk, fds
      ensures Valid()
      ensures HandleWrite(old(disk[..]), disk[..], old(fds[slot]), data, written.Some?)
      ensures written.Some? ==> written.value == |data|
      ensures fds[slot] == HandleAfter(old(fds[slot]), data, written.Some?)
      ensures forall s :: 0 <= s < FD_COUNT && s != slot ==> fds[s] == old(fds[s])
    {
      hide HandleWrite, DiskInv;
      var h := fds[slot];
      ghost var d := disk[..];
      if !h.open || !h.flags.write {
        NoWrite(d, h, data);
        return None;
      }
      if h.flags.append {
        fds[slot] := h.(offset := h.len);
      }
      if WriteOffset(h) + |data| > FILE_MAX {
        NoWrite(d, h, data);
        return None;
      }
      assert disk[..] == d;
      var ok := WriteThrough(h, data, now);
      if !ok {
        return None;
      }
      var end := fds[slot].offset + |data|;
      fds[slot] := h.(offset := end, len := if end > h.len then end else h.len);
      return Some(|data|);
    }

    /** The disk side of a handle write: the data, then the size if the file grew past the cached length. */
    method WriteThrough(h: Fd, data: seq<byte>, now: nat) returns (ok: bool)
      requires Valid() && now < MAX_CLOCK && h.index < ENTRY_COUNT
      requires h.open && h.flags.write && WriteOffset(h) + |data| <= FILE_MAX
      modifies disk
      ensures Valid()
      ensures HandleWrite(old(disk[..]), disk[..], h, data, ok)
    {
      hide Contents, WriteDone, WroteFile, Landed, CanResize, Rewritten, WellFormed;
      ghost var d, t := disk[..], TableOn(disk[..]);
      var end := WriteOffset(h) + |data|;
      ghost var e';
      ok, e' := WriteAt(h.index, WriteOffset(h), data, now);
      if !ok {
        return;
      }
      ghost var d1 := disk[..];
      NamesOk(t);
      DoneLeavesRoom(t, d, d1, h.index, WriteOffset(h), data, e');
      if end > h.len {
        ok := UpdateSize(h.index, end, now);
        ghost var t' := t[h.index := e'.(size := end, modified := now)];
        assert TableOn(d1)[h.index := e'.(size := end, modified := now)] == t';
        TableIs(d1, disk[..], t');
        ResizedFile(t, d, d1, TableOn(disk[..]), disk[..], h, data, e', now);
      } else {
        SameSizeFile(t, d, d1, h, data, e');
      }
    }

    /** abi_seek for a file: any position is legal. */
    method SeekFd(slot: nat, offset: nat) returns (r: Option<nat>)
      requires Valid() && slot < FD_COUNT && fds[slot].kind == PfsFile
      modifies fds
      ensures Valid() && r == if old(fds[slot]).open then Some(offset) else None
      ensures fds[..] == if r.Some? then old(fds[..])[slot := old(fds[slot]).(offset := offset)] else old(fds[..])
    {
      if !fds[slot].open {
        return None;
      }
      fds[slot] := fds[slot].(offset := offset);
      return Some(offset);
    }

    /** The file branch of abi_read. */
    method ReadFd(slot: nat, bufferLen: nat) returns (r: Option<seq<byte>>)
      requires Valid()
      requires slot < FD_COUNT && fds[slot].kind == PfsFile && fds[slot].index < ENTRY_COUNT
      modifies fds
      ensures r == HandleRead(disk[..], old(fds[slot]), bufferLen)
      ensures fds[..] ==
        old(fds[..])[slot := var h := old(fds[slot]); if r.Some? then h.(offset := h.offset + |r.value|) else h]
    {
      hide Reaches, Contents, WellFormed, Held, FileCovers;
      var h := fds[slot];
      if !h.open || !h.flags.read {
        return None;
      }
      var copyLen := Min(bufferLen, Remaining(h.len, h.offset));
      if copyLen == 0 {
        return Some([]);
      }
      var ok, dest := ReadAt(h.index, h.offset, copyLen);
      if !ok {
        return None;
      }
      fds[slot] := h.(offset := h.offset + copyLen);
      return Some(dest);
    }
  }

  /** The second half of pfs_write_at: rereads the header that growth left and moves the bytes. */
  method WriteSectors(disk: array<Sector>, t: seq<Entry>, ghost d: seq<Sector>, index: nat, offset: nat,
                      data: seq<byte>, ghost e': Entry)
    requires disk.Length == DISK_SECTORS && IsDisk(d) && WellFormed(t) && index < |t|
    requires Roomy(t, index, SectorsForLen(offset + |data|), e') && TableOn(disk[..]) == t[index := e']
    requires forall x :: HEADER_SECTORS <= x < DISK_SECTORS ==> disk[x] == d[x]
    modifies disk
    ensures HeaderOf(disk[..]) == old(HeaderOf(disk[..]))
    ensures WriteDone(t, d, disk[..], index, offset, data, e')
  {
    ghost var d1 := disk[..];
    var formatted, header := ReadHeader(disk);
    var e := TableOf(header[..])[index];
    RoomyEntry(t, d, d1, index, offset + |data|, e');
    var ok := PutData(disk, e, t[index].size, offset, data);
    WriteLands(t, d, d1, disk[..], index, offset, data, e');
    HeaderFrame(d1, disk[..]);
  }

  /** `n` bytes of `c` from `from`. */
  function Slice(c: seq<byte>, from: nat, n: nat): seq<byte> {
    if from + n <= |c| then c[from..from + n] else []
  }

  /** The sectors of an entry reach over the bytes from `offset`, which may lie past its size. */
  ghost predicate Reaches(e: Entry, offset: nat, len: nat) {
    Used(e) && offset + len <= FILE_MAX && (len == 0 || offset + len <= SECTOR_SIZE * |Lbas(e.extents)|)
  }

  /** The bytes its sectors hold there. */
  ghost function Held(d: seq<Sector>, index: nat, offset: nat, len: nat): (r: seq<byte>)
    requires Mounted(d) && index < ENTRY_COUNT && Reaches(TableOn(d)[index], offset, len)
    ensures |r| == len
  {
    EntryOk(TableOn(d), index);
    UsedLbas(TableOn(d)[index]);
    if len == 0 then [] else Raw(d, Lbas(TableOn(d)[index].extents))[offset..offset + len]
  }

  /** Entry `index` is a file of at least `n` bytes. */
  ghost predicate FileCovers(d: seq<Sector>, index: nat, n: nat)
    requires DiskInv(d) && index < ENTRY_COUNT
  {
    Mounted(d) && IsFile(TableOn(d)[index]) && n <= TableOn(d)[index].size
  }

  /** Within a file's size the bytes its sectors hold are the file's contents. */
  lemma CoveredReads(d: seq<Sector>, index: nat, offset: nat, len: nat)
    requires DiskInv(d) && index < ENTRY_COUNT
    ensures FileCovers(d, index, offset + len) ==>
              Mounted(d) && Reaches(TableOn(d)[index], offset, len)
              && Held(d, index, offset, len) == Slice(Contents(d, TableOn(d)[index]), offset, len)
  {
    hide HeaderOf, TableOf, WellFormed, Canonical, Lbas, Raw;
    if FileCovers(d, index, offset + len) {
      EntryOk(TableOn(d), index);
      FileLbas(TableOn(d)[index]);
      var raw := Raw(d, Lbas(TableOn(d)[index].extents));
      assert raw[..TableOn(d)[index].size][offset..offset + len] == raw[offset..offset + len];
    }
  }

  /** How many bytes are left from `offset` in a file of length `len`. */
  function Remaining(len: nat, offset: nat): nat {
    if len > offset then len - offset else 0
  }

  /** What a read through handle `h` gives: as many bytes as the handle's remembered length allows, as the sectors hold
      them. */
  ghost function HandleRead(d: seq<Sector>, h: Fd, bufferLen: nat): (r: Option<seq<byte>>)
    requires DiskInv(d) && h.index < ENTRY_COUNT
    ensures r.Some? ==> |r.value| == Min(bufferLen, Remaining(h.len, h.offset))
  {
    var n := Min(bufferLen, Remaining(h.len, h.offset));
    if !h.open || !h.flags.read then None
    else if n == 0 then Some([])
    else if Mounted(d) && Reaches(TableOn(d)[h.index], h.offset, n) then Some(Held(d, h.index, h.offset, n))
    else None
  }

  /** What it should give: the file's own bytes from the offset on, as many as there are. */
  ghost function IntendedRead(d: seq<Sector>, h: Fd, bufferLen: nat): seq<byte>
    requires Mounted(d) && h.index < ENTRY_COUNT
  {
    var c := Contents(d, TableOn(d)[h.index]);
    Slice(c, h.offset, Min(bufferLen, Remaining(|c|, h.offset)))
  }

  /** A read through an open handle gives what it should exactly when the remembered and the real length leave it the
      same number of bytes to read; in the one-handle case they are equal. */
  lemma StaleReadIff(d: seq<Sector>, h: Fd, bufferLen: nat)
    requires Mounted(d) && h.index < ENTRY_COUNT && IsFile(TableOn(d)[h.index]) && h.open && h.flags.read
    ensures HandleRead(d, h, bufferLen) == Some(IntendedRead(d, h, bufferLen)) <==>
            Min(bufferLen, Remaining(h.len, h.offset)) == Min(bufferLen, Remaining(TableOn(d)[h.index].size, h.offset))
  {
    hide Reaches, WellFormed, Held, Canonical;
    EntryOk(TableOn(d), h.index);
    ContentsLength(d, TableOn(d)[h.index]);
    CoveredReads(d, h.index, h.offset, Min(bufferLen, Remaining(h.len, h.offset)));
  }

  // ---- Opening ----

  function FirstClosed(fds: seq<Fd>, i: nat): (r: Option<nat>)
    requires i <= |fds|
    ensures r.Some? ==> i <= r.value < |fds| && !fds[r.value].open && forall k :: i <= k < r.value ==> fds[k].open
    ensures r.None? ==> forall k :: i <= k < |fds| ==> fds[k].open
    decreases |fds| - i
  {
    if i == |fds| then None else if !fds[i].open then Some(i) else FirstClosed(fds, i + 1)
  }

  method FindClosed(fds: array<Fd>) returns (r: Option<nat>)
    ensures r == FirstClosed(fds[..], 0)
  {
    for i := 0 to fds.Length
      invariant FirstClosed(fds[..], 0) == FirstClosed(fds[..], i)
    {
      if !fds[i].open {
        return Some(i);
      }
    }
    return None;
  }

  function HandleFor(t: seq<Entry>, index: nat, flags: Flags): Fd
    requires index < |t|
  {
    var len := t[index].size;
    Fd(true, PfsFile, flags, len, if flags.append then len else 0, index)
  }

  /** The descriptor is the one open makes for that file. */
  ghost predicate OpensAs(d: seq<Sector>, name: seq<byte>, flags: Flags, fd: Fd) {
    && Mounted(d) && Find(TableOn(d), name).Some? && IsFile(TableOn(d)[Find(TableOn(d), name).value])
    && fd == HandleFor(TableOn(d), Find(TableOn(d), name).value, flags)
  }

  /** What can be opened is a file. */
  lemma OpensFile(t: seq<Entry>, name: seq<byte>, flags: Flags, now: nat, i: nat)
    requires WellFormed(t) && OpenTable(t, name, flags, now).error == ERR_OK
    requires Find(OpenTable(t, name, flags, now).table, name) == Some(i)
    ensures IsFile(OpenTable(t, name, flags, now).table[i])
  {
    WellFormedMeans(t);
    var found := Find(t, name);
    if found.Some? {
      EntryOk(t, found.value);
      FindUsed(t, found.value);
    }
  }

  predicate BadFlags(flags: Flags) {
    (flags.createNew && !flags.create) || (flags.truncate && !flags.write) || (flags.append && !flags.write)
  }

  /** Creation, exclusivity and truncation of abi_open_pfs on the table. */
  function OpenTable(t: seq<Entry>, name: seq<byte>, flags: Flags, now: nat): Outcome {
    var found := Find(t, name);
    if !ParentOk(t, name) then Outcome(t, ERR_NOENT)
    else if found.Some? && IsDir(t[found.value]) then Outcome(t, ERR_ISDIR)
    else if found.Some? && flags.createNew then Outcome(t, ERR_EXIST)
    else if found.None? && !flags.create then Outcome(t, ERR_NOENT)
    else
      var made := Create(t, name, now);
      if made.error != ERR_OK || !flags.truncate then made
      else
        var index := Find(made.table, name);
        if index.None? then made
        else Outcome(made.table[index.value := Truncated(made.table[index.value], now)], ERR_OK)
  }

  function Truncated(e: Entry, now: nat): Entry {
    Entry(KIND_FILE, e.name, 0, [], e.created, now, e.mode)
  }

  /** The same on the file map. */
  function MapOpen(m: FileMap, name: seq<byte>, flags: Flags, now: nat): MapOutcome {
    if !MapParentOk(m, name) then MapOutcome(m, ERR_NOENT)
    else if name in m && m[name].dir then MapOutcome(m, ERR_ISDIR)
    else if name in m && flags.createNew then MapOutcome(m, ERR_EXIST)
    else if name !in m && !flags.create then MapOutcome(m, ERR_NOENT)
    else
      var made := MapCreate(m, name, now);
      if made.error == ERR_OK && flags.truncate && name in made.files
      then MapOutcome(made.files[name := made.files[name].(data := [])], ERR_OK)
      else made
  }

  lemma TruncateRefines(t: seq<Entry>, d: seq<Sector>, i: nat, now: nat)
    requires WellFormed(t) && i < |t| && IsFile(t[i]) && now < MAX_CLOCK
    ensures WellFormed(t[i := Truncated(t[i], now)])
    ensures Files(t[i := Truncated(t[i], now)], d) ==
            Files(t, d)[t[i].name := NodeOf(d, t[i]).(data := [])]
  {
    WellFormedMeans(t);
    WellFormedMeans(t[i := Truncated(t[i], now)]);
    var e := Truncated(t[i], now);
    RelabelKeepsWellFormed(t, i, e);
    assert Contents(d, e) == [];
    FilesMove(t, d, i, e);
  }

  lemma OpenRefines(t: seq<Entry>, d: seq<Sector>, name: seq<byte>, flags: Flags, now: nat)
    requires WellFormed(t) && IsDisk(d) && ValidPath(name) && now < MAX_CLOCK
    ensures var o := OpenTable(t, name, flags, now);
      WellFormed(o.table) && MapOpen(Files(t, d), name, flags, now) == MapOutcome(Files(o.table, d), o.error)
  {
    WellFormedMeans(t);
    FilesFind(t, d, name);
    MapLookups(t, d, name);
    StepRefinesMap(t, d, CreateOp(name, now));
    var made := Create(t, name, now);
    FilesFind(made.table, d, name);
    if made.error == ERR_OK && flags.truncate && !(Find(t, name).Some? && IsDir(t[Find(t, name).value])) {
      TruncateRefines(made.table, d, Find(made.table, name).value, now);
    }
  }

  method OpenIn(header: array<byte>, name: seq<byte>, flags: Flags, now: nat) returns (error: nat, index: nat)
    requires GoodHeader(header[..]) && ValidPath(name) && now < MAX_CLOCK
    modifies header
    ensures Formatted(header[..])
    ensures OpenTable(old(TableOf(header[..])), name, flags, now) == Outcome(TableOf(header[..]), error)
    ensures error == ERR_OK ==> Find(TableOf(header[..]), name) == Some(index)
  {
    var t := TableOf(header[..]);
    WellFormedEndsFit(t);
    index := 0;
    var parent := ParentExists(t, name);
    if !parent {
      return ERR_NOENT, index;
    }
    var found := FindEntry(t, name);
    if found.Some? {
      if IsDir(t[found.value]) {
        return ERR_ISDIR, index;
      }
      if flags.createNew {
        return ERR_EXIST, index;
      }
      index := found.value;
    } else if flags.create {
      var slot := FreeEntry(t);
      if slot.None? {
        return ERR_NOSPC, index;
      }
      index := slot.value;
      StepKeepsWellFormed(t, CreateOp(name, now));
      SetEntry(header, index, NewEntry(KIND_FILE, name, now, MODE_DEFAULT_FILE));
    } else {
      return ERR_NOENT, index;
    }
    var made := TableOf(header[..]);
    NamesOk(made);
    FindUsed(made, index);
    error := ERR_OK;
    if flags.truncate {
      WellFormedEndsFit(made);
      EntryOk(made, index);
      SetEntry(header, index, Truncated(made[index], now));
      TruncatedFound(made, name, index, now);
    }
  }

  lemma TruncatedFound(t: seq<Entry>, name: seq<byte>, i: nat, now: nat)
    requires WellFormed(t) && i < |t| && Used(t[i]) && t[i].name == name
    ensures Find(t[i := Truncated(t[i], now)], name) == Some(i)
  {
    WellFormedMeans(t);
    FindUsed(t[i := Truncated(t[i], now)], i);
  }

  /** The disk after an open: untouched on bad arguments or no format, else the step on table and map;
      running out of slots is reported after that step. */
  ghost predicate Opened(d: seq<Sector>, d': seq<Sector>, name: seq<byte>, flags: Flags, now: nat, error: nat,
                         free: Option<nat>)
    requires DiskInv(d) && DiskInv(d')
  {
    if !ValidPath(name) || BadFlags(flags) then error == ERR_INVAL && d' == d
    else if !Formatted(HeaderOf(d)) then error == ERR_IO && d' == d
    else
      var o := OpenTable(TableOn(d), name, flags, now);
      && Rewritten(d, d', o.table)
      && MapOpen(FilesOn(d), name, flags, now) == MapOutcome(FilesOn(d'), o.error)
      && error == if o.error == ERR_OK && free.None? then ERR_NOSPC else o.error
  }

  lemma OpenCommits(d: seq<Sector>, d': seq<Sector>, name: seq<byte>, flags: Flags, now: nat, h: seq<byte>, error: nat)
    requires Mounted(d) && IsDisk(d') && ValidPath(name) && now < MAX_CLOCK
    requires Formatted(h) && OpenTable(TableOn(d), name, flags, now) == Outcome(TableOf(h), error)
    requires HeaderOf(d') == h || (error != ERR_OK && d' == d)
    requires forall x :: HEADER_SECTORS <= x < DISK_SECTORS ==> d'[x] == d[x]
    ensures DiskInv(d') && Rewritten(d, d', TableOf(h))
    ensures MapOpen(FilesOn(d), name, flags, now) == MapOutcome(FilesOn(d'), error)
  {
    OpenRefines(TableOn(d), d, name, flags, now);
    FilesIgnoreHeader(TableOf(h), d, d');
    FailedOpenChangesNothing(TableOn(d), name, flags, now);
  }

  lemma FailedOpenChangesNothing(t: seq<Entry>, name: seq<byte>, flags: Flags, now: nat)
    ensures OpenTable(t, name, flags, now).error != ERR_OK ==> OpenTable(t, name, flags, now).table == t
  {
  }

  // ---- Writing through a handle ----

  function WriteOffset(h: Fd): nat {
    if h.flags.append then h.len else h.offset
  }

  function HandleAfter(h: Fd, data: seq<byte>, ok: bool): Fd {
    if !h.open || !h.flags.write then h
    else
      var end := WriteOffset(h) + |data|;
      if !ok then h.(offset := WriteOffset(h))
      else h.(offset := end, len := if end > h.len then end else h.len)
  }

  /** A write through handle `h`: exactly when it succeeds, and what it leaves. */
  ghost predicate HandleWrite(d: seq<Sector>, d': seq<Sector>, h: Fd, data: seq<byte>, ok: bool)
    requires DiskInv(d) && DiskInv(d') && h.index < ENTRY_COUNT
  {
    var end := WriteOffset(h) + |data|;
    && (ok <==> h.open && h.flags.write && end <= FILE_MAX && Fits(d, h.index, end))
    && (!ok ==> d' == d)
    && (ok ==> Mounted(d') && WroteFile(TableOn(d), d, TableOn(d'), d', h, data)
               && Landed(d', h.index, WriteOffset(h), data))
  }

  /** The sectors of entry `index` hold `data` at `offset`. */
  ghost predicate Landed(d: seq<Sector>, index: nat, offset: nat, data: seq<byte>)
    requires Mounted(d) && index < ENTRY_COUNT
  {
    Reaches(TableOn(d)[index], offset, |data|) && Held(d, index, offset, |data|) == data
  }

  lemma NoWrite(d: seq<Sector>, h: Fd, data: seq<byte>)
    requires DiskInv(d) && h.index < ENTRY_COUNT && !(h.open && h.flags.write && WriteOffset(h) + |data| <= FILE_MAX)
    ensures HandleWrite(d, d, h, data, false)
  {
  }

  /** The map after a successful write: the handle's file has the written bytes, nothing else changed. */
  ghost predicate WroteFile(t: seq<Entry>, d: seq<Sector>, t': seq<Entry>, d': seq<Sector>, h: Fd, data: seq<byte>)
    requires h.index < |t|
  {
    var e := t[h.index];
    var node := NodeOf(d, e);
    && |t'| == |t| && Used(t'[h.index]) && t'[h.index].name == e.name
    && Files(t', d') == Files(t, d)[e.name := node.(data := WrittenVia(node.data, h.len, WriteOffset(h), data))]
  }

  /** What a write through `h` put down is what any handle of that file reads there. The bytes are part of the file
      unless `h` takes the file for longer than it is and the write ends in between. */
  lemma WrittenReadsBack(d: seq<Sector>, d': seq<Sector>, h: Fd, data: seq<byte>, r: Fd)
    requires DiskInv(d) && DiskInv(d') && h.index < ENTRY_COUNT && HandleWrite(d, d', h, data, true)
    requires r.open && r.flags.read && r.index == h.index && r.offset == WriteOffset(h)
    requires r.offset + |data| <= r.len
    ensures HandleRead(d', r, |data|) == Some(data)
    ensures FileCovers(d', h.index, WriteOffset(h) + |data|) <==>
            WriteOffset(h) + |data| > h.len || WriteOffset(h) + |data| <= TableOn(d)[h.index].size
  {
    hide WrittenVia, Contents, WellFormed, Canonical, Lbas, Reaches, Held;
    var t, t', i, off := TableOn(d), TableOn(d'), h.index, WriteOffset(h);
    NamesOk(t');
    EntryOk(t, i);
    ContentsLength(d, t[i]);
    FindUsed(t', i);
    FilesFind(t', d', t[i].name);
    var c := WrittenVia(Contents(d, t[i]), h.len, off, data);
    assert NodeOf(d', t'[i]) == NodeOf(d, t[i]).(data := c);
    EntryOk(t', i);
    ContentsLength(d', t'[i]);
    WrittenLength(Contents(d, t[i]), h.len, off, data);
  }

  lemma WrittenLength(c: seq<byte>, len: nat, off: nat, data: seq<byte>)
    ensures |WrittenVia(c, len, off, data)| == if off + |data| > len then off + |data| else |c|
  {
  }

  lemma UsedLbas(e: Entry)
    requires WellFormedEntry(e) && Used(e)
    ensures DataLbas(Lbas(e.extents))
  {
    if IsFile(e) {
      FileLbas(e);
    }
  }

  /** A write to slot `i` followed by any change of its size and clock, seen on the map. */
  lemma SlotWritten(t: seq<Entry>, d: seq<Sector>, i: nat, e: Entry, d': seq<Sector>)
    requires DistinctNames(t) && i < |t| && IsFile(t[i])
    requires e == t[i].(extents := e.extents, size := e.size, modified := e.modified)
    requires forall j :: 0 <= j < |t| && j != i && Used(t[j]) ==> NodeOf(d', t[j]) == NodeOf(d, t[j])
    ensures Files(t[i := e], d') == Files(t, d)[t[i].name := NodeOf(d, t[i]).(data := Contents(d', e))]
  {
    FilesStep(t, d, i, e, d');
    MapPut(Files(t, d), t[i].name, NodeOf(d', e));
  }

  lemma TableIs(d: seq<Sector>, d': seq<Sector>, t: seq<Entry>)
    requires Rewritten(d, d', t)
    ensures Mounted(d') && TableOn(d') == t
  {
  }

  /** A write leaves room to record its end as the size. */
  lemma DoneLeavesRoom(t: seq<Entry>, d: seq<Sector>, d': seq<Sector>, i: nat, off: nat, data: seq<byte>, e': Entry)
    requires i < |t| && WriteDone(t, d, d', i, off, data, e') && off + |data| <= FILE_MAX
    ensures CanResize(e', off + |data|) && Used(e')
  {
  }

  /** The bytes of a finished write are in the sectors whatever size is recorded. */
  lemma DataLanded(t: seq<Entry>, d: seq<Sector>, d1: seq<Sector>, d': seq<Sector>, i: nat, off: nat, data: seq<byte>,
                   e': Entry)
    requires i < |t| && WriteDone(t, d, d1, i, off, data, e') && off + |data| <= FILE_MAX
    requires IsDisk(d1) && Mounted(d') && i < ENTRY_COUNT && IsFile(TableOn(d')[i])
    requires TableOn(d')[i].extents == e'.extents
    requires forall x :: HEADER_SECTORS <= x < DISK_SECTORS ==> d'[x] == d1[x]
    ensures Landed(d', i, off, data)
  {
    hide HeaderOf, TableOf, WellFormed, Canonical, Raw, NodeOf, WrittenFront;
    var lbas, end := Lbas(e'.extents), off + |data|;
    EntryOk(TableOn(d'), i);
    UsedLbas(TableOn(d')[i]);
    RawFrame(d1, d', lbas);
    FrontHolds(Contents(d, t[i]), off, data);
    assert Contents(d1, e'.(size := end)) == Raw(d1, lbas)[..end];
    assert Raw(d1, lbas)[off..end] == Raw(d1, lbas)[..end][off..];
  }

  lemma FrontHolds(c: seq<byte>, off: nat, data: seq<byte>)
    ensures var f := WrittenFront(c, off, data, off + |data|); |f| == off + |data| && f[off..] == data
  {
  }

  lemma SameSizeFile(t: seq<Entry>, d: seq<Sector>, d1: seq<Sector>, h: Fd, data: seq<byte>, e': Entry)
    requires DistinctNames(t) && h.index < |t| && WriteOffset(h) + |data| <= h.len
    requires WriteDone(t, d, d1, h.index, WriteOffset(h), data, e') && WriteOffset(h) + |data| <= FILE_MAX
    requires Mounted(d1) && h.index < ENTRY_COUNT && TableOn(d1) == t[h.index := e']
    ensures WroteFile(t, d, t[h.index := e'], d1, h, data) && Landed(d1, h.index, WriteOffset(h), data)
  {
    hide Landed, HeaderOf, TableOf, WellFormed, Contents;
    DataLanded(t, d, d1, d1, h.index, WriteOffset(h), data, e');
    assert e'.(size := t[h.index].size) == e';
    SlotWritten(t, d, h.index, e', d1);
  }

  lemma ResizedFile(t: seq<Entry>, d: seq<Sector>, d1: seq<Sector>, t': seq<Entry>, d': seq<Sector>,
                    h: Fd, data: seq<byte>, e': Entry, now: nat)
    requires DistinctNames(t) && h.index < |t| && WriteOffset(h) + |data| > h.len
    requires WriteDone(t, d, d1, h.index, WriteOffset(h), data, e')
    requires t' == t[h.index := e'.(size := WriteOffset(h) + |data|, modified := now)]
    requires IsDisk(d1) && DiskInv(d') && Rewritten(d1, d', t')
    requires WriteOffset(h) + |data| <= FILE_MAX && h.index < ENTRY_COUNT
    ensures WroteFile(t, d, t', d', h, data) && Landed(d', h.index, WriteOffset(h), data)
  {
    hide Landed;
    DataLanded(t, d, d1, d', h.index, WriteOffset(h), data, e');
    var e2 := e'.(size := WriteOffset(h) + |data|, modified := now);
    assert Contents(d1, e2) == Contents(d1, e'.(size := WriteOffset(h) + |data|));
    SlotWritten(t, d, h.index, e2, d1);
    FilesIgnoreHeader(t', d1, d');
  }

  /** Entry `index` is a file that owns, or can grow to, room for `size` bytes. */
  ghost predicate Fits(d: seq<Sector>, index: nat, size: nat)
    requires DiskInv(d) && index < ENTRY_COUNT
  {
    Mounted(d) && IsFile(TableOn(d)[index]) && CanHold(TableOn(d), index, SectorsForLen(size))
  }

  /** The disk after one namespace call: untouched if unformatted, else the step on table and map. */
  ghost predicate Stepped(d: seq<Sector>, d': seq<Sector>, op: NsOp, error: nat)
    requires DiskInv(d) && DiskInv(d')
  {
    if !Formatted(HeaderOf(d)) then error == ERR_IO && d' == d
    else
      && Rewritten(d, d', NsStep(TableOn(d), op).table)
      && MapStep(FilesOn(d), op) == MapOutcome(FilesOn(d'), error)
  }

  lemma Commits(d: seq<Sector>, d': seq<Sector>, op: NsOp, h: seq<byte>, error: nat)
    requires Mounted(d) && IsDisk(d') && Timely(op)
    requires Formatted(h) && NsStep(TableOn(d), op) == Outcome(TableOf(h), error)
    requires HeaderOf(d') == h || (error != ERR_OK && d' == d)
    requires forall x :: HEADER_SECTORS <= x < DISK_SECTORS ==> d'[x] == d[x]
    ensures DiskInv(d') && Stepped(d, d', op, error)
  {
    StepRefinesMap(TableOn(d), d, op);
    FilesIgnoreHeader(TableOf(h), d, d');
    FailedStepChangesNothing(TableOn(d), op);
  }

  lemma FailedStepChangesNothing(t: seq<Entry>, op: NsOp)
    ensures NsStep(t, op).error != ERR_OK ==> NsStep(t, op).table == t
  {
  }

  ghost predicate GoodHeader(h: seq<byte>) {
    Formatted(h) && WellFormed(TableOf(h))
  }

  method MkdirIn(header: array<byte>, name: seq<byte>, now: nat) returns (error: nat)
    requires GoodHeader(header[..]) && ValidPath(name) && now < MAX_CLOCK
    modifies header
    ensures Formatted(header[..])
    ensures Mkdir(old(TableOf(header[..])), name, now) == Outcome(TableOf(header[..]), error)
  {
    var t := TableOf(header[..]);
    WellFormedEndsFit(t);
    var parent := ParentExists(t, name);
    if !parent {
      return ERR_NOENT;
    }
    var found := FindEntry(t, name);
    if found.Some? {
      return ERR_EXIST;
    }
    var slot := FreeEntry(t);
    if slot.None? {
      return ERR_NOSPC;
    }
    SetEntry(header, slot.value, NewEntry(KIND_DIR, name, now, MODE_DEFAULT_DIR));
    return ERR_OK;
  }

  method UnlinkIn(header: array<byte>, name: seq<byte>) returns (error: nat)
    requires GoodHeader(header[..])
    modifies header
    ensures Formatted(header[..])
    ensures Unlink(old(TableOf(header[..])), name) == Outcome(TableOf(header[..]), error)
  {
    var t := TableOf(header[..]);
    WellFormedEndsFit(t);
    var index := FindEntry(t, name);
    if index.None? {
      return ERR_NOENT;
    }
    if IsDir(t[index.value]) {
      var empty := DirEmpty(t, name);
      if !empty {
        return ERR_INVAL;
      }
    }
    ClearEntry(header, index.value);
    return ERR_OK;
  }

  method RenameIn(header: array<byte>, oldName: seq<byte>, newName: seq<byte>, now: nat) returns (error: nat)
    requires GoodHeader(header[..]) && now < MAX_CLOCK
    modifies header
    ensures Formatted(header[..])
    ensures Rename(old(TableOf(header[..])), oldName, newName, now) == Outcome(TableOf(header[..]), error)
  {
    var t := TableOf(header[..]);
    WellFormedEndsFit(t);
    var oldOk := CheckPath(oldName);
    var newOk := CheckPath(newName);
    if !oldOk || !newOk {
      return ERR_INVAL;
    }
    var index := FindEntry(t, oldName);
    if index.None? {
      return ERR_NOENT;
    }
    var taken := FindEntry(t, newName);
    if taken.Some? {
      return ERR_EXIST;
    }
    var parent := ParentExists(t, newName);
    if !parent {
      return ERR_NOENT;
    }
    if IsDir(t[index.value]) {
      var empty := DirEmpty(t, oldName);
      if !empty {
        return ERR_INVAL;
      }
    }
    EntryOk(t, index.value);
    SetEntry(header, index.value, t[index.value].(name := newName, modified := now));
    return ERR_OK;
  }
}
