/** The descriptor table that files and pipes share, and what the calls on it leave alone. */
module Descriptors {
  import opened Common
  import opened PfsFormat
  import opened PfsTable
  import opened PfsNamespace
  import opened PfsFiles
  import opened FdTypes
  import opened Pipes
  import opened PfsDisk
  import opened PfsOpens

  /** A descriptor that is still the same one; its position and remembered length may have moved. */
  predicate SameHandle(a: Fd, b: Fd) {
    b.open == a.open && b.kind == a.kind && b.flags == a.flags && b.index == a.index
  }

  /** Every descriptor open in the first table is the same one in the second. */
  predicate StillOpen(fds: seq<Fd>, fds': seq<Fd>) {
    |fds| == |fds'| && forall i :: 0 <= i < |fds| && fds[i].open ==> SameHandle(fds[i], fds'[i])
  }

  lemma StillOpenChain(a: seq<Fd>, b: seq<Fd>, c: seq<Fd>)
    requires StillOpen(a, b) && StillOpen(b, c)
    ensures StillOpen(a, c)
  {
    forall i | 0 <= i < |a| && a[i].open ensures SameHandle(a[i], c[i]) {
      assert SameHandle(a[i], b[i]);
    }
  }

  /** File handles name entries of the table on disk. */
  predicate FilesOk(fds: seq<Fd>) {
    forall i :: 0 <= i < |fds| && fds[i].kind.PfsFile? ==> fds[i].index < ENTRY_COUNT
  }

  /** Pipes and files over one descriptor table. */
  ghost predicate Shared(tables: PipeTable, pfs: Pfs)
    reads tables, tables.fds, tables.pipes, pfs.disk
  {
    pfs.fds == tables.fds && tables.Valid() && pfs.Valid() && FilesOk(tables.fds[..])
  }

  /** A descriptor moves; the pipes do not notice. */
  lemma MovedKeeps(fds: seq<Fd>, pipes: seq<Pipe>, i: nat, fd: Fd)
    requires Agree(fds, pipes) && FilesOk(fds) && i < |fds| && SameHandle(fds[i], fd)
    ensures Agree(fds[i := fd], pipes) && FilesOk(fds[i := fd]) && StillOpen(fds, fds[i := fd])
  {
    var fds' := fds[i := fd];
    forall p | 0 <= p < |pipes|
      ensures (IsOpenEnd(fds, PipeRead, p) <==> IsOpenEnd(fds', PipeRead, p))
              && (IsOpenEnd(fds, PipeWrite, p) <==> IsOpenEnd(fds', PipeWrite, p))
    {
      SameEnds(fds, fds', PipeRead, p);
      SameEnds(fds, fds', PipeWrite, p);
    }
  }

  lemma SameEnds(fds: seq<Fd>, fds': seq<Fd>, kind: FdKind, p: nat)
    requires |fds| == |fds'| && forall i :: 0 <= i < |fds| ==> SameHandle(fds[i], fds'[i])
    ensures IsOpenEnd(fds, kind, p) <==> IsOpenEnd(fds', kind, p)
  {
    forall i | 0 <= i < |fds| ensures IsEnd(fds[i], kind, p) <==> IsEnd(fds'[i], kind, p) {
    }
  }

  /** A closed slot is taken by a file or a boot file. */
  lemma TakenKeeps(fds: seq<Fd>, pipes: seq<Pipe>, i: nat, fd: Fd)
    requires Agree(fds, pipes) && FilesOk(fds) && i < |fds| && !fds[i].open
    requires fd.kind == BootFs || (fd.kind == PfsFile && fd.index < ENTRY_COUNT)
    ensures Agree(fds[i := fd], pipes) && FilesOk(fds[i := fd]) && StillOpen(fds, fds[i := fd])
  {
    OtherKeepsAgree(fds, pipes, i, fd);
  }

  /** Pipe ends and closed descriptors name no entries. */
  lemma EndsKeepFiles(fds: seq<Fd>, r: nat, w: nat, p: nat)
    requires FilesOk(fds) && r < |fds| && w < |fds|
    ensures FilesOk(WithEnds(fds, r, w, p))
  {
  }

  /** What a write or a read does to a handle. */
  lemma HandleStays(h: Fd, data: seq<byte>, ok: bool, offset: nat)
    ensures SameHandle(h, HandleAfter(h, data, ok)) && SameHandle(h, h.(offset := offset))
  {
  }

  // ---- The calls ----

  lemma OpenedIndex(d: seq<Sector>, name: seq<byte>, flags: Flags, fd: Fd)
    requires OpensAs(d, name, flags, fd)
    ensures fd.kind == PfsFile && fd.index < ENTRY_COUNT && fd.open
  {
  }

  /** Opening a file: the file system's step, and on success the handle in the first closed slot. */
  ghost predicate OpenStep(d: seq<Sector>, d': seq<Sector>, fds: seq<Fd>, fds': seq<Fd>, name: seq<byte>, flags: Flags,
                           now: nat)
    requires DiskInv(d) && DiskInv(d')
  {
    var free := FirstClosed(fds, 0);
    exists error: nat ::
      && Opened(d, d', name, flags, now, error, free)
      && if error != ERR_OK then fds' == fds
         else free.Some? && |fds'| == |fds| && OpensAs(d', name, flags, fds'[free.value])
              && fds' == fds[free.value := fds'[free.value]]
  }

  /** abi_open on a name of the file system. */
  method OpenFile(tables: PipeTable, pfs: Pfs, name: seq<byte>, flags: Flags, now: nat) returns (error: nat, slot: nat)
    requires Shared(tables, pfs) && now < MAX_CLOCK
    modifies pfs.disk, tables.fds
    ensures Shared(tables, pfs) && StillOpen(old(tables.fds[..]), tables.fds[..])
    ensures Opened(old(pfs.disk[..]), pfs.disk[..], name, flags, now, error, old(FirstClosed(tables.fds[..], 0)))
    ensures error == ERR_OK ==> slot < FD_COUNT && !old(tables.fds[..])[slot].open
    ensures error == ERR_OK ==> OpensAs(pfs.disk[..], name, flags, tables.fds[slot])
    ensures error == ERR_OK ==> old(FirstClosed(tables.fds[..], 0)) == Some(slot)
    ensures OpenStep(old(pfs.disk[..]), pfs.disk[..], old(tables.fds[..]), tables.fds[..], name, flags, now)
    ensures tables.fds[..] == if error == ERR_OK then old(tables.fds[..])[slot := tables.fds[slot]]
      else old(tables.fds[..])
  {
    hide Opened, Agree, DiskInv, Accounted, Mounted;
    ghost var fds := tables.fds[..];
    error, slot := pfs.Open(name, flags, now);
    if error == ERR_OK {
      OpenedIndex(pfs.disk[..], name, flags, tables.fds[slot]);
      TakenKeeps(fds, tables.pipes[..], slot, tables.fds[slot]);
    }
  }

  /** A boot file takes the first closed slot, read only. */
  predicate BootStep(fds: seq<Fd>, fds': seq<Fd>, len: nat) {
    match FirstClosed(fds, 0)
    case None => fds' == fds
    case Some(i) => fds' == fds[i := Fd(true, BootFs, NO_FLAGS.(read := true), len, 0, 0)]
  }

  /** abi_open on a file of the boot volume. */
  method OpenBoot(tables: PipeTable, pfs: Pfs, len: nat) returns (slot: Option<nat>)
    requires Shared(tables, pfs)
    modifies tables.fds
    ensures Shared(tables, pfs) && StillOpen(old(tables.fds[..]), tables.fds[..])
    ensures slot == old(FirstClosed(tables.fds[..], 0)) && BootStep(old(tables.fds[..]), tables.fds[..], len)
  {
    hide Agree, DiskInv, Accounted;
    slot := FindClosed(tables.fds);
    if slot.Some? {
      var handle := Fd(true, BootFs, NO_FLAGS.(read := true), len, 0, 0);
      TakenKeeps(tables.fds[..], tables.pipes[..], slot.value, handle);
      tables.Occupy(slot.value, handle);
    }
  }

  /** What a read leaves: the pipe's oldest bytes, the file's, or so many of a boot file, whose bytes are not
      modelled. */
  ghost predicate ReadDone(d: seq<Sector>, fds: seq<Fd>, fds': seq<Fd>, pipes: seq<Pipe>, pipes': seq<Pipe>, fd: int,
                           n: nat, count: Option<nat>, data: seq<byte>)
    requires DiskInv(d) && |fds| == |fds'| == FD_COUNT && FilesOk(fds) && Agree(fds, pipes)
  {
    var s := SlotOf(fd);
    if s.None? || !fds[s.value].open || !fds[s.value].flags.read then count.None? && fds' == fds && pipes' == pipes
    else
      var i, h := s.value, fds[s.value];
      match h.kind
      case PfsFile => pipes' == pipes && (
        match HandleRead(d, h, n)
        case None => count.None? && fds' == fds
        case Some(r) => count == Some(|r|) && data == r && fds' == fds[i := h.(offset := h.offset + |r|)])
      case BootFs =>
        var copied := Min(n, Remaining(h.len, h.offset));
        count == Some(copied) && fds' == fds[i := h.(offset := h.offset + copied)] && pipes' == pipes
      case PipeRead =>
        && h.index < PIPE_COUNT && count == Some(|data|) && fds' == fds
        && data == Buffered(pipes[h.index])[..Min(n, |Buffered(pipes[h.index])|)]
        && |data| <= |Buffered(pipes[h.index])| && pipes' == pipes[h.index := Popped(pipes[h.index], |data|)]
      case _ => count.None? && fds' == fds && pipes' == pipes
  }

  /** abi_read. */
  method Read(tables: PipeTable, pfs: Pfs, fd: int, n: nat) returns (count: Option<nat>, data: seq<byte>)
    requires Shared(tables, pfs)
    modifies tables, tables.pipes, tables.fds
    ensures Shared(tables, pfs) && StillOpen(old(tables.fds[..]), tables.fds[..])
    ensures ReadDone(pfs.disk[..], old(tables.fds[..]), tables.fds[..], old(tables.pipes[..]), tables.pipes[..], fd, n,
                     count, data)
  {
    hide Agree, DiskInv, Accounted, HandleRead, Buffered, Popped;
    data := [];
    ghost var fds, pipes := tables.fds[..], tables.pipes[..];
    var r := tables.Read(fd, n);
    if r.Got? {
      return Some(|r.data|), r.data;
    }
    var s := SlotOf(fd);
    if r.ReadFailed? {
      return None, data;
    }
    var slot := s.value;
    var h := tables.fds[slot];
    if h.kind.PfsFile? {
      var bytes := pfs.ReadFd(slot, n);
      HandleStays(h, [], true, tables.fds[slot].offset);
      MovedKeeps(fds, pipes, slot, tables.fds[slot]);
      assert fds[slot := h] == fds;
      return (if bytes.None? then None else Some(|bytes.value|)), (if bytes.None? then [] else bytes.value);
    }
    var copied := Min(n, Remaining(h.len, h.offset));
    MovedKeeps(fds, pipes, slot, h.(offset := h.offset + copied));
    tables.fds[slot] := h.(offset := h.offset + copied);
    assert tables.fds[..] == fds[slot := h.(offset := h.offset + copied)];
    return Some(copied), data;
  }

  /** What a write leaves. */
  ghost predicate WriteMade(d: seq<Sector>, d': seq<Sector>, fds: seq<Fd>, fds': seq<Fd>, pipes: seq<Pipe>,
                            pipes': seq<Pipe>, fd: int, data: seq<byte>, count: Option<nat>)
    requires DiskInv(d) && DiskInv(d') && |fds| == FD_COUNT && FilesOk(fds) && Agree(fds, pipes)
  {
    var s := SlotOf(fd);
    if s.None? || !fds[s.value].open || !fds[s.value].flags.write || !(fds[s.value].kind in {PfsFile, PipeWrite}) then
      count.None? && d' == d && fds' == fds && pipes' == pipes
    else
      var i, h := s.value, fds[s.value];
      if h.kind.PfsFile? then
        && pipes' == pipes && (count.Some? ==> count.value == |data|)
        && HandleWrite(d, d', h, data, count.Some?) && fds' == fds[i := HandleAfter(h, data, count.Some?)]
      else
        && h.index < PIPE_COUNT && d' == d && fds' == fds
        && var pipe := pipes[h.index]; var n := Room(pipe, |data|);
           if !pipe.readOpen || (n == 0 && data != []) then count.None? && pipes' == pipes
           else count == Some(n) && pipes' == pipes[h.index := Pushed(pipe, data[..n])]
  }

  /** abi_write_fd. */
  method Write(tables: PipeTable, pfs: Pfs, fd: int, data: seq<byte>, now: nat) returns (count: Option<nat>)
    requires Shared(tables, pfs) && now < MAX_CLOCK
    modifies tables, tables.pipes, tables.fds, pfs.disk
    ensures Shared(tables, pfs) && StillOpen(old(tables.fds[..]), tables.fds[..])
    ensures WriteMade(old(pfs.disk[..]), pfs.disk[..], old(tables.fds[..]), tables.fds[..], old(tables.pipes[..]),
                      tables.pipes[..], fd, data, count)
  {
    hide Agree, DiskInv, Accounted, HandleWrite, Pushed, HandleAfter;
    ghost var fds, pipes := tables.fds[..], tables.pipes[..];
    var r := tables.Write(fd, data);
    if r.Wrote? {
      return Some(r.count);
    }
    if r.WriteFailed? {
      return None;
    }
    var slot := SlotOf(fd).value;
    var h := tables.fds[slot];
    count := pfs.WriteFd(slot, data, now);
    HandleStays(h, data, count.Some?, 0);
    MovedKeeps(fds, pipes, slot, tables.fds[slot]);
    assert tables.fds[..] == fds[slot := tables.fds[slot]];
  }

  predicate CanSeek(fds: seq<Fd>, fd: int, offset: nat)
    requires |fds| == FD_COUNT
  {
    var s := SlotOf(fd);
    s.Some? && fds[s.value].open && (fds[s.value].kind.BootFs? ==> offset <= fds[s.value].len)
  }

  predicate SeekStep(fds: seq<Fd>, fds': seq<Fd>, fd: int, offset: nat)
    requires |fds| == FD_COUNT
  {
    fds' == if CanSeek(fds, fd, offset) then fds[SlotOf(fd).value := fds[SlotOf(fd).value].(offset := offset)] else fds
  }

  /** abi_seek: any position, but not past the end of a boot file. */
  method Seek(tables: PipeTable, pfs: Pfs, fd: int, offset: nat) returns (ok: bool)
    requires Shared(tables, pfs)
    modifies tables.fds
    ensures Shared(tables, pfs) && StillOpen(old(tables.fds[..]), tables.fds[..])
    ensures ok <==> CanSeek(old(tables.fds[..]), fd, offset)
    ensures SeekStep(old(tables.fds[..]), tables.fds[..], fd, offset)
  {
    hide Agree, DiskInv, Accounted;
    var s := SlotOf(fd);
    if s.None? || !tables.fds[s.value].open {
      return false;
    }
    var h := tables.fds[s.value];
    if h.kind.BootFs? && offset > h.len {
      return false;
    }
    MovedKeeps(tables.fds[..], tables.pipes[..], s.value, h.(offset := offset));
    tables.fds[s.value] := h.(offset := offset);
    assert tables.fds[..] == old(tables.fds[..])[s.value := h.(offset := offset)];
    return true;
  }

  /** A read after a seek gives what the file has at that position, */
  lemma SeekThenRead(d: seq<Sector>, fds: seq<Fd>, fds': seq<Fd>, later: seq<Fd>, pipes: seq<Pipe>, pipes': seq<Pipe>,
                     name: seq<byte>, fd: int, offset: nat, n: nat, count: Option<nat>, data: seq<byte>)
    requires DiskInv(d) && |fds| == |fds'| == |later| == FD_COUNT && FilesOk(fds') && Agree(fds', pipes)
    requires SlotOf(fd).Some? && var h := fds[SlotOf(fd).value]; OpensAs(d, name, h.flags, h) && h.flags.read
    requires SeekStep(fds, fds', fd, offset) && ReadDone(d, fds', later, pipes, pipes', fd, n, count, data)
    ensures name in FilesOn(d) && count == Some(|data|)
    ensures var c := FilesOn(d)[name].data; data == c[Min(offset, |c|)..Min(offset + n, |c|)]
  {
    hide Agree, DiskInv, HandleRead, OpensAs, FilesOn;
    var h := fds[SlotOf(fd).value];
    OpenedOn(d, name, h.flags, h);
    ReadsAnywhere(d, name, h.flags, h, offset, n);
  }

  /** and of a boot file that was just opened as many bytes as remain there. */
  lemma BootSeekThenRead(d: seq<Sector>, fds: seq<Fd>, booted: seq<Fd>, fds': seq<Fd>, later: seq<Fd>, pipes: seq<Pipe>,
                         pipes': seq<Pipe>, len: nat, offset: nat, n: nat, count: Option<nat>, data: seq<byte>)
    requires DiskInv(d) && |fds| == |fds'| == |later| == FD_COUNT && FilesOk(fds') && Agree(fds', pipes)
    requires FirstClosed(fds, 0).Some? && BootStep(fds, booted, len) && |booted| == FD_COUNT && offset <= len
    requires var fd := FirstClosed(fds, 0).value + FD_BASE;
      SeekStep(booted, fds', fd, offset) && ReadDone(d, fds', later, pipes, pipes', fd, n, count, data)
    ensures count == Some(Min(n, len - offset))
  {
    hide Agree, DiskInv, HandleRead;
  }

  /** The ends of a new pipe in the first two closed slots. */
  ghost predicate PipeAdded(fds: seq<Fd>, pipes: seq<Pipe>, fds': seq<Fd>, pipes': seq<Pipe>, r: int, w: int)
    requires |fds| == FD_COUNT && |pipes| == PIPE_COUNT
  {
    exists i: nat, j: nat, p: nat ::
        i < j < FD_COUNT && r == i + FD_BASE && w == j + FD_BASE && p < PIPE_COUNT && !fds[i].open && !fds[j].open
        && !pipes[p].used && (forall k :: 0 <= k < j && k != i ==> fds[k].open)
        && fds' == WithEnds(fds, i, j, p) && pipes' == pipes[p := FreshPipe()]
  }

  predicate PipeFits(fds: seq<Fd>, pipes: seq<Pipe>) {
    PipesLeft(pipes) >= 1 && Closed(fds) >= 2
  }

  ghost predicate PipeStep(fds: seq<Fd>, fds': seq<Fd>, pipes: seq<Pipe>, pipes': seq<Pipe>)
    requires |fds| == FD_COUNT && |pipes| == PIPE_COUNT
  {
    if PipeFits(fds, pipes) then exists r, w :: PipeAdded(fds, pipes, fds', pipes', r, w)
    else fds' == fds && pipes' == pipes
  }

  /** abi_pipe. */
  method OpenPipe(tables: PipeTable, pfs: Pfs) returns (r: Option<(int, int)>)
    requires Shared(tables, pfs)
    modifies tables, tables.fds, tables.pipes
    ensures Shared(tables, pfs) && StillOpen(old(tables.fds[..]), tables.fds[..])
    ensures r.Some? <==> PipeFits(old(tables.fds[..]), old(tables.pipes[..]))
    ensures r.None? ==> tables.fds[..] == old(tables.fds[..]) && tables.pipes[..] == old(tables.pipes[..])
    ensures r.Some? ==>
      PipeAdded(old(tables.fds[..]), old(tables.pipes[..]), tables.fds[..], tables.pipes[..], r.value.0, r.value.1)
    ensures PipeStep(old(tables.fds[..]), tables.fds[..], old(tables.pipes[..]), tables.pipes[..])
  {
    hide Agree, DiskInv, Accounted, FilesOk, WithEnds, FreshPipe, PipesLeft, Closed;
    ghost var fds, pipes := tables.fds[..], tables.pipes[..];
    NoneLeft(pipes);
    r := tables.MakePipe();
    if r.Some? {
      AddedKeeps(fds, pipes, tables.fds[..], tables.pipes[..], r.value.0, r.value.1);
    }
  }

  lemma AddedKeeps(fds: seq<Fd>, pipes: seq<Pipe>, fds': seq<Fd>, pipes': seq<Pipe>, r: int, w: int)
    requires |fds| == FD_COUNT && |pipes| == PIPE_COUNT && FilesOk(fds) && PipeAdded(fds, pipes, fds', pipes', r, w)
    ensures FilesOk(fds') && StillOpen(fds, fds')
    ensures Closed(fds') + 2 == Closed(fds) && PipesLeft(pipes') + 1 == PipesLeft(pipes)
  {
    hide FilesOk, Closed, PipesLeft;
    var i: nat, j: nat, p: nat :| i < j < FD_COUNT && r == i + FD_BASE && w == j + FD_BASE && p < PIPE_COUNT
      && !fds[i].open && !fds[j].open && !pipes[p].used && fds' == WithEnds(fds, i, j, p)
      && pipes' == pipes[p := FreshPipe()];
    EndsKeepFiles(fds, i, j, p);
    OneOpened(fds, i, Fd(true, PipeRead, READ_END, 0, 0, p));
    OneOpened(fds[i := Fd(true, PipeRead, READ_END, 0, 0, p)], j, Fd(true, PipeWrite, WRITE_END, 0, 0, p));
    OneLess(pipes, p, FreshPipe());
  }

  /** abi_close. */
  method Close(tables: PipeTable, pfs: Pfs, fd: int) returns (status: int)
    requires Shared(tables, pfs)
    modifies tables.fds, tables.pipes
    ensures Shared(tables, pfs)
    ensures status == if SlotOf(fd).Some? && old(tables.fds[..])[SlotOf(fd).value].open then 0 else -1
    ensures Closes(old(tables.fds[..]), tables.fds[..], old(tables.pipes[..]), tables.pipes[..], fd)
  {
    hide Agree, DiskInv, Accounted;
    status := tables.Close(fd);
  }

  /** The descriptor is cleared if it was open, and with it its end of a pipe. */
  predicate Closes(fds: seq<Fd>, fds': seq<Fd>, pipes: seq<Pipe>, pipes': seq<Pipe>, fd: int)
    requires |fds| == FD_COUNT && |pipes| == PIPE_COUNT
  {
    if SlotOf(fd).None? || !fds[SlotOf(fd).value].open then fds' == fds && pipes' == pipes
    else
      var i, gone := SlotOf(fd).value, fds[SlotOf(fd).value];
      && fds' == fds[i := EMPTY_FD]
      && if !IsPipeKind(gone.kind) then pipes' == pipes
         else gone.index < PIPE_COUNT && pipes' == pipes[gone.index := EndClosed(pipes[gone.index], gone.kind)]
  }

  // ---- What others do ----

  /** The calls that touch what processes share: descriptors, pipes and the file system. */
  datatype SharedCall =
    | CallOpen(name: seq<byte>, flags: Flags)
    | CallOpenBoot(len: nat)
    | CallPipe
    | CallRead(fd: int, n: nat)
    | CallWrite(fd: int, data: seq<byte>)
    | CallSeek(fd: int, offset: nat)
    | CallClose(fd: int)
    | CallMkdir(name: seq<byte>)
    | CallUnlink(name: seq<byte>)
    | CallRename(oldName: seq<byte>, newName: seq<byte>)

  /** What processes share, as a value. */
  datatype Tables = Tables(fds: seq<Fd>, pipes: seq<Pipe>, disk: seq<Sector>)

  ghost predicate TablesOk(t: Tables) {
    |t.fds| == FD_COUNT && FilesOk(t.fds) && Agree(t.fds, t.pipes) && DiskInv(t.disk)
  }

  ghost function TablesNow(tables: PipeTable, pfs: Pfs): Tables
    reads tables.fds, tables.pipes, pfs.disk
  {
    Tables(tables.fds[..], tables.pipes[..], pfs.disk[..])
  }

  /** A call on names: on a valid one it is the file system's step, another one changes nothing. */
  ghost predicate NameStep(d: seq<Sector>, d': seq<Sector>, name: seq<byte>, op: NsOp)
    requires DiskInv(d) && DiskInv(d')
  {
    if ValidPath(name) then exists error :: Stepped(d, d', op, error) else d' == d
  }

  /** What one call makes of the shared tables. */
  ghost predicate Called(t: Tables, call: SharedCall, now: nat, t': Tables)
    requires TablesOk(t) && TablesOk(t')
  {
    match call
    case CallOpen(name, flags) => t'.pipes == t.pipes && OpenStep(t.disk, t'.disk, t.fds, t'.fds, name, flags, now)
    case CallOpenBoot(len) => t'.pipes == t.pipes && t'.disk == t.disk && BootStep(t.fds, t'.fds, len)
    case CallPipe => t'.disk == t.disk && PipeStep(t.fds, t'.fds, t.pipes, t'.pipes)
    case CallRead(fd, n) =>
      t'.disk == t.disk && exists count, data :: ReadDone(t.disk, t.fds, t'.fds, t.pipes, t'.pipes, fd, n, count, data)
    case CallWrite(fd, data) =>
      exists count :: WriteMade(t.disk, t'.disk, t.fds, t'.fds, t.pipes, t'.pipes, fd, data, count)
    case CallSeek(fd, offset) => t'.pipes == t.pipes && t'.disk == t.disk && SeekStep(t.fds, t'.fds, fd, offset)
    case CallClose(fd) => t'.disk == t.disk && Closes(t.fds, t'.fds, t.pipes, t'.pipes, fd)
    case CallMkdir(name) =>
      t'.fds == t.fds && t'.pipes == t.pipes && NameStep(t.disk, t'.disk, name, MkdirOp(name, now))
    case CallUnlink(name) =>
      t'.fds == t.fds && t'.pipes == t.pipes && NameStep(t.disk, t'.disk, name, UnlinkOp(name))
    case CallRename(oldName, newName) =>
      t'.fds == t.fds && t'.pipes == t.pipes && NameStep(t.disk, t'.disk, oldName, RenameOp(oldName, newName, now))
  }

  /** The call closes none of the descriptors that are open in `fds`. */
  predicate Considerate(fds: seq<Fd>, call: SharedCall)
    requires |fds| == FD_COUNT
  {
    call.CallClose? ==> SlotOf(call.fd).None? || !fds[SlotOf(call.fd).value].open
  }

  /** The calls on names touch no descriptor. */
  method NameCall(tables: PipeTable, pfs: Pfs, call: SharedCall, now: nat)
    requires Shared(tables, pfs) && now < MAX_CLOCK && (call.CallMkdir? || call.CallUnlink? || call.CallRename?)
    modifies pfs.disk
    ensures Shared(tables, pfs) && tables.fds[..] == old(tables.fds[..])
    ensures TablesOk(old(TablesNow(tables, pfs))) && TablesOk(TablesNow(tables, pfs))
    ensures Called(old(TablesNow(tables, pfs)), call, now, TablesNow(tables, pfs))
  {
    hide Agree, DiskInv, Accounted, FilesOk, Stepped, ValidPath;
    match call {
      case CallMkdir(name) =>
        var ok := CheckPath(name);
        if ok {
          var error := pfs.Mkdir(name, now);
        }
      case CallUnlink(name) =>
        var ok := CheckPath(name);
        if ok {
          var error := pfs.Unlink(name);
        }
      case CallRename(oldName, newName) =>
        var ok := CheckPath(oldName);
        if ok {
          var error := pfs.Rename(oldName, newName, now);
        }
    }
  }

  /** One call of another process. */
  method Do(tables: PipeTable, pfs: Pfs, call: SharedCall, now: nat, ghost fds0: seq<Fd>)
    requires Shared(tables, pfs) && now < MAX_CLOCK && |fds0| == FD_COUNT
    requires Considerate(fds0, call) && StillOpen(fds0, tables.fds[..])
    modifies tables, tables.fds, tables.pipes, pfs.disk
    ensures Shared(tables, pfs) && StillOpen(fds0, tables.fds[..])
    ensures TablesOk(old(TablesNow(tables, pfs))) && TablesOk(TablesNow(tables, pfs))
    ensures Called(old(TablesNow(tables, pfs)), call, now, TablesNow(tables, pfs))
  {
    hide Shared, Considerate, OpenStep, BootStep, PipeStep, ReadDone, WriteMade, SeekStep, Closes, TablesOk;
    ghost var fds := tables.fds[..];
    SharedOk(tables, pfs);
    match call {
      case CallOpen(name, flags) =>
        var error, slot := OpenFile(tables, pfs, name, flags, now);
      case CallOpenBoot(len) =>
        var slot := OpenBoot(tables, pfs, len);
      case CallPipe =>
        var ends := OpenPipe(tables, pfs);
      case CallRead(fd, n) =>
        var count, bytes := Read(tables, pfs, fd, n);
      case CallWrite(fd, data) =>
        var count := Write(tables, pfs, fd, data, now);
      case CallSeek(fd, offset) =>
        var ok := Seek(tables, pfs, fd, offset);
      case CallClose(fd) =>
        ghost var pipes := tables.pipes[..];
        var status := Close(tables, pfs, fd);
        ClosesOthers(fds0, fds, tables.fds[..], pipes, tables.pipes[..], fd);
        SharedOk(tables, pfs);
        return;
      case _ => NameCall(tables, pfs, call, now);
    }
    SharedOk(tables, pfs);
    StillOpenChain(fds0, fds, tables.fds[..]);
  }

  lemma SharedOk(tables: PipeTable, pfs: Pfs)
    requires Shared(tables, pfs)
    ensures TablesOk(TablesNow(tables, pfs)) && |tables.fds[..]| == FD_COUNT && |tables.pipes[..]| == PIPE_COUNT
  {
  }

  lemma ClosesOthers(fds0: seq<Fd>, fds: seq<Fd>, fds': seq<Fd>, pipes: seq<Pipe>, pipes': seq<Pipe>, fd: int)
    requires |fds0| == |fds| == |fds'| == FD_COUNT && |pipes| == PIPE_COUNT
    requires StillOpen(fds0, fds) && Considerate(fds0, CallClose(fd)) && Closes(fds, fds', pipes, pipes', fd)
    ensures StillOpen(fds0, fds')
  {
  }

  /** `trace` is what became of the tables, call by call, where calls that would close a descriptor open in `fds` are
      not made. */
  ghost predicate Ran(fds: seq<Fd>, trace: seq<Tables>, calls: seq<SharedCall>, now: nat)
    requires |fds| == FD_COUNT
  {
    |trace| == |calls| + 1 && forall k :: 0 <= k < |calls| ==> RanOne(fds, trace[k], calls[k], now, trace[k + 1])
  }

  ghost predicate RanOne(fds: seq<Fd>, t: Tables, call: SharedCall, now: nat, t': Tables)
    requires |fds| == FD_COUNT
  {
    if Considerate(fds, call) then TablesOk(t) && TablesOk(t') && Called(t, call, now, t') else t' == t
  }

  /** Any calls of any other processes, but for those that would close a descriptor that was open when they began. */
  method OthersRun(tables: PipeTable, pfs: Pfs, calls: seq<SharedCall>, now: nat) returns (ghost trace: seq<Tables>)
    requires Shared(tables, pfs) && now < MAX_CLOCK
    modifies tables, tables.fds, tables.pipes, pfs.disk
    ensures Shared(tables, pfs) && StillOpen(old(tables.fds[..]), tables.fds[..])
    ensures |old(tables.fds[..])| == FD_COUNT && Ran(old(tables.fds[..]), trace, calls, now)
    ensures trace[0] == old(TablesNow(tables, pfs)) && trace[|calls|] == TablesNow(tables, pfs)
  {
    hide Considerate, Agree, DiskInv, Accounted, FilesOk, Called, TablesOk;
    var fds0 := tables.fds[..];
    trace := [TablesNow(tables, pfs)];
    for k := 0 to |calls|
      invariant Shared(tables, pfs) && StillOpen(fds0, tables.fds[..])
      invariant |trace| == k + 1 && trace[0] == old(TablesNow(tables, pfs)) && trace[k] == TablesNow(tables, pfs)
      invariant forall j :: 0 <= j < k ==> RanOne(fds0, trace[j], calls[j], now, trace[j + 1])
    {
      ghost var before := trace;
      if Considerate(fds0, calls[k]) {
        Do(tables, pfs, calls[k], now, fds0);
      }
      assert RanOne(fds0, before[k], calls[k], now, TablesNow(tables, pfs));
      trace := before + [TablesNow(tables, pfs)];
    }
  }
}
