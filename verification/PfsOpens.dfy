/** What a handle that was just opened reads and writes. */
module PfsOpens {
  import opened Common
  import opened PfsFormat
  import opened PfsAlloc
  import opened PfsTable
  import opened PfsNamespace
  import opened PfsFiles
  import opened PfsWrites
  import opened FdTypes
  import opened PfsDisk

  /** The bytes of the file a descriptor was opened on, as its entry has them. */
  lemma OpenedOn(d: seq<Sector>, name: seq<byte>, flags: Flags, h: Fd)
    requires OpensAs(d, name, flags, h)
    ensures h.open && h.kind == PfsFile && h.index < ENTRY_COUNT && h.flags == flags
    ensures IsFile(TableOn(d)[h.index]) && TableOn(d)[h.index].name == name
    ensures name in FilesOn(d) && FilesOn(d)[name] == NodeOf(d, TableOn(d)[h.index])
    ensures FilesOn(d)[name].data == Contents(d, TableOn(d)[h.index])
    ensures |FilesOn(d)[name].data| == TableOn(d)[h.index].size == h.len
  {
    var t := TableOn(d);
    NamesOk(t);
    EntryOk(t, h.index);
    FilesFind(t, d, name);
    ContentsLength(d, t[h.index]);
  }

  /** A new handle reads the file from its beginning, one opened to append from its end. */
  lemma OpenedReads(d: seq<Sector>, name: seq<byte>, flags: Flags, h: Fd, n: nat)
    requires OpensAs(d, name, flags, h) && flags.read
    ensures name in FilesOn(d) && h.index < ENTRY_COUNT
    ensures var c := FilesOn(d)[name].data;
      HandleRead(d, h, n) == Some(if flags.append then [] else c[..Min(n, |c|)])
  {
    OpenedOn(d, name, flags, h);
    hide WellFormed, Canonical, Reaches, Held, FilesOn, Contents, TableOn, HeaderOf;
    var c := FilesOn(d)[name].data;
    if flags.append {
      assert Remaining(h.len, h.offset) == 0;
    } else {
      assert h.offset == 0 && Remaining(h.len, 0) == |c|;
      CoveredReads(d, h.index, 0, Min(n, |c|));
    }
  }

  /** What a new handle writes goes over the beginning of the file, or behind its end if it was opened to append. No
      other file changes. */
  lemma OpenedWrites(d: seq<Sector>, d': seq<Sector>, name: seq<byte>, flags: Flags, h: Fd, data: seq<byte>)
    requires OpensAs(d, name, flags, h) && DiskInv(d') && h.index < ENTRY_COUNT && HandleWrite(d, d', h, data, true)
    ensures name in FilesOn(d)
    ensures var node := FilesOn(d)[name];
      FilesOn(d') ==
      FilesOn(d)[name := node.(data := if flags.append then node.data + data else Written(node.data, 0, data))]
  {
    OpenedOn(d, name, flags, h);
    hide WellFormed, Contents, NodeOf, Landed;
    var c := FilesOn(d)[name].data;
    FreshHandleWrites(c, WriteOffset(h), data);
    if flags.append {
      assert Written(c, |c|, data) == c + data;
    }
  }

  /** What a write leaves of the handle's file. */
  lemma FileThere(d: seq<Sector>, d': seq<Sector>, h: Fd, data: seq<byte>)
    requires DiskInv(d) && DiskInv(d') && h.index < ENTRY_COUNT && HandleWrite(d, d', h, data, true)
    ensures var e, e' := TableOn(d)[h.index], TableOn(d')[h.index];
      var c := WrittenVia(Contents(d, e), h.len, WriteOffset(h), data);
      && h.open && h.flags.write && IsFile(e) && IsFile(e') && e'.name == e.name && |Contents(d, e)| == e.size
      && |c| == e'.size
      && e.name in FilesOn(d) && FilesOn(d)[e.name] == NodeOf(d, e) && NodeOf(d, e).data == Contents(d, e)
      && Contents(d', e') == c && FilesOn(d') == FilesOn(d)[e.name := NodeOf(d, e).(data := c)]
  {
    hide WellFormed, Contents, WrittenVia, Landed;
    var t, t', i := TableOn(d), TableOn(d'), h.index;
    NamesOk(t);
    NamesOk(t');
    EntryOk(t, i);
    EntryOk(t', i);
    ContentsLength(d, t[i]);
    FindUsed(t, i);
    FindUsed(t', i);
    FilesFind(t, d, t[i].name);
    FilesFind(t', d', t[i].name);
    ContentsLength(d', t'[i]);
  }

  lemma WrittenLengths(c: seq<byte>, off: nat, a: seq<byte>)
    ensures |Written(c, off, a)| == if |c| > off + |a| then |c| else off + |a|
  {
  }

  /** Written in two pieces or in one. */
  lemma PiecesJoin(c: seq<byte>, off: nat, a: seq<byte>, b: seq<byte>)
    ensures Written(Written(c, off, a), off + |a|, b) == Written(c, off, a + b)
  {
  }

  /** Two writes in a row through a handle that knows the file's length are one write of both pieces. */
  lemma WritesInPieces(d: seq<Sector>, d1: seq<Sector>, d2: seq<Sector>, h: Fd, a: seq<byte>, b: seq<byte>)
    requires Mounted(d) && DiskInv(d1) && DiskInv(d2) && h.index < ENTRY_COUNT && HandleWrite(d, d1, h, a, true)
    requires HandleWrite(d1, d2, HandleAfter(h, a, true), b, true) && h.len == TableOn(d)[h.index].size
    ensures var e := TableOn(d)[h.index]; var c := Contents(d, e);
      && IsFile(e) && e.name in FilesOn(d)
      && FilesOn(d2) == FilesOn(d)[e.name := FilesOn(d)[e.name].(data := Written(c, WriteOffset(h), a + b))]
  {
    hide WellFormed, Contents, NodeOf, Landed, WrittenVia, Written, Fits, HandleWrite, Files;
    var t, t1, i := TableOn(d), TableOn(d1), h.index;
    var h1, e := HandleAfter(h, a, true), TableOn(d)[h.index];
    FileThere(d, d1, h, a);
    FileThere(d1, d2, h1, b);
    var c, off := Contents(d, e), WriteOffset(h);
    FreshHandleWrites(c, off, a);
    WrittenLengths(c, off, a);
    var c1 := Written(c, off, a);
    FreshHandleWrites(c1, off + |a|, b);
    PiecesJoin(c, off, a, b);
    assert WriteOffset(h1) == off + |a| && h1.len == |c1|;
    assert NodeOf(d1, t1[i]) == NodeOf(d, e).(data := c1);
  }

  /** Two reads in a row give what one read of both lengths gives. */
  lemma ReadsInPieces(d: seq<Sector>, h: Fd, a: nat, b: nat)
    requires DiskInv(d) && h.index < ENTRY_COUNT && HandleRead(d, h, a).Some?
    requires HandleRead(d, h.(offset := h.offset + |HandleRead(d, h, a).value|), b).Some?
    ensures var x := HandleRead(d, h, a).value;
      HandleRead(d, h, a + b) == Some(x + HandleRead(d, h.(offset := h.offset + |x|), b).value)
  {
    hide WellFormed, Lbas, Raw, TableOf, HeaderOf;
    var x := HandleRead(d, h, a).value;
    var y := HandleRead(d, h.(offset := h.offset + |x|), b).value;
    assert x + [] == x && [] + y == y;
    if x != [] && y != [] {
      EntryOk(TableOn(d), h.index);
      UsedLbas(TableOn(d)[h.index]);
      var raw := Raw(d, Lbas(TableOn(d)[h.index].extents));
      assert raw[h.offset..h.offset + |x|] + raw[h.offset + |x|..h.offset + |x| + |y|]
          == raw[h.offset..h.offset + |x| + |y|];
    }
  }

  /** A handle on the file reads from any position what the file has there. */
  lemma ReadsAnywhere(d: seq<Sector>, name: seq<byte>, flags: Flags, h: Fd, offset: nat, n: nat)
    requires OpensAs(d, name, flags, h) && flags.read
    ensures name in FilesOn(d) && h.index < ENTRY_COUNT
    ensures var c := FilesOn(d)[name].data;
      HandleRead(d, h.(offset := offset), n) == Some(c[Min(offset, |c|)..Min(offset + n, |c|)])
  {
    OpenedOn(d, name, flags, h);
    hide WellFormed, Canonical, Reaches, Held, FilesOn, Contents, TableOn, HeaderOf;
    var c := FilesOn(d)[name].data;
    var copied := Min(n, Remaining(|c|, offset));
    if copied > 0 {
      CoveredReads(d, h.index, offset, copied);
    } else {
      assert c[Min(offset, |c|)..Min(offset + n, |c|)] == [];
    }
  }

  /** A refused write leaves the handle as it was, but for the position of one that appends, which is at the end
      then. */
  lemma RefusedWriteStays(h: Fd, data: seq<byte>)
    ensures var h' := HandleAfter(h, data, false);
      if h.open && h.flags.write && h.flags.append then h' == h.(offset := h.len) else h' == h
  {
  }

  // ---- The calls in a row ----

  /** Open and read: the first bytes of the file, or none if it was opened to append. */
  method OpenAndRead(pfs: Pfs, name: seq<byte>, flags: Flags, now: nat, n: nat)
    returns (error: nat, r: Option<seq<byte>>)
    requires pfs.Valid() && now < MAX_CLOCK && flags.read
    modifies pfs.disk, pfs.fds
    ensures pfs.Valid()
    ensures Opened(old(pfs.disk[..]), pfs.disk[..], name, flags, now, error, old(FirstClosed(pfs.fds[..], 0)))
    ensures error == ERR_OK ==> name in FilesOn(pfs.disk[..]) && var c := FilesOn(pfs.disk[..])[name].data;
      r == Some(if flags.append then [] else c[..Min(n, |c|)])
  {
    hide Opened, OpensAs, DiskInv, HandleRead, FilesOn;
    r := None;
    var slot;
    error, slot := pfs.Open(name, flags, now);
    if error == ERR_OK {
      OpenedOn(pfs.disk[..], name, flags, pfs.fds[slot]);
      OpenedReads(pfs.disk[..], name, flags, pfs.fds[slot], n);
      r := pfs.ReadFd(slot, n);
    }
  }

  /** Open and write: over the beginning of what open left of the file, or behind its end. */
  method OpenAndWrite(pfs: Pfs, name: seq<byte>, flags: Flags, now: nat, data: seq<byte>)
    returns (error: nat, written: bool, ghost between: seq<Sector>)
    requires pfs.Valid() && now < MAX_CLOCK
    modifies pfs.disk, pfs.fds
    ensures pfs.Valid() && DiskInv(between)
    ensures Opened(old(pfs.disk[..]), between, name, flags, now, error, old(FirstClosed(pfs.fds[..], 0)))
    ensures !written ==> pfs.disk[..] == between
    ensures written ==> error == ERR_OK && flags.write && name in FilesOn(between)
    ensures written ==> var node := FilesOn(between)[name];
      FilesOn(pfs.disk[..]) == FilesOn(between)[name :=
        node.(data := if flags.append then node.data + data else Written(node.data, 0, data))]
  {
    hide Opened, OpensAs, DiskInv, FilesOn, Written;
    var slot;
    error, slot := pfs.Open(name, flags, now);
    between, written := pfs.disk[..], false;
    if error == ERR_OK {
      ghost var h := pfs.fds[slot];
      OpenedOn(between, name, flags, h);
      var count := pfs.WriteFd(slot, data, now);
      written := count.Some?;
      if written {
        OpenedWrites(between, pfs.disk[..], name, flags, h, data);
      }
    }
  }
}
