/** How growing and writing one file changes the table and the file map. */
module PfsWrites {
  import opened Common
  import opened PfsFormat
  import opened PfsAlloc
  import opened PfsTable
  import opened PfsNamespace
  import opened PfsFiles
  import opened PfsBytes

  /** sectors_for_len. */
  function SectorsForLen(len: nat): (n: nat)
    ensures len <= SECTOR_SIZE * n < len + SECTOR_SIZE
  {
    if len == 0 then 0 else (len + 511) / 512
  }

  /** File `i` owns `n` sectors already, or growth to `n` succeeds. */
  ghost predicate CanHold(t: seq<Entry>, i: nat, n: nat)
    requires i < |t|
  {
    var held := |Lbas(t[i].extents)|;
    n <= held || Growable(t, Some(i), t[i].extents, n - held)
  }

  /** The sectors of file `i` once it holds `n`: the old ones, then the nearest free ones after them. */
  ghost function HeldLbas(t: seq<Entry>, i: nat, n: nat): seq<nat>
    requires i < |t|
  {
    var lbas := Lbas(t[i].extents);
    if n <= |lbas| then lbas
    else lbas + FreeList(t, Some(i), SearchStart(t[i].extents), n - |lbas|)
  }

  /** `e` is entry `i` with room for `n` sectors and nothing but extents and the clock changed. */
  ghost predicate Grown(t: seq<Entry>, i: nat, n: nat, e: Entry)
    requires i < |t|
  {
    && e == t[i].(extents := e.extents, modified := e.modified)
    && Lbas(e.extents) == HeldLbas(t, i, n)
  }

  lemma SlotEnds(extents: seq<Extent>, s: nat)
    requires Canonical(extents) && s < |extents|
    ensures extents[s].sectors > 0
    ensures extents[s].start in Lbas(extents) && End(extents[s]) - 1 in Lbas(extents)
  {
    SlotNotEmpty(extents, s);
    LbasMembers(extents, extents[s].start);
    LbasMembers(extents, End(extents[s]) - 1);
  }

  lemma {:induction false} SlotNotEmpty(extents: seq<Extent>, s: nat)
    requires Canonical(extents) && s < |extents|
    ensures extents[s].sectors > 0
  {
    if s < |extents| - 1 {
      SlotNotEmpty(extents[..|extents| - 1], s);
    }
  }

  lemma LbasInDataArea(extents: seq<Extent>)
    requires Canonical(extents)
    requires forall lba :: lba in Lbas(extents) ==> DATA_START <= lba < DISK_SECTORS
    ensures InDataArea(extents)
  {
    forall s | 0 <= s < |extents|
      ensures DATA_START <= extents[s].start && End(extents[s]) <= DISK_SECTORS
    {
      SlotEnds(extents, s);
    }
  }

  lemma OwnSector(t: seq<Entry>, i: nat, lba: nat)
    requires DisjointFiles(t) && i < |t| && IsFile(t[i]) && InDataArea(t[i].extents)
    requires lba in Lbas(t[i].extents)
    ensures DATA_START <= lba < DISK_SECTORS && !Covered(t, Some(i), lba)
  {
    LbasMembers(t[i].extents, lba);
    var s :| 0 <= s < |t[i].extents| && t[i].extents[s].start <= lba < End(t[i].extents[s]);
    assert Owns(t[i], s, lba);
  }

  /** Every sector of a grown file is its own or was free. */
  lemma GrownSectors(t: seq<Entry>, i: nat, n: nat, lba: nat)
    requires DisjointFiles(t) && i < |t| && IsFile(t[i]) && InDataArea(t[i].extents)
    requires lba in HeldLbas(t, i, n)
    ensures DATA_START <= lba < DISK_SECTORS && !Covered(t, Some(i), lba)
  {
    var lbas := Lbas(t[i].extents);
    if lba in lbas {
      OwnSector(t, i, lba);
    } else {
      var from, m := SearchStart(t[i].extents), n - |lbas|;
      FreeListSound(t, Some(i), from, m);
      assert lba in FreeList(t, Some(i), from, m);
    }
  }

  lemma GrownEntryWellFormed(t: seq<Entry>, i: nat, n: nat, e: Entry)
    requires WellFormed(t) && i < |t| && IsFile(t[i]) && Grown(t, i, n, e)
    requires Canonical(e.extents) && |e.extents| <= MAX_EXTENTS && e.modified < 0x1_0000_0000_0000_0000
    ensures WellFormedEntry(e)
  {
    WellFormedMeans(t);
    forall lba | lba in Lbas(e.extents) ensures DATA_START <= lba < DISK_SECTORS {
      GrownSectors(t, i, n, lba);
    }
    LbasInDataArea(e.extents);
  }

  /** Growth keeps the structural invariant: new sectors are in the data area and nobody else's. */
  lemma GrownKeepsWellFormed(t: seq<Entry>, i: nat, n: nat, e: Entry)
    requires WellFormed(t) && i < |t| && IsFile(t[i]) && Grown(t, i, n, e)
    requires Canonical(e.extents) && |e.extents| <= MAX_EXTENTS && e.modified < 0x1_0000_0000_0000_0000
    ensures WellFormedEntry(e) && WellFormed(t[i := e])
  {
    WellFormedMeans(t);
    GrownEntryWellFormed(t, i, n, e);
    forall s: nat, lba: nat | s < |e.extents| && Owns(e, s, lba)
      ensures !Covered(t, Some(i), lba)
    {
      LbasMembers(e.extents, lba);
      GrownSectors(t, i, n, lba);
    }
    ReplaceKeepsWellFormed(t, i, e);
  }

  method CopyExtents(from: seq<Extent>) returns (extents: array<Extent>)
    requires |from| <= MAX_EXTENTS
    ensures fresh(extents) && extents.Length == MAX_EXTENTS && extents[..|from|] == from
  {
    extents := new Extent[MAX_EXTENTS](i => Extent(0, 0));
    for slot := 0 to |from|
      invariant extents[..slot] == from[..slot]
    {
      extents[slot] := from[slot];
    }
  }

  /** The allocation half of pfs_ensure_file_capacity: copies the extents out and grows the copy. */
  method GrowEntry(t: seq<Entry>, index: nat, newSectors: nat, now: nat) returns (ok: bool, e': Entry)
    requires WellFormed(t) && index < |t| && IsFile(t[index]) && now < 0x1_0000_0000_0000_0000
    requires |Lbas(t[index].extents)| < newSectors
    ensures ok <==> CanHold(t, index, newSectors)
    ensures ok ==> Grown(t, index, newSectors, e') && WellFormedEntry(e') && WellFormed(t[index := e'])
  {
    var e := t[index];
    var oldSectors := TotalSectors(e);
    WellFormedEndsFit(t);
    EntryOk(t, index);
    var extents := CopyExtents(e.extents);
    var count;
    ok, count := GrowExtents(t, extents, |e.extents|, newSectors - oldSectors, Some(index));
    e' := e;
    if ok {
      e' := e.(extents := extents[..count], modified := now);
      GrownKeepsWellFormed(t, index, newSectors, e');
    }
  }

  /** Writing sectors of file `i` only: other files read the same. */
  lemma OthersUntouched(t: seq<Entry>, i: nat, lbas: seq<nat>, d: seq<Sector>, d': seq<Sector>, j: nat)
    requires WellFormed(t) && i < |t| && j < |t| && j != i && Used(t[j])
    requires IsDisk(d) && IsDisk(d')
    requires forall x :: x in lbas ==> !Covered(t, Some(i), x)
    requires forall x :: HEADER_SECTORS <= x < DISK_SECTORS && x !in lbas ==> d'[x] == d[x]
    ensures NodeOf(d', t[j]) == NodeOf(d, t[j])
  {
    WellFormedMeans(t);
    if IsFile(t[j]) {
      var own := Lbas(t[j].extents);
      FileLbas(t[j]);
      forall l | 0 <= l < |own| ensures d'[own[l]] == d[own[l]] {
        LbasMembers(t[j].extents, own[l]);
        var s :| 0 <= s < |t[j].extents| && t[j].extents[s].start <= own[l] < End(t[j].extents[s]);
        assert Owns(t[j], s, own[l]);
        assert Covered(t, Some(i), own[l]);
      }
      RawFrame(d, d', own);
    }
  }

  // ---- File contents ----

  /** What a write should leave: `c`, zero-filled up to `off` if short, with `data` at `off`. */
  function Written(c: seq<byte>, off: nat, data: seq<byte>): (r: seq<byte>)
    ensures |r| == if |c| > off + |data| then |c| else off + |data|
    ensures forall k :: 0 <= k < |data| ==> r[off + k] == data[k]
    ensures forall k :: 0 <= k < |c| && !(off <= k < off + |data|) ==> r[k] == c[k]
    ensures forall k :: |c| <= k < off ==> r[k] == 0
  {
    var n := if |c| > off + |data| then |c| else off + |data|;
    seq(n, k requires 0 <= k < n =>
      if off <= k < off + |data| then data[k - off] else if k < |c| then c[k] else 0)
  }

  /** The first `size` bytes of the intended contents, for the sizes a write can leave. */
  function WrittenFront(c: seq<byte>, off: nat, data: seq<byte>, size: nat): seq<byte> {
    var w := Written(c, off, data);
    if size <= |w| then w[..size] else w
  }

  /** What abi_write_fd leaves through a handle that remembers length `handleLen`. */
  function WrittenVia(c: seq<byte>, handleLen: nat, off: nat, data: seq<byte>): seq<byte> {
    var end := off + |data|;
    WrittenFront(c, off, data, if end > handleLen then end else |c|)
  }

  /** A write through a handle is the intended write exactly when the handle's cached length and the
      file's real length lie on the same side of the end of the write. */
  lemma StaleHandleIff(c: seq<byte>, handleLen: nat, off: nat, data: seq<byte>)
    ensures WrittenVia(c, handleLen, off, data) == Written(c, off, data) <==>
            (if off + |data| > handleLen then |c| <= off + |data| else off + |data| <= |c|)
  {
    var w := Written(c, off, data);
    assert w[..|w|] == w;
    assert |WrittenVia(c, handleLen, off, data)| == if off + |data| > handleLen then off + |data| else |c|;
  }

  /** The one-live-handle case: the cached length is the real one. */
  lemma FreshHandleWrites(c: seq<byte>, off: nat, data: seq<byte>)
    ensures WrittenVia(c, |c|, off, data) == Written(c, off, data)
  {
    StaleHandleIff(c, |c|, off, data);
  }

  /** A second handle opened while the file was empty cuts a file of 3 bytes down to 1. */
  lemma StaleHandleTruncates()
    ensures WrittenVia([7, 8, 9], 0, 0, [1]) == [1]
    ensures Written([7, 8, 9], 0, [1]) == [1, 8, 9]
  {
    assert Written([7, 8, 9], 0, [1])[..1] == [1];
  }

  /** The bytes on disk after zero-filling and copying are the intended contents, at either length. */
  lemma ContentsWritten(d: seq<Sector>, e: Entry, raw0: seq<byte>, c: seq<byte>, off: nat, data: seq<byte>, size: nat)
    requires IsDisk(d) && DataLbas(Lbas(e.extents)) && |raw0| == SECTOR_SIZE * |Lbas(e.extents)|
    requires |c| <= |raw0| && raw0[..|c|] == c
    requires off + |data| <= |raw0| && (size == |c| || size == off + |data|)
    requires Raw(d, Lbas(e.extents)) ==
             Overlay(Overlay(raw0, |c|, Zeros(Gap(|c|, off))), off, data)
    ensures Contents(d, e.(size := size)) == WrittenFront(c, off, data, size)
  {
    var raw := Raw(d, Lbas(e.extents));
    var w := Written(c, off, data);
    var gap := Zeros(Gap(|c|, off));
    var filled := Overlay(raw0, |c|, gap);
    forall k | 0 <= k < size ensures raw[k] == w[k] {
      assert raw[k] == if off <= k < off + |data| then data[k - off] else filled[k];
      assert filled[k] == if |c| <= k < |c| + |gap| then 0 else raw0[k];
      assert k < |c| ==> raw0[..|c|][k] == raw0[k];
    }
  }

  /** `e'` is entry `i` with room for `n` sectors, and putting it back keeps the table well-formed. */
  ghost predicate Roomy(t: seq<Entry>, i: nat, n: nat, e': Entry)
    requires i < |t|
  {
    && IsFile(t[i])
    && Grown(t, i, n, e')
    && n <= |Lbas(e'.extents)|
    && WellFormedEntry(e') && WellFormed(t[i := e'])
  }

  /** A size the entry's sectors can back; free slots take any. */
  ghost predicate CanResize(e: Entry, size: nat) {
    size <= FILE_MAX && (Used(e) ==> IsFile(e) && size <= SECTOR_SIZE * |Lbas(e.extents)|)
  }

  lemma ResizeKeepsWellFormed(t: seq<Entry>, i: nat, size: nat, now: nat)
    requires WellFormed(t) && i < |t| && Used(t[i]) && CanResize(t[i], size) && now < 0x1_0000_0000_0000_0000
    ensures WellFormed(t[i := t[i].(size := size, modified := now)])
  {
    WellFormedMeans(t);
    RelabelKeepsWellFormed(t, i, t[i].(size := size, modified := now));
  }

  /** After growth the old bytes of the file are where they were. */
  lemma RoomyEntry(t: seq<Entry>, d: seq<Sector>, d1: seq<Sector>, i: nat, size: nat, e1: Entry)
    requires WellFormed(t) && i < |t| && IsDisk(d) && IsDisk(d1) && Roomy(t, i, SectorsForLen(size), e1)
    requires forall x :: HEADER_SECTORS <= x < DISK_SECTORS ==> d1[x] == d[x]
    ensures DataLbas(Lbas(e1.extents))
    ensures t[i].size <= SECTOR_SIZE * |Lbas(e1.extents)| && size <= SECTOR_SIZE * |Lbas(e1.extents)|
    ensures Raw(d1, Lbas(e1.extents))[..t[i].size] == Contents(d, t[i])
  {
    WellFormedMeans(t);
    var e := t[i];
    FileLbas(e1);
    FileLbas(e);
    var lbas, all := Lbas(e.extents), Lbas(e1.extents);
    RawFrame(d, d1, lbas);
    var more := all[|lbas|..];
    assert all == lbas + more;
    RawPrefix(d1, lbas, more);
    assert Raw(d1, all)[..e.size] == Raw(d1, all)[..SECTOR_SIZE * |lbas|][..e.size];
  }

  ghost function Gap(size: nat, off: nat): nat {
    if off > size then off - size else 0
  }

  /** The zero-fill and the data loop of pfs_write_at, on the refreshed entry. */
  method PutData(disk: array<Sector>, e: Entry, oldSize: nat, offset: nat, data: seq<byte>) returns (ok: bool)
    requires disk.Length == DISK_SECTORS && DataLbas(Lbas(e.extents))
    requires offset + |data| <= SECTOR_SIZE * |Lbas(e.extents)|
    modifies disk
    ensures ok
    ensures Raw(disk[..], Lbas(e.extents)) ==
            Overlay(Overlay(old(Raw(disk[..], Lbas(e.extents))), oldSize, Zeros(Gap(oldSize, offset))), offset, data)
    ensures forall x :: 0 <= x < DISK_SECTORS && x !in Lbas(e.extents) ==> disk[x] == old(disk[x])
  {
    ghost var raw := Raw(disk[..], Lbas(e.extents));
    if offset > oldSize {
      ok := ZeroRange(disk, e, oldSize, offset - oldSize);
    } else {
      assert Overlay(raw, oldSize, Zeros(0)) == raw;
    }
    ok := WriteBytes(disk, e, offset, data);
  }

  /** The disk after a write: entry `i` holds the intended bytes at its old size and at the write's end,
      and every other entry reads as before. */
  ghost predicate WriteDone(t: seq<Entry>, d: seq<Sector>, d': seq<Sector>, i: nat, off: nat, data: seq<byte>,
                            e': Entry)
    requires i < |t|
  {
    && IsFile(t[i])
    && Grown(t, i, SectorsForLen(off + |data|), e')
    && off + |data| <= SECTOR_SIZE * |Lbas(e'.extents)|
    && |Contents(d, t[i])| == t[i].size
    && (forall size :: size == t[i].size || size == off + |data| ==>
          Contents(d', e'.(size := size)) == WrittenFront(Contents(d, t[i]), off, data, size))
    && (forall j :: 0 <= j < |t| && j != i && Used(t[j]) ==> NodeOf(d', t[j]) == NodeOf(d, t[j]))
  }

  lemma WriteLands(t: seq<Entry>, d: seq<Sector>, d1: seq<Sector>, d': seq<Sector>, i: nat, off: nat,
                   data: seq<byte>, e1: Entry)
    requires WellFormed(t) && i < |t| && IsDisk(d) && IsDisk(d1) && IsDisk(d')
    requires Roomy(t, i, SectorsForLen(off + |data|), e1)
    requires forall x :: HEADER_SECTORS <= x < DISK_SECTORS ==> d1[x] == d[x]
    requires DataLbas(Lbas(e1.extents))
    requires Raw(d', Lbas(e1.extents)) ==
             Overlay(Overlay(Raw(d1, Lbas(e1.extents)), e1.size, Zeros(Gap(e1.size, off))), off, data)
    requires forall x :: 0 <= x < DISK_SECTORS && x !in Lbas(e1.extents) ==> d'[x] == d1[x]
    ensures WriteDone(t, d, d', i, off, data, e1)
    ensures forall x :: 0 <= x < HEADER_SECTORS ==> d'[x] == d1[x]
  {
    WellFormedMeans(t);
    var lbas := Lbas(e1.extents);
    var raw, c := Raw(d1, lbas), Contents(d, t[i]);
    RoomyEntry(t, d, d1, i, off + |data|, e1);
    forall size | size == t[i].size || size == off + |data|
      ensures Contents(d', e1.(size := size)) == WrittenFront(c, off, data, size)
    {
      ContentsWritten(d', e1, raw, c, off, data, size);
    }
    forall x | x in lbas ensures !Covered(t, Some(i), x) {
      GrownSectors(t, i, SectorsForLen(off + |data|), x);
    }
    forall j | 0 <= j < |t| && j != i && Used(t[j]) ensures NodeOf(d', t[j]) == NodeOf(d, t[j]) {
      OthersUntouched(t, i, lbas, d, d', j);
    }
  }
}
