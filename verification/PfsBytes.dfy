/** Moving bytes between buffers and the sectors of a file. */
module PfsBytes {
  import opened Common
  import opened PfsFormat
  import opened PfsAlloc
  import opened PfsTable
  import opened PfsFiles

  /** `s` with `data` laid over it from `off`, cut at the end of `s`. */
  function Overlay(s: seq<byte>, off: nat, data: seq<byte>): (r: seq<byte>)
    ensures |r| == |s|
  {
    seq(|s|, k requires 0 <= k < |s| => if off <= k < off + |data| then data[k - off] else s[k])
  }

  lemma RawPut(d: seq<Sector>, lbas: seq<nat>, l: nat, s: Sector)
    requires IsDisk(d) && DataLbas(lbas) && l < |lbas|
    ensures forall k :: 0 <= k < SECTOR_SIZE * |lbas| ==>
              Raw(d[lbas[l] := s], lbas)[k] ==
              if k / SECTOR_SIZE == l then s[k % SECTOR_SIZE] else Raw(d, lbas)[k]
  {
    forall k | 0 <= k < SECTOR_SIZE * |lbas|
      ensures Raw(d[lbas[l] := s], lbas)[k] ==
              if k / SECTOR_SIZE == l then s[k % SECTOR_SIZE] else Raw(d, lbas)[k]
    {
      var q := k / SECTOR_SIZE;
      assert q < l || q == l || l < q;
    }
  }

  /** Writing one more chunk inside one sector extends the overlay by that chunk. */
  lemma ChunkWritten(d: seq<Sector>, lbas: seq<nat>, raw0: seq<byte>, offset: nat, data: seq<byte>,
                     copied: nat, count: nat, l: nat)
    requires IsDisk(d) && DataLbas(lbas) && |raw0| == SECTOR_SIZE * |lbas|
    requires copied + count <= |data|
    requires l == (offset + copied) / SECTOR_SIZE < |lbas|
    requires (offset + copied) % SECTOR_SIZE + count <= SECTOR_SIZE
    requires Raw(d, lbas) == Overlay(raw0, offset, data[..copied])
    ensures var s: Sector := Overlay(d[lbas[l]], (offset + copied) % SECTOR_SIZE, data[copied..copied + count]);
      Raw(d[lbas[l] := s], lbas) == Overlay(raw0, offset, data[..copied + count])
  {
    var so := (offset + copied) % SECTOR_SIZE;
    var s: Sector := Overlay(d[lbas[l]], so, data[copied..copied + count]);
    RawPut(d, lbas, l, s);
    var raw, after := Raw(d, lbas), Raw(d[lbas[l] := s], lbas);
    var want := Overlay(raw0, offset, data[..copied + count]);
    forall k | 0 <= k < SECTOR_SIZE * |lbas| ensures after[k] == want[k] {
      var j := k % SECTOR_SIZE;
      assert raw[k] == Overlay(raw0, offset, data[..copied])[k];
      if k / SECTOR_SIZE == l {
        assert k == SECTOR_SIZE * l + j;
        assert after[k] == s[j];
        assert raw[k] == d[lbas[l]][j];
        if so <= j < so + count {
          assert k - offset == copied + (j - so);
          assert s[j] == data[copied..copied + count][j - so];
        }
      } else {
        assert after[k] == raw[k];
        assert !(offset + copied <= k < offset + copied + count);
      }
    }
  }

  /** The data loop of pfs_write_at: read-modify-write of each touched sector. */
  method WriteBytes(disk: array<Sector>, e: Entry, offset: nat, data: seq<byte>) returns (ok: bool)
    requires disk.Length == DISK_SECTORS && DataLbas(Lbas(e.extents))
    modifies disk
    ensures ok <==> data == [] || offset + |data| <= SECTOR_SIZE * |Lbas(e.extents)|
    ensures ok ==> Raw(disk[..], Lbas(e.extents)) == Overlay(old(Raw(disk[..], Lbas(e.extents))), offset, data)
    ensures forall x :: 0 <= x < DISK_SECTORS && x !in Lbas(e.extents) ==> disk[x] == old(disk[x])
  {
    ghost var lbas := Lbas(e.extents);
    ghost var raw0 := Raw(disk[..], lbas);
    var copied := 0;
    assert Overlay(raw0, offset, data[..0]) == raw0;
    while copied < |data|
      invariant 0 <= copied <= |data|
      invariant copied > 0 ==> offset + copied <= SECTOR_SIZE * |lbas|
      invariant Raw(disk[..], lbas) == Overlay(raw0, offset, data[..copied])
      invariant forall x :: 0 <= x < DISK_SECTORS && x !in lbas ==> disk[x] == old(disk[x])
    {
      var absolute := offset + copied;
      var logicalSector := absolute / SECTOR_SIZE;
      var sectorOffset := absolute % SECTOR_SIZE;
      var count := Min(|data| - copied, SECTOR_SIZE - sectorOffset);
      var lba := LbaForSector(e, logicalSector);
      if lba.None? {
        return false;
      }
      ghost var before := disk[..];
      ChunkWritten(before, lbas, raw0, offset, data, copied, count, logicalSector);
      disk[lba.value] := Overlay(disk[lba.value], sectorOffset, data[copied..copied + count]);
      assert disk[..] == before[lbas[logicalSector] := disk[lba.value]];
      copied := copied + count;
    }
    assert data[..copied] == data;
    return true;
  }

  /** pfs_zero_range: whole sectors are overwritten without reading them first. */
  method ZeroRange(disk: array<Sector>, e: Entry, start: nat, len: nat) returns (ok: bool)
    requires disk.Length == DISK_SECTORS && DataLbas(Lbas(e.extents))
    modifies disk
    ensures ok <==> len == 0 || start + len <= SECTOR_SIZE * |Lbas(e.extents)|
    ensures ok ==> Raw(disk[..], Lbas(e.extents)) == Overlay(old(Raw(disk[..], Lbas(e.extents))), start, Zeros(len))
    ensures forall x :: 0 <= x < DISK_SECTORS && x !in Lbas(e.extents) ==> disk[x] == old(disk[x])
  {
    ghost var lbas := Lbas(e.extents);
    ghost var raw0 := Raw(disk[..], lbas);
    var written := 0;
    assert Overlay(raw0, start, Zeros(len)[..0]) == raw0;
    while written < len
      invariant 0 <= written <= len
      invariant written > 0 ==> start + written <= SECTOR_SIZE * |lbas|
      invariant Raw(disk[..], lbas) == Overlay(raw0, start, Zeros(len)[..written])
      invariant forall x :: 0 <= x < DISK_SECTORS && x !in lbas ==> disk[x] == old(disk[x])
    {
      var absolute := start + written;
      var logicalSector := absolute / SECTOR_SIZE;
      var sectorOffset := absolute % SECTOR_SIZE;
      var count := Min(len - written, SECTOR_SIZE - sectorOffset);
      var lba := LbaForSector(e, logicalSector);
      if lba.None? {
        return false;
      }
      ghost var before := disk[..];
      ghost var zs := Zeros(len)[written..written + count];
      ChunkWritten(before, lbas, raw0, start, Zeros(len), written, count, logicalSector);
      if count == SECTOR_SIZE {
        disk[lba.value] := Zeros(SECTOR_SIZE);
        assert disk[lba.value] == Overlay(before[lba.value], sectorOffset, zs);
      } else {
        disk[lba.value] := Overlay(disk[lba.value], sectorOffset, Zeros(count));
        assert Zeros(count) == zs;
      }
      assert disk[..] == before[lbas[logicalSector] := disk[lba.value]];
      written := written + count;
    }
    assert Zeros(len)[..written] == Zeros(len);
    return true;
  }

  lemma SectorPart(d: seq<Sector>, lbas: seq<nat>, l: nat, so: nat, count: nat)
    requires IsDisk(d) && DataLbas(lbas) && l < |lbas| && so + count <= SECTOR_SIZE
    ensures d[lbas[l]][so..so + count] == Raw(d, lbas)[SECTOR_SIZE * l + so..SECTOR_SIZE * l + so + count]
  {
    var part, slice := d[lbas[l]][so..so + count], Raw(d, lbas)[SECTOR_SIZE * l + so..SECTOR_SIZE * l + so + count];
    forall j | 0 <= j < count ensures part[j] == slice[j] {
      var k := SECTOR_SIZE * l + so + j;
      assert k / SECTOR_SIZE == l && k % SECTOR_SIZE == so + j;
    }
  }

  /** The loop of pfs_read_at. */
  method ReadBytes(disk: array<Sector>, e: Entry, offset: nat, len: nat) returns (ok: bool, dest: seq<byte>)
    requires disk.Length == DISK_SECTORS && DataLbas(Lbas(e.extents))
    ensures ok <==> len == 0 || offset + len <= SECTOR_SIZE * |Lbas(e.extents)|
    ensures ok && len > 0 ==> dest == Raw(disk[..], Lbas(e.extents))[offset..offset + len]
    ensures ok && len == 0 ==> dest == []
  {
    ghost var raw := Raw(disk[..], Lbas(e.extents));
    ghost var from := Min(offset, |raw|);
    var copied := 0;
    dest := [];
    while copied < len
      invariant 0 <= copied <= len
      invariant copied > 0 ==> offset + copied <= |raw|
      invariant dest == raw[from..from + copied]
    {
      var absolute := offset + copied;
      var logicalSector := absolute / SECTOR_SIZE;
      var sectorOffset := absolute % SECTOR_SIZE;
      var count := Min(len - copied, SECTOR_SIZE - sectorOffset);
      var lba := LbaForSector(e, logicalSector);
      if lba.None? {
        return false, [];
      }
      var sector := disk[lba.value];
      var part := sector[sectorOffset..sectorOffset + count];
      SectorPart(disk[..], Lbas(e.extents), logicalSector, sectorOffset, count);
      dest := dest + part;
      copied := copied + count;
    }
    return true, dest;
  }

  // ---- Header sectors ----

  /** read_header_silent without the device: copies the header sectors and checks the magic. */
  method ReadHeader(disk: array<Sector>) returns (ok: bool, header: array<byte>)
    requires disk.Length == DISK_SECTORS
    ensures fresh(header) && header.Length == HEADER_BYTES
    ensures header[..] == HeaderOf(disk[..])
    ensures ok <==> Formatted(HeaderOf(disk[..]))
  {
    header := new byte[HEADER_BYTES];
    for s := 0 to HEADER_SECTORS
      invariant forall k :: 0 <= k < SECTOR_SIZE * s ==> header[k] == disk[k / SECTOR_SIZE][k % SECTOR_SIZE]
    {
      var sector := disk[s];
      for j := 0 to SECTOR_SIZE
        invariant forall k :: 0 <= k < SECTOR_SIZE * s + j ==> header[k] == disk[k / SECTOR_SIZE][k % SECTOR_SIZE]
      {
        assert (SECTOR_SIZE * s + j) / SECTOR_SIZE == s && (SECTOR_SIZE * s + j) % SECTOR_SIZE == j;
        header[SECTOR_SIZE * s + j] := sector[j];
      }
    }
    ok := header[..8] == MAGIC;
    assert header[..] == HeaderOf(disk[..]);
  }

  /** write_header, taken as one step. */
  method WriteHeader(disk: array<Sector>, header: array<byte>)
    requires disk.Length == DISK_SECTORS && header.Length == HEADER_BYTES
    modifies disk
    ensures HeaderOf(disk[..]) == header[..]
    ensures forall x :: HEADER_SECTORS <= x < DISK_SECTORS ==> disk[x] == old(disk[x])
  {
    for s := 0 to HEADER_SECTORS
      invariant forall r :: 0 <= r < s ==> disk[r] == header[SECTOR_SIZE * r..SECTOR_SIZE * r + SECTOR_SIZE]
      invariant forall x :: HEADER_SECTORS <= x < DISK_SECTORS ==> disk[x] == old(disk[x])
    {
      disk[s] := header[SECTOR_SIZE * s..SECTOR_SIZE * s + SECTOR_SIZE];
    }
    forall k | 0 <= k < HEADER_BYTES ensures HeaderOf(disk[..])[k] == header[k] {
      var r := k / SECTOR_SIZE;
      assert disk[r][k % SECTOR_SIZE] == header[SECTOR_SIZE * r + k % SECTOR_SIZE];
    }
  }

  /** Writes to data sectors leave the header alone. */
  lemma HeaderFrame(d: seq<Sector>, d': seq<Sector>)
    requires IsDisk(d) && IsDisk(d')
    requires forall x :: 0 <= x < HEADER_SECTORS ==> d'[x] == d[x]
    ensures HeaderOf(d') == HeaderOf(d)
  {
  }
}
