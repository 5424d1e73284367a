/** The RYMFS5 header: a 16-byte preamble and 256 fixed-size entries, every field little-endian.
    Header bytes are a value where the kernel borrows them and an array where it edits them. */
module PfsFormat {
  import opened Common

  const SECTOR_SIZE := 512
  const MAX_EXTENTS := 4
  const EXTENT_ENTRY_SIZE := 8
  const EXTENT_COUNT_OFFSET := 6
  const EXTENTS_OFFSET := 7
  const CREATED_OFFSET := 39
  const MODIFIED_OFFSET := 47
  const MODE_OFFSET := 55
  const NAME_OFFSET := 56
  const NAME_MAX := 96
  const ENTRY_SIZE := 152
  const ENTRY_COUNT := 256
  const HEADER_SECTORS := 77
  const HEADER_BYTES := 39424
  const DATA_START := HEADER_SECTORS
  const DISK_SECTORS := 8_388_608
  const FILE_MAX := 268_435_456

  const KIND_FREE: byte := 0
  const KIND_FILE: byte := 1
  const KIND_DIR: byte := 2

  const MAGIC: seq<byte> := [82, 89, 77, 70, 83, 53, 0, 0]

  datatype Extent = Extent(start: nat, sectors: nat)

  /** One table entry; `kind == KIND_FREE` marks an unused slot. */
  datatype Entry = Entry(kind: byte, name: seq<byte>, size: nat, extents: seq<Extent>,
                         created: nat, modified: nat, mode: byte)

  function Pow256(n: nat): (p: nat)
    ensures p > 0
  {
    if n == 0 then 1 else 256 * Pow256(n - 1)
  }

  /** Byte `j` of the little-endian form of `v`. */
  function LeByte(v: nat, j: nat): byte {
    if j == 0 then v % 256 else LeByte(v / 256, j - 1)
  }

  function LeValue(s: seq<byte>): nat {
    if s == [] then 0 else s[0] + 256 * LeValue(s[1..])
  }

  lemma {:induction false} LeRoundTrip(s: seq<byte>, v: nat)
    requires v < Pow256(|s|)
    requires forall j :: 0 <= j < |s| ==> s[j] == LeByte(v, j)
    ensures LeValue(s) == v
  {
    if s == [] {
    } else {
      forall j | 0 <= j < |s[1..]|
        ensures s[1..][j] == LeByte(v / 256, j)
      {
        assert s[1..][j] == s[j + 1] == LeByte(v, j + 1);
      }
      LeRoundTrip(s[1..], v / 256);
      assert s[0] == v % 256;
    }
  }

  lemma PowersOf256()
    ensures Pow256(4) == 0x1_0000_0000
    ensures Pow256(8) == 0x1_0000_0000_0000_0000
  {
    assert Pow256(1) == 256;
    assert Pow256(2) == 65536;
    assert Pow256(3) == 16777216;
    assert Pow256(4) == 0x1_0000_0000;
    assert Pow256(5) == 256 * 0x1_0000_0000;
    assert Pow256(6) == 65536 * 0x1_0000_0000;
    assert Pow256(7) == 16777216 * 0x1_0000_0000;
  }

  function EntryOffset(index: nat): nat {
    16 + index * ENTRY_SIZE
  }

  predicate IsHeader(h: seq<byte>) {
    |h| == HEADER_BYTES
  }

  predicate Formatted(h: seq<byte>) {
    IsHeader(h) && h[..8] == MAGIC
  }

  function Min(a: nat, b: nat): nat {
    if a < b then a else b
  }

  function EntryExtent(h: seq<byte>, index: nat, slot: nat): Extent
    requires IsHeader(h) && index < ENTRY_COUNT && slot < MAX_EXTENTS
  {
    var o := EntryOffset(index) + EXTENTS_OFFSET + slot * EXTENT_ENTRY_SIZE;
    Extent(LeValue(h[o..o + 4]), LeValue(h[o + 4..o + 8]))
  }

  /** The entry at `index` as the kernel's field readers see it. */
  function Decode(h: seq<byte>, index: nat): Entry
    requires IsHeader(h) && index < ENTRY_COUNT
  {
    var o := EntryOffset(index);
    Entry(h[o],
          h[o + NAME_OFFSET..o + NAME_OFFSET + h[o + 1]],
          LeValue(h[o + 2..o + 6]),
          seq(Min(h[o + EXTENT_COUNT_OFFSET], MAX_EXTENTS),
              slot requires 0 <= slot < MAX_EXTENTS => EntryExtent(h, index, slot)),
          LeValue(h[o + CREATED_OFFSET..o + CREATED_OFFSET + 8]),
          LeValue(h[o + MODIFIED_OFFSET..o + MODIFIED_OFFSET + 8]),
          h[o + MODE_OFFSET])
  }

  function Entries(h: seq<byte>, n: nat): (t: seq<Entry>)
    requires IsHeader(h) && n <= ENTRY_COUNT
    ensures |t| == n
    decreases |h|, n
  {
    if n == 0 then [] else Entries(h, n - 1) + [Decode(h, n - 1)]
  }

  /** The whole entry table of a header. */
  function TableOf(h: seq<byte>): (t: seq<Entry>)
    requires IsHeader(h)
    ensures |t| == ENTRY_COUNT
  {
    Entries(h, ENTRY_COUNT)
  }

  lemma {:induction false} EntryAt(h: seq<byte>, n: nat, i: nat)
    requires IsHeader(h) && i < n <= ENTRY_COUNT
    ensures Entries(h, n)[i] == Decode(h, i)
    decreases n
  {
    if i < n - 1 {
      EntryAt(h, n - 1, i);
    }
  }

  lemma TableAt(h: seq<byte>, i: nat)
    requires IsHeader(h) && i < ENTRY_COUNT
    ensures TableOf(h)[i] == Decode(h, i)
  {
    EntryAt(h, ENTRY_COUNT, i);
  }

  /** What fits in an entry without being truncated. */
  predicate Encodable(e: Entry) {
    && |e.name| <= NAME_MAX
    && e.size < 0x1_0000_0000
    && |e.extents| <= MAX_EXTENTS
    && (forall s :: 0 <= s < |e.extents| ==>
          e.extents[s].start < 0x1_0000_0000 && e.extents[s].sectors < 0x1_0000_0000)
    && e.created < 0x1_0000_0000_0000_0000
    && e.modified < 0x1_0000_0000_0000_0000
  }

  function ExtentByte(extents: seq<Extent>, k: nat): byte {
    var slot := k / EXTENT_ENTRY_SIZE;
    var j := k % EXTENT_ENTRY_SIZE;
    if slot >= |extents| then 0
    else if j < 4 then LeByte(extents[slot].start, j)
    else LeByte(extents[slot].sectors, j - 4)
  }

  /** Byte `k` of the 152-byte form of an entry. */
  function EncodedByte(e: Entry, k: nat): byte
    requires Encodable(e) && k < ENTRY_SIZE
  {
    if k == 0 then e.kind
    else if k == 1 then |e.name|
    else if k < EXTENT_COUNT_OFFSET then LeByte(e.size, k - 2)
    else if k == EXTENT_COUNT_OFFSET then |e.extents|
    else if k < CREATED_OFFSET then ExtentByte(e.extents, k - EXTENTS_OFFSET)
    else if k < MODIFIED_OFFSET then LeByte(e.created, k - CREATED_OFFSET)
    else if k < MODE_OFFSET then LeByte(e.modified, k - MODIFIED_OFFSET)
    else if k == MODE_OFFSET then e.mode
    else if k - NAME_OFFSET < |e.name| then e.name[k - NAME_OFFSET]
    else 0
  }

  predicate Holds(h: seq<byte>, index: nat, e: Entry)
    requires IsHeader(h) && index < ENTRY_COUNT && Encodable(e)
  {
    forall k :: 0 <= k < ENTRY_SIZE ==> h[EntryOffset(index) + k] == EncodedByte(e, k)
  }

  lemma DecodeExtent(h: seq<byte>, index: nat, e: Entry, slot: nat)
    requires IsHeader(h) && index < ENTRY_COUNT && Encodable(e) && Holds(h, index, e)
    requires slot < |e.extents|
    ensures EntryExtent(h, index, slot) == e.extents[slot]
  {
    PowersOf256();
    var o := EntryOffset(index);
    var p := EXTENTS_OFFSET + slot * EXTENT_ENTRY_SIZE;
    var s, n := h[o + p..o + p + 4], h[o + p + 4..o + p + 8];
    forall j | 0 <= j < 4
      ensures s[j] == LeByte(e.extents[slot].start, j)
      ensures n[j] == LeByte(e.extents[slot].sectors, j)
    {
      assert h[o + (p + j)] == EncodedByte(e, p + j);
      assert h[o + (p + 4 + j)] == EncodedByte(e, p + 4 + j);
      var k := slot * EXTENT_ENTRY_SIZE + j;
      assert k / EXTENT_ENTRY_SIZE == slot && k % EXTENT_ENTRY_SIZE == j;
      assert (k + 4) / EXTENT_ENTRY_SIZE == slot && (k + 4) % EXTENT_ENTRY_SIZE == j + 4;
    }
    LeRoundTrip(s, e.extents[slot].start);
    LeRoundTrip(n, e.extents[slot].sectors);
  }

  lemma DecodeNumbers(h: seq<byte>, index: nat, e: Entry)
    requires IsHeader(h) && index < ENTRY_COUNT && Encodable(e) && Holds(h, index, e)
    ensures Decode(h, index).size == e.size
    ensures Decode(h, index).created == e.created
    ensures Decode(h, index).modified == e.modified
  {
    PowersOf256();
    var o := EntryOffset(index);
    var z := h[o + 2..o + 6];
    forall j | 0 <= j < 4 ensures z[j] == LeByte(e.size, j) {
      assert h[o + (2 + j)] == EncodedByte(e, 2 + j);
    }
    LeRoundTrip(z, e.size);
    var c := h[o + CREATED_OFFSET..o + CREATED_OFFSET + 8];
    var m := h[o + MODIFIED_OFFSET..o + MODIFIED_OFFSET + 8];
    forall j | 0 <= j < 8
      ensures c[j] == LeByte(e.created, j) && m[j] == LeByte(e.modified, j)
    {
      assert h[o + (CREATED_OFFSET + j)] == EncodedByte(e, CREATED_OFFSET + j);
      assert h[o + (MODIFIED_OFFSET + j)] == EncodedByte(e, MODIFIED_OFFSET + j);
    }
    LeRoundTrip(c, e.created);
    LeRoundTrip(m, e.modified);
  }

  /** Round trip: the readers give back exactly the entry that the 152 bytes hold. */
  lemma DecodeEncoded(h: seq<byte>, index: nat, e: Entry)
    requires IsHeader(h) && index < ENTRY_COUNT && Encodable(e) && Holds(h, index, e)
    ensures Decode(h, index) == e
  {
    var o := EntryOffset(index);
    var d := Decode(h, index);
    assert h[o + 0] == EncodedByte(e, 0) == e.kind;
    assert h[o + 1] == EncodedByte(e, 1) == |e.name|;
    assert h[o + EXTENT_COUNT_OFFSET] == EncodedByte(e, EXTENT_COUNT_OFFSET) == |e.extents|;
    assert h[o + MODE_OFFSET] == EncodedByte(e, MODE_OFFSET) == e.mode;
    DecodeNumbers(h, index, e);
    forall s | 0 <= s < |e.extents| ensures d.extents[s] == e.extents[s] {
      DecodeExtent(h, index, e, s);
    }
    assert d.extents == e.extents;
    forall k | 0 <= k < |e.name| ensures d.name[k] == e.name[k] {
      assert h[o + (NAME_OFFSET + k)] == EncodedByte(e, NAME_OFFSET + k);
    }
    assert d.name == e.name;
  }

  /** An entry depends only on its own 152 bytes, provided its name stays inside them. */
  lemma DecodeLocal(h: seq<byte>, h': seq<byte>, index: nat)
    requires IsHeader(h) && IsHeader(h') && index < ENTRY_COUNT
    requires |Decode(h, index).name| <= NAME_MAX
    requires forall k :: EntryOffset(index) <= k < EntryOffset(index) + ENTRY_SIZE ==> h[k] == h'[k]
    ensures Decode(h', index) == Decode(h, index)
  {
    var o := EntryOffset(index);
    var n := h[o + 1];
    assert h[o + NAME_OFFSET..o + NAME_OFFSET + n] == h'[o + NAME_OFFSET..o + NAME_OFFSET + n];
    assert h[o + 2..o + 6] == h'[o + 2..o + 6];
    assert h[o + CREATED_OFFSET..o + CREATED_OFFSET + 8] == h'[o + CREATED_OFFSET..o + CREATED_OFFSET + 8];
    assert h[o + MODIFIED_OFFSET..o + MODIFIED_OFFSET + 8] == h'[o + MODIFIED_OFFSET..o + MODIFIED_OFFSET + 8];
    forall s | 0 <= s < MAX_EXTENTS ensures EntryExtent(h, index, s) == EntryExtent(h', index, s) {
      var p := o + EXTENTS_OFFSET + s * EXTENT_ENTRY_SIZE;
      assert h[p..p + 4] == h'[p..p + 4];
      assert h[p + 4..p + 8] == h'[p + 4..p + 8];
    }
    assert Decode(h, index).extents == Decode(h', index).extents;
  }

  predicate NamesFit(t: seq<Entry>) {
    forall i :: 0 <= i < |t| ==> |t[i].name| <= NAME_MAX
  }

  /** Header bytes outside entry `index` agree; the entry's own bytes are those of `e`. */
  ghost predicate EntryReplaced(h: seq<byte>, h': seq<byte>, index: nat, e: Entry)
    requires index < ENTRY_COUNT && Encodable(e)
  {
    && IsHeader(h) && IsHeader(h')
    && (forall k :: 0 <= k < HEADER_BYTES && !(EntryOffset(index) <= k < EntryOffset(index) + ENTRY_SIZE) ==>
          h'[k] == h[k])
    && Holds(h', index, e)
  }

  lemma TableReplaced(h: seq<byte>, h': seq<byte>, index: nat, e: Entry)
    requires index < ENTRY_COUNT && Encodable(e) && EntryReplaced(h, h', index, e)
    requires NamesFit(TableOf(h))
    ensures TableOf(h') == TableOf(h)[index := e]
    ensures Formatted(h) ==> Formatted(h')
  {
    DecodeEncoded(h', index, e);
    var t, t' := TableOf(h), TableOf(h');
    forall i | 0 <= i < ENTRY_COUNT ensures t'[i] == t[index := e][i] {
      TableAt(h, i);
      TableAt(h', i);
      assert |t[i].name| <= NAME_MAX;
      if i != index {
        DecodeLocal(h, h', i);
      }
    }
    assert t' == t[index := e];
    if Formatted(h) {
      assert h'[..8] == h[..8];
    }
  }

  method PutLe(header: array<byte>, offset: nat, v: nat, width: nat)
    requires offset + width <= header.Length
    modifies header
    ensures forall j :: 0 <= j < width ==> header[offset + j] == LeByte(v, j)
    ensures forall k :: 0 <= k < header.Length && !(offset <= k < offset + width) ==>
              header[k] == old(header[k])
  {
    for i := 0 to width
      invariant forall j :: 0 <= j < i ==> header[offset + j] == LeByte(v, j)
      invariant forall k :: 0 <= k < header.Length && !(offset <= k < offset + i) ==>
                  header[k] == old(header[k])
    {
      header[offset + i] := LeByte(v, i);
    }
  }

  method FillZero(header: array<byte>, offset: nat, width: nat)
    requires offset + width <= header.Length
    modifies header
    ensures forall k :: 0 <= k < header.Length ==>
              header[k] == if offset <= k < offset + width then 0 else old(header[k])
  {
    for i := 0 to width
      invariant forall k :: 0 <= k < header.Length ==>
                  header[k] == if offset <= k < offset + i then 0 else old(header[k])
    {
      header[offset + i] := 0;
    }
  }

  method PutExtents(header: array<byte>, offset: nat, extents: seq<Extent>)
    requires |extents| <= MAX_EXTENTS && offset + 32 <= header.Length
    requires forall k :: offset <= k < offset + 32 ==> header[k] == 0
    modifies header
    ensures forall k :: 0 <= k < 32 ==> header[offset + k] == ExtentByte(extents, k)
    ensures forall k :: 0 <= k < header.Length && !(offset <= k < offset + 32) ==>
              header[k] == old(header[k])
  {
    for slot := 0 to |extents|
      invariant forall k :: 0 <= k < 8 * slot ==> header[offset + k] == ExtentByte(extents, k)
      invariant forall k :: 0 <= k < header.Length && !(offset <= k < offset + 8 * slot) ==>
                  header[k] == old(header[k])
    {
      label before:
      var o := offset + slot * EXTENT_ENTRY_SIZE;
      PutLe(header, o, extents[slot].start, 4);
      PutLe(header, o + 4, extents[slot].sectors, 4);
      forall k | 0 <= k < 8 * (slot + 1) ensures header[offset + k] == ExtentByte(extents, k) {
        if k < 8 * slot {
          assert header[offset + k] == old@before(header[offset + k]);
        } else {
          var j := k - 8 * slot;
          assert k / EXTENT_ENTRY_SIZE == slot && k % EXTENT_ENTRY_SIZE == j;
          if j < 4 { assert header[offset + k] == header[o + j]; }
          else { assert header[offset + k] == header[o + 4 + (j - 4)]; }
        }
      }
    }
  }

  /** The fixed 56-byte part of an entry, written over a zeroed slot. */
  method PutFields(header: array<byte>, o: nat, e: Entry)
    requires o + ENTRY_SIZE <= header.Length && Encodable(e)
    requires forall k :: o <= k < o + ENTRY_SIZE ==> header[k] == 0
    modifies header
    ensures forall k :: 0 <= k < NAME_OFFSET ==> header[o + k] == EncodedByte(e, k)
    ensures forall k :: 0 <= k < header.Length && !(o <= k < o + NAME_OFFSET) ==>
              header[k] == old(header[k])
  {
    header[o] := e.kind;
    header[o + 1] := |e.name|;
    PutLe(header, o + 2, e.size, 4);
    header[o + EXTENT_COUNT_OFFSET] := |e.extents|;
    PutExtents(header, o + EXTENTS_OFFSET, e.extents);
    PutLe(header, o + CREATED_OFFSET, e.created, 8);
    PutLe(header, o + MODIFIED_OFFSET, e.modified, 8);
    header[o + MODE_OFFSET] := e.mode;
    forall k | 0 <= k < NAME_OFFSET ensures header[o + k] == EncodedByte(e, k) {
      if 2 <= k < 6 { assert header[o + k] == header[o + 2 + (k - 2)]; }
      else if 7 <= k < 39 { assert header[o + k] == header[o + 7 + (k - 7)]; }
      else if 39 <= k < 47 { assert header[o + k] == header[o + 39 + (k - 39)]; }
      else if 47 <= k < 55 { assert header[o + k] == header[o + 47 + (k - 47)]; }
    }
  }

  method PutName(header: array<byte>, o: nat, name: seq<byte>)
    requires |name| <= NAME_MAX && o + NAME_MAX <= header.Length
    modifies header
    ensures forall j :: 0 <= j < |name| ==> header[o + j] == name[j]
    ensures forall j :: 0 <= j < header.Length && !(o <= j < o + |name|) ==> header[j] == old(header[j])
  {
    for k := 0 to |name|
      invariant forall j :: 0 <= j < k ==> header[o + j] == name[j]
      invariant forall j :: 0 <= j < header.Length && !(o <= j < o + k) ==> header[j] == old(header[j])
    {
      header[o + k] := name[k];
    }
  }

  /** pfs_set_entry: clears the slot and writes the fields in place. */
  method SetEntry(header: array<byte>, index: nat, e: Entry)
    requires header.Length == HEADER_BYTES && index < ENTRY_COUNT && Encodable(e)
    requires NamesFit(TableOf(header[..]))
    modifies header
    ensures EntryReplaced(old(header[..]), header[..], index, e)
    ensures TableOf(header[..]) == old(TableOf(header[..]))[index := e]
    ensures old(Formatted(header[..])) ==> Formatted(header[..])
  {
    WriteEntry(header, index, e);
    TableReplaced(old(header[..]), header[..], index, e);
  }

  method WriteEntry(header: array<byte>, index: nat, e: Entry)
    requires header.Length == HEADER_BYTES && index < ENTRY_COUNT && Encodable(e)
    modifies header
    ensures EntryReplaced(old(header[..]), header[..], index, e)
  {
    var o := EntryOffset(index);
    FillZero(header, o, ENTRY_SIZE);
    PutFields(header, o, e);
    PutName(header, o + NAME_OFFSET, e.name);
    forall k | 0 <= k < ENTRY_SIZE ensures header[..][o + k] == EncodedByte(e, k) {
      if NAME_OFFSET <= k < NAME_OFFSET + |e.name| {
        assert header[o + k] == header[o + NAME_OFFSET + (k - NAME_OFFSET)];
      }
    }
  }

  /** Only the size and modified fields of entry `index` differ, and they hold the given values. */
  ghost predicate Patched(h: seq<byte>, h': seq<byte>, index: nat, size: nat, now: nat)
    requires index < ENTRY_COUNT
  {
    var o := EntryOffset(index);
    && IsHeader(h) && IsHeader(h')
    && (forall j :: 0 <= j < 4 ==> h'[o + 2 + j] == LeByte(size, j))
    && (forall j :: 0 <= j < 8 ==> h'[o + MODIFIED_OFFSET + j] == LeByte(now, j))
    && (forall k :: 0 <= k < HEADER_BYTES && !(o + 2 <= k < o + 6) && !(o + MODIFIED_OFFSET <= k < o + MODE_OFFSET) ==>
          h'[k] == h[k])
  }

  lemma DecodePatched(h: seq<byte>, h': seq<byte>, index: nat, size: nat, now: nat)
    requires index < ENTRY_COUNT && Patched(h, h', index, size, now)
    requires size < 0x1_0000_0000 && now < 0x1_0000_0000_0000_0000
    ensures Decode(h', index) == Decode(h, index).(size := size, modified := now)
  {
    PowersOf256();
    var o := EntryOffset(index);
    var n := h[o + 1];
    LeRoundTrip(h'[o + 2..o + 6], size);
    LeRoundTrip(h'[o + MODIFIED_OFFSET..o + MODIFIED_OFFSET + 8], now);
    assert h'[o + NAME_OFFSET..o + NAME_OFFSET + n] == h[o + NAME_OFFSET..o + NAME_OFFSET + n];
    assert h'[o + CREATED_OFFSET..o + CREATED_OFFSET + 8] == h[o + CREATED_OFFSET..o + CREATED_OFFSET + 8];
    forall s | 0 <= s < MAX_EXTENTS ensures EntryExtent(h', index, s) == EntryExtent(h, index, s) {
      var p := o + EXTENTS_OFFSET + s * EXTENT_ENTRY_SIZE;
      assert h'[p..p + 4] == h[p..p + 4];
      assert h'[p + 4..p + 8] == h[p + 4..p + 8];
    }
    assert Decode(h', index).extents == Decode(h, index).extents;
  }

  lemma TablePatched(h: seq<byte>, h': seq<byte>, index: nat, size: nat, now: nat)
    requires index < ENTRY_COUNT && Patched(h, h', index, size, now)
    requires size < 0x1_0000_0000 && now < 0x1_0000_0000_0000_0000
    requires NamesFit(TableOf(h))
    ensures TableOf(h') == TableOf(h)[index := TableOf(h)[index].(size := size, modified := now)]
    ensures Formatted(h) ==> Formatted(h')
  {
    var t, t' := TableOf(h), TableOf(h');
    DecodePatched(h, h', index, size, now);
    forall i | 0 <= i < ENTRY_COUNT ensures t'[i] == t[index := t[index].(size := size, modified := now)][i] {
      TableAt(h, i);
      TableAt(h', i);
      assert |t[i].name| <= NAME_MAX;
      if i != index {
        DecodeLocal(h, h', i);
      }
    }
    if Formatted(h) {
      assert h'[..8] == h[..8];
    }
  }

  /** The in-place edit of pfs_update_size with pfs_touch_modified. */
  method PutSize(header: array<byte>, index: nat, size: nat, now: nat)
    requires header.Length == HEADER_BYTES && index < ENTRY_COUNT
    modifies header
    ensures Patched(old(header[..]), header[..], index, size, now)
  {
    var o := EntryOffset(index);
    PutLe(header, o + 2, size, 4);
    PutLe(header, o + MODIFIED_OFFSET, now, 8);
  }

  const FREE_ENTRY := Entry(KIND_FREE, [], 0, [], 0, 0, 0)

  /** pfs_clear_entry: the zeroed slot reads back as the free entry. */
  method ClearEntry(header: array<byte>, index: nat)
    requires header.Length == HEADER_BYTES && index < ENTRY_COUNT
    requires NamesFit(TableOf(header[..]))
    modifies header
    ensures TableOf(header[..]) == old(TableOf(header[..]))[index := FREE_ENTRY]
    ensures old(Formatted(header[..])) ==> Formatted(header[..])
  {
    FillZero(header, EntryOffset(index), ENTRY_SIZE);
    forall k | 0 <= k < ENTRY_SIZE ensures EncodedByte(FREE_ENTRY, k) == 0 {
      LeByteZero(if k < 6 then (if k < 2 then 0 else k - 2) else k);
      LeByteZero(if CREATED_OFFSET <= k < MODIFIED_OFFSET then k - CREATED_OFFSET else 0);
      LeByteZero(if MODIFIED_OFFSET <= k < MODE_OFFSET then k - MODIFIED_OFFSET else 0);
    }
    TableReplaced(old(header[..]), header[..], index, FREE_ENTRY);
  }

  lemma LeByteZero(j: nat)
    ensures LeByte(0, j) == 0
  {
  }
}
