/** The FAT32 boot image: its layout, its allocation table, and files read back along their cluster chains
    (Microsoft FAT32 File System Specification, "FAT Data Structure"). */
module FatImage {
  import opened Common
  import opened PfsFormat

  const SECTOR := 512           // also the cluster size
  const RESERVED := 32
  const ROOT_CLUSTER := 2
  const END_OF_CHAIN := 0x0FFF_FFFF
  const MEDIA_ENTRY := 0x0FFF_FFF8
  const FIRST_FILE := 5
  const MIN_CLUSTERS := 65525

  // ---- Layout ----

  /** Division rounded up. */
  function CeilDiv(a: int, b: int): int
    requires b > 0
  {
    -(-a / b)
  }

  function Clusters(total: int, fatSectors: int): int {
    total - RESERVED - 2 * fatSectors
  }

  /** Sectors a table for all clusters takes, two more entries included. */
  function Need(total: int, fatSectors: int): int {
    CeilDiv((Clusters(total, fatSectors) + 2) * 4, SECTOR)
  }

  function FileClusters(size: nat): (n: nat)
    ensures size <= SECTOR * n < size + SECTOR
  {
    (size + SECTOR - 1) / SECTOR
  }

  /** Bigger tables leave fewer clusters to cover. */
  lemma NeedShrinks(total: int, a: int, b: int)
    requires a <= b
    ensures Need(total, b) <= Need(total, a)
  {
    Monotone(-(Clusters(total, a) + 2) * 4, -(Clusters(total, b) + 2) * 4);
  }

  lemma Monotone(x: int, y: int)
    requires x <= y
    ensures x / SECTOR <= y / SECTOR
  {
  }

  function Sectors(total: int): int {
    if Need(total, 1) <= 1 then 1 else Need(total, 1)
  }

  /** calculate_layout: the loop settles after at most one enlargement, and succeeds exactly when the clusters
      are enough for FAT32 and for the files. */
  method CalculateLayout(total: nat, sizes: seq<nat>) returns (r: Option<(nat, nat)>)
    ensures r.Some? <==>
      Clusters(total, Sectors(total)) >= MIN_CLUSTERS && Clusters(total, Sectors(total)) >= 3 + Sum(sizes)
    ensures r.Some? ==>
      r.value == (Sectors(total), Clusters(total, Sectors(total))) && (r.value.1 + 2) * 4 <= r.value.0 * SECTOR
  {
    var fatSectors := 1;
    NeedShrinks(total, 1, Sectors(total));
    while true
      invariant fatSectors == 1 || (fatSectors == Sectors(total) && fatSectors > 1)
      invariant fatSectors == Sectors(total) ==> Need(total, fatSectors) <= fatSectors
      decreases if fatSectors == Sectors(total) then 0 else 1
    {
      var required := Need(total, fatSectors);
      if required <= fatSectors {
        var fileClusters := 0;
        for i := 0 to |sizes|
          invariant fileClusters == Sum(sizes[..i])
        {
          assert sizes[..i + 1][..i] == sizes[..i];
          fileClusters := fileClusters + FileClusters(sizes[i]);
        }
        assert sizes[..|sizes|] == sizes;
        var clusterCount := Clusters(total, fatSectors);
        if clusterCount < MIN_CLUSTERS || clusterCount < 3 + fileClusters {
          return None;
        }
        return Some((fatSectors, clusterCount));
      }
      fatSectors := required;
    }
  }

  /** Clusters of all files together. */
  function Sum(sizes: seq<nat>): nat {
    if sizes == [] then 0 else Sum(sizes[..|sizes| - 1]) + FileClusters(sizes[|sizes| - 1])
  }

  // ---- The allocation table ----

  /** Entries `first` to `first + count` form one chain. */
  predicate IsChain(fat: seq<nat>, first: nat, count: nat) {
    first + count <= |fat| && forall i :: first <= i < first + count ==>
        fat[i] == if i + 1 < first + count then i + 1 else END_OF_CHAIN
  }

  /** Following the table from `c` for at most `fuel` clusters; None if it leads nowhere or goes on too long. */
  function Follow(fat: seq<nat>, c: nat, fuel: nat): Option<seq<nat>>
    decreases fuel
  {
    if fuel == 0 || c < 2 || c >= |fat| then None
    else if fat[c] >= MEDIA_ENTRY then Some([c])
    else
      var rest := Follow(fat, fat[c], fuel - 1);
      if rest.None? then None else Some([c] + rest.value)
  }

  function Between(a: nat, b: nat): (s: seq<nat>)
    requires a <= b
    ensures |s| == b - a && forall i :: 0 <= i < |s| ==> s[i] == a + i
  {
    seq(b - a, i requires 0 <= i < b - a => a + i)
  }

  /** Following a chain gives its clusters in order. */
  lemma {:induction false} FollowChain(fat: seq<nat>, first: nat, count: nat, j: nat, fuel: nat)
    requires IsChain(fat, first, count) && 2 <= first && j < count && fuel >= count - j && |fat| < MEDIA_ENTRY
    ensures Follow(fat, first + j, fuel) == Some(Between(first + j, first + count))
    decreases count - j
  {
    if j + 1 < count {
      FollowChain(fat, first, count, j + 1, fuel - 1);
      assert [first + j] + Between(first + j + 1, first + count) == Between(first + j, first + count);
    } else {
      assert [first + j] == Between(first + j, first + count);
    }
  }

  method FillChain(fat: array<nat>, first: nat, count: nat)
    requires first + count <= fat.Length
    modifies fat
    ensures IsChain(fat[..], first, count)
    ensures forall i :: 0 <= i < fat.Length && !(first <= i < first + count) ==> fat[i] == old(fat[i])
  {
    for k := 0 to count
      invariant forall i :: first <= i < first + k ==> fat[i] == if i + 1 < first + count then i + 1 else END_OF_CHAIN
      invariant forall i :: 0 <= i < fat.Length && !(first <= i < first + k) ==> fat[i] == old(fat[i])
    {
      fat[first + k] := if k + 1 < count then first + k + 1 else END_OF_CHAIN;
    }
  }

  /** The table of an image with three files, one after the other from cluster 5. */
  predicate IsTable(fat: seq<nat>, counts: (nat, nat, nat)) {
    && |fat| >= FIRST_FILE + counts.0 + counts.1 + counts.2
    && fat[0] == MEDIA_ENTRY && (forall i :: 1 <= i < FIRST_FILE ==> fat[i] == END_OF_CHAIN)
    && IsChain(fat, FIRST_FILE, counts.0)
    && IsChain(fat, FIRST_FILE + counts.0, counts.1)
    && IsChain(fat, FIRST_FILE + counts.0 + counts.1, counts.2)
    && (forall i :: FIRST_FILE + counts.0 + counts.1 + counts.2 <= i < |fat| ==> fat[i] == 0)
  }

  /** The three chains share no cluster with each other or with the directories, and what is in none of them is free. */
  lemma ChainsApart(fat: seq<nat>, counts: (nat, nat, nat))
    requires IsTable(fat, counts) && counts.0 > 0 && counts.1 > 0 && counts.2 > 0 && |fat| < MEDIA_ENTRY
    ensures
      var a, b, c := Follow(fat, FIRST_FILE, |fat|), Follow(fat, FIRST_FILE + counts.0, |fat|),
          Follow(fat, FIRST_FILE + counts.0 + counts.1, |fat|);
      && a.Some? && b.Some? && c.Some? && |a.value| == counts.0 && |b.value| == counts.1 && |c.value| == counts.2
      && (forall x :: x in a.value ==> x >= FIRST_FILE && x !in b.value && x !in c.value)
      && (forall x :: x in b.value ==> x >= FIRST_FILE && x !in c.value)
      && (forall x :: x in c.value ==> x >= FIRST_FILE)
      && (forall x :: FIRST_FILE <= x < |fat| ==> (fat[x] == 0 <==> (x !in a.value && x !in b.value && x !in c.value)))
  {
    FollowChain(fat, FIRST_FILE, counts.0, 0, |fat|);
    FollowChain(fat, FIRST_FILE + counts.0, counts.1, 0, |fat|);
    FollowChain(fat, FIRST_FILE + counts.0 + counts.1, counts.2, 0, |fat|);
    FreeBehind(fat, counts);
    hide IsTable, IsChain, Follow, Between;
    RangeHas(FIRST_FILE, FIRST_FILE + counts.0);
    RangeHas(FIRST_FILE + counts.0, FIRST_FILE + counts.0 + counts.1);
    RangeHas(FIRST_FILE + counts.0 + counts.1, FIRST_FILE + counts.0 + counts.1 + counts.2);
  }

  lemma FreeBehind(fat: seq<nat>, counts: (nat, nat, nat))
    requires IsTable(fat, counts)
    ensures FIRST_FILE + counts.0 + counts.1 + counts.2 <= |fat|
    ensures forall x :: FIRST_FILE <= x < |fat| ==> (fat[x] == 0 <==> x >= FIRST_FILE + counts.0 + counts.1 + counts.2)
  {
  }

  lemma RangeHas(a: nat, b: nat)
    requires a <= b
    ensures forall x :: x in Between(a, b) <==> a <= x < b
  {
    forall x | a <= x < b ensures x in Between(a, b) {
      assert Between(a, b)[x - a] == x;
    }
  }

  method BuildFat(clusterCount: nat, counts: (nat, nat, nat)) returns (fat: array<nat>)
    requires clusterCount >= 3 + counts.0 + counts.1 + counts.2
    ensures fresh(fat) && fat.Length == clusterCount + 2 && IsTable(fat[..], counts)
    ensures forall i :: 0 <= i < fat.Length ==> fat[i] <= END_OF_CHAIN || fat[i] <= fat.Length
  {
    fat := new nat[clusterCount + 2](_ => 0);
    fat[0] := MEDIA_ENTRY;
    fat[1], fat[ROOT_CLUSTER], fat[3], fat[4] := END_OF_CHAIN, END_OF_CHAIN, END_OF_CHAIN, END_OF_CHAIN;
    FillChain(fat, FIRST_FILE, counts.0);
    FillChain(fat, FIRST_FILE + counts.0, counts.1);
    FillChain(fat, FIRST_FILE + counts.0 + counts.1, counts.2);
  }

  // ---- Bytes ----

  function Le32(v: nat): (s: seq<byte>)
    ensures |s| == 4
  {
    seq(4, j requires 0 <= j < 4 => LeByte(v, j))
  }

  lemma Le32Back(v: nat)
    requires v < 0x1_0000_0000
    ensures LeValue(Le32(v)) == v
  {
    PowersOf256();
    LeRoundTrip(Le32(v), v);
  }

  /** The table as bytes, padded to whole sectors. */
  ghost predicate Encodes(bytes: seq<byte>, fat: seq<nat>) {
    4 * |fat| <= |bytes| && forall i :: 0 <= i < |fat| ==> bytes[4 * i..4 * i + 4] == Le32(fat[i])
  }

  method EncodeFat(fat: seq<nat>, fatSectors: nat) returns (bytes: array<byte>)
    requires 4 * |fat| <= fatSectors * SECTOR
    ensures fresh(bytes) && bytes.Length == fatSectors * SECTOR && Encodes(bytes[..], fat)
  {
    bytes := new byte[fatSectors * SECTOR](_ => 0);
    for i := 0 to |fat|
      invariant forall k :: 0 <= k < i ==> bytes[4 * k..4 * k + 4] == Le32(fat[k])
    {
      ghost var before := bytes[..];
      WriteAt(bytes, 4 * i, Le32(fat[i]));
      forall k | 0 <= k < i ensures bytes[4 * k..4 * k + 4] == Le32(fat[k]) {
        assert bytes[4 * k..4 * k + 4] == before[4 * k..4 * k + 4];
      }
    }
    assert forall k :: 0 <= k < |fat| ==> bytes[..][4 * k..4 * k + 4] == bytes[4 * k..4 * k + 4];
  }

  /** A slice assignment. */
  method WriteAt(image: array<byte>, start: nat, data: seq<byte>)
    requires start + |data| <= image.Length
    modifies image
    ensures image[start..start + |data|] == data
    ensures forall x :: 0 <= x < image.Length && !(start <= x < start + |data|) ==> image[x] == old(image[x])
  {
    forall k | 0 <= k < |data| {
      image[start + k] := data[k];
    }
  }

  /** The table a reader finds in the bytes. */
  function DecodeFat(bytes: seq<byte>, n: nat): (fat: seq<nat>)
    requires 4 * n <= |bytes|
    ensures |fat| == n
  {
    seq(n, i requires 0 <= i < n => LeValue(bytes[4 * i..4 * i + 4]))
  }

  lemma DecodeEncodes(bytes: seq<byte>, fat: seq<nat>)
    requires Encodes(bytes, fat) && forall i :: 0 <= i < |fat| ==> fat[i] < 0x1_0000_0000
    ensures DecodeFat(bytes, |fat|) == fat
  {
    forall i | 0 <= i < |fat| ensures DecodeFat(bytes, |fat|)[i] == fat[i] {
      Le32Back(fat[i]);
    }
  }

  // ---- Directory entries ----

  const ATTR_DIR: byte := 0x10
  const ATTR_FILE: byte := 0x20

  function Le16(v: nat): (s: seq<byte>)
    ensures |s| == 2
  {
    [v % 256, v / 256 % 256]
  }

  /** short_entry. */
  function ShortEntry(name: seq<byte>, attr: byte, first: nat, size: nat): (e: seq<byte>)
    requires |name| == 11
    ensures |e| == 32
  {
    name + [attr] + Zeros(8) + Le16(first / 65536) + Zeros(4) + Le16(first % 65536) + Le32(size)
  }

  /** The first cluster and the size a reader takes from an entry. */
  function EntryCluster(e: seq<byte>): nat
    requires |e| == 32
  {
    LeValue(e[20..22]) * 65536 + LeValue(e[26..28])
  }

  function EntrySize(e: seq<byte>): nat
    requires |e| == 32
  {
    LeValue(e[28..32])
  }

  /** The eight and three characters of an entry's name. */
  function EntryName(e: seq<byte>): seq<byte>
    requires |e| == 32
  {
    e[0..11]
  }

  lemma EntryBack(name: seq<byte>, attr: byte, first: nat, size: nat)
    requires |name| == 11 && first < 0x1_0000_0000 && size < 0x1_0000_0000
    ensures EntryCluster(ShortEntry(name, attr, first, size)) == first
    ensures EntrySize(ShortEntry(name, attr, first, size)) == size
    ensures EntryName(ShortEntry(name, attr, first, size)) == name && ShortEntry(name, attr, first, size)[11] == attr
  {
    var e := ShortEntry(name, attr, first, size);
    Le32Back(size);
    assert e[28..32] == Le32(size);
    HalfBack(first / 65536);
    HalfBack(first % 65536);
    assert e[20..22] == Le16(first / 65536) && e[26..28] == Le16(first % 65536);
    assert first == first / 65536 * 65536 + first % 65536;
  }

  lemma HalfBack(v: nat)
    requires v < 65536
    ensures LeValue(Le16(v)) == v
  {
    var s := Le16(v);
    assert s[1..] == [s[1]] && s[1..][1..] == [];
    assert LeValue(s[1..]) == s[1];
  }

  // ---- Clusters ----

  /** cluster_offset. */
  function Offset(firstData: nat, cluster: nat): nat
    requires cluster >= 2
  {
    (firstData + (cluster - 2)) * SECTOR
  }

  /** What a reader finds along a list of clusters. */
  function ReadClusters(image: seq<byte>, firstData: nat, clusters: seq<nat>): seq<byte>
    requires forall i :: 0 <= i < |clusters| ==> clusters[i] >= 2 && Offset(firstData, clusters[i]) + SECTOR <= |image|
  {
    if clusters == [] then []
    else
      image[Offset(firstData, clusters[0])..Offset(firstData, clusters[0]) + SECTOR]
      + ReadClusters(image, firstData, clusters[1..])
  }

  /** Neighbouring clusters are one stretch of the image. */
  lemma {:induction false} ReadRange(image: seq<byte>, firstData: nat, a: nat, b: nat)
    requires 2 <= a <= b && Offset(firstData, b) <= |image|
    ensures ReadClusters(image, firstData, Between(a, b)) == image[Offset(firstData, a)..Offset(firstData, b)]
    decreases b - a
  {
    if a < b {
      assert Between(a, b)[1..] == Between(a + 1, b);
      ReadRange(image, firstData, a + 1, b);
      assert Offset(firstData, a + 1) == Offset(firstData, a) + SECTOR;
    }
  }

  /** The file named by an entry of a directory cluster: its chain is followed and cut to its size. */
  function FileAt(image: seq<byte>, fat: seq<nat>, firstData: nat, dir: nat, slot: nat): Option<seq<byte>>
    requires dir >= 2 && slot < 16 && Offset(firstData, dir) + SECTOR <= |image|
  {
    var e := EntryAt(image, firstData, dir, slot);
    var chain := Follow(fat, EntryCluster(e), |fat|);
    if chain.None? || exists i ::
        0 <= i < |chain.value| && (chain.value[i] < 2 || Offset(firstData, chain.value[i]) + SECTOR > |image|) then None
    else
      var data := ReadClusters(image, firstData, chain.value);
      if |data| < EntrySize(e) then None else Some(data[..EntrySize(e)])
  }

  function EntryAt(image: seq<byte>, firstData: nat, dir: nat, slot: nat): (e: seq<byte>)
    requires dir >= 2 && slot < 16 && Offset(firstData, dir) + SECTOR <= |image|
    ensures |e| == 32
  {
    image[Offset(firstData, dir) + 32 * slot..Offset(firstData, dir) + 32 * slot + 32]
  }

  /** The slot of the entry with this name and attribute, looked for up to the first entry that starts with zero. */
  function SlotNamed(image: seq<byte>, firstData: nat, dir: nat, name: seq<byte>, attr: byte,
                     from: nat): (r: Option<nat>)
    requires dir >= 2 && from <= 16 && Offset(firstData, dir) + SECTOR <= |image|
    ensures r.Some? ==> r.value < 16
    decreases 16 - from
  {
    if from == 16 || EntryAt(image, firstData, dir, from)[0] == 0 then None
    else
      var e := EntryAt(image, firstData, dir, from);
      if EntryName(e) == name && e[11] == attr then Some(from)
      else SlotNamed(image, firstData, dir, name, attr, from + 1)
  }

  /** The cluster of a subdirectory. */
  function DirNamed(image: seq<byte>, firstData: nat, dir: nat, name: seq<byte>): Option<nat>
    requires dir >= 2 && Offset(firstData, dir) + SECTOR <= |image|
  {
    var slot := SlotNamed(image, firstData, dir, name, ATTR_DIR, 0);
    if slot.None? then None else Some(EntryCluster(EntryAt(image, firstData, dir, slot.value)))
  }

  /** The contents of a file. */
  function FileNamed(image: seq<byte>, fat: seq<nat>, firstData: nat, dir: nat, name: seq<byte>): Option<seq<byte>>
    requires dir >= 2 && Offset(firstData, dir) + SECTOR <= |image|
  {
    var slot := SlotNamed(image, firstData, dir, name, ATTR_FILE, 0);
    if slot.None? then None else FileAt(image, fat, firstData, dir, slot.value)
  }

  /** A name as it stands in an entry: in capitals, filled up with blanks, without the dot. */
  function Short(stem: string, extension: string): (s: seq<byte>)
    requires |stem| <= 8 && |extension| <= 3
    ensures |s| == 11
  {
    seq(11, i requires 0 <= i < 11 =>
      var c := if i < |stem| then stem[i] else if 8 <= i < 8 + |extension| then extension[i - 8] else ' ';
      if c as int < 256 then c as int as byte else 0)
  }

  /** A payload lies at the start of its clusters. */
  predicate Stored(image: seq<byte>, firstData: nat, first: nat, payload: seq<byte>)
    requires first >= 2
  {
    && Offset(firstData, first + FileClusters(|payload|)) <= |image|
    && image[Offset(firstData, first)..Offset(firstData, first) + |payload|] == payload
  }

  /** An entry, a chain and stored bytes together make a file that reads back as its payload. */
  lemma ReadsBack(image: seq<byte>, fat: seq<nat>, firstData: nat, dir: nat, slot: nat, name: seq<byte>, attr: byte,
                  first: nat, payload: seq<byte>)
    requires dir >= 2 && slot < 16 && Offset(firstData, dir) + SECTOR <= |image| && |name| == 11
    requires payload != [] && |payload| < 0x1_0000_0000 && first >= 2 && |fat| < MEDIA_ENTRY
    requires IsChain(fat, first, FileClusters(|payload|)) && Stored(image, firstData, first, payload)
    requires EntryAt(image, firstData, dir, slot) == ShortEntry(name, attr, first, |payload|)
    ensures FileAt(image, fat, firstData, dir, slot) == Some(payload)
  {
    var n := FileClusters(|payload|);
    EntryBack(name, attr, first, |payload|);
    FollowChain(fat, first, n, 0, |fat|);
    var chain := Between(first, first + n);
    forall i | 0 <= i < |chain| ensures chain[i] >= 2 && Offset(firstData, chain[i]) + SECTOR <= |image| {
      assert Offset(firstData, chain[i] + 1) <= Offset(firstData, first + n);
    }
    ReadRange(image, firstData, first, first + n);
    assert Offset(firstData, first + n) == Offset(firstData, first) + SECTOR * n;
    assert image[Offset(firstData, first)..Offset(firstData, first + n)][..|payload|] == payload;
  }

  /** write_cluster, for data of at most one cluster. */
  method WriteCluster(image: array<byte>, firstData: nat, cluster: nat, data: seq<byte>)
    requires cluster >= 2 && |data| <= SECTOR && Offset(firstData, cluster + 1) <= image.Length
    modifies image
    ensures image[Offset(firstData, cluster)..Offset(firstData, cluster) + SECTOR] == data + Zeros(SECTOR - |data|)
    ensures image[Offset(firstData, cluster)..Offset(firstData, cluster) + |data|] == data
    ensures forall x :: 0 <= x < image.Length && !(Offset(firstData, cluster) <= x < Offset(firstData, cluster + 1)) ==>
      image[x] == old(image[x])
  {
    WriteAt(image, Offset(firstData, cluster), data + Zeros(SECTOR - |data|));
    assert (data + Zeros(SECTOR - |data|))[..|data|] == data;
    assert image[Offset(firstData, cluster)..Offset(firstData, cluster) + SECTOR][..|data|] == data;
  }

  /** A byte of a stored piece of a payload. */
  lemma ChunkByte(image: seq<byte>, at: nat, payload: seq<byte>, from: nat, to: nat, k: nat)
    requires from <= k < to <= |payload| && at + (to - from) <= |image|
    requires image[at..at + (to - from)] == payload[from..to]
    ensures image[at + (k - from)] == payload[k]
  {
    assert image[at..at + (to - from)][k - from] == payload[from..to][k - from];
  }

  /** The loop that stores one payload in its clusters. */
  method StoreFile(image: array<byte>, firstData: nat, first: nat, payload: seq<byte>)
    requires first >= 2 && Offset(firstData, first + FileClusters(|payload|)) <= image.Length
    modifies image
    ensures Stored(image[..], firstData, first, payload)
    ensures forall x | 0 <= x < image.Length
      && !(Offset(firstData, first) <= x < Offset(firstData, first + FileClusters(|payload|))) ::
      image[x] == old(image[x])
  {
    var n := FileClusters(|payload|);
    var start := Offset(firstData, first);
    for i := 0 to n
      invariant forall k :: 0 <= k < |payload| && k < SECTOR * i ==> image[start + k] == payload[k]
      invariant forall x :: 0 <= x < image.Length && !(start <= x < start + SECTOR * i) ==> image[x] == old(image[x])
    {
      var to := if SECTOR * (i + 1) < |payload| then SECTOR * (i + 1) else |payload|;
      var chunk := payload[SECTOR * i..to];
      ghost var before := image[..];
      WriteCluster(image, firstData, first + i, chunk);
      ghost var at := Offset(firstData, first + i);
      assert at == start + SECTOR * i && Offset(firstData, first + i + 1) == at + SECTOR;
      forall k | 0 <= k < |payload| && k < SECTOR * (i + 1) ensures image[start + k] == payload[k] {
        if k < SECTOR * i {
          assert image[start + k] == before[start + k];
        } else {
          ChunkByte(image[..], at, payload, SECTOR * i, to, k);
        }
      }
    }
    assert image[..][start..start + |payload|] == payload;
  }

  // ---- The image ----

  const EFI: seq<byte> := [69, 70, 73, 32, 32, 32, 32, 32, 32, 32, 32]
  const BOOT: seq<byte> := [66, 79, 79, 84, 32, 32, 32, 32, 32, 32, 32]
  const DOT_NAME: seq<byte> := [46, 32, 32, 32, 32, 32, 32, 32, 32, 32, 32]
  const DOT_DOT_NAME: seq<byte> := [46, 46, 32, 32, 32, 32, 32, 32, 32, 32, 32]
  const KERNEL_ELF: seq<byte> := [75, 69, 82, 78, 69, 76, 32, 32, 69, 76, 70]
  const INITRD_RFS: seq<byte> := [73, 78, 73, 84, 82, 68, 32, 32, 82, 70, 83]
  const BOOTX64_EFI: seq<byte> := [66, 79, 79, 84, 88, 54, 52, 32, 69, 70, 73]

  datatype Plan = Plan(fatSectors: nat, clusterCount: nat, boot: seq<byte>, kernel: seq<byte>, initrd: seq<byte>) {
    function FirstData(): nat { RESERVED + 2 * fatSectors }

    function FirstFat(): nat { RESERVED * SECTOR }

    function SecondFat(): nat { FirstFat() + fatSectors * SECTOR }

    function KernelFirst(): nat { FIRST_FILE + FileClusters(|boot|) }

    function InitrdFirst(): nat { KernelFirst() + FileClusters(|kernel|) }

    function Counts(): (nat, nat, nat) { (FileClusters(|boot|), FileClusters(|kernel|), FileClusters(|initrd|)) }

    predicate Ok(total: nat) {
      && total == RESERVED + 2 * fatSectors + clusterCount && (clusterCount + 2) * 4 <= fatSectors * SECTOR
      && clusterCount >= 3 + Counts().0 + Counts().1 + Counts().2 && clusterCount + 2 < MEDIA_ENTRY
      && boot != [] && kernel != [] && initrd != []
      && |boot| < 0x1_0000_0000 && |kernel| < 0x1_0000_0000 && |initrd| < 0x1_0000_0000
    }
  }

  function RootDir(p: Plan): (d: seq<byte>)
    ensures |d| == 96
  {
    ShortEntry(EFI, ATTR_DIR, 3, 0) + ShortEntry(KERNEL_ELF, ATTR_FILE, p.KernelFirst(), |p.kernel|)
    + ShortEntry(INITRD_RFS, ATTR_FILE, p.InitrdFirst(), |p.initrd|)
  }

  function EfiDir(): (d: seq<byte>)
    ensures |d| == 96
  {
    ShortEntry(DOT_NAME, ATTR_DIR, 3, 0) + ShortEntry(DOT_DOT_NAME, ATTR_DIR, ROOT_CLUSTER, 0)
        + ShortEntry(BOOT, ATTR_DIR, 4, 0)
  }

  function BootDir(p: Plan): (d: seq<byte>)
    ensures |d| == 96
  {
    ShortEntry(DOT_NAME, ATTR_DIR, 4, 0) + ShortEntry(DOT_DOT_NAME, ATTR_DIR, 3, 0)
        + ShortEntry(BOOTX64_EFI, ATTR_FILE, FIRST_FILE, |p.boot|)
  }

  /** What the writes leave in the image. */
  ghost predicate Placed(image: seq<byte>, total: nat, p: Plan, bytes: seq<byte>)
    requires p.Ok(total) && |bytes| == p.fatSectors * SECTOR
  {
    && |image| == total * SECTOR
    && FatsAre(image, p, bytes)
    && DirIs(image, p.FirstData(), ROOT_CLUSTER, RootDir(p)) && DirIs(image, p.FirstData(), 3, EfiDir())
    && DirIs(image, p.FirstData(), 4, BootDir(p))
    && Stored(image, p.FirstData(), FIRST_FILE, p.boot)
    && Stored(image, p.FirstData(), p.KernelFirst(), p.kernel)
    && Stored(image, p.FirstData(), p.InitrdFirst(), p.initrd)
  }

  predicate DirIs(image: seq<byte>, firstData: nat, cluster: nat, dir: seq<byte>)
    requires cluster >= 2 && |dir| == 96
  {
    Offset(firstData, cluster) + SECTOR <= |image|
        && image[Offset(firstData, cluster)..Offset(firstData, cluster) + SECTOR] == dir + Zeros(SECTOR - 96)
  }

  lemma DirEntryAt(image: seq<byte>, firstData: nat, cluster: nat, dir: seq<byte>, slot: nat)
    requires cluster >= 2 && |dir| == 96 && DirIs(image, firstData, cluster, dir) && slot < 3
    ensures EntryAt(image, firstData, cluster, slot) == dir[32 * slot..32 * slot + 32]
  {
    var o := Offset(firstData, cluster);
    SliceOfSlice(image, o, SECTOR, 32 * slot, 32 * slot + 32);
    assert (dir + Zeros(SECTOR - 96))[32 * slot..32 * slot + 32] == dir[32 * slot..32 * slot + 32];
  }

  lemma SliceOfSlice(s: seq<byte>, from: nat, n: nat, a: nat, b: nat)
    requires from + n <= |s| && a <= b <= n
    ensures s[from..from + n][a..b] == s[from + a..from + b]
  {
    var part := s[from..from + n];
    assert forall k :: 0 <= k < b - a ==> part[a..b][k] == part[a + k] == s[from + (a + k)];
  }

  /** The finished image: two equal tables, directories that lead to each other, and every file read back whole. */
  ghost predicate Readable(image: seq<byte>, total: nat, p: Plan)
    requires p.Ok(total)
  {
    && |image| == total * SECTOR
    && image[p.FirstFat()..p.SecondFat()] == image[p.SecondFat()..p.SecondFat() + p.fatSectors * SECTOR]
    && var fat := DecodeFat(image[p.FirstFat()..p.SecondFat()], p.clusterCount + 2);
    && IsTable(fat, p.Counts())
    && Offset(p.FirstData(), FIRST_FILE) <= |image| && FilesRead(image, p, fat)
  }

  lemma NamesSpelled()
    ensures EFI == Short("EFI", "") && BOOT == Short("BOOT", "") && DOT_NAME == Short(".", "")
    ensures DOT_DOT_NAME == Short("..", "") && BOOTX64_EFI == Short("BOOTX64", "EFI")
    ensures KERNEL_ELF == Short("KERNEL", "ELF") && INITRD_RFS == Short("INITRD", "RFS")
  {
  }

  /** What one entry is made of. */
  datatype Slot = Slot(name: seq<byte>, attr: byte, first: nat, size: nat) {
    predicate Ok() {
      |name| == 11 && name[0] != 0 && first < 0x1_0000_0000 && size < 0x1_0000_0000
    }

    function Bytes(): seq<byte>
      requires Ok()
    {
      ShortEntry(name, attr, first, size)
    }
  }

  lemma SlotBytes(s: Slot)
    requires s.Ok()
    ensures |s.Bytes()| == 32 && EntryName(s.Bytes()) == s.name && s.Bytes()[11] == s.attr && s.Bytes()[0] != 0
    ensures EntryCluster(s.Bytes()) == s.first
  {
    EntryBack(s.name, s.attr, s.first, s.size);
    assert s.Bytes()[0] == EntryName(s.Bytes())[0];
  }

  /** A directory of three entries with different names: each is found by its name, and leads where it says. */
  lemma DirFound(image: seq<byte>, firstData: nat, cluster: nat, dir: seq<byte>, a: Slot, b: Slot, c: Slot)
    requires cluster >= 2 && |dir| == 96 && DirIs(image, firstData, cluster, dir) && a.Ok() && b.Ok() && c.Ok()
    requires a.name != b.name && a.name != c.name && b.name != c.name
    requires dir[0..32] == a.Bytes() && dir[32..64] == b.Bytes() && dir[64..96] == c.Bytes()
    ensures Offset(firstData, cluster) + SECTOR <= |image|
    ensures SlotNamed(image, firstData, cluster, a.name, a.attr, 0) == Some(0)
    ensures SlotNamed(image, firstData, cluster, b.name, b.attr, 0) == Some(1)
    ensures SlotNamed(image, firstData, cluster, c.name, c.attr, 0) == Some(2)
    ensures EntryCluster(EntryAt(image, firstData, cluster, 0)) == a.first
    ensures EntryCluster(EntryAt(image, firstData, cluster, 1)) == b.first
    ensures EntryCluster(EntryAt(image, firstData, cluster, 2)) == c.first
    ensures EntryAt(image, firstData, cluster, 3)[0] == 0
  {
    assert image[Offset(firstData, cluster) + 96] == (dir + Zeros(SECTOR - 96))[96];
    SlotBytes(a);
    SlotBytes(b);
    SlotBytes(c);
    DirEntryAt(image, firstData, cluster, dir, 0);
    DirEntryAt(image, firstData, cluster, dir, 1);
    DirEntryAt(image, firstData, cluster, dir, 2);
    hide EntryAt, EntryName, EntryCluster, ShortEntry, Slot.Bytes;
    assert SlotNamed(image, firstData, cluster, b.name, b.attr, 1) == Some(1);
    assert SlotNamed(image, firstData, cluster, c.name, c.attr, 2) == Some(2);
    assert SlotNamed(image, firstData, cluster, c.name, c.attr, 1) == Some(2);
  }

  /** Three entries in a row are found at their slots. */
  lemma DirSlots(a: seq<byte>, b: seq<byte>, c: seq<byte>)
    requires |a| == |b| == |c| == 32
    ensures var d := a + b + c; |d| == 96 && d[0..32] == a && d[32..64] == b && d[64..96] == c
  {
  }

  lemma FileReads(image: seq<byte>, fat: seq<nat>, firstData: nat, cluster: nat, dir: seq<byte>, slot: nat,
                  name: seq<byte>, first: nat, payload: seq<byte>)
    requires cluster >= 2 && |dir| == 96 && DirIs(image, firstData, cluster, dir) && slot < 3 && |name| == 11
    requires payload != [] && |payload| < 0x1_0000_0000 && first >= 2 && |fat| < MEDIA_ENTRY
    requires IsChain(fat, first, FileClusters(|payload|)) && Stored(image, firstData, first, payload)
    requires dir[32 * slot..32 * slot + 32] == ShortEntry(name, ATTR_FILE, first, |payload|)
    ensures FileAt(image, fat, firstData, cluster, slot) == Some(payload)
  {
    DirEntryAt(image, firstData, cluster, dir, slot);
    ReadsBack(image, fat, firstData, cluster, slot, name, ATTR_FILE, first, payload);
  }

  lemma RootSlots(p: Plan)
    ensures RootDir(p)[0..32] == ShortEntry(EFI, ATTR_DIR, 3, 0)
    ensures RootDir(p)[32..64] == ShortEntry(KERNEL_ELF, ATTR_FILE, p.KernelFirst(), |p.kernel|)
    ensures RootDir(p)[64..96] == ShortEntry(INITRD_RFS, ATTR_FILE, p.InitrdFirst(), |p.initrd|)
  {
    hide ShortEntry;
    DirSlots(ShortEntry(EFI, ATTR_DIR, 3, 0), ShortEntry(KERNEL_ELF, ATTR_FILE, p.KernelFirst(), |p.kernel|),
             ShortEntry(INITRD_RFS, ATTR_FILE, p.InitrdFirst(), |p.initrd|));
  }

  lemma SubdirSlots(p: Plan)
    ensures EfiDir()[64..96] == ShortEntry(BOOT, ATTR_DIR, 4, 0)
    ensures EfiDir()[0..32] == ShortEntry(DOT_NAME, ATTR_DIR, 3, 0)
    ensures EfiDir()[32..64] == ShortEntry(DOT_DOT_NAME, ATTR_DIR, ROOT_CLUSTER, 0)
    ensures BootDir(p)[0..32] == ShortEntry(DOT_NAME, ATTR_DIR, 4, 0)
    ensures BootDir(p)[32..64] == ShortEntry(DOT_DOT_NAME, ATTR_DIR, 3, 0)
    ensures BootDir(p)[64..96] == ShortEntry(BOOTX64_EFI, ATTR_FILE, FIRST_FILE, |p.boot|)
  {
    hide ShortEntry;
    DirSlots(ShortEntry(DOT_NAME, ATTR_DIR, 3, 0), ShortEntry(DOT_DOT_NAME, ATTR_DIR, ROOT_CLUSTER, 0),
             ShortEntry(BOOT, ATTR_DIR, 4, 0));
    DirSlots(ShortEntry(DOT_NAME, ATTR_DIR, 4, 0), ShortEntry(DOT_DOT_NAME, ATTR_DIR, 3, 0),
             ShortEntry(BOOTX64_EFI, ATTR_FILE, FIRST_FILE, |p.boot|));
  }

  /** Directories of three entries each lead to each other by name, and every file reads back along its path. */
  ghost predicate FilesRead(image: seq<byte>, p: Plan, fat: seq<nat>)
    requires Offset(p.FirstData(), FIRST_FILE) <= |image|
  {
    var d := p.FirstData();
    && DirNamed(image, d, ROOT_CLUSTER, Short("EFI", "")) == Some(3)
    && DirNamed(image, d, 3, Short("BOOT", "")) == Some(4)
    && DirNamed(image, d, 3, Short(".", "")) == Some(3) && DirNamed(image, d, 4, Short(".", "")) == Some(4)
    && DirNamed(image, d, 3, Short("..", "")) == Some(ROOT_CLUSTER)
    && DirNamed(image, d, 4, Short("..", "")) == Some(3)
    && EntryAt(image, d, ROOT_CLUSTER, 3)[0] == EntryAt(image, d, 3, 3)[0] == EntryAt(image, d, 4, 3)[0] == 0
    && FileNamed(image, fat, d, 4, Short("BOOTX64", "EFI")) == Some(p.boot)
    && FileNamed(image, fat, d, ROOT_CLUSTER, Short("KERNEL", "ELF")) == Some(p.kernel)
    && FileNamed(image, fat, d, ROOT_CLUSTER, Short("INITRD", "RFS")) == Some(p.initrd)
  }

  lemma WrittenReads(image: seq<byte>, total: nat, p: Plan, bytes: seq<byte>, fat: seq<nat>)
    requires p.Ok(total) && |bytes| == p.fatSectors * SECTOR && Placed(image, total, p, bytes)
    requires |fat| == p.clusterCount + 2 && IsTable(fat, p.Counts())
    ensures Offset(p.FirstData(), FIRST_FILE) <= |image| && FilesRead(image, p, fat)
  {
    NamesSpelled();
    RootSlots(p);
    SubdirSlots(p);
    var d := p.FirstData();
    hide ShortEntry, FileAt, EntryAt, DirIs, Stored, EntryCluster, IsChain, FileClusters, RootDir, EfiDir, BootDir,
        Short, SlotNamed;
    FileReads(image, fat, d, 4, BootDir(p), 2, BOOTX64_EFI, FIRST_FILE, p.boot);
    FileReads(image, fat, d, ROOT_CLUSTER, RootDir(p), 1, KERNEL_ELF, p.KernelFirst(), p.kernel);
    FileReads(image, fat, d, ROOT_CLUSTER, RootDir(p), 2, INITRD_RFS, p.InitrdFirst(), p.initrd);
    DirFound(image, d, ROOT_CLUSTER, RootDir(p), Slot(EFI, ATTR_DIR, 3, 0),
             Slot(KERNEL_ELF, ATTR_FILE, p.KernelFirst(), |p.kernel|),
             Slot(INITRD_RFS, ATTR_FILE, p.InitrdFirst(), |p.initrd|));
    DirFound(image, d, 3, EfiDir(), Slot(DOT_NAME, ATTR_DIR, 3, 0), Slot(DOT_DOT_NAME, ATTR_DIR, ROOT_CLUSTER, 0),
             Slot(BOOT, ATTR_DIR, 4, 0));
    DirFound(image, d, 4, BootDir(p), Slot(DOT_NAME, ATTR_DIR, 4, 0), Slot(DOT_DOT_NAME, ATTR_DIR, 3, 0),
             Slot(BOOTX64_EFI, ATTR_FILE, FIRST_FILE, |p.boot|));
  }

  lemma WrittenIsReadable(image: seq<byte>, total: nat, p: Plan, bytes: seq<byte>, fat: seq<nat>)
    requires p.Ok(total) && |bytes| == p.fatSectors * SECTOR && Placed(image, total, p, bytes)
    requires |fat| == p.clusterCount + 2 && IsTable(fat, p.Counts()) && Encodes(bytes, fat)
    requires forall i :: 0 <= i < |fat| ==> fat[i] < 0x1_0000_0000
    ensures Readable(image, total, p)
  {
    DecodeEncodes(bytes, fat);
    TablesOf(image, total, p, bytes);
    hide Placed, Encodes, IsTable, FilesRead, FatsAre, DecodeFat, Readable;
    WrittenReads(image, total, p, bytes, fat);
    ReadableParts(image, total, p, bytes, fat);
  }

  lemma ReadableParts(image: seq<byte>, total: nat, p: Plan, bytes: seq<byte>, fat: seq<nat>)
    requires p.Ok(total) && |bytes| == p.fatSectors * SECTOR && |image| == total * SECTOR
    requires |fat| == p.clusterCount + 2 && DecodeFat(bytes, |fat|) == fat && IsTable(fat, p.Counts())
    requires p.SecondFat() + p.fatSectors * SECTOR <= |image| && image[p.FirstFat()..p.SecondFat()] == bytes
    requires image[p.SecondFat()..p.SecondFat() + p.fatSectors * SECTOR] == bytes
    requires Offset(p.FirstData(), FIRST_FILE) <= |image| && FilesRead(image, p, fat)
    ensures Readable(image, total, p)
  {
    hide FilesRead, IsTable, DecodeFat, FileClusters;
  }

  lemma TablesOf(image: seq<byte>, total: nat, p: Plan, bytes: seq<byte>)
    requires p.Ok(total) && |bytes| == p.fatSectors * SECTOR && Placed(image, total, p, bytes)
    ensures |image| == total * SECTOR && p.SecondFat() + p.fatSectors * SECTOR <= |image|
    ensures image[p.FirstFat()..p.SecondFat()] == bytes
    ensures image[p.SecondFat()..p.SecondFat() + p.fatSectors * SECTOR] == bytes
  {
    hide DirIs, Stored;
  }

  /** A stretch that a write did not touch. */
  lemma Untouched(before: seq<byte>, after: seq<byte>, from: nat, to: nat)
    requires |before| == |after| && from <= to <= |before| && forall x :: from <= x < to ==> after[x] == before[x]
    ensures after[from..to] == before[from..to]
  {
  }

  /** The three directory clusters. */
  method WriteDirs(image: array<byte>, total: nat, p: Plan)
    requires p.Ok(total) && image.Length == total * SECTOR
    modifies image
    ensures DirIs(image[..], p.FirstData(), ROOT_CLUSTER, RootDir(p))
    ensures DirIs(image[..], p.FirstData(), 3, EfiDir())
    ensures DirIs(image[..], p.FirstData(), 4, BootDir(p))
    ensures forall x :: 0 <= x < image.Length && !(Offset(p.FirstData(), 2) <= x < Offset(p.FirstData(), 5)) ==>
      image[x] == old(image[x])
  {
    hide ShortEntry;
    WriteCluster(image, p.FirstData(), ROOT_CLUSTER, RootDir(p));
    ghost var one := image[..];
    WriteCluster(image, p.FirstData(), 3, EfiDir());
    ghost var two := image[..];
    Untouched(one, two, Offset(p.FirstData(), 2), Offset(p.FirstData(), 2) + SECTOR);
    WriteCluster(image, p.FirstData(), 4, BootDir(p));
    Untouched(two, image[..], Offset(p.FirstData(), 2), Offset(p.FirstData(), 2) + SECTOR);
    Untouched(two, image[..], Offset(p.FirstData(), 3), Offset(p.FirstData(), 3) + SECTOR);
  }

  /** The three payloads. */
  method WriteFiles(image: array<byte>, total: nat, p: Plan)
    requires p.Ok(total) && image.Length == total * SECTOR
    modifies image
    ensures Stored(image[..], p.FirstData(), FIRST_FILE, p.boot)
    ensures Stored(image[..], p.FirstData(), p.KernelFirst(), p.kernel)
    ensures Stored(image[..], p.FirstData(), p.InitrdFirst(), p.initrd)
    ensures forall x :: 0 <= x < Offset(p.FirstData(), FIRST_FILE) ==> image[x] == old(image[x])
  {
    hide FileClusters;
    StoreFile(image, p.FirstData(), FIRST_FILE, p.boot);
    ghost var one := image[..];
    StoreFile(image, p.FirstData(), p.KernelFirst(), p.kernel);
    ghost var two := image[..];
    StoredStays(one, two, p.FirstData(), FIRST_FILE, p.boot);
    StoreFile(image, p.FirstData(), p.InitrdFirst(), p.initrd);
    StoredStays(two, image[..], p.FirstData(), FIRST_FILE, p.boot);
    StoredStays(two, image[..], p.FirstData(), p.KernelFirst(), p.kernel);
  }

  lemma StoredStays(before: seq<byte>, after: seq<byte>, firstData: nat, first: nat, payload: seq<byte>)
    requires first >= 2 && Stored(before, firstData, first, payload) && |after| == |before|
    requires forall x :: 0 <= x < Offset(firstData, first + FileClusters(|payload|)) ==> after[x] == before[x]
    ensures Stored(after, firstData, first, payload)
  {
    Untouched(before, after, Offset(firstData, first), Offset(firstData, first) + |payload|);
  }

  /** build_image, from the layout on; the boot and information sectors lie before the first table. */
  method BuildImage(total: nat, boot: seq<byte>, kernel: seq<byte>, initrd: seq<byte>)
    returns (r: Option<array<byte>>, ghost p: Plan)
    requires total < MEDIA_ENTRY && |boot| < 0x1_0000_0000 && |kernel| < 0x1_0000_0000 && |initrd| < 0x1_0000_0000
    ensures r.Some? ==>
      p.boot == boot && p.kernel == kernel && p.initrd == initrd && p.Ok(total) && Readable(r.value[..], total, p)
    ensures r.None? <==> (boot == [] || kernel == [] || initrd == [] || Clusters(total, Sectors(total)) < MIN_CLUSTERS
                          || Clusters(total, Sectors(total)) < 3 + Sum([|boot|, |kernel|, |initrd|]))
  {
    hide Readable, Placed, IsTable, Encodes, FileClusters, Clusters, Sectors, Sum;
    p := Plan(0, 0, boot, kernel, initrd);
    var layout := CalculateLayout(total, [|boot|, |kernel|, |initrd|]);
    if layout.None? || |boot| == 0 || |kernel| == 0 || |initrd| == 0 {
      return None, p;
    }
    var plan := Plan(layout.value.0, layout.value.1, boot, kernel, initrd);
    p := plan;
    SumOfThree(|boot|, |kernel|, |initrd|);
    LayoutAdds(total);
    var fat := BuildFat(plan.clusterCount, plan.Counts());
    var bytes := EncodeFat(fat[..], plan.fatSectors);
    var image := new byte[total * SECTOR](_ => 0);
    WriteAll(image, total, plan, bytes[..]);
    WrittenIsReadable(image[..], total, plan, bytes[..], fat[..]);
    return Some(image), p;
  }

  lemma SumOfThree(a: nat, b: nat, c: nat)
    ensures Sum([a, b, c]) == FileClusters(a) + FileClusters(b) + FileClusters(c)
  {
    assert [a, b, c][..2] == [a, b] && [a, b][..1] == [a] && [a][..0] == [];
    assert Sum([]) == 0;
    assert Sum([a]) == FileClusters(a);
    assert Sum([a, b]) == FileClusters(a) + FileClusters(b);
  }

  lemma LayoutAdds(total: nat)
    ensures total == RESERVED + 2 * Sectors(total) + Clusters(total, Sectors(total))
  {
  }

  /** Both copies of the table. */
  method WriteFats(image: array<byte>, total: nat, p: Plan, bytes: seq<byte>)
    requires p.Ok(total) && image.Length == total * SECTOR && |bytes| == p.fatSectors * SECTOR
    modifies image
    ensures FatsAre(image[..], p, bytes)
  {
    WriteAt(image, p.FirstFat(), bytes);
    ghost var one := image[..];
    WriteAt(image, p.SecondFat(), bytes);
    Untouched(one, image[..], p.FirstFat(), p.SecondFat());
  }

  predicate FatsAre(image: seq<byte>, p: Plan, bytes: seq<byte>) {
    && p.SecondFat() + p.fatSectors * SECTOR <= |image| && |bytes| == p.fatSectors * SECTOR
    && image[p.FirstFat()..p.SecondFat()] == bytes && image[p.SecondFat()..p.SecondFat() + |bytes|] == bytes
  }

  lemma FatsStay(before: seq<byte>, after: seq<byte>, p: Plan, bytes: seq<byte>)
    requires FatsAre(before, p, bytes) && |after| == |before|
    requires forall x :: 0 <= x < Offset(p.FirstData(), ROOT_CLUSTER) && x < |before| ==> after[x] == before[x]
    ensures FatsAre(after, p, bytes)
  {
    Untouched(before, after, p.FirstFat(), p.SecondFat());
    Untouched(before, after, p.SecondFat(), p.SecondFat() + |bytes|);
  }

  method WriteAll(image: array<byte>, total: nat, p: Plan, bytes: seq<byte>)
    requires p.Ok(total) && image.Length == total * SECTOR && |bytes| == p.fatSectors * SECTOR
    modifies image
    ensures Placed(image[..], total, p, bytes)
  {
    hide FileClusters, ShortEntry, DirIs, Stored;
    WriteFats(image, total, p, bytes);
    ghost var two := image[..];
    WriteDirs(image, total, p);
    ghost var three := image[..];
    FatsStay(two, three, p, bytes);
    WriteFiles(image, total, p);
    ghost var four := image[..];
    FatsStay(three, four, p, bytes);
    DirStays(three, four, p.FirstData(), ROOT_CLUSTER, RootDir(p));
    DirStays(three, four, p.FirstData(), 3, EfiDir());
    DirStays(three, four, p.FirstData(), 4, BootDir(p));
  }

  lemma DirStays(before: seq<byte>, after: seq<byte>, firstData: nat, cluster: nat, dir: seq<byte>)
    requires cluster >= 2 && |dir| == 96 && DirIs(before, firstData, cluster, dir) && |after| == |before|
    requires cluster < FIRST_FILE && Offset(firstData, FIRST_FILE) <= |before|
    requires forall x :: 0 <= x < Offset(firstData, FIRST_FILE) ==> after[x] == before[x]
    ensures DirIs(after, firstData, cluster, dir)
  {
    Untouched(before, after, Offset(firstData, cluster), Offset(firstData, cluster) + SECTOR);
  }
}
