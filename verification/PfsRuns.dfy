/** Whole runs of file-system calls, seen on the file map. */
module PfsRuns {
  import opened Common
  import opened FdTypes
  import opened PfsFormat
  import opened PfsTable
  import opened PfsNamespace
  import opened PfsFiles
  import opened PfsBytes
  import opened PfsWrites
  import opened PfsDisk

  datatype Call =
    | NsCall(op: NsOp)
    | OpenCall(path: seq<byte>, flags: Flags, now: nat)
    | WriteCall(file: seq<byte>, handleLen: nat, off: nat, data: seq<byte>, ok: bool)

  /** One call on the map. */
  ghost predicate CallStep(m: FileMap, c: Call, m': FileMap) {
    match c
    case NsCall(op) => m' == MapStep(m, op).files
    case OpenCall(path, flags, now) =>
      m' == if !ValidPath(path) || BadFlags(flags) then m else MapOpen(m, path, flags, now).files
    case WriteCall(file, handleLen, off, data, ok) =>
      if ok then file in m && m' == m[file := m[file].(data := WrittenVia(m[file].data, handleLen, off, data))]
          else m' == m
  }

  ghost predicate Run(ms: seq<FileMap>, cs: seq<Call>) {
    |ms| == |cs| + 1 && forall k, l :: 0 <= k < |cs| && l == k + 1 ==> CallStep(ms[k], cs[k], ms[l])
  }

  // ---- Where the bytes of a file come from ----

  /** The name, before the call, of the file that is called `n` after it. */
  function NameBefore(m: FileMap, c: Call, n: seq<byte>): seq<byte> {
    if c.NsCall? && c.op.RenameOp? && n == c.op.newName && MapStep(m, c.op).error == ERR_OK then c.op.name else n
  }

  /** The name, before call `l`, of the file that is called `n` before call `k`. */
  function NameAt(ms: seq<FileMap>, cs: seq<Call>, k: nat, n: seq<byte>, l: nat): seq<byte>
    requires l <= k <= |cs| <= |ms|
    decreases k
  {
    if l == k then n else NameAt(ms, cs, k - 1, NameBefore(ms[k - 1], cs[k - 1], n), l)
  }

  /** The call writes byte `j` of the file `n`. */
  predicate Writes(c: Call, n: seq<byte>, j: nat) {
    c.WriteCall? && c.ok && c.file == n && c.off <= j < c.off + |c.data|
  }

  /** The file `n` has a byte `j`. */
  predicate HasByte(m: FileMap, n: seq<byte>, j: nat) {
    n in m && j < |m[n].data|
  }

  /** From call `i` on, the file now called `n` has had its byte `j`, and no later call wrote it. */
  ghost predicate KeptSince(ms: seq<FileMap>, cs: seq<Call>, k: nat, n: seq<byte>, j: nat, i: nat)
    requires i <= k <= |cs| <= |ms| - 1
  {
    && (forall l :: i < l <= k ==> HasByte(ms[l], NameAt(ms, cs, k, n, l), j))
    && (forall l :: i < l < k ==> !Writes(cs[l], NameAt(ms, cs, k, n, l + 1), j))
  }

  /** Call `i` is the last to write byte `j` of the file now called `n`, whose byte it has been ever since: no unlink,
      truncation or shortening write came between. */
  ghost predicate LastWrite(ms: seq<FileMap>, cs: seq<Call>, k: nat, n: seq<byte>, j: nat, i: nat)
    requires k <= |cs| <= |ms| - 1
  {
    i < k && Writes(cs[i], NameAt(ms, cs, k, n, i + 1), j) && KeptSince(ms, cs, k, n, j, i)
  }

  /** No call has written byte `j` since the file now called `n` last came to be or was shorter than that. */
  ghost predicate NeverWritten(ms: seq<FileMap>, cs: seq<Call>, k: nat, n: seq<byte>, j: nat)
    requires k <= |cs| <= |ms| - 1
  {
    exists i :: 0 <= i <= k && !HasByte(ms[i], NameAt(ms, cs, k, n, i), j)
                && (forall l :: i <= l < k ==> !Writes(cs[l], NameAt(ms, cs, k, n, l + 1), j))
  }

  /** One call: a byte of a file is written by it, kept by it, or new and zero. */
  lemma ByteBefore(m: FileMap, c: Call, m': FileMap, n: seq<byte>, j: nat)
    requires CallStep(m, c, m') && HasByte(m', n, j)
    ensures Writes(c, n, j) ==> m'[n].data[j] == c.data[j - c.off]
    ensures !Writes(c, n, j) ==>
      if HasByte(m, NameBefore(m, c, n), j) then m'[n].data[j] == m[NameBefore(m, c, n)].data[j] else m'[n].data[j] == 0
  {
    if c.WriteCall? && c.ok && n == c.file {
      assert m'[n].data[j] == Written(m[n].data, c.off, c.data)[j];
    }
  }

  /** Of two last writes one would have come first and been overwritten. */
  lemma LastWriteUnique(ms: seq<FileMap>, cs: seq<Call>, k: nat, n: seq<byte>, j: nat, i: nat, i': nat)
    requires k <= |cs| <= |ms| - 1 && LastWrite(ms, cs, k, n, j, i) && LastWrite(ms, cs, k, n, j, i')
    ensures i == i'
  {
    if i < i' {
      NotOverwritten(ms, cs, k, n, j, i, i');
    } else if i' < i {
      NotOverwritten(ms, cs, k, n, j, i', i);
    }
  }

  lemma NotOverwritten(ms: seq<FileMap>, cs: seq<Call>, k: nat, n: seq<byte>, j: nat, i: nat, l: nat)
    requires k <= |cs| <= |ms| - 1 && LastWrite(ms, cs, k, n, j, i) && i < l < k
    ensures !Writes(cs[l], NameAt(ms, cs, k, n, l + 1), j)
  {
  }

  /** A call that does not write the byte leaves its last write, */
  lemma SourceStays(ms: seq<FileMap>, cs: seq<Call>, k: nat, n: seq<byte>, j: nat, i: nat)
    requires 0 < k <= |cs| <= |ms| - 1 && HasByte(ms[k], n, j) && !Writes(cs[k - 1], n, j)
    requires LastWrite(ms, cs, k - 1, NameBefore(ms[k - 1], cs[k - 1], n), j, i)
    ensures LastWrite(ms, cs, k, n, j, i)
  {
    hide HasByte, Writes, NameBefore;
    var before := NameBefore(ms[k - 1], cs[k - 1], n);
    forall l | i < l <= k ensures HasByte(ms[l], NameAt(ms, cs, k, n, l), j) {
      assert l < k ==> NameAt(ms, cs, k, n, l) == NameAt(ms, cs, k - 1, before, l);
    }
    forall l | i < l < k ensures !Writes(cs[l], NameAt(ms, cs, k, n, l + 1), j) {
      assert l + 1 < k ==> NameAt(ms, cs, k, n, l + 1) == NameAt(ms, cs, k - 1, before, l + 1);
    }
  }

  /** or leaves it without one. */
  lemma AbsenceStays(ms: seq<FileMap>, cs: seq<Call>, k: nat, n: seq<byte>, j: nat)
    requires 0 < k <= |cs| <= |ms| - 1 && !Writes(cs[k - 1], n, j)
    requires NeverWritten(ms, cs, k - 1, NameBefore(ms[k - 1], cs[k - 1], n), j)
    ensures NeverWritten(ms, cs, k, n, j)
  {
    hide HasByte, Writes, NameBefore;
    var before := NameBefore(ms[k - 1], cs[k - 1], n);
    var i :| 0 <= i <= k - 1 && !HasByte(ms[i], NameAt(ms, cs, k - 1, before, i), j)
             && (forall l :: i <= l < k - 1 ==> !Writes(cs[l], NameAt(ms, cs, k - 1, before, l + 1), j));
    assert !HasByte(ms[i], NameAt(ms, cs, k, n, i), j);
    forall l | i <= l < k ensures !Writes(cs[l], NameAt(ms, cs, k, n, l + 1), j) {
      assert l + 1 < k ==> NameAt(ms, cs, k, n, l + 1) == NameAt(ms, cs, k - 1, before, l + 1);
    }
  }

  lemma {:induction false} Provenance(ms: seq<FileMap>, cs: seq<Call>, k: nat, n: seq<byte>, j: nat)
    returns (source: Option<nat>)
    requires Run(ms, cs) && ms[0] == map[] && k < |ms| && HasByte(ms[k], n, j)
    ensures source.Some? ==>
      LastWrite(ms, cs, k, n, j, source.value) && ms[k][n].data[j] == cs[source.value].data[j - cs[source.value].off]
    ensures source.None? ==> NeverWritten(ms, cs, k, n, j) && ms[k][n].data[j] == 0
    decreases k
  {
    hide CallStep, LastWrite, NeverWritten, NameBefore, Writes;
    var m, c := ms[k - 1], cs[k - 1];
    ByteBefore(m, c, ms[k], n, j);
    var before := NameBefore(m, c, n);
    if Writes(c, n, j) {
      source := Some(k - 1);
      JustWritten(ms, cs, k, n, j);
    } else if HasByte(m, before, j) {
      source := Provenance(ms, cs, k - 1, before, j);
      if source.Some? {
        SourceStays(ms, cs, k, n, j, source.value);
      } else {
        AbsenceStays(ms, cs, k, n, j);
      }
    } else {
      source := None;
      JustGrown(ms, cs, k, n, j);
    }
  }

  lemma JustWritten(ms: seq<FileMap>, cs: seq<Call>, k: nat, n: seq<byte>, j: nat)
    requires 0 < k <= |cs| <= |ms| - 1 && HasByte(ms[k], n, j) && Writes(cs[k - 1], n, j)
    ensures LastWrite(ms, cs, k, n, j, k - 1)
  {
  }

  lemma JustGrown(ms: seq<FileMap>, cs: seq<Call>, k: nat, n: seq<byte>, j: nat)
    requires 0 < k <= |cs| <= |ms| - 1 && !Writes(cs[k - 1], n, j)
    requires !HasByte(ms[k - 1], NameBefore(ms[k - 1], cs[k - 1], n), j)
    ensures NeverWritten(ms, cs, k, n, j)
  {
    assert NameAt(ms, cs, k, n, k - 1) == NameBefore(ms[k - 1], cs[k - 1], n);
  }

  /** Over every run from an empty file system, each byte of a file is what the last write to that byte of that file
      supplied, followed through renames, and a zero if there was none since the file was created, truncated or shorter
      than that: leftovers of deleted, truncated or never-written sectors are never contents. */
  lemma NoLeftovers(ms: seq<FileMap>, cs: seq<Call>, k: nat, n: seq<byte>, j: nat)
    requires Run(ms, cs) && ms[0] == map[] && k < |ms| && HasByte(ms[k], n, j)
    ensures forall i: nat :: LastWrite(ms, cs, k, n, j, i) ==> ms[k][n].data[j] == cs[i].data[j - cs[i].off]
    ensures NeverWritten(ms, cs, k, n, j) ==> ms[k][n].data[j] == 0
    ensures NeverWritten(ms, cs, k, n, j) <==> !exists i: nat :: LastWrite(ms, cs, k, n, j, i)
  {
    var source := Provenance(ms, cs, k, n, j);
    forall i: nat | LastWrite(ms, cs, k, n, j, i) ensures source == Some(i) && !NeverWritten(ms, cs, k, n, j) {
      WrittenNotNever(ms, cs, k, n, j, i);
      LastWriteUnique(ms, cs, k, n, j, i, source.value);
    }
  }

  lemma WrittenNotNever(ms: seq<FileMap>, cs: seq<Call>, k: nat, n: seq<byte>, j: nat, i: nat)
    requires k <= |cs| <= |ms| - 1 && LastWrite(ms, cs, k, n, j, i)
    ensures !NeverWritten(ms, cs, k, n, j)
  {
    forall l | 0 <= l <= k && !HasByte(ms[l], NameAt(ms, cs, k, n, l), j) ensures l <= i {
    }
  }

  // ---- Runs on the disk ----

  const ZERO_SECTOR: Sector := Zeros(SECTOR_SIZE)

  type Disk = d: seq<Sector> | IsDisk(d) witness seq<Sector>(DISK_SECTORS, i requires i >= 0 => ZERO_SECTOR)

  type FileHandle = h: Fd | h.index < ENTRY_COUNT witness EMPTY_FD

  /** What the kernel was asked for, and what it answered. */
  datatype DiskCall =
    | Namespace(op: NsOp, error: nat)
    | Open(path: seq<byte>, flags: Flags, now: nat, error: nat, free: Option<nat>)
    | Write(handle: FileHandle, data: seq<byte>, ok: bool)

  /** What the methods of the file system promise of a call, whatever handle a write goes through. */
  ghost predicate DiskStep(d: Disk, c: DiskCall, d': Disk) {
    DiskInv(d) && DiskInv(d') &&
    match c
    case Namespace(op, error) => Stepped(d, d', op, error)
    case Open(path, flags, now, error, free) => Opened(d, d', path, flags, now, error, free)
    case Write(h, data, ok) => HandleWrite(d, d', h, data, ok)
  }

  ghost predicate DiskRun(ds: seq<Disk>, cs: seq<DiskCall>) {
    |ds| == |cs| + 1 && Mounted(ds[0]) && forall k, l :: 0 <= k < |cs| && l == k + 1 ==> DiskStep(ds[k], cs[k], ds[l])
  }

  ghost function CallOn(d: Disk, c: DiskCall): Call {
    match c
    case Namespace(op, error) => NsCall(op)
    case Open(path, flags, now, error, free) => OpenCall(path, flags, now)
    case Write(h, data, ok) => WriteCall(TableOn(d)[h.index].name, h.len, WriteOffset(h), data, ok)
  }

  lemma NamespaceCallIsStep(d: seq<Sector>, d': seq<Sector>, op: NsOp, error: nat)
    requires Mounted(d) && DiskInv(d') && Stepped(d, d', op, error)
    ensures Mounted(d') && CallStep(FilesOn(d), NsCall(op), FilesOn(d'))
  {
  }

  lemma OpenIsStep(d: seq<Sector>, d': seq<Sector>, path: seq<byte>, flags: Flags, now: nat, error: nat,
                   free: Option<nat>)
    requires Mounted(d) && DiskInv(d') && Opened(d, d', path, flags, now, error, free)
    ensures Mounted(d') && CallStep(FilesOn(d), OpenCall(path, flags, now), FilesOn(d'))
  {
  }

  lemma WriteIsStep(d: seq<Sector>, d': seq<Sector>, h: Fd, data: seq<byte>, ok: bool)
    requires Mounted(d) && DiskInv(d') && h.index < ENTRY_COUNT && HandleWrite(d, d', h, data, ok)
    ensures Mounted(d')
    ensures CallStep(FilesOn(d), WriteCall(TableOn(d)[h.index].name, h.len, WriteOffset(h), data, ok), FilesOn(d'))
  {
    var t := TableOn(d);
    NamesOk(t);
    if ok {
      FindUsed(t, h.index);
      FilesFind(t, d, t[h.index].name);
    }
  }

  lemma DiskStepIsStep(d: Disk, c: DiskCall, d': Disk)
    requires Mounted(d) && DiskStep(d, c, d')
    ensures Mounted(d') && CallStep(FilesOn(d), CallOn(d, c), FilesOn(d'))
  {
    match c
    case Namespace(op, error) => NamespaceCallIsStep(d, d', op, error);
    case Open(path, flags, now, error, free) => OpenIsStep(d, d', path, flags, now, error, free);
    case Write(h, data, ok) => WriteIsStep(d, d', h, data, ok);
  }

  lemma {:induction false} StaysMounted(ds: seq<Disk>, cs: seq<DiskCall>, k: nat)
    requires DiskRun(ds, cs) && k < |ds|
    ensures Mounted(ds[k])
  {
    if k > 0 {
      StaysMounted(ds, cs, k - 1);
      assert DiskStep(ds[k - 1], cs[k - 1], ds[k]);
      DiskStepIsStep(ds[k - 1], cs[k - 1], ds[k]);
    }
  }

  ghost function MapsOf(ds: seq<Disk>): (ms: seq<FileMap>) {
    seq(|ds|, k requires 0 <= k < |ds| => FilesOn(ds[k]))
  }

  ghost function CallsOf(ds: seq<Disk>, cs: seq<DiskCall>): (calls: seq<Call>)
    requires |ds| == |cs| + 1
  {
    seq(|cs|, k requires 0 <= k < |cs| => CallOn(ds[k], cs[k]))
  }

  /** Every run on the disk is a run on the map. */
  lemma DiskRunIsRun(ds: seq<Disk>, cs: seq<DiskCall>)
    requires DiskRun(ds, cs)
    ensures Run(MapsOf(ds), CallsOf(ds, cs))
  {
    hide Mounted, DiskStep, CallStep, CallOn, FilesOn;
    forall k, l | 0 <= k < |cs| && l == k + 1 ensures CallStep(MapsOf(ds)[k], CallsOf(ds, cs)[k], MapsOf(ds)[l]) {
      StaysMounted(ds, cs, k);
      DiskStepIsStep(ds[k], cs[k], ds[l]);
    }
  }

  /** The call wrote this byte at place `j`. */
  predicate Supplies(c: DiskCall, j: nat, b: byte) {
    && c.Write? && WriteOffset(c.handle) <= j < WriteOffset(c.handle) + |c.data|
    && b == c.data[j - WriteOffset(c.handle)]
  }

  /** So on a disk formatted empty no sequence of namespace calls, opens and writes through any handles leaves a byte in
      a file that was not written there or zero. */
  lemma DiskNoLeftovers(ds: seq<Disk>, cs: seq<DiskCall>, k: nat, n: seq<byte>, j: nat)
    requires DiskRun(ds, cs) && FilesOn(ds[0]) == map[] && k < |ds| && HasByte(FilesOn(ds[k]), n, j)
    ensures forall i: nat :: LastWrite(MapsOf(ds), CallsOf(ds, cs), k, n, j, i) ==>
      Supplies(cs[i], j, FilesOn(ds[k])[n].data[j])
    ensures FilesOn(ds[k])[n].data[j] == 0 || exists i: nat :: LastWrite(MapsOf(ds), CallsOf(ds, cs), k, n, j, i)
  {
    hide Mounted, DiskStep, CallStep, FilesOn, LastWrite, NeverWritten, Run, Supplies;
    DiskRunIsRun(ds, cs);
    NoLeftovers(MapsOf(ds), CallsOf(ds, cs), k, n, j);
    forall i: nat | LastWrite(MapsOf(ds), CallsOf(ds, cs), k, n, j, i)
      ensures i < |cs| && Supplies(cs[i], j, FilesOn(ds[k])[n].data[j])
    {
      LastIsWrite(ds, cs, k, n, j, i);
    }
  }

  lemma LastIsWrite(ds: seq<Disk>, cs: seq<DiskCall>, k: nat, n: seq<byte>, j: nat, i: nat)
    requires |ds| == |cs| + 1 && k < |ds| && HasByte(FilesOn(ds[k]), n, j)
    requires LastWrite(MapsOf(ds), CallsOf(ds, cs), k, n, j, i)
    requires FilesOn(ds[k])[n].data[j] == CallsOf(ds, cs)[i].data[j - CallsOf(ds, cs)[i].off]
    ensures i < |cs| && Supplies(cs[i], j, FilesOn(ds[k])[n].data[j])
  {
    hide KeptSince, FilesOn, TableOn;
  }
}
