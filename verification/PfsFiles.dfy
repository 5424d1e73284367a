/** What the disk means: a map from names to files and directories. */
module PfsFiles {
  import opened Common
  import opened PfsFormat
  import opened PfsAlloc
  import opened PfsTable
  import opened PfsNamespace

  type Sector = s: seq<byte> | |s| == SECTOR_SIZE witness seq(SECTOR_SIZE, i requires i >= 0 => 0)

  predicate IsDisk(d: seq<Sector>) {
    |d| == DISK_SECTORS
  }

  /** The header bytes stored in the first sectors. */
  function HeaderOf(d: seq<Sector>): (h: seq<byte>)
    requires IsDisk(d)
    ensures IsHeader(h)
  {
    seq(HEADER_BYTES, k requires 0 <= k < HEADER_BYTES => d[k / SECTOR_SIZE][k % SECTOR_SIZE])
  }

  /** Sector lists that lie in the data area without repetition. */
  ghost predicate DataLbas(lbas: seq<nat>) {
    Ascending(lbas) && forall l :: 0 <= l < |lbas| ==> DATA_START <= lbas[l] < DISK_SECTORS
  }

  /** All bytes of the listed sectors, in order. */
  ghost function Raw(d: seq<Sector>, lbas: seq<nat>): (r: seq<byte>)
    requires IsDisk(d) && DataLbas(lbas)
    ensures |r| == SECTOR_SIZE * |lbas|
  {
    seq(SECTOR_SIZE * |lbas|, k requires 0 <= k < SECTOR_SIZE * |lbas| =>
      d[lbas[k / SECTOR_SIZE]][k % SECTOR_SIZE])
  }

  lemma RawFrame(d: seq<Sector>, d': seq<Sector>, lbas: seq<nat>)
    requires IsDisk(d) && IsDisk(d') && DataLbas(lbas)
    requires forall l :: 0 <= l < |lbas| ==> d'[lbas[l]] == d[lbas[l]]
    ensures Raw(d', lbas) == Raw(d, lbas)
  {
  }

  lemma RawPrefix(d: seq<Sector>, lbas: seq<nat>, more: seq<nat>)
    requires IsDisk(d) && DataLbas(lbas + more)
    ensures DataLbas(lbas)
    ensures Raw(d, lbas + more)[..SECTOR_SIZE * |lbas|] == Raw(d, lbas)
  {
    forall i, j | 0 <= i < j < |lbas| ensures lbas[i] < lbas[j] {
      assert (lbas + more)[i] < (lbas + more)[j];
    }
    forall l | 0 <= l < |lbas| ensures DATA_START <= lbas[l] < DISK_SECTORS {
      assert (lbas + more)[l] == lbas[l];
    }
  }

  lemma FileLbas(e: Entry)
    requires WellFormedEntry(e) && IsFile(e)
    ensures DataLbas(Lbas(e.extents))
  {
    CanonicalAscends(e.extents);
    forall l | 0 <= l < |Lbas(e.extents)| ensures DATA_START <= Lbas(e.extents)[l] < DISK_SECTORS {
      SectorsInDataArea(e, l);
    }
  }

  /** The bytes of a file: the front of its sectors, up to its size. */
  ghost function Contents(d: seq<Sector>, e: Entry): seq<byte> {
    var lbas := Lbas(e.extents);
    if IsDisk(d) && DataLbas(lbas) && e.size <= SECTOR_SIZE * |lbas| then Raw(d, lbas)[..e.size] else []
  }

  lemma ContentsLength(d: seq<Sector>, e: Entry)
    requires IsDisk(d) && WellFormedEntry(e) && IsFile(e)
    ensures |Contents(d, e)| == e.size
  {
    FileLbas(e);
  }

  datatype Node = Node(dir: bool, data: seq<byte>, created: nat, mode: byte)

  ghost function NodeOf(d: seq<Sector>, e: Entry): Node {
    Node(IsDir(e), if IsDir(e) then [] else Contents(d, e), e.created, e.mode)
  }

  type FileMap = map<seq<byte>, Node>

  ghost function FilesUpTo(t: seq<Entry>, d: seq<Sector>, n: nat): FileMap
    requires n <= |t|
  {
    if n == 0 then map[]
    else
      var m := FilesUpTo(t, d, n - 1);
      if Used(t[n - 1]) then m[t[n - 1].name := NodeOf(d, t[n - 1])] else m
  }

  /** Every used entry under its name. */
  ghost function Files(t: seq<Entry>, d: seq<Sector>): FileMap {
    FilesUpTo(t, d, |t|)
  }

  lemma {:induction false} UpToFind(t: seq<Entry>, d: seq<Sector>, n: nat, name: seq<byte>)
    requires DistinctNames(t) && n <= |t|
    ensures name in FilesUpTo(t, d, n) <==> Find(t, name).Some? && Find(t, name).value < n
    ensures name in FilesUpTo(t, d, n) ==> FilesUpTo(t, d, n)[name] == NodeOf(d, t[Find(t, name).value])
  {
    if n > 0 {
      UpToFind(t, d, n - 1, name);
      if Used(t[n - 1]) {
        FindUsed(t, n - 1);
      }
    }
  }

  lemma FilesFind(t: seq<Entry>, d: seq<Sector>, name: seq<byte>)
    requires DistinctNames(t)
    ensures name in Files(t, d) <==> Find(t, name).Some?
    ensures Find(t, name).Some? ==> Files(t, d)[name] == NodeOf(d, t[Find(t, name).value])
  {
    UpToFind(t, d, |t|, name);
  }

  lemma FindStep(t: seq<Entry>, i: nat, e: Entry, name: seq<byte>)
    requires i < |t| && DistinctNames(t) && DistinctNames(t[i := e])
    ensures Find(t[i := e], name) ==
            if Used(e) && e.name == name then Some(i)
            else if Used(t[i]) && t[i].name == name then None
            else Find(t, name)
  {
    var t' := t[i := e];
    var k, k' := Find(t, name), Find(t', name);
    assert Used(e) && e.name == name ==> Used(t'[i]) && t'[i].name == name;
    if k.Some? && k.value != i {
      assert t'[k.value] == t[k.value];
    }
    if k'.Some? && k'.value != i {
      assert t[k'.value] == t'[k'.value];
    }
  }

  lemma NameStep(t: seq<Entry>, d: seq<Sector>, i: nat, e: Entry, d': seq<Sector>, n: seq<byte>)
    requires i < |t| && DistinctNames(t) && DistinctNames(t[i := e])
    requires forall j :: 0 <= j < |t| && j != i && Used(t[j]) ==> NodeOf(d', t[j]) == NodeOf(d, t[j])
    ensures Used(e) && n == e.name ==> n in Files(t[i := e], d') && Files(t[i := e], d')[n] == NodeOf(d', e)
    ensures !(Used(e) && n == e.name) && Used(t[i]) && n == t[i].name ==> n !in Files(t[i := e], d')
    ensures !(Used(e) && n == e.name) && !(Used(t[i]) && n == t[i].name) ==>
              (n in Files(t[i := e], d') <==> n in Files(t, d)) &&
              (n in Files(t, d) ==> Files(t[i := e], d')[n] == Files(t, d)[n])
  {
    FindStep(t, i, e, n);
    FilesFind(t, d, n);
    FilesFind(t[i := e], d', n);
    if Used(t[i]) { FindUsed(t, i); }
  }

  /** The map after slot `i` is rewritten and the disk changed only where slot `i` may see it. */
  lemma FilesStep(t: seq<Entry>, d: seq<Sector>, i: nat, e: Entry, d': seq<Sector>)
    requires i < |t| && DistinctNames(t) && DistinctNames(t[i := e])
    requires forall j :: 0 <= j < |t| && j != i && Used(t[j]) ==> NodeOf(d', t[j]) == NodeOf(d, t[j])
    ensures Files(t[i := e], d') ==
            (if Used(t[i]) then Files(t, d) - {t[i].name} else Files(t, d))
            + (if Used(e) then map[e.name := NodeOf(d', e)] else map[])
  {
    var m, m' := Files(t, d), Files(t[i := e], d');
    var r := (if Used(t[i]) then m - {t[i].name} else m) + (if Used(e) then map[e.name := NodeOf(d', e)] else map[]);
    forall n ensures n in m' <==> n in r
             ensures n in m' ==> m'[n] == r[n]
    {
      NameStep(t, d, i, e, d', n);
    }
  }

  lemma MapPut(m: FileMap, name: seq<byte>, node: Node)
    ensures (m - {name}) + map[name := node] == m[name := node]
    ensures m + map[name := node] == m[name := node]
  {
  }

  // ---- The same steps on the map ----

  predicate MapHasDir(m: FileMap, name: seq<byte>) {
    name in m && m[name].dir
  }

  predicate MapParentOk(m: FileMap, name: seq<byte>) {
    var slash := LastSlash(name);
    slash.None? || (slash.value > 0 && slash.value + 1 < |name| && MapHasDir(m, name[..slash.value]))
  }

  predicate MapEmptyDir(m: FileMap, dir: seq<byte>) {
    forall n | n in m :: !Below(n, dir)
  }

  lemma MapLookups(t: seq<Entry>, d: seq<Sector>, name: seq<byte>)
    requires DistinctNames(t)
    ensures MapParentOk(Files(t, d), name) <==> ParentOk(t, name)
    ensures MapEmptyDir(Files(t, d), name) <==> EmptyDir(t, name)
  {
    var slash := LastSlash(name);
    if slash.Some? {
      FilesFind(t, d, name[..slash.value]);
    }
    forall n | EmptyDir(t, name) && n in Files(t, d) ensures !Below(n, name) {
      FilesFind(t, d, n);
    }
    if MapEmptyDir(Files(t, d), name) {
      forall i | 0 <= i < |t| && Used(t[i]) ensures !Below(t[i].name, name) {
        FilesFind(t, d, t[i].name);
      }
    }
  }

  lemma SizeAfterPut(m: FileMap, name: seq<byte>, node: Node)
    requires name !in m
    ensures |m[name := node]| == |m| + 1
  {
    assert m[name := node].Keys == m.Keys + {name};
  }

  lemma {:induction false} CountNames(t: seq<Entry>, d: seq<Sector>, n: nat)
    requires DistinctNames(t) && n <= |t|
    ensures |FilesUpTo(t, d, n)| <= n
    ensures |FilesUpTo(t, d, n)| == n <==> forall i :: 0 <= i < n ==> Used(t[i])
  {
    if n > 0 {
      hide NodeOf, DistinctNames;
      CountNames(t, d, n - 1);
      if Used(t[n - 1]) {
        UpToFind(t, d, n - 1, t[n - 1].name);
        FindUsed(t, n - 1);
        SizeAfterPut(FilesUpTo(t, d, n - 1), t[n - 1].name, NodeOf(d, t[n - 1]));
      }
    }
  }

  /** The table is full exactly when the map has 256 names. */
  lemma FullTable(t: seq<Entry>, d: seq<Sector>)
    requires DistinctNames(t) && |t| == ENTRY_COUNT
    ensures FreeFrom(t, 0).None? <==> |Files(t, d)| == ENTRY_COUNT
  {
    CountNames(t, d, |t|);
  }

  datatype MapOutcome = MapOutcome(files: FileMap, error: nat)

  function MapMkdir(m: FileMap, name: seq<byte>, now: nat): MapOutcome {
    if !MapParentOk(m, name) then MapOutcome(m, ERR_NOENT)
    else if name in m then MapOutcome(m, ERR_EXIST)
    else if |m| == ENTRY_COUNT then MapOutcome(m, ERR_NOSPC)
    else MapOutcome(m[name := Node(true, [], now, MODE_DEFAULT_DIR)], ERR_OK)
  }

  function MapCreate(m: FileMap, name: seq<byte>, now: nat): MapOutcome {
    if !MapParentOk(m, name) then MapOutcome(m, ERR_NOENT)
    else if name in m then MapOutcome(m, ERR_OK)
    else if |m| == ENTRY_COUNT then MapOutcome(m, ERR_NOSPC)
    else MapOutcome(m[name := Node(false, [], now, MODE_DEFAULT_FILE)], ERR_OK)
  }

  function MapUnlink(m: FileMap, name: seq<byte>): MapOutcome {
    if name !in m then MapOutcome(m, ERR_NOENT)
    else if m[name].dir && !MapEmptyDir(m, name) then MapOutcome(m, ERR_INVAL)
    else MapOutcome(m - {name}, ERR_OK)
  }

  function MapRename(m: FileMap, old_: seq<byte>, new_: seq<byte>): MapOutcome {
    if !ValidPath(old_) || !ValidPath(new_) then MapOutcome(m, ERR_INVAL)
    else if old_ !in m then MapOutcome(m, ERR_NOENT)
    else if new_ in m then MapOutcome(m, ERR_EXIST)
    else if !MapParentOk(m, new_) then MapOutcome(m, ERR_NOENT)
    else if m[old_].dir && !MapEmptyDir(m, old_) then MapOutcome(m, ERR_INVAL)
    else MapOutcome((m - {old_})[new_ := m[old_]], ERR_OK)
  }

  function MapStep(m: FileMap, op: NsOp): MapOutcome {
    match op
    case MkdirOp(name, now) => MapMkdir(m, name, now)
    case CreateOp(name, now) => MapCreate(m, name, now)
    case UnlinkOp(name) => MapUnlink(m, name)
    case RenameOp(name, newName, now) => MapRename(m, name, newName)
  }

  /** Names of the operation are resolved and its clock value fits in 64 bits. */
  predicate Timely(op: NsOp) {
    ValidPath(op.name) && (!op.UnlinkOp? ==> op.now < 0x1_0000_0000_0000_0000)
  }

  lemma StepKeepsWellFormed(t: seq<Entry>, op: NsOp)
    requires WellFormed(t) && Timely(op)
    ensures WellFormed(NsStep(t, op).table)
  {
    WellFormedMeans(t);
    if NsStep(t, op).table != t {
      match op
      case MkdirOp(name, now) =>
        RelabelKeepsWellFormed(t, FreeFrom(t, 0).value, NewEntry(KIND_DIR, name, now, MODE_DEFAULT_DIR));
      case CreateOp(name, now) =>
        RelabelKeepsWellFormed(t, FreeFrom(t, 0).value, NewEntry(KIND_FILE, name, now, MODE_DEFAULT_FILE));
      case UnlinkOp(name) =>
        RelabelKeepsWellFormed(t, Find(t, name).value, FREE_ENTRY);
      case RenameOp(name, newName, now) =>
        var i := Find(t, name).value;
        RelabelKeepsWellFormed(t, i, t[i].(name := newName, modified := now));
    }
  }

  lemma FilesAdd(t: seq<Entry>, d: seq<Sector>, i: nat, e: Entry)
    requires i < |t| && DistinctNames(t) && DistinctNames(t[i := e]) && !Used(t[i]) && Used(e)
    ensures Files(t[i := e], d) == Files(t, d)[e.name := NodeOf(d, e)]
  {
    FilesStep(t, d, i, e, d);
  }

  lemma FilesRemove(t: seq<Entry>, d: seq<Sector>, i: nat)
    requires i < |t| && DistinctNames(t) && DistinctNames(t[i := FREE_ENTRY]) && Used(t[i])
    ensures Files(t[i := FREE_ENTRY], d) == Files(t, d) - {t[i].name}
  {
    FilesStep(t, d, i, FREE_ENTRY, d);
  }

  lemma FilesMove(t: seq<Entry>, d: seq<Sector>, i: nat, e: Entry)
    requires i < |t| && DistinctNames(t) && DistinctNames(t[i := e]) && Used(t[i]) && Used(e)
    ensures Files(t[i := e], d) == (Files(t, d) - {t[i].name})[e.name := NodeOf(d, e)]
  {
    FilesStep(t, d, i, e, d);
  }

  lemma CreationRefines(t: seq<Entry>, d: seq<Sector>, op: NsOp)
    requires DistinctNames(t) && |t| == ENTRY_COUNT && (op.MkdirOp? || op.CreateOp?)
    requires DistinctNames(NsStep(t, op).table)
    ensures MapStep(Files(t, d), op) == MapOutcome(Files(NsStep(t, op).table, d), NsStep(t, op).error)
  {
    FilesFind(t, d, op.name);
    MapLookups(t, d, op.name);
    FullTable(t, d);
    if ParentOk(t, op.name) && Find(t, op.name).None? && FreeFrom(t, 0).Some? {
      var e := if op.MkdirOp? then NewEntry(KIND_DIR, op.name, op.now, MODE_DEFAULT_DIR)
               else NewEntry(KIND_FILE, op.name, op.now, MODE_DEFAULT_FILE);
      FilesAdd(t, d, FreeFrom(t, 0).value, e);
    }
  }

  lemma UnlinkRefines(t: seq<Entry>, d: seq<Sector>, name: seq<byte>)
    requires DistinctNames(t) && DistinctNames(Unlink(t, name).table)
    ensures MapUnlink(Files(t, d), name) == MapOutcome(Files(Unlink(t, name).table, d), Unlink(t, name).error)
  {
    FilesFind(t, d, name);
    MapLookups(t, d, name);
    if Unlink(t, name).error == ERR_OK {
      FilesRemove(t, d, Find(t, name).value);
    }
  }

  lemma RenameRefines(t: seq<Entry>, d: seq<Sector>, name: seq<byte>, newName: seq<byte>, now: nat)
    requires DistinctNames(t) && DistinctNames(Rename(t, name, newName, now).table)
    ensures MapRename(Files(t, d), name, newName) ==
            MapOutcome(Files(Rename(t, name, newName, now).table, d), Rename(t, name, newName, now).error)
  {
    FilesFind(t, d, name);
    MapLookups(t, d, name);
    FilesFind(t, d, newName);
    MapLookups(t, d, newName);
    if Rename(t, name, newName, now).error == ERR_OK {
      var i := Find(t, name).value;
      FilesMove(t, d, i, t[i].(name := newName, modified := now));
    }
  }

  /** Refinement: every namespace step on the table is the same step on the map, with the same error,
      and no file but the named one changes. */
  lemma StepRefinesMap(t: seq<Entry>, d: seq<Sector>, op: NsOp)
    requires WellFormed(t) && Timely(op)
    ensures WellFormed(NsStep(t, op).table)
    ensures MapStep(Files(t, d), op) == MapOutcome(Files(NsStep(t, op).table, d), NsStep(t, op).error)
  {
    WellFormedMeans(t);
    WellFormedMeans(NsStep(t, op).table);
    StepKeepsWellFormed(t, op);
    if op.MkdirOp? || op.CreateOp? {
      CreationRefines(t, d, op);
    } else if op.UnlinkOp? {
      UnlinkRefines(t, d, op.name);
    } else {
      RenameRefines(t, d, op.name, op.newName, op.now);
    }
  }
}
