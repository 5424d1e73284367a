/** The entry table as a value: what a well-formed one is, the lookups over it, and the namespace steps. */
module PfsTable {
  import opened Common
  import opened PfsFormat
  import opened PfsAlloc

  const SLASH: byte := 47
  const MODE_DEFAULT_FILE: byte := 3
  const MODE_DEFAULT_DIR: byte := 7

  predicate Used(e: Entry) {
    e.kind != KIND_FREE
  }

  predicate IsDir(e: Entry) {
    e.kind == KIND_DIR
  }

  predicate NameByte(b: byte) {
    48 <= b <= 57 || 65 <= b <= 90 || 97 <= b <= 122 || b == 46 || b == 95 || b == 45
  }

  /** valid_pfs_path accepts exactly these names. */
  predicate ValidPath(name: seq<byte>) {
    && 0 < |name| <= NAME_MAX
    && (forall k :: 0 <= k < |name| ==> name[k] == SLASH || NameByte(name[k]))
    && (forall j, k :: 0 <= j < |name| && 0 <= k < |name| && k == j + 1 ==> !(name[j] == SLASH && name[k] == SLASH))
    && name[|name| - 1] != SLASH
  }

  method CheckPath(name: seq<byte>) returns (ok: bool)
    ensures ok <==> ValidPath(name)
  {
    if |name| == 0 || |name| > NAME_MAX {
      return false;
    }
    var lastWasSlash := false;
    for k := 0 to |name|
      invariant forall j :: 0 <= j < k ==> name[j] == SLASH || NameByte(name[j])
      invariant forall i, j :: 0 <= i < j < k && j == i + 1 ==> !(name[i] == SLASH && name[j] == SLASH)
      invariant lastWasSlash <==> k > 0 && name[k - 1] == SLASH
    {
      if name[k] == SLASH {
        if lastWasSlash {
          return false;
        }
        lastWasSlash := true;
        continue;
      }
      lastWasSlash := false;
      if !NameByte(name[k]) {
        return false;
      }
    }
    return !lastWasSlash;
  }

  // ---- Lookups ----

  function FindFrom(t: seq<Entry>, name: seq<byte>, i: nat): (r: Option<nat>)
    requires i <= |t|
    ensures r.Some? ==> i <= r.value < |t| && Used(t[r.value]) && t[r.value].name == name
    ensures r.Some? ==> forall k :: i <= k < r.value ==> !(Used(t[k]) && t[k].name == name)
    ensures r.None? ==> forall k :: i <= k < |t| ==> !(Used(t[k]) && t[k].name == name)
    decreases |t| - i
  {
    if i == |t| then None
    else if Used(t[i]) && t[i].name == name then Some(i)
    else FindFrom(t, name, i + 1)
  }

  function Find(t: seq<Entry>, name: seq<byte>): Option<nat> {
    FindFrom(t, name, 0)
  }

  method FindEntry(t: seq<Entry>, name: seq<byte>) returns (r: Option<nat>)
    ensures r == Find(t, name)
  {
    for index := 0 to |t|
      invariant FindFrom(t, name, 0) == FindFrom(t, name, index)
    {
      if Used(t[index]) && t[index].name == name {
        return Some(index);
      }
    }
    return None;
  }

  function FreeFrom(t: seq<Entry>, i: nat): (r: Option<nat>)
    requires i <= |t|
    ensures r.Some? ==> i <= r.value < |t| && !Used(t[r.value]) && forall k :: i <= k < r.value ==> Used(t[k])
    ensures r.None? ==> forall k :: i <= k < |t| ==> Used(t[k])
    decreases |t| - i
  {
    if i == |t| then None else if !Used(t[i]) then Some(i) else FreeFrom(t, i + 1)
  }

  method FreeEntry(t: seq<Entry>) returns (r: Option<nat>)
    ensures r == FreeFrom(t, 0)
  {
    for index := 0 to |t|
      invariant FreeFrom(t, 0) == FreeFrom(t, index)
    {
      if !Used(t[index]) {
        return Some(index);
      }
    }
    return None;
  }

  /** Position of the last slash. */
  function LastSlash(name: seq<byte>): (r: Option<nat>)
    ensures r.Some? ==>
      r.value < |name| && name[r.value] == SLASH && forall k :: r.value < k < |name| ==> name[k] != SLASH
    ensures r.None? ==> forall k :: 0 <= k < |name| ==> name[k] != SLASH
  {
    if name == [] then None
    else if name[|name| - 1] == SLASH then Some(|name| - 1)
    else LastSlash(name[..|name| - 1])
  }

  method FindLastSlash(name: seq<byte>) returns (r: Option<nat>)
    ensures r == LastSlash(name)
  {
    var index := |name|;
    while index > 0
      invariant 0 <= index <= |name|
      invariant LastSlash(name) == LastSlash(name[..index])
    {
      assert name[..index][..index - 1] == name[..index - 1];
      index := index - 1;
      if name[index] == SLASH {
        return Some(index);
      }
    }
    return None;
  }

  /** The directory a name lies in; None for a name at the top. */
  function Parent(name: seq<byte>): Option<seq<byte>> {
    var slash := LastSlash(name);
    if slash.None? then None else Some(name[..slash.value])
  }

  predicate HasDir(t: seq<Entry>, name: seq<byte>) {
    var index := Find(t, name);
    index.Some? && IsDir(t[index.value])
  }

  /** pfs_parent_exists. */
  predicate ParentOk(t: seq<Entry>, name: seq<byte>) {
    var slash := LastSlash(name);
    slash.None? || (slash.value > 0 && slash.value + 1 < |name| && HasDir(t, name[..slash.value]))
  }

  method ParentExists(t: seq<Entry>, name: seq<byte>) returns (ok: bool)
    ensures ok <==> ParentOk(t, name)
  {
    var slash := FindLastSlash(name);
    if slash.None? {
      return true;
    }
    if slash.value == 0 || slash.value + 1 >= |name| {
      return false;
    }
    var index := FindEntry(t, name[..slash.value]);
    if index.None? {
      return false;
    }
    return IsDir(t[index.value]);
  }

  /** `name` lies strictly below directory `dir`. */
  predicate Below(name: seq<byte>, dir: seq<byte>) {
    |name| > |dir| && name[..|dir|] == dir && name[|dir|] == SLASH
  }

  predicate EmptyDir(t: seq<Entry>, dir: seq<byte>) {
    forall i :: 0 <= i < |t| && Used(t[i]) ==> !Below(t[i].name, dir)
  }

  method DirEmpty(t: seq<Entry>, dir: seq<byte>) returns (empty: bool)
    ensures empty <==> EmptyDir(t, dir)
  {
    for index := 0 to |t|
      invariant forall i :: 0 <= i < index && Used(t[i]) ==> !Below(t[i].name, dir)
    {
      if !Used(t[index]) {
        continue;
      }
      if Below(t[index].name, dir) {
        return false;
      }
    }
    return true;
  }

  // ---- Well-formed tables ----

  /** All sectors of the file lie in the data area. */
  ghost predicate InDataArea(extents: seq<Extent>) {
    forall s :: 0 <= s < |extents| ==> DATA_START <= extents[s].start && End(extents[s]) <= DISK_SECTORS
  }

  ghost predicate WellFormedEntry(e: Entry) {
    && Encodable(e)
    && (e.kind == KIND_FREE || e.kind == KIND_FILE || e.kind == KIND_DIR)
    && (Used(e) ==> ValidPath(e.name))
    && (IsDir(e) ==> e.extents == [] && e.size == 0)
    && (IsFile(e) ==>
          && Canonical(e.extents)
          && InDataArea(e.extents)
          && e.size <= SECTOR_SIZE * |Lbas(e.extents)|
          && e.size <= FILE_MAX)
  }

  ghost predicate DistinctNames(t: seq<Entry>) {
    forall i, j :: 0 <= i < j < |t| && Used(t[i]) && Used(t[j]) ==> t[i].name != t[j].name
  }

  /** No sector belongs to two files. */
  ghost predicate DisjointFiles(t: seq<Entry>) {
    forall i: nat, s: nat, lba: nat :: i < |t| && s < |t[i].extents| && Owns(t[i], s, lba) ==>
      !Covered(t, Some(i), lba)
  }

  /** Slot `i` is sound: its entry is, no other entry has its name, no other file has a sector of it. */
  ghost predicate SlotOk(t: seq<Entry>, i: nat)
    requires i < |t|
  {
    && WellFormedEntry(t[i])
    && (forall j :: 0 <= j < |t| && j != i && Used(t[i]) && Used(t[j]) ==> t[j].name != t[i].name)
    && (forall s: nat, lba: nat :: s < |t[i].extents| && Owns(t[i], s, lba) ==> !Covered(t, Some(i), lba))
  }

  ghost predicate SlotsOk(t: seq<Entry>, n: nat)
    requires n <= |t|
  {
    n == 0 || (SlotsOk(t, n - 1) && SlotOk(t, n - 1))
  }

  /** Structural disk invariant: all 256 slots are sound. */
  ghost predicate WellFormed(t: seq<Entry>) {
    |t| == ENTRY_COUNT && SlotsOk(t, |t|)
  }

  lemma {:induction false} SlotAt(t: seq<Entry>, n: nat, i: nat)
    requires i < n <= |t| && SlotsOk(t, n)
    ensures SlotOk(t, i)
  {
    if i < n - 1 {
      SlotAt(t, n - 1, i);
    }
  }

  lemma {:induction false} SlotsUpTo(t: seq<Entry>, n: nat)
    requires n <= |t| && forall i :: 0 <= i < n ==> SlotOk(t, i)
    ensures SlotsOk(t, n)
  {
    if n > 0 {
      SlotsUpTo(t, n - 1);
    }
  }

  ghost predicate AllEntriesOk(t: seq<Entry>) {
    forall i :: 0 <= i < |t| ==> WellFormedEntry(t[i])
  }

  /** The invariant slot by slot is the invariant table-wide. */
  lemma WellFormedMeans(t: seq<Entry>)
    ensures WellFormed(t) <==> |t| == ENTRY_COUNT && AllEntriesOk(t) && DistinctNames(t) && DisjointFiles(t)
  {
    if WellFormed(t) {
      forall i | 0 <= i < |t| ensures WellFormedEntry(t[i]) {
        SlotAt(t, |t|, i);
      }
      forall i, j | 0 <= i < j < |t| && Used(t[i]) && Used(t[j]) ensures t[i].name != t[j].name {
        SlotAt(t, |t|, i);
      }
      forall i: nat, s: nat, lba: nat | i < |t| && s < |t[i].extents| && Owns(t[i], s, lba)
        ensures !Covered(t, Some(i), lba)
      {
        SlotAt(t, |t|, i);
      }
    } else if |t| == ENTRY_COUNT && AllEntriesOk(t) && DistinctNames(t) && DisjointFiles(t) {
      forall i | 0 <= i < |t| ensures SlotOk(t, i) {
      }
      SlotsUpTo(t, |t|);
    }
  }

  lemma EntryOk(t: seq<Entry>, i: nat)
    requires WellFormed(t) && i < |t|
    ensures WellFormedEntry(t[i])
  {
    SlotAt(t, |t|, i);
  }

  lemma NamesOk(t: seq<Entry>)
    requires WellFormed(t)
    ensures DistinctNames(t)
  {
    WellFormedMeans(t);
  }

  lemma FindUsed(t: seq<Entry>, i: nat)
    requires DistinctNames(t) && i < |t| && Used(t[i])
    ensures Find(t, t[i].name) == Some(i)
  {
  }

  /** The extent view and the sector-list view of ownership agree. */
  lemma {:induction false} LbasMembers(extents: seq<Extent>, lba: nat)
    ensures lba in Lbas(extents) <==> exists s :: 0 <= s < |extents| && extents[s].start <= lba < End(extents[s])
  {
    if extents == [] {
    } else {
      var k := |extents| - 1;
      var front, last := extents[..k], extents[k];
      LbasMembers(front, lba);
      var r := Range(last.start, last.sectors);
      assert lba in r <==> last.start <= lba < End(last) by {
        if last.start <= lba < End(last) { assert r[lba - last.start] == lba; }
      }
      assert Lbas(extents) == Lbas(front) + r;
      if s :| 0 <= s < |extents| && extents[s].start <= lba < End(extents[s]) {
        assert s == k || front[s].start <= lba < End(front[s]);
      }
      if s :| 0 <= s < |front| && front[s].start <= lba < End(front[s]) {
        assert extents[s].start <= lba < End(extents[s]);
      }
    }
  }

  /** Different files have no sector in common. */
  lemma FilesShareNoSector(t: seq<Entry>, i: nat, j: nat, lba: nat)
    requires DisjointFiles(t) && i < |t| && j < |t| && i != j && IsFile(t[i]) && IsFile(t[j])
    requires lba in Lbas(t[i].extents)
    ensures lba !in Lbas(t[j].extents)
  {
    LbasMembers(t[i].extents, lba);
    LbasMembers(t[j].extents, lba);
    var s :| 0 <= s < |t[i].extents| && t[i].extents[s].start <= lba < End(t[i].extents[s]);
    assert Owns(t[i], s, lba);
    if r :| 0 <= r < |t[j].extents| && t[j].extents[r].start <= lba < End(t[j].extents[r]) {
      assert Owns(t[j], r, lba);
      assert Covered(t, Some(i), lba);
    }
  }

  lemma SectorsInDataArea(e: Entry, k: nat)
    requires WellFormedEntry(e) && IsFile(e) && k < |Lbas(e.extents)|
    ensures DATA_START <= Lbas(e.extents)[k] < DISK_SECTORS
  {
    var lba := Lbas(e.extents)[k];
    LbasMembers(e.extents, lba);
    assert lba in Lbas(e.extents);
  }

  lemma WellFormedEndsFit(t: seq<Entry>)
    requires WellFormed(t)
    ensures EndsFit(t) && NamesFit(t)
  {
    WellFormedMeans(t);
    forall i, s | 0 <= i < |t| && 0 <= s < |t[i].extents| && IsFile(t[i])
      ensures End(t[i].extents[s]) < 0x1_0000_0000
    {
      assert WellFormedEntry(t[i]);
    }
  }
}
