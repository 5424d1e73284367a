/** Namespace steps on the entry table, and the directory tree they keep. */
module PfsNamespace {
  import opened Common
  import opened PfsFormat
  import opened PfsAlloc
  import opened PfsTable

  const ERR_OK := 0
  const ERR_NOENT := 2
  const ERR_IO := 5
  const ERR_EXIST := 17
  const ERR_ISDIR := 21
  const ERR_INVAL := 22
  const ERR_NOSPC := 28

  function NewEntry(kind: byte, name: seq<byte>, now: nat, mode: byte): Entry {
    Entry(kind, name, 0, [], now, now, mode)
  }

  /** A step's new table and the error it reports. */
  datatype Outcome = Outcome(table: seq<Entry>, error: nat)

  /** abi_mkdir after its path is resolved. */
  function Mkdir(t: seq<Entry>, name: seq<byte>, now: nat): Outcome {
    if !ParentOk(t, name) then Outcome(t, ERR_NOENT)
    else if Find(t, name).Some? then Outcome(t, ERR_EXIST)
    else
      var slot := FreeFrom(t, 0);
      if slot.None? then Outcome(t, ERR_NOSPC)
      else Outcome(t[slot.value := NewEntry(KIND_DIR, name, now, MODE_DEFAULT_DIR)], ERR_OK)
  }

  /** The create branch of abi_open_pfs. */
  function Create(t: seq<Entry>, name: seq<byte>, now: nat): Outcome {
    if !ParentOk(t, name) then Outcome(t, ERR_NOENT)
    else if Find(t, name).Some? then Outcome(t, ERR_OK)
    else
      var slot := FreeFrom(t, 0);
      if slot.None? then Outcome(t, ERR_NOSPC)
      else Outcome(t[slot.value := NewEntry(KIND_FILE, name, now, MODE_DEFAULT_FILE)], ERR_OK)
  }

  /** pfs_unlink_header with abi_unlink's error codes. */
  function Unlink(t: seq<Entry>, name: seq<byte>): Outcome {
    var index := Find(t, name);
    if index.None? then Outcome(t, ERR_NOENT)
    else if IsDir(t[index.value]) && !EmptyDir(t, name) then Outcome(t, ERR_INVAL)
    else Outcome(t[index.value := FREE_ENTRY], ERR_OK)
  }

  /** pfs_rename_header with abi_rename's error codes. */
  function Rename(t: seq<Entry>, old_: seq<byte>, new_: seq<byte>, now: nat): Outcome {
    if !ValidPath(old_) || !ValidPath(new_) then Outcome(t, ERR_INVAL)
    else
      var index := Find(t, old_);
      if index.None? then Outcome(t, ERR_NOENT)
      else if Find(t, new_).Some? then Outcome(t, ERR_EXIST)
      else if !ParentOk(t, new_) then Outcome(t, ERR_NOENT)
      else if IsDir(t[index.value]) && !EmptyDir(t, old_) then Outcome(t, ERR_INVAL)
      else Outcome(t[index.value := t[index.value].(name := new_, modified := now)], ERR_OK)
  }

  // ---- Structural invariant ----

  /** Any well-formed entry may replace a slot if its name and its sectors are nobody else's. */
  lemma ReplaceKeepsWellFormed(t: seq<Entry>, i: nat, e: Entry)
    requires WellFormed(t) && i < |t| && WellFormedEntry(e)
    requires Used(e) ==> forall j :: 0 <= j < |t| && j != i && Used(t[j]) ==> t[j].name != e.name
    requires forall s: nat, lba: nat :: s < |e.extents| && Owns(e, s, lba) ==> !Covered(t, Some(i), lba)
    ensures WellFormed(t[i := e])
  {
    WellFormedMeans(t);
    WellFormedMeans(t[i := e]);
    var t' := t[i := e];
    forall j: nat, s: nat, lba: nat | j < |t'| && s < |t'[j].extents| && Owns(t'[j], s, lba)
      ensures !Covered(t', Some(j), lba)
    {
      if j != i {
        assert Owns(t[j], s, lba);
        assert Covered(t, Some(i), lba);
      }
    }
  }

  /** Same sectors or fewer, same name or a fresh one. */
  lemma RelabelKeepsWellFormed(t: seq<Entry>, i: nat, e: Entry)
    requires WellFormed(t) && i < |t| && WellFormedEntry(e)
    requires Used(e) ==> (Used(t[i]) && e.name == t[i].name) || Find(t, e.name).None?
    requires e.extents == [] || (e.kind == t[i].kind && e.extents == t[i].extents)
    ensures WellFormed(t[i := e])
  {
    WellFormedMeans(t);
    forall s: nat, lba: nat | s < |e.extents| && Owns(e, s, lba)
      ensures !Covered(t, Some(i), lba)
    {
      assert Owns(t[i], s, lba);
    }
    ReplaceKeepsWellFormed(t, i, e);
  }

  // ---- Directory tree ----

  /** Every used name sits at the top or in a directory that is present. */
  predicate TreeInv(t: seq<Entry>) {
    forall i :: 0 <= i < |t| && Used(t[i]) ==> ParentOk(t, t[i].name)
  }

  /** In a well-formed table a directory is present iff some slot holds it. */
  lemma HasDirAt(t: seq<Entry>, i: nat)
    requires DistinctNames(t) && i < |t| && IsDir(t[i])
    ensures HasDir(t, t[i].name)
  {
    FindUsed(t, i);
  }

  /** A parent survives a step that leaves its slot alone. */
  lemma ParentKept(t: seq<Entry>, i: nat, e: Entry, name: seq<byte>)
    requires i < |t| && DistinctNames(t) && DistinctNames(t[i := e]) && ParentOk(t, name)
    requires Used(t[i]) && IsDir(t[i]) ==> Parent(name) != Some(t[i].name)
    ensures ParentOk(t[i := e], name)
  {
    var slash := LastSlash(name);
    if slash.Some? {
      var k := Find(t, name[..slash.value]).value;
      assert k != i;
      HasDirAt(t[i := e], k);
    }
  }

  lemma AddKeepsTree(t: seq<Entry>, i: nat, e: Entry)
    requires i < |t| && WellFormed(t) && WellFormed(t[i := e]) && TreeInv(t)
    requires !Used(t[i]) && ParentOk(t, e.name)
    ensures TreeInv(t[i := e])
  {
    WellFormedMeans(t);
    WellFormedMeans(t[i := e]);
    var t' := t[i := e];
    forall j | 0 <= j < |t'| && Used(t'[j]) ensures ParentOk(t', t'[j].name) {
      ParentKept(t, i, e, t'[j].name);
    }
  }

  lemma ParentIsAbove(name: seq<byte>)
    requires ValidPath(name) && Parent(name).Some?
    ensures Below(name, Parent(name).value)
  {
  }

  lemma RemoveKeepsTree(t: seq<Entry>, i: nat, e: Entry)
    requires i < |t| && WellFormed(t) && WellFormed(t[i := e]) && TreeInv(t) && Used(t[i])
    requires IsDir(t[i]) ==> EmptyDir(t, t[i].name)
    requires Used(e) ==> ParentOk(t, e.name) && Parent(e.name) != Some(t[i].name)
    ensures TreeInv(t[i := e])
  {
    WellFormedMeans(t);
    WellFormedMeans(t[i := e]);
    var t' := t[i := e];
    forall j | 0 <= j < |t'| && Used(t'[j]) ensures ParentOk(t', t'[j].name) {
      if IsDir(t[i]) && j != i && Parent(t[j].name) == Some(t[i].name) {
        ParentIsAbove(t[j].name);
      }
      ParentKept(t, i, e, t'[j].name);
    }
  }

  /** The exact condition under which a successful rename keeps the tree: the new name is not put
      directly into the directory being renamed. */
  lemma RenameKeepsTreeIff(t: seq<Entry>, old_: seq<byte>, new_: seq<byte>, now: nat)
    requires WellFormed(t) && TreeInv(t) && now < 0x1_0000_0000_0000_0000
    requires Rename(t, old_, new_, now).error == ERR_OK
    ensures WellFormed(Rename(t, old_, new_, now).table)
    ensures TreeInv(Rename(t, old_, new_, now).table) <==> Parent(new_) != Some(old_)
  {
    WellFormedMeans(t);
    var i := Find(t, old_).value;
    var e := t[i].(name := new_, modified := now);
    RelabelKeepsWellFormed(t, i, e);
    if Parent(new_) != Some(old_) {
      RemoveKeepsTree(t, i, e);
    } else {
      var t' := t[i := e];
      assert Used(t'[i]) && t'[i].name == new_;
      assert Find(t', old_).None?;
      assert !HasDir(t', new_[..LastSlash(new_).value]);
    }
  }

  /** Renaming an empty directory `a` to `a/b` is accepted and leaves `a/b` without a parent. */
  lemma RenameIntoItselfBreaksTree(t: seq<Entry>)
    requires t == seq(ENTRY_COUNT, i requires i >= 0 => FREE_ENTRY)[0 := NewEntry(KIND_DIR, [97], 0, MODE_DEFAULT_DIR)]
    ensures WellFormed(t) && TreeInv(t)
    ensures Rename(t, [97], [97, SLASH, 98], 0).error == ERR_OK
    ensures !TreeInv(Rename(t, [97], [97, SLASH, 98], 0).table)
  {
    WellFormedMeans(t);
    var a: seq<byte>, ab: seq<byte> := [97], [97, SLASH, 98];
    assert t[0].name == a && forall i :: 0 < i < |t| ==> t[i] == FREE_ENTRY;
    assert LastSlash(a).None?;
    assert ab[..2] == [97, SLASH] && ab[..1] == a;
    assert LastSlash(ab) == Some(1);
    FindUsed(t, 0);
    RenameKeepsTreeIff(t, a, ab, 0);
  }

  datatype NsOp =
    | MkdirOp(name: seq<byte>, now: nat)
    | CreateOp(name: seq<byte>, now: nat)
    | UnlinkOp(name: seq<byte>)
    | RenameOp(name: seq<byte>, newName: seq<byte>, now: nat)

  function NsStep(t: seq<Entry>, op: NsOp): Outcome {
    match op
    case MkdirOp(name, now) => Mkdir(t, name, now)
    case CreateOp(name, now) => Create(t, name, now)
    case UnlinkOp(name) => Unlink(t, name)
    case RenameOp(name, newName, now) => Rename(t, name, newName, now)
  }

  // ---- When a step succeeds ----

  /** Some used entry has the name, and some used entry is a directory with it. */
  predicate Taken(t: seq<Entry>, name: seq<byte>) {
    exists i :: 0 <= i < |t| && Used(t[i]) && t[i].name == name
  }

  predicate IsThereDir(t: seq<Entry>, name: seq<byte>) {
    exists i :: 0 <= i < |t| && IsDir(t[i]) && t[i].name == name
  }

  /** The name has no slash, or what stands before its last slash is a directory there is. */
  predicate Hangs(t: seq<Entry>, name: seq<byte>) {
    || SLASH !in name
    || exists k :: 0 < k < |name| - 1 && name[k] == SLASH && SLASH !in name[k + 1..] && IsThereDir(t, name[..k])
  }

  predicate HasUnused(t: seq<Entry>) {
    exists i :: 0 <= i < |t| && !Used(t[i])
  }

  predicate HasInside(t: seq<Entry>, dir: seq<byte>) {
    exists i :: 0 <= i < |t| && Used(t[i]) && dir + [SLASH] <= t[i].name
  }

  lemma Lookups(t: seq<Entry>, name: seq<byte>)
    requires DistinctNames(t)
    ensures Find(t, name).Some? <==> Taken(t, name)
    ensures FreeFrom(t, 0).Some? <==> HasUnused(t)
    ensures EmptyDir(t, name) <==> !HasInside(t, name)
    ensures HasDir(t, name) <==> IsThereDir(t, name)
  {
    if IsThereDir(t, name) {
      var i :| 0 <= i < |t| && IsDir(t[i]) && t[i].name == name;
      FindUsed(t, i);
    }
    forall i | 0 <= i < |t| && Used(t[i]) ensures Below(t[i].name, name) <==> name + [SLASH] <= t[i].name {
      var n := t[i].name;
      if Below(n, name) {
        assert n[..|name| + 1] == name + [SLASH];
      }
      if name + [SLASH] <= n {
        assert n[|name|] == (name + [SLASH])[|name|] && n[..|name|] == (name + [SLASH])[..|name|];
      }
    }
  }

  lemma HangsIff(t: seq<Entry>, name: seq<byte>)
    requires DistinctNames(t)
    ensures ParentOk(t, name) <==> Hangs(t, name)
  {
    hide HasDir, IsThereDir;
    var slash := LastSlash(name);
    if slash.Some? {
      Lookups(t, name[..slash.value]);
      assert SLASH in name;
      forall k | 0 <= k < |name| && name[k] == SLASH && SLASH !in name[k + 1..] ensures k == slash.value {
        assert forall j :: k < j < |name| ==> name[k + 1..][j - k - 1] == name[j];
      }
    }
  }

  /** Each call succeeds exactly when nothing stands in its way, and otherwise says what does. */
  lemma StepSucceedsIff(t: seq<Entry>, op: NsOp)
    requires DistinctNames(t)
    ensures var error := NsStep(t, op).error;
      match op
      case MkdirOp(name, _) =>
        && (error == ERR_OK <==> Hangs(t, name) && !Taken(t, name) && HasUnused(t))
        && (error == ERR_EXIST <==> Hangs(t, name) && Taken(t, name))
        && (error == ERR_NOENT <==> !Hangs(t, name))
      case CreateOp(name, _) =>
        && (error == ERR_OK <==> Hangs(t, name) && (Taken(t, name) || HasUnused(t)))
        && (error == ERR_NOENT <==> !Hangs(t, name))
      case UnlinkOp(name) =>
        && (error == ERR_OK <==> Taken(t, name) && !(IsThereDir(t, name) && HasInside(t, name)))
        && (error == ERR_NOENT <==> !Taken(t, name))
      case RenameOp(name, newName, _) =>
        && (error == ERR_OK <==> ValidPath(name) && ValidPath(newName) && Taken(t, name) && !Taken(t, newName)
                                 && Hangs(t, newName) && !(IsThereDir(t, name) && HasInside(t, name)))
        && (error == ERR_EXIST <==> ValidPath(name) && ValidPath(newName) && Taken(t, name) && Taken(t, newName))
    ensures NsStep(t, op).error != ERR_OK ==> NsStep(t, op).table == t
  {
    Lookups(t, op.name);
    HangsIff(t, op.name);
    if op.RenameOp? {
      Lookups(t, op.newName);
      HangsIff(t, op.newName);
    }
    hide Hangs, ValidPath, ParentOk, Taken, IsThereDir, HasInside, HasUnused, EmptyDir;
  }

  /** Names are resolved, clocks fit in 64 bits, and no directory is moved directly into itself. */
  predicate Sensible(op: NsOp) {
    && ValidPath(op.name)
    && (!op.UnlinkOp? ==> op.now < 0x1_0000_0000_0000_0000)
    && (op.RenameOp? ==> Parent(op.newName) != Some(op.name))
  }

  lemma StepKeepsTree(t: seq<Entry>, op: NsOp)
    requires WellFormed(t) && TreeInv(t) && Sensible(op)
    ensures WellFormed(NsStep(t, op).table) && TreeInv(NsStep(t, op).table)
  {
    WellFormedMeans(t);
    if NsStep(t, op).table != t {
      match op
      case MkdirOp(name, now) =>
        var e := NewEntry(KIND_DIR, name, now, MODE_DEFAULT_DIR);
        RelabelKeepsWellFormed(t, FreeFrom(t, 0).value, e);
        AddKeepsTree(t, FreeFrom(t, 0).value, e);
      case CreateOp(name, now) =>
        var e := NewEntry(KIND_FILE, name, now, MODE_DEFAULT_FILE);
        RelabelKeepsWellFormed(t, FreeFrom(t, 0).value, e);
        AddKeepsTree(t, FreeFrom(t, 0).value, e);
      case UnlinkOp(name) =>
        RelabelKeepsWellFormed(t, Find(t, name).value, FREE_ENTRY);
        RemoveKeepsTree(t, Find(t, name).value, FREE_ENTRY);
      case RenameOp(name, newName, now) =>
        RenameKeepsTreeIff(t, name, newName, now);
    }
  }

  function NsRun(t: seq<Entry>, ops: seq<NsOp>): seq<Entry>
    decreases |ops|
  {
    if ops == [] then t else NsRun(NsStep(t, ops[0]).table, ops[1..])
  }

  /** Over every run the names stay distinct and valid and every parent stays present. */
  lemma {:induction false} RunKeepsTree(t: seq<Entry>, ops: seq<NsOp>)
    requires WellFormed(t) && TreeInv(t)
    requires forall k :: 0 <= k < |ops| ==> Sensible(ops[k])
    ensures WellFormed(NsRun(t, ops)) && TreeInv(NsRun(t, ops))
    decreases |ops|
  {
    if ops != [] {
      StepKeepsTree(t, ops[0]);
      RunKeepsTree(NsStep(t, ops[0]).table, ops[1..]);
    }
  }

  // ---- Listing ----

  /** pfs_list_match for a resolved namespace: the child's own name when `name` is directly in `dir`. */
  function ListMatch(dir: seq<byte>, name: seq<byte>): Option<seq<byte>> {
    if dir == [] then (if SLASH in name then None else Some(name))
    else if !Below(name, dir) then None
    else
      var child := name[|dir| + 1..];
      if child == [] || SLASH in child then None else Some(child)
  }

  predicate Listed(t: seq<Entry>, dir: seq<byte>, i: nat)
    requires i < |t|
  {
    Used(t[i]) && ListMatch(dir, t[i].name).Some?
  }

  /** Slots listed at or after `from`, in table order. */
  function Listing(t: seq<Entry>, dir: seq<byte>, from: nat): seq<nat>
    requires from <= |t|
    decreases |t| - from
  {
    if from == |t| then []
    else if Listed(t, dir, from) then [from] + Listing(t, dir, from + 1)
    else Listing(t, dir, from + 1)
  }

  /** abi_list over the table: the slot of the `wanted`-th child. */
  method ListEntry(t: seq<Entry>, dir: seq<byte>, wanted: nat) returns (r: Option<nat>)
    ensures var all := Listing(t, dir, 0);
      r == if wanted < |all| then Some(all[wanted]) else None
  {
    var seen := 0;
    ghost var passed: seq<nat> := [];
    for i := 0 to |t|
      invariant seen == |passed| <= wanted
      invariant Listing(t, dir, 0) == passed + Listing(t, dir, i)
    {
      if Listed(t, dir, i) {
        if seen == wanted {
          return Some(i);
        }
        seen := seen + 1;
        passed := passed + [i];
      }
    }
    return None;
  }

  lemma {:induction false} ListingSound(t: seq<Entry>, dir: seq<byte>, from: nat, k: nat)
    requires from <= |t| && k < |Listing(t, dir, from)|
    ensures var all := Listing(t, dir, from);
      && from <= all[k] < |t| && Listed(t, dir, all[k])
      && forall j :: 0 <= j < k ==> all[j] < all[k]
    decreases |t| - from
  {
    if !Listed(t, dir, from) {
      ListingSound(t, dir, from + 1, k);
    } else if k > 0 {
      ListingSound(t, dir, from + 1, k - 1);
    }
  }

  lemma {:induction false} ListingComplete(t: seq<Entry>, dir: seq<byte>, from: nat, i: nat)
    requires from <= i < |t| && Listed(t, dir, i)
    ensures i in Listing(t, dir, from)
    decreases |t| - from
  {
    if i != from {
      ListingComplete(t, dir, from + 1, i);
    }
  }

  /** `name` is the child called `child` of directory `dir` (the root when empty). */
  predicate ChildOf(name: seq<byte>, dir: seq<byte>, child: seq<byte>) {
    if dir == [] then name == child && Parent(name).None?
    else name == dir + [SLASH] + child && Parent(name) == Some(dir)
  }

  lemma MatchIsChild(dir: seq<byte>, name: seq<byte>, child: seq<byte>)
    requires ValidPath(name)
    ensures ListMatch(dir, name) == Some(child) <==> ChildOf(name, dir, child)
  {
    if dir != [] && Below(name, dir) {
      var rest := name[|dir| + 1..];
      assert name == dir + [SLASH] + rest;
      if SLASH !in rest {
        assert forall k :: |dir| < k < |name| ==> name[k] == rest[k - |dir| - 1];
      } else {
        var k :| 0 <= k < |rest| && rest[k] == SLASH;
        assert name[|dir| + 1 + k] == SLASH;
      }
    }
  }

  /** Asking for index 0, 1, 2, ... names each immediate child exactly once, in the order of the table. */
  lemma ListsEachChildOnce(t: seq<Entry>, dir: seq<byte>)
    requires WellFormed(t)
    ensures var all := Listing(t, dir, 0);
      && (forall i, child :: 0 <= i < |t| && Used(t[i]) && ChildOf(t[i].name, dir, child) ==> i in all)
      && (forall k :: 0 <= k < |all| ==>
            all[k] < |t| && Used(t[all[k]]) && exists child :: ChildOf(t[all[k]].name, dir, child))
      && (forall j, k :: 0 <= j < k < |all| ==> all[j] < all[k] < |t| && t[all[j]].name != t[all[k]].name)
  {
    WellFormedMeans(t);
    var all := Listing(t, dir, 0);
    forall i, child | 0 <= i < |t| && Used(t[i]) && ChildOf(t[i].name, dir, child) ensures i in all {
      MatchIsChild(dir, t[i].name, child);
      ListingComplete(t, dir, 0, i);
    }
    forall k | 0 <= k < |all|
      ensures all[k] < |t| && Used(t[all[k]]) && exists child :: ChildOf(t[all[k]].name, dir, child)
      ensures forall j :: 0 <= j < k ==> all[j] < all[k]
    {
      ListingSound(t, dir, 0, k);
      var name := t[all[k]].name;
      MatchIsChild(dir, name, ListMatch(dir, name).value);
    }
  }
}
