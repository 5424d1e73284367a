/** What one call on names undoes, and what an open may change. */
module PfsUndo {
  import opened Common
  import opened PfsFormat
  import opened PfsTable
  import opened PfsNamespace
  import opened PfsFiles
  import opened FdTypes
  import opened PfsDisk

  /** A name that was made can be unlinked again, which leaves the files as they were, exactly if it is a file or
      nothing lies below it. */
  lemma UnlinkUndoesMake(m: FileMap, op: NsOp)
    requires (op.MkdirOp? || op.CreateOp?) && MapStep(m, op).error == ERR_OK && op.name !in m
    ensures MapStep(MapStep(m, op).files, UnlinkOp(op.name)) == MapOutcome(m, ERR_OK) <==>
            op.CreateOp? || MapEmptyDir(m, op.name)
    ensures !(op.CreateOp? || MapEmptyDir(m, op.name)) ==>
      MapStep(MapStep(m, op).files, UnlinkOp(op.name)) == MapOutcome(MapStep(m, op).files, ERR_INVAL)
  {
    var name, m' := op.name, MapStep(m, op).files;
    assert m' == m[name := m'[name]] && m'[name].dir == op.MkdirOp?;
    EmptyBeside(m, name, m'[name]);
    assert m' - {name} == m;
    hide Below, MapEmptyDir, MapParentOk, LastSlash, ValidPath;
  }

  /** A new entry does not lie below itself. */
  lemma EmptyBeside(m: FileMap, name: seq<byte>, node: Node)
    ensures MapEmptyDir(m[name := node], name) <==> MapEmptyDir(m, name)
  {
    assert !Below(name, name);
    assert forall n :: n in m[name := node] <==> n in m || n == name;
  }

  /** After a successful mkdir or create the name is there, and no other name has come or gone; the same call again is
      refused for a directory and changes nothing for a file. */
  lemma MadeOnce(m: FileMap, op: NsOp)
    requires (op.MkdirOp? || op.CreateOp?) && MapStep(m, op).error == ERR_OK
    ensures var m' := MapStep(m, op).files;
      && m'.Keys == m.Keys + {op.name} && (forall n :: n in m ==> m'[n] == m[n])
      && (op.name !in m ==>
        m'[op.name] == Node(op.MkdirOp?, [], op.now, if op.MkdirOp? then MODE_DEFAULT_DIR else MODE_DEFAULT_FILE))
      && MapStep(m', op) == MapOutcome(m', if op.MkdirOp? then ERR_EXIST else ERR_OK)
  {
    var m' := MapStep(m, op).files;
    if op.name !in m && LastSlash(op.name).Some? {
      var parent := op.name[..LastSlash(op.name).value];
      assert m'[parent] == m[parent];
    }
  }

  /** A rename is undone by the opposite one, if the old name's directory is there and nothing lies below the new
      name. */
  lemma RenameUndoesRename(m: FileMap, a: seq<byte>, b: seq<byte>, now: nat, later: nat)
    requires MapStep(m, RenameOp(a, b, now)).error == ERR_OK
    requires MapParentOk(m, a) && (m[a].dir ==> MapEmptyDir(m, b))
    ensures MapStep(MapStep(m, RenameOp(a, b, now)).files, RenameOp(b, a, later)) == MapOutcome(m, ERR_OK)
  {
    var m' := MapStep(m, RenameOp(a, b, now)).files;
    assert m'.Keys == m.Keys - {a} + {b} && m'[b] == m[a];
    assert (m' - {b})[a := m'[b]] == m;
    assert !Below(b, b);
    if LastSlash(a).Some? {
      var parent := a[..LastSlash(a).value];
      assert |parent| < |a| && parent in m && parent != a;
      assert parent != b;
      assert m'[parent] == m[parent];
    }
    assert MapParentOk(m', a);
  }

  /** Renaming moves one name with its contents, and nothing else. */
  lemma RenameMoves(m: FileMap, a: seq<byte>, b: seq<byte>, now: nat)
    requires MapStep(m, RenameOp(a, b, now)).error == ERR_OK
    ensures var m' := MapStep(m, RenameOp(a, b, now)).files;
      && a in m && b !in m && a !in m' && b in m' && m'[b] == m[a] && |m'| == |m|
      && forall n :: n != a && n != b ==> (n in m' <==> n in m) && (n in m ==> m'[n] == m[n])
  {
    var m' := MapStep(m, RenameOp(a, b, now)).files;
    assert m'.Keys == m.Keys - {a} + {b};
    assert |m.Keys - {a}| == |m.Keys| - 1;
  }

  /** An open that is not allowed to write changes no file there is; one that may not create adds none; and one that
      must create finds none. */
  lemma OpenMayChange(d: seq<Sector>, d': seq<Sector>, name: seq<byte>, flags: Flags, now: nat, error: nat,
                      free: Option<nat>)
    requires DiskInv(d) && DiskInv(d') && Opened(d, d', name, flags, now, error, free)
    ensures forall n :: n != name ==>
      (n in FilesOn(d') <==> n in FilesOn(d)) && (n in FilesOn(d) ==> FilesOn(d')[n] == FilesOn(d)[n])
    ensures name in FilesOn(d) ==> name in FilesOn(d')
    ensures name in FilesOn(d) && !(flags.write && flags.truncate) ==> FilesOn(d')[name] == FilesOn(d)[name]
    ensures name !in FilesOn(d) && !flags.create ==> name !in FilesOn(d') && error != ERR_OK
    ensures flags.createNew && error == ERR_OK ==> flags.create && name !in FilesOn(d)
    ensures error == ERR_OK ==> name in FilesOn(d') && !FilesOn(d')[name].dir
    ensures error == ERR_OK && name !in FilesOn(d) ==> FilesOn(d')[name] == Node(false, [], now, MODE_DEFAULT_FILE)
    ensures error == ERR_OK && name in FilesOn(d) && flags.truncate ==>
      FilesOn(d')[name] == FilesOn(d)[name].(data := [])
  {
    hide FilesOn, OpenTable, MapParentOk, Formatted, ValidPath;
  }

  /** An open succeeds exactly for a valid name in a directory there is, with flags that go together, if the name is a
      file's that need not be new, or is free and may be made, and a descriptor is closed. */
  lemma OpenSucceedsIff(d: seq<Sector>, d': seq<Sector>, name: seq<byte>, flags: Flags, now: nat, error: nat,
                        free: Option<nat>)
    requires DiskInv(d) && DiskInv(d') && Opened(d, d', name, flags, now, error, free)
    ensures error == ERR_OK <==>
            && ValidPath(name) && (flags.createNew ==> flags.create) && (flags.truncate || flags.append ==> flags.write)
            && Formatted(HeaderOf(d)) && Hangs(TableOn(d), name) && !IsThereDir(TableOn(d), name)
            && (if Taken(TableOn(d), name) then !flags.createNew else flags.create && HasUnused(TableOn(d)))
            && free.Some?
  {
    if Formatted(HeaderOf(d)) {
      var t := TableOn(d);
      NamesOk(t);
      Lookups(t, name);
      HangsIff(t, name);
    }
    hide FilesOn, MapOpen, Hangs, ParentOk, Formatted, ValidPath, Taken, IsThereDir, HasUnused, Rewritten;
  }
}
