/** A process's current directory: what chdir accepts, and that changing back to where it was leads back. */
module WorkingDir {
  import opened Common
  import opened PfsFormat
  import opened PfsTable
  import opened PfsPaths

  const CWD_MAX := 64
  const PATH_MAX := 128
  const ROOT: seq<byte> := [SLASH]
  const PFS: seq<byte> := [112, 102, 115, 58]  // "pfs:"

  predicate OnPfs(path: seq<byte>) {
    |path| >= 4 && path[..4] == PFS
  }

  /** pfs_resolve_path: a name with the prefix starts at the top, another one at the current directory, which has to be
      on the file system. */
  function Resolves(cwd: seq<byte>, path: seq<byte>): Option<seq<byte>> {
    var r := if OnPfs(path) then Resolved([], path[4..]) else if OnPfs(cwd) then Resolved(cwd[4..], path) else None;
    if r.None? || r.value == [] then None else Some(Join(r.value))
  }

  method ResolvePath(cwd: seq<byte>, path: seq<byte>) returns (r: Option<seq<byte>>)
    ensures r == Resolves(cwd, path)
  {
    var output := new byte[NAME_MAX](_ => 0);
    if OnPfs(path) {
      var len := Normalize([], path[4..], output);
      return if len.None? then None else Some(output[..len.value]);
    }
    if OnPfs(cwd) {
      var len := Normalize(cwd[4..], path, output);
      return if len.None? then None else Some(output[..len.value]);
    }
    return None;
  }

  /** abi_chdir, with the directories there are: the new current directory, or None if it is refused. */
  function Chdir(cwd: seq<byte>, path: seq<byte>, dirs: set<seq<byte>>): Option<seq<byte>> {
    if path == [] || |path| > PATH_MAX then None
    else if path == ROOT then Some(ROOT)
    else if path == PFS || path == PFS + ROOT then Some(PFS)
    else
      var name := Resolves(cwd, path);
      if name.Some? && name.value in dirs then Some(PFS + name.value) else None
  }

  /** The values a current directory can have: the boot volume, the top of the file system, or a clean name on it. */
  ghost predicate IsCwd(cwd: seq<byte>) {
    cwd == ROOT || exists stack :: IsNamed(cwd, stack)
  }

  predicate IsNamed(cwd: seq<byte>, stack: seq<Component>) {
    cwd == PFS + Join(stack) && StackOk(stack) && NoDots(stack) && Split(Join(stack)) == stack
  }

  /** What the kernel's 64 bytes for a current directory can hold. */
  predicate Short(cwd: Option<seq<byte>>) {
    cwd.Some? ==> |cwd.value| <= CWD_MAX
  }

  /** A name that resolves is a valid path. */
  lemma ResolvesValid(cwd: seq<byte>, path: seq<byte>)
    requires IsCwd(cwd) && Resolves(cwd, path).Some?
    ensures ValidPath(Resolves(cwd, path).value)
  {
    var base, rest := if OnPfs(path) then [] else cwd[4..], if OnPfs(path) then path[4..] else path;
    if !OnPfs(path) {
      var stack :| IsNamed(cwd, stack);
      assert cwd[4..] == Join(stack);
    }
    ResolvedClean(base, rest);
  }

  /** Changing the directory keeps it one of these values. */
  lemma ChdirKeeps(cwd: seq<byte>, path: seq<byte>, dirs: set<seq<byte>>)
    requires IsCwd(cwd) && Chdir(cwd, path, dirs).Some?
    ensures IsCwd(Chdir(cwd, path, dirs).value)
  {
    if path == PFS || path == PFS + ROOT {
      assert PFS + [] == PFS;
      assert IsNamed(PFS, []);
    } else if path != ROOT {
      var base, rest := if OnPfs(path) then [] else cwd[4..], if OnPfs(path) then path[4..] else path;
      if !OnPfs(path) {
        var stack :| IsNamed(cwd, stack);
        assert cwd[4..] == Join(stack);
      }
      ResolvedClean(base, rest);
      assert IsNamed(PFS + Join(Resolved(base, rest).value), Resolved(base, rest).value);
    }
  }

  /** The current directory, given as a path, leads from anywhere to itself exactly if it still is a directory. */
  lemma ChdirBack(now: seq<byte>, cwd: seq<byte>, dirs: set<seq<byte>>)
    requires IsCwd(cwd) && |cwd| <= CWD_MAX
    ensures Chdir(now, cwd, dirs) == if StillThere(cwd, dirs) then Some(cwd) else None
  {
    if cwd != ROOT {
      var stack :| IsNamed(cwd, stack);
      assert cwd[..4] == PFS && cwd[4..] == Join(stack);
      if stack == [] {
        assert cwd == PFS;
      } else {
        JoinIsPath(stack);
        assert cwd[4] == Join(stack)[0] && cwd != PFS + ROOT;
        assert [] + stack == stack;
        WalkClean([], stack);
        assert Resolves(now, cwd) == Some(Join(stack));
      }
    }
  }

  /** A name goes down from the current directory, exactly if there is a directory with it; */
  lemma ChdirDown(stack: seq<Component>, c: Component, dirs: set<seq<byte>>)
    requires StackOk(stack) && ValidComponent(c) && c != HERE && c != UP
    ensures Chdir(PFS + Join(stack), c, dirs) ==
            if |Join(stack + [c])| <= NAME_MAX && Join(stack + [c]) in dirs then Some(PFS + Join(stack + [c])) else None
  {
    hide Join, StackOk, Resolved;
    var cwd := PFS + Join(stack);
    assert cwd[..4] == PFS && cwd[4..] == Join(stack);
    OneOnPfs(c);
    if |Join(stack + [c])| <= NAME_MAX {
      PushedOk(stack, c);
      RelativeName(stack, c);
    } else {
      TooLongName(stack, c);
    }
  }

  /** and two dots go up to the directory it is in, but never to the top itself. */
  lemma ChdirUp(stack: seq<Component>, dirs: set<seq<byte>>)
    requires StackOk(stack) && NoDots(stack)
    ensures Chdir(PFS + Join(stack), UP, dirs) ==
            if |stack| > 1 && Parent(Join(stack)).Some? && Parent(Join(stack)).value in dirs
            then Some(PFS + Parent(Join(stack)).value)
            else None
  {
    hide Join, StackOk, Resolved, NoDots;
    var cwd := PFS + Join(stack);
    assert cwd[..4] == PFS && cwd[4..] == Join(stack);
    UpIsParent(stack);
  }

  lemma OneOnPfs(c: Component)
    requires ValidComponent(c)
    ensures !OnPfs(c) && c != ROOT && c != PFS && c != PFS + ROOT
  {
    assert !NameByte(PFS[3]) && !NameByte(SLASH);
    assert NameByte(c[0]) && (|c| >= 4 ==> c[..4][3] == c[3] && NameByte(c[3]));
    assert PFS[..4] == PFS && (PFS + ROOT)[..4] == PFS;
  }

  lemma PushedOk(stack: seq<Component>, c: Component)
    requires StackOk(stack) && ValidComponent(c) && |Join(stack + [c])| <= NAME_MAX
    ensures StackOk(stack + [c]) && |c| <= NAME_MAX
  {
    JoinLast(stack, c);
  }

  lemma TooLongName(stack: seq<Component>, c: Component)
    requires StackOk(stack) && ValidComponent(c) && c != HERE && c != UP && |Join(stack + [c])| > NAME_MAX
    ensures Resolved(Join(stack), c).None?
  {
    hide Join, Split, PushAll;
    OneWord(c);
    SplitClean(stack);
    assert !IsAbsolute(c) by {
      assert !NameByte(SLASH);
    }
    assert WalkAll(stack, [c]).None?;
  }

  /** A directory that cannot disappear, or has not. */
  predicate StillThere(cwd: seq<byte>, dirs: set<seq<byte>>) {
    cwd == ROOT || cwd == PFS || (OnPfs(cwd) && cwd[4..] in dirs)
  }
}
