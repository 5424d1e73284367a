/** Running a command: redirect, override, spawn, wait, and put everything back on every way out. */
module Command {
  import opened Common
  import opened PfsFormat
  import opened PfsTable
  import opened PfsNamespace
  import opened FdTypes
  import opened PfsFiles
  import opened Pipes
  import opened PfsBytes
  import opened PfsDisk
  import opened Descriptors
  import Environment
  import opened WorkingDir

  const STDIN := 0
  const STDOUT := 1
  const STDERR := 2

  const CREATE_FILE := Flags(true, true, true, true, false, false)

  predicate IsStd(fd: int) {
    STDIN <= fd <= STDERR
  }

  /** app_fd_open. */
  predicate IsOpen(fds: seq<Fd>, fd: int)
    requires |fds| == FD_COUNT
  {
    IsStd(fd) || (SlotOf(fd).Some? && fds[SlotOf(fd).value].open)
  }

  /** The same descriptors are open, and not even their positions have moved. */
  predicate SameOpen(fds: seq<Fd>, fds': seq<Fd>) {
    && |fds| == |fds'| && (forall i :: 0 <= i < |fds| && fds[i].open ==> fds'[i] == fds[i])
    && forall i :: 0 <= i < |fds| && fds'[i].open ==> fds[i].open
  }

  /** The caller's six pipe ends are open, all of them closed before, and nothing else changed. */
  predicate OursOpen(fds0: seq<Fd>, fds: seq<Fd>, ours: seq<int>)
    requires |fds0| == |fds| == FD_COUNT
  {
    && (forall i :: 0 <= i < FD_COUNT && i + FD_BASE !in ours ==> fds[i] == fds0[i])
    && (forall k :: 0 <= k < |ours| ==>
         SlotOf(ours[k]).Some? && !fds0[SlotOf(ours[k]).value].open && fds[SlotOf(ours[k]).value].open)
  }

  predicate IsReadEnd(fds: seq<Fd>, fd: int)
    requires |fds| == FD_COUNT
  {
    SlotOf(fd).Some? && fds[SlotOf(fd).value].open && fds[SlotOf(fd).value].kind.PipeRead?
  }

  /** Two descriptors are the ends of one pipe. */
  predicate PipePair(fds: seq<Fd>, r: int, w: int)
    requires |fds| == FD_COUNT
  {
    && IsReadEnd(fds, r) && SlotOf(w).Some? && fds[SlotOf(w).value].open && fds[SlotOf(w).value].kind.PipeWrite?
    && fds[SlotOf(r).value].index == fds[SlotOf(w).value].index
  }

  /** The pipe behind a descriptor. */
  function PipeBehind(fds: seq<Fd>, pipes: seq<Pipe>, fd: int): Option<Pipe>
    requires |fds| == FD_COUNT
  {
    if SlotOf(fd).None? || fds[SlotOf(fd).value].index >= |pipes| then None
        else Some(pipes[fds[SlotOf(fd).value].index])
  }

  /** A new pipe with as much of the input in it as a pipe holds. */
  function FedPipe(stdin: seq<byte>): Pipe {
    Pushed(FreshPipe(), stdin[..Min(|stdin|, PIPE_SIZE)])
  }

  lemma FedHolds(stdin: seq<byte>)
    ensures PipeOk(FedPipe(stdin)) && FedPipe(stdin).readOpen && FedPipe(stdin).writeOpen
    ensures Buffered(FedPipe(stdin)) == stdin[..Min(|stdin|, PIPE_SIZE)]
  {
    PushAppends(FreshPipe(), stdin[..Min(|stdin|, PIPE_SIZE)]);
    assert Buffered(FreshPipe()) == [];
  }

  /** Everything the pipe behind `fd` accepted has been read, the last part of it as `output`. */
  ghost predicate Captured(accepted: seq<seq<byte>>, delivered: seq<seq<byte>>, fds: seq<Fd>, fd: int,
                           output: seq<byte>)
    requires |fds| == FD_COUNT
  {
    SlotOf(fd).Some? && var p := fds[SlotOf(fd).value].index;
    && p < |accepted| == |delivered| && delivered[p] == accepted[p]
    && |output| <= |delivered[p]| && delivered[p][|delivered[p]| - |output|..] == output
  }

  lemma MoreRead(d: seq<seq<byte>>, p: nat, a: seq<byte>, b: seq<byte>)
    requires p < |d|
    ensures var d1 := d[p := d[p] + a]; d1[p := d1[p] + b] == d[p := d[p] + (a + b)]
  {
    assert (d[p] + a) + b == d[p] + (a + b);
  }

  lemma Histories(pipes: seq<Pipe>, accepted: seq<seq<byte>>, delivered: seq<seq<byte>>)
    requires Accounted(pipes, accepted, delivered)
    ensures |pipes| == |accepted| == |delivered| == PIPE_COUNT
  {
  }

  lemma AllRead(pipes: seq<Pipe>, accepted: seq<seq<byte>>, delivered: seq<seq<byte>>, p: nat)
    requires p < PIPE_COUNT && Accounted(pipes, accepted, delivered) && pipes[p].used && PipeOk(pipes[p])
    requires Buffered(pipes[p]) == []
    ensures delivered[p] == accepted[p]
  {
  }

  /** Reading one pipe empty and then another captures both. */
  lemma BothCaptured(fds: seq<Fd>, pipes: seq<Pipe>, a: int, b: int, accepted: seq<seq<byte>>, d0: seq<seq<byte>>,
                     output: seq<byte>, errors: seq<byte>)
    requires |fds| == FD_COUNT && Agree(fds, pipes) && IsReadEnd(fds, a) && IsReadEnd(fds, b) && a != b
    requires |d0| == |accepted| == PIPE_COUNT
    requires var p, q := fds[SlotOf(a).value].index, fds[SlotOf(b).value].index;
      && p < PIPE_COUNT && q < PIPE_COUNT && accepted[p] == d0[p] + output
      && var d1 := d0[p := d0[p] + output]; accepted[q] == d1[q] + errors
    ensures var p, q := fds[SlotOf(a).value].index, fds[SlotOf(b).value].index;
      var d2 := d0[p := d0[p] + output][q := d0[p := d0[p] + output][q] + errors];
      Captured(accepted, d2, fds, a, output) && Captured(accepted, d2, fds, b, errors)
  {
    var i, j := SlotOf(a).value, SlotOf(b).value;
    assert OneEach(fds) && i != j;
    assert fds[i].index != fds[j].index;
  }

  lemma StillHeld(fds0: seq<Fd>, fds: seq<Fd>, fds': seq<Fd>, ours: seq<int>)
    requires |fds0| == |fds| == |fds'| == FD_COUNT && OursOpen(fds0, fds, ours) && StillOpen(fds, fds')
    ensures StillOpen(fds0, fds')
    ensures forall k :: 0 <= k < |ours| ==> IsOpen(fds', ours[k])
    ensures forall r, w :: PipePair(fds, r, w) ==> PipePair(fds', r, w)
  {
    forall i | 0 <= i < FD_COUNT && fds0[i].open ensures i + FD_BASE !in ours {
      forall k | 0 <= k < |ours| ensures ours[k] != i + FD_BASE {
        assert SlotOf(ours[k]).Some?;
      }
    }
  }

  /** A new pipe is empty, and the pipes that were there hold what they held. */
  lemma PairMade(fds: seq<Fd>, pipes: seq<Pipe>, i: nat, j: nat, p: nat)
    requires |fds| == FD_COUNT && Agree(fds, pipes) && i < j < FD_COUNT && p < PIPE_COUNT
    requires !fds[i].open && !fds[j].open && !pipes[p].used
    ensures var fds', pipes' := WithEnds(fds, i, j, p), pipes[p := FreshPipe()];
      && PipePair(fds', i + FD_BASE, j + FD_BASE) && PipeBehind(fds', pipes', i + FD_BASE) == Some(FreshPipe())
      && (forall a, b :: PipePair(fds, a, b) ==> PipePair(fds', a, b))
      && (forall a :: IsReadEnd(fds, a) ==> PipeBehind(fds', pipes', a) == PipeBehind(fds, pipes, a))
    ensures !IsReadEnd(fds, i + FD_BASE)
  {
    forall a | IsReadEnd(fds, a) ensures fds[SlotOf(a).value].index != p {
      AgreeGives(fds, pipes, SlotOf(a).value);
    }
  }

  lemma AddedIsOurs(fds0: seq<Fd>, fds: seq<Fd>, pipes: seq<Pipe>, fds': seq<Fd>, pipes': seq<Pipe>, ours: seq<int>,
                    r: int, w: int)
    requires |fds0| == |fds| == |fds'| == FD_COUNT && |pipes| == PIPE_COUNT && OursOpen(fds0, fds, ours)
    requires Agree(fds, pipes) && PipeAdded(fds, pipes, fds', pipes', r, w)
    ensures OursOpen(fds0, fds', ours + [r, w]) && !IsReadEnd(fds, r)
    ensures PipePair(fds', r, w) && PipeBehind(fds', pipes', r) == Some(FreshPipe())
    ensures forall a, b :: PipePair(fds, a, b) ==> PipePair(fds', a, b)
    ensures forall a :: IsReadEnd(fds, a) ==> PipeBehind(fds', pipes', a) == PipeBehind(fds, pipes, a)
  {
    hide OursOpen, Agree, PipePair, PipeBehind, IsReadEnd, WithEnds, FreshPipe;
    var i: nat, j: nat, p: nat :| i < j < FD_COUNT && r == i + FD_BASE && w == j + FD_BASE && p < PIPE_COUNT
      && !fds[i].open && !fds[j].open && !pipes[p].used && fds' == WithEnds(fds, i, j, p)
      && pipes' == pipes[p := FreshPipe()];
    TwoMore(fds0, fds, ours, i, j, p);
    PairMade(fds, pipes, i, j, p);
  }

  lemma NoneOursYet(fds: seq<Fd>)
    requires |fds| == FD_COUNT
    ensures OursOpen(fds, fds, [])
  {
  }

  lemma NotOurs(fds0: seq<Fd>, fds: seq<Fd>, ours: seq<int>, i: nat)
    requires |fds0| == |fds| == FD_COUNT && OursOpen(fds0, fds, ours) && i < FD_COUNT && !fds[i].open
    ensures fds[i] == fds0[i]
  {
    forall k | 0 <= k < |ours| ensures ours[k] != i + FD_BASE {
      assert SlotOf(ours[k]).Some?;
    }
  }

  /** After all of ours are closed the table is as it was, but for what others left in it. */
  predicate Freed(fds0: seq<Fd>, seen: seq<Fd>, fds: seq<Fd>, ours: seq<int>)
    requires |fds0| == |seen| == |fds| == FD_COUNT
  {
    forall i :: 0 <= i < FD_COUNT ==> if i + FD_BASE in ours then !fds0[i].open && !fds[i].open else fds[i] == seen[i]
  }

  lemma AllClosed(fds0: seq<Fd>, held: seq<Fd>, seen: seq<Fd>, fds: seq<Fd>, ours: seq<int>)
    requires |fds0| == |held| == |seen| == |fds| == FD_COUNT && OursOpen(fds0, held, ours)
    requires forall i :: 0 <= i < FD_COUNT ==> if i + FD_BASE in ours then !fds[i].open else fds[i] == seen[i]
    ensures Freed(fds0, seen, fds, ours)
  {
    forall i | 0 <= i < FD_COUNT && i + FD_BASE in ours ensures !fds0[i].open {
      var k :| 0 <= k < |ours| && ours[k] == i + FD_BASE;
      assert SlotOf(ours[k]) == Some(i);
    }
  }

  /** Whether each descriptor came back: exactly if it was not redirected, or named the console or something
      open when it was put back. */
  predicate StdBack(std0: seq<int>, moved: seq<bool>, std: seq<int>, seen: seq<Fd>)
    requires |std0| == |moved| == |std| == 3 && |seen| == FD_COUNT
  {
    forall w :: 0 <= w < 3 ==> (std[w] == std0[w] <==> !moved[w] || IsOpen(seen, std0[w]))
  }

  /** The descriptors that moved point at something of ours, which is open. */
  predicate Redirected(std0: seq<int>, moved: seq<bool>, std: seq<int>, seen: seq<Fd>)
    requires |std0| == |moved| == |std| == 3 && |seen| == FD_COUNT
  {
    forall w :: 0 <= w < 3 ==> if moved[w] then IsOpen(seen, std[w]) else std[w] == std0[w]
  }

  lemma BackOrNot(std0: seq<int>, moved: seq<bool>, redirected: seq<int>, std: seq<int>, seen: seq<Fd>)
    requires |std0| == |moved| == |redirected| == |std| == 3 && |seen| == FD_COUNT
    requires Redirected(std0, moved, redirected, seen)
    requires forall w :: 0 <= w < 3 ==> std[w] == if IsOpen(seen, std0[w]) then std0[w] else redirected[w]
    ensures StdBack(std0, moved, std, seen)
  {
  }

  /** In particular, a caller whose descriptors all name something open gets all of them back. */
  lemma AllBack(std0: seq<int>, moved: seq<bool>, std: seq<int>, fds0: seq<Fd>, seen: seq<Fd>)
    requires |std0| == |moved| == |std| == 3 && |fds0| == |seen| == FD_COUNT && StdBack(std0, moved, std, seen)
    requires StillOpen(fds0, seen)
    requires forall w :: 0 <= w < 3 ==> IsOpen(fds0, std0[w])
    ensures std == std0
  {
  }

  lemma MaybeAllBack(std0: seq<int>, moved: seq<bool>, std: seq<int>, fds0: seq<Fd>, seen: seq<Fd>)
    requires |std0| == |moved| == |std| == 3 && |fds0| == |seen| == FD_COUNT && StdBack(std0, moved, std, seen)
    requires StillOpen(fds0, seen)
    ensures (forall w :: 0 <= w < 3 ==> IsOpen(fds0, std0[w])) ==> std == std0
  {
    if forall w :: 0 <= w < 3 ==> IsOpen(fds0, std0[w]) {
      AllBack(std0, moved, std, fds0, seen);
    }
  }

  lemma Unmoved(std0: seq<int>, fds: seq<Fd>)
    requires |std0| == 3 && |fds| == FD_COUNT
    ensures forall seen: seq<Fd> :: |seen| == FD_COUNT ==> StdBack(std0, [false, false, false], std0, seen)
    ensures SameOpen(fds, fds) && Freed(fds, fds, fds, [])
  {
  }

  lemma NothingLeft(fds0: seq<Fd>, held: seq<Fd>, fds: seq<Fd>, ours: seq<int>)
    requires |fds0| == |held| == |fds| == FD_COUNT && OursOpen(fds0, held, ours)
    ensures Freed(fds0, held, fds, ours) ==> SameOpen(fds0, fds)
  {
  }

  lemma OursAreOpen(fds0: seq<Fd>, fds: seq<Fd>, ours: seq<int>)
    requires |fds0| == |fds| == FD_COUNT && OursOpen(fds0, fds, ours)
    ensures forall k :: 0 <= k < |ours| ==> IsOpen(fds, ours[k])
  {
  }

  lemma AllMoved(std0: seq<int>, std: seq<int>, seen: seq<Fd>)
    requires |std0| == |std| == 3 && |seen| == FD_COUNT && forall w :: 0 <= w < 3 ==> IsOpen(seen, std[w])
    ensures Redirected(std0, [true, true, true], std, seen)
  {
  }

  /** Halfway through redirecting: what we opened is open, and each descriptor is where it was or moved. */
  predicate Stage(std0: seq<int>, moved: seq<bool>, std: seq<int>, fds0: seq<Fd>, fds: seq<Fd>, ours: seq<int>) {
    && |std0| == |moved| == |std| == 3 && |fds0| == |fds| == FD_COUNT
    && OursOpen(fds0, fds, ours) && Redirected(std0, moved, std, fds)
  }

  lemma FirstStage(std: seq<int>, fds: seq<Fd>)
    requires |std| == 3 && |fds| == FD_COUNT
    ensures Stage(std, [false, false, false], std, fds, fds, [])
  {
  }

  /** One more descriptor of ours, and one more redirection to something open. */
  lemma NextStage(std0: seq<int>, moved: seq<bool>, std: seq<int>, fds0: seq<Fd>, fds: seq<Fd>, ours: seq<int>,
                  fds': seq<Fd>, ours': seq<int>, which: nat, fd: int)
    requires Stage(std0, moved, std, fds0, fds, ours) && |fds'| == FD_COUNT && OursOpen(fds0, fds', ours') && which < 3
    requires IsOpen(fds', fd) && StillOpen(fds, fds')
    ensures Stage(std0, moved[which := true], std[which := fd], fds0, fds', ours')
  {
  }

  lemma LastStage(std0: seq<int>, moved: seq<bool>, std: seq<int>, fds0: seq<Fd>, fds: seq<Fd>, ours: seq<int>,
                  seen: seq<Fd>)
    requires Stage(std0, moved, std, fds0, fds, ours) && |seen| == FD_COUNT
    requires forall fd :: IsOpen(fds, fd) ==> IsOpen(seen, fd)
    ensures Redirected(std0, moved, std, seen) && OursOpen(fds0, fds, ours)
  {
  }

  /** A descriptor that takes a closed slot is ours as well. */
  lemma OneMore(fds0: seq<Fd>, fds: seq<Fd>, ours: seq<int>, i: nat, handle: Fd)
    requires |fds0| == |fds| == FD_COUNT && OursOpen(fds0, fds, ours) && i < FD_COUNT && !fds[i].open && handle.open
    ensures OursOpen(fds0, fds[i := handle], ours + [i + FD_BASE]) && StillOpen(fds, fds[i := handle])
    ensures IsOpen(fds[i := handle], i + FD_BASE)
  {
    var fds', all := fds[i := handle], ours + [i + FD_BASE];
    NotOurs(fds0, fds, ours, i);
    forall k | 0 <= k < |all|
      ensures SlotOf(all[k]).Some? && !fds0[SlotOf(all[k]).value].open && fds'[SlotOf(all[k]).value].open
    {
      if k < |ours| {
        assert all[k] == ours[k];
      }
    }
    forall k | 0 <= k < FD_COUNT && k + FD_BASE !in all ensures fds'[k] == fds0[k] {
      assert all[|ours|] == i + FD_BASE;
      assert k + FD_BASE !in ours;
    }
  }

  /** Two descriptors of a new pipe are ours as well. */
  lemma TwoMore(fds0: seq<Fd>, before: seq<Fd>, ours: seq<int>, i: nat, j: nat, p: nat)
    requires |fds0| == |before| == FD_COUNT && OursOpen(fds0, before, ours)
    requires i < j < FD_COUNT && !before[i].open && !before[j].open
    ensures OursOpen(fds0, WithEnds(before, i, j, p), ours + [i + FD_BASE, j + FD_BASE])
  {
    hide OursOpen;
    var r := Fd(true, PipeRead, READ_END, 0, 0, p);
    OneMore(fds0, before, ours, i, r);
    OneMore(fds0, before[i := r], ours + [i + FD_BASE], j, Fd(true, PipeWrite, WRITE_END, 0, 0, p));
    assert (ours + [i + FD_BASE]) + [j + FD_BASE] == ours + [i + FD_BASE, j + FD_BASE];
  }

  lemma StageShape(std0: seq<int>, moved: seq<bool>, std: seq<int>, fds0: seq<Fd>, fds: seq<Fd>, ours: seq<int>)
    requires Stage(std0, moved, std, fds0, fds, ours)
    ensures |std0| == |moved| == |std| == 3 && |fds0| == |fds| == FD_COUNT
  {
  }

  lemma OnlyClosedChange(fds0: seq<Fd>, fds: seq<Fd>, ours: seq<int>)
    requires |fds0| == |fds| == FD_COUNT && OursOpen(fds0, fds, ours)
    ensures StillOpen(fds0, fds)
  {
    forall i | 0 <= i < FD_COUNT && fds0[i].open ensures i + FD_BASE !in ours {
      forall k | 0 <= k < |ours| ensures ours[k] != i + FD_BASE {
        assert SlotOf(ours[k]).Some?;
      }
    }
  }

  /** The directories there are. */
  ghost function Dirs(d: seq<Sector>): set<seq<byte>>
    requires DiskInv(d)
  {
    if Mounted(d) then set e | e in TableOn(d) && IsDir(e) :: e.name else {}
  }

  lemma DirFound(d: seq<Sector>, name: seq<byte>)
    requires Mounted(d)
    ensures name in Dirs(d) <==>
            Find(TableOn(d), name).Some? && IsDir(TableOn(d)[Find(TableOn(d), name).value])
  {
    var t := TableOn(d);
    NamesOk(t);
    if name in Dirs(d) {
      var e :| e in t && IsDir(e) && e.name == name;
      var i :| 0 <= i < |t| && t[i] == e;
      FindUsed(t, i);
    }
  }

  /** Where the caller is after a call with a directory: back, unless where it was is no directory any more. */
  function DirAfter(cwd: seq<byte>, dir: Option<seq<byte>>, dirs: set<seq<byte>>, later: set<seq<byte>>): seq<byte> {
    if dir.None? || Chdir(cwd, dir.value, dirs).None? || StillThere(cwd, later) then cwd
    else Chdir(cwd, dir.value, dirs).value
  }

  /** Where the child of a call with a directory starts. */
  ghost function WorkDir(cwd: seq<byte>, dir: Option<seq<byte>>, dirs: set<seq<byte>>): seq<byte> {
    if dir.None? || Chdir(cwd, dir.value, dirs).None? then cwd else Chdir(cwd, dir.value, dirs).value
  }

  /** A call refused before anything happened leaves everything as it was. */
  lemma NothingRan(std: seq<int>, fds: seq<Fd>, env: seq<Environment.EnvVar>)
    requires |std| == 3 && |fds| == FD_COUNT
    ensures StdBack(std, [false, false, false], std, fds) && Freed(fds, fds, fds, []) && SameOpen(fds, fds)
    ensures Environment.SameEnv(env, env)
  {
    Unmoved(std, fds);
    forall k ensures Environment.SameLookup(env, env, k) {
    }
  }

  /** The name that a path given to open stands for. */
  function Target(cwd: seq<byte>, path: seq<byte>): Option<seq<byte>> {
    if path == [] || |path| > PATH_MAX then None else Resolves(cwd, path)
  }

  /** The state a child starts in: its standard descriptors, current directory and environment, which are copies of the
      caller's, and the tables and the disk it shares. */
  datatype Launch = Launch(std: seq<int>, cwd: seq<byte>, env: seq<Environment.EnvVar>, fds: seq<Fd>, pipes: seq<Pipe>,
                           disk: seq<Sector>)

  const NO_LAUNCH := Launch([], [], [], [], [], [])

  /** What the pipe behind a descriptor holds. */
  ghost predicate LeftIn(t: Tables, fd: int, output: seq<byte>) {
    && |t.fds| == FD_COUNT && PipeBehind(t.fds, t.pipes, fd).Some?
    && PipeOk(PipeBehind(t.fds, t.pipes, fd).value) && output == Buffered(PipeBehind(t.fds, t.pipes, fd).value)
  }

  /** The two read ends are of different pipes, so reading one leaves the other. */
  lemma BothLeft(t: Tables, pipes: seq<Pipe>, a: int, b: int, output: seq<byte>, errors: seq<byte>)
    requires |t.fds| == FD_COUNT && Agree(t.fds, t.pipes) && IsReadEnd(t.fds, a) && IsReadEnd(t.fds, b) && a != b
    requires var p, q := t.fds[SlotOf(a).value].index, t.fds[SlotOf(b).value].index;
      && p < PIPE_COUNT && q < PIPE_COUNT && PipeOk(t.pipes[p]) && output == Buffered(t.pipes[p])
      && |pipes| == PIPE_COUNT && (forall k :: 0 <= k < PIPE_COUNT && k != p ==> pipes[k] == t.pipes[k])
      && PipeOk(pipes[q]) && errors == Buffered(pipes[q])
    ensures LeftIn(t, a, output) && LeftIn(t, b, errors)
  {
    var i, j := SlotOf(a).value, SlotOf(b).value;
    assert OneEach(t.fds) && i != j;
    assert t.fds[i].index != t.fds[j].index;
  }

  /** From the start on the calls are made one after the other, and leave descriptors `seen`. */
  ghost predicate Lived(start: Launch, trace: seq<Tables>, calls: seq<SharedCall>, now: nat, seen: seq<Fd>) {
    && |start.fds| == FD_COUNT && Ran(start.fds, trace, calls, now)
    && trace[0] == Tables(start.fds, start.pipes, start.disk) && trace[|calls|].fds == seen
  }

  /** Standard descriptor `which` is the handle of the file at `path`, new or emptied. */
  ghost predicate AtTarget(l: Launch, which: nat, cwd: seq<byte>, path: seq<byte>) {
    && which < |l.std| == 3 && |l.fds| == FD_COUNT && Target(cwd, path).Some? && SlotOf(l.std[which]).Some?
    && OpensAs(l.disk, Target(cwd, path).value, CREATE_FILE, l.fds[SlotOf(l.std[which]).value])
    && l.fds[SlotOf(l.std[which]).value].len == 0
  }

  /** Standard input reads from a pipe that holds as much of the input as a pipe holds. */
  ghost predicate AtInput(l: Launch, stdin: seq<byte>) {
    && |l.std| == 3 && |l.fds| == FD_COUNT && IsReadEnd(l.fds, l.std[0])
    && PipeBehind(l.fds, l.pipes, l.std[0]) == Some(FedPipe(stdin))
  }

  /** Standard output and standard errors are the other ends of two pipes of the caller. */
  ghost predicate AtPipes(l: Launch, output: int, errors: int) {
    && |l.std| == 3 && |l.fds| == FD_COUNT && output != errors
    && PipePair(l.fds, output, l.std[1]) && PipePair(l.fds, errors, l.std[2])
  }

  lemma AllPiped(l: Launch, ends: seq<int>, stdin: seq<byte>)
    requires |ends| == 6 && l.std == [ends[0], ends[3], ends[5]] && |l.fds| == FD_COUNT && ends[2] != ends[4]
    requires PipePair(l.fds, ends[0], ends[1]) && PipePair(l.fds, ends[2], ends[3]) && PipePair(l.fds, ends[4], ends[5])
    requires PipeBehind(l.fds, l.pipes, ends[0]) == Some(FedPipe(stdin))
    ensures AtInput(l, stdin) && AtPipes(l, ends[2], ends[4])
  {
    hide FedPipe;
  }

  /** Everything a command with captured output needs before its child: the overrides apply, and there are three pipes
      and six descriptors. */
  predicate PipesReady(env: seq<Environment.EnvVar>, overrides: seq<Environment.Override>, fds: seq<Fd>,
                       pipes: seq<Pipe>) {
    Environment.AllApply(env, overrides) && PipesLeft(pipes) >= 3 && Closed(fds) >= 6
  }

  /** The files after creating or emptying the one at `path`, if that can be done. */
  ghost function MapCreates(m: FileMap, cwd: seq<byte>, path: seq<byte>, now: nat): Option<FileMap> {
    if Target(cwd, path).None? then None
    else
      var o := MapOpen(m, Target(cwd, path).value, CREATE_FILE, now);
      if o.error == ERR_OK then Some(o.files) else None
  }

  ghost predicate TargetsOpen(d: seq<Sector>, cwd: seq<byte>, output: Option<seq<byte>>, errors: Option<seq<byte>>,
                              now: nat)
    requires DiskInv(d)
  {
    && (output.Some? || errors.Some? ==> Mounted(d))
    && var m := if output.Some? then MapCreates(FilesOn(d), cwd, output.value, now) else Some(FilesOn(d));
       m.Some? && (errors.Some? ==> MapCreates(m.value, cwd, errors.value, now).Some?)
  }

  function Needed(stdin: seq<byte>, output: Option<seq<byte>>, errors: Option<seq<byte>>): nat {
    (if stdin != [] then 2 else 0) + (if output.Some? then 1 else 0) + if errors.Some? then 1 else 0
  }

  /** Everything a command with redirected files needs before its child: the overrides apply, the files can be created
      one after the other, and there are a pipe for the input and descriptors for all of it. */
  ghost predicate FilesReady(env: seq<Environment.EnvVar>, overrides: seq<Environment.Override>, t: Tables,
                             cwd: seq<byte>, stdin: seq<byte>, output: Option<seq<byte>>, errors: Option<seq<byte>>,
                             now: nat)
    requires DiskInv(t.disk)
  {
    && Environment.AllApply(env, overrides) && TargetsOpen(t.disk, cwd, output, errors, now)
    && (stdin != [] ==> PipesLeft(t.pipes) >= 1) && Closed(t.fds) >= Needed(stdin, output, errors)
  }

  lemma ClosedMeans(fds: seq<Fd>)
    ensures Closed(fds) >= 1 <==> FirstClosed(fds, 0).Some?
  {
    if FirstClosed(fds, 0).Some? {
      OneClosed(fds, FirstClosed(fds, 0).value);
    } else {
      NoneClosed(fds);
    }
  }

  /** The outcome of opening a target, in terms of the files. */
  lemma TargetOutcome(d: seq<Sector>, d': seq<Sector>, cwd: seq<byte>, path: seq<byte>, now: nat, error: nat,
                      fds: seq<Fd>)
    requires DiskInv(d) && DiskInv(d') && IsCwd(cwd) && Target(cwd, path).Some?
    requires Opened(d, d', Target(cwd, path).value, CREATE_FILE, now, error, FirstClosed(fds, 0))
    ensures error == ERR_OK <==> Mounted(d) && MapCreates(FilesOn(d), cwd, path, now).Some? && Closed(fds) >= 1
    ensures error == ERR_OK ==> Mounted(d') && MapCreates(FilesOn(d), cwd, path, now) == Some(FilesOn(d'))
  {
    hide MapOpen, ValidPath, IsCwd, Resolves, Closed, OpenTable, FilesOn;
    ResolvesValid(cwd, path);
    ClosedMeans(fds);
  }

  /** The directory of the call, if it has one, can be entered. */
  ghost predicate Enters(cwd: seq<byte>, dir: Option<seq<byte>>, dirs: set<seq<byte>>) {
    dir.Some? ==> Chdir(cwd, dir.value, dirs).Some?
  }

  /** One more standard descriptor is redirected to a handle in a slot that was closed. */
  predicate OneTarget(l: Launch, l': Launch, which: nat, slot: nat) {
    && |l.std| == 3 && |l.fds| == |l'.fds| == FD_COUNT && which < 3 && slot < FD_COUNT && !l.fds[slot].open
    && l'.std == l.std[which := slot + FD_BASE] && l'.fds == l.fds[slot := l'.fds[slot]] && l'.pipes == l.pipes
  }

  lemma InputKept(l: Launch, l': Launch, which: nat, slot: nat, stdin: seq<byte>)
    requires AtInput(l, stdin) && OneTarget(l, l', which, slot) && which != 0
    ensures AtInput(l', stdin)
  {
  }

  /** Opening one file leaves another one's handle what it is, also when both are the same file. */
  lemma TargetKept(l: Launch, l': Launch, which: nat, slot: nat, other: nat, cwd: seq<byte>, path: seq<byte>,
                   name: seq<byte>, now: nat, free: Option<nat>)
    requires AtTarget(l, other, cwd, path) && OneTarget(l, l', which, slot) && which != other
    requires DiskInv(l.disk) && DiskInv(l'.disk) && now < MAX_CLOCK
    requires Opened(l.disk, l'.disk, name, CREATE_FILE, now, ERR_OK, free)
    ensures AtTarget(l', other, cwd, path)
  {
    hide WellFormed, HeaderOf, TableOf;
    var t, t', own := TableOn(l.disk), TableOn(l'.disk), Target(cwd, path).value;
    NamesOk(t);
    NamesOk(t');
    OpenKeepsEntry(t, name, now, Find(t, own).value);
    FindUsed(t', Find(t, own).value);
  }

  /** Creating empties the file. */
  lemma OpenEmpties(d: seq<Sector>, d': seq<Sector>, name: seq<byte>, now: nat, free: Option<nat>, fd: Fd)
    requires DiskInv(d) && DiskInv(d') && Opened(d, d', name, CREATE_FILE, now, ERR_OK, free)
    requires OpensAs(d', name, CREATE_FILE, fd)
    ensures fd.len == 0
  {
    hide WellFormed, HeaderOf, TableOf, MapOpen, Create;
    NamesOk(TableOn(d'));
    var i := Find(Create(TableOn(d), name, now).table, name);
    if i.Some? {
      FindUsed(TableOn(d'), i.value);
    }
  }

  lemma OpenKeepsEntry(t: seq<Entry>, name: seq<byte>, now: nat, i: nat)
    requires DistinctNames(t) && i < |t| && Used(t[i]) && OpenTable(t, name, CREATE_FILE, now).error == ERR_OK
    requires t[i].size == 0
    ensures var t' := OpenTable(t, name, CREATE_FILE, now).table;
      |t'| == |t| && Used(t'[i]) && t'[i].name == t[i].name && t'[i].size == 0
  {
  }

  lemma TargetMade(l: Launch, l': Launch, which: nat, slot: nat, cwd: seq<byte>, path: seq<byte>)
    requires |l.std| == 3 && |l.fds| == |l'.fds| == FD_COUNT && which < 3 && slot < FD_COUNT && !l.fds[slot].open
    requires l'.std == l.std[which := slot + FD_BASE] && l'.fds == l.fds[slot := l'.fds[slot]] && l'.pipes == l.pipes
    requires Target(cwd, path).Some? && OpensAs(l'.disk, Target(cwd, path).value, CREATE_FILE, l'.fds[slot])
    requires l'.fds[slot].len == 0
    ensures AtTarget(l', which, cwd, path) && OneTarget(l, l', which, slot) && SlotOf(slot + FD_BASE) == Some(slot)
  {
  }

  /** A handle in a slot that was closed, and a redirection to it. */
  lemma NextTarget(std0: seq<int>, moved: seq<bool>, std: seq<int>, fds0: seq<Fd>, fds: seq<Fd>, ours: seq<int>,
                   fds': seq<Fd>, which: nat, slot: nat)
    requires Stage(std0, moved, std, fds0, fds, ours) && |fds'| == FD_COUNT && slot < FD_COUNT && !fds[slot].open
    requires fds' == fds[slot := fds'[slot]] && fds'[slot].open && which < 3
    ensures Stage(std0, moved[which := true], std[which := slot + FD_BASE], fds0, fds', ours + [slot + FD_BASE])
    ensures IsOpen(fds', slot + FD_BASE)
  {
    OneMore(fds0, fds, ours, slot, fds'[slot]);
    NextStage(std0, moved, std, fds0, fds, ours, fds', ours + [slot + FD_BASE], which, slot + FD_BASE);
  }

  /** Input from a pipe and output to files where asked for, and as before where not. */
  ghost predicate StartsWith(l: Launch, std0: seq<int>, cwd: seq<byte>, stdin: seq<byte>, output: Option<seq<byte>>,
                             errors: Option<seq<byte>>) {
    && |l.std| == |std0| == 3
    && (if stdin != [] then AtInput(l, stdin) else l.std[0] == std0[0])
    && (if output.Some? then AtTarget(l, 1, cwd, output.value) else l.std[1] == std0[1])
    && (if errors.Some? then AtTarget(l, 2, cwd, errors.value) else l.std[2] == std0[2])
  }

  lemma OutputAdded(l: Launch, l': Launch, slot: nat, std0: seq<int>, cwd: seq<byte>, stdin: seq<byte>,
                    path: seq<byte>)
    requires StartsWith(l, std0, cwd, stdin, None, None) && OneTarget(l, l', 1, slot) && AtTarget(l', 1, cwd, path)
    ensures StartsWith(l', std0, cwd, stdin, Some(path), None)
  {
    hide AtTarget, AtInput;
    if stdin != [] {
      InputKept(l, l', 1, slot, stdin);
    }
  }

  lemma ErrorsAdded(l: Launch, l': Launch, slot: nat, std0: seq<int>, cwd: seq<byte>, stdin: seq<byte>,
                    output: Option<seq<byte>>, path: seq<byte>, now: nat, free: Option<nat>)
    requires StartsWith(l, std0, cwd, stdin, output, None) && OneTarget(l, l', 2, slot) && AtTarget(l', 2, cwd, path)
    requires DiskInv(l.disk) && DiskInv(l'.disk) && now < MAX_CLOCK && Target(cwd, path).Some?
    requires Opened(l.disk, l'.disk, Target(cwd, path).value, CREATE_FILE, now, ERR_OK, free)
    ensures StartsWith(l', std0, cwd, stdin, output, Some(path))
  {
    hide AtTarget, AtInput, Opened, DiskInv;
    if stdin != [] {
      InputKept(l, l', 2, slot, stdin);
    }
    if output.Some? {
      TargetKept(l, l', 2, slot, 1, cwd, output.value, Target(cwd, path).value, now, free);
    }
  }

  lemma NothingAdded(l: Launch, std0: seq<int>, cwd: seq<byte>)
    requires l.std == std0 && |std0| == 3
    ensures StartsWith(l, std0, cwd, [], None, None)
  {
  }

  lemma InputAdded(l: Launch, std0: seq<int>, cwd: seq<byte>, stdin: seq<byte>, r: int, w: int)
    requires |std0| == 3 && l.std == std0[0 := r] && stdin != [] && |l.fds| == FD_COUNT && PipePair(l.fds, r, w)
    requires PipeBehind(l.fds, l.pipes, r) == Some(FedPipe(stdin))
    ensures StartsWith(l, std0, cwd, stdin, None, None)
  {
    hide FedPipe;
  }

  class Caller {
    const tables: PipeTable
    const pfs: Pfs
    const environment: Environment.ProcessEnv
    const std: array<int>
    var cwd: seq<byte>
    ghost var launches: seq<Launch>  // the children so far, each as it started

    constructor (disk: array<Sector>)
      requires DiskInv(disk[..])
      ensures Valid() && cwd == ROOT && launches == [] && pfs.disk == disk && fresh(tables) && fresh(tables.fds)
      ensures fresh(tables.pipes)
      ensures fresh(environment) && fresh(environment.env) && fresh(std)
    {
      var shared := new PipeTable();
      tables := shared;
      pfs := new Pfs(disk, shared.fds);
      environment := new Environment.ProcessEnv();
      std := new int[3](i => i);
      cwd := ROOT;
      launches := [];
    }

    ghost predicate Valid()
      reads this, tables, tables.fds, tables.pipes, pfs.disk, environment, environment.env
    {
      Shared(tables, pfs) && environment.Valid() && std.Length == 3 && IsCwd(cwd) && |cwd| <= CWD_MAX
    }

    ghost function Here(): Launch
      reads this`cwd, tables.fds, tables.pipes, pfs.disk, std, environment.env
    {
      Launch(std[..], cwd, environment.env[..], tables.fds[..], tables.pipes[..], pfs.disk[..])
    }

    /** abi_chdir. */
    method ChangeDir(path: seq<byte>) returns (ok: bool)
      requires Valid() && Short(Chdir(cwd, path, Dirs(pfs.disk[..])))
      modifies this`cwd
      ensures Valid() && ok == Chdir(old(cwd), path, Dirs(pfs.disk[..])).Some?
      ensures cwd == if ok then Chdir(old(cwd), path, Dirs(pfs.disk[..])).value else old(cwd)
    {
      hide Agree, Accounted, Environment.EnvOk, DiskInv, Dirs, Formatted;
      ghost var dirs := Dirs(pfs.disk[..]);
      if |path| == 0 || |path| > PATH_MAX {
        return false;
      }
      if path == ROOT || path == PFS || path == PFS + ROOT {
        ChdirKeeps(cwd, path, dirs);
        cwd := if path == ROOT then ROOT else PFS;
        return true;
      }
      var name := ResolvePath(cwd, path);
      if name.None? {
        return false;
      }
      var found := IsDirName(name.value);
      if !found {
        return false;
      }
      ChdirKeeps(cwd, path, dirs);
      cwd := PFS + name.value;
      return true;
    }

    /** The lookup of abi_chdir. */
    method IsDirName(name: seq<byte>) returns (found: bool)
      requires Valid()
      ensures found <==> name in Dirs(pfs.disk[..])
    {
      hide Agree, Accounted, Environment.EnvOk, TableOf, HeaderOf, WellFormed;
      var formatted, header := ReadHeader(pfs.disk);
      if !formatted {
        return false;
      }
      DirFound(pfs.disk[..], name);
      var t := TableOf(header[..]);
      var index := FindEntry(t, name);
      return index.Some? && IsDir(t[index.value]);
    }

    /** restore_cwd: back to where the call started, if that is still a directory. */
    method RestoreDir(dir: Option<seq<byte>>, saved: seq<byte>)
      requires Valid() && IsCwd(saved) && |saved| <= CWD_MAX
      modifies this`cwd
      ensures Valid() && cwd == if dir.Some? && StillThere(saved, Dirs(pfs.disk[..])) then saved else old(cwd)
    {
      hide Agree, Accounted, Environment.EnvOk, DiskInv, Dirs, Chdir;
      ChdirBack(cwd, saved, Dirs(pfs.disk[..]));
      if dir.Some? && |saved| > 0 {
        var ok := ChangeDir(saved);
      }
    }

    /** abi_dup2. */
    method Dup2(fd: int, which: int) returns (ok: bool)
      requires Valid()
      modifies std
      ensures ok <==> IsStd(which) && (fd == which || IsOpen(tables.fds[..], fd))
      ensures std[..] == if ok then old(std[..])[which := fd] else old(std[..])
    {
      if !IsStd(which) {
        return false;
      }
      if fd == which {
        std[which] := which;
        return true;
      }
      var s := SlotOf(fd);
      if !IsStd(fd) && (s.None? || !tables.fds[s.value].open) {
        return false;
      }
      std[which] := fd;
      return true;
    }

    /** What restore_stdio makes of one descriptor. */
    static function Back(fds: seq<Fd>, saved: int, now: int): int
      requires |fds| == FD_COUNT
    {
      if IsOpen(fds, saved) then saved else now
    }

    method RestoreStdio(saved: seq<int>)
      requires Valid() && |saved| == 3
      modifies std
      ensures forall w :: 0 <= w < 3 ==> std[w] == Back(tables.fds[..], saved[w], old(std[w]))
    {
      var ok := Dup2(saved[0], STDIN);
      ok := Dup2(saved[1], STDOUT);
      ok := Dup2(saved[2], STDERR);
    }

    /** close_many. */
    method CloseMany(list: seq<int>)
      requires Valid()
      modifies tables.fds, tables.pipes
      ensures Valid()
      ensures forall i :: 0 <= i < FD_COUNT ==>
        if i + FD_BASE in list then !tables.fds[i].open else tables.fds[i] == old(tables.fds[i])
    {
      for k := 0 to |list|
        invariant Valid()
        invariant forall i :: 0 <= i < FD_COUNT ==>
          if i + FD_BASE in list[..k] then !tables.fds[i].open else tables.fds[i] == old(tables.fds[i])
      {
        ghost var before := tables.fds[..];
        if list[k] >= 0 {
          var status := tables.Close(list[k]);
        }
        forall i | 0 <= i < FD_COUNT
          ensures if i + FD_BASE in list[..k + 1] then !tables.fds[i].open else tables.fds[i] == old(tables.fds[i])
        {
          assert list[..k + 1] == list[..k] + [list[k]];
          assert tables.fds[i] == before[i] || tables.fds[i] == EMPTY_FD;
        }
      }
      assert list[..|list|] == list;
    }

    /** One read of read_all_available. */
    method ReadPiece(fd: int, n: nat, ghost p: nat) returns (data: seq<byte>)
      requires Valid() && IsReadEnd(tables.fds[..], fd) && tables.fds[SlotOf(fd).value].index == p && p < PIPE_COUNT
      requires PipeOk(tables.pipes[p])
      modifies tables, tables.pipes
      ensures Valid() && PipeOk(tables.pipes[p])
      ensures |data| == Min(n, |old(Buffered(tables.pipes[p]))|)
      ensures old(Buffered(tables.pipes[p])) == data + Buffered(tables.pipes[p])
      ensures tables.accepted == old(tables.accepted) && |old(tables.delivered)| == PIPE_COUNT
      ensures tables.delivered == old(tables.delivered)[p := old(tables.delivered)[p] + data]
      ensures forall q :: 0 <= q < PIPE_COUNT && q != p ==> tables.pipes[q] == old(tables.pipes[..])[q]
    {
      ghost var pipe := tables.pipes[p];
      var r := tables.Read(fd, n);
      data := r.data;
      PopTakesFront(pipe, |data|);
    }

    /** read_all_available: everything the pipe holds, in pieces of 128 bytes. */
    method ReadAll(fd: int) returns (output: seq<byte>)
      requires Valid() && IsReadEnd(tables.fds[..], fd)
      modifies tables, tables.pipes
      ensures Valid() && var p := tables.fds[SlotOf(fd).value].index;
        && p < PIPE_COUNT && PipeOk(old(tables.pipes[..])[p]) && output == Buffered(old(tables.pipes[..])[p])
        && |tables.accepted| == |old(tables.delivered)| == PIPE_COUNT && tables.accepted == old(tables.accepted)
        && tables.delivered == old(tables.delivered)[p := old(tables.delivered)[p] + output]
        && tables.delivered[p] == tables.accepted[p]
        && forall q :: 0 <= q < PIPE_COUNT && q != p ==> tables.pipes[q] == old(tables.pipes[..])[q]
    {
      hide Agree, Accounted, Environment.EnvOk, PipeOk, Buffered;
      ghost var slot := SlotOf(fd).value;
      AgreeGives(tables.fds[..], tables.pipes[..], slot);
      Histories(tables.pipes[..], tables.accepted, tables.delivered);
      ghost var p := tables.fds[slot].index;
      ghost var all, d0 := Buffered(tables.pipes[p]), tables.delivered;
      output := [];
      assert d0[p] + output == d0[p] && d0[p := d0[p]] == d0;
      while true
        invariant Valid() && PipeOk(tables.pipes[p]) && output + Buffered(tables.pipes[p]) == all
        invariant tables.accepted == old(tables.accepted) && tables.delivered == d0[p := d0[p] + output]
        invariant forall q :: 0 <= q < PIPE_COUNT && q != p ==> tables.pipes[q] == old(tables.pipes[..])[q]
        decreases |Buffered(tables.pipes[p])|
      {
        ghost var before, rest := output, Buffered(tables.pipes[p]);
        var data := ReadPiece(fd, 128, p);
        assert before + rest == (before + data) + Buffered(tables.pipes[p]);
        MoreRead(d0, p, before, data);
        output := output + data;
        if |data| < 128 {
          break;
        }
      }
      AgreeGives(tables.fds[..], tables.pipes[..], slot);
      AllRead(tables.pipes[..], tables.accepted, tables.delivered, p);
    }

    /** abi_pipe for the command: two more descriptors that are ours. */
    method OpenPipe(ghost fds0: seq<Fd>, ghost ours: seq<int>) returns (r: Option<(int, int)>)
      requires Valid() && |fds0| == FD_COUNT && OursOpen(fds0, tables.fds[..], ours)
      modifies tables, tables.fds, tables.pipes
      ensures Valid()
      ensures r.Some? <==> PipeFits(old(tables.fds[..]), old(tables.pipes[..]))
      ensures r.Some? ==>
        Closed(tables.fds[..]) + 2 == Closed(old(tables.fds[..]))
        && PipesLeft(tables.pipes[..]) + 1 == PipesLeft(old(tables.pipes[..]))
      ensures r.None? ==> tables.fds[..] == old(tables.fds[..])
      ensures r.Some? ==> OursOpen(fds0, tables.fds[..], ours + [r.value.0, r.value.1])
      ensures r.Some? ==>
        PipePair(tables.fds[..], r.value.0, r.value.1)
        && PipeBehind(tables.fds[..], tables.pipes[..], r.value.0) == Some(FreshPipe())
      ensures r.Some? ==> !IsReadEnd(old(tables.fds[..]), r.value.0)
      ensures forall a, b :: PipePair(old(tables.fds[..]), a, b) ==> PipePair(tables.fds[..], a, b)
      ensures forall a :: IsReadEnd(old(tables.fds[..]), a) ==>
        PipeBehind(tables.fds[..], tables.pipes[..], a) == PipeBehind(old(tables.fds[..]), old(tables.pipes[..]), a)
    {
      hide Agree, Accounted, Environment.EnvOk, DiskInv, FilesOk, OursOpen, PipePair, PipeBehind, IsCwd, IsReadEnd,
          WithEnds, FreshPipe, Closed, PipesLeft;
      ghost var before, pipes := tables.fds[..], tables.pipes[..];
      NoneLeft(pipes);
      r := tables.MakePipe();
      if r.Some? {
        AddedKeeps(before, pipes, tables.fds[..], tables.pipes[..], r.value.0, r.value.1);
        AddedIsOurs(fds0, before, pipes, tables.fds[..], tables.pipes[..], ours, r.value.0, r.value.1);
      }
    }

    /** restore_stdio, then restore_env: the first half of the common end of both runners. */
    method PutBack(saved: seq<int>, restores: seq<Environment.Restore>, ghost moved: seq<bool>,
                   ghost base: seq<Environment.EnvVar>)
      requires Valid() && |saved| == |moved| == 3 && Redirected(saved, moved, std[..], tables.fds[..])
      requires Environment.CanUndo(environment.env[..], restores, base)
      modifies environment.env, std
      ensures Valid() && Environment.SameEnv(environment.env[..], base)
      ensures StdBack(saved, moved, std[..], tables.fds[..])
    {
      hide Agree, Accounted, Environment.EnvOk, Environment.CanUndo, Environment.SameEnv;
      ghost var redirected := std[..];
      RestoreStdio(saved);
      BackOrNot(saved, moved, redirected, std[..], tables.fds[..]);
      environment.RestoreAll(restores, base);
    }

    /** The second half: what we opened is closed. */
    method CloseOurs(ours: seq<int>, ghost fds0: seq<Fd>, ghost held: seq<Fd>, ghost seen: seq<Fd>)
      requires Valid() && |fds0| == |held| == |seen| == FD_COUNT && OursOpen(fds0, held, ours) && seen == tables.fds[..]
      modifies tables.fds, tables.pipes
      ensures Valid() && Freed(fds0, seen, tables.fds[..], ours)
      ensures seen == held ==> SameOpen(fds0, tables.fds[..])
    {
      hide Agree, Accounted;
      CloseMany(ours);
      AllClosed(fds0, held, seen, tables.fds[..], ours);
      NothingLeft(fds0, held, tables.fds[..], ours);
    }

    /** The child runs, or could not be spawned. */
    method SpawnAndWait(spawns: bool, calls: seq<SharedCall>, now: nat, ghost fds0: seq<Fd>, ghost ours: seq<int>)
      returns (ghost trace: seq<Tables>)
      requires Valid() && now < MAX_CLOCK && |fds0| == FD_COUNT && OursOpen(fds0, tables.fds[..], ours)
      modifies this`launches, tables, tables.fds, tables.pipes, pfs.disk
      ensures Valid() && StillOpen(old(tables.fds[..]), tables.fds[..])
      ensures launches == old(launches) + (if spawns then [old(Here())] else [])
      ensures forall a, b :: PipePair(old(tables.fds[..]), a, b) ==> PipePair(tables.fds[..], a, b)
      ensures forall fd :: IsOpen(old(tables.fds[..]), fd) ==> IsOpen(tables.fds[..], fd)
      ensures StillOpen(fds0, tables.fds[..])
      ensures !spawns ==> tables.fds[..] == old(tables.fds[..]) && pfs.disk[..] == old(pfs.disk[..])
      ensures spawns ==> Lived(old(Here()), trace, calls, now, tables.fds[..])
      ensures spawns ==> |trace| == |calls| + 1 && trace[|calls|] == TablesNow(tables, pfs)
    {
      ghost var held := tables.fds[..];
      trace := [];
      if spawns {
        launches := launches + [Here()];
        trace := OthersRun(tables, pfs, calls, now);
      }
      StillHeld(fds0, held, tables.fds[..], ours);
    }

    method RedirectAll(ends: seq<int>)
      requires Valid() && |ends| == 6 && forall k :: 0 <= k < 6 ==> IsOpen(tables.fds[..], ends[k])
      modifies std
      ensures Valid() && std[..] == [ends[0], ends[3], ends[5]]
    {
      hide Agree, Accounted, Environment.EnvOk;
      var ok := Dup2(ends[0], STDIN);
      ok := Dup2(ends[3], STDOUT);
      ok := Dup2(ends[5], STDERR);
    }

    /** The write that feeds an empty pipe: as much of the input as a pipe holds. */
    method Feed(r: int, w: int, stdin: seq<byte>)
      requires Valid() && PipePair(tables.fds[..], r, w)
      requires PipeBehind(tables.fds[..], tables.pipes[..], r) == Some(FreshPipe())
      modifies tables, tables.pipes
      ensures Valid() && PipeBehind(tables.fds[..], tables.pipes[..], r) == Some(FedPipe(stdin))
    {
      ghost var slot := SlotOf(w).value;
      AgreeGives(tables.fds[..], tables.pipes[..], slot);
      AgreeGives(tables.fds[..], tables.pipes[..], SlotOf(r).value);
      var written := tables.Write(w, stdin);
    }

    /** run_command_output from the redirection on. Redirecting onto a descriptor that was just opened cannot
        fail. */
    method RunRedirected(stdin: seq<byte>, ends: seq<int>, spawns: bool, waits: bool, calls: seq<SharedCall>, now: nat,
                         restores: seq<Environment.Restore>, ghost fds0: seq<Fd>, ghost base: seq<Environment.EnvVar>)
      returns (r: Option<(seq<byte>, seq<byte>)>, ghost seen: seq<Fd>, ghost start: Launch, ghost trace: seq<Tables>)
      requires Valid() && now < MAX_CLOCK && |ends| == 6 && |fds0| == FD_COUNT && OursOpen(fds0, tables.fds[..], ends)
      requires PipePair(tables.fds[..], ends[0], ends[1]) && PipePair(tables.fds[..], ends[2], ends[3])
      requires PipePair(tables.fds[..], ends[4], ends[5]) && ends[2] != ends[4]
      requires PipeBehind(tables.fds[..], tables.pipes[..], ends[0]) == Some(FedPipe(stdin))
      requires Environment.CanUndo(environment.env[..], restores, base)
      modifies this`launches, tables, tables.fds, tables.pipes, pfs.disk, environment.env, std
      ensures Valid() && Environment.SameEnv(environment.env[..], base)
      ensures |seen| == FD_COUNT && StillOpen(fds0, seen)
      ensures !spawns ==> SameOpen(fds0, tables.fds[..])
      ensures Freed(fds0, seen, tables.fds[..], ends)
      ensures StdBack(old(std[..]), [true, true, true], std[..], seen)
      ensures r.Some? <==> spawns && waits
      ensures launches == old(launches) + (if spawns then [start] else [])
      ensures start.cwd == cwd && start.env == old(environment.env[..])
      ensures spawns ==> |trace| == |calls| + 1 && pfs.disk[..] == trace[|calls|].disk
      ensures !spawns ==> pfs.disk[..] == old(pfs.disk[..])
      ensures AtInput(start, stdin) && AtPipes(start, ends[2], ends[4]) && StillOpen(start.fds, seen)
      ensures spawns ==> Lived(start, trace, calls, now, seen)
      ensures r.Some? ==> Captured(tables.accepted, tables.delivered, seen, ends[2], r.value.0)
      ensures r.Some? ==> Captured(tables.accepted, tables.delivered, seen, ends[4], r.value.1)
      ensures r.Some? ==>
        && |trace| == |calls| + 1
        && LeftIn(trace[|calls|], ends[2], r.value.0) && LeftIn(trace[|calls|], ends[4], r.value.1)
    {
      hide Agree, Accounted, Environment.EnvOk, Environment.CanUndo, Environment.SameEnv, OursOpen, StdBack, Freed,
          Redirected, DiskInv, FilesOk, IsCwd, AtInput, AtPipes, FedPipe, Lived, LeftIn, Captured, Buffered, PipeOk,
          StillOpen, SameOpen, PipeBehind;
      var saved := std[..];
      ghost var held := tables.fds[..];
      OursAreOpen(fds0, held, ends);
      RedirectAll(ends);
      start := Here();
      AllPiped(start, ends, stdin);
      trace := SpawnAndWait(spawns, calls, now, fds0, ends);
      seen := tables.fds[..];
      AllMoved(saved, std[..], seen);
      PutBack(saved, restores, [true, true, true], base);
      r := None;
      if spawns && waits {
        ghost var pipes, delivered := tables.pipes[..], tables.delivered;
        var output := ReadAll(ends[2]);
        ghost var between := tables.pipes[..];
        var errors := ReadAll(ends[4]);
        BothLeft(trace[|calls|], between, ends[2], ends[4], output, errors);
        BothCaptured(seen, pipes, ends[2], ends[4], tables.accepted, delivered, output, errors);
        r := Some((output, errors));
      }
      CloseOurs(ends, fds0, held, seen);
    }

    /** The three pipes of a command with captured output, or as many as there are. */
    method OpenThree(ghost fds0: seq<Fd>) returns (ends: seq<int>)
      requires Valid() && fds0 == tables.fds[..]
      modifies tables, tables.fds, tables.pipes
      ensures Valid() && |ends| <= 6 && |fds0| == FD_COUNT && OursOpen(fds0, tables.fds[..], ends)
      ensures |ends| == 6 <==> PipesLeft(old(tables.pipes[..])) >= 3 && Closed(fds0) >= 6
      ensures |ends| == 6 ==>
        && PipePair(tables.fds[..], ends[0], ends[1]) && PipePair(tables.fds[..], ends[2], ends[3])
        && PipePair(tables.fds[..], ends[4], ends[5]) && ends[2] != ends[4]
        && PipeBehind(tables.fds[..], tables.pipes[..], ends[0]) == Some(FreshPipe())
    {
      hide Agree, Accounted, Environment.EnvOk, OursOpen, PipeBehind, FreshPipe, DiskInv, FilesOk, IsCwd, Closed,
          PipesLeft;
      NoneOursYet(fds0);
      var input := OpenPipe(fds0, []);
      if input.None? {
        return [];
      }
      ends := [input.value.0, input.value.1];
      assert [] + ends == ends;
      var output := OpenPipe(fds0, ends);
      if output.None? {
        return;
      }
      ends := ends + [output.value.0, output.value.1];
      var errors := OpenPipe(fds0, ends);
      if errors.Some? {
        ends := ends + [errors.value.0, errors.value.1];
      }
    }

    /** run_command_output from the overrides on. `spawns` and `waits` say whether the two calls succeed; `start` is
        what the child starts with, `seen` the table when everything is put back. */
    method RunOutputHere(stdin: seq<byte>, overrides: seq<Environment.Override>, spawns: bool, waits: bool,
                         calls: seq<SharedCall>, now: nat)
      returns (r: Option<(seq<byte>, seq<byte>)>, ghost ours: seq<int>, ghost moved: seq<bool>, ghost seen: seq<Fd>,
               ghost start: Launch, ghost trace: seq<Tables>)
      requires Valid() && now < MAX_CLOCK
      modifies this`launches, tables, tables.fds, tables.pipes, pfs.disk, environment.env, std
      ensures Valid() && Environment.SameEnv(environment.env[..], old(environment.env[..]))
      ensures |seen| == FD_COUNT
      ensures StillOpen(old(tables.fds[..]), seen)
      ensures Freed(old(tables.fds[..]), seen, tables.fds[..], ours)
      ensures |moved| == 3 && StdBack(old(std[..]), moved, std[..], seen)
      ensures (forall w :: 0 <= w < 3 ==> IsOpen(old(tables.fds[..]), old(std[..])[w])) ==> std[..] == old(std[..])
      ensures !spawns ==> SameOpen(old(tables.fds[..]), tables.fds[..])
      ensures r.Some? <==>
        PipesReady(old(environment.env[..]), overrides, old(tables.fds[..]), old(tables.pipes[..])) && spawns && waits
      ensures PipesReady(old(environment.env[..]), overrides, old(tables.fds[..]), old(tables.pipes[..])) ==>
        && |ours| == 6 && moved == [true, true, true] && AtInput(start, stdin) && AtPipes(start, ours[2], ours[4])
        && StillOpen(start.fds, seen) && (spawns ==> Lived(start, trace, calls, now, seen))
        && start.cwd == cwd && Environment.Shows(start.env, old(environment.env[..]), overrides, |overrides|)
      ensures
        if spawns && PipesReady(old(environment.env[..]), overrides, old(tables.fds[..]), old(tables.pipes[..])) then
          launches == old(launches) + [start] && |trace| == |calls| + 1 && pfs.disk[..] == trace[|calls|].disk
        else launches == old(launches) && pfs.disk[..] == old(pfs.disk[..])
      ensures r.Some? ==> Captured(tables.accepted, tables.delivered, seen, ours[2], r.value.0)
      ensures r.Some? ==> Captured(tables.accepted, tables.delivered, seen, ours[4], r.value.1)
      ensures r.Some? ==>
        && |trace| == |calls| + 1
        && LeftIn(trace[|calls|], ours[2], r.value.0) && LeftIn(trace[|calls|], ours[4], r.value.1)
    {
      hide Agree, Accounted, Environment.EnvOk, Environment.CanUndo, Environment.SameEnv, Environment.Shows, OursOpen,
          Freed, StdBack, SameOpen, PipeBehind, Captured, FedPipe, FreshPipe, DiskInv, FilesOk, IsCwd, AtInput, AtPipes;
      ghost var fds0, base, std0 := tables.fds[..], environment.env[..], std[..];
      ours, moved, seen, start, trace := [], [false, false, false], fds0, NO_LAUNCH, [];
      Unmoved(std0, fds0);
      var restores := environment.ApplyAll(overrides);
      if restores.None? {
        return None, ours, moved, seen, start, trace;
      }
      var ends := OpenThree(fds0);
      ours := ends;
      if |ends| < 6 {
        seen := tables.fds[..];
        OnlyClosedChange(fds0, seen, ends);
        CloseOurs(ends, fds0, tables.fds[..], seen);
        environment.RestoreAll(restores.value, base);
        return None, ours, moved, seen, start, trace;
      }
      Feed(ends[0], ends[1], stdin);
      moved := [true, true, true];
      r, seen, start, trace := RunRedirected(stdin, ends, spawns, waits, calls, now, restores.value, fds0, base);
      MaybeAllBack(std0, moved, std[..], fds0, seen);
    }

    /** run_command_output. The directory of the call is entered first and left last. */
    method RunOutput(dir: Option<seq<byte>>, stdin: seq<byte>, overrides: seq<Environment.Override>, spawns: bool,
                     waits: bool, calls: seq<SharedCall>, now: nat)
      returns (r: Option<(seq<byte>, seq<byte>)>, ghost ours: seq<int>, ghost moved: seq<bool>, ghost seen: seq<Fd>,
               ghost start: Launch, ghost trace: seq<Tables>)
      requires Valid() && now < MAX_CLOCK
      requires dir.Some? ==> Short(Chdir(cwd, dir.value, Dirs(pfs.disk[..])))
      modifies this, tables, tables.fds, tables.pipes, pfs.disk, environment.env, std
      ensures Valid() && Environment.SameEnv(environment.env[..], old(environment.env[..]))
      ensures cwd == DirAfter(old(cwd), dir, old(Dirs(pfs.disk[..])), Dirs(pfs.disk[..]))
      ensures StillThere(old(cwd), Dirs(pfs.disk[..])) ==> cwd == old(cwd)
      ensures dir.Some? && old(Chdir(cwd, dir.value, Dirs(pfs.disk[..]))).None? ==>
        r.None? && tables.fds[..] == old(tables.fds[..]) && pfs.disk[..] == old(pfs.disk[..])
      ensures |seen| == FD_COUNT
      ensures StillOpen(old(tables.fds[..]), seen)
      ensures Freed(old(tables.fds[..]), seen, tables.fds[..], ours)
      ensures |moved| == 3 && StdBack(old(std[..]), moved, std[..], seen)
      ensures (forall w :: 0 <= w < 3 ==> IsOpen(old(tables.fds[..]), old(std[..])[w])) ==> std[..] == old(std[..])
      ensures !spawns ==> SameOpen(old(tables.fds[..]), tables.fds[..])
      ensures r.Some? <==>
        && Enters(old(cwd), dir, old(Dirs(pfs.disk[..]))) && spawns && waits
        && PipesReady(old(environment.env[..]), overrides, old(tables.fds[..]), old(tables.pipes[..]))
      ensures Enters(old(cwd), dir, old(Dirs(pfs.disk[..]))) && PipesReady(
        old(environment.env[..]), overrides, old(tables.fds[..]), old(tables.pipes[..])) ==>
        && |ours| == 6 && moved == [true, true, true] && AtInput(start, stdin) && AtPipes(start, ours[2], ours[4])
        && StillOpen(start.fds, seen) && (spawns ==> Lived(start, trace, calls, now, seen))
        && Environment.Shows(start.env, old(environment.env[..]), overrides, |overrides|)
        && if dir.None? then start.cwd == old(cwd)
           else Some(start.cwd) == Chdir(old(cwd), dir.value, old(Dirs(pfs.disk[..])))
      ensures
        if (spawns && Enters(old(cwd), dir, old(Dirs(pfs.disk[..])))
            && PipesReady(old(environment.env[..]), overrides, old(tables.fds[..]), old(tables.pipes[..])))
        then launches == old(launches) + [start] && |trace| == |calls| + 1 && pfs.disk[..] == trace[|calls|].disk
        else launches == old(launches) && pfs.disk[..] == old(pfs.disk[..])
      ensures r.Some? ==> Captured(tables.accepted, tables.delivered, seen, ours[2], r.value.0)
      ensures r.Some? ==> Captured(tables.accepted, tables.delivered, seen, ours[4], r.value.1)
      ensures r.Some? ==>
        && |trace| == |calls| + 1
        && LeftIn(trace[|calls|], ours[2], r.value.0) && LeftIn(trace[|calls|], ours[4], r.value.1)
    {
      hide Agree, Accounted, Environment.EnvOk, Environment.SameEnv, Freed, StdBack, SameOpen, Captured, Chdir,
          IsCwd, DiskInv, FilesOk, Dirs, StillThere, AtInput, AtPipes;
      var saved := cwd;
      if dir.Some? {
        var ok := ChangeDir(dir.value);
        if !ok {
          r, ours, moved, seen, start, trace := None, [], [false, false, false], tables.fds[..], NO_LAUNCH, [];
          NothingRan(std[..], seen, environment.env[..]);
          return;
        }
      }
      r, ours, moved, seen, start, trace := RunOutputHere(stdin, overrides, spawns, waits, calls, now);
      RestoreDir(dir, saved);
    }

    /** File::create and the redirection to it: the file is created or emptied, and its descriptor is ours. */
    method OpenTarget(path: seq<byte>, which: nat, now: nat, ghost std0: seq<int>, ghost moved: seq<bool>,
                      ghost fds0: seq<Fd>, ghost ours: seq<int>)
      returns (fd: Option<int>)
      requires Valid() && now < MAX_CLOCK && which < 3 && Stage(std0, moved, std[..], fds0, tables.fds[..], ours)
      modifies tables.fds, std, pfs.disk
      ensures Valid()
      ensures fd.Some? ==> Stage(std0, moved[which := true], std[..], fds0, tables.fds[..], ours + [fd.value])
      ensures fd.Some? ==> Target(cwd, path).Some? && SlotOf(fd.value).Some? && AtTarget(Here(), which, cwd, path)
      ensures fd.Some? ==> OneTarget(old(Here()), Here(), which, SlotOf(fd.value).value)
      ensures fd.Some? <==>
        && old(Mounted(pfs.disk[..])) && old(MapCreates(FilesOn(pfs.disk[..]), cwd, path, now)).Some?
        && Closed(old(tables.fds[..])) >= 1
      ensures fd.Some? ==>
        && Mounted(pfs.disk[..]) && Closed(tables.fds[..]) + 1 == Closed(old(tables.fds[..]))
        && old(MapCreates(FilesOn(pfs.disk[..]), cwd, path, now)) == Some(FilesOn(pfs.disk[..]))
      ensures fd.None? ==> tables.fds[..] == old(tables.fds[..]) && std[..] == old(std[..])
      ensures Target(cwd, path).None? ==> fd.None? && pfs.disk[..] == old(pfs.disk[..])
      ensures Target(cwd, path).Some? ==> exists error: nat ::
        && (fd.Some? <==> error == ERR_OK)
        && Opened(old(pfs.disk[..]), pfs.disk[..], Target(cwd, path).value, CREATE_FILE, now, error,
                  old(FirstClosed(tables.fds[..], 0)))
    {
      hide Agree, Accounted, Environment.EnvOk, DiskInv, Opened, OpensAs, IsCwd, FilesOk, Stage, OursOpen, AtTarget,
          OneTarget, Resolves, Mounted, Closed, FilesOn, MapOpen;
      if |path| == 0 || |path| > PATH_MAX {
        return None;
      }
      var name := ResolvePath(cwd, path);
      if name.None? {
        return None;
      }
      StageShape(std0, moved, std[..], fds0, tables.fds[..], ours);
      ghost var before, l := tables.fds[..], Here();
      var error, slot := OpenFile(tables, pfs, name.value, CREATE_FILE, now);
      TargetOutcome(l.disk, pfs.disk[..], cwd, path, now, error, before);
      if error != ERR_OK {
        return None;
      }
      OpenEmpties(l.disk, pfs.disk[..], name.value, now, FirstClosed(before, 0), tables.fds[slot]);
      OpenedIndex(pfs.disk[..], name.value, CREATE_FILE, tables.fds[slot]);
      OneOpened(before, slot, tables.fds[slot]);
      NextTarget(std0, moved, std[..], fds0, before, ours, tables.fds[..], which, slot);
      var ok := Dup2(slot + FD_BASE, which);
      TargetMade(l, Here(), which, slot, cwd, path);
      return Some(slot + FD_BASE);
    }

    /** The pipe that feeds the child's standard input. */
    method OpenInput(stdin: seq<byte>, ghost std0: seq<int>, ghost fds0: seq<Fd>) returns (ends: Option<seq<int>>)
      requires Valid() && std0 == std[..] && fds0 == tables.fds[..]
      modifies tables, tables.fds, tables.pipes, std
      ensures Valid()
      ensures ends.Some? ==> Stage(std0, [true, false, false], std[..], fds0, tables.fds[..], ends.value)
      ensures ends.Some? ==>
        |ends.value| == 2 && PipePair(tables.fds[..], ends.value[0], ends.value[1])
        && std[..] == std0[0 := ends.value[0]]
      ensures ends.Some? ==> PipeBehind(tables.fds[..], tables.pipes[..], ends.value[0]) == Some(FedPipe(stdin))
      ensures ends.None? ==> tables.fds[..] == fds0 && std[..] == std0
      ensures ends.Some? <==> PipeFits(fds0, old(tables.pipes[..]))
      ensures ends.Some? ==> Closed(tables.fds[..]) + 2 == Closed(fds0)
    {
      hide Agree, Accounted, Environment.EnvOk, PipeBehind, FedPipe, FreshPipe, Closed, PipesLeft;
      FirstStage(std0, fds0);
      var input := OpenPipe(fds0, []);
      if input.None? {
        return None;
      }
      var both := [input.value.0, input.value.1];
      assert [] + both == both;
      Feed(input.value.0, input.value.1, stdin);
      OnlyClosedChange(fds0, tables.fds[..], both);
      NextStage(std0, [false, false, false], std0, fds0, fds0, [], tables.fds[..], both, STDIN, input.value.0);
      assert [false, false, false][0 := true] == [true, false, false];
      var ok := Dup2(input.value.0, STDIN);
      return Some(both);
    }

    /** The two targets, as far as they are asked for; the second one is not tried if the first one fails. */
    method OpenTargets(ghost stdin: seq<byte>, output: Option<seq<byte>>, errors: Option<seq<byte>>, now: nat,
                       ghost std0: seq<int>, ghost moved0: seq<bool>, ghost fds0: seq<Fd>, ours0: seq<int>)
      returns (good: bool, ours: seq<int>, ghost moved: seq<bool>)
      requires Valid() && now < MAX_CLOCK && Stage(std0, moved0, std[..], fds0, tables.fds[..], ours0)
      requires |moved0| == 3 && !moved0[1] && !moved0[2] && StartsWith(Here(), std0, cwd, stdin, None, None)
      modifies tables.fds, std, pfs.disk
      ensures Valid() && Stage(std0, moved, std[..], fds0, tables.fds[..], ours)
      ensures good <==> old(TargetsOpen(pfs.disk[..], cwd, output, errors, now))
                        && Closed(old(tables.fds[..])) >= Needed([], output, errors)
      ensures good ==>
        StartsWith(Here(), std0, cwd, stdin, output, errors) && moved == [moved0[0], output.Some?, errors.Some?]
    {
      hide Agree, Accounted, Environment.EnvOk, Stage, DiskInv, FilesOk, IsCwd, Opened, StartsWith, OneTarget, AtTarget,
          Target, Closed, FilesOn, MapCreates, Mounted, OpensAs;
      good, ours, moved := true, ours0, moved0;
      assert moved0 == [moved0[0], false, false];
      if output.Some? {
        ghost var l := Here();
        var target := OpenTarget(output.value, STDOUT, now, std0, moved, fds0, ours);
        good := target.Some?;
        if good {
          OutputAdded(l, Here(), SlotOf(target.value).value, std0, cwd, stdin, output.value);
          ours, moved := ours + [target.value], moved[1 := true];
        }
      }
      if good && errors.Some? {
        ghost var l, free := Here(), FirstClosed(tables.fds[..], 0);
        var target := OpenTarget(errors.value, STDERR, now, std0, moved, fds0, ours);
        good := target.Some?;
        if good {
          ErrorsAdded(l, Here(), SlotOf(target.value).value, std0, cwd, stdin, output, errors.value, now, free);
          ours, moved := ours + [target.value], moved[2 := true];
        }
      }
    }

    /** run_command_status from the overrides on. The options name the files that are asked for. */
    method RunStatusHere(stdin: seq<byte>, stdoutFile: Option<seq<byte>>, stderrFile: Option<seq<byte>>,
                         overrides: seq<Environment.Override>, spawns: bool, waits: bool, calls: seq<SharedCall>,
                         now: nat)
      returns (ok: bool, ghost ours: seq<int>, ghost moved: seq<bool>, ghost seen: seq<Fd>, ghost start: Launch,
               ghost trace: seq<Tables>)
      requires Valid() && now < MAX_CLOCK
      modifies this`launches, tables, tables.fds, tables.pipes, pfs.disk, environment.env, std
      ensures Valid() && Environment.SameEnv(environment.env[..], old(environment.env[..]))
      ensures |seen| == FD_COUNT
      ensures StillOpen(old(tables.fds[..]), seen)
      ensures Freed(old(tables.fds[..]), seen, tables.fds[..], ours)
      ensures |moved| == 3 && StdBack(old(std[..]), moved, std[..], seen)
      ensures (forall w :: 0 <= w < 3 ==> IsOpen(old(tables.fds[..]), old(std[..])[w])) ==> std[..] == old(std[..])
      ensures !spawns ==> SameOpen(old(tables.fds[..]), tables.fds[..])
      ensures ok <==> spawns && waits && old(
        FilesReady(environment.env[..], overrides, TablesNow(tables, pfs), cwd, stdin, stdoutFile, stderrFile, now))
      ensures old(
        FilesReady(environment.env[..], overrides, TablesNow(tables, pfs), cwd, stdin, stdoutFile, stderrFile, now)) ==>
        && moved == [stdin != [], stdoutFile.Some?, stderrFile.Some?] && StillOpen(start.fds, seen)
        && StartsWith(start, old(std[..]), cwd, stdin, stdoutFile, stderrFile)
        && (spawns ==> Lived(start, trace, calls, now, seen))
        && start.cwd == cwd && Environment.Shows(start.env, old(environment.env[..]), overrides, |overrides|)
      ensures
        if (spawns && old(
          FilesReady(environment.env[..], overrides, TablesNow(tables, pfs), cwd, stdin, stdoutFile, stderrFile, now)))
        then launches == old(launches) + [start] && |trace| == |calls| + 1 && pfs.disk[..] == trace[|calls|].disk
        else launches == old(launches)
    {
      hide Agree, Accounted, Environment.EnvOk, Environment.CanUndo, Environment.SameEnv, Environment.Shows, OursOpen,
          StdBack, Freed, Redirected, Stage, DiskInv, FilesOk, IsCwd, Opened, OpensAs, Resolves, StartsWith, AtInput,
          PipePair, FedPipe, Lived, Closed, PipesLeft, TargetsOpen, IsOpen, PipeBehind;
      ghost var fds0, base, std0 := tables.fds[..], environment.env[..], std[..];
      moved, seen := [false, false, false], fds0;
      ours, start, trace := [], NO_LAUNCH, [];
      Unmoved(std0, fds0);
      FirstStage(std0, fds0);
      var saved := std[..];
      var restores := environment.ApplyAll(overrides);
      if restores.None? {
        return false, ours, moved, seen, start, trace;
      }
      NothingAdded(Here(), std0, cwd);
      var fds: seq<int> := [];
      if |stdin| > 0 {
        var input := OpenInput(stdin, std0, fds0);
        if input.None? {
          environment.RestoreAll(restores.value, base);
          return false, ours, moved, seen, start, trace;
        }
        fds, moved := input.value, [true, false, false];
        InputAdded(Here(), std0, cwd, stdin, fds[0], fds[1]);
      }
      var good;
      good, fds, moved := OpenTargets(stdin, stdoutFile, stderrFile, now, std0, moved, fds0, fds);
      ours, start := fds, Here();
      seen, trace := Finish(good && spawns, calls, now, saved, fds, restores.value, moved, fds0, base);
      MaybeAllBack(std0, moved, std[..], fds0, seen);
      ok := good && spawns && waits;
    }

    /** run_command_status, with the directory entered first and left last. */
    method RunStatus(dir: Option<seq<byte>>, stdin: seq<byte>, stdoutFile: Option<seq<byte>>,
                     stderrFile: Option<seq<byte>>,
                     overrides: seq<Environment.Override>, spawns: bool, waits: bool, calls: seq<SharedCall>, now: nat)
      returns (ok: bool, ghost ours: seq<int>, ghost moved: seq<bool>, ghost seen: seq<Fd>, ghost start: Launch,
               ghost trace: seq<Tables>)
      requires Valid() && now < MAX_CLOCK
      requires dir.Some? ==> Short(Chdir(cwd, dir.value, Dirs(pfs.disk[..])))
      modifies this, tables, tables.fds, tables.pipes, pfs.disk, environment.env, std
      ensures Valid() && Environment.SameEnv(environment.env[..], old(environment.env[..]))
      ensures cwd == DirAfter(old(cwd), dir, old(Dirs(pfs.disk[..])), Dirs(pfs.disk[..]))
      ensures StillThere(old(cwd), Dirs(pfs.disk[..])) ==> cwd == old(cwd)
      ensures dir.Some? && old(Chdir(cwd, dir.value, Dirs(pfs.disk[..]))).None? ==>
        !ok && tables.fds[..] == old(tables.fds[..]) && pfs.disk[..] == old(pfs.disk[..])
      ensures |seen| == FD_COUNT
      ensures StillOpen(old(tables.fds[..]), seen)
      ensures Freed(old(tables.fds[..]), seen, tables.fds[..], ours)
      ensures |moved| == 3 && StdBack(old(std[..]), moved, std[..], seen)
      ensures (forall w :: 0 <= w < 3 ==> IsOpen(old(tables.fds[..]), old(std[..])[w])) ==> std[..] == old(std[..])
      ensures !spawns ==> SameOpen(old(tables.fds[..]), tables.fds[..])
      ensures ok <==>
        && Enters(old(cwd), dir, old(Dirs(pfs.disk[..]))) && spawns && waits
        && old(FilesReady(environment.env[..], overrides, TablesNow(tables, pfs),
                          WorkDir(cwd, dir, Dirs(pfs.disk[..])), stdin, stdoutFile, stderrFile, now))
      ensures (Enters(old(cwd), dir, old(Dirs(pfs.disk[..])))
               && old(FilesReady(environment.env[..], overrides, TablesNow(tables, pfs),
                                 WorkDir(cwd, dir, Dirs(pfs.disk[..])), stdin, stdoutFile, stderrFile, now))) ==>
        && moved == [stdin != [], stdoutFile.Some?, stderrFile.Some?] && StillOpen(start.fds, seen)
        && StartsWith(start, old(std[..]), old(WorkDir(cwd, dir, Dirs(pfs.disk[..]))), stdin, stdoutFile, stderrFile)
        && (spawns ==> Lived(start, trace, calls, now, seen))
        && Environment.Shows(start.env, old(environment.env[..]), overrides, |overrides|)
        && if dir.None? then start.cwd == old(cwd)
           else Some(start.cwd) == Chdir(old(cwd), dir.value, old(Dirs(pfs.disk[..])))
      ensures
        if (spawns && Enters(old(cwd), dir, old(Dirs(pfs.disk[..])))
            && old(FilesReady(environment.env[..], overrides, TablesNow(tables, pfs),
                              WorkDir(cwd, dir, Dirs(pfs.disk[..])), stdin, stdoutFile, stderrFile, now)))
        then launches == old(launches) + [start] && |trace| == |calls| + 1 && pfs.disk[..] == trace[|calls|].disk
        else launches == old(launches)
    {
      hide Agree, Accounted, Environment.EnvOk, Environment.SameEnv, Freed, StdBack, SameOpen, Chdir, IsCwd,
          DiskInv, FilesOk, Dirs, StillThere;
      var saved := cwd;
      if dir.Some? {
        ok := ChangeDir(dir.value);
        if !ok {
          ours, moved, seen, start, trace := [], [false, false, false], tables.fds[..], NO_LAUNCH, [];
          NothingRan(std[..], seen, environment.env[..]);
          return;
        }
      }
      ok, ours, moved, seen,
          start, trace := RunStatusHere(stdin, stdoutFile, stderrFile, overrides, spawns, waits, calls, now);
      RestoreDir(dir, saved);
    }

    /** The child runs, if everything before went well, and everything is put back. */
    method Finish(runs: bool, calls: seq<SharedCall>, now: nat, saved: seq<int>, ours: seq<int>,
                  restores: seq<Environment.Restore>,
                  ghost moved: seq<bool>, ghost fds0: seq<Fd>, ghost base: seq<Environment.EnvVar>)
      returns (ghost seen: seq<Fd>, ghost trace: seq<Tables>)
      requires Valid() && now < MAX_CLOCK && Stage(saved, moved, std[..], fds0, tables.fds[..], ours)
      requires Environment.CanUndo(environment.env[..], restores, base)
      modifies this`launches, tables, tables.fds, tables.pipes, pfs.disk, environment.env, std
      ensures Valid() && Environment.SameEnv(environment.env[..], base)
      ensures |seen| == |fds0| == FD_COUNT && StillOpen(fds0, seen) && StillOpen(old(tables.fds[..]), seen)
      ensures !runs ==> SameOpen(fds0, tables.fds[..])
      ensures runs ==> Lived(old(Here()), trace, calls, now, seen)
      ensures launches == old(launches) + (if runs then [old(Here())] else [])
      ensures if runs then |trace| == |calls| + 1 && pfs.disk[..] == trace[|calls|].disk
              else pfs.disk[..] == old(pfs.disk[..])
      ensures Freed(fds0, seen, tables.fds[..], ours)
      ensures |saved| == |moved| == 3 && StdBack(saved, moved, std[..], seen)
    {
      hide Agree, Accounted, Environment.EnvOk, Environment.CanUndo, Environment.SameEnv, OursOpen, StdBack, Freed,
          Redirected, Stage, DiskInv, FilesOk, IsCwd;
      ghost var held := tables.fds[..];
      StageShape(saved, moved, std[..], fds0, held, ours);
      LastStage(saved, moved, std[..], fds0, held, ours, held);
      trace := SpawnAndWait(runs, calls, now, fds0, ours);
      seen := tables.fds[..];
      LastStage(saved, moved, std[..], fds0, held, ours, seen);
      PutBack(saved, restores, moved, base);
      CloseOurs(ours, fds0, held, seen);
    }
  }
}
