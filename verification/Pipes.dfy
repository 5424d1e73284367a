/** Pipes and the file-descriptor table that names their ends. */
module Pipes {
  import opened Common
  import opened PfsFormat
  import opened FdTypes

  const PIPE_COUNT := 12
  const PIPE_SIZE := 8192

  datatype Pipe = Pipe(used: bool, readOpen: bool, writeOpen: bool, buffer: seq<byte>, readOffset: nat, len: nat)

  function Blank(): (b: seq<byte>)
    ensures |b| == PIPE_SIZE
  {
    seq(PIPE_SIZE, _ => 0 as byte)
  }

  function EmptyPipe(): Pipe {
    Pipe(false, false, false, Blank(), 0, 0)
  }

  /** A pipe is in use as long as one of its ends is open. */
  predicate PipeOk(p: Pipe) {
    && |p.buffer| == PIPE_SIZE && p.readOffset <= p.len <= PIPE_SIZE
    && (p.used <==> p.readOpen || p.writeOpen)
  }

  /** Bytes written and not read yet. */
  function Buffered(p: Pipe): seq<byte>
    requires PipeOk(p)
  {
    p.buffer[p.readOffset..p.len]
  }

  // ---- One pipe ----

  /** How many bytes a write takes; the room of bytes already read does not count. */
  function Room(p: Pipe, n: nat): (r: nat)
    requires PipeOk(p)
    ensures r <= n && p.len + r <= PIPE_SIZE && (r < n ==> p.len + r == PIPE_SIZE)
  {
    Min(n, PIPE_SIZE - p.len)
  }

  function Pushed(p: Pipe, data: seq<byte>): Pipe
    requires PipeOk(p) && p.len + |data| <= PIPE_SIZE
  {
    p.(buffer := p.buffer[..p.len] + data + p.buffer[p.len + |data|..], len := p.len + |data|)
  }

  /** Taking `n` bytes out; an emptied buffer starts over. */
  function Popped(p: Pipe, n: nat): Pipe
    requires PipeOk(p) && p.readOffset + n <= p.len
  {
    if p.readOffset + n == p.len && n > 0 then p.(readOffset := 0, len := 0) else p.(readOffset := p.readOffset + n)
  }

  lemma PushAppends(p: Pipe, data: seq<byte>)
    requires PipeOk(p) && p.len + |data| <= PIPE_SIZE
    ensures PipeOk(Pushed(p, data)) && Buffered(Pushed(p, data)) == Buffered(p) + data
  {
    var q := Pushed(p, data);
    assert q.buffer[..p.len] == p.buffer[..p.len];
    assert q.buffer[p.len..q.len] == data;
    assert Buffered(q) == q.buffer[p.readOffset..p.len] + q.buffer[p.len..q.len];
    assert q.buffer[p.readOffset..p.len] == q.buffer[..p.len][p.readOffset..];
  }

  /** What comes out was in front, the rest stays, also when the offsets start over. */
  lemma PopTakesFront(p: Pipe, n: nat)
    requires PipeOk(p) && n <= |Buffered(p)|
    ensures PipeOk(Popped(p, n)) && Buffered(p)[..n] + Buffered(Popped(p, n)) == Buffered(p)
  {
  }

  lemma PopReads(p: Pipe, n: nat)
    requires PipeOk(p) && n <= |Buffered(p)|
    ensures p.buffer[p.readOffset..p.readOffset + n] == Buffered(p)[..n]
  {
  }

  // ---- The tables ----

  predicate IsEnd(fd: Fd, kind: FdKind, pipe: nat) {
    fd.open && fd.kind == kind && fd.index == pipe
  }

  predicate IsOpenEnd(fds: seq<Fd>, kind: FdKind, pipe: nat) {
    exists i :: 0 <= i < |fds| && IsEnd(fds[i], kind, pipe)
  }

  /** At most one descriptor names each end of each pipe. */
  predicate OneEach(fds: seq<Fd>) {
    forall i, j :: 0 <= i < j < |fds| && fds[i].open && fds[j].open && IsPipeKind(fds[i].kind) ==>
      fds[i].kind != fds[j].kind || fds[i].index != fds[j].index
  }

  predicate IsPipeKind(kind: FdKind) {
    kind.PipeRead? || kind.PipeWrite?
  }

  predicate EndOk(fd: Fd) {
    fd.open && IsPipeKind(fd.kind) ==>
      fd.index < PIPE_COUNT && (fd.kind.PipeRead? ==> fd.flags.read) && (fd.kind.PipeWrite? ==> fd.flags.write)
  }

  /** An end of a pipe is open exactly when a descriptor names it. */
  predicate Agree(fds: seq<Fd>, pipes: seq<Pipe>) {
    && |pipes| == PIPE_COUNT
    && (forall i :: 0 <= i < |fds| ==> EndOk(fds[i])) && OneEach(fds)
    && forall p :: 0 <= p < |pipes| ==>
         && PipeOk(pipes[p])
         && (pipes[p].readOpen <==> IsOpenEnd(fds, PipeRead, p))
         && (pipes[p].writeOpen <==> IsOpenEnd(fds, PipeWrite, p))
  }

  lemma AgreeGives(fds: seq<Fd>, pipes: seq<Pipe>, i: nat)
    requires Agree(fds, pipes) && i < |fds| && fds[i].open && IsPipeKind(fds[i].kind)
    ensures fds[i].index < PIPE_COUNT && PipeOk(pipes[fds[i].index]) && pipes[fds[i].index].used
    ensures if fds[i].kind.PipeRead? then pipes[fds[i].index].readOpen else pipes[fds[i].index].writeOpen
  {
    assert IsEnd(fds[i], fds[i].kind, fds[i].index);
  }

  /** Moving data keeps the tables in agreement. */
  lemma DataKeepsAgree(fds: seq<Fd>, pipes: seq<Pipe>, p: nat, q: Pipe)
    requires Agree(fds, pipes) && p < PIPE_COUNT && PipeOk(q) && q.readOpen == pipes[p].readOpen
    requires q.writeOpen == pipes[p].writeOpen
    ensures Agree(fds, pipes[p := q])
  {
  }

  /** A descriptor of another kind comes or goes. */
  lemma OtherKeepsAgree(fds: seq<Fd>, pipes: seq<Pipe>, i: nat, fd: Fd)
    requires Agree(fds, pipes) && i < |fds| && (!fds[i].open || !IsPipeKind(fds[i].kind))
    requires (!fd.open || !IsPipeKind(fd.kind))
    ensures Agree(fds[i := fd], pipes)
  {
    var fds' := fds[i := fd];
    forall kind: FdKind, p: nat | IsPipeKind(kind) ensures IsOpenEnd(fds', kind, p) <==> IsOpenEnd(fds, kind, p) {
      if IsOpenEnd(fds, kind, p) {
        var k :| 0 <= k < |fds| && IsEnd(fds[k], kind, p);
        assert fds'[k] == fds[k];
      }
      if IsOpenEnd(fds', kind, p) {
        var k :| 0 <= k < |fds'| && IsEnd(fds'[k], kind, p);
        assert fds'[k] == fds[k];
      }
    }
  }

  const READ_END := NO_FLAGS.(read := true)
  const WRITE_END := NO_FLAGS.(write := true)

  function FreshPipe(): Pipe {
    Pipe(true, true, true, Blank(), 0, 0)
  }

  function WithEnds(fds: seq<Fd>, r: nat, w: nat, p: nat): seq<Fd>
    requires r < |fds| && w < |fds|
  {
    fds[r := Fd(true, PipeRead, READ_END, 0, 0, p)][w := Fd(true, PipeWrite, WRITE_END, 0, 0, p)]
  }

  /** A new pipe takes an unused pipe slot and two closed descriptors. */
  lemma NewPipeAgrees(fds: seq<Fd>, pipes: seq<Pipe>, r: nat, w: nat, p: nat)
    requires Agree(fds, pipes) && r < |fds| && w < |fds| && r != w && !fds[r].open && !fds[w].open
    requires p < PIPE_COUNT && !pipes[p].used
    ensures Agree(WithEnds(fds, r, w, p), pipes[p := FreshPipe()])
  {
    var fds' := WithEnds(fds, r, w, p);
    assert IsEnd(fds'[r], PipeRead, p) && IsEnd(fds'[w], PipeWrite, p);
    assert !IsOpenEnd(fds, PipeRead, p) && !IsOpenEnd(fds, PipeWrite, p);
    forall kind: FdKind, q: nat | IsPipeKind(kind) && q != p
      ensures IsOpenEnd(fds', kind, q) <==> IsOpenEnd(fds, kind, q)
    {
      if IsOpenEnd(fds, kind, q) {
        var k :| 0 <= k < |fds| && IsEnd(fds[k], kind, q);
        assert fds'[k] == fds[k];
      }
      if IsOpenEnd(fds', kind, q) {
        var k :| 0 <= k < |fds'| && IsEnd(fds'[k], kind, q);
        assert fds'[k] == fds[k];
      }
    }
    forall i, j | 0 <= i < j < |fds'| && fds'[i].open && fds'[j].open && IsPipeKind(fds'[i].kind)
      ensures fds'[i].kind != fds'[j].kind || fds'[i].index != fds'[j].index
    {
      EndElsewhere(fds, i, p);
      EndElsewhere(fds, j, p);
    }
  }

  lemma EndElsewhere(fds: seq<Fd>, i: nat, p: nat)
    requires i < |fds| && !IsOpenEnd(fds, PipeRead, p) && !IsOpenEnd(fds, PipeWrite, p)
    ensures fds[i].open && IsPipeKind(fds[i].kind) ==> fds[i].index != p
  {
    assert IsEnd(fds[i], fds[i].kind, p) ==> IsOpenEnd(fds, fds[i].kind, p);
  }

  /** What close does to the pipe of a closed end. */
  function EndClosed(p: Pipe, kind: FdKind): Pipe {
    var q := if kind.PipeRead? then p.(readOpen := false) else p.(writeOpen := false);
    if q.readOpen || q.writeOpen then q else EmptyPipe()
  }

  lemma CloseKeepsAgree(fds: seq<Fd>, pipes: seq<Pipe>, i: nat)
    requires Agree(fds, pipes) && i < |fds| && fds[i].open && IsPipeKind(fds[i].kind)
    ensures fds[i].index < PIPE_COUNT
    ensures Agree(fds[i := EMPTY_FD], pipes[fds[i].index := EndClosed(pipes[fds[i].index], fds[i].kind)])
  {
    AgreeGives(fds, pipes, i);
    var fds', gone := fds[i := EMPTY_FD], fds[i];
    forall kind: FdKind, p: nat | IsPipeKind(kind)
      ensures IsOpenEnd(fds', kind, p) <==> IsOpenEnd(fds, kind, p) && !(kind == gone.kind && p == gone.index)
    {
      if IsOpenEnd(fds, kind, p) {
        var k :| 0 <= k < |fds| && IsEnd(fds[k], kind, p);
        assert k != i ==> fds'[k] == fds[k];
      }
      if IsOpenEnd(fds', kind, p) {
        var k :| 0 <= k < |fds'| && IsEnd(fds'[k], kind, p);
        assert fds'[k] == fds[k] && k != i;
      }
    }
  }

  // ---- The table object ----

  datatype ReadResult = ReadFailed | Got(data: seq<byte>) | ReadsFile
  datatype WriteResult = WriteFailed | Wrote(count: nat) | WritesFile

  function SlotOf(fd: int): Option<nat> {
    if FD_BASE <= fd < FD_BASE + FD_COUNT then Some(fd - FD_BASE) else None
  }

  /** Everything a pipe accepted was read or is still held, in order. */
  ghost predicate Accounted(pipes: seq<Pipe>, accepted: seq<seq<byte>>, delivered: seq<seq<byte>>) {
    && |pipes| == |accepted| == |delivered| == PIPE_COUNT
    && forall p :: 0 <= p < PIPE_COUNT && pipes[p].used ==>
         PipeOk(pipes[p]) && accepted[p] == delivered[p] + Buffered(pipes[p])
  }

  lemma SameCount(pipes: seq<Pipe>, accepted: seq<seq<byte>>, delivered: seq<seq<byte>>)
    requires Accounted(pipes, accepted, delivered)
    ensures |accepted| == |delivered| == PIPE_COUNT
  {
  }

  /** Bytes that leave a pipe at its front are delivered. */
  lemma TakenAccounts(pipes: seq<Pipe>, accepted: seq<seq<byte>>, delivered: seq<seq<byte>>, p: nat, q: Pipe,
                      data: seq<byte>)
    requires Accounted(pipes, accepted, delivered) && p < PIPE_COUNT && pipes[p].used && PipeOk(q)
    requires data + Buffered(q) == Buffered(pipes[p])
    ensures Accounted(pipes[p := q], accepted, delivered[p := delivered[p] + data])
  {
    assert (delivered[p] + data) + Buffered(q) == delivered[p] + (data + Buffered(q));
  }

  /** The number of closed descriptors. */
  function Closed(fds: seq<Fd>): nat {
    if fds == [] then 0 else Closed(fds[..|fds| - 1]) + if fds[|fds| - 1].open then 0 else 1
  }

  lemma {:induction false} TwoClosed(fds: seq<Fd>, i: nat, j: nat)
    requires i < j < |fds| && !fds[i].open && !fds[j].open
    ensures Closed(fds) >= 2
  {
    var n := |fds| - 1;
    if j < n {
      TwoClosed(fds[..n], i, j);
    } else {
      OneClosed(fds[..n], i);
    }
  }

  lemma {:induction false} OneClosed(fds: seq<Fd>, i: nat)
    requires i < |fds| && !fds[i].open
    ensures Closed(fds) >= 1
  {
    if i < |fds| - 1 {
      OneClosed(fds[..|fds| - 1], i);
    }
  }

  lemma {:induction false} FewClosed(fds: seq<Fd>, i: nat)
    requires forall k :: 0 <= k < |fds| && k != i ==> fds[k].open
    ensures Closed(fds) <= 1
  {
    if fds != [] {
      var n := |fds| - 1;
      if i == n {
        NoneClosed(fds[..n]);
      } else {
        FewClosed(fds[..n], i);
      }
    }
  }

  lemma {:induction false} NoneClosed(fds: seq<Fd>)
    requires forall k :: 0 <= k < |fds| ==> fds[k].open
    ensures Closed(fds) == 0
  {
    if fds != [] {
      NoneClosed(fds[..|fds| - 1]);
    }
  }

  /** How many pipes are not in use. */
  function PipesLeft(pipes: seq<Pipe>): nat {
    if pipes == [] then 0 else PipesLeft(pipes[..|pipes| - 1]) + if pipes[|pipes| - 1].used then 0 else 1
  }

  lemma {:induction false} NoneLeft(pipes: seq<Pipe>)
    ensures PipesLeft(pipes) == 0 <==> forall p :: 0 <= p < |pipes| ==> pipes[p].used
  {
    if pipes != [] {
      NoneLeft(pipes[..|pipes| - 1]);
    }
  }

  lemma {:induction false} OneLess(pipes: seq<Pipe>, p: nat, q: Pipe)
    requires p < |pipes| && !pipes[p].used && q.used
    ensures PipesLeft(pipes[p := q]) + 1 == PipesLeft(pipes)
  {
    var n := |pipes| - 1;
    if p < n {
      OneLess(pipes[..n], p, q);
      assert pipes[p := q][..n] == pipes[..n][p := q];
    } else {
      assert pipes[p := q][..n] == pipes[..n];
    }
  }

  lemma {:induction false} OneOpened(fds: seq<Fd>, i: nat, fd: Fd)
    requires i < |fds| && !fds[i].open && fd.open
    ensures Closed(fds[i := fd]) + 1 == Closed(fds)
  {
    var n := |fds| - 1;
    if i < n {
      OneOpened(fds[..n], i, fd);
      assert fds[i := fd][..n] == fds[..n][i := fd];
    } else {
      assert fds[i := fd][..n] == fds[..n];
    }
  }

  class PipeTable {
    const fds: array<Fd>
    const pipes: array<Pipe>
    /** Bytes each pipe took and gave out since it was made. */
    ghost var accepted: seq<seq<byte>>
    ghost var delivered: seq<seq<byte>>

    constructor ()
      ensures Valid() && fresh(fds) && fresh(pipes) && forall i :: 0 <= i < FD_COUNT ==> fds[i] == EMPTY_FD
    {
      fds := new Fd[FD_COUNT](i => EMPTY_FD);
      pipes := new Pipe[PIPE_COUNT](i => EmptyPipe());
      accepted, delivered := seq(PIPE_COUNT, _ => []), seq(PIPE_COUNT, _ => []);
    }

    ghost predicate Valid()
      reads this, fds, pipes
    {
      && fds.Length == FD_COUNT && pipes.Length == PIPE_COUNT
      && Agree(fds[..], pipes[..])
      && Accounted(pipes[..], accepted, delivered)
    }

    /** First in, first out: what was read from a pipe is what it accepted first. */
    lemma Fifo(p: nat)
      requires Valid() && p < PIPE_COUNT && pipes[p].used
      ensures delivered[p] <= accepted[p] && PipeOk(pipes[p]) && |accepted[p]| == |delivered[p]| + |Buffered(pipes[p])|
    {
    }

    /** abi_pipe. */
    method MakePipe() returns (r: Option<(int, int)>)
      requires Valid()
      modifies this, fds, pipes
      ensures Valid()
      ensures r.None? <==> (forall p :: 0 <= p < PIPE_COUNT ==> old(pipes[p].used)) || Closed(old(fds[..])) < 2
      ensures r.None? ==>
        fds[..] == old(fds[..]) && pipes[..] == old(pipes[..]) && accepted == old(accepted)
        && delivered == old(delivered)
      ensures r.Some? ==> var (a, b) := r.value;
        exists i: nat, j: nat, p: nat ::
          && i < j < FD_COUNT && a == i + FD_BASE && b == j + FD_BASE && p < PIPE_COUNT
          && !old(fds[..])[i].open && !old(fds[..])[j].open && !old(pipes[..])[p].used
          && (forall k :: 0 <= k < j && k != i ==> old(fds[..])[k].open)
          && fds[..] == WithEnds(old(fds[..]), i, j, p) && pipes[..] == old(pipes[..])[p := FreshPipe()]
          && accepted == old(accepted)[p := []] && delivered == old(delivered)[p := []]
    {
      var p := 0;
      while p < PIPE_COUNT && pipes[p].used
        invariant 0 <= p <= PIPE_COUNT && forall k :: 0 <= k < p ==> pipes[k].used
      {
        p := p + 1;
      }
      if p == PIPE_COUNT {
        return None;
      }
      var i: nat, j: nat := FD_COUNT, FD_COUNT;
      for k := 0 to FD_COUNT
        invariant j == FD_COUNT
        invariant i == FD_COUNT || (i < k && !fds[i].open)
        invariant forall m :: 0 <= m < k && m != i ==> fds[m].open
      {
        if !fds[k].open {
          if i == FD_COUNT {
            i := k;
          } else {
            j := k;
            break;
          }
        }
      }
      if j == FD_COUNT {
        FewClosed(fds[..], i);
        return None;
      }
      TwoClosed(fds[..], i, j);
      NewPipeAgrees(fds[..], pipes[..], i, j, p);
      pipes[p] := FreshPipe();
      fds[i] := Fd(true, PipeRead, READ_END, 0, 0, p);
      fds[j] := Fd(true, PipeWrite, WRITE_END, 0, 0, p);
      accepted, delivered := accepted[p := []], delivered[p := []];
      assert fds[..] == WithEnds(old(fds[..]), i, j, p);
      assert pipes[..] == old(pipes[..])[p := FreshPipe()];
      return Some((i + FD_BASE, j + FD_BASE));
    }

    /** The part of abi_read for pipes: the oldest held bytes, as many as fit. */
    method Read(fd: int, n: nat) returns (r: ReadResult)
      requires Valid()
      modifies this, pipes
      ensures Valid() && accepted == old(accepted)
      ensures var s := SlotOf(fd);
        if s.None? || !fds[s.value].open || !fds[s.value].flags.read then r == ReadFailed
        else if fds[s.value].kind.PipeRead? then
          var p := fds[s.value].index;
          && p < PIPE_COUNT && PipeOk(old(pipes[..])[p]) && r.Got?
          && r.data == Buffered(old(pipes[..])[p])[..Min(n, |Buffered(old(pipes[..])[p])|)]
          && delivered == old(delivered)[p := old(delivered)[p] + r.data]
          && pipes[..] == old(pipes[..])[p := Popped(old(pipes[..])[p], |r.data|)]
        else r == if fds[s.value].kind.PipeWrite? || fds[s.value].kind.NoKind? then ReadFailed else ReadsFile
      ensures !r.Got? ==> pipes[..] == old(pipes[..]) && delivered == old(delivered)
    {
      hide Agree;
      var s := SlotOf(fd);
      if s.None? {
        return ReadFailed;
      }
      var handle := fds[s.value];
      if !handle.open || !handle.flags.read {
        return ReadFailed;
      }
      if !handle.kind.PipeRead? {
        return if handle.kind.PipeWrite? || handle.kind.NoKind? then ReadFailed else ReadsFile;
      }
      AgreeGives(fds[..], pipes[..], s.value);
      var data := TakeFrom(handle.index, n);
      r := Got(data);
    }

    /** The pipe's side of a read. */
    method TakeFrom(p: nat, n: nat) returns (data: seq<byte>)
      requires Valid() && p < PIPE_COUNT && PipeOk(pipes[p]) && pipes[p].used
      modifies this`delivered, pipes
      ensures Valid() && accepted == old(accepted)
      ensures data == Buffered(old(pipes[..])[p])[..Min(n, |Buffered(old(pipes[..])[p])|)]
      ensures delivered == old(delivered)[p := old(delivered)[p] + data]
      ensures pipes[..] == old(pipes[..])[p := Popped(old(pipes[..])[p], |data|)]
    {
      hide Agree, Accounted;
      SameCount(pipes[..], accepted, delivered);
      var pipe := pipes[p];
      ghost var was, before := pipe, delivered[p];
      var take := Min(n, pipe.len - pipe.readOffset);
      data := pipe.buffer[pipe.readOffset..pipe.readOffset + take];
      PopReads(was, take);
      PopTakesFront(was, take);
      DataKeepsAgree(fds[..], pipes[..], p, Popped(was, take));
      if take > 0 {
        pipe := pipe.(readOffset := pipe.readOffset + take);
        if pipe.readOffset == pipe.len {
          pipe := pipe.(readOffset := 0, len := 0);
        }
        pipes[p] := pipe;
      }
      assert pipes[p] == Popped(was, take);
      delivered := delivered[p := before + data];
      assert pipes[..] == old(pipes[..])[p := Popped(was, take)];
      TakenAccounts(old(pipes[..]), accepted, old(delivered), p, Popped(was, take), data);
    }

    /** The part of abi_write_fd for pipes: as much as the buffer has room for, nothing without a reader. */
    method Write(fd: int, data: seq<byte>) returns (r: WriteResult)
      requires Valid()
      modifies this, pipes
      ensures Valid() && delivered == old(delivered)
      ensures var s := SlotOf(fd);
        if s.None? || !fds[s.value].open || !fds[s.value].flags.write then r == WriteFailed
        else if fds[s.value].kind.PipeWrite? then
          var p := fds[s.value].index;
          && p < PIPE_COUNT && PipeOk(old(pipes[..])[p])
          && var pipe := old(pipes[..])[p]; var n := Room(pipe, |data|);
             if !pipe.readOpen || (n == 0 && data != []) then r == WriteFailed
             else r == Wrote(n) && accepted == old(accepted)[p := old(accepted)[p] + data[..n]]
                  && pipes[..] == old(pipes[..])[p := Pushed(pipe, data[..n])]
        else r == if fds[s.value].kind.PfsFile? then WritesFile else WriteFailed
      ensures !r.Wrote? ==> pipes[..] == old(pipes[..]) && accepted == old(accepted)
    {
      var s := SlotOf(fd);
      if s.None? {
        return WriteFailed;
      }
      var handle := fds[s.value];
      if !handle.open || !handle.flags.write {
        return WriteFailed;
      }
      if !handle.kind.PipeWrite? {
        return if handle.kind.PfsFile? then WritesFile else WriteFailed;
      }
      AgreeGives(fds[..], pipes[..], s.value);
      var p, pipe := handle.index, pipes[handle.index];
      if !pipe.readOpen {
        return WriteFailed;
      }
      var n := Min(|data|, PIPE_SIZE - pipe.len);
      if n == 0 && |data| != 0 {
        return WriteFailed;
      }
      PushAppends(pipe, data[..n]);
      DataKeepsAgree(fds[..], pipes[..], p, Pushed(pipe, data[..n]));
      ghost var was := accepted[p];
      pipes[p] :=
          pipe.(buffer := pipe.buffer[..pipe.len] + data[..n] + pipe.buffer[pipe.len + n..], len := pipe.len + n);
      accepted := accepted[p := accepted[p] + data[..n]];
      assert pipes[..] == old(pipes[..])[p := Pushed(pipe, data[..n])];
      assert was + data[..n] == delivered[p] + (Buffered(pipe) + data[..n]);
      return Wrote(n);
    }

    /** abi_close for a descriptor from the table; closing the second end frees the pipe. */
    method Close(fd: int) returns (status: int)
      requires Valid()
      modifies fds, pipes
      ensures Valid()
      ensures var s := SlotOf(fd);
        if s.None? || !old(fds[..])[s.value].open then status == -1 && fds[..] == old(fds[..])
            && pipes[..] == old(pipes[..])
        else
          && status == 0 && fds[..] == old(fds[..])[s.value := EMPTY_FD]
          && var gone := old(fds[..])[s.value];
             if IsPipeKind(gone.kind) then
               gone.index < PIPE_COUNT
                   && pipes[..] == old(pipes[..])[gone.index := EndClosed(old(pipes[..])[gone.index], gone.kind)]
             else pipes[..] == old(pipes[..])
    {
      var s := SlotOf(fd);
      if s.None? || !fds[s.value].open {
        return -1;
      }
      var gone := fds[s.value];
      if IsPipeKind(gone.kind) {
        CloseKeepsAgree(fds[..], pipes[..], s.value);
        var pipe := pipes[gone.index];
        if gone.kind.PipeRead? {
          pipe := pipe.(readOpen := false);
          pipes[gone.index] := if !pipe.writeOpen then EmptyPipe() else pipe;
        } else {
          pipe := pipe.(writeOpen := false);
          pipes[gone.index] := if !pipe.readOpen then EmptyPipe() else pipe;
        }
      } else {
        OtherKeepsAgree(fds[..], pipes[..], s.value, EMPTY_FD);
      }
      fds[s.value] := EMPTY_FD;
      assert fds[..] == old(fds[..])[s.value := EMPTY_FD];
      return 0;
    }

    /** Opening a file puts a descriptor of another kind into a closed slot. */
    method Occupy(slot: nat, handle: Fd)
      requires Valid() && slot < FD_COUNT && !fds[slot].open && handle.open && !IsPipeKind(handle.kind)
      modifies fds
      ensures Valid() && fds[..] == old(fds[..])[slot := handle]
    {
      OtherKeepsAgree(fds[..], pipes[..], slot, handle);
      fds[slot] := handle;
    }

    /** app_close_all_fds. */
    method CloseAll()
      requires Valid()
      modifies fds, pipes
      ensures Valid() && (forall i :: 0 <= i < FD_COUNT ==> !fds[i].open)
      ensures (forall p :: 0 <= p < PIPE_COUNT ==> !pipes[p].used)
    {
      for i := 0 to FD_COUNT
        invariant forall k :: 0 <= k < i ==> fds[k] == EMPTY_FD
      {
        fds[i] := EMPTY_FD;
      }
      for p := 0 to PIPE_COUNT
        invariant forall k :: 0 <= k < FD_COUNT ==> fds[k] == EMPTY_FD
        invariant forall k :: 0 <= k < p ==> pipes[k] == EmptyPipe()
      {
        pipes[p] := EmptyPipe();
      }
    }
  }
}
