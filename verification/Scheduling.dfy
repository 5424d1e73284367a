/** The process table and the scheduler as values: what each step does, and what every run keeps. */
module Scheduling {

  const PROCESS_COUNT := 16
  const PID_SPACE := 0x1_0000_0000

  datatype State = Empty | Ready | Running | Exited | Failed | Blocked | Loading

  datatype Target = NoTarget | OnPid(pid: nat) | AnyChild

  datatype Process = Process(pid: nat, parent: nat, waited: bool, state: State, code: int, target: Target)

  /** Where a task resumes: in program code, or inside one of the two waiting loops. */
  datatype Where = InProgram | InWait(pid: nat) | InWaitAny

  /** Slot PROCESS_COUNT stands for the console, which has no entry in the table. */
  datatype Sys = Sys(table: seq<Process>, current: nat, nextPid: nat, at: seq<Where>)

  const CONSOLE := PROCESS_COUNT

  predicate Shape(s: Sys) {
    |s.table| == PROCESS_COUNT && s.current <= CONSOLE && |s.at| == PROCESS_COUNT + 1
  }

  predicate Dead(p: Process) {
    p.state.Exited? || p.state.Failed?
  }

  predicate Live(p: Process) {
    p.state.Ready? || p.state.Running? || p.state.Blocked?
  }

  function PidOf(s: Sys, i: nat): nat
    requires Shape(s) && i <= CONSOLE
  {
    if i == CONSOLE then 0 else s.table[i].pid
  }

  // ---- Searches ----

  /** The first slot from `i` on that satisfies `ok`, or the length. */
  function First(table: seq<Process>, ok: Process -> bool, i: nat): (r: nat)
    requires i <= |table|
    ensures i <= r <= |table|
    ensures r < |table| ==> ok(table[r])
    ensures forall k :: i <= k < r ==> !ok(table[k])
    decreases |table| - i
  {
    if i == |table| || ok(table[i]) then i else First(table, ok, i + 1)
  }

  /** pick_next_ready, falling back to the console. */
  function NextReady(table: seq<Process>): (r: nat)
    ensures r <= |table| && (r < |table| ==> table[r].state.Ready?)
    ensures forall k :: 0 <= k < r ==> !table[k].state.Ready?
  {
    First(table, (p: Process) => p.state.Ready?, 0)
  }

  /** A slot for a new process: the first empty one, or, when there is none, the first whose process was reported. */
  function FreeSlot(table: seq<Process>): (r: nat)
    ensures r <= |table| && (r < |table| ==> table[r].state.Empty? || (table[r].waited && Dead(table[r])))
    ensures r < |table| && !table[r].state.Empty? ==> forall k :: 0 <= k < |table| ==> !table[k].state.Empty?
    ensures forall k :: 0 <= k < r ==>
      !table[k].state.Empty? && (r == |table| || !table[r].state.Empty? ==> !(table[k].waited && Dead(table[k])))
  {
    var i := First(table, (p: Process) => p.state.Empty?, 0);
    if i < |table| then i else First(table, (p: Process) => p.waited && Dead(p), 0)
  }

  // ---- Steps ----

  function NextPid(pid: nat): nat {
    var n := (pid + 1) % PID_SPACE;
    if n == 0 then 1 else n
  }

  function SwitchTo(s: Sys, next: nat): (r: Sys)
    requires Shape(s) && next <= CONSOLE
    ensures Shape(r)
  {
    var table := if next < CONSOLE then s.table[next := s.table[next].(state := Running)] else s.table;
    Sys(table, next, s.nextPid, s.at)
  }

  function WokenOne(p: Process, pid: nat): Process {
    if p.state.Blocked? && (p.target == OnPid(pid) || p.target == AnyChild)
    then p.(target := NoTarget, state := Ready) else p
  }

  /** wake_waiters_for. */
  function Woken(table: seq<Process>, pid: nat): (r: seq<Process>)
    ensures |r| == |table| && forall i :: 0 <= i < |r| ==> r[i] == WokenOne(table[i], pid)
  {
    seq(|table|, i requires 0 <= i < |table| => WokenOne(table[i], pid))
  }

  /** A new process: it becomes ready, or stays behind as failed. */
  function Spawned(s: Sys, prepared: bool): (Sys, int)
    requires Shape(s)
  {
    var i := FreeSlot(s.table);
    if i == |s.table| then (s.(nextPid := NextPid(s.nextPid)), -1)
    else
      var p := Process(s.nextPid, PidOf(s, s.current), false, if prepared then Ready else Failed, if prepared then 0
          else -1, NoTarget);
      (Sys(s.table[i := p], s.current, NextPid(s.nextPid), s.at[i := InProgram]), if prepared then s.nextPid else -1)
  }

  function ExitStep(s: Sys, code: int): (r: Sys)
    requires Shape(s) && s.current < CONSOLE
    ensures Shape(r)
  {
    var dead := s.table[s.current := s.table[s.current].(state := Exited, code := code)];
    var woken := s.(table := Woken(dead, s.table[s.current].pid));
    SwitchTo(woken, NextReady(woken.table))
  }

  /** maybe_preempt. */
  function TickStep(s: Sys): (r: Sys)
    requires Shape(s)
    ensures Shape(r)
  {
    var next := NextReady(s.table);
    if (s.current < CONSOLE && !s.table[s.current].state.Running?) || next == CONSOLE then s
    else
      var yielded := if s.current < CONSOLE then s.(table := s.table[s.current := s.table[s.current].(state := Ready)])
          else s;
      SwitchTo(yielded, next)
  }

  datatype Report = NoReport | Report(pid: nat, state: State, code: int)

  predicate Zombie(p: Process) {
    !p.waited && Dead(p)
  }

  /** Marks slot `i` reported and says what it was. */
  function Reaped(s: Sys, i: nat): (r: (Sys, Report))
    requires Shape(s) && i < CONSOLE
    ensures Shape(r.0)
  {
    var p := s.table[i];
    (s.(table := s.table[i := p.(waited := true)], at := s.at[s.current := InProgram]), Report(p.pid, p.state, p.code))
  }

  function Block(s: Sys, target: Target, at: Where): (r: Sys)
    requires Shape(s)
    ensures Shape(r)
  {
    var table :=
        if s.current < CONSOLE then s.table[s.current := s.table[s.current].(target := target, state := Blocked)]
        else s.table;
    s.(table := table, at := s.at[s.current := at])
  }

  /** One round of wait_for_pid_blocking. */
  function WaitStep(s: Sys, pid: nat): (r: (Sys, Report))
    requires Shape(s)
    ensures Shape(r.0)
  {
    var z := First(s.table, (p: Process) => p.pid == pid && Zombie(p), 0);
    if z < |s.table| then Reaped(s, z)
    else if First(s.table, (p: Process) => p.pid == pid && !p.state.Empty?, 0) == |s.table| then
      (s.(at := s.at[s.current := InProgram]), NoReport)
    else
      var b := Block(s, OnPid(pid), InWait(pid));
      (SwitchTo(b, NextReady(b.table)), NoReport)
  }

  /** One round of wait_for_any_child_blocking. */
  function WaitAnyStep(s: Sys): (r: (Sys, Report))
    requires Shape(s)
    ensures Shape(r.0)
  {
    var me := PidOf(s, s.current);
    var z := First(s.table, (p: Process) => p.parent == me && Zombie(p), 0);
    if z < |s.table| then Reaped(s, z)
    else if First(s.table, (p: Process) => p.parent == me && Live(p), 0) == |s.table| then
      (s.(at := s.at[s.current := InProgram]), NoReport)
    else
      var b := Block(s, AnyChild, InWaitAny);
      (SwitchTo(b, NextReady(b.table)), NoReport)
  }

  /** The console's `wait <pid>` command: any ended process that was not reported yet, without blocking. */
  function CollectStep(s: Sys, pid: nat): (r: (Sys, Report))
    requires Shape(s)
    ensures Shape(r.0)
  {
    var z := First(s.table, (p: Process) => p.pid == pid && Zombie(p), 0);
    if z < |s.table| then Reaped(s, z) else (s, NoReport)
  }

  // ---- The invariant ----

  /** `c` is a child of the task in slot `i` that was not reported yet. */
  predicate IsChild(s: Sys, i: nat, c: Process)
    requires Shape(s) && i <= CONSOLE
  {
    !c.state.Empty? && c.parent == PidOf(s, i) && !c.waited
  }

  /** Slot `j` holds the process that the task in slot `i` waits for. */
  predicate Awaited(s: Sys, i: nat, pid: nat, j: nat)
    requires Shape(s) && i <= CONSOLE
  {
    j < CONSOLE && s.table[j].pid == pid && IsChild(s, i, s.table[j])
  }

  ghost predicate HasChild(s: Sys, i: nat, pid: nat)
    requires Shape(s) && i <= CONSOLE
  {
    exists j: nat :: Awaited(s, i, pid, j)
  }

  ghost predicate HasLiveChild(s: Sys, i: nat)
    requires Shape(s) && i <= CONSOLE
  {
    exists j: nat :: j < CONSOLE && IsChild(s, i, s.table[j]) && Live(s.table[j])
  }

  ghost predicate HasLive(s: Sys, i: nat, pid: nat)
    requires Shape(s) && i <= CONSOLE
  {
    exists j: nat :: Awaited(s, i, pid, j) && Live(s.table[j])
  }

  /** Numbers: below the next one, told apart, above the parent's. */
  predicate PidsOk(s: Sys)
    requires Shape(s)
  {
    && 1 <= s.nextPid
    && (forall i :: 0 <= i < CONSOLE && !s.table[i].state.Empty? ==>
         1 <= s.table[i].pid < s.nextPid && s.table[i].parent < s.table[i].pid)
    && (forall i, j :: 0 <= i < j < CONSOLE && !s.table[i].state.Empty? && !s.table[j].state.Empty? ==>
         s.table[i].pid != s.table[j].pid)
  }

  /** Only the current slot runs, nobody is half set up. */
  predicate StatesOk(s: Sys)
    requires Shape(s)
  {
    && (forall i :: 0 <= i < CONSOLE ==> (s.table[i].state.Running? <==> i == s.current) && !s.table[i].state.Loading?)
    && (forall i :: 0 <= i < CONSOLE && Live(s.table[i]) ==> !s.table[i].waited)
  }

  /** A blocked process is in the loop its target says, and what it waits for is alive. */
  ghost predicate BlockedOk(s: Sys, i: nat)
    requires Shape(s) && i < CONSOLE
  {
    var p := s.table[i];
    p.state.Blocked? ==>
      match p.target
      case NoTarget => false
      case OnPid(pid) => s.at[i] == InWait(pid) && HasLive(s, i, pid)
      case AnyChild => s.at[i] == InWaitAny && HasLiveChild(s, i)
  }

  /** Whoever is inside a wait for a pid still has that child to collect. */
  ghost predicate WaitOk(s: Sys, i: nat)
    requires Shape(s) && i <= CONSOLE
  {
    s.at[i].InWait? && (i == CONSOLE || Live(s.table[i])) ==> HasChild(s, i, s.at[i].pid)
  }

  /** While the console runs no process is inside a wait. */
  predicate ConsoleAlone(s: Sys)
    requires Shape(s)
  {
    s.current == CONSOLE ==> forall i :: 0 <= i < CONSOLE && Live(s.table[i]) ==> s.at[i].InProgram?
  }

  /** What holds whatever numbers the waits name. */
  ghost predicate Basic(s: Sys) {
    Shape(s) && PidsOk(s) && StatesOk(s)
  }

  ghost predicate Inv(s: Sys) {
    && Basic(s) && ConsoleAlone(s)
    && (forall i: nat :: i < CONSOLE ==> BlockedOk(s, i))
    && (forall i: nat :: i <= CONSOLE ==> WaitOk(s, i))
  }

  const START :=
      Sys(seq(PROCESS_COUNT, _ => Process(0, 0, false, Empty, 0, NoTarget)), CONSOLE, 1,
      seq(PROCESS_COUNT + 1, _ => InProgram))

  lemma StartInv()
    ensures Inv(START)
  {
  }

  // ---- Deadlock freedom ----

  /** A blocked process waits for a live one with a larger number. */
  lemma WaitsForLarger(s: Sys, i: nat) returns (j: nat)
    requires Inv(s) && i < CONSOLE && s.table[i].state.Blocked?
    ensures j < CONSOLE && Live(s.table[j]) && s.table[j].pid > s.table[i].pid
  {
    assert BlockedOk(s, i);
    match s.table[i].target
    case OnPid(pid) => j :| Awaited(s, i, pid, j) && Live(s.table[j]);
    case AnyChild => j :| j < CONSOLE && IsChild(s, i, s.table[j]) && Live(s.table[j]);
  }

  /** As long as some process is blocked, some process can run. */
  lemma DeadlockFree(s: Sys, i: nat) returns (j: nat)
    requires Inv(s) && i < CONSOLE && s.table[i].state.Blocked?
    ensures j < CONSOLE && (s.table[j].state.Ready? || s.table[j].state.Running?)
    decreases s.nextPid - s.table[i].pid
  {
    j := WaitsForLarger(s, i);
    if s.table[j].state.Blocked? {
      j := DeadlockFree(s, j);
    }
  }

  // ---- Steps keep the invariant ----

  /** A change that keeps every process's number, parent and, while it can still be waited for, its place. */
  ghost predicate Persists(p: Process, q: Process) {
    q.pid == p.pid && q.parent == p.parent && q.waited == p.waited && q.state.Empty? == p.state.Empty?
  }

  /** What a waiting task waits for is found again after a step that leaves the awaited slots alone. */
  lemma AwaitedKept(s: Sys, s': Sys, i: nat)
    requires Shape(s) && Shape(s') && i <= CONSOLE && PidOf(s', i) == PidOf(s, i)
    requires forall j :: 0 <= j < CONSOLE && !s.table[j].state.Empty? && !s.table[j].waited ==>
      Persists(s.table[j], s'.table[j])
    ensures forall pid :: HasChild(s, i, pid) ==> HasChild(s', i, pid)
    ensures (forall j :: 0 <= j < CONSOLE && !s.table[j].waited && Live(s.table[j]) ==> Live(s'.table[j])) ==>
      (forall pid :: HasLive(s, i, pid) ==> HasLive(s', i, pid)) && (HasLiveChild(s, i) ==> HasLiveChild(s', i))
  {
    forall pid | HasChild(s, i, pid) ensures HasChild(s', i, pid) {
      var j: nat :| Awaited(s, i, pid, j);
      assert Awaited(s', i, pid, j);
    }
    if forall j :: 0 <= j < CONSOLE && !s.table[j].waited && Live(s.table[j]) ==> Live(s'.table[j]) {
      forall pid | HasLive(s, i, pid) ensures HasLive(s', i, pid) {
        var j: nat :| Awaited(s, i, pid, j) && Live(s.table[j]);
        assert Awaited(s', i, pid, j);
      }
      if HasLiveChild(s, i) {
        var j: nat :| j < CONSOLE && IsChild(s, i, s.table[j]) && Live(s.table[j]);
        assert IsChild(s', i, s'.table[j]);
      }
    }
  }

  lemma SpawnWaits(s: Sys, prepared: bool, i: nat)
    requires Inv(s) && s.at[s.current].InProgram? && i <= CONSOLE && i != FreeSlot(s.table)
    ensures var s' := Spawned(s, prepared).0; Shape(s') && WaitOk(s', i) && (i < CONSOLE ==> BlockedOk(s', i))
  {
    var s' := Spawned(s, prepared).0;
    assert WaitOk(s, i) && (i < CONSOLE ==> BlockedOk(s, i));
    AwaitedKept(s, s', i);
  }

  lemma NewPid(s: Sys, i: nat, p: Process)
    requires Shape(s) && PidsOk(s) && i < CONSOLE && p.pid == s.nextPid && p.parent < s.nextPid
    ensures PidsOk(s.(table := s.table[i := p], nextPid := s.nextPid + 1))
  {
  }

  lemma SpawnStates(s: Sys, prepared: bool)
    requires Shape(s) && PidsOk(s) && StatesOk(s) && s.nextPid + 1 < PID_SPACE
    ensures var s' := Spawned(s, prepared).0; Shape(s') && PidsOk(s') && StatesOk(s')
  {
    var i := FreeSlot(s.table);
    assert PidOf(s, s.current) < s.nextPid;
    if i < |s.table| {
      NewPid(s, i, Spawned(s, prepared).0.table[i]);
    }
  }

  lemma SpawnAlone(s: Sys, prepared: bool)
    requires Shape(s) && ConsoleAlone(s)
    ensures var s' := Spawned(s, prepared).0; Shape(s') && ConsoleAlone(s')
  {
  }

  lemma SpawnKeeps(s: Sys, prepared: bool)
    requires Inv(s) && s.at[s.current].InProgram? && s.nextPid + 1 < PID_SPACE
    ensures Inv(Spawned(s, prepared).0)
  {
    hide Spawned, WaitOk, BlockedOk, PidsOk, StatesOk, ConsoleAlone;
    SpawnStates(s, prepared);
    SpawnAlone(s, prepared);
    var s' := Spawned(s, prepared).0;
    forall i: nat | i <= CONSOLE ensures WaitOk(s', i) && (i < CONSOLE ==> BlockedOk(s', i)) {
      if i != FreeSlot(s.table) {
        SpawnWaits(s, prepared, i);
      } else {
        NewIsFree(s, prepared, i);
      }
    }
  }

  lemma NewIsFree(s: Sys, prepared: bool, i: nat)
    requires Inv(s) && i <= CONSOLE && i == FreeSlot(s.table)
    ensures var s' := Spawned(s, prepared).0; Shape(s') && WaitOk(s', i) && (i < CONSOLE ==> BlockedOk(s', i))
  {
    assert WaitOk(s, i);
    if i == CONSOLE {
      AwaitedKept(s, Spawned(s, prepared).0, i);
    }
  }

  /** The step of handing over: nothing runs, then the chosen slot does. */
  ghost predicate Yielded(s: Sys) {
    && Shape(s) && PidsOk(s)
    && (forall i :: 0 <= i < CONSOLE ==> !s.table[i].state.Running? && !s.table[i].state.Loading?)
    && (forall i :: 0 <= i < CONSOLE && Live(s.table[i]) ==> !s.table[i].waited)
    && (forall i: nat :: i < CONSOLE ==> BlockedOk(s, i))
    && (forall i: nat :: i <= CONSOLE ==> WaitOk(s, i))
  }

  lemma SwitchKeeps(s: Sys)
    requires Yielded(s)
    ensures Inv(SwitchTo(s, NextReady(s.table)))
  {
    var s' := SwitchTo(s, NextReady(s.table));
    forall i: nat | i <= CONSOLE ensures WaitOk(s', i) && (i < CONSOLE ==> BlockedOk(s', i)) {
      assert WaitOk(s, i) && (i < CONSOLE ==> BlockedOk(s, i));
      AwaitedKept(s, s', i);
    }
    if i: nat :| i < CONSOLE && s.table[i].state.Blocked? {
      var j := SomeoneReady(s, i);
    }
  }

  /** If nobody is running and somebody is blocked, somebody is ready. */
  lemma SomeoneReady(s: Sys, i: nat) returns (j: nat)
    requires Yielded(s) && i < CONSOLE && s.table[i].state.Blocked?
    ensures j < CONSOLE && s.table[j].state.Ready?
    decreases s.nextPid - s.table[i].pid
  {
    assert BlockedOk(s, i);
    match s.table[i].target {
      case OnPid(pid) => j :| Awaited(s, i, pid, j) && Live(s.table[j]);
      case AnyChild => j :| j < CONSOLE && IsChild(s, i, s.table[j]) && Live(s.table[j]);
    }
    if s.table[j].state.Blocked? {
      j := SomeoneReady(s, j);
    }
  }

  /** The state between an exit and the switch away from it. */
  function Buried(s: Sys, code: int): (r: Sys)
    requires Shape(s) && s.current < CONSOLE
    ensures Shape(r)
  {
    s.(table := Woken(s.table[s.current := s.table[s.current].(state := Exited, code := code)], s.table[s.current].pid))
  }

  lemma ExitYields(s: Sys, code: int)
    requires Inv(s) && s.current < CONSOLE && s.at[s.current].InProgram?
    ensures Yielded(Buried(s, code))
  {
    var s' := Buried(s, code);
    var gone := s.table[s.current].pid;
    forall i: nat | i <= CONSOLE ensures WaitOk(s', i) {
      assert WaitOk(s, i);
      AwaitedKept(s, s', i);
    }
    forall i: nat | i < CONSOLE ensures BlockedOk(s', i) {
      assert BlockedOk(s, i);
      if s'.table[i].state.Blocked? {
        var pid := s.table[i].target.pid;
        var j: nat :| Awaited(s, i, pid, j) && Live(s.table[j]);
        assert Awaited(s', i, pid, j) && Live(s'.table[j]);
      }
    }
  }

  lemma ExitKeeps(s: Sys, code: int)
    requires Inv(s) && s.current < CONSOLE && s.at[s.current].InProgram?
    ensures Inv(ExitStep(s, code))
    ensures ExitStep(s, code).current == CONSOLE ==>
      forall i :: 0 <= i < CONSOLE ==> !ExitStep(s, code).table[i].state.Blocked?
  {
    ExitYields(s, code);
    SwitchKeeps(Buried(s, code));
    if i: nat :| i < CONSOLE && Buried(s, code).table[i].state.Blocked? {
      var j := SomeoneReady(Buried(s, code), i);
    }
  }

  lemma TickKeeps(s: Sys)
    requires Inv(s) && s.at[s.current].InProgram?
    ensures Inv(TickStep(s))
  {
    var next := NextReady(s.table);
    if s.current < CONSOLE && next < CONSOLE {
      var y := s.(table := s.table[s.current := s.table[s.current].(state := Ready)]);
      forall i: nat | i <= CONSOLE ensures WaitOk(y, i) && (i < CONSOLE ==> BlockedOk(y, i)) {
        assert WaitOk(s, i) && (i < CONSOLE ==> BlockedOk(s, i));
        AwaitedKept(s, y, i);
      }
      var s' := SwitchTo(y, next);
      forall i: nat | i <= CONSOLE ensures WaitOk(s', i) && (i < CONSOLE ==> BlockedOk(s', i)) {
        assert WaitOk(y, i) && (i < CONSOLE ==> BlockedOk(y, i));
        AwaitedKept(y, s', i);
      }
    } else if next < CONSOLE {
      SwitchKeeps(s);
    }
  }

  // ---- Waiting ----

  /** A wait names an unreported child of the caller. */
  ghost predicate MayWait(s: Sys, pid: nat) {
    Inv(s) && (s.at[s.current].InProgram? || s.at[s.current] == InWait(pid)) && HasChild(s, s.current, pid)
  }

  ghost predicate MayWaitAny(s: Sys) {
    Inv(s) && s.current < CONSOLE && (s.at[s.current].InProgram? || s.at[s.current].InWaitAny?)
  }

  /** Tasks that are not finished have different numbers. */
  lemma NumbersDiffer(s: Sys, i: nat, j: nat)
    requires Inv(s) && i <= CONSOLE && j <= CONSOLE && i != j
    requires i < CONSOLE ==> Live(s.table[i])
    requires j < CONSOLE ==> Live(s.table[j])
    ensures PidOf(s, i) != PidOf(s, j)
  {
  }

  lemma ReapWaits(s: Sys, z: nat, i: nat)
    requires Inv(s) && z < CONSOLE && Zombie(s.table[z]) && s.table[z].parent == PidOf(s, s.current) && i <= CONSOLE
    ensures WaitOk(Reaped(s, z).0, i) && (i < CONSOLE ==> BlockedOk(Reaped(s, z).0, i))
  {
    var s' := Reaped(s, z).0;
    assert WaitOk(s, i) && (i < CONSOLE ==> BlockedOk(s, i));
    if i != s.current && s.at[i].InWait? && (i == CONSOLE || Live(s.table[i])) {
      var j: nat :| Awaited(s, i, s.at[i].pid, j);
      NumbersDiffer(s, i, s.current);
      assert Awaited(s', i, s.at[i].pid, j);
    }
    if i < CONSOLE && s.table[i].state.Blocked? {
      StillLive(s, s', z, i);
    }
  }

  lemma StillLive(s: Sys, s': Sys, z: nat, i: nat)
    requires Shape(s) && z < CONSOLE && Zombie(s.table[z]) && s' == Reaped(s, z).0 && i <= CONSOLE
    ensures forall pid :: HasLive(s, i, pid) ==> HasLive(s', i, pid)
    ensures HasLiveChild(s, i) ==> HasLiveChild(s', i)
  {
    forall pid | HasLive(s, i, pid) ensures HasLive(s', i, pid) {
      var j: nat :| Awaited(s, i, pid, j) && Live(s.table[j]);
      assert Awaited(s', i, pid, j);
    }
    if HasLiveChild(s, i) {
      var j: nat :| j < CONSOLE && IsChild(s, i, s.table[j]) && Live(s.table[j]);
      assert IsChild(s', i, s'.table[j]);
    }
  }

  lemma ReapKeeps(s: Sys, z: nat)
    requires Inv(s) && z < CONSOLE && Zombie(s.table[z]) && s.table[z].parent == PidOf(s, s.current)
    ensures Inv(Reaped(s, z).0)
  {
    forall i: nat | i <= CONSOLE ensures WaitOk(Reaped(s, z).0, i) && (i < CONSOLE ==> BlockedOk(Reaped(s, z).0, i)) {
      ReapWaits(s, z, i);
    }
  }

  /** Blocking on something alive leaves a state from which the next task can be chosen. */
  lemma BlockYields(s: Sys, target: Target, at: Where)
    requires Inv(s) && !target.NoTarget?
    requires target.OnPid? ==> at == InWait(target.pid) && HasLive(s, s.current, target.pid)
    requires target.AnyChild? ==> at == InWaitAny && s.current < CONSOLE && HasLiveChild(s, s.current)
    ensures Yielded(Block(s, target, at))
  {
    var b := Block(s, target, at);
    forall i: nat | i <= CONSOLE ensures WaitOk(b, i) && (i < CONSOLE ==> BlockedOk(b, i)) {
      assert WaitOk(s, i) && (i < CONSOLE ==> BlockedOk(s, i));
      AwaitedKept(s, b, i);
      LiveHasChild(s, i, if target.OnPid? then target.pid else 0);
    }
  }

  lemma LiveHasChild(s: Sys, i: nat, pid: nat)
    requires Shape(s) && i <= CONSOLE
    ensures HasLive(s, i, pid) ==> HasChild(s, i, pid)
  {
  }

  /** After a task blocks, some process is chosen, never the console. */
  lemma BlockThenRun(s: Sys, target: Target, at: Where)
    requires Inv(s) && !target.NoTarget?
    requires target.OnPid? ==> at == InWait(target.pid) && HasLive(s, s.current, target.pid)
    requires target.AnyChild? ==> at == InWaitAny && s.current < CONSOLE && HasLiveChild(s, s.current)
    ensures var b := Block(s, target, at); Inv(SwitchTo(b, NextReady(b.table))) && NextReady(b.table) < CONSOLE
  {
    var b := Block(s, target, at);
    BlockYields(s, target, at);
    SwitchKeeps(b);
    if s.current < CONSOLE {
      var j := SomeoneReady(b, s.current);
    } else {
      var j: nat :| Awaited(s, CONSOLE, target.pid, j) && Live(s.table[j]);
      if s.table[j].state.Blocked? {
        var k := SomeoneReady(b, j);
      }
    }
  }

  lemma OnlyOneWith(s: Sys, pid: nat, j: nat, k: nat)
    requires Shape(s) && PidsOk(s) && j < CONSOLE && k < CONSOLE && s.table[j].pid == pid && s.table[k].pid == pid
    requires !s.table[j].state.Empty? && !s.table[k].state.Empty?
    ensures j == k
  {
  }

  /** A round of wait reports the child, or blocks and lets another process run. */
  lemma WaitKeeps(s: Sys, pid: nat)
    requires MayWait(s, pid)
    ensures var (s', r) := WaitStep(s, pid);
      && Inv(s')
      && (r.NoReport? ==> s'.current < CONSOLE && s'.at[s.current] == InWait(pid))
      && (r.Report? ==> r.pid == pid && s'.current == s.current)
  {
    var j: nat :| Awaited(s, s.current, pid, j);
    var z := First(s.table, (p: Process) => p.pid == pid && Zombie(p), 0);
    if z < |s.table| {
      OnlyOneWith(s, pid, j, z);
      ReapKeeps(s, z);
    } else {
      assert !Zombie(s.table[j]) && !s.table[j].state.Loading?;
      assert HasLive(s, s.current, pid);
      BlockThenRun(s, OnPid(pid), InWait(pid));
    }
  }

  /** At the prompt nobody waits for what the console collects. */
  lemma CollectKeeps(s: Sys, pid: nat)
    requires Inv(s) && s.current == CONSOLE && s.at[CONSOLE].InProgram?
    ensures Inv(CollectStep(s, pid).0)
  {
    var s' := CollectStep(s, pid).0;
    forall i: nat | i <= CONSOLE ensures WaitOk(s', i) && (i < CONSOLE ==> BlockedOk(s', i)) {
      assert WaitOk(s, i) && (i < CONSOLE ==> BlockedOk(s, i));
    }
  }

  /** A round of wait_any reports a child, finds there is none, or blocks and lets another process run. */
  lemma WaitAnyKeeps(s: Sys)
    requires MayWaitAny(s)
    ensures var (s', r) := WaitAnyStep(s);
      && Inv(s')
      && (r.Report? ==> s'.current == s.current)
      && (r.NoReport? && HasLiveChild(s, s.current) ==> s'.current < CONSOLE && s'.at[s.current] == InWaitAny)
  {
    var me := PidOf(s, s.current);
    var z := First(s.table, (p: Process) => p.parent == me && Zombie(p), 0);
    var c := First(s.table, (p: Process) => p.parent == me && Live(p), 0);
    if z < |s.table| {
      ReapKeeps(s, z);
    } else if c < |s.table| {
      assert IsChild(s, s.current, s.table[c]);
      BlockThenRun(s, AnyChild, InWaitAny);
    } else {
      NoWait(s);
    }
  }

  lemma NoWait(s: Sys)
    requires Inv(s)
    ensures Inv(s.(at := s.at[s.current := InProgram]))
  {
    var s' := s.(at := s.at[s.current := InProgram]);
    forall i: nat | i <= CONSOLE ensures WaitOk(s', i) && (i < CONSOLE ==> BlockedOk(s', i)) {
      assert WaitOk(s, i) && (i < CONSOLE ==> BlockedOk(s, i));
      AwaitedKept(s, s', i);
    }
  }
}
