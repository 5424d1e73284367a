/** The process table updated in place, each operation doing exactly its step. */
module Scheduler {
  import opened Scheduling
  import opened SchedulerRuns

  class Kernel {
    const table: array<Process>
    var current: nat
    var nextPid: nat
    /** Where each suspended task resumes: its saved context. */
    ghost var at: seq<Where>

    constructor ()
      ensures Valid() && Now() == START && fresh(table)
    {
      table := new Process[PROCESS_COUNT](i => Process(0, 0, false, Empty, 0, NoTarget));
      current, nextPid := CONSOLE, 1;
      at := seq(PROCESS_COUNT + 1, _ => InProgram);
    }

    ghost predicate Valid()
      reads this
    {
      table.Length == PROCESS_COUNT && current <= CONSOLE && nextPid < PID_SPACE && |at| == PROCESS_COUNT + 1
    }

    ghost function Now(): (s: Sys)
      requires Valid()
      reads this, table
      ensures Shape(s)
    {
      Sys(table[..], current, nextPid, at)
    }

    method PickNextReady() returns (next: nat)
      requires Valid()
      ensures next == NextReady(table[..])
    {
      var ready := (p: Process) => p.state.Ready?;
      for i := 0 to PROCESS_COUNT
        invariant First(table[..], ready, 0) == First(table[..], ready, i)
      {
        if table[i].state.Ready? {
          return i;
        }
      }
      return CONSOLE;
    }

    /** switch_to: the saved contexts stay as they are. */
    method SwitchTo(next: nat)
      requires Valid() && next <= CONSOLE
      modifies this`current, table
      ensures Valid() && Now() == Scheduling.SwitchTo(old(Now()), next)
    {
      if next < PROCESS_COUNT {
        table[next] := table[next].(state := Running);
      }
      current := next;
    }

    method WakeWaitersFor(pid: nat)
      requires Valid()
      modifies table
      ensures table[..] == Woken(old(table[..]), pid)
    {
      ghost var was := table[..];
      for i := 0 to PROCESS_COUNT
        invariant forall k :: 0 <= k < PROCESS_COUNT ==> table[k] == if k < i then WokenOne(was[k], pid) else was[k]
      {
        if table[i].state.Blocked? {
          var wake := match table[i].target
            case OnPid(target) => target == pid
            case AnyChild => true
            case NoTarget => false;
          if wake {
            table[i] := table[i].(target := NoTarget, state := Ready);
          }
        }
      }
    }

    /** process_find_slot, then process_find_reapable_slot. */
    method FindSlot() returns (slot: nat)
      requires Valid()
      ensures slot == FreeSlot(table[..])
    {
      var empty := (p: Process) => p.state.Empty?;
      for i := 0 to PROCESS_COUNT
        invariant First(table[..], empty, 0) == First(table[..], empty, i)
      {
        if table[i].state.Empty? {
          return i;
        }
      }
      var reapable := (p: Process) => p.waited && Dead(p);
      for i := 0 to PROCESS_COUNT
        invariant First(table[..], reapable, 0) == First(table[..], reapable, i)
      {
        if table[i].waited && (table[i].state.Exited? || table[i].state.Failed?) {
          return i;
        }
      }
      return PROCESS_COUNT;
    }

    /** process_spawn and prepare_process; whether the program could be prepared is the caller's input. */
    method Spawn(prepared: bool) returns (pid: int)
      requires Valid()
      modifies this, table
      ensures Valid() && (Now(), pid) == Spawned(old(Now()), prepared)
    {
      var newPid := nextPid;
      nextPid := (nextPid + 1) % PID_SPACE;
      if nextPid == 0 {
        nextPid := 1;
      }
      var slot := FindSlot();
      if slot == PROCESS_COUNT {
        return -1;
      }
      ghost var s := old(Now());
      var parent := if current < PROCESS_COUNT then table[current].pid else 0;
      table[slot] := Process(newPid, parent, false, Loading, 0, NoTarget);
      at := at[slot := InProgram];
      if prepared {
        table[slot] := table[slot].(state := Ready, code := 0);
        assert table[..] == s.table[slot := Process(newPid, parent, false, Ready, 0, NoTarget)];
        return newPid;
      }
      table[slot] := table[slot].(state := Failed, code := -1);
      assert table[..] == s.table[slot := Process(newPid, parent, false, Failed, -1, NoTarget)];
      return -1;
    }

    /** run_program when the image is missing: the process it spawned fails and counts as reported. */
    method SpawnMissing()
      requires Valid()
      modifies this, table
      ensures Valid() && Now() == MissingStep(old(Now()))
    {
      var slot := FindSlot();
      var pid := Spawn(false);
      if slot < PROCESS_COUNT {
        table[slot] := table[slot].(waited := true);
      }
    }

    /** exit_and_yield. */
    method ExitAndYield(code: int)
      requires Valid() && current < PROCESS_COUNT
      modifies this, table
      ensures Valid() && Now() == ExitStep(old(Now()), code)
    {
      var pid := table[current].pid;
      table[current] := table[current].(state := Exited, code := code);
      WakeWaitersFor(pid);
      var next := PickNextReady();
      SwitchTo(next);
    }

    method MaybePreempt()
      requires Valid()
      modifies this, table
      ensures Valid() && Now() == TickStep(old(Now()))
    {
      if current < PROCESS_COUNT && !table[current].state.Running? {
        return;
      }
      var next := PickNextReady();
      if next == CONSOLE {
        return;
      }
      if current < PROCESS_COUNT {
        table[current] := table[current].(state := Ready);
        assert table[..] == old(table[..])[current := old(table[..])[current].(state := Ready)];
      }
      SwitchTo(next);
    }

    method BlockCurrentOn(target: Target, ghost resume: Where)
      requires Valid()
      modifies this`at, table
      ensures Valid() && Now() == Block(old(Now()), target, resume)
    {
      if current < PROCESS_COUNT {
        table[current] := table[current].(target := target, state := Blocked);
      }
      at := at[current := resume];
    }

    /** process_wait_by_pid. */
    method WaitByPid(pid: nat) returns (r: Report)
      requires Valid()
      modifies this`at, table
      ensures Valid()
      ensures (Now(), r) == CollectStep(old(Now()), pid)
    {
      ghost var s := Now();
      var ended := (p: Process) => p.pid == pid && Zombie(p);
      for i := 0 to PROCESS_COUNT
        invariant Now() == s && First(s.table, ended, 0) == First(s.table, ended, i)
      {
        if table[i].pid == pid && !table[i].waited && (table[i].state.Exited? || table[i].state.Failed?) {
          table[i] := table[i].(waited := true);
          at := at[current := InProgram];
          return Report(table[i].pid, table[i].state, table[i].code);
        }
      }
      return NoReport;
    }

    /** find_process_index_by_pid, as far as whether there is one. */
    method KnowsPid(pid: nat) returns (found: bool)
      requires Valid()
      ensures found <==> First(table[..], (p: Process) => p.pid == pid && !p.state.Empty?, 0) < PROCESS_COUNT
    {
      var known := (p: Process) => p.pid == pid && !p.state.Empty?;
      for i := 0 to PROCESS_COUNT
        invariant First(table[..], known, 0) == First(table[..], known, i)
      {
        if table[i].pid == pid && !table[i].state.Empty? {
          return true;
        }
      }
      return false;
    }

    /** One round of the loop in wait_for_pid_blocking. */
    method WaitRound(pid: nat) returns (r: Report)
      requires Valid()
      modifies this, table
      ensures Valid() && (Now(), r) == WaitStep(old(Now()), pid)
    {
      r := WaitByPid(pid);
      if r.Report? {
        return;
      }
      var found := KnowsPid(pid);
      if !found {
        at := at[current := InProgram];
        return;
      }
      BlockCurrentOn(OnPid(pid), InWait(pid));
      var next := PickNextReady();
      SwitchTo(next);
    }

    /** process_wait_any_child. */
    method WaitAnyChild(parent: nat) returns (r: Report)
      requires Valid()
      modifies this`at, table
      ensures Valid()
      ensures var z := First(old(table[..]), (p: Process) => p.parent == parent && Zombie(p), 0);
        if z < PROCESS_COUNT then (Now(), r) == Reaped(old(Now()), z) else Now() == old(Now()) && r == NoReport
    {
      ghost var s := Now();
      var ended := (p: Process) => p.parent == parent && Zombie(p);
      for i := 0 to PROCESS_COUNT
        invariant Now() == s && First(s.table, ended, 0) == First(s.table, ended, i)
      {
        if table[i].parent == parent && !table[i].waited && (table[i].state.Exited? || table[i].state.Failed?) {
          table[i] := table[i].(waited := true);
          at := at[current := InProgram];
          return Report(table[i].pid, table[i].state, table[i].code);
        }
      }
      return NoReport;
    }

    method AnyLiveChild(parent: nat) returns (found: bool)
      requires Valid()
      ensures found <==> First(table[..], (p: Process) => p.parent == parent && Live(p), 0) < PROCESS_COUNT
    {
      var alive := (p: Process) => p.parent == parent && Live(p);
      for i := 0 to PROCESS_COUNT
        invariant First(table[..], alive, 0) == First(table[..], alive, i)
      {
        if table[i].parent == parent && (table[i].state.Ready? || table[i].state.Running? || table[i].state.Blocked?) {
          return true;
        }
      }
      return false;
    }

    /** One round of the loop in wait_for_any_child_blocking. */
    method WaitAnyRound() returns (r: Report)
      requires Valid()
      modifies this, table
      ensures Valid() && (Now(), r) == WaitAnyStep(old(Now()))
    {
      var parent := if current < PROCESS_COUNT then table[current].pid else 0;
      r := WaitAnyChild(parent);
      if r.Report? {
        return;
      }
      var found := AnyLiveChild(parent);
      if !found {
        at := at[current := InProgram];
        return;
      }
      BlockCurrentOn(AnyChild, InWaitAny);
      var next := PickNextReady();
      SwitchTo(next);
    }
  }
}
