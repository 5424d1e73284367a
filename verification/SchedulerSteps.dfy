/** What each step of the scheduler does, read off the table before and after it. */
module SchedulerSteps {
  import opened Scheduling
  import opened SchedulerRuns

  /** An ended process that was not reported, whose parent is number `me`. */
  predicate EndedChild(p: Process, me: nat) {
    p.parent == me && Zombie(p)
  }

  predicate LiveChild(p: Process, me: nat) {
    p.parent == me && Live(p)
  }

  ghost predicate HasEnded(s: Sys, me: nat)
    requires Shape(s)
  {
    exists i: nat :: i < CONSOLE && EndedChild(s.table[i], me)
  }

  ghost predicate HasAlive(s: Sys, me: nat)
    requires Shape(s)
  {
    exists i: nat :: i < CONSOLE && LiveChild(s.table[i], me)
  }

  /** Slot `i` holds the first ended child, which is reported and changes in nothing but that. */
  predicate ReportsChild(s: Sys, s': Sys, r: Report, me: nat, i: nat)
    requires Shape(s) && i < CONSOLE
  {
    && EndedChild(s.table[i], me) && (forall k :: 0 <= k < i ==> !EndedChild(s.table[k], me))
    && r == Report(s.table[i].pid, s.table[i].state, s.table[i].code)
    && s' == s.(table := s.table[i := s.table[i].(waited := true)], at := s.at[s.current := InProgram])
  }

  /** One round of waiting for any child: a report comes exactly if a child has ended and was not reported, and is of
      the first such slot; otherwise a live child blocks the caller, and without one it goes on. */
  lemma WaitAnyOutcome(s: Sys)
    requires Basic(s) && Legal(s, WaitAny)
    ensures var (s', r) := Do(s, WaitAny); var me := s.table[s.current].pid;
      && (r.Report? <==> HasEnded(s, me))
      && (r.Report? ==> exists i: nat :: i < CONSOLE && ReportsChild(s, s', r, me, i))
      && (s'.table[s.current].state.Blocked? <==> !HasEnded(s, me) && HasAlive(s, me))
      && (s'.table[s.current].state.Blocked? ==>
            s'.table[s.current].target == AnyChild && s'.at[s.current] == InWaitAny && s'.current != s.current)
      && (r.NoReport? && !HasAlive(s, me) ==> s' == s.(at := s.at[s.current := InProgram]))
  {
    hide NextReady;
    var me := s.table[s.current].pid;
    var z := First(s.table, (p: Process) => p.parent == me && Zombie(p), 0);
    var l := First(s.table, (p: Process) => p.parent == me && Live(p), 0);
    var (s', r) := Do(s, WaitAny);
    if z < CONSOLE {
      assert EndedChild(s.table[z], me) && ReportsChild(s, s', r, me, z);
    } else {
      assert !HasEnded(s, me);
      if l < CONSOLE {
        assert LiveChild(s.table[l], me);
      }
    }
    BlockedNotNext(s, AnyChild, InWaitAny);
  }

  /** A parent that waits for any child gets the status of an ended one, of its only ended one if there is one, in the
      next round. */
  lemma WaitAnyDelivers(s: Sys, i: nat)
    requires Basic(s) && Legal(s, WaitAny) && i < CONSOLE && EndedChild(s.table[i], s.table[s.current].pid)
    ensures Do(s, WaitAny).1.Report?
    ensures (forall k :: 0 <= k < CONSOLE && EndedChild(s.table[k], s.table[s.current].pid) ==> k == i) ==>
      Do(s, WaitAny).1 == Report(s.table[i].pid, s.table[i].state, s.table[i].code)
  {
    WaitAnyOutcome(s);
  }

  /** A process blocked on any child is woken by the next exit, whosever it is, and by no other step. */
  lemma AnyWokenByExit(s: Sys, step: Step, i: nat)
    requires Basic(s) && Legal(s, step) && i < CONSOLE && s.table[i].state.Blocked? && s.table[i].target == AnyChild
    ensures var s' := Do(s, step).0;
      if step.Exit? then s'.table[i].state.Ready? || s'.table[i].state.Running?
      else s'.table[i] == s.table[i] && s'.at[i] == s.at[i] && s'.current != i
  {
    hide PidsOk;
    if step.Exit? {
      ExitWakes(s, step.code, i);
    } else {
      OnlyExitWakes(s, step, i);
    }
  }

  /** Spawning takes no slot of a process that is alive or unreported. With a free slot the caller has a new child,
      ready to run or failed and to be reported; without one only the number is used up. */
  lemma SpawnOutcome(s: Sys, prepared: bool)
    requires Basic(s) && Legal(s, Spawn(prepared))
    ensures var (s', r) := Spawned(s, prepared); var full := forall i :: 0 <= i < CONSOLE ==>
        Live(s.table[i]) || Zombie(s.table[i]);
      && s'.nextPid == s.nextPid + 1 && s'.current == s.current
      && (forall i :: 0 <= i < CONSOLE && (Live(s.table[i]) || Zombie(s.table[i])) ==>
            s'.table[i] == s.table[i] && s'.at[i] == s.at[i])
      && (full ==> r == -1 && s' == s.(nextPid := s.nextPid + 1))
      && (!full ==> HasChild(s', s.current, s.nextPid))
      && (!full && prepared ==> r == s.nextPid && HasLive(s', s.current, s.nextPid))
      && (!full && !prepared ==> r == -1 && Ended(s', s.nextPid, Failed, -1))
  {
    var i := FreeSlot(s.table);
    var s' := Spawned(s, prepared).0;
    if i < CONSOLE {
      assert !Live(s.table[i]) && !Zombie(s.table[i]);
      assert Awaited(s', s.current, s.nextPid, i);
      assert prepared || Zombie(s'.table[i]);
    }
  }

  /** The console's run of a program that does not exist uses up a number and nothing else: its process counts as
      reported, so nobody can wait for it and its slot is free again. */
  lemma MissingOutcome(s: Sys)
    requires Basic(s) && Legal(s, Missing)
    ensures var s' := MissingStep(s);
      && s'.nextPid == s.nextPid + 1 && s'.current == s.current && Spent(s', s.nextPid)
      && (forall i :: 0 <= i < CONSOLE && (Live(s.table[i]) || Zombie(s.table[i])) ==> s'.table[i] == s.table[i])
      && (forall i :: 0 <= i < CONSOLE && !Live(s.table[i]) && !Zombie(s.table[i]) ==>
            !Live(s'.table[i]) && !Zombie(s'.table[i]))
      && (forall j :: 0 <= j <= CONSOLE && j != FreeSlot(s.table) ==> s'.at[j] == s.at[j])
  {
  }

  /** An exit keeps the code for the parent, wakes who waits, and hands over to the first process that is ready then. */
  lemma ExitOutcome(s: Sys, code: int)
    requires Basic(s) && Legal(s, Exit(code))
    ensures var s' := ExitStep(s, code); var gone := s.table[s.current];
      && s'.table[s.current] == gone.(state := Exited, code := code) && s'.nextPid == s.nextPid && s'.at == s.at
      && (forall i :: 0 <= i < CONSOLE && i != s.current ==>
            s'.table[i].(state := s.table[i].state, target := s.table[i].target) == s.table[i])
      && (forall i :: 0 <= i < CONSOLE && i != s.current && i != s'.current ==>
            (s'.table[i].state.Ready? <==>
             s.table[i].state.Ready?
                 || (s.table[i].state.Blocked? && s.table[i].target in {OnPid(gone.pid), AnyChild})))
      && (forall i :: 0 <= i < s'.current ==> !s'.table[i].state.Ready?)
      && (s'.current < CONSOLE ==> s'.table[s'.current].state.Running?)
  {
    var woken := Buried(s, code);
    assert ExitStep(s, code) == SwitchTo(woken, NextReady(woken.table));
  }

  /** A tick hands over to the first ready process, which the interrupted one then is as well; without one nothing
      happens. */
  lemma TickOutcome(s: Sys)
    requires Basic(s) && Legal(s, Tick)
    ensures var s' := TickStep(s);
      if forall i :: 0 <= i < CONSOLE ==> !s.table[i].state.Ready? then s' == s
      else
        && s'.current < CONSOLE && s'.current != s.current && s.table[s'.current].state.Ready?
        && (forall i :: 0 <= i < s'.current ==> !s.table[i].state.Ready?)
        && s'.table[s'.current] == s.table[s'.current].(state := Running)
        && (s.current < CONSOLE ==> s'.table[s.current] == s.table[s.current].(state := Ready))
        && s'.at == s.at && s'.nextPid == s.nextPid
        && forall i :: 0 <= i < CONSOLE && i != s.current && i != s'.current ==> s'.table[i] == s.table[i]
  {
    var next := NextReady(s.table);
    if next < CONSOLE {
      assert s.table[next].state.Ready?;
    }
  }

  /** The console's `wait` command reports exactly an ended and unreported process of that number, and never blocks. */
  lemma CollectOutcome(s: Sys, pid: nat)
    requires Basic(s) && Legal(s, Collect(pid))
    ensures var (s', r) := CollectStep(s, pid);
      && s'.current == s.current
      && (forall i: nat :: i < CONSOLE && Zombie(s.table[i]) && s.table[i].pid == pid ==>
            r == Report(pid, s.table[i].state, s.table[i].code)
            && s' == s.(table := s.table[i := s.table[i].(waited := true)]))
      && ((forall i :: 0 <= i < CONSOLE ==> !(Zombie(s.table[i]) && s.table[i].pid == pid)) ==>
            s' == s && r == NoReport)
  {
    var z := First(s.table, (p: Process) => p.pid == pid && Zombie(p), 0);
    forall i: nat | i < CONSOLE && Zombie(s.table[i]) && s.table[i].pid == pid ensures i == z {
      OnlyOneWith(s, pid, i, z);
    }
    assert s.at[s.current := InProgram] == s.at;
  }
}
